/** Alert fusion with per-host hysteresis and cooldown (`src/alert_manager.cpp`). */
module AlertFusion {

  /** Clock ticks since the epoch (nanoseconds). */
  type Time = int
  const TICKS_PER_SECOND: int := 1_000_000_000

  datatype Config = Config(hysteresis: int, cooldownSeconds: int)

  function Cooldown(c: Config): int { c.cooldownSeconds * TICKS_PER_SECOND }

  datatype Evaluation = Evaluation(
    host: string, runId: string, ts: Time, aFlag: bool, aScore: real, bFlag: bool, bScore: real, details: string)

  datatype Alert = Alert(
    host: string, runId: string, ts: Time, severity: string, source: string, score: real, details: string)

  predicate Flagged(e: Evaluation) { e.aFlag || e.bFlag }

  function Fused(e: Evaluation): (a: Alert)
    ensures a.host == e.host && a.ts == e.ts
    ensures (e.aFlag ==> a.score >= e.aScore) && (e.bFlag ==> a.score >= e.bScore)
    ensures Flagged(e) ==> (e.aFlag && a.score == e.aScore) || (e.bFlag && a.score == e.bScore)
  {
    if e.aFlag && e.bFlag then
      Alert(e.host, e.runId, e.ts, "CRITICAL", "FUSION_A_B",
            if e.aScore < e.bScore then e.bScore else e.aScore, e.details)
    else if e.bFlag then
      Alert(e.host, e.runId, e.ts, "HIGH", "DETECTOR_B_PCA", e.bScore, e.details)
    else
      Alert(e.host, e.runId, e.ts, if e.aScore > 10.0 then "HIGH" else "MEDIUM", "DETECTOR_A_STATS",
            e.aScore, e.details)
  }

  /** Which alert is raised: both detectors, the PCA detector alone, or the statistical one alone, which is
      only severe above a score of ten. */
  lemma FusedMeans(e: Evaluation)
    requires Flagged(e)
    ensures var a := Fused(e);
      && a.runId == e.runId && a.details == e.details
      && (a.source == "FUSION_A_B" <==> e.aFlag && e.bFlag)
      && (a.source == "DETECTOR_B_PCA" <==> e.bFlag && !e.aFlag)
      && (a.source == "DETECTOR_A_STATS" <==> e.aFlag && !e.bFlag)
      && (a.severity == "CRITICAL" <==> e.aFlag && e.bFlag)
      && (a.severity == "MEDIUM" <==> e.aFlag && !e.bFlag && e.aScore <= 10.0)
      && (a.severity == "HIGH" <==> (e.bFlag && !e.aFlag) || (e.aFlag && !e.bFlag && e.aScore > 10.0))
  {
    assert "CRITICAL"[0] != "HIGH"[0] && "CRITICAL"[0] != "MEDIUM"[0] && "HIGH"[0] != "MEDIUM"[0];
    assert "FUSION_A_B"[0] == 'F' && "DETECTOR_B_PCA"[9] == 'B' && "DETECTOR_A_STATS"[9] == 'A';
    assert "DETECTOR_B_PCA"[0] == 'D' && "DETECTOR_A_STATS"[0] == 'D';
  }

  function SeverityRank(severity: string): nat {
    if severity == "CRITICAL" then 3 else if severity == "HIGH" then 2 else 1
  }

  /** More evidence never lowers the severity, and only both detectors together make it critical. */
  lemma SeverityMonotone(e: Evaluation, e': Evaluation)
    requires Flagged(e) && (e.aFlag ==> e'.aFlag && e.aScore <= e'.aScore) && (e.bFlag ==> e'.bFlag)
    ensures SeverityRank(Fused(e).severity) <= SeverityRank(Fused(e').severity)
    ensures Fused(e).severity == "CRITICAL" <==> e.aFlag && e.bFlag
  {
    assert "CRITICAL"[0] != "HIGH"[0] && "CRITICAL"[0] != "MEDIUM"[0] && "HIGH"[0] != "MEDIUM"[0];
  }

  datatype HostState = HostState(consecutive: nat, lastAlert: Time)

  const INITIAL := HostState(0, 0)

  predicate FiresIn(c: Config, s: HostState, e: Evaluation) {
    && Flagged(e) && s.consecutive + 1 >= c.hysteresis
    && !(s.lastAlert > 0 && e.ts - s.lastAlert < Cooldown(c))
  }

  function StepHost(c: Config, s: HostState, e: Evaluation): HostState {
    if FiresIn(c, s, e) then HostState(0, e.ts)
    else if Flagged(e) then s.(consecutive := s.consecutive + 1)
    else s.(consecutive := 0)
  }

  // ---------------------------------------------------------------- one host

  function StateAfter(c: Config, es: seq<Evaluation>): HostState {
    if es == [] then INITIAL else StepHost(c, StateAfter(c, es[..|es|-1]), es[|es|-1])
  }

  /** Evaluation `i` of the stream raises an alert. */
  predicate Fires(c: Config, es: seq<Evaluation>, i: nat)
    requires i < |es|
  {
    FiresIn(c, StateAfter(c, es[..i]), es[i])
  }

  lemma FiresPrefix(c: Config, es: seq<Evaluation>, n: nat, i: nat)
    requires i < n <= |es|
    ensures Fires(c, es[..n], i) == Fires(c, es, i) && es[..n][..i] == es[..i]
  {
    assert es[..n][..i] == es[..i];
  }

  /** The last `k` evaluations were all flagged and raised nothing. */
  ghost predicate QuietStreak(c: Config, es: seq<Evaluation>, k: nat) {
    k <= |es| && forall j :: |es| - k <= j < |es| ==> Flagged(es[j]) && !Fires(c, es, j)
  }

  /** The counter is the length of the current streak of flagged evaluations since the last alert. */
  lemma {:induction false} CounterIsStreak(c: Config, es: seq<Evaluation>, k: nat)
    ensures StateAfter(c, es).consecutive >= k <==> QuietStreak(c, es, k)
  {
    if es != [] && k > 0 {
      var n := |es| - 1;
      var before := es[..n];
      CounterIsStreak(c, before, k - 1);
      StreakStep(c, es, k);
    }
  }

  lemma StreakStep(c: Config, es: seq<Evaluation>, k: nat)
    requires es != [] && k > 0
    ensures var n := |es| - 1;
      QuietStreak(c, es, k) <==> Flagged(es[n]) && !Fires(c, es, n) && QuietStreak(c, es[..n], k - 1)
  {
    var n := |es| - 1;
    var before := es[..n];
    forall j | 0 <= j < n ensures Fires(c, before, j) == Fires(c, es, j) && before[j] == es[j] {
      FiresPrefix(c, es, n, j);
    }
  }

  /** The time of the last alert, or zero. */
  function LastAlertTime(c: Config, es: seq<Evaluation>): Time {
    if es == [] then 0
    else if Fires(c, es, |es| - 1) then es[|es|-1].ts
    else LastAlertTime(c, es[..|es|-1])
  }

  lemma {:induction false} MemoryIsLastAlert(c: Config, es: seq<Evaluation>)
    ensures StateAfter(c, es).lastAlert == LastAlertTime(c, es)
  {
    if es != [] { MemoryIsLastAlert(c, es[..|es|-1]); }
  }

  function Needed(c: Config): nat { if c.hysteresis < 1 then 1 else c.hysteresis }

  /** An alert is raised exactly when the latest `max(1, hysteresis)` evaluations of the host are all
      flagged, none of the earlier ones among them raised an alert, and the last alert (if it carries a
      time after the epoch) is at least the cooldown ago. */
  lemma FiresExactlyWhen(c: Config, es: seq<Evaluation>, i: nat)
    requires i < |es|
    ensures var h, last := Needed(c), LastAlertTime(c, es[..i]);
      Fires(c, es, i) <==>
        && h <= i + 1
        && (forall j :: i + 1 - h <= j <= i ==> Flagged(es[j]))
        && (forall j :: i + 1 - h <= j < i ==> !Fires(c, es, j))
        && (last > 0 ==> es[i].ts >= last + c.cooldownSeconds * 1_000_000_000)
  {
    var before := es[..i];
    CounterIsStreak(c, before, Needed(c) - 1);
    MemoryIsLastAlert(c, before);
    forall j | 0 <= j < i ensures Fires(c, before, j) == Fires(c, es, j) && before[j] == es[j] {
      FiresPrefix(c, es, i, j);
    }
  }

  // ---------------------------------------------------------------- spacing of alerts

  /** The alerts of a stream. */
  function Alerts(c: Config, es: seq<Evaluation>): seq<Alert> {
    if es == [] then []
    else
      var before := Alerts(c, es[..|es|-1]);
      if Fires(c, es, |es| - 1) then before + [Fused(es[|es|-1])] else before
  }

  lemma {:induction false} LatestAlert(c: Config, es: seq<Evaluation>)
    ensures var a := Alerts(c, es); LastAlertTime(c, es) == if a == [] then 0 else a[|a|-1].ts
  {
    if es != [] { LatestAlert(c, es[..|es|-1]); }
  }

  lemma {:induction false} NeighboursSpaced(c: Config, es: seq<Evaluation>)
    ensures var a := Alerts(c, es);
      forall k :: 0 < k < |a| && a[k-1].ts > 0 ==> a[k].ts >= a[k-1].ts + Cooldown(c)
  {
    if es != [] {
      var before := es[..|es|-1];
      NeighboursSpaced(c, before);
      LatestAlert(c, before);
      MemoryIsLastAlert(c, before);
    }
  }

  lemma {:induction false} SpacedOut(a: seq<Alert>, gap: int, i: nat, j: nat)
    requires i <= j < |a| && forall k :: i < k <= j ==> a[k].ts >= a[k-1].ts + gap
    ensures a[j].ts >= a[i].ts + (j - i) * gap
    decreases j - i
  {
    if i < j {
      SpacedOut(a, gap, i, j - 1);
      assert (j - i) * gap == (j - 1 - i) * gap + gap;
    }
  }

  /** The k-th alert of a host comes at least `k - i` cooldowns after its i-th, if the alerts from the
      i-th up to the k-th carry times after the epoch. */
  lemma AlertsSpaced(c: Config, es: seq<Evaluation>, i: nat, k: nat)
    requires i <= k < |Alerts(c, es)| && forall m :: i <= m < k ==> Alerts(c, es)[m].ts > 0
    ensures Alerts(c, es)[k].ts >= Alerts(c, es)[i].ts + (k - i) * (c.cooldownSeconds * 1_000_000_000)
  {
    NeighboursSpaced(c, es);
    SpacedOut(Alerts(c, es), Cooldown(c), i, k);
  }

  lemma {:induction false} AlertsGrow(c: Config, es: seq<Evaluation>, more: seq<Evaluation>)
    ensures Alerts(c, es) <= Alerts(c, es + more)
    decreases |more|
  {
    if more == [] { assert es + more == es; }
    else {
      var n := |more| - 1;
      AlertsGrow(c, es, more[..n]);
      assert (es + more)[..|es + more|-1] == es + more[..n];
    }
  }

  /** If `more` brings exactly one further alert, it is at least a cooldown after the end of `es`. */
  ghost predicate NextAlertSpaced(c: Config, es: seq<Evaluation>, more: seq<Evaluation>)
    requires es != []
  {
    var n, a := |Alerts(c, es)|, Alerts(c, es + more);
    |a| == n + 1 ==> a[n].ts >= es[|es|-1].ts + Cooldown(c)
  }

  function Copies(e: Evaluation, n: nat): (r: seq<Evaluation>)
    ensures |r| == n && forall i :: 0 <= i < n ==> r[i] == e
  {
    seq(n, _ => e)
  }

  /** Flagged evaluations after an alert at or before the epoch: the counter climbs again and the cooldown
      is not looked at. */
  lemma {:induction false} ClimbAgain(c: Config, es: seq<Evaluation>, last: Time, f: Evaluation, j: nat)
    requires StateAfter(c, es) == HostState(0, last) && last <= 0 && Flagged(f) && j < Needed(c)
    ensures StateAfter(c, es + Copies(f, j)) == HostState(j, last)
    ensures Alerts(c, es + Copies(f, j)) == Alerts(c, es)
  {
    if j == 0 { assert es + Copies(f, 0) == es; }
    else {
      ClimbAgain(c, es, last, f, j - 1);
      OneMore(c, es + Copies(f, j - 1), f);
      assert es + Copies(f, j) == es + Copies(f, j - 1) + [f];
    }
  }

  lemma OneMore(c: Config, es: seq<Evaluation>, f: Evaluation)
    ensures StateAfter(c, es + [f]) == StepHost(c, StateAfter(c, es), f)
    ensures Alerts(c, es + [f]) ==
            if FiresIn(c, StateAfter(c, es), f) then Alerts(c, es) + [Fused(f)] else Alerts(c, es)
  {
    assert (es + [f])[..|es|] == es;
  }

  /** After an alert, every continuation keeps the cooldown before the next one if and only if that
      alert carries a time after the epoch: at or before it, the alert is taken for "none yet". */
  lemma CooldownKeptExactly(c: Config, es: seq<Evaluation>)
    requires es != [] && Fires(c, es, |es| - 1)
    ensures (forall more :: NextAlertSpaced(c, es, more)) <==> es[|es|-1].ts > 0
  {
    var e, n := es[|es|-1], |Alerts(c, es)|;
    if e.ts > 0 {
      forall more ensures NextAlertSpaced(c, es, more) {
        AlertsGrow(c, es, more);
        NeighboursSpaced(c, es + more);
        var a := Alerts(c, es + more);
        assert a[n-1] == Alerts(c, es)[n-1] == Fused(e);
      }
    } else {
      var h, f := Needed(c), e.(ts := e.ts + Cooldown(c) - 1);
      ClimbAgain(c, es, e.ts, f, h - 1);
      OneMore(c, es + Copies(f, h - 1), f);
      assert es + Copies(f, h) == es + Copies(f, h - 1) + [f];
      assert !NextAlertSpaced(c, es, Copies(f, h));
    }
  }

  /** Two alerts at the epoch with no cooldown between them. */
  lemma EpochDefeatsCooldown()
    ensures exists es: seq<Evaluation> :: |es| == 2 && es[0].ts == es[1].ts == 0 && |Alerts(Config(1, 600), es)| == 2
  {
    var e := Evaluation("host", "run", 0, true, 4.0, false, 0.0, "");
    var c, es := Config(1, 600), [e, e];
    assert es[..1] == [e] && es[..0] == [] && [e][..0] == [];
    assert StateAfter(c, []) == INITIAL;
    assert FiresIn(c, INITIAL, e);
    assert StateAfter(c, [e]) == HostState(0, 0);
    assert Alerts(c, [e]) == [Fused(e)];
    assert |Alerts(c, es)| == 2;
  }

  // ---------------------------------------------------------------- many hosts

  function For(log: seq<Evaluation>, host: string): seq<Evaluation> {
    if log == [] then []
    else
      var before := For(log[..|log|-1], host);
      if log[|log|-1].host == host then before + [log[|log|-1]] else before
  }

  function AlertsFor(alerts: seq<Alert>, host: string): seq<Alert> {
    if alerts == [] then []
    else
      var before := AlertsFor(alerts[..|alerts|-1], host);
      if alerts[|alerts|-1].host == host then before + [alerts[|alerts|-1]] else before
  }

  function Lookup(states: map<string, HostState>, host: string): HostState {
    if host in states then states[host] else INITIAL
  }

  /** The host's state and alerts are those of its own evaluations alone. */
  ghost predicate Tracks(c: Config, states: map<string, HostState>, log: seq<Evaluation>, raised: seq<Alert>,
                         host: string)
  {
    && Lookup(states, host) == StateAfter(c, For(log, host))
    && AlertsFor(raised, host) == Alerts(c, For(log, host))
  }

  function Raise(c: Config, s: HostState, e: Evaluation): seq<Alert> {
    if FiresIn(c, s, e) then [Fused(e)] else []
  }

  /** One evaluation, seen by any host: interleaving other hosts changes nothing. */
  lemma TracksStep(c: Config, states: map<string, HostState>, log: seq<Evaluation>, raised: seq<Alert>,
                   e: Evaluation, host: string)
    requires Tracks(c, states, log, raised, host)
    ensures var s := Lookup(states, e.host);
      Tracks(c, states[e.host := StepHost(c, s, e)], log + [e], raised + Raise(c, s, e), host)
  {
    var alerts := Raise(c, Lookup(states, e.host), e);
    assert (log + [e])[..|log|] == log;
    AlertsForAppend(raised, alerts, host);
    if e.host == host {
      var own := For(log, host);
      assert (own + [e])[..|own|] == own;
    }
  }

  lemma AlertsForAppend(raised: seq<Alert>, alerts: seq<Alert>, host: string)
    requires |alerts| <= 1
    ensures AlertsFor(raised + alerts, host) ==
            if alerts != [] && alerts[0].host == host then AlertsFor(raised, host) + alerts else AlertsFor(raised, host)
  {
    if alerts == [] { assert raised + alerts == raised; }
    else { assert (raised + alerts)[..|raised|] == raised && alerts == [alerts[0]]; }
  }

  class AlertManager {
    const config: Config
    var states: map<string, HostState>
    ghost var log: seq<Evaluation>
    ghost var raised: seq<Alert>

    ghost predicate Valid()
      reads this
    {
      forall host :: Tracks(config, states, log, raised, host)
    }

    constructor (hysteresis: int := 2, cooldownSeconds: int := 600)
      ensures Valid() && log == [] && raised == [] && config == Config(hysteresis, cooldownSeconds)
    {
      config := Config(hysteresis, cooldownSeconds);
      states := map[];
      log, raised := [], [];
    }

    method Evaluate(e: Evaluation) returns (alerts: seq<Alert>)
      requires Valid()
      modifies this
      ensures Valid() && log == old(log) + [e] && raised == old(raised) + alerts
      ensures alerts == Raise(config, Lookup(old(states), e.host), e)
      ensures forall host :: host != e.host ==> Lookup(states, host) == Lookup(old(states), host)
    {
      alerts := [];
      var state := Lookup(states, e.host);
      if Flagged(e) {
        state := state.(consecutive := state.consecutive + 1);
        if state.consecutive >= config.hysteresis
           && !(state.lastAlert > 0 && e.ts - state.lastAlert < Cooldown(config)) {
          alerts := [Fused(e)];
          state := HostState(0, e.ts);
        }
      } else {
        state := state.(consecutive := 0);
      }
      assert state == StepHost(config, Lookup(states, e.host), e) && alerts == Raise(config, Lookup(states, e.host), e);
      ghost var states', log', raised' := states[e.host := state], log + [e], raised + alerts;
      forall host ensures Tracks(config, states', log', raised', host) {
        TracksStep(config, states, log, raised, e, host);
      }
      states := states[e.host := state];
      log, raised := log', raised';
    }
  }
}
