/** The tuning orchestrator (`ApiServer::OrchestrateTuning`): it creates one run per trial, then launches
    them in order under a concurrency limit and polls until all are terminal. */
module TuningLoop {
  import HpoSearch

  type Id = string

  type Trial = HpoSearch.Trial

  // ---------------------------------------------------------------- trial creation

  /** The ids the launch loop uses: creations that returned an empty id are left out. */
  function TrialIds(created: seq<Id>): (ids: seq<Id>)
    ensures |ids| <= |created|
  {
    if created == [] then []
    else
      var before, id := TrialIds(created[..|created|-1]), created[|created|-1];
      if id != "" then before + [id] else before
  }

  method CreateTrials(created: seq<Id>) returns (ids: seq<Id>)
    ensures ids == TrialIds(created)
  {
    ids := [];
    for i := 0 to |created|
      invariant ids == TrialIds(created[..i])
    {
      assert created[..i+1][..i] == created[..i];
      if created[i] != "" { ids := ids + [created[i]]; }
    }
    assert created[..|created|] == created;
  }

  lemma {:induction false} AllCreated(created: seq<Id>)
    requires forall i :: 0 <= i < |created| ==> created[i] != ""
    ensures TrialIds(created) == created
  {
    if created != [] { AllCreated(created[..|created|-1]); }
  }

  /** Later failures change nothing before them. */
  lemma {:induction false} TrialIdsPrefix(created: seq<Id>, n: nat)
    requires n <= |created|
    ensures |TrialIds(created[..n])| <= |TrialIds(created)|
    ensures TrialIds(created)[..|TrialIds(created[..n])|] == TrialIds(created[..n])
    ensures forall k :: |TrialIds(created[..n])| <= k < |TrialIds(created)| ==> TrialIds(created)[k] != ""
    decreases |created|
  {
    if n == |created| { assert created[..n] == created; }
    else {
      TrialIdsPrefix(created[..|created|-1], n);
      assert created[..|created|-1][..n] == created[..n];
    }
  }

  lemma {:induction false} TrialIdsGrow(created: seq<Id>, n: nat, j: nat)
    requires n <= j < |created| && created[j] != ""
    ensures |TrialIds(created)| > |TrialIds(created[..n])|
    decreases |created|
  {
    var m := |created| - 1;
    if j == m {
      TrialIdsPrefix(created[..m], n);
      assert created[..m][..n] == created[..n];
    } else {
      TrialIdsGrow(created[..m], n, j);
      assert created[..m][..n] == created[..n];
    }
  }

  /** No creation succeeded after one that failed. */
  ghost predicate NoLateSuccess(created: seq<Id>) {
    forall i, j :: 0 <= i < j < |created| && created[j] != "" ==> created[i] != ""
  }

  /** Every launched run gets its own configuration exactly when no creation succeeded after one that
      failed: ids and configurations are paired by position. */
  lemma PairedExactly(created: seq<Id>)
    ensures (forall k :: 0 <= k < |TrialIds(created)| ==> TrialIds(created)[k] == created[k])
      <==> NoLateSuccess(created)
  {
    var ids := TrialIds(created);
    if NoLateSuccess(created) {
      PairedWhenPrefix(created);
    } else {
      var i, j :| 0 <= i < j < |created| && created[j] != "" && created[i] == "";
      var f := FirstEmpty(created, i);
      AllCreated(created[..f]);
      TrialIdsPrefix(created, f);
      TrialIdsGrow(created, f, j);
      assert ids[f] != created[f];
    }
  }

  /** The first creation fails and the second succeeds: the run of the second configuration is launched
      with the first. */
  lemma LateSuccessMispairs(t: Task, first: Trial, second: Trial)
    requires t.trials == [first, second] && t.ids == TrialIds(["", "b"]) && t.limit > 0
    ensures Orchestrate(t, [Turn(false, {}, {})]).launched == [("b", first)]
  {
    var created: seq<Id> := ["", "b"];
    assert created[..1] == [""] && created[..1][..0] == [];
    assert TrialIds([""]) == [] && t.ids == ["b"];
    var u := Turn(false, {}, {});
    assert [u][..0] == [] && Orchestrate(t, []) == START;
    var p := Progress(1, {"b"}, [("b", first)], Going);
    assert LaunchUp(t, p, {}) == p;
    assert START.active + {"b"} == {"b"} && START.launched + [("b", first)] == [("b", first)];
    assert LaunchUp(t, START, {}) == p;
  }

  lemma {:induction false} PairedWhenPrefix(created: seq<Id>)
    requires NoLateSuccess(created)
    ensures forall k :: 0 <= k < |TrialIds(created)| ==> TrialIds(created)[k] == created[k]
  {
    if created != [] {
      var m := |created| - 1;
      var before := created[..m];
      PairedWhenPrefix(before);
      if created[m] != "" {
        assert forall i :: 0 <= i < m ==> before[i] == created[i] != "";
        AllCreated(before);
      }
    }
  }

  lemma {:induction false} FirstEmpty(created: seq<Id>, i: nat) returns (f: nat)
    requires i < |created| && created[i] == ""
    ensures f <= i && created[f] == "" && forall k :: 0 <= k < f ==> created[k] != ""
  {
    if k :| 0 <= k < i && created[k] == "" { f := FirstEmpty(created, k); } else { f := i; }
  }

  // ---------------------------------------------------------------- the launch loop

  /** `ids[k]` is the run of `trials[k]`; `limit` is `max_concurrency`. */
  datatype Task = Task(ids: seq<Id>, trials: seq<Trial>, limit: nat)

  ghost predicate ValidTask(t: Task) {
    |t.ids| <= |t.trials| && forall i, j :: 0 <= i < j < |t.ids| ==> t.ids[i] != t.ids[j]
  }

  /** What the outside decides in one turn of the loop: the stop flag, which launches are refused, and
      which runs are seen terminal when polled. */
  datatype Turn = Turn(stop: bool, refused: set<nat>, terminal: set<Id>)

  datatype End = Going | Finished | Stopped | Threw

  datatype Progress = Progress(next: nat, active: set<Id>, launched: seq<(Id, Trial)>, end: End)

  const START := Progress(0, {}, [], Going)

  function LaunchOne(t: Task, p: Progress): Progress
    requires p.next < |t.ids| <= |t.trials|
  {
    p.(next := p.next + 1, active := p.active + {t.ids[p.next]},
       launched := p.launched + [(t.ids[p.next], t.trials[p.next])])
  }

  /** The inner loop. */
  function LaunchUp(t: Task, p: Progress, refused: set<nat>): (r: Progress)
    requires |t.ids| <= |t.trials| && p.next <= |t.ids|
    ensures p.next <= r.next <= |t.ids|
    decreases |t.ids| - p.next
  {
    if p.next < |t.ids| && |p.active| < t.limit then
      if p.next in refused then p.(end := Threw) else LaunchUp(t, LaunchOne(t, p), refused)
    else p
  }

  /** One turn of the outer loop, its exit test included. */
  function TakeTurn(t: Task, p: Progress, u: Turn): (r: Progress)
    requires |t.ids| <= |t.trials| && p.next <= |t.ids|
    ensures r.next <= |t.ids|
  {
    if p.end != Going then p
    else if !(p.next < |t.ids| || p.active != {}) then p.(end := Finished)
    else if u.stop then p.(end := Stopped)
    else
      var q := LaunchUp(t, p, u.refused);
      if q.end != Going then q else q.(active := q.active - u.terminal)
  }

  function Orchestrate(t: Task, turns: seq<Turn>): (r: Progress)
    requires |t.ids| <= |t.trials|
    ensures r.next <= |t.ids|
  {
    if turns == [] then START else TakeTurn(t, Orchestrate(t, turns[..|turns|-1]), turns[|turns|-1])
  }

  // ---------------------------------------------------------------- invariants of every run

  function InOrder(t: Task, n: nat): (r: seq<(Id, Trial)>)
    requires n <= |t.ids| <= |t.trials|
    ensures |r| == n && forall k :: 0 <= k < n ==> r[k] == (t.ids[k], t.trials[k])
  {
    seq(n, k requires 0 <= k < n => (t.ids[k], t.trials[k]))
  }

  /** Ids seen terminal by some poll. */
  function Reported(turns: seq<Turn>): set<Id> {
    if turns == [] then {} else Reported(turns[..|turns|-1]) + turns[|turns|-1].terminal
  }

  ghost predicate Inv(t: Task, p: Progress, reported: set<Id>) {
    && p.next <= |t.ids| <= |t.trials|
    && p.launched == InOrder(t, p.next)
    && |p.active| <= t.limit
    && (forall id :: id in p.active ==> id in t.ids[..p.next])
    && (forall k :: 0 <= k < p.next && t.ids[k] !in p.active ==> t.ids[k] in reported)
    && (p.end == Finished ==> p.next == |t.ids| && p.active == {})
  }

  lemma LaunchOneInv(t: Task, p: Progress, reported: set<Id>)
    requires ValidTask(t) && Inv(t, p, reported) && p.end == Going
    requires p.next < |t.ids| && |p.active| < t.limit
    ensures Inv(t, LaunchOne(t, p), reported) && |LaunchOne(t, p).active| == |p.active| + 1
  {
    var q := LaunchOne(t, p);
    assert t.ids[p.next] !in t.ids[..p.next];
    assert t.ids[..q.next] == t.ids[..p.next] + [t.ids[p.next]];
    InOrderGrows(t, p.next);
  }

  lemma InOrderGrows(t: Task, n: nat)
    requires n < |t.ids| <= |t.trials|
    ensures InOrder(t, n + 1) == InOrder(t, n) + [(t.ids[n], t.trials[n])]
  {}

  lemma {:induction false} LaunchInv(t: Task, p: Progress, refused: set<nat>, reported: set<Id>)
    requires ValidTask(t) && Inv(t, p, reported) && p.end == Going
    ensures Inv(t, LaunchUp(t, p, refused), reported)
    ensures var q := LaunchUp(t, p, refused);
      q.end == Going ==> q.next == |t.ids| || |q.active| >= t.limit
    decreases |t.ids| - p.next
  {
    if p.next < |t.ids| && |p.active| < t.limit && p.next !in refused {
      LaunchOneInv(t, p, reported);
      LaunchInv(t, LaunchOne(t, p), refused, reported);
    }
  }

  lemma SmallerSet(a: set<Id>, b: set<Id>)
    requires a <= b
    ensures |a| <= |b|
  {
    assert b == a + (b - a);
  }

  lemma TurnInv(t: Task, p: Progress, u: Turn, reported: set<Id>)
    requires ValidTask(t) && Inv(t, p, reported)
    ensures Inv(t, TakeTurn(t, p, u), reported + u.terminal)
  {
    if p.end == Going && (p.next < |t.ids| || p.active != {}) && !u.stop {
      LaunchInv(t, p, u.refused, reported);
      var q := LaunchUp(t, p, u.refused);
      SmallerSet(q.active - u.terminal, q.active);
    }
  }

  /** In every run: never more than `max_concurrency` trials are active; what was launched is the first
      `next` trials, in order, each once and with the configuration at its position; a launched trial
      that is no longer active was seen terminal; and the loop finishes only after every trial was
      launched and seen terminal. */
  lemma {:induction false} EveryRun(t: Task, turns: seq<Turn>)
    requires ValidTask(t)
    ensures Inv(t, Orchestrate(t, turns), Reported(turns))
    ensures Orchestrate(t, turns).end == Finished ==>
      && Orchestrate(t, turns).launched == InOrder(t, |t.ids|)
      && forall k :: 0 <= k < |t.ids| ==> t.ids[k] in Reported(turns)
  {
    if turns != [] {
      var n := |turns| - 1;
      EveryRun(t, turns[..n]);
      TurnInv(t, Orchestrate(t, turns[..n]), turns[n], Reported(turns[..n]));
    }
  }

  // ---------------------------------------------------------------- stopping

  /** Trials are left to launch or to wait for. */
  predicate WorkLeft(t: Task, p: Progress) { p.next < |t.ids| || p.active != {} }

  /** The turns `more` taken from `p` on. */
  function Continue(t: Task, p: Progress, more: seq<Turn>): (r: Progress)
    requires |t.ids| <= |t.trials| && p.next <= |t.ids|
    ensures r.next <= |t.ids|
    decreases |more|
  {
    if more == [] then p else Continue(t, TakeTurn(t, p, more[0]), more[1..])
  }

  lemma {:induction false} ContinueAppend(t: Task, p: Progress, more: seq<Turn>, u: Turn)
    requires |t.ids| <= |t.trials| && p.next <= |t.ids|
    ensures Continue(t, p, more + [u]) == TakeTurn(t, Continue(t, p, more), u)
    decreases |more|
  {
    if more == [] { assert (more + [u])[1..] == []; }
    else {
      assert (more + [u])[0] == more[0] && (more + [u])[1..] == more[1..] + [u];
      ContinueAppend(t, TakeTurn(t, p, more[0]), more[1..], u);
    }
  }

  lemma {:induction false} OrchestrateSplits(t: Task, first: seq<Turn>, more: seq<Turn>)
    requires |t.ids| <= |t.trials|
    ensures Orchestrate(t, first + more) == Continue(t, Orchestrate(t, first), more)
    decreases |more|
  {
    if more == [] { assert first + more == first; }
    else {
      var before, u := more[..|more|-1], more[|more|-1];
      OrchestrateSplits(t, first, before);
      OneMore(t, first + before, u);
      assert first + before + [u] == first + more && before + [u] == more;
      ContinueAppend(t, Orchestrate(t, first), before, u);
    }
  }

  lemma {:induction false} EndedContinues(t: Task, p: Progress, more: seq<Turn>)
    requires |t.ids| <= |t.trials| && p.next <= |t.ids| && p.end != Going
    ensures Continue(t, p, more) == p
    decreases |more|
  {
    if more != [] {
      EndedStays(t, p, more[0]);
      EndedContinues(t, p, more[1..]);
    }
  }

  /** A raised stop flag ends the loop at that turn, for good and with nothing more launched. */
  lemma {:induction false} StopEndsLoop(t: Task, first: seq<Turn>, u: Turn, more: seq<Turn>, p: Progress)
    requires |t.ids| <= |t.trials| && u.stop
    requires p == Orchestrate(t, first) && p.end == Going && WorkLeft(t, p)
    ensures Orchestrate(t, first + [u] + more) == p.(end := Stopped)
  {
    OneMore(t, first, u);
    StopTurn(t, p, u);
    OrchestrateSplits(t, first + [u], more);
    EndedContinues(t, p.(end := Stopped), more);
  }

  lemma EndedStays(t: Task, p: Progress, u: Turn)
    requires |t.ids| <= |t.trials| && p.next <= |t.ids| && p.end != Going
    ensures TakeTurn(t, p, u) == p
  {}

  lemma StopTurn(t: Task, p: Progress, u: Turn)
    requires |t.ids| <= |t.trials| && p.next <= |t.ids| && p.end == Going && WorkLeft(t, p) && u.stop
    ensures TakeTurn(t, p, u) == p.(end := Stopped)
  {}

  /** Nothing else ends it that way. */
  lemma {:induction false} StoppedOnlyByFlag(t: Task, turns: seq<Turn>) returns (k: nat)
    requires |t.ids| <= |t.trials| && Orchestrate(t, turns).end == Stopped
    ensures k < |turns| && turns[k].stop
    ensures var p := Orchestrate(t, turns[..k]); p.end == Going && WorkLeft(t, p)
  {
    var n := |turns| - 1;
    if Orchestrate(t, turns[..n]).end == Stopped {
      k := StoppedOnlyByFlag(t, turns[..n]);
      assert turns[..n][..k] == turns[..k];
    } else {
      LaunchEnds(t, Orchestrate(t, turns[..n]), turns[n].refused);
      k := n;
    }
  }

  lemma {:induction false} LaunchEnds(t: Task, p: Progress, refused: set<nat>)
    requires |t.ids| <= |t.trials| && p.next <= |t.ids| && p.end == Going
    ensures LaunchUp(t, p, refused).end == Going || LaunchUp(t, p, refused).end == Threw
    decreases |t.ids| - p.next
  {
    if p.next < |t.ids| && |p.active| < t.limit && p.next !in refused {
      LaunchEnds(t, LaunchOne(t, p), refused);
    }
  }

  // ---------------------------------------------------------------- progress

  /** Launched and seen terminal. */
  function Retired(p: Progress): int { p.next - |p.active| }

  ghost predicate Productive(t: Task, p: Progress, u: Turn)
    requires |t.ids| <= |t.trials| && p.next <= |t.ids|
  {
    !u.stop && u.refused == {} && (p.end == Going && (p.next < |t.ids| || p.active != {}) ==>
      exists id :: id in LaunchUp(t, p, {}).active && id in u.terminal)
  }

  lemma {:induction false} LaunchKeepsRetired(t: Task, p: Progress)
    requires ValidTask(t) && p.next <= |t.ids| && p.end == Going
    requires forall id :: id in p.active ==> id in t.ids[..p.next]
    ensures var q := LaunchUp(t, p, {}); Retired(q) == Retired(p) && q.end == Going
    decreases |t.ids| - p.next
  {
    if p.next < |t.ids| && |p.active| < t.limit {
      var q := LaunchOne(t, p);
      assert t.ids[p.next] !in t.ids[..p.next];
      assert t.ids[..q.next] == t.ids[..p.next] + [t.ids[p.next]];
      LaunchKeepsRetired(t, q);
    }
  }

  ghost predicate AllProductive(t: Task, turns: seq<Turn>)
    requires |t.ids| <= |t.trials|
  {
    forall k :: 0 <= k < |turns| ==> Productive(t, Orchestrate(t, turns[..k]), turns[k])
  }

  /** One productive turn either finishes or retires a trial. */
  lemma ProductiveTurn(t: Task, p: Progress, u: Turn, reported: set<Id>)
    requires ValidTask(t) && Inv(t, p, reported) && p.end == Going && Productive(t, p, u)
    ensures var q := TakeTurn(t, p, u); q.end == Finished || (q.end == Going && Retired(q) >= Retired(p) + 1)
  {
    if p.next < |t.ids| || p.active != {} {
      LaunchKeepsRetired(t, p);
      var q := LaunchUp(t, p, {});
      var id :| id in q.active && id in u.terminal;
      SmallerSet(q.active - u.terminal, q.active - {id});
    }
  }

  lemma ProductivePrefix(t: Task, turns: seq<Turn>, n: nat)
    requires |t.ids| <= |t.trials| && AllProductive(t, turns) && n <= |turns|
    ensures AllProductive(t, turns[..n])
  {
    forall k | 0 <= k < n ensures Productive(t, Orchestrate(t, turns[..n][..k]), turns[..n][k]) {
      assert turns[..n][..k] == turns[..k];
    }
  }

  lemma {:induction false} RetiresOnePerTurn(t: Task, turns: seq<Turn>)
    requires ValidTask(t) && AllProductive(t, turns)
    ensures var p := Orchestrate(t, turns); p.end == Finished || (p.end == Going && Retired(p) >= |turns|)
  {
    if turns != [] {
      var n := |turns| - 1;
      ProductivePrefix(t, turns, n);
      RetiresOnePerTurn(t, turns[..n]);
      EveryRun(t, turns[..n]);
      if Orchestrate(t, turns[..n]).end == Going {
        ProductiveTurn(t, Orchestrate(t, turns[..n]), turns[n], Reported(turns[..n]));
      }
    }
  }

  /** If nothing stops it, no launch is refused and every poll retires some trial, the loop finishes,
      after at most one turn more than there are trials. */
  lemma FinishesInTime(t: Task, turns: seq<Turn>)
    requires ValidTask(t) && AllProductive(t, turns) && |turns| > |t.ids|
    ensures Orchestrate(t, turns).end == Finished
  {
    RetiresOnePerTurn(t, turns);
    EveryRun(t, turns);
  }

  // ---------------------------------------------------------------- the code

  class Orchestrator {
    const task: Task
    var next: nat
    var active: set<Id>
    var launched: seq<(Id, Trial)>
    var end: End
    ghost var turns: seq<Turn>

    function Value(): Progress
      reads this
    {
      Progress(next, active, launched, end)
    }

    ghost predicate Valid()
      reads this
    {
      |task.ids| <= |task.trials| && Value() == Orchestrate(task, turns)
    }

    constructor (task: Task)
      requires |task.ids| <= |task.trials|
      ensures Valid() && this.task == task && turns == []
    {
      this.task := task;
      next, active, launched, end, turns := 0, {}, [], Going, [];
    }

    /** Start new trials up to the limit; false if a launch threw. */
    method Launch(refused: set<nat>) returns (ok: bool)
      requires |task.ids| <= |task.trials| && next <= |task.ids| && end == Going
      modifies this`next, this`active, this`launched, this`end
      ensures Value() == LaunchUp(task, old(Value()), refused) && ok == (end == Going)
    {
      ghost var goal := LaunchUp(task, Value(), refused);
      while next < |task.ids| && |active| < task.limit
        invariant end == Going && next <= |task.ids| && LaunchUp(task, Value(), refused) == goal
        decreases |task.ids| - next
      {
        if next in refused { end := Threw; return false; }
        active := active + {task.ids[next]};
        launched := launched + [(task.ids[next], task.trials[next])];
        next := next + 1;
      }
      return true;
    }

    /** Drop the active trials whose stored status is terminal. */
    method Poll(terminal: set<Id>)
      modifies this`active
      ensures active == old(active) - terminal
    {
      ghost var was := active;
      var rest := active;
      while rest != {}
        invariant rest <= active && active == was - (terminal - rest)
        decreases |rest|
      {
        var id :| id in rest;
        rest := rest - {id};
        if id in terminal { active := active - {id}; }
      }
    }

    /** One pass of the outer loop. */
    method Pass(u: Turn)
      requires |task.ids| <= |task.trials| && next <= |task.ids|
      modifies this`next, this`active, this`launched, this`end
      ensures Value() == TakeTurn(task, old(Value()), u)
    {
      if end == Going {
        if next < |task.ids| || active != {} {
          if u.stop { end := Stopped; }
          else {
            var ok := Launch(u.refused);
            if ok { Poll(u.terminal); }
          }
        } else {
          end := Finished;
        }
      }
    }

    method TakeOneTurn(u: Turn)
      requires Valid()
      modifies this
      ensures Valid() && turns == old(turns) + [u]
    {
      Pass(u);
      OneMore(task, turns, u);
      turns := turns + [u];
    }
  }

  lemma OneMore(t: Task, turns: seq<Turn>, u: Turn)
    requires |t.ids| <= |t.trials|
    ensures Orchestrate(t, turns + [u]) == TakeTurn(t, Orchestrate(t, turns), u)
  {
    assert (turns + [u])[..|turns|] == turns;
  }
}
