/** The streaming robust detector (`src/detectors/detector_a.cpp`).

    `RunMetric` is one feature's state after a stream of values; the claims are about every stream.
    The class at the end keeps five such states and is proved to follow it. */
module StreamingDetector {
  import opened Contract
  import opened Linalg
  import opened OrderStats

  type Int32 = x: int | -0x8000_0000 <= x < 0x8000_0000

  datatype Config = Config(
    size: Int32, recomputeInterval: Int32, minHistory: Int32,
    robustZThreshold: real, poisonMitigation: bool, poisonSkipThreshold: real)

  /** The cast to `size_t` of a configured count. */
  function SizeT(x: Int32): nat { if x < 0 then x + 0x1_0000_0000_0000_0000 else x }

  datatype Metric = Metric(buffer: seq<real>, sum: real, sumSq: real, median: real, mad: real)

  const FRESH := Metric([], 0.0, 0.0, 0.0, 0.0)

  predicate Warm(c: Config, m: Metric) { |m.buffer| >= SizeT(c.minHistory) }

  predicate Tick(c: Config, t: nat)
    requires c.recomputeInterval != 0
  {
    t % c.recomputeInterval == 0
  }

  /** `UpdateRobustStats`. */
  function Refreshed(m: Metric): Metric {
    if m.buffer == [] then m else m.(median := Median(m.buffer), mad := Mad(m.buffer))
  }

  function Prepared(c: Config, t: nat, m: Metric): (r: Metric)
    requires c.recomputeInterval != 0
    ensures r.buffer == m.buffer && r.sum == m.sum && r.sumSq == m.sumSq
  {
    if Tick(c, t) && Warm(c, m) then Refreshed(m) else m
  }

  function RobustZ(m: Metric, val: real): (z: real)
    ensures z >= 0.0
  {
    var mad := if m.mad > 0.0 then m.mad else TINY;
    Abs(val - m.median) / mad
  }

  predicate Skips(c: Config, m: Metric, val: real) {
    c.poisonMitigation && Warm(c, m) && RobustZ(m, val) > c.poisonSkipThreshold
  }

  function Pushed(c: Config, m: Metric, val: real): Metric {
    var grown := m.(buffer := m.buffer + [val], sum := m.sum + val, sumSq := m.sumSq + Mul(val, val));
    if |grown.buffer| > SizeT(c.size) then
      var front := grown.buffer[0];
      grown.(buffer := grown.buffer[1..], sum := grown.sum - front, sumSq := grown.sumSq - Mul(front, front))
    else grown
  }

  /** One update of one feature, the `t`-th of the run. */
  function StepMetric(c: Config, t: nat, m: Metric, val: real): Metric
    requires c.recomputeInterval != 0
  {
    var p := Prepared(c, t, m);
    if Skips(c, p, val) then p else Pushed(c, p, val)
  }

  function RunMetric(c: Config, vals: seq<real>): Metric
    requires c.recomputeInterval != 0
  {
    if vals == [] then FRESH
    else StepMetric(c, |vals| - 1, RunMetric(c, vals[..|vals|-1]), vals[|vals|-1])
  }

  /** The values that were not skipped as poison. */
  function Accepted(c: Config, vals: seq<real>): seq<real>
    requires c.recomputeInterval != 0
  {
    if vals == [] then []
    else
      var t, v := |vals| - 1, vals[|vals|-1];
      var before := Accepted(c, vals[..t]);
      if Skips(c, Prepared(c, t, RunMetric(c, vals[..t])), v) then before else before + [v]
  }

  function Last(s: seq<real>, n: nat): seq<real> { if |s| <= n then s else s[|s| - n..] }

  function SumReals(s: seq<real>): real { if s == [] then 0.0 else s[0] + SumReals(s[1..]) }
  function SumSquares(s: seq<real>): real { if s == [] then 0.0 else Mul(s[0], s[0]) + SumSquares(s[1..]) }

  lemma {:induction false} SumsAppend(s: seq<real>, x: real)
    ensures SumReals(s + [x]) == SumReals(s) + x && SumSquares(s + [x]) == SumSquares(s) + Mul(x, x)
  {
    if s == [] { assert s + [x] == [x]; }
    else {
      assert (s + [x])[1..] == s[1..] + [x];
      SumsAppend(s[1..], x);
    }
  }

  // ---------------------------------------------------------------- the window

  ghost predicate Matches(m: Metric, accepted: seq<real>, size: nat) {
    m.buffer == Last(accepted, size) && m.sum == SumReals(m.buffer) && m.sumSq == SumSquares(m.buffer)
  }

  lemma PushMatches(c: Config, m: Metric, accepted: seq<real>, v: real)
    requires Matches(m, accepted, SizeT(c.size))
    ensures Matches(Pushed(c, m, v), accepted + [v], SizeT(c.size))
  {
    SumsAppend(m.buffer, v);
    LastAppend(accepted, v, SizeT(c.size));
    SumsPop(m.buffer + [v]);
  }

  lemma LastAppend(s: seq<real>, v: real, n: nat)
    ensures var grown := Last(s, n) + [v]; Last(s + [v], n) == if |grown| > n then grown[1..] else grown
  {}

  lemma SumsPop(s: seq<real>)
    requires s != []
    ensures SumReals(s[1..]) == SumReals(s) - s[0] && SumSquares(s[1..]) == SumSquares(s) - Mul(s[0], s[0])
  {}

  /** After every stream the buffer is the last `size` accepted values and both sums match it. */
  lemma {:induction false} WindowIsRecentAccepted(c: Config, vals: seq<real>)
    requires c.recomputeInterval != 0
    ensures Matches(RunMetric(c, vals), Accepted(c, vals), SizeT(c.size))
  {
    if vals != [] {
      var t, v := |vals| - 1, vals[|vals|-1];
      WindowIsRecentAccepted(c, vals[..t]);
      PushMatches(c, Prepared(c, t, RunMetric(c, vals[..t])), Accepted(c, vals[..t]), v);
    }
  }

  lemma CauchySchwarzStep(n: real, s: real, q: real, x: real)
    requires n > 0.0 && Mul(s, s) <= Mul(n, q)
    ensures Mul(x + s, x + s) <= Mul(n + 1.0, Mul(x, x) + q)
  {
    var u := s - n * x;
    AddSquare(0.0, u);
    assert u * u == s * s - 2.0 * n * (s * x) + n * n * (x * x);
    assert n * (2.0 * (s * x)) <= n * (q + n * (x * x));
    assert 2.0 * (s * x) <= q + n * (x * x);
    assert (x + s) * (x + s) == x * x + 2.0 * (s * x) + s * s;
    assert (n + 1.0) * (x * x + q) == n * (x * x) + n * q + x * x + q;
  }

  lemma {:induction false} CauchySchwarz(s: seq<real>)
    ensures Mul(SumReals(s), SumReals(s)) <= Mul(|s| as real, SumSquares(s))
  {
    if |s| == 1 {
      assert s[1..] == [];
    } else if s != [] {
      CauchySchwarz(s[1..]);
      CauchySchwarzStep((|s| - 1) as real, SumReals(s[1..]), SumSquares(s[1..]), s[0]);
    }
  }

  /** `Mean(n)` of the header. */
  function MeanOf(m: Metric, n: nat): real { if n > 0 then Quot(m.sum, n as real) else 0.0 }

  /** The variance `Std(n)` takes the root of. */
  function VarianceOf(m: Metric, n: nat): real
    requires n > 0
  {
    Quot(m.sumSq, n as real) - Mul(MeanOf(m, n), MeanOf(m, n))
  }

  lemma VarianceBound(s: real, q: real, n: real)
    requires n > 0.0 && Mul(s, s) <= Mul(n, q)
    ensures Quot(q, n) - Mul(Quot(s, n), Quot(s, n)) >= 0.0
  {
    var a, b, nn := q / n, s / n, n * n;
    Positive(n, n, nn);
    assert s * s == (b * b) * nn by { assert s == b * n; assert (b * n) * (b * n) == (b * b) * (n * n); }
    assert n * q == a * nn by { assert q == a * n; }
    if b * b > a { Positive(b * b - a, nn, (b * b - a) * nn); }
  }

  function SquaredDistances(s: seq<real>, a: real): real {
    if s == [] then 0.0 else Mul(s[0] - a, s[0] - a) + SquaredDistances(s[1..], a)
  }

  lemma {:induction false} DistancesExpand(s: seq<real>, a: real)
    ensures SquaredDistances(s, a) == SumSquares(s) - 2.0 * Mul(a, SumReals(s)) + Mul(|s| as real, Mul(a, a))
  {
    if s != [] {
      DistancesExpand(s[1..], a);
      DistanceStep(s[0], a, SumReals(s[1..]), |s| as real - 1.0);
    }
  }

  lemma DistanceStep(x: real, a: real, sum: real, n: real)
    ensures Mul(x - a, x - a) - 2.0 * Mul(a, sum) + Mul(n, Mul(a, a))
         == Mul(x, x) - 2.0 * Mul(a, x + sum) + Mul(n + 1.0, Mul(a, a))
  {}

  /** `Mean` is the average of the window and `Std` takes the root of its average squared distance from
      that. */
  lemma VarianceMeans(c: Config, vals: seq<real>, n: nat)
    requires c.recomputeInterval != 0 && n == |RunMetric(c, vals).buffer| > 0
    ensures var m := RunMetric(c, vals);
      && Mul(MeanOf(m, n), n as real) == SumReals(m.buffer)
      && Mul(VarianceOf(m, n), n as real) == SquaredDistances(m.buffer, MeanOf(m, n))
  {
    var m := RunMetric(c, vals);
    WindowIsRecentAccepted(c, vals);
    DistancesExpand(m.buffer, MeanOf(m, n));
    VarianceTimes(m.sum, m.sumSq, n as real, MeanOf(m, n));
  }

  lemma VarianceTimes(s: real, q: real, n: real, a: real)
    requires n > 0.0 && a == Quot(s, n)
    ensures Mul(a, n) == s
    ensures Mul(Quot(q, n) - Mul(a, a), n) == q - 2.0 * Mul(a, s) + Mul(n, Mul(a, a))
  {
    assert a * n == s;
    var b := q / n;
    assert b * n == q;
    assert (b - a * a) * n == b * n - a * (a * n);
  }

  /** The incremental sums never drift to a negative variance, so the clamp in `Std` never binds. */
  lemma VarianceNonNegative(c: Config, vals: seq<real>)
    requires c.recomputeInterval != 0 && RunMetric(c, vals).buffer != []
    ensures var m := RunMetric(c, vals); VarianceOf(m, |m.buffer|) >= 0.0
  {
    var m := RunMetric(c, vals);
    WindowIsRecentAccepted(c, vals);
    CauchySchwarz(m.buffer);
    VarianceBound(m.sum, m.sumSq, |m.buffer| as real);
  }

  /** A window never gets shorter, so a feature that is warm stays warm. */
  lemma {:induction false} WarmthIsKept(c: Config, vals: seq<real>, t: nat)
    requires c.recomputeInterval != 0 && t <= |vals|
    ensures |RunMetric(c, vals[..t]).buffer| <= |RunMetric(c, vals).buffer|
    ensures Warm(c, RunMetric(c, vals[..t])) ==> Warm(c, RunMetric(c, vals))
    decreases |vals|
  {
    if t == |vals| { assert vals[..t] == vals; }
    else {
      var before := vals[..|vals|-1];
      WarmthIsKept(c, before, t);
      assert before[..t] == vals[..t];
      WindowIsRecentAccepted(c, before);
    }
  }

  // ---------------------------------------------------------------- where the statistics come from

  /** Update `t` recomputes median and MAD. */
  predicate Refreshes(c: Config, vals: seq<real>, t: nat)
    requires c.recomputeInterval != 0 && t <= |vals|
  {
    var m := RunMetric(c, vals[..t]);
    Tick(c, t) && Warm(c, m) && m.buffer != []
  }

  /** One update either recomputes both statistics from the window before it or keeps them. */
  lemma StatsStep(c: Config, vals: seq<real>, n: nat)
    requires c.recomputeInterval != 0 && vals != [] && n == |vals| - 1
    ensures var m, m' := RunMetric(c, vals[..n]), RunMetric(c, vals);
      if Refreshes(c, vals, n) then m'.median == Median(m.buffer) && m'.mad == Mad(m.buffer)
      else m'.median == m.median && m'.mad == m.mad
  {}

  lemma RefreshesPrefix(c: Config, vals: seq<real>, n: nat, t: nat)
    requires c.recomputeInterval != 0 && t <= n <= |vals|
    ensures Refreshes(c, vals[..n], t) == Refreshes(c, vals, t) && vals[..n][..t] == vals[..t]
  {
    assert vals[..n][..t] == vals[..t];
  }

  lemma {:induction false} StatsKept(c: Config, vals: seq<real>, t: nat)
    requires c.recomputeInterval != 0 && t <= |vals|
    requires forall u :: t <= u < |vals| ==> !Refreshes(c, vals, u)
    ensures var m, m' := RunMetric(c, vals[..t]), RunMetric(c, vals); m'.median == m.median && m'.mad == m.mad
    decreases |vals|
  {
    if t == |vals| { assert vals[..t] == vals; }
    else {
      var n := |vals| - 1;
      StatsStep(c, vals, n);
      forall u | t <= u < n ensures !Refreshes(c, vals[..n], u) { RefreshesPrefix(c, vals, n, u); }
      RefreshesPrefix(c, vals, n, t);
      StatsKept(c, vals[..n], t);
    }
  }

  /** Median and MAD are those of the window at the latest recompute. */
  lemma StatsFromLatestRefresh(c: Config, vals: seq<real>, t: nat)
    requires c.recomputeInterval != 0 && t < |vals| && Refreshes(c, vals, t)
    requires forall u :: t < u < |vals| ==> !Refreshes(c, vals, u)
    ensures var m, w := RunMetric(c, vals), RunMetric(c, vals[..t]).buffer;
      w != [] && m.median == Median(w) && m.mad == Mad(w)
  {
    StatsKept(c, vals, t + 1);
    RefreshesPrefix(c, vals, t + 1, t);
    StatsStep(c, vals[..t+1], t);
  }

  lemma StatsUntouched(c: Config, vals: seq<real>)
    requires c.recomputeInterval != 0 && forall u :: 0 <= u < |vals| ==> !Refreshes(c, vals, u)
    ensures RunMetric(c, vals).median == 0.0 && RunMetric(c, vals).mad == 0.0
  {
    StatsKept(c, vals, 0);
  }

  /** A recompute happens at every multiple of the interval at which the window holds at least
      `min_history` values (and is not empty). */
  lemma RefreshesExactly(c: Config, vals: seq<real>, t: nat)
    requires c.recomputeInterval != 0 && t <= |vals|
    ensures Refreshes(c, vals, t) <==>
      var size := |Last(Accepted(c, vals[..t]), SizeT(c.size))|;
      Divides(c.recomputeInterval, t) && size > 0 && size >= SizeT(c.minHistory)
  {
    WindowIsRecentAccepted(c, vals[..t]);
    DividesExactly(c.recomputeInterval, t);
  }

  ghost predicate Divides(d: int, n: nat) { exists q: int :: n == q * d }

  lemma DividesExactly(d: int, n: nat)
    requires d != 0
    ensures n % d == 0 <==> Divides(d, n)
  {
    if n % d == 0 { assert n == (n / d) * d; }
    if Divides(d, n) {
      var q :| n == q * d;
      MultipleMod(q, d);
    }
  }

  lemma MultipleMod(q: int, d: int)
    requires d != 0
    ensures (q * d) % d == 0
  {
    var x := q * d;
    assert x == (x / d) * d + x % d;
    var k := q - x / d;
    assert x % d == k * d;
    if k != 0 { LargeMultiple(k, d); }
  }

  lemma LargeMultiple(k: int, d: int)
    requires k != 0 && d != 0
    ensures (k * d >= d && k * d >= -d) || k * d < 0
  {}

  // ---------------------------------------------------------------- what is flagged and what is skipped

  lemma QuotientExceeds(x: real, d: real, t: real)
    requires d > 0.0
    ensures Quot(x, d) > t <==> x > Mul(t, d)
  {
    var q := x / d;
    assert q * d == x;
    if q > t { Positive(q - t, d, (q - t) * d); }
    if q < t { Positive(t - q, d, (t - q) * d); }
  }

  /** The statistics update `|past|` scores with: those of the window `w` at the latest recompute, this
      update's own included. */
  ghost predicate LatestWindow(c: Config, past: seq<real>, u: nat, w: seq<real>)
    requires c.recomputeInterval != 0
  {
    && u <= |past| && Refreshes(c, past, u) && w == RunMetric(c, past[..u]).buffer
    && forall v :: u < v <= |past| ==> !Refreshes(c, past, v)
  }

  lemma PreparedStats(c: Config, past: seq<real>, u: nat, w: seq<real>)
    requires c.recomputeInterval != 0 && LatestWindow(c, past, u, w)
    ensures var p := Prepared(c, |past|, RunMetric(c, past));
      w != [] && p.median == Median(w) && p.mad == Mad(w)
  {
    assert past[..|past|] == past;
    if u < |past| {
      StatsFromLatestRefresh(c, past, u);
      assert !Refreshes(c, past, |past|);
    }
  }

  /** After any stream, with `w` the window of the latest recompute: the next value's score is its distance
      from the median of `w` in units of the MAD of `w`, and it is flagged if and only if that exceeds the
      threshold. */
  lemma FlaggedExactly(c: Config, past: seq<real>, val: real, u: nat, w: seq<real>)
    requires c.recomputeInterval != 0 && LatestWindow(c, past, u, w)
    ensures w != [] && Mad(w) > 0.0
    ensures var m, far := RunMetric(c, past), Abs(val - Median(w));
      && Warm(c, m) && ZScore(c, |past|, m, val) == Quot(far, Mad(w))
      && (Flags(c, |past|, m, val) <==> far > Mul(c.robustZThreshold, Mad(w)))
  {
    ScoredExactly(c, past, val, u, w, c.robustZThreshold);
  }

  /** It is kept out of the window if and only if mitigation is on and the distance exceeds the skip
      threshold. */
  lemma SkippedExactly(c: Config, past: seq<real>, val: real, u: nat, w: seq<real>)
    requires c.recomputeInterval != 0 && LatestWindow(c, past, u, w)
    ensures w != [] && Mad(w) > 0.0
    ensures Skips(c, Prepared(c, |past|, RunMetric(c, past)), val) <==>
      c.poisonMitigation && Abs(val - Median(w)) > Mul(c.poisonSkipThreshold, Mad(w))
  {
    ScoredExactly(c, past, val, u, w, c.poisonSkipThreshold);
  }

  lemma ScoredExactly(c: Config, past: seq<real>, val: real, u: nat, w: seq<real>, threshold: real)
    requires c.recomputeInterval != 0 && LatestWindow(c, past, u, w)
    ensures w != [] && Mad(w) > 0.0 && Warm(c, RunMetric(c, past))
    ensures var z, far := RobustZ(Prepared(c, |past|, RunMetric(c, past)), val), Abs(val - Median(w));
      z == Quot(far, Mad(w)) && (z > threshold <==> far > Mul(threshold, Mad(w)))
  {
    PreparedStats(c, past, u, w);
    WarmSince(c, past, u);
    WindowScore(Prepared(c, |past|, RunMetric(c, past)), w, val, threshold);
  }

  lemma WarmSince(c: Config, past: seq<real>, u: nat)
    requires c.recomputeInterval != 0 && u <= |past| && Refreshes(c, past, u)
    ensures Warm(c, RunMetric(c, past))
  {
    WarmthIsKept(c, past, u);
  }

  lemma WindowScore(p: Metric, w: seq<real>, val: real, threshold: real)
    requires w != [] && p.median == Median(w) && p.mad == Mad(w)
    ensures Mad(w) > 0.0
    ensures var far := Abs(val - Median(w));
      RobustZ(p, val) == Quot(far, Mad(w)) && (RobustZ(p, val) > threshold <==> far > Mul(threshold, Mad(w)))
  {
    MadCoversMajority(w);
    DistanceScore(p, val, p.median, p.mad);
    QuotientExceeds(Abs(val - p.median), p.mad, threshold);
  }

  lemma DistanceScore(p: Metric, val: real, median: real, mad: real)
    requires p.median == median && p.mad == mad && mad > 0.0
    ensures RobustZ(p, val) == Quot(Abs(val - median), mad)
  {}

  /** A value that scores at most one in state `m`. */
  function ScoresLow(m: Metric): real -> bool { x => RobustZ(m, x) <= 1.0 }

  /** More than half of the window a feature is judged by scores at most one. */
  lemma MajorityScoresLow(c: Config, past: seq<real>, u: nat, w: seq<real>)
    requires c.recomputeInterval != 0 && LatestWindow(c, past, u, w)
    ensures Count(w, ScoresLow(Prepared(c, |past|, RunMetric(c, past)))) >= |w| / 2 + 1
  {
    PreparedStats(c, past, u, w);
    WindowScoresLow(Prepared(c, |past|, RunMetric(c, past)), w);
  }

  lemma WindowScoresLow(p: Metric, w: seq<real>)
    requires w != [] && p.median == Median(w) && p.mad == Mad(w)
    ensures Count(w, ScoresLow(p)) >= |w| / 2 + 1
  {
    MadCoversMajority(w);
    NearScoresLow(p, w);
  }

  lemma {:induction false} NearScoresLow(p: Metric, w: seq<real>)
    requires p.mad > 0.0
    ensures Count(w, Near(p.median, p.mad)) <= Count(w, ScoresLow(p))
  {
    if w != [] {
      NearScoresLow(p, w[1..]);
      if Abs(w[0] - p.median) <= p.mad { AtMostOne(Abs(w[0] - p.median), p.mad); }
    }
  }

  lemma AtMostOne(x: real, d: real)
    requires x <= d && d > 0.0
    ensures x / d <= 1.0
  {}

  /** Before the first recompute a warm feature is judged by the bare magnitude of its value, and a cold one
      is neither flagged nor kept out. */
  lemma FlaggedWithoutWindow(c: Config, past: seq<real>, val: real)
    requires c.recomputeInterval != 0 && forall v :: 0 <= v <= |past| ==> !Refreshes(c, past, v)
    ensures var m := RunMetric(c, past);
      && (Flags(c, |past|, m, val) <==> Warm(c, m) && Abs(val) > Mul(c.robustZThreshold, 0.000001))
      && (Skips(c, Prepared(c, |past|, m), val) <==>
            c.poisonMitigation && Warm(c, m) && Abs(val) > Mul(c.poisonSkipThreshold, 0.000001))
  {
    BlankStats(c, past);
    BlankScore(Prepared(c, |past|, RunMetric(c, past)), val);
    QuotientExceeds(Abs(val), 0.000001, c.robustZThreshold);
    QuotientExceeds(Abs(val), 0.000001, c.poisonSkipThreshold);
  }

  lemma BlankStats(c: Config, past: seq<real>)
    requires c.recomputeInterval != 0 && forall v :: 0 <= v <= |past| ==> !Refreshes(c, past, v)
    ensures var p := Prepared(c, |past|, RunMetric(c, past)); p.median == 0.0 && p.mad == 0.0
  {
    assert past[..|past|] == past;
    StatsUntouched(c, past);
    assert !Refreshes(c, past, |past|);
  }

  lemma BlankScore(p: Metric, val: real)
    requires p.median == 0.0 && p.mad == 0.0
    ensures RobustZ(p, val) == Abs(val) / 0.000001
  {}

  // ---------------------------------------------------------------- scores before the first recompute

  /** Update `t` scores its value although median and MAD were never computed. */
  ghost predicate ScoresCold(c: Config, vals: seq<real>, t: nat)
    requires c.recomputeInterval != 0 && t < |vals|
  {
    Warm(c, RunMetric(c, vals[..t])) && forall u :: 0 <= u <= t ==> !Refreshes(c, vals, u)
  }

  /** Until a feature is warm nothing is skipped: the window holds every value, up to its size. */
  lemma {:induction false} WarmUp(c: Config, vals: seq<real>)
    requires c.recomputeInterval != 0 && |vals| <= SizeT(c.minHistory)
    ensures |RunMetric(c, vals).buffer| == if |vals| <= SizeT(c.size) then |vals| else SizeT(c.size)
  {
    if vals != [] { WarmUp(c, vals[..|vals|-1]); }
  }

  lemma {:induction false} NeverWarm(c: Config, vals: seq<real>)
    requires c.recomputeInterval != 0 && SizeT(c.size) < SizeT(c.minHistory)
    ensures !Warm(c, RunMetric(c, vals))
  {
    WindowIsRecentAccepted(c, vals);
  }

  /** A cold score reads median and MAD zero: the value itself, over `1e-6`. */
  lemma ColdScore(c: Config, vals: seq<real>, t: nat)
    requires c.recomputeInterval != 0 && t < |vals| && ScoresCold(c, vals, t)
    ensures RobustZ(Prepared(c, t, RunMetric(c, vals[..t])), vals[t]) == Abs(vals[t]) / 0.000001
  {
    forall u | 0 <= u < t ensures !Refreshes(c, vals[..t], u) { RefreshesPrefix(c, vals, t, u); }
    StatsUntouched(c, vals[..t]);
    assert !Refreshes(c, vals, t);
  }

  /** A configuration under which no stream is ever scored with uninitialised statistics. */
  ghost predicate StatsReadyWhenWarm(c: Config) {
    || SizeT(c.size) < SizeT(c.minHistory)
    || (SizeT(c.minHistory) >= 1 && Divides(c.recomputeInterval, SizeT(c.minHistory)))
  }

  predicate ReadyByTick(c: Config)
    requires c.recomputeInterval != 0
  {
    SizeT(c.size) < SizeT(c.minHistory) || (SizeT(c.minHistory) >= 1 && Tick(c, SizeT(c.minHistory)))
  }

  /** For every stream longer than the history: some score is taken from uninitialised statistics
      exactly when the recompute interval does not divide the history (or the history is zero). */
  lemma ColdScoresExactly(c: Config, vals: seq<real>)
    requires c.recomputeInterval != 0 && |vals| > SizeT(c.minHistory)
    ensures (exists t :: 0 <= t < |vals| && ScoresCold(c, vals, t)) <==> !StatsReadyWhenWarm(c)
  {
    ColdScoresByTick(c, vals);
    DividesExactly(c.recomputeInterval, SizeT(c.minHistory));
  }

  lemma ColdScoresByTick(c: Config, vals: seq<real>)
    requires c.recomputeInterval != 0 && |vals| > SizeT(c.minHistory)
    ensures (exists t :: 0 <= t < |vals| && ScoresCold(c, vals, t)) <==> !ReadyByTick(c)
  {
    var h := SizeT(c.minHistory);
    if SizeT(c.size) < h {
      forall t | 0 <= t < |vals| ensures !ScoresCold(c, vals, t) { NeverWarm(c, vals[..t]); }
    } else {
      WarmUp(c, vals[..h]);
      if ReadyByTick(c) {
        assert Refreshes(c, vals, h);
        forall t | 0 <= t < |vals| ensures !ScoresCold(c, vals, t) {
          if t < h { WarmUp(c, vals[..t]); }
        }
      } else {
        forall u | 0 <= u <= h ensures !Refreshes(c, vals, u) { WarmUp(c, vals[..u]); }
        assert ScoresCold(c, vals, h);
      }
    }
  }

  /** A history of ten and a recompute every seven updates: the eleventh value of every stream is scored
      by its magnitude over `1e-6`. */
  lemma TenIsNoMultipleOfSeven(c: Config, vals: seq<real>)
    requires c.recomputeInterval == 7 && c.minHistory == 10 && c.size >= 10 && |vals| > 10
    ensures RobustZ(Prepared(c, 10, RunMetric(c, vals[..10])), vals[10]) == Abs(vals[10]) / 0.000001
  {
    forall u | 0 <= u <= 10 ensures !Refreshes(c, vals, u) { WarmUp(c, vals[..u]); }
    WarmUp(c, vals[..10]);
    ColdScore(c, vals, 10);
  }

  // ---------------------------------------------------------------- the detector object

  /** The values feature `i` has seen. */
  function Seen(history: seq<Vector>, i: nat): (vals: seq<real>)
    requires i < FEATURES && Shape(history)
    ensures |vals| == |history|
  {
    seq(|history|, k requires 0 <= k < |history| => history[k][i])
  }

  /** The robust z-score update `t` gives `val` in state `m`; zero while the feature is cold. */
  function ZScore(c: Config, t: nat, m: Metric, val: real): (z: real)
    requires c.recomputeInterval != 0
    ensures z >= 0.0
  {
    if Warm(c, m) then RobustZ(Prepared(c, t, m), val) else 0.0
  }

  predicate Flags(c: Config, t: nat, m: Metric, val: real)
    requires c.recomputeInterval != 0
  {
    Warm(c, m) && ZScore(c, t, m, val) > c.robustZThreshold
  }

  datatype AnomalyScore = AnomalyScore(isAnomaly: bool, maxZScore: real)

  ghost predicate Shape(past: seq<Vector>) { forall k :: 0 <= k < |past| ==> |past[k]| == FEATURES }

  function FlagList(c: Config, t: nat, ms: seq<Metric>, vec: Vector): (r: seq<bool>)
    requires c.recomputeInterval != 0 && |ms| == |vec|
    ensures |r| == |vec| && forall i :: 0 <= i < |vec| ==> r[i] == Flags(c, t, ms[i], vec[i])
  {
    seq(|vec|, i requires 0 <= i < |vec| => Flags(c, t, ms[i], vec[i]))
  }

  function ZList(c: Config, t: nat, ms: seq<Metric>, vec: Vector): (r: seq<real>)
    requires c.recomputeInterval != 0 && |ms| == |vec|
    ensures |r| == |vec| && forall i :: 0 <= i < |vec| ==> r[i] == ZScore(c, t, ms[i], vec[i])
  {
    seq(|vec|, i requires 0 <= i < |vec| => ZScore(c, t, ms[i], vec[i]))
  }

  /** The verdict over the first `n` features. */
  function Verdict(flags: seq<bool>, zs: seq<real>, n: nat): AnomalyScore
    requires n <= |flags| == |zs|
  {
    if n == 0 then AnomalyScore(false, 0.0)
    else
      var s, z := Verdict(flags, zs, n - 1), zs[n-1];
      if flags[n-1] then AnomalyScore(true, if z > s.maxZScore then z else s.maxZScore) else s
  }

  /** Flagged exactly when some warm feature exceeds the threshold; the score is the largest z-score
      among those features, zero if there is none. */
  lemma {:induction false} VerdictMeaning(flags: seq<bool>, zs: seq<real>, n: nat)
    requires n <= |flags| == |zs|
    ensures var s := Verdict(flags, zs, n);
      && (s.isAnomaly <==> exists i :: 0 <= i < n && flags[i])
      && (forall i :: 0 <= i < n && flags[i] ==> zs[i] <= s.maxZScore)
      && (s.maxZScore == 0.0 || exists i :: 0 <= i < n && flags[i] && s.maxZScore == zs[i])
  {
    if n > 0 {
      VerdictMeaning(flags, zs, n - 1);
      assert flags[n-1] ==> zs[n-1] <= Verdict(flags, zs, n).maxZScore;
    }
  }

  lemma SeenGrows(past: seq<Vector>, vec: Vector, i: nat)
    requires i < FEATURES && |vec| == FEATURES && Shape(past)
    ensures var vals := Seen(past + [vec], i);
      vals[..|past|] == Seen(past, i) && vals[|past|] == vec[i]
  {}

  lemma RunGrows(c: Config, past: seq<Vector>, vec: Vector, i: nat)
    requires c.recomputeInterval != 0 && i < FEATURES && |vec| == FEATURES && Shape(past)
    ensures Shape(past + [vec])
    ensures RunMetric(c, Seen(past + [vec], i)) == StepMetric(c, |past|, RunMetric(c, Seen(past, i)), vec[i])
  {
    SeenGrows(past, vec, i);
  }

  class DetectorA {
    const config: Config
    var states: seq<Metric>
    var updateCount: nat
    ghost var history: seq<Vector>

    ghost predicate Valid()
      reads this
    {
      && config.recomputeInterval != 0 && |states| == FEATURES && updateCount == |history|
      && Shape(history)
      && (forall i :: 0 <= i < FEATURES ==> states[i] == RunMetric(config, Seen(history, i)))
    }

    constructor (config: Config)
      requires config.recomputeInterval != 0
      ensures Valid() && history == [] && this.config == config
    {
      this.config := config;
      states := seq(FEATURES, _ => FRESH);
      updateCount := 0;
      history := [];
    }

    /** One feature of `Update`: the new state and the score it contributes. */
    method UpdateFeature(state: Metric, val: real, needsRecompute: bool) returns (s: Metric, warm: bool, robustZ: real)
      requires config.recomputeInterval != 0 && needsRecompute == Tick(config, updateCount)
      ensures s == StepMetric(config, updateCount, state, val) && warm == Warm(config, state)
      ensures robustZ == if warm then RobustZ(Prepared(config, updateCount, state), val) else 0.0
    {
      s := state;
      warm := |s.buffer| >= SizeT(config.minHistory);
      if needsRecompute && warm && s.buffer != [] {
        s := s.(median := Median(s.buffer), mad := Mad(s.buffer));
      }
      robustZ := 0.0;
      if warm { robustZ := RobustZ(s, val); }
      var skip := config.poisonMitigation && warm && robustZ > config.poisonSkipThreshold;
      if !skip {
        s := s.(buffer := s.buffer + [val], sum := s.sum + val, sumSq := s.sumSq + Mul(val, val));
        if |s.buffer| > SizeT(config.size) {
          var front := s.buffer[0];
          s := s.(buffer := s.buffer[1..], sum := s.sum - front, sumSq := s.sumSq - Mul(front, front));
        }
      }
    }

    /** The loop over the features. */
    method UpdateFeatures(vec: Vector) returns (score: AnomalyScore)
      requires config.recomputeInterval != 0 && |states| == |vec| == FEATURES
      modifies this`states
      ensures |states| == FEATURES
      ensures forall k :: 0 <= k < FEATURES ==> states[k] == StepMetric(config, updateCount, old(states[k]), vec[k])
      ensures score == Verdict(FlagList(config, updateCount, old(states), vec),
                               ZList(config, updateCount, old(states), vec), FEATURES)
    {
      ghost var was := states;
      ghost var flags, zs := FlagList(config, updateCount, was, vec), ZList(config, updateCount, was, vec);
      var flagged, maxZ := false, 0.0;
      var needsRecompute := updateCount % config.recomputeInterval == 0;
      for i := 0 to FEATURES
        invariant |states| == FEATURES
        invariant forall k :: i <= k < FEATURES ==> states[k] == was[k]
        invariant forall k :: 0 <= k < i ==> states[k] == StepMetric(config, updateCount, was[k], vec[k])
        invariant AnomalyScore(flagged, maxZ) == Verdict(flags, zs, i)
      {
        var s, warm, z := UpdateFeature(states[i], vec[i], needsRecompute);
        assert flags[i] == (warm && z > config.robustZThreshold) && z == zs[i];
        states := states[i := s];
        if warm && z > config.robustZThreshold {
          flagged := true;
          if z > maxZ { maxZ := z; }
        }
      }
      score := AnomalyScore(flagged, maxZ);
    }

    method Update(vec: Vector) returns (score: AnomalyScore)
      requires Valid() && |vec| == FEATURES
      modifies this
      ensures Valid() && history == old(history) + [vec]
      ensures score == Verdict(FlagList(config, |old(history)|, old(states), vec),
                               ZList(config, |old(history)|, old(states), vec), FEATURES)
    {
      ghost var past := history;
      score := UpdateFeatures(vec);
      updateCount := updateCount + 1;
      history := history + [vec];
      forall k | 0 <= k < FEATURES ensures states[k] == RunMetric(config, Seen(history, k)) {
        RunGrows(config, past, vec, k);
      }
    }
  }
}
