/** Evaluation of stored scores against labels: confusion counts, ROC and precision-recall points
    (`DbClient::GetEvalMetrics`). */
module Evaluation {
  import opened Linalg
  import opened OrderStats

  datatype Sample = Sample(err: real, pred: bool, positive: bool)

  /** Reading stops once `maxSamples` rows are kept, if that is positive. */
  function Kept(rows: seq<Sample>, maxSamples: int): seq<Sample> {
    if maxSamples > 0 && |rows| > maxSamples then rows[..maxSamples] else rows
  }

  method ReadSamples(rows: seq<Sample>, maxSamples: int) returns (samples: seq<Sample>)
    ensures samples == Kept(rows, maxSamples)
    ensures samples <= rows && |samples| == if maxSamples > 0 && |rows| > maxSamples then maxSamples else |rows|
  {
    samples := [];
    for i := 0 to |rows|
      invariant samples == rows[..i] && (maxSamples > 0 ==> i < maxSamples)
    {
      samples := samples + [rows[i]];
      if maxSamples > 0 && |samples| >= maxSamples { return; }
    }
  }

  // ---------------------------------------------------------------- confusion counts

  datatype Confusion = Confusion(tp: nat, fp: nat, tn: nat, fn: nat)

  function Hit(pred: bool, positive: bool): Sample -> bool { (s: Sample) => s.pred == pred && s.positive == positive }

  method CountConfusion(samples: seq<Sample>) returns (c: Confusion)
    ensures c.tp == Count(samples, Hit(true, true)) && c.fp == Count(samples, Hit(true, false))
    ensures c.tn == Count(samples, Hit(false, false)) && c.fn == Count(samples, Hit(false, true))
    ensures c.tp + c.fp + c.tn + c.fn == |samples|
  {
    var tp, fp, tn, fn := 0, 0, 0, 0;
    for i := 0 to |samples|
      invariant tp == Count(samples[..i], Hit(true, true)) && fp == Count(samples[..i], Hit(true, false))
      invariant tn == Count(samples[..i], Hit(false, false)) && fn == Count(samples[..i], Hit(false, true))
      invariant tp + fp + tn + fn == i
    {
      var s := samples[i];
      CountNext(samples, i, Hit(true, true)); CountNext(samples, i, Hit(true, false));
      CountNext(samples, i, Hit(false, false)); CountNext(samples, i, Hit(false, true));
      if s.pred && s.positive { tp := tp + 1; }
      else if s.pred && !s.positive { fp := fp + 1; }
      else if !s.pred && !s.positive { tn := tn + 1; }
      else { fn := fn + 1; }
    }
    assert samples[..|samples|] == samples;
    c := Confusion(tp, fp, tn, fn);
  }

  lemma CountNext(s: seq<Sample>, i: nat, p: Sample -> bool)
    requires i < |s|
    ensures Count(s[..i+1], p) == Count(s[..i], p) + if p(s[i]) then 1 else 0
  {
    assert s[..i+1] == s[..i] + [s[i]];
    CountConcat(s[..i], [s[i]], p);
  }

  // ---------------------------------------------------------------- curve points

  datatype Point = Point(fpr: real, tpr: real, precision: real, threshold: real)

  function Labelled(positive: bool): Sample -> bool { (s: Sample) => s.positive == positive }

  /** Samples of that label that score at least `t`. */
  function Reaches(positive: bool, t: real): Sample -> bool { (s: Sample) => s.err >= t && s.positive == positive }

  function Share(part: nat, whole: nat): real { if whole > 0 then Quot(part as real, whole as real) else 0.0 }

  /** The point of threshold `t`. */
  function PointAt(samples: seq<Sample>, t: real): Point {
    var tp, fp := Count(samples, Reaches(true, t)), Count(samples, Reaches(false, t));
    Point(Share(fp, Count(samples, Labelled(false))), Share(tp, Count(samples, Labelled(true))), Share(tp, tp + fp), t)
  }

  /** The requested number of points, fifty by default, held between ten and two hundred. */
  function PointCount(points: int): (n: nat)
    ensures 10 <= n <= 200 && (10 <= points <= 200 ==> n == points)
    ensures (points <= 0 ==> n == 50) && (0 < points < 10 ==> n == 10) && (points > 200 ==> n == 200)
  {
    var n := if points > 0 then points else 50;
    var capped := if n < 200 then n else 200;
    if capped > 10 then capped else 10
  }

  /** Which sorted sample gives point `i` its threshold. */
  function PointIndex(i: nat, m: nat, n: nat): (idx: nat)
    requires i < m && m >= 2 && n > 0
    ensures idx < n
  {
    FractionRange(i, m, n);
    Mul(Quot(i as real, (m - 1) as real), (n - 1) as real).Floor
  }

  lemma ScaleUp(a: real, b: real, m: real)
    requires a <= b && m >= 0.0
    ensures Mul(a, m) <= Mul(b, m)
  {
    Scaled(a, b, m);
  }

  lemma MulEnds(m: real)
    ensures Mul(0.0, m) == 0.0 && Mul(1.0, m) == m
  {}

  lemma QuotRange(a: real, b: real)
    requires 0.0 <= a <= b && b > 0.0
    ensures 0.0 <= Quot(a, b) <= 1.0
  {}

  lemma FractionRange(i: nat, m: nat, n: nat)
    requires i < m && m >= 2 && n > 0
    ensures 0.0 <= Mul(Quot(i as real, (m - 1) as real), (n - 1) as real) <= (n - 1) as real
  {
    var f := Quot(i as real, (m - 1) as real);
    QuotRange(i as real, (m - 1) as real);
    ScaleUp(0.0, f, (n - 1) as real);
    ScaleUp(f, 1.0, (n - 1) as real);
    MulEnds((n - 1) as real);
  }

  /** In integers: the index is `i (n - 1) / (m - 1)`, rounded down. */
  lemma PointIndexExactly(i: nat, m: nat, n: nat)
    requires i < m && m >= 2 && n > 0
    ensures var idx := PointIndex(i, m, n); idx * (m - 1) <= i * (n - 1) < (idx + 1) * (m - 1)
  {
    var idx, k := PointIndex(i, m, n), (m - 1) as real;
    var x := Mul(Quot(i as real, k), (n - 1) as real);
    FractionTimes(i as real, k, (n - 1) as real, x);
    FloorTimes(idx, x, k);
    BackToIntegers(idx, m - 1, i, n - 1);
  }

  lemma BackToIntegers(a: int, b: int, c: int, d: int)
    requires Mul(a as real, b as real) <= Mul(c as real, d as real) < Mul((a + 1) as real, b as real)
    ensures a * b <= c * d < (a + 1) * b
  {
    ProductAsReal(a, b);
    ProductAsReal(c, d);
    ProductAsReal(a + 1, b);
  }

  lemma ProductAsReal(a: int, b: int)
    ensures Mul(a as real, b as real) == (a * b) as real
  {}

  lemma FractionTimes(i: real, k: real, n: real, x: real)
    requires k > 0.0 && x == Mul(Quot(i, k), n)
    ensures Mul(x, k) == Mul(i, n)
  {
    var q := i / k;
    assert q * k == i;
    assert x * k == (q * k) * n;
  }

  lemma FloorTimes(idx: int, x: real, k: real)
    requires idx as real <= x < (idx + 1) as real && k > 0.0
    ensures Mul(idx as real, k) <= Mul(x, k) < Mul((idx + 1) as real, k)
  {
    NonNegativeProduct(x - idx as real, k);
    Positive((idx + 1) as real - x, k, ((idx + 1) as real - x) * k);
  }

  lemma FloorMonotone(x: real, y: real)
    requires x <= y
    ensures x.Floor <= y.Floor
  {}

  lemma QuotEnds(w: real)
    requires w > 0.0
    ensures Quot(w, w) == 1.0 && Quot(0.0, w) == 0.0
  {}

  lemma PointIndexMonotone(i: nat, j: nat, m: nat, n: nat)
    requires i <= j < m && m >= 2 && n > 0
    ensures PointIndex(i, m, n) <= PointIndex(j, m, n)
    ensures PointIndex(m - 1, m, n) == n - 1 && PointIndex(0, m, n) == 0
  {
    var a, b := Quot(i as real, (m - 1) as real), Quot(j as real, (m - 1) as real);
    QuotMonotone(i as real, j as real, (m - 1) as real);
    ScaleUp(a, b, (n - 1) as real);
    FloorMonotone(Mul(a, (n - 1) as real), Mul(b, (n - 1) as real));
    QuotEnds((m - 1) as real);
    MulEnds((n - 1) as real);
  }

  /** `sorted` is what `std::sort` may leave: the samples by descending error, ties in any order. */
  ghost predicate SortOf(samples: seq<Sample>, sorted: seq<Sample>) {
    multiset(samples) == multiset(sorted) && forall i, j :: 0 <= i < j < |sorted| ==> sorted[i].err >= sorted[j].err
  }

  function CurveOf(sorted: seq<Sample>, m: nat): (r: seq<Point>)
    requires sorted != [] && m >= 2
    ensures |r| == m && forall i :: 0 <= i < m ==> r[i] == PointAt(sorted, sorted[PointIndex(i, m, |sorted|)].err)
  {
    seq(m, i requires 0 <= i < m => PointAt(sorted, sorted[PointIndex(i, m, |sorted|)].err))
  }

  method CountReaching(samples: seq<Sample>, t: real) returns (tp: nat, fp: nat)
    ensures tp == Count(samples, Reaches(true, t)) && fp == Count(samples, Reaches(false, t))
  {
    tp, fp := 0, 0;
    for i := 0 to |samples|
      invariant tp == Count(samples[..i], Reaches(true, t)) && fp == Count(samples[..i], Reaches(false, t))
    {
      CountNext(samples, i, Reaches(true, t));
      CountNext(samples, i, Reaches(false, t));
      var pred := samples[i].err >= t;
      if pred && samples[i].positive { tp := tp + 1; }
      else if pred && !samples[i].positive { fp := fp + 1; }
    }
    assert samples[..|samples|] == samples;
  }

  method CountLabels(samples: seq<Sample>) returns (positives: nat, negatives: nat)
    ensures positives == Count(samples, Labelled(true)) && negatives == Count(samples, Labelled(false))
  {
    positives, negatives := 0, 0;
    for i := 0 to |samples|
      invariant positives == Count(samples[..i], Labelled(true)) && negatives == Count(samples[..i], Labelled(false))
    {
      CountNext(samples, i, Labelled(true));
      CountNext(samples, i, Labelled(false));
      if samples[i].positive { positives := positives + 1; } else { negatives := negatives + 1; }
    }
    assert samples[..|samples|] == samples;
  }

  method BuildCurve(sorted: seq<Sample>, points: int) returns (curve: seq<Point>)
    ensures curve == if sorted == [] then [] else CurveOf(sorted, PointCount(points))
  {
    curve := [];
    if sorted == [] { return; }
    var m := PointCount(points);
    var positives, negatives := CountLabels(sorted);
    for i := 0 to m
      invariant |curve| == i
      invariant forall k :: 0 <= k < i ==> curve[k] == PointAt(sorted, sorted[PointIndex(k, m, |sorted|)].err)
    {
      var t := sorted[PointIndex(i, m, |sorted|)].err;
      var tp, fp := CountReaching(sorted, t);
      curve := curve + [Point(Share(fp, negatives), Share(tp, positives), Share(tp, tp + fp), t)];
    }
  }

  // ---------------------------------------------------------------- what the curve satisfies

  lemma ShareRange(part: nat, whole: nat)
    requires part <= whole
    ensures 0.0 <= Share(part, whole) <= 1.0
    ensures part == whole > 0 ==> Share(part, whole) == 1.0
  {}

  lemma ShareMonotone(a: nat, b: nat, whole: nat)
    requires a <= b
    ensures Share(a, whole) <= Share(b, whole)
  {
    if whole > 0 { QuotMonotone(a as real, b as real, whole as real); }
  }

  lemma QuotMonotone(a: real, b: real, w: real)
    requires a <= b && w > 0.0
    ensures Quot(a, w) <= Quot(b, w)
  {}

  lemma PointRange(samples: seq<Sample>, t: real)
    ensures var p := PointAt(samples, t);
      0.0 <= p.tpr <= 1.0 && 0.0 <= p.fpr <= 1.0 && 0.0 <= p.precision <= 1.0
  {
    CountImplies(samples, Reaches(true, t), samples, Labelled(true));
    CountImplies(samples, Reaches(false, t), samples, Labelled(false));
    ShareRange(Count(samples, Reaches(true, t)), Count(samples, Labelled(true)));
    ShareRange(Count(samples, Reaches(false, t)), Count(samples, Labelled(false)));
    ShareRange(Count(samples, Reaches(true, t)), Count(samples, Reaches(true, t)) + Count(samples, Reaches(false, t)));
  }

  /** Samples that score at least `t`, whatever their label. */
  function Reached(t: real): Sample -> bool { (s: Sample) => s.err >= t }

  lemma {:induction false} ReachedSplits(samples: seq<Sample>, t: real)
    ensures Count(samples, Reached(t)) == Count(samples, Reaches(true, t)) + Count(samples, Reaches(false, t))
  {
    if samples != [] { ReachedSplits(samples[1..], t); }
  }

  lemma ShareTimes(part: nat, whole: nat)
    requires part <= whole
    ensures Mul(Share(part, whole), whole as real) == part as real
  {
    if whole > 0 { QuotTimes(part as real, whole as real); }
  }

  lemma QuotTimes(a: real, b: real)
    requires b > 0.0
    ensures Mul(Quot(a, b), b) == a
  {}

  /** What the three rates mean: precision is the share of positives among the samples at or above the
      threshold, the other two the share of positives and of negatives that are there. */
  lemma PointMeans(samples: seq<Sample>, t: real)
    ensures var p := PointAt(samples, t);
      && Mul(p.precision, Count(samples, Reached(t)) as real) == Count(samples, Reaches(true, t)) as real
      && Mul(p.tpr, Count(samples, Labelled(true)) as real) == Count(samples, Reaches(true, t)) as real
      && Mul(p.fpr, Count(samples, Labelled(false)) as real) == Count(samples, Reaches(false, t)) as real
      && (Count(samples, Reached(t)) == 0 ==> p.precision == 0.0)
  {
    ReachedSplits(samples, t);
    CountImplies(samples, Reaches(true, t), samples, Labelled(true));
    CountImplies(samples, Reaches(false, t), samples, Labelled(false));
    ShareTimes(Count(samples, Reaches(true, t)), Count(samples, Reached(t)));
    ShareTimes(Count(samples, Reaches(true, t)), Count(samples, Labelled(true)));
    ShareTimes(Count(samples, Reaches(false, t)), Count(samples, Labelled(false)));
  }

  /** Lowering the threshold never loses a true or a false positive. */
  lemma PointMonotone(samples: seq<Sample>, t: real, u: real)
    requires u <= t
    ensures PointAt(samples, t).tpr <= PointAt(samples, u).tpr && PointAt(samples, t).fpr <= PointAt(samples, u).fpr
  {
    CountImplies(samples, Reaches(true, t), samples, Reaches(true, u));
    CountImplies(samples, Reaches(false, t), samples, Reaches(false, u));
    ShareMonotone(Count(samples, Reaches(true, t)), Count(samples, Reaches(true, u)), Count(samples, Labelled(true)));
    ShareMonotone(Count(samples, Reaches(false, t)), Count(samples, Reaches(false, u)),
                  Count(samples, Labelled(false)));
  }

  /** A threshold no sample is below reaches every positive and every negative. */
  lemma PointFull(samples: seq<Sample>, t: real)
    requires forall k :: 0 <= k < |samples| ==> samples[k].err >= t
    ensures Count(samples, Labelled(true)) > 0 ==> PointAt(samples, t).tpr == 1.0
    ensures Count(samples, Labelled(false)) > 0 ==> PointAt(samples, t).fpr == 1.0
  {
    CountImplies(samples, Labelled(true), samples, Reaches(true, t));
    CountImplies(samples, Reaches(true, t), samples, Labelled(true));
    CountImplies(samples, Labelled(false), samples, Reaches(false, t));
    CountImplies(samples, Reaches(false, t), samples, Labelled(false));
    ShareRange(Count(samples, Reaches(true, t)), Count(samples, Labelled(true)));
    ShareRange(Count(samples, Reaches(false, t)), Count(samples, Labelled(false)));
  }

  /** A point does not depend on the order of the samples, so not on how ties were sorted. */
  lemma PointIgnoresOrder(samples: seq<Sample>, sorted: seq<Sample>, t: real)
    requires multiset(samples) == multiset(sorted)
    ensures PointAt(samples, t) == PointAt(sorted, t)
  {
    CountPermuted(samples, sorted, Reaches(true, t));
    CountPermuted(samples, sorted, Reaches(false, t));
    CountPermuted(samples, sorted, Labelled(true));
    CountPermuted(samples, sorted, Labelled(false));
  }

  /** For every non-empty sample list: along the curve thresholds never rise, both rates never fall,
      everything stays within [0, 1], and the last point reaches every positive and every negative. */
  lemma CurveShape(samples: seq<Sample>, sorted: seq<Sample>, m: nat, i: nat, j: nat)
    requires SortOf(samples, sorted) && sorted != [] && i <= j < m && m >= 2
    ensures var c := CurveOf(sorted, m);
      && c[i].threshold >= c[j].threshold && c[i].tpr <= c[j].tpr && c[i].fpr <= c[j].fpr
      && 0.0 <= c[i].tpr <= 1.0 && 0.0 <= c[i].fpr <= 1.0 && 0.0 <= c[i].precision <= 1.0
      && c[i] == PointAt(samples, c[i].threshold)
  {
    var c, n := CurveOf(sorted, m), |sorted|;
    PointIndexMonotone(i, j, m, n);
    PointMonotone(sorted, c[i].threshold, c[j].threshold);
    PointRange(sorted, c[i].threshold);
    PointIgnoresOrder(samples, sorted, c[i].threshold);
  }

  lemma CurveEnds(samples: seq<Sample>, sorted: seq<Sample>, m: nat)
    requires SortOf(samples, sorted) && sorted != [] && m >= 2
    ensures var c := CurveOf(sorted, m);
      && (Count(samples, Labelled(true)) > 0 ==> c[m-1].tpr == 1.0)
      && (Count(samples, Labelled(false)) > 0 ==> c[m-1].fpr == 1.0)
      && c[0].threshold == sorted[0].err && forall s :: s in samples ==> c[m-1].threshold <= s.err <= c[0].threshold
  {
    var c, n := CurveOf(sorted, m), |sorted|;
    PointIndexMonotone(0, m - 1, m, n);
    PointFull(sorted, sorted[n-1].err);
    PointIgnoresOrder(samples, sorted, sorted[n-1].err);
    CountPermuted(samples, sorted, Labelled(true));
    CountPermuted(samples, sorted, Labelled(false));
    forall s | s in samples ensures sorted[n-1].err <= s.err <= sorted[0].err {
      assert s in multiset(sorted);
      assert s in sorted;
    }
  }
}
