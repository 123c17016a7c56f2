/** Order statistics: the library calls `nth_element` and `sort`, and the three places that use them
    (`percentile_value`, `UpdateRobustStats`, `argsort_desc`). */
module OrderStats {
  import opened Contract
  import opened Linalg

  // ---------------------------------------------------------------- sorted position

  ghost predicate Sorted(s: seq<real>) {
    forall i, j :: 0 <= i < j < |s| ==> s[i] <= s[j]
  }

  function Insert(x: real, s: seq<real>): (r: seq<real>)
    ensures |r| == |s| + 1
  {
    if s == [] || x <= s[0] then [x] + s else [s[0]] + Insert(x, s[1..])
  }

  function Sort(s: seq<real>): (r: seq<real>)
    ensures |r| == |s|
  {
    if s == [] then [] else Insert(s[0], Sort(s[1..]))
  }

  /** What `nth_element` leaves at position `k`. */
  function Kth(s: seq<real>, k: nat): real
    requires k < |s|
  {
    Sort(s)[k]
  }

  function Count<T>(s: seq<T>, p: T -> bool): (n: nat)
    ensures n <= |s|
  {
    if s == [] then 0 else (if p(s[0]) then 1 else 0) + Count(s[1..], p)
  }

  function AtMost(t: real): real -> bool { x => x <= t }
  function Below(t: real): real -> bool { x => x < t }
  function AtLeast(t: real): real -> bool { x => x >= t }
  function Above(t: real): real -> bool { x => x > t }

  lemma {:induction false} InsertSorted(x: real, s: seq<real>)
    requires Sorted(s)
    ensures Sorted(Insert(x, s))
    ensures Insert(x, s)[0] == x || (s != [] && Insert(x, s)[0] == s[0])
  {
    if s != [] && !(x <= s[0]) {
      InsertSorted(x, s[1..]);
      var r := Insert(x, s[1..]);
      assert forall j :: 0 <= j < |r| ==> r[0] <= r[j];
    }
  }

  lemma {:induction false} SortSorted(s: seq<real>)
    ensures Sorted(Sort(s))
  {
    if s != [] {
      SortSorted(s[1..]);
      InsertSorted(s[0], Sort(s[1..]));
    }
  }

  lemma {:induction false} CountInsert(x: real, s: seq<real>, p: real -> bool)
    ensures Count(Insert(x, s), p) == Count(s, p) + if p(x) then 1 else 0
  {
    if s == [] || x <= s[0] {
      assert ([x] + s)[1..] == s;
    } else {
      CountInsert(x, s[1..], p);
      assert ([s[0]] + Insert(x, s[1..]))[1..] == Insert(x, s[1..]);
    }
  }

  lemma {:induction false} CountSort(s: seq<real>, p: real -> bool)
    ensures Count(Sort(s), p) == Count(s, p)
  {
    if s != [] {
      CountSort(s[1..], p);
      CountInsert(s[0], Sort(s[1..]), p);
    }
  }

  lemma {:induction false} CountPrefix<T>(s: seq<T>, p: T -> bool, m: nat)
    requires m <= |s|
    ensures (forall i :: 0 <= i < m ==> p(s[i])) ==> Count(s, p) >= m
    ensures (forall i :: m <= i < |s| ==> !p(s[i])) ==> Count(s, p) <= m
  {
    if s != [] {
      if m == 0 {
        CountPrefix(s[1..], p, 0);
        assert (forall i :: 0 <= i < |s| ==> !p(s[i])) ==> forall i :: 0 <= i < |s[1..]| ==> !p(s[1..][i]);
      } else {
        CountPrefix(s[1..], p, m - 1);
        assert (forall i :: 0 <= i < m ==> p(s[i])) ==> p(s[0]) && forall i :: 0 <= i < m - 1 ==> p(s[1..][i]);
        assert (forall i :: m <= i < |s| ==> !p(s[i])) ==> forall i :: m - 1 <= i < |s[1..]| ==> !p(s[1..][i]);
      }
    }
  }

  /** The value at sorted position `k`: at most `k` elements are smaller, more than `k` are no larger. */
  lemma KthCounts(s: seq<real>, k: nat)
    requires k < |s|
    ensures Count(s, Below(Kth(s, k))) <= k < Count(s, AtMost(Kth(s, k)))
  {
    var t := Kth(s, k);
    SortSorted(s);
    CountSort(s, Below(t));
    CountSort(s, AtMost(t));
    SortedCounts(Sort(s), k, t);
  }

  lemma SortedCounts(r: seq<real>, k: nat, t: real)
    requires k < |r| && Sorted(r) && t == r[k]
    ensures Count(r, Below(t)) <= k < Count(r, AtMost(t))
  {
    assert forall i :: 0 <= i < k + 1 ==> AtMost(t)(r[i]) by {
      forall i | 0 <= i < k + 1 ensures r[i] <= t { if i < k { assert r[i] <= r[k]; } }
    }
    assert forall i :: k <= i < |r| ==> !Below(t)(r[i]) by {
      forall i | k <= i < |r| ensures !(r[i] < t) { if k < i { assert r[k] <= r[i]; } }
    }
    CountPrefix(r, Below(t), k);
    CountPrefix(r, AtMost(t), k + 1);
  }

  lemma {:induction false} CountImplies<T, U>(v: seq<T>, p: T -> bool, w: seq<U>, q: U -> bool)
    requires |v| == |w| && forall i :: 0 <= i < |v| && p(v[i]) ==> q(w[i])
    ensures Count(v, p) <= Count(w, q)
  {
    if v != [] {
      assert forall i :: 0 <= i < |v[1..]| ==> v[1..][i] == v[i + 1] && w[1..][i] == w[i + 1];
      CountImplies(v[1..], p, w[1..], q);
    }
  }

  lemma {:induction false} CountComplement(s: seq<real>, t: real)
    ensures Count(s, AtMost(t)) + Count(s, Above(t)) == |s|
    ensures Count(s, Below(t)) + Count(s, AtLeast(t)) == |s|
  {
    if s != [] { CountComplement(s[1..], t); }
  }

  /** Order statistics keep pointwise order. */
  lemma KthMonotone(v: seq<real>, w: seq<real>, k: nat)
    requires |v| == |w| && k < |v| && forall i :: 0 <= i < |v| ==> v[i] <= w[i]
    ensures Kth(v, k) <= Kth(w, k)
  {
    var t, u := Kth(w, k), Kth(v, k);
    KthCounts(w, k);
    KthCounts(v, k);
    CountImplies(w, AtMost(t), v, AtMost(t));
    if t < u { CountImplies(v, AtMost(t), v, Below(u)); }
  }

  lemma KthOrdered(v: seq<real>, i: nat, j: nat)
    requires i <= j < |v|
    ensures Kth(v, i) <= Kth(v, j)
  {
    SortSorted(v);
  }

  lemma KthUnique(s: seq<real>, k: nat, t: real)
    requires k < |s| && Count(s, Below(t)) <= k < Count(s, AtMost(t))
    ensures Kth(s, k) == t
  {
    var u := Kth(s, k);
    KthCounts(s, k);
    if t < u { CountImplies(s, AtMost(t), s, Below(u)); }
    if u < t { CountImplies(s, AtMost(u), s, Below(t)); }
  }

  lemma {:induction false} CountConcat<T>(a: seq<T>, b: seq<T>, p: T -> bool)
    ensures Count(a + b, p) == Count(a, p) + Count(b, p)
  {
    if a == [] { assert a + b == b; }
    else {
      assert (a + b)[1..] == a[1..] + b;
      CountConcat(a[1..], b, p);
    }
  }

  lemma CancelOne<T>(x: T, a: multiset<T>, b: multiset<T>)
    requires multiset{x} + a == multiset{x} + b
    ensures a == b
  {
    assert a == (multiset{x} + a) - multiset{x};
    assert b == (multiset{x} + b) - multiset{x};
  }

  lemma TakeOut<T>(a: seq<T>, x: T, b: seq<T>, p: T -> bool)
    ensures multiset(a + [x] + b) == multiset{x} + multiset(a + b)
    ensures Count(a + [x] + b, p) == Count(a + b, p) + if p(x) then 1 else 0
  {
    CountConcat(a + [x], b, p);
    CountConcat(a, [x], p);
    CountConcat(a, b, p);
  }

  lemma TakeOutBoth<T>(x: T, v: seq<T>, a: seq<T>, b: seq<T>, p: T -> bool)
    requires multiset([x] + v) == multiset(a + [x] + b)
    ensures multiset(v) == multiset(a + b)
    ensures Count(v, p) == Count(a + b, p) ==> Count([x] + v, p) == Count(a + [x] + b, p)
  {
    TakeOut(a, x, b, p);
    CountConcat([x], v, p);
    CancelOne(x, multiset(v), multiset(a + b));
  }

  lemma {:induction false} CountPermuted<T>(v: seq<T>, w: seq<T>, p: T -> bool)
    requires multiset(v) == multiset(w)
    ensures Count(v, p) == Count(w, p)
    decreases |v|
  {
    if v == [] {
      assert |multiset(w)| == 0;
    } else {
      var x, v' := v[0], v[1..];
      assert v == [x] + v';
      assert x in multiset(w);
      assert x in w;
      var i :| 0 <= i < |w| && w[i] == x;
      var a, b := w[..i], w[i+1..];
      assert w == a + [x] + b;
      TakeOutBoth(x, v', a, b, p);
      CountPermuted(v', a + b, p);
    }
  }

  /** However `nth_element` leaves the other entries, later order statistics do not see it. */
  lemma KthIgnoresOrder(v: seq<real>, w: seq<real>, k: nat)
    requires multiset(v) == multiset(w) && k < |v|
    ensures |w| == |v| && Kth(v, k) == Kth(w, k)
  {
    assert |multiset(v)| == |v| && |multiset(w)| == |w|;
    var t := Kth(v, k);
    KthCounts(v, k);
    CountPermuted(v, w, Below(t));
    CountPermuted(v, w, AtMost(t));
    KthUnique(w, k, t);
  }

  // ---------------------------------------------------------------- percentile

  function Ceil(x: real): (c: int)
    ensures x <= c as real < x + 1.0
  {
    -((-x).Floor)
  }

  function Rank(n: nat, percentile: real): real { percentile / 100.0 * n as real }

  function RankIndex(n: nat, rank: real): (idx: nat)
    requires n > 0
    ensures idx < n
  {
    if rank <= 1.0 then 0
    else if Ceil(rank) - 1 >= n then n - 1 else Ceil(rank) - 1
  }

  function PercentileIndex(n: nat, percentile: real): (idx: nat)
    requires n > 0
    ensures idx < n
  {
    RankIndex(n, Rank(n, percentile))
  }

  datatype PercentileError = EmptyInput

  function PercentileValue(values: seq<real>, percentile: real): Result<real, PercentileError> {
    if values == [] then Failure(EmptyInput)
    else Success(Kth(values, PercentileIndex(|values|, percentile)))
  }

  lemma RankMonotone(n: nat, p: real, q: real)
    requires p <= q
    ensures Rank(n, p) <= Rank(n, q)
  {
    Scaled(p / 100.0, q / 100.0, n as real);
  }

  lemma Scaled(a: real, b: real, m: real)
    requires a <= b && m >= 0.0
    ensures a * m <= b * m
  {}

  lemma CeilMonotone(x: real, y: real)
    requires x <= y
    ensures Ceil(x) <= Ceil(y)
  {}

  lemma PercentileIndexMonotone(n: nat, p: real, q: real)
    requires n > 0 && p <= q
    ensures PercentileIndex(n, p) <= PercentileIndex(n, q)
  {
    RankMonotone(n, p, q);
    CeilMonotone(Rank(n, p), Rank(n, q));
  }

  lemma RankRange(n: nat, p: real)
    requires n > 0 && 0.0 < p <= 100.0
    ensures 0.0 < Rank(n, p) <= n as real
  {
    Positive(p / 100.0, n as real, Rank(n, p));
    Scaled(p / 100.0, 1.0, n as real);
  }

  /** For a percentile in (0, 100]: at most `n - ceil(p n / 100)` values exceed the result, and fewer
      than `p n / 100` (none, if that rank is at most 1) lie below it. */
  lemma PercentileSplits(values: seq<real>, p: real, rank: real)
    requires values != [] && 0.0 < p <= 100.0 && rank == Mul(p, |values| as real) / 100.0
    ensures var t := PercentileValue(values, p).value;
      && 1 <= Ceil(rank) <= |values|
      && Count(values, Above(t)) <= |values| - Ceil(rank)
      && (if rank <= 1.0 then Count(values, Below(t)) == 0 else Count(values, Below(t)) as real < rank)
  {
    RankRange(|values|, p);
    RankIs(|values|, p, rank);
    RankSplits(values, rank);
  }

  lemma RankIs(n: nat, p: real, rank: real)
    requires rank == Mul(p, n as real) / 100.0
    ensures Rank(n, p) == rank
  {}

  lemma RankSplits(values: seq<real>, rank: real)
    requires values != [] && 0.0 < rank <= |values| as real
    ensures var t := Kth(values, RankIndex(|values|, rank));
      && 1 <= Ceil(rank) <= |values|
      && Count(values, Above(t)) <= |values| - Ceil(rank)
      && (if rank <= 1.0 then Count(values, Below(t)) == 0 else Count(values, Below(t)) as real < rank)
  {
    var idx := RankIndex(|values|, rank);
    KthCounts(values, idx);
    CountComplement(values, Kth(values, idx));
  }

  // ---------------------------------------------------------------- median and MAD

  function Median(s: seq<real>): real
    requires s != []
  {
    Kth(s, |s| / 2)
  }

  function Deviations(s: seq<real>, m: real): (r: seq<real>)
    ensures |r| == |s| && forall i :: 0 <= i < |s| ==> r[i] == Abs(s[i] - m)
  {
    seq(|s|, i requires 0 <= i < |s| => Abs(s[i] - m))
  }

  const TINY: real := 0.000001

  /** The median absolute deviation, zero replaced by `1e-6`. */
  function Mad(s: seq<real>): (d: real)
    requires s != []
  {
    var raw := Kth(Deviations(s, Median(s)), |s| / 2);
    if raw == 0.0 then TINY else raw
  }

  function Near(m: real, d: real): real -> bool { x => Abs(x - m) <= d }

  /** More than half of the window lies within one MAD of its median. */
  lemma MadCoversMajority(s: seq<real>)
    requires s != []
    ensures Mad(s) > 0.0
    ensures Count(s, Near(Median(s), Mad(s))) >= |s| / 2 + 1
  {
    NearMajority(s, Median(s), |s| / 2);
    var raw := Kth(Deviations(s, Median(s)), |s| / 2);
    CountImplies(s, Near(Median(s), raw), s, Near(Median(s), Mad(s)));
  }

  lemma NearMajority(s: seq<real>, m: real, k: nat)
    requires k < |s|
    ensures Kth(Deviations(s, m), k) >= 0.0
    ensures Count(s, Near(m, Kth(Deviations(s, m), k))) >= k + 1
  {
    var dev := Deviations(s, m);
    KthNonNegative(dev, k);
    KthCounts(dev, k);
    CountImplies(dev, AtMost(Kth(dev, k)), s, Near(m, Kth(dev, k)));
  }

  lemma KthNonNegative(s: seq<real>, k: nat)
    requires k < |s| && forall i :: 0 <= i < |s| ==> s[i] >= 0.0
    ensures Kth(s, k) >= 0.0
  {
    var t := Kth(s, k);
    KthCounts(s, k);
    if t < 0.0 { CountPrefix(s, AtMost(t), 0); }
  }

  function Nearer(m: real, d: real): real -> bool { x => Abs(x - m) < d }

  /** The median is the one value with at most half of the window (rounded down) below it and more than
      that at or below it: the upper of the two middle values of an even window. */
  lemma MedianExactly(s: seq<real>, t: real)
    requires s != []
    ensures Median(s) == t <==> Count(s, Below(t)) <= |s| / 2 < Count(s, AtMost(t))
  {
    KthCounts(s, |s| / 2);
    if Count(s, Below(t)) <= |s| / 2 < Count(s, AtMost(t)) { KthUnique(s, |s| / 2, t); }
  }

  /** The MAD is the one distance that at most half of the window (rounded down) is nearer to the median
      than and more than that within; `1e-6` stands for zero. */
  lemma MadExactly(s: seq<real>, d: real)
    requires s != [] && d >= 0.0
    requires Count(s, Nearer(Median(s), d)) <= |s| / 2 < Count(s, Near(Median(s), d))
    ensures Mad(s) == if d == 0.0 then 0.000001 else d
  {
    var dev := Deviations(s, Median(s));
    CountImplies(dev, Below(d), s, Nearer(Median(s), d));
    CountImplies(s, Near(Median(s), d), dev, AtMost(d));
    KthUnique(dev, |s| / 2, d);
  }

  /** Such a distance exists. */
  lemma MadAttained(s: seq<real>) returns (d: real)
    requires s != []
    ensures d >= 0.0 && Count(s, Nearer(Median(s), d)) <= |s| / 2 < Count(s, Near(Median(s), d))
  {
    var dev := Deviations(s, Median(s));
    d := Kth(dev, |s| / 2);
    KthNonNegative(dev, |s| / 2);
    KthCounts(dev, |s| / 2);
    CountImplies(s, Nearer(Median(s), d), dev, Below(d));
    CountImplies(dev, AtMost(d), s, Near(Median(s), d));
  }

  /** In how many positions two equally long windows differ. */
  function Changed(v: seq<real>, w: seq<real>): nat
    requires |v| == |w|
  {
    if v == [] then 0 else (if v[0] != w[0] then 1 else 0) + Changed(v[1..], w[1..])
  }

  lemma {:induction false} Untouched(v: seq<real>, w: seq<real>, p: real -> bool) returns (i: nat)
    requires |v| == |w| && Count(w, p) > Changed(v, w)
    ensures i < |v| && v[i] == w[i] && p(w[i])
  {
    if v[0] == w[0] && p(w[0]) { i := 0; }
    else {
      i := Untouched(v[1..], w[1..], p);
      i := i + 1;
    }
  }

  /** Breakdown bound: if at most `(n - 1) / 2` of the `n` values are replaced, by anything, the median
      stays between two of the values that were not. */
  lemma MedianBreakdown(v: seq<real>, w: seq<real>) returns (i: nat, j: nat)
    requires v != [] && |v| == |w| && Changed(v, w) <= (|v| - 1) / 2
    ensures i < |v| && j < |v| && v[i] == w[i] && v[j] == w[j]
    ensures v[i] <= Median(w) <= v[j]
  {
    var t := Median(w);
    KthCounts(w, |w| / 2);
    CountComplement(w, t);
    i := Untouched(v, w, AtMost(t));
    j := Untouched(v, w, AtLeast(t));
  }
}
