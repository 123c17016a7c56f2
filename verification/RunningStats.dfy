/** The one-pass mean and co-moment accumulator (`RunningStats` in `src/training/pca_trainer.cpp`). */
module RunningStatistics {
  import opened Contract
  import opened Linalg

  predicate AllDim(xs: seq<Vector>, dim: nat) {
    forall k :: 0 <= k < |xs| ==> |xs[k]| == dim
  }

  datatype Moments = Moments(n: nat, mean: Vector, m2: Matrix)

  predicate Shaped(s: Moments, dim: nat) {
    |s.mean| == dim && IsMatrix(s.m2, dim, dim)
  }

  function Zero(dim: nat): (s: Moments)
    ensures Shaped(s, dim)
  {
    Moments(0, seq(dim, _ => 0.0), seq(dim, _ => seq(dim, _ => 0.0)))
  }

  /** The mean moved toward `x` by the n-th part of the way. */
  function Toward(m: real, x: real, n: nat): real
    requires n > 0
  {
    m + (x - m) / n as real
  }

  function NewMean(s: Moments, dim: nat, x: Vector): (m: Vector)
    requires Shaped(s, dim) && |x| == dim
    ensures |m| == dim
    ensures forall i :: 0 <= i < dim ==> m[i] == Toward(s.mean[i], x[i], s.n + 1)
  {
    seq(dim, i requires 0 <= i < dim => Toward(s.mean[i], x[i], s.n + 1))
  }

  function NewM2(s: Moments, dim: nat, x: Vector): (m: Matrix)
    requires Shaped(s, dim) && |x| == dim
    ensures IsMatrix(m, dim, dim)
    ensures forall i, j :: 0 <= i < dim && 0 <= j < dim ==>
      m[i][j] == s.m2[i][j] + Mul(x[i] - s.mean[i], x[j] - NewMean(s, dim, x)[j])
  {
    seq(dim, i requires 0 <= i < dim => seq(dim, j requires 0 <= j < dim =>
      s.m2[i][j] + Mul(x[i] - s.mean[i], x[j] - NewMean(s, dim, x)[j])))
  }

  /** One call of `update`. */
  function Updated(s: Moments, dim: nat, x: Vector): (r: Moments)
    requires Shaped(s, dim) && |x| == dim
    ensures Shaped(r, dim)
  {
    Moments(s.n + 1, NewMean(s, dim, x), NewM2(s, dim, x))
  }

  function Accumulate(xs: seq<Vector>, dim: nat): (r: Moments)
    requires AllDim(xs, dim)
    ensures Shaped(r, dim) && r.n == |xs|
  {
    if xs == [] then Zero(dim)
    else Updated(Accumulate(xs[..|xs|-1], dim), dim, xs[|xs|-1])
  }

  // ---------------------------------------------------------------- the two-pass definitions

  function ColumnSum(xs: seq<Vector>, dim: nat, i: nat): real
    requires AllDim(xs, dim) && i < dim
  {
    if xs == [] then 0.0 else ColumnSum(xs[..|xs|-1], dim, i) + xs[|xs|-1][i]
  }

  /** The sum over the rows of `(x[i] - a) * (x[j] - b)`. */
  function CoMoment(xs: seq<Vector>, dim: nat, i: nat, a: real, j: nat, b: real): real
    requires AllDim(xs, dim) && i < dim && j < dim
  {
    if xs == [] then 0.0
    else CoMoment(xs[..|xs|-1], dim, i, a, j, b) + Mul(xs[|xs|-1][i] - a, xs[|xs|-1][j] - b)
  }

  lemma {:induction false} CoMomentSymmetric(xs: seq<Vector>, dim: nat, i: nat, a: real, j: nat, b: real)
    requires AllDim(xs, dim) && i < dim && j < dim
    ensures CoMoment(xs, dim, i, a, j, b) == CoMoment(xs, dim, j, b, i, a)
  {
    if xs != [] { CoMomentSymmetric(xs[..|xs|-1], dim, i, a, j, b); }
  }

  /** `shift(n, p, q, da, db) = da * q + db * p + n * da * db`. */
  function Shift(n: real, p: real, q: real, da: real, db: real): real { da * q + db * p + n * (da * db) }

  lemma ShiftStep(n: real, p: real, q: real, da: real, db: real, u: real, w: real)
    ensures Shift(n, p, q, da, db) + Mul(u + da, w + db) == Shift(n + 1.0, p + u, q + w, da, db) + Mul(u, w)
  {}

  lemma ShiftZero(p: real, q: real, da: real, db: real)
    requires p == 0.0 && q == 0.0
    ensures Shift(0.0, p, q, da, db) == 0.0
  {}

  /** Sum of the deviations of feature `i` from `a`. */
  function DeviationSum(xs: seq<Vector>, dim: nat, i: nat, a: real): real
    requires AllDim(xs, dim) && i < dim
  {
    ColumnSum(xs, dim, i) - Mul(|xs| as real, a)
  }

  lemma DeviationSumStep(sum: real, n: nat, x: real, a: real)
    ensures (sum + x) - Mul((n + 1) as real, a) == (sum - Mul(n as real, a)) + (x - a)
  {}

  /** Moving the two centres. */
  lemma {:induction false} CoMomentShift(xs: seq<Vector>, dim: nat, i: nat, a: real, a': real,
                                         j: nat, b: real, b': real)
    requires AllDim(xs, dim) && i < dim && j < dim
    ensures CoMoment(xs, dim, i, a', j, b') == CoMoment(xs, dim, i, a, j, b)
      + Shift(|xs| as real, DeviationSum(xs, dim, i, a), DeviationSum(xs, dim, j, b), a - a', b - b')
  {
    if xs == [] {
      ShiftZero(DeviationSum(xs, dim, i, a), DeviationSum(xs, dim, j, b), a - a', b - b');
    } else {
      var ys, x := xs[..|xs|-1], xs[|xs|-1];
      CoMomentShift(ys, dim, i, a, a', j, b, b');
      ShiftStep(|ys| as real, DeviationSum(ys, dim, i, a), DeviationSum(ys, dim, j, b), a - a', b - b',
                x[i] - a, x[j] - b);
      DeviationSumStep(ColumnSum(ys, dim, i), |ys|, x[i], a);
      DeviationSumStep(ColumnSum(ys, dim, j), |ys|, x[j], b);
      assert x[i] - a' == (x[i] - a) + (a - a') && x[j] - b' == (x[j] - b) + (b - b');
    }
  }

  // ---------------------------------------------------------------- one pass equals two passes

  lemma MeanStep(n: nat, m: real, x: real, m': real)
    requires m' == Toward(m, x, n + 1)
    ensures x - m == -Mul((n + 1) as real, m - m') && x - m' == -Mul(n as real, m - m')
    ensures Mul((n + 1) as real, m') == Mul(n as real, m) + x
  {
    var d, k := (x - m) / (n + 1) as real, (n + 1) as real;
    assert k * d == x - m;
  }

  lemma MomentStep(n: nat, p: real, q: real, da: real, db: real, ui: real, wi: real, wj: real)
    requires p == 0.0 && q == 0.0
    requires ui == -Mul((n + 1) as real, da) && wi == -Mul(n as real, da) && wj == -Mul(n as real, db)
    ensures Shift(n as real, p, q, da, db) + Mul(wi, wj) == Mul(ui, wj)
  {
    var k := n as real;
    assert Mul(wi, wj) == k * k * (da * db);
    assert Mul(ui, wj) == (k + 1.0) * k * (da * db);
  }

  lemma {:induction false} DeviationsCancel(xs: seq<Vector>, dim: nat, i: nat)
    requires AllDim(xs, dim) && i < dim
    ensures DeviationSum(xs, dim, i, Accumulate(xs, dim).mean[i]) == 0.0
  {
    if xs != [] {
      var ys, x := xs[..|xs|-1], xs[|xs|-1];
      DeviationsCancel(ys, dim, i);
      MeanStep(|ys|, Accumulate(ys, dim).mean[i], x[i], Accumulate(xs, dim).mean[i]);
    }
  }

  lemma AverageOf(sum: real, n: real, m: real)
    requires n > 0.0 && sum - Mul(n, m) == 0.0
    ensures m == sum / n
  {}

  /** The mean, as `sum / n`. */
  lemma MeanIsAverage(xs: seq<Vector>, dim: nat, i: nat)
    requires AllDim(xs, dim) && i < dim && xs != []
    ensures Accumulate(xs, dim).mean[i] == ColumnSum(xs, dim, i) / |xs| as real
  {
    DeviationsCancel(xs, dim, i);
    AverageOf(ColumnSum(xs, dim, i), |xs| as real, Accumulate(xs, dim).mean[i]);
  }

  /** Recentring the old rows and adding the new one is what the incremental product adds. */
  lemma CoMomentStep(ys: seq<Vector>, dim: nat, i: nat, mi: real, xi: real, mi': real,
                     j: nat, mj: real, xj: real, mj': real)
    requires AllDim(ys, dim) && i < dim && j < dim
    requires DeviationSum(ys, dim, i, mi) == 0.0 && DeviationSum(ys, dim, j, mj) == 0.0
    requires mi' == Toward(mi, xi, |ys| + 1) && mj' == Toward(mj, xj, |ys| + 1)
    ensures CoMoment(ys, dim, i, mi', j, mj') + Mul(xi - mi', xj - mj')
         == CoMoment(ys, dim, i, mi, j, mj) + Mul(xi - mi, xj - mj')
  {
    MeanStep(|ys|, mi, xi, mi');
    MeanStep(|ys|, mj, xj, mj');
    CoMomentShift(ys, dim, i, mi, mi', j, mj, mj');
    MomentStep(|ys|, DeviationSum(ys, dim, i, mi), DeviationSum(ys, dim, j, mj), mi - mi', mj - mj',
               xi - mi, xi - mi', xj - mj');
  }

  /** For every sequence of rows the accumulator holds the co-moments about the mean. */
  lemma {:induction false} OnePassIsTwoPass(xs: seq<Vector>, dim: nat, i: nat, j: nat)
    requires AllDim(xs, dim) && i < dim && j < dim
    ensures var s := Accumulate(xs, dim);
      s.m2[i][j] == CoMoment(xs, dim, i, s.mean[i], j, s.mean[j])
  {
    if xs != [] {
      var ys, x := xs[..|xs|-1], xs[|xs|-1];
      OnePassIsTwoPass(ys, dim, i, j);
      DeviationsCancel(ys, dim, i);
      DeviationsCancel(ys, dim, j);
      var s, s' := Accumulate(ys, dim), Accumulate(xs, dim);
      CoMomentStep(ys, dim, i, s.mean[i], x[i], s'.mean[i], j, s.mean[j], x[j], s'.mean[j]);
    }
  }

  lemma M2Symmetric(xs: seq<Vector>, dim: nat)
    requires AllDim(xs, dim)
    ensures IsSymmetric(Accumulate(xs, dim).m2, dim)
  {
    var s := Accumulate(xs, dim);
    forall i, j | 0 <= i < dim && 0 <= j < dim ensures s.m2[i][j] == s.m2[j][i] {
      OnePassIsTwoPass(xs, dim, i, j);
      OnePassIsTwoPass(xs, dim, j, i);
      CoMomentSymmetric(xs, dim, i, s.mean[i], j, s.mean[j]);
    }
  }

  // ---------------------------------------------------------------- the accumulator object

  class RunningStats {
    var n: nat
    const dim: nat
    const mean: array<real>
    const m2: array2<real>

    ghost predicate Valid() {
      mean.Length == dim && m2.Length0 == dim && m2.Length1 == dim
    }

    function Value(): (s: Moments)
      requires Valid()
      reads this, mean, m2
      ensures Shaped(s, dim)
    {
      Moments(n, mean[..], Rows(m2))
    }

    constructor (dim: nat)
      ensures Valid() && fresh(mean) && fresh(m2) && this.dim == dim
      ensures Value() == Zero(dim)
    {
      this.dim := dim;
      n := 0;
      mean := new real[dim](_ => 0.0);
      m2 := new real[dim, dim]((_, _) => 0.0);
      new;
      assert mean[..] == Zero(dim).mean;
      SameMatrix(Rows(m2), Zero(dim).m2, dim, dim);
    }

    /** Throws on a row of the wrong size, before anything is changed. */
    method Update(x: Vector) returns (r: Result<(), DimError>)
      requires Valid()
      modifies this, mean, m2
      ensures |x| != dim ==> r == Failure(DimensionMismatch) && Value() == old(Value())
      ensures |x| == dim ==> r == Success(()) && Value() == Updated(old(Value()), dim, x)
    {
      if |x| != dim { return Failure(DimensionMismatch); }
      ghost var was := Value();
      n := n + 1;
      var delta := MoveMean(x);
      assert mean[..] == NewMean(was, dim, x);
      var delta2 := FromMean(x);
      AddOuter(delta, delta2);
      SameMatrix(Rows(m2), NewM2(was, dim, x), dim, dim);
      return Success(());
    }

    method FromMean(x: Vector) returns (delta: Vector)
      requires Valid() && |x| == dim
      ensures |delta| == dim && forall i :: 0 <= i < dim ==> delta[i] == x[i] - mean[i]
    {
      delta := [];
      for i := 0 to dim
        invariant |delta| == i && forall k :: 0 <= k < i ==> delta[k] == x[k] - mean[k]
      {
        delta := delta + [x[i] - mean[i]];
      }
    }

    method MoveMean(x: Vector) returns (delta: Vector)
      requires Valid() && n > 0 && |x| == dim
      modifies mean
      ensures |delta| == dim && forall i :: 0 <= i < dim ==>
        delta[i] == x[i] - old(mean[i]) && mean[i] == Toward(old(mean[i]), x[i], n)
    {
      delta := [];
      for i := 0 to dim
        invariant |delta| == i
        invariant forall k :: 0 <= k < i ==> delta[k] == x[k] - old(mean[k]) && mean[k] == Toward(old(mean[k]), x[k], n)
        invariant forall k :: i <= k < dim ==> mean[k] == old(mean[k])
      {
        delta := delta + [x[i] - mean[i]];
        mean[i] := mean[i] + delta[i] / n as real;
      }
    }

    method AddOuter(u: Vector, w: Vector)
      requires Valid() && |u| == dim && |w| == dim
      modifies m2
      ensures forall i, j :: 0 <= i < dim && 0 <= j < dim ==> m2[i, j] == old(m2[i, j]) + Mul(u[i], w[j])
    {
      for i := 0 to dim
        invariant forall a, b :: 0 <= a < dim && 0 <= b < dim ==>
          m2[a, b] == old(m2[a, b]) + if a < i then Mul(u[a], w[b]) else 0.0
      {
        for j := 0 to dim
          invariant forall a, b :: 0 <= a < dim && 0 <= b < dim ==>
            m2[a, b] == old(m2[a, b]) + if a < i || (a == i && b < j) then Mul(u[a], w[b]) else 0.0
        {
          m2[i, j] := m2[i, j] + u[i] * w[j];
        }
      }
    }
  }
}
