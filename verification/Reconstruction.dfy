/** Projection on orthonormal components and the part of a row they leave unexplained. */
module Reconstruction {
  import opened Linalg
  import opened Jacobi
  import opened EigenSym
  import opened PcaSpec

  ghost predicate OrthonormalList(c: Matrix, dim: nat)
    requires IsMatrix(c, |c|, dim)
  {
    forall i, j :: 0 <= i < |c| && 0 <= j < |c| ==> Dot(c[i], c[j]) == Delta(i, j)
  }

  /** `x` with its projections on the first `m` components removed one after the other. */
  function Rest(c: Matrix, dim: nat, x: Vector, m: nat): (r: Vector)
    requires IsMatrix(c, |c|, dim) && |x| == dim && m <= |c|
    ensures |r| == dim
  {
    if m == 0 then x
    else
      var r, y := Rest(c, dim, x, m - 1), Dot(c[m-1], x);
      seq(dim, t requires 0 <= t < dim => Mix(1.0, r[t], -y, c[m-1][t]))
  }

  lemma RestStep(c: Matrix, dim: nat, x: Vector, m: nat, w: Vector)
    requires IsMatrix(c, |c|, dim) && |x| == |w| == dim && 0 < m <= |c|
    ensures Dot(w, Rest(c, dim, x, m)) == Mix(1.0, Dot(w, Rest(c, dim, x, m - 1)), -Dot(c[m-1], x), Dot(w, c[m-1]))
    ensures Dot(Rest(c, dim, x, m), w) == Mix(1.0, Dot(Rest(c, dim, x, m - 1), w), -Dot(c[m-1], x), Dot(c[m-1], w))
  {
    DotCombine(Rest(c, dim, x, m), 1.0, Rest(c, dim, x, m - 1), -Dot(c[m-1], x), c[m-1], w);
  }

  lemma MixUnit(a: real, y: real, delta: real)
    ensures delta == 0.0 ==> Mix(1.0, a, -y, delta) == a
    ensures delta == 1.0 ==> Mix(1.0, a, -y, delta) == a - y
  {}

  /** The rest is orthogonal to the components already removed, and the others still see all of `x`. */
  lemma {:induction false} RestOrthogonal(c: Matrix, dim: nat, x: Vector, m: nat, j: nat)
    requires IsMatrix(c, |c|, dim) && |x| == dim && m <= |c| && j < |c| && OrthonormalList(c, dim)
    ensures Dot(c[j], Rest(c, dim, x, m)) == if j < m then 0.0 else Dot(c[j], x)
  {
    if m > 0 {
      RestOrthogonal(c, dim, x, m - 1, j);
      RestStep(c, dim, x, m, c[j]);
      MixUnit(Dot(c[j], Rest(c, dim, x, m - 1)), Dot(c[m-1], x), Delta(j, m - 1));
    }
  }

  lemma NormDrop(n: real, n': real, mid: real, y: real, zero: real)
    requires n' == Mix(1.0, mid, -y, zero) && mid == Mix(1.0, n, -y, y) && zero == 0.0
    ensures n' == n - Mul(y, y)
  {}

  /** Removing one more component lowers the squared length by the squared projection. */
  lemma RestNorm(c: Matrix, dim: nat, x: Vector, m: nat)
    requires IsMatrix(c, |c|, dim) && |x| == dim && 0 < m <= |c| && OrthonormalList(c, dim)
    ensures NormSq(Rest(c, dim, x, m)) == NormSq(Rest(c, dim, x, m - 1)) - Mul(Dot(c[m-1], x), Dot(c[m-1], x))
  {
    var r, r', u := Rest(c, dim, x, m - 1), Rest(c, dim, x, m), c[m-1];
    RestStep(c, dim, x, m, r');
    RestStep(c, dim, x, m, r);
    RestOrthogonal(c, dim, x, m, m - 1);
    RestOrthogonal(c, dim, x, m - 1, m - 1);
    DotSymmetric(r, u);
    NormDrop(Dot(r, r), Dot(r', r'), Dot(r, r'), Dot(u, x), Dot(u, r'));
  }

  lemma SquareTakenAway(n: real, n': real, y: real)
    requires n' == n - Mul(y, y)
    ensures n' <= n
  {
    AddSquare(0.0, y);
  }

  lemma {:induction false} RestShrinks(c: Matrix, dim: nat, x: Vector, a: nat, b: nat)
    requires IsMatrix(c, |c|, dim) && |x| == dim && a <= b <= |c| && OrthonormalList(c, dim)
    ensures 0.0 <= NormSq(Rest(c, dim, x, b)) <= NormSq(Rest(c, dim, x, a))
  {
    NormSqNonNegative(Rest(c, dim, x, b), dim);
    if a < b {
      RestShrinks(c, dim, x, a, b - 1);
      RestNorm(c, dim, x, b);
      SquareTakenAway(NormSq(Rest(c, dim, x, b - 1)), NormSq(Rest(c, dim, x, b)), Dot(c[b-1], x));
    }
  }

  lemma {:induction false} RestPrefix(c: Matrix, dim: nat, x: Vector, k: nat, m: nat)
    requires IsMatrix(c, |c|, dim) && |x| == dim && m <= k <= |c|
    ensures Rest(c[..k], dim, x, m) == Rest(c, dim, x, m)
  {
    if m > 0 { RestPrefix(c, dim, x, k, m - 1); }
  }

  /** Entry `t` of the rest is `x[t]` minus what the reconstruction loops have accumulated. */
  lemma {:induction false} RestEntry(c: Matrix, dim: nat, x: Vector, m: nat, t: nat)
    requires IsMatrix(c, |c|, dim) && |x| == dim && m <= |c| && t < dim
    ensures Rest(c, dim, x, m)[t]
         == x[t] - DotTo(Column(c, |c|, dim, t), MatVecOf(c, |c|, dim, x), m)
  {
    if m > 0 {
      RestEntry(c, dim, x, m - 1, t);
      MixMinus(Rest(c, dim, x, m - 1)[t], Dot(c[m-1], x), c[m-1][t]);
    }
  }

  lemma MixMinus(r: real, y: real, e: real)
    ensures Mix(1.0, r, -y, e) == r - Mul(e, y)
  {}

  /** The residual the code computes is the rest of the centred row. */
  lemma ResidualIsRest(mean: Vector, scale: Vector, c: Matrix, pcaMean: Vector, x: Vector)
    requires |mean| == |scale| == |pcaMean| == |x| && NonZero(scale) && IsMatrix(c, |c|, |x|)
    ensures ResidualOf(mean, scale, c, pcaMean, x)
         == Rest(c, |x|, VecSub(Standardise(x, mean, scale), pcaMean), |c|)
  {
    var dim, k := |x|, |c|;
    var scaled := Standardise(x, mean, scale);
    var centred := VecSub(scaled, pcaMean);
    var proj := MatVecOf(c, k, dim, centred);
    var recon := MatVecOf(TransposeOf(c, k, dim), dim, k, proj);
    forall t | 0 <= t < dim
      ensures ResidualOf(mean, scale, c, pcaMean, x)[t] == Rest(c, dim, centred, k)[t]
    {
      RestEntry(c, dim, centred, k, t);
      assert TransposeOf(c, k, dim)[t] == Column(c, k, dim, t);
      assert recon[t] == DotTo(Column(c, k, dim, t), proj, k);
    }
  }

  // ---------------------------------------------------------------- the components of a decomposition

  lemma {:induction false} InsertIndexMember(v: Vector, order: seq<nat>, i: nat, x: nat)
    requires i < |v| && Indices(order, |v|)
    ensures x in InsertIndex(v, order, i) <==> x == i || x in order
  {
    if order != [] && !Before(v, i, order[0]) { InsertIndexMember(v, order[1..], i, x); }
  }

  ghost predicate Ordered(v: Vector, order: seq<nat>)
    requires Indices(order, |v|)
  {
    forall a, b :: 0 <= a < b < |order| ==> Before(v, order[a], order[b])
  }

  lemma {:induction false} InsertIndexOrdered(v: Vector, order: seq<nat>, i: nat)
    requires i < |v| && Indices(order, |v|) && Ordered(v, order) && i !in order
    ensures Ordered(v, InsertIndex(v, order, i))
  {
    var r := InsertIndex(v, order, i);
    if order == [] || Before(v, i, order[0]) {
      forall b | 0 < b < |r| ensures Before(v, i, r[b]) {
        if b > 1 { assert Before(v, order[0], order[b-1]); }
      }
    } else {
      InsertIndexOrdered(v, order[1..], i);
      var rest := InsertIndex(v, order[1..], i);
      forall b | 0 <= b < |rest| ensures Before(v, order[0], rest[b]) {
        InsertIndexMember(v, order[1..], i, rest[b]);
      }
    }
  }

  lemma {:induction false} ArgsortToFacts(v: Vector, n: nat)
    requires n <= |v|
    ensures Ordered(v, ArgsortTo(v, n))
    ensures forall x :: x in ArgsortTo(v, n) <==> 0 <= x < n
  {
    if n > 0 {
      ArgsortToFacts(v, n - 1);
      InsertIndexOrdered(v, ArgsortTo(v, n - 1), n - 1);
      forall x ensures x in ArgsortTo(v, n) <==> 0 <= x < n {
        if x >= 0 { InsertIndexMember(v, ArgsortTo(v, n - 1), n - 1, x); }
      }
    }
  }

  /** `argsort_desc` lists every index once, values descending, ties by index. */
  lemma ArgsortFacts(v: Vector)
    ensures var r := ArgsortDesc(v);
      && Ordered(v, r) && (forall x :: x in r <==> 0 <= x < |v|)
      && (forall a, b :: 0 <= a < b < |r| ==> r[a] != r[b] && v[r[a]] >= v[r[b]])
  {
    ArgsortToFacts(v, |v|);
    var r := ArgsortDesc(v);
    forall a, b | 0 <= a < b < |r| ensures r[a] != r[b] && v[r[a]] >= v[r[b]] {
      assert Before(v, r[a], r[b]);
    }
  }

  lemma SignsCancel(s: real, t: real, d: real)
    requires (s == 1.0 || s == -1.0) && (t == 1.0 || t == -1.0)
    ensures d == 0.0 ==> Mul(s, Mul(t, d)) == 0.0
    ensures s == t && d == 1.0 ==> Mul(s, Mul(t, d)) == 1.0
  {}

  /** Inner product with a sign-fixed vector. */
  lemma SignedDot(v: Vector, w: Vector)
    requires |v| == |w| > 0
    ensures Dot(WithSign(v), w) == Mul(SignOf(v), Dot(v, w))
    ensures Dot(w, WithSign(v)) == Mul(SignOf(v), Dot(w, v))
  {
    var s := SignOf(v);
    forall k | 0 <= k < |v| ensures WithSign(v)[k] == Mix(s, v[k], 0.0, v[k]) {
      MixSingle(s, v[k]);
    }
    DotCombine(WithSign(v), s, v, 0.0, v, w);
    MixSingle(s, Dot(v, w));
    MixSingle(s, Dot(w, v));
  }

  lemma MixSingle(s: real, x: real)
    ensures Mix(s, x, 0.0, x) == Mul(s, x) == Mul(x, s)
  {}

  /** Selection, order and sign keep the components orthonormal. */
  lemma ComponentsOrthonormal(e: Eigen, dim: nat)
    requires |e.values| == dim && IsMatrix(e.vectors, dim, dim) && OrthonormalColumns(e.vectors, dim)
    ensures OrthonormalList(ComponentsOf(e, dim, dim), dim)
  {
    var c, order := ComponentsOf(e, dim, dim), ArgsortDesc(e.values);
    ArgsortFacts(e.values);
    forall i, j | 0 <= i < dim && 0 <= j < dim ensures Dot(c[i], c[j]) == Delta(i, j) {
      var u, w := Column(e.vectors, dim, dim, order[i]), Column(e.vectors, dim, dim, order[j]);
      SignedDot(u, WithSign(w));
      SignedDot(w, u);
      assert Dot(u, w) == Delta(order[i], order[j]);
      assert order[i] == order[j] <==> i == j;
      SignsCancel(SignOf(u), SignOf(w), Dot(u, w));
    }
  }

  lemma SignedZero(s: real, d: real)
    requires (s == 1.0 || s == -1.0) && Mul(s, d) == 0.0
    ensures d == 0.0
  {}

  /** With all components kept nothing is left of any vector. */
  lemma AllComponentsExplain(e: Eigen, dim: nat, x: Vector)
    requires |e.values| == dim && IsMatrix(e.vectors, dim, dim) && |x| == dim
    requires OrthonormalColumns(e.vectors, dim) && Complete(e.vectors, dim)
    ensures NormSq(Rest(ComponentsOf(e, dim, dim), dim, x, dim)) == 0.0
  {
    var c, order := ComponentsOf(e, dim, dim), ArgsortDesc(e.values);
    var r := Rest(c, dim, x, dim);
    ComponentsOrthonormal(e, dim);
    ArgsortFacts(e.values);
    var y := Coordinates(e.vectors, dim, r);
    forall a | 0 <= a < dim ensures y[a] == 0.0 {
      assert a in order;
      var i :| 0 <= i < dim && order[i] == a;
      var u := Column(e.vectors, dim, dim, a);
      RestOrthogonal(c, dim, x, dim, i);
      SignedDot(u, r);
      SignedZero(SignOf(u), Dot(u, r));
    }
    DotToZero(y, y, dim);
  }
}
