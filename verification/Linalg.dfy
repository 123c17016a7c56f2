/** Vectors and matrices (`src/linalg/matrix.cpp`).

    Doubles are modelled as exact reals. A `Vector` is a sequence; a `Matrix` value is the
    list of its rows. Code that fills or rewrites a matrix element by element works on an
    `array2<real>`, whose value is `Rows`. */
module Linalg {
  import opened Contract

  type Vector = seq<real>
  type Matrix = seq<seq<real>>

  /** The two library functions the numeric code calls, as parameters.
      `angle(app, aqq, apq)` stands for the cosine and sine of the Jacobi angle. */
  datatype Libm = Libm(sqrt: real -> real, angle: (real, real, real) -> (real, real))

  ghost predicate IsSqrt(sqrt: real -> real) {
    forall x :: x >= 0.0 ==> sqrt(x) >= 0.0 && sqrt(x) * sqrt(x) == x
  }

  /** What half the `atan2` of `(2 apq, aqq - app)` delivers: a point on the unit circle that
      annihilates the pivot entry. */
  predicate Annihilates(app: real, aqq: real, apq: real, c: real, s: real) {
    c * c + s * s == 1.0 && c * s * (app - aqq) + (c * c - s * s) * apq == 0.0
  }

  ghost predicate IsAngle(angle: (real, real, real) -> (real, real)) {
    forall app, aqq, apq ::
      Annihilates(app, aqq, apq, angle(app, aqq, apq).0, angle(app, aqq, apq).1)
  }

  ghost predicate ValidLibm(libm: Libm) {
    IsSqrt(libm.sqrt) && IsAngle(libm.angle)
  }

  /** A product as a function symbol: two products of equal arguments are equal by congruence. */
  function Mul(x: real, y: real): real { x * y }

  function Quot(x: real, y: real): real
    requires y != 0.0
  {
    x / y
  }

  /** A linear combination of two numbers, as a symbol for the same reason. */
  function Mix(a: real, x: real, b: real, y: real): real { a * x + b * y }

  function Abs(x: real): (r: real)
    ensures r >= 0.0 && (r == x || r == -x)
  {
    if x < 0.0 then -x else x
  }

  predicate IsMatrix(m: Matrix, rows: nat, cols: nat) {
    |m| == rows && forall i :: 0 <= i < rows ==> |m[i]| == cols
  }

  predicate IsSymmetric(m: Matrix, n: nat)
    requires IsMatrix(m, n, n)
  {
    forall i, j :: 0 <= i < n && 0 <= j < n ==> m[i][j] == m[j][i]
  }

  /** The value of a matrix object. */
  function Rows(m: array2<real>): (r: Matrix)
    reads m
    ensures IsMatrix(r, m.Length0, m.Length1)
    ensures forall i, j :: 0 <= i < m.Length0 && 0 <= j < m.Length1 ==> r[i][j] == m[i, j]
  {
    seq(m.Length0, i requires 0 <= i < m.Length0 reads m =>
      seq(m.Length1, j requires 0 <= j < m.Length1 reads m => m[i, j]))
  }

  lemma SameMatrix(a: Matrix, b: Matrix, r: nat, c: nat)
    requires IsMatrix(a, r, c) && IsMatrix(b, r, c)
    requires forall i, j :: 0 <= i < r && 0 <= j < c ==> a[i][j] == b[i][j]
    ensures a == b
  {
    forall i | 0 <= i < r ensures a[i] == b[i] {}
  }

  // ---------------------------------------------------------------- sums and dot products

  function SumTo(x: Vector, n: nat): real
    requires n <= |x|
  {
    if n == 0 then 0.0 else SumTo(x, n - 1) + x[n - 1]
  }

  function Sum(x: Vector): real { SumTo(x, |x|) }

  function DotTo(x: Vector, y: Vector, n: nat): real
    requires n <= |x| && n <= |y|
  {
    if n == 0 then 0.0 else DotTo(x, y, n - 1) + Mul(x[n - 1], y[n - 1])
  }

  function Dot(x: Vector, y: Vector): real
    requires |x| == |y|
  {
    DotTo(x, y, |x|)
  }

  function NormSq(x: Vector): real { Dot(x, x) }

  function Column(m: Matrix, rows: nat, cols: nat, j: nat): (v: Vector)
    requires IsMatrix(m, rows, cols) && j < cols
    ensures |v| == rows && forall i :: 0 <= i < rows ==> v[i] == m[i][j]
  {
    seq(rows, i requires 0 <= i < rows => m[i][j])
  }

  function MatVecOf(m: Matrix, rows: nat, cols: nat, x: Vector): (v: Vector)
    requires IsMatrix(m, rows, cols) && |x| == cols
    ensures |v| == rows && forall i :: 0 <= i < rows ==> v[i] == Dot(m[i], x)
  {
    seq(rows, i requires 0 <= i < rows => Dot(m[i], x))
  }

  function TransposeOf(m: Matrix, rows: nat, cols: nat): (t: Matrix)
    requires IsMatrix(m, rows, cols)
    ensures IsMatrix(t, cols, rows)
    ensures forall i, j :: 0 <= i < cols && 0 <= j < rows ==> t[i][j] == m[j][i]
  {
    seq(cols, j requires 0 <= j < cols => Column(m, rows, cols, j))
  }

  function Delta(i: int, j: int): real { if i == j then 1.0 else 0.0 }

  function IdentityOf(n: nat): (m: Matrix)
    ensures IsMatrix(m, n, n)
    ensures forall i, j :: 0 <= i < n && 0 <= j < n ==> m[i][j] == Delta(i, j)
  {
    seq(n, i => seq(n, j => Delta(i, j)))
  }

  lemma {:induction false} DotToCongruence(x: Vector, y: Vector, x': Vector, y': Vector, n: nat)
    requires n <= |x| && n <= |y| && n <= |x'| && n <= |y'|
    requires forall k :: 0 <= k < n ==> x[k] == x'[k] && y[k] == y'[k]
    ensures DotTo(x, y, n) == DotTo(x', y', n)
  {
    if n > 0 { DotToCongruence(x, y, x', y', n - 1); }
  }

  lemma {:induction false} DotToSymmetric(x: Vector, y: Vector, n: nat)
    requires n <= |x| && n <= |y|
    ensures DotTo(x, y, n) == DotTo(y, x, n)
  {
    if n > 0 { DotToSymmetric(x, y, n - 1); }
  }

  lemma DotSymmetric(x: Vector, y: Vector)
    requires |x| == |y|
    ensures Dot(x, y) == Dot(y, x)
  {
    DotToSymmetric(x, y, |x|);
  }

  /** Linearity in the left argument, for a vector given entrywise as `a x + b y`. */
  lemma {:induction false} DotToCombine(z: Vector, a: real, x: Vector, b: real, y: Vector, w: Vector, n: nat)
    requires n <= |z| && n <= |x| && n <= |y| && n <= |w|
    requires forall k :: 0 <= k < n ==> z[k] == Mix(a, x[k], b, y[k])
    ensures DotTo(z, w, n) == Mix(a, DotTo(x, w, n), b, DotTo(y, w, n))
  {
    if n > 0 {
      DotToCombine(z, a, x, b, y, w, n - 1);
      MixTimes(a, x[n-1], b, y[n-1], w[n-1]);
      MixSum(a, DotTo(x, w, n - 1), Mul(x[n-1], w[n-1]), b, DotTo(y, w, n - 1), Mul(y[n-1], w[n-1]));
    }
  }

  lemma MixTimes(a: real, x: real, b: real, y: real, w: real)
    ensures Mul(Mix(a, x, b, y), w) == Mix(a, Mul(x, w), b, Mul(y, w))
  {}

  lemma MixSum(a: real, x: real, x': real, b: real, y: real, y': real)
    ensures Mix(a, x, b, y) + Mix(a, x', b, y') == Mix(a, x + x', b, y + y')
  {}

  lemma DotCombine(z: Vector, a: real, x: Vector, b: real, y: Vector, w: Vector)
    requires |z| == |x| == |y| == |w|
    requires forall k :: 0 <= k < |z| ==> z[k] == Mix(a, x[k], b, y[k])
    ensures Dot(z, w) == Mix(a, Dot(x, w), b, Dot(y, w))
    ensures Dot(w, z) == Mix(a, Dot(w, x), b, Dot(w, y))
  {
    DotToCombine(z, a, x, b, y, w, |z|);
    DotSymmetric(z, w); DotSymmetric(x, w); DotSymmetric(y, w);
  }

  lemma {:induction false} DotToUnit(x: Vector, u: Vector, i: nat, n: nat)
    requires n <= |x| && n <= |u|
    requires forall k :: 0 <= k < n ==> u[k] == Delta(i, k)
    ensures DotTo(x, u, n) == if i < n then x[i] else 0.0
  {
    if n > 0 { DotToUnit(x, u, i, n - 1); }
  }

  lemma Positive(a: real, b: real, ab: real)
    requires a > 0.0 && b > 0.0 && ab == a * b
    ensures ab > 0.0
  {}

  lemma NonNegativeProduct(a: real, b: real)
    requires a >= 0.0 && b >= 0.0
    ensures Mul(a, b) >= 0.0
  {}

  /** Squares are handled through a named product: the solver rewrites a bare `t * t > 0`. */
  lemma Square(t: real, sq: real)
    requires sq == t * t
    ensures sq >= 0.0 && (t != 0.0 ==> sq > 0.0)
  {
    if t > 0.0 { Positive(t, t, sq); }
    if t < 0.0 { Positive(-t, -t, sq); }
  }

  lemma AddSquareNamed(b: real, t: real, sq: real)
    requires sq == t * t && b >= 0.0
    ensures b + sq >= b && (t != 0.0 || b > 0.0 ==> b + sq > 0.0)
  {
    Square(t, sq);
  }

  lemma AddSquare(b: real, t: real)
    requires b >= 0.0
    ensures b + t * t >= b && (t != 0.0 || b > 0.0 ==> b + t * t > 0.0)
  {
    AddSquareNamed(b, t, t * t);
  }

  lemma {:induction false} NormSqNonNegative(x: Vector, n: nat)
    requires n <= |x|
    ensures DotTo(x, x, n) >= 0.0
    ensures forall k :: 0 <= k < n && x[k] != 0.0 ==> DotTo(x, x, n) > 0.0
  {
    if n > 0 {
      NormSqNonNegative(x, n - 1);
      AddSquare(DotTo(x, x, n - 1), x[n - 1]);
    }
  }

  /** Two vectors that differ in at most the entries `p` and `q`. */
  lemma {:induction false} SumToTwoChanges(x: Vector, y: Vector, p: nat, q: nat, n: nat)
    requires n <= |x| == |y| && p < |x| && q < |x| && p != q
    requires forall k :: 0 <= k < n && k != p && k != q ==> x[k] == y[k]
    ensures SumTo(x, n) - SumTo(y, n)
         == (if p < n then x[p] - y[p] else 0.0) + (if q < n then x[q] - y[q] else 0.0)
  {
    if n > 0 { SumToTwoChanges(x, y, p, q, n - 1); }
  }

  lemma {:induction false} DotToTwoChanges(x: Vector, y: Vector, x': Vector, y': Vector, p: nat, q: nat, n: nat)
    requires n <= |x| == |y| == |x'| == |y'| && p < |x| && q < |x| && p != q
    requires forall k :: 0 <= k < n && k != p && k != q ==> x'[k] == x[k] && y'[k] == y[k]
    ensures DotTo(x', y', n) - DotTo(x, y, n)
         == (if p < n then Mul(x'[p], y'[p]) - Mul(x[p], y[p]) else 0.0)
          + (if q < n then Mul(x'[q], y'[q]) - Mul(x[q], y[q]) else 0.0)
  {
    if n > 0 { DotToTwoChanges(x, y, x', y', p, q, n - 1); }
  }

  lemma {:induction false} DotToZero(x: Vector, y: Vector, n: nat)
    requires n <= |x| && n <= |y|
    requires forall k :: 0 <= k < n ==> x[k] == 0.0
    ensures DotTo(x, y, n) == 0.0
  {
    if n > 0 { DotToZero(x, y, n - 1); }
  }

  // ---------------------------------------------------------------- the loops of the library

  datatype DimError = DimensionMismatch

  method DotProduct(a: Vector, b: Vector) returns (r: Result<real, DimError>)
    ensures r == if |a| != |b| then Failure(DimensionMismatch) else Success(Dot(a, b))
  {
    if |a| != |b| { return Failure(DimensionMismatch); }
    var sum := 0.0;
    for i := 0 to |a|
      invariant sum == DotTo(a, b, i)
    {
      sum := sum + a[i] * b[i];
    }
    return Success(sum);
  }

  method MatVec(a: array2<real>, x: Vector) returns (r: Result<Vector, DimError>)
    ensures r == if a.Length1 != |x| then Failure(DimensionMismatch)
                 else Success(MatVecOf(Rows(a), a.Length0, a.Length1, x))
  {
    if a.Length1 != |x| { return Failure(DimensionMismatch); }
    var out: Vector := [];
    for i := 0 to a.Length0
      invariant |out| == i
      invariant forall k :: 0 <= k < i ==> out[k] == Dot(Rows(a)[k], x)
    {
      var sum := 0.0;
      for j := 0 to a.Length1
        invariant sum == DotTo(Rows(a)[i], x, j)
      {
        sum := sum + a[i, j] * x[j];
      }
      out := out + [sum];
    }
    assert out == MatVecOf(Rows(a), a.Length0, a.Length1, x);
    return Success(out);
  }

  method Transpose(m: array2<real>) returns (t: array2<real>)
    ensures fresh(t) && t.Length0 == m.Length1 && t.Length1 == m.Length0
    ensures Rows(t) == TransposeOf(Rows(m), m.Length0, m.Length1)
  {
    t := new real[m.Length1, m.Length0];
    for r := 0 to m.Length0
      invariant forall i, j :: 0 <= i < r && 0 <= j < m.Length1 ==> t[j, i] == m[i, j]
    {
      for c := 0 to m.Length1
        invariant forall i, j :: 0 <= i < r && 0 <= j < m.Length1 ==> t[j, i] == m[i, j]
        invariant forall j :: 0 <= j < c ==> t[j, r] == m[r, j]
      {
        t[c, r] := m[r, c];
      }
    }
    SameMatrix(Rows(t), TransposeOf(Rows(m), m.Length0, m.Length1), m.Length1, m.Length0);
  }
}
