/** Doubles with their infinities and NaN, but without rounding, overflow or signed zeros: what scoring
    computes when a stored scale is zero. */
module Doubles {
  import opened Linalg

  datatype Double = Fin(value: real) | Inf(positive: bool) | NaN

  function Add(x: Double, y: Double): Double {
    match (x, y)
    case (Fin(a), Fin(b)) => Fin(a + b)
    case (Fin(_), _) => y
    case (_, Fin(_)) => x
    case (Inf(p), Inf(q)) => if p == q then x else NaN
    case _ => NaN
  }

  function Neg(x: Double): Double {
    match x
    case Fin(a) => Fin(-a)
    case Inf(p) => Inf(!p)
    case NaN => NaN
  }

  function Sub(x: Double, y: Double): Double { Add(x, Neg(y)) }

  function Times(x: Double, y: Double): Double {
    match (x, y)
    case (Fin(a), Fin(b)) => Fin(Mul(a, b))
    case (Fin(a), Inf(p)) => if a == 0.0 then NaN else Inf((a > 0.0) == p)
    case (Inf(p), Fin(b)) => if b == 0.0 then NaN else Inf((b > 0.0) == p)
    case (Inf(p), Inf(q)) => Inf(p == q)
    case _ => NaN
  }

  /** Division by a finite number. */
  function Over(x: real, y: real): Double {
    if y != 0.0 then Fin(Quot(x, y)) else if x == 0.0 then NaN else Inf(x > 0.0)
  }

  function Root(sqrt: real -> real, x: Double): Double {
    match x
    case Fin(a) => if a < 0.0 then NaN else Fin(sqrt(a))
    case Inf(p) => if p then x else NaN
    case NaN => NaN
  }

  /** `x > t`; nothing is greater than or less than NaN. */
  predicate Exceeds(x: Double, t: real) {
    match x
    case Fin(a) => a > t
    case Inf(p) => p
    case NaN => false
  }

  // ---------------------------------------------------------------- vectors

  function Lift(v: Vector): (r: seq<Double>)
    ensures |r| == |v| && forall i :: 0 <= i < |v| ==> r[i] == Fin(v[i])
  {
    seq(|v|, i requires 0 <= i < |v| => Fin(v[i]))
  }

  function AddAll(x: seq<Double>, y: seq<Double>): (r: seq<Double>)
    requires |x| == |y|
    ensures |r| == |x| && forall i :: 0 <= i < |x| ==> r[i] == Add(x[i], y[i])
  {
    seq(|x|, i requires 0 <= i < |x| => Add(x[i], y[i]))
  }

  function SubAll(x: seq<Double>, y: seq<Double>): (r: seq<Double>)
    requires |x| == |y|
    ensures |r| == |x| && forall i :: 0 <= i < |x| ==> r[i] == Sub(x[i], y[i])
  {
    seq(|x|, i requires 0 <= i < |x| => Sub(x[i], y[i]))
  }

  function DotUpTo(x: seq<Double>, y: seq<Double>, n: nat): Double
    requires n <= |x| && n <= |y|
  {
    if n == 0 then Fin(0.0) else Add(DotUpTo(x, y, n - 1), Times(x[n-1], y[n-1]))
  }

  function Product(m: Matrix, rows: nat, cols: nat, x: seq<Double>): (r: seq<Double>)
    requires IsMatrix(m, rows, cols) && |x| == cols
    ensures |r| == rows && forall i :: 0 <= i < rows ==> r[i] == DotUpTo(Lift(m[i]), x, cols)
  {
    seq(rows, i requires 0 <= i < rows => DotUpTo(Lift(m[i]), x, cols))
  }

  method ProductLoop(a: array2<real>, x: seq<Double>) returns (out: seq<Double>)
    requires a.Length1 == |x|
    ensures out == Product(Rows(a), a.Length0, a.Length1, x)
  {
    out := [];
    for i := 0 to a.Length0
      invariant |out| == i && forall k :: 0 <= k < i ==> out[k] == DotUpTo(Lift(Rows(a)[k]), x, a.Length1)
    {
      var sum := Fin(0.0);
      for j := 0 to a.Length1
        invariant sum == DotUpTo(Lift(Rows(a)[i]), x, j)
      {
        sum := Add(sum, Times(Fin(a[i, j]), x[j]));
      }
      out := out + [sum];
    }
  }

  method DotLoop(x: seq<Double>) returns (sum: Double)
    ensures sum == DotUpTo(x, x, |x|)
  {
    sum := Fin(0.0);
    for i := 0 to |x|
      invariant sum == DotUpTo(x, x, i)
    {
      sum := Add(sum, Times(x[i], x[i]));
    }
  }

  // ---------------------------------------------------------------- on finite numbers nothing changes

  lemma {:induction false} DotLifts(x: Vector, y: Vector, n: nat)
    requires n <= |x| && n <= |y|
    ensures DotUpTo(Lift(x), Lift(y), n) == Fin(DotTo(x, y, n))
  {
    if n > 0 { DotLifts(x, y, n - 1); }
  }

  lemma ProductLifts(m: Matrix, rows: nat, cols: nat, x: Vector)
    requires IsMatrix(m, rows, cols) && |x| == cols
    ensures Product(m, rows, cols, Lift(x)) == Lift(MatVecOf(m, rows, cols, x))
  {
    forall i | 0 <= i < rows ensures DotUpTo(Lift(m[i]), Lift(x), cols) == Fin(Dot(m[i], x)) {
      DotLifts(m[i], x, cols);
    }
  }

  // ---------------------------------------------------------------- infinities spread

  predicate Within(x: Double, z: Double) { x == NaN || x == z }

  /** A sum with an infinite or NaN term is that term or NaN. */
  lemma {:induction false} TermDominates(x: seq<Double>, y: seq<Double>, n: nat, i: nat)
    requires n <= |x| && n <= |y| && i < n && !Times(x[i], y[i]).Fin?
    ensures Within(DotUpTo(x, y, n), Times(x[i], y[i]))
  {
    if i < n - 1 { TermDominates(x, y, n - 1, i); }
  }

  /** A sum of terms each of which is `z` or NaN is `z` or NaN. */
  lemma {:induction false} TermsAgree(x: seq<Double>, y: seq<Double>, n: nat, z: Double)
    requires 0 < n <= |x| && n <= |y| && !z.Fin? && forall r :: 0 <= r < n ==> Within(Times(x[r], y[r]), z)
    ensures Within(DotUpTo(x, y, n), z)
  {
    if n > 1 { TermsAgree(x, y, n - 1, z); }
  }

  /** Multiplying by a factor and by the same factor again gives back the sign. */
  lemma TwiceTheFactor(c: real, z: Double, p: Double)
    requires !z.Fin? && Within(p, Times(Fin(c), z))
    ensures Within(Times(Fin(c), p), z)
  {}
}
