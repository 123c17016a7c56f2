/** The in-place code of `eigen_sym_jacobi`, proved equal to `Jacobi.Diagonalise`. */
module EigenSym {
  import opened Contract
  import opened Linalg
  import opened Sealing
  import opened Jacobi

  /** Eigenvalues, and eigenvectors as the columns of `vectors`. */
  datatype Eigen = Eigen(values: Vector, vectors: Matrix)

  function EigenOf(libm: Libm, a: Matrix, n: nat, maxIter: int, eps: real): (r: Eigen)
    requires IsMatrix(a, n, n) && eps > 0.0
    ensures |r.values| == n && IsMatrix(r.vectors, n, n)
  {
    var budget := if maxIter < 0 then 0 else maxIter;
    SweepShape(libm, a, n, budget, eps);
    var s := Diagonalise(libm, a, n, budget, eps);
    Eigen(Diagonal(s.d, n), s.v)
  }

  lemma SweepShape(libm: Libm, a: Matrix, n: nat, budget: nat, eps: real)
    requires IsMatrix(a, n, n) && eps > 0.0
    ensures var s := Diagonalise(libm, a, n, budget, eps); IsMatrix(s.d, n, n) && IsMatrix(s.v, n, n)
  {
    IterateKeeps(OffTest(n), Body(libm, n), a, IdentityOf(n), budget, eps,
                 (d, v) => IsMatrix(d, n, n) && IsMatrix(v, n, n));
  }

  /** What the caller gets, in terms of the input alone: orthonormal vectors `v`, each value `v A v`, the
      values summing to the trace; and with enough iterations `u A v` is below `eps` for any two, and each
      pair is an eigenpair up to an error of squared length `(n - 1) eps^2`. */
  lemma EigenpairsOf(libm: Libm, a: Matrix, n: nat, maxIter: int, eps: real, loss: real)
    requires IsAngle(libm.angle) && IsMatrix(a, n, n) && IsSymmetric(a, n) && eps > 0.0 && loss == 2.0 * Mul(eps, eps)
    ensures var e := EigenOf(libm, a, n, maxIter, eps);
      && OrthonormalRows(e.vectors, n) && OrthonormalColumns(e.vectors, n) && Sum(e.values) == Trace(a, n)
      && (forall i :: 0 <= i < n ==> e.values[i] == Form(a, e.vectors, n, i, i))
      && (Mul(maxIter as real, loss) > OffSq(a, n) ==>
            && (forall i, j :: 0 <= i < n && 0 <= j < n && i != j ==> Abs(Form(a, e.vectors, n, i, j)) < eps)
            && (forall i :: 0 <= i < n ==>
                  NormSq(Defect(a, e.vectors, n, i, e.values[i])) <= Mul((n - 1) as real, Mul(eps, eps))))
  {
    var budget := if maxIter < 0 then 0 else maxIter;
    DiagonaliseDecomposes(libm, a, n, budget, eps);
    var s := Diagonalise(libm, a, n, budget, eps);
    forall i, j | 0 <= i < n && 0 <= j < n ensures Form(a, s.v, n, i, j) == s.d[i][j] {}
    if Mul(maxIter as real, loss) > OffSq(a, n) {
      OffSqNonNegative(a, n);
      ManyIterations(maxIter as real, eps, loss);
      EnoughIterationsConverge(libm, a, n, budget, eps, loss);
      forall i | 0 <= i < n ensures NormSq(Defect(a, s.v, n, i, s.d[i][i])) <= Mul((n - 1) as real, Mul(eps, eps)) {
        DefectBound(a, s.d, s.v, n, i, eps);
      }
    }
  }

  /** `A v - value v` for column `i`. */
  function Defect(a: Matrix, v: Matrix, n: nat, i: nat, value: real): (r: Vector)
    requires IsMatrix(a, n, n) && IsMatrix(v, n, n) && i < n
    ensures |r| == n
  {
    var x := Column(v, n, n, i);
    var ax := MatVecOf(a, n, n, x);
    seq(n, k requires 0 <= k < n => Mix(1.0, ax[k], -value, x[k]))
  }

  lemma {:induction false} OffRowOf(d: Matrix, n: nat, i: nat, y: Vector, m: nat)
    requires IsMatrix(d, n, n) && i < n && m <= n == |y|
    requires forall j :: 0 <= j < n ==> y[j] == if j == i then 0.0 else d[i][j]
    ensures DotTo(y, y, m) == OffRow(d, n, i, m)
  {
    if m > 0 { OffRowOf(d, n, i, y, m - 1); }
  }

  /** The squared defect of a column is what its row of D holds off the diagonal. */
  lemma DefectIsOffRow(a: Matrix, d: Matrix, v: Matrix, n: nat, i: nat)
    requires Decomposition(a, d, v, n) && i < n
    ensures NormSq(Defect(a, v, n, i, d[i][i])) == OffRow(d, n, i, n)
  {
    var x, r := Column(v, n, n, i), Defect(a, v, n, i, d[i][i]);
    var ax, y := MatVecOf(a, n, n, x), Coordinates(v, n, r);
    forall j | 0 <= j < n ensures y[j] == if j == i then 0.0 else d[i][j] {
      var u := Column(v, n, n, j);
      DotCombine(r, 1.0, ax, -d[i][i], x, u);
      assert Dot(u, x) == Delta(j, i) && Dot(u, ax) == d[j][i] == d[i][j];
      DefectEntry(d[j][i], d[i][i], Delta(j, i));
    }
    OffRowOf(d, n, i, y, n);
  }

  /** The squared defects of all returned pairs. */
  function Defects(a: Matrix, e: Eigen, n: nat): (r: Vector)
    requires IsMatrix(a, n, n) && |e.values| == n && IsMatrix(e.vectors, n, n)
    ensures |r| == n && forall i :: 0 <= i < n ==> r[i] == NormSq(Defect(a, e.vectors, n, i, e.values[i]))
  {
    seq(n, i requires 0 <= i < n => NormSq(Defect(a, e.vectors, n, i, e.values[i])))
  }

  /** Whether or not the limit was used up, the squared defects sum to at most
      `(1 - 2/(n(n-1)))^k` of the initial off-diagonal weight, `k` being the number of rotations. */
  lemma {:induction false} DefectsShrink(libm: Libm, a: Matrix, n: nat, maxIter: int, eps: real)
    requires IsAngle(libm.angle) && IsMatrix(a, n, n) && IsSymmetric(a, n) && eps > 0.0 && n >= 2
    ensures var s := Diagonalise(libm, a, n, if maxIter < 0 then 0 else maxIter, eps);
      Sum(Defects(a, EigenOf(libm, a, n, maxIter, eps), n)) <= Mul(Pow(Shrink(n), s.rotations), OffSq(a, n))
  {
    var budget := if maxIter < 0 then 0 else maxIter;
    var s := Diagonalise(libm, a, n, budget, eps);
    WeightShrinksGeometrically(libm, a, n, budget, eps);
    SumOfDefects(libm, a, n, budget, eps);
    assert EigenOf(libm, a, n, maxIter, eps) == Eigen(Diagonal(s.d, n), s.v);
  }

  lemma {:induction false} SumOfDefects(libm: Libm, a: Matrix, n: nat, budget: nat, eps: real)
    requires IsAngle(libm.angle) && IsMatrix(a, n, n) && IsSymmetric(a, n) && eps > 0.0
    ensures var s := Diagonalise(libm, a, n, budget, eps);
      && IsMatrix(s.d, n, n) && IsMatrix(s.v, n, n)
      && Sum(Defects(a, Eigen(Diagonal(s.d, n), s.v), n)) == OffSq(s.d, n)
  {
    DiagonaliseDecomposes(libm, a, n, budget, eps);
    var s := Diagonalise(libm, a, n, budget, eps);
    DefectsAreOffRows(a, s.d, s.v, n);
  }

  lemma {:induction false} DefectsAreOffRows(a: Matrix, d: Matrix, v: Matrix, n: nat)
    requires Decomposition(a, d, v, n)
    ensures Defects(a, Eigen(Diagonal(d, n), v), n) == OffRows(d, n)
  {
    forall i | 0 <= i < n ensures Defects(a, Eigen(Diagonal(d, n), v), n)[i] == OffRows(d, n)[i] {
      DefectIsOffRow(a, d, v, n, i);
    }
  }

  lemma DefectEntry(e: real, value: real, delta: real)
    ensures delta == 0.0 ==> Mix(1.0, e, -value, delta) == e
    ensures delta == 1.0 && e == value ==> Mix(1.0, e, -value, delta) == 0.0
  {}

  lemma DefectBound(a: Matrix, d: Matrix, v: Matrix, n: nat, i: nat, eps: real)
    requires Decomposition(a, d, v, n) && OffDiagonalBelow(d, n, eps) && i < n
    ensures NormSq(Defect(a, v, n, i, d[i][i])) <= Mul((n - 1) as real, Mul(eps, eps))
  {
    DefectIsOffRow(a, d, v, n, i);
    SmallRow(d, n, i, eps, Mul(eps, eps));
  }

  lemma SmallRow(d: Matrix, n: nat, i: nat, eps: real, w: real)
    requires IsMatrix(d, n, n) && OffDiagonalBelow(d, n, eps) && i < n && w == Mul(eps, eps)
    ensures OffRow(d, n, i, n) <= Mul((n - 1) as real, w)
  {
    forall j | 0 <= j < n && j != i ensures d[i][j] * d[i][j] <= w { SmallSquare(d[i][j], eps, w); }
    OffRowBound(d, n, i, n, w);
  }

  lemma SmallSquare(x: real, eps: real, w: real)
    requires Abs(x) < eps && w == Mul(eps, eps)
    ensures x * x <= w
  {
    SquareOfAbs(x, eps);
  }

  lemma ManyIterations(m: real, eps: real, loss: real)
    requires eps > 0.0 && loss == 2.0 * Mul(eps, eps) && Mul(m, loss) > 0.0
    ensures m > 0.0
  {
    Positive(eps, eps, Mul(eps, eps));
    if m < 0.0 { Positive(-m, loss, (-m) * loss); }
  }

  /** Column `i` against `a` times column `j`. */
  function Form(a: Matrix, v: Matrix, n: nat, i: nat, j: nat): real
    requires IsMatrix(a, n, n) && IsMatrix(v, n, n) && i < n && j < n
  {
    Dot(Column(v, n, n, i), MatVecOf(a, n, n, Column(v, n, n, j)))
  }

  method MaxOffdiag(a: array2<real>) returns (best: Pivot)
    requires a.Length0 == a.Length1
    ensures best == FindPivot(Rows(a), a.Length0)
  {
    var n := a.Length0;
    best := Pivot(0, 0, 0.0);
    for i := 0 to n
      invariant ScanRows(Rows(a), n, i, best) == FindPivot(Rows(a), n)
    {
      for j := i + 1 to n
        invariant ScanRows(Rows(a), n, i + 1, ScanRow(Rows(a), n, i, j, best)) == FindPivot(Rows(a), n)
      {
        var val := Abs(a[i, j]);
        if val > best.off { best := Pivot(i, j, val); }
      }
    }
  }

  method RotateRowsInPlace(d: array2<real>, g: Givens)
    requires d.Length0 == d.Length1 && g.p < d.Length0 && g.q < d.Length0 && g.p != g.q
    modifies d
    ensures Rows(d) == RotateRows(old(Rows(d)), d.Length0, g)
  {
    var n := d.Length0;
    ghost var was := Rows(d);
    ghost var goal := RotateRows(was, n, g);
    for k := 0 to n
      invariant forall i, j :: 0 <= i < n && 0 <= j < n ==> d[i, j] == if j < k then goal[i][j] else was[i][j]
    {
      var dpk, dqk := d[g.p, k], d[g.q, k];
      d[g.p, k] := g.c * dpk - g.s * dqk;
      d[g.q, k] := g.s * dpk + g.c * dqk;
      assert d[g.p, k] == TurnP(g, was[g.p][k], was[g.q][k]) && d[g.q, k] == TurnQ(g, was[g.p][k], was[g.q][k]);
    }
    SameMatrix(Rows(d), goal, n, n);
  }

  method RotateColumnsInPlace(d: array2<real>, g: Givens)
    requires d.Length0 == d.Length1 && g.p < d.Length0 && g.q < d.Length0 && g.p != g.q
    modifies d
    ensures Rows(d) == RotateColumns(old(Rows(d)), d.Length0, g)
  {
    var n := d.Length0;
    ghost var was := Rows(d);
    ghost var goal := RotateColumns(was, n, g);
    for k := 0 to n
      invariant forall i, j :: 0 <= i < n && 0 <= j < n ==> d[i, j] == if i < k then goal[i][j] else was[i][j]
    {
      var dkp, dkq := d[k, g.p], d[k, g.q];
      d[k, g.p] := g.c * dkp - g.s * dkq;
      d[k, g.q] := g.s * dkp + g.c * dkq;
      assert d[k, g.p] == TurnP(g, was[k][g.p], was[k][g.q]) && d[k, g.q] == TurnQ(g, was[k][g.p], was[k][g.q]);
    }
    SameMatrix(Rows(d), goal, n, n);
  }

  method OverwritePivot(d: array2<real>, p: nat, q: nat, pp: real, qq: real)
    requires d.Length0 == d.Length1 && p < d.Length0 && q < d.Length0 && p != q
    modifies d
    ensures Rows(d) == Overwrite(old(Rows(d)), d.Length0, p, q, pp, qq)
  {
    ghost var goal := Overwrite(Rows(d), d.Length0, p, q, pp, qq);
    d[p, p] := pp;
    d[q, q] := qq;
    d[p, q] := 0.0;
    d[q, p] := 0.0;
    SameMatrix(Rows(d), goal, d.Length0, d.Length0);
  }

  method PivotEntries(c: real, s: real, app: real, apq: real, aqq: real) returns (pp: real, qq: real)
    ensures pp == ClosedForm(c, s, app, apq, aqq) && qq == ClosedForm(s, -c, app, apq, aqq)
  {
    pp := c * c * app - 2.0 * s * c * apq + s * s * aqq;
    qq := s * s * app + 2.0 * s * c * apq + c * c * aqq;
    OtherClosedForm(c, s, app, apq, aqq);
  }

  /** The loop body: both rotations of `d`, the pivot entries overwritten, the rotation of `v`. */
  method RotateAt(d: array2<real>, v: array2<real>, g: Givens)
    requires d != v && d.Length0 == d.Length1 == v.Length0 == v.Length1 && g.p < g.q < d.Length0
    modifies d, v
    ensures Rows(d) == StepD(old(Rows(d)), d.Length0, g)
    ensures Rows(v) == RotateColumns(old(Rows(v)), v.Length0, g)
  {
    var c, s := g.c, g.s;
    var app, aqq, apq := d[g.p, g.p], d[g.q, g.q], d[g.p, g.q];
    RotateRowsInPlace(d, g);
    RotateColumnsInPlace(d, g);
    var pp, qq := PivotEntries(c, s, app, apq, aqq);
    OverwritePivot(d, g.p, g.q, pp, qq);
    RotateColumnsInPlace(v, g);
  }

  /** `off` and `next` are the break test and the body of the loop (sealed). */
  ghost predicate IsLoop(libm: Libm, n: nat, off: Matrix -> real, next: (Matrix, Matrix) -> (Matrix, Matrix)) {
    forall k {:trigger Key(k)} :: Key(k) ==> off == OffTest(n) && next == Body(libm, n)
  }

  /** One turn of the loop: the break test, then the rotation. */
  method Turn(libm: Libm, d: array2<real>, v: array2<real>, eps: real,
              ghost off: Matrix -> real, ghost next: (Matrix, Matrix) -> (Matrix, Matrix))
    returns (stop: bool)
    requires d != v && d.Length0 == d.Length1 == v.Length0 == v.Length1 && eps > 0.0
    requires IsLoop(libm, d.Length0, off, next)
    modifies d, v
    ensures stop == (off(old(Rows(d))) < eps)
    ensures stop ==> Rows(d) == old(Rows(d)) && Rows(v) == old(Rows(v))
    ensures !stop ==> (Rows(d), Rows(v)) == next(old(Rows(d)), old(Rows(v)))
  {
    assert Key(0);
    var t := MaxOffdiag(d);
    if t.off < eps { return true; }
    var cs := libm.angle(d[t.p, t.p], d[t.q, t.q], d[t.p, t.q]);
    RotateAt(d, v, Givens(t.p, t.q, cs.0, cs.1));
    return false;
  }

  method RunLoop(libm: Libm, d: array2<real>, v: array2<real>, maxIter: int, eps: real,
                 ghost off: Matrix -> real, ghost next: (Matrix, Matrix) -> (Matrix, Matrix))
    requires d != v && d.Length0 == d.Length1 == v.Length0 == v.Length1 && eps > 0.0
    requires IsLoop(libm, d.Length0, off, next)
    modifies d, v
    ensures var end := Iterate(off, next, old(Rows(d)), old(Rows(v)), if maxIter < 0 then 0 else maxIter, eps);
      Rows(d) == end.d && Rows(v) == end.v
  {
    ghost var budget := if maxIter < 0 then 0 else maxIter;
    ghost var goal := Iterate(off, next, Rows(d), Rows(v), budget, eps);
    var iter := 0;
    while iter < maxIter
      invariant 0 <= iter <= budget
      invariant LeadsTo(off, next, Rows(d), Rows(v), budget - iter, eps, goal)
    {
      IterateTurn(off, next, Rows(d), Rows(v), budget - iter, eps, goal);
      var stop := Turn(libm, d, v, eps, off, next);
      if stop { return; }
      iter := iter + 1;
    }
    IterateEnds(off, next, Rows(d), Rows(v), eps, goal);
  }

  /** `identity(n)` and the working copy of the input. */
  method Start(a: array2<real>) returns (d: array2<real>, v: array2<real>)
    requires a.Length0 == a.Length1
    ensures fresh(d) && fresh(v) && d != v && d.Length0 == d.Length1 == v.Length0 == v.Length1 == a.Length0
    ensures Rows(d) == Rows(a) && Rows(v) == IdentityOf(a.Length0)
  {
    var n := a.Length0;
    v := new real[n, n]((i, j) => Delta(i, j));
    d := new real[n, n]((i, j) requires 0 <= i < n && 0 <= j < n reads a => a[i, j]);
    SameMatrix(Rows(v), IdentityOf(n), n, n);
    SameMatrix(Rows(d), Rows(a), n, n);
  }

  method ReadDiagonal(d: array2<real>) returns (values: Vector)
    requires d.Length0 == d.Length1
    ensures values == Diagonal(Rows(d), d.Length0)
  {
    values := [];
    for i := 0 to d.Length0
      invariant |values| == i && forall k :: 0 <= k < i ==> values[k] == d[k, k]
    {
      values := values + [d[i, i]];
    }
  }

  method EigenSymJacobi(libm: Libm, a: array2<real>, maxIter: int, eps: real)
    returns (r: Result<Eigen, DimError>)
    requires eps > 0.0
    ensures r == if a.Length0 != a.Length1 then Failure(DimensionMismatch)
                 else Success(EigenOf(libm, Rows(a), a.Length0, maxIter, eps))
  {
    if a.Length0 != a.Length1 { return Failure(DimensionMismatch); }
    var n := a.Length0;
    var d, v := Start(a);
    RunLoop(libm, d, v, maxIter, eps, OffTest(n), Body(libm, n));
    var values := ReadDiagonal(d);
    return Success(Eigen(values, Rows(v)));
  }
}
