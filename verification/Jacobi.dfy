/** Diagonalisation of a symmetric matrix by plane rotations (`eigen_sym_jacobi`).

    `Iterate` is the loop over its break test and its body; everything the algorithm promises is proved
    of it. The code, which rewrites two matrices in place, is in module `EigenSym`. */
module Jacobi {
  import opened Linalg
  import opened Sealing

  // ---------------------------------------------------------------- pivot search

  datatype Pivot = Pivot(p: nat, q: nat, off: real)

  predicate GoodPivot(d: Matrix, n: nat, t: Pivot)
    requires IsMatrix(d, n, n)
  {
    t.off >= 0.0 && (t.off > 0.0 ==> t.p < t.q < n && t.off == Abs(d[t.p][t.q]))
  }

  function ScanRow(d: Matrix, n: nat, i: nat, j: nat, best: Pivot): (r: Pivot)
    requires IsMatrix(d, n, n) && i < j <= n
    ensures GoodPivot(d, n, best) ==> GoodPivot(d, n, r)
    ensures best.off <= r.off && forall k :: j <= k < n ==> Abs(d[i][k]) <= r.off
    decreases n - j
  {
    if j == n then best
    else
      var val := Abs(d[i][j]);
      ScanRow(d, n, i, j + 1, if val > best.off then Pivot(i, j, val) else best)
  }

  function ScanRows(d: Matrix, n: nat, i: nat, best: Pivot): (r: Pivot)
    requires IsMatrix(d, n, n) && i <= n
    ensures GoodPivot(d, n, best) ==> GoodPivot(d, n, r)
    ensures best.off <= r.off && forall a, b :: i <= a < b < n ==> Abs(d[a][b]) <= r.off
    decreases n - i
  {
    if i == n then best else ScanRows(d, n, i + 1, ScanRow(d, n, i, i + 1, best))
  }

  /** The largest off-diagonal magnitude above the diagonal and its first position. */
  function FindPivot(d: Matrix, n: nat): (r: Pivot)
    requires IsMatrix(d, n, n)
    ensures GoodPivot(d, n, r)
    ensures forall a, b :: 0 <= a < b < n ==> Abs(d[a][b]) <= r.off
  {
    ScanRows(d, n, 0, Pivot(0, 0, 0.0))
  }

  // ---------------------------------------------------------------- plane rotations

  datatype Givens = Givens(p: nat, q: nat, c: real, s: real)

  predicate ValidGivens(g: Givens, n: nat) {
    g.p < n && g.q < n && g.p != g.q && g.c * g.c + g.s * g.s == 1.0
  }

  /** The two entries a rotation writes, from the two it reads. */
  function TurnP(g: Givens, x: real, y: real): real { Mix(g.c, x, -g.s, y) }
  function TurnQ(g: Givens, x: real, y: real): real { Mix(g.s, x, g.c, y) }

  function RotateVector(x: Vector, g: Givens): (r: Vector)
    requires g.p < |x| && g.q < |x|
    ensures |r| == |x|
    ensures r[g.p] == TurnP(g, x[g.p], x[g.q]) && (g.p != g.q ==> r[g.q] == TurnQ(g, x[g.p], x[g.q]))
    ensures forall k :: 0 <= k < |x| && k != g.p && k != g.q ==> r[k] == x[k]
  {
    seq(|x|, k requires 0 <= k < |x| =>
      if k == g.p then TurnP(g, x[g.p], x[g.q])
      else if k == g.q then TurnQ(g, x[g.p], x[g.q]) else x[k])
  }

  function RotateColumns(m: Matrix, n: nat, g: Givens): (r: Matrix)
    requires IsMatrix(m, n, n) && g.p < n && g.q < n
    ensures IsMatrix(r, n, n)
    ensures forall i :: 0 <= i < n ==> r[i] == RotateVector(m[i], g)
  {
    seq(n, i requires 0 <= i < n => RotateVector(m[i], g))
  }

  function RotateRows(m: Matrix, n: nat, g: Givens): (r: Matrix)
    requires IsMatrix(m, n, n) && g.p < n && g.q < n
    ensures IsMatrix(r, n, n)
    ensures forall k :: 0 <= k < n ==> r[g.p][k] == TurnP(g, m[g.p][k], m[g.q][k])
    ensures g.p != g.q ==> forall k :: 0 <= k < n ==> r[g.q][k] == TurnQ(g, m[g.p][k], m[g.q][k])
    ensures forall i :: 0 <= i < n && i != g.p && i != g.q ==> r[i] == m[i]
  {
    seq(n, i requires 0 <= i < n => seq(n, k requires 0 <= k < n =>
      if i == g.p then TurnP(g, m[g.p][k], m[g.q][k])
      else if i == g.q then TurnQ(g, m[g.p][k], m[g.q][k]) else m[i][k]))
  }

  function RotateBoth(m: Matrix, n: nat, g: Givens): (r: Matrix)
    requires IsMatrix(m, n, n) && g.p < n && g.q < n
    ensures IsMatrix(r, n, n)
  {
    RotateColumns(RotateRows(m, n, g), n, g)
  }

  lemma RotatedPair(g: Givens, xp: real, xq: real, yp: real, yq: real)
    requires g.c * g.c + g.s * g.s == 1.0
    ensures Mul(TurnP(g, xp, xq), TurnP(g, yp, yq)) + Mul(TurnQ(g, xp, xq), TurnQ(g, yp, yq))
         == Mul(xp, yp) + Mul(xq, yq)
  {
    var c, s := g.c, g.s;
    assert TurnP(g, xp, xq) * TurnP(g, yp, yq) + TurnQ(g, xp, xq) * TurnQ(g, yp, yq)
        == (c * xp - s * xq) * (c * yp - s * yq) + (s * xp + c * xq) * (s * yp + c * yq)
        == (c * c + s * s) * (xp * yp + xq * yq);
  }

  /** A plane rotation keeps every inner product. */
  lemma RotateDot(x: Vector, y: Vector, g: Givens)
    requires |x| == |y| && ValidGivens(g, |x|)
    ensures Dot(RotateVector(x, g), RotateVector(y, g)) == Dot(x, y)
  {
    DotToTwoChanges(x, y, RotateVector(x, g), RotateVector(y, g), g.p, g.q, |x|);
    RotatedPair(g, x[g.p], x[g.q], y[g.p], y[g.q]);
  }

  /** Row `i` of a row-rotated matrix against `w` is entry `i` of the rotated product. */
  lemma RowsAgainst(m: Matrix, n: nat, g: Givens, w: Vector)
    requires IsMatrix(m, n, n) && ValidGivens(g, n) && |w| == n
    ensures MatVecOf(RotateRows(m, n, g), n, n, w) == RotateVector(MatVecOf(m, n, n, w), g)
  {
    var r, y := RotateRows(m, n, g), MatVecOf(m, n, n, w);
    forall i | 0 <= i < n ensures Dot(r[i], w) == RotateVector(y, g)[i] {
      if i == g.p { DotCombine(r[i], g.c, m[g.p], -g.s, m[g.q], w); }
      else if i == g.q { DotCombine(r[i], g.s, m[g.p], g.c, m[g.q], w); }
      else { DotToCongruence(r[i], w, m[i], w, n); }
    }
  }

  /** Coordinates of `x` along the columns of `v`. */
  function Coordinates(v: Matrix, n: nat, x: Vector): (y: Vector)
    requires IsMatrix(v, n, n) && |x| == n
    ensures |y| == n && forall j :: 0 <= j < n ==> y[j] == Dot(Column(v, n, n, j), x)
  {
    seq(n, j requires 0 <= j < n => Dot(Column(v, n, n, j), x))
  }

  lemma CoordinatesRotate(v: Matrix, n: nat, g: Givens, x: Vector)
    requires IsMatrix(v, n, n) && ValidGivens(g, n) && |x| == n
    ensures Coordinates(RotateColumns(v, n, g), n, x) == RotateVector(Coordinates(v, n, x), g)
  {
    var r, y := RotateColumns(v, n, g), Coordinates(v, n, x);
    var vp, vq := Column(v, n, n, g.p), Column(v, n, n, g.q);
    forall j | 0 <= j < n ensures Dot(Column(r, n, n, j), x) == RotateVector(y, g)[j] {
      if j == g.p { DotCombine(Column(r, n, n, j), g.c, vp, -g.s, vq, x); }
      else if j == g.q { DotCombine(Column(r, n, n, j), g.s, vp, g.c, vq, x); }
      else { DotToCongruence(Column(r, n, n, j), x, Column(v, n, n, j), x, n); }
    }
  }

  // ---------------------------------------------------------------- what the loop maintains

  ghost predicate OrthonormalRows(v: Matrix, n: nat)
    requires IsMatrix(v, n, n)
  {
    forall i, j :: 0 <= i < n && 0 <= j < n ==> Dot(v[i], v[j]) == Delta(i, j)
  }

  ghost predicate OrthonormalColumns(v: Matrix, n: nat)
    requires IsMatrix(v, n, n)
  {
    forall i, j :: 0 <= i < n && 0 <= j < n ==>
      Dot(Column(v, n, n, i), Column(v, n, n, j)) == Delta(i, j)
  }

  /** Coordinates along the columns of `v` keep the length of every vector (Parseval). */
  ghost predicate Complete(v: Matrix, n: nat)
    requires IsMatrix(v, n, n)
  {
    forall x: Vector {:trigger Coordinates(v, n, x)} :: |x| == n ==>
      NormSq(Coordinates(v, n, x)) == NormSq(x)
  }

  /** `d` is the transpose of `v` times `a` times `v`. */
  ghost predicate Conjugates(a: Matrix, d: Matrix, v: Matrix, n: nat)
    requires IsMatrix(a, n, n) && IsMatrix(d, n, n) && IsMatrix(v, n, n)
  {
    forall i, j :: 0 <= i < n && 0 <= j < n ==>
      d[i][j] == Dot(Column(v, n, n, i), MatVecOf(a, n, n, Column(v, n, n, j)))
  }

  /** `a` is `v` times `d` times the transpose of `v`. */
  ghost predicate Recomposes(a: Matrix, d: Matrix, v: Matrix, n: nat)
    requires IsMatrix(a, n, n) && IsMatrix(d, n, n) && IsMatrix(v, n, n)
  {
    forall i, j :: 0 <= i < n && 0 <= j < n ==> a[i][j] == Dot(v[i], MatVecOf(d, n, n, v[j]))
  }

  ghost predicate Decomposition(a: Matrix, d: Matrix, v: Matrix, n: nat) {
    && IsMatrix(a, n, n) && IsMatrix(d, n, n) && IsMatrix(v, n, n)
    && IsSymmetric(d, n)
    && OrthonormalRows(v, n) && OrthonormalColumns(v, n) && Complete(v, n)
    && Conjugates(a, d, v, n) && Recomposes(a, d, v, n)
  }

  lemma RowsStayOrthonormal(v: Matrix, n: nat, g: Givens)
    requires IsMatrix(v, n, n) && ValidGivens(g, n) && OrthonormalRows(v, n)
    ensures OrthonormalRows(RotateColumns(v, n, g), n)
  {
    forall i, j | 0 <= i < n && 0 <= j < n
      ensures Dot(RotateColumns(v, n, g)[i], RotateColumns(v, n, g)[j]) == Delta(i, j)
    {
      RotateDot(v[i], v[j], g);
    }
  }

  lemma LengthKept(v: Matrix, n: nat, g: Givens, x: Vector)
    requires IsMatrix(v, n, n) && ValidGivens(g, n) && |x| == n
    ensures NormSq(Coordinates(RotateColumns(v, n, g), n, x)) == NormSq(Coordinates(v, n, x))
  {
    CoordinatesRotate(v, n, g, x);
    RotateDot(Coordinates(v, n, x), Coordinates(v, n, x), g);
  }

  lemma StaysComplete(v: Matrix, n: nat, g: Givens)
    requires IsMatrix(v, n, n) && ValidGivens(g, n) && Complete(v, n)
    ensures Complete(RotateColumns(v, n, g), n)
  {
    forall x: Vector | |x| == n
      ensures NormSq(Coordinates(RotateColumns(v, n, g), n, x)) == NormSq(x)
    {
      LengthKept(v, n, g, x);
    }
  }

  /** Multiplying by `a` keeps linear combinations. */
  lemma ProductCombine(a: Matrix, n: nat, z: Vector, s: real, x: Vector, t: real, y: Vector, u: Vector)
    requires IsMatrix(a, n, n) && |z| == |x| == |y| == |u| == n
    requires forall k :: 0 <= k < n ==> z[k] == Mix(s, x[k], t, y[k])
    ensures Dot(u, MatVecOf(a, n, n, z))
         == Mix(s, Dot(u, MatVecOf(a, n, n, x)), t, Dot(u, MatVecOf(a, n, n, y)))
  {
    var az, ax, ay := MatVecOf(a, n, n, z), MatVecOf(a, n, n, x), MatVecOf(a, n, n, y);
    forall i | 0 <= i < n ensures az[i] == Mix(s, ax[i], t, ay[i]) {
      DotCombine(z, s, x, t, y, a[i]);
    }
    DotCombine(az, s, ax, t, ay, u);
  }

  /** Inner products of `u` with `a` times each column of `v`. */
  function Along(a: Matrix, v: Matrix, n: nat, u: Vector): (r: Vector)
    requires IsMatrix(a, n, n) && IsMatrix(v, n, n) && |u| == n
    ensures |r| == n
    ensures forall k :: 0 <= k < n ==> r[k] == Dot(u, MatVecOf(a, n, n, Column(v, n, n, k)))
  {
    seq(n, k requires 0 <= k < n => Dot(u, MatVecOf(a, n, n, Column(v, n, n, k))))
  }

  lemma AlongRotates(a: Matrix, v: Matrix, n: nat, g: Givens, u: Vector, j: nat)
    requires IsMatrix(a, n, n) && IsMatrix(v, n, n) && ValidGivens(g, n) && |u| == n && j < n
    ensures Along(a, RotateColumns(v, n, g), n, u)[j] == RotateVector(Along(a, v, n, u), g)[j]
  {
    var rj := Column(RotateColumns(v, n, g), n, n, j);
    var vp, vq := Column(v, n, n, g.p), Column(v, n, n, g.q);
    if j == g.p { ProductCombine(a, n, rj, g.c, vp, -g.s, vq, u); }
    else if j == g.q { ProductCombine(a, n, rj, g.s, vp, g.c, vq, u); }
    else { assert rj == Column(v, n, n, j); }
  }

  lemma StaysConjugate(a: Matrix, d: Matrix, v: Matrix, n: nat, g: Givens)
    requires IsMatrix(a, n, n) && IsMatrix(d, n, n) && IsMatrix(v, n, n) && ValidGivens(g, n)
    requires Conjugates(a, d, v, n)
    ensures Conjugates(a, RotateBoth(d, n, g), RotateColumns(v, n, g), n)
  {
    var d1, v1 := RotateRows(d, n, g), RotateColumns(v, n, g);
    forall i, j | 0 <= i < n && 0 <= j < n
      ensures RotateBoth(d, n, g)[i][j]
           == Dot(Column(v1, n, n, i), MatVecOf(a, n, n, Column(v1, n, n, j)))
    {
      var u := Column(v1, n, n, i);
      forall k | 0 <= k < n ensures Along(a, v, n, u)[k] == d1[i][k] {
        var w := MatVecOf(a, n, n, Column(v, n, n, k));
        CoordinatesRotate(v, n, g, w);
        assert Along(a, v, n, u)[k] == Coordinates(v1, n, w)[i];
      }
      assert Along(a, v, n, u) == d1[i];
      AlongRotates(a, v, n, g, u, j);
    }
  }

  lemma StaysRecomposing(a: Matrix, d: Matrix, v: Matrix, n: nat, g: Givens)
    requires IsMatrix(a, n, n) && IsMatrix(d, n, n) && IsMatrix(v, n, n) && ValidGivens(g, n)
    requires Recomposes(a, d, v, n)
    ensures Recomposes(a, RotateBoth(d, n, g), RotateColumns(v, n, g), n)
  {
    var d1, d2, v1 := RotateRows(d, n, g), RotateBoth(d, n, g), RotateColumns(v, n, g);
    forall i, j | 0 <= i < n && 0 <= j < n
      ensures a[i][j] == Dot(v1[i], MatVecOf(d2, n, n, v1[j]))
    {
      forall k | 0 <= k < n ensures Dot(d2[k], v1[j]) == Dot(d1[k], v[j]) {
        RotateDot(d1[k], v[j], g);
      }
      assert MatVecOf(d2, n, n, v1[j]) == MatVecOf(d1, n, n, v[j]);
      RowsAgainst(d, n, g, v[j]);
      RotateDot(v[i], MatVecOf(d, n, n, v[j]), g);
    }
  }

  lemma IdentityKeepsVectors(n: nat, x: Vector)
    requires |x| == n
    ensures MatVecOf(IdentityOf(n), n, n, x) == x
  {
    forall i | 0 <= i < n ensures Dot(IdentityOf(n)[i], x) == x[i] {
      DotToUnit(x, IdentityOf(n)[i], i, n);
      DotSymmetric(x, IdentityOf(n)[i]);
    }
  }

  /** Entries of a matrix rotated on both sides. */
  lemma CornerEntries(d: Matrix, n: nat, g: Givens)
    requires IsMatrix(d, n, n) && ValidGivens(g, n)
    ensures var r, p, q := RotateBoth(d, n, g), g.p, g.q;
      && r[p][p] == TurnP(g, TurnP(g, d[p][p], d[q][p]), TurnP(g, d[p][q], d[q][q]))
      && r[p][q] == TurnQ(g, TurnP(g, d[p][p], d[q][p]), TurnP(g, d[p][q], d[q][q]))
      && r[q][p] == TurnP(g, TurnQ(g, d[p][p], d[q][p]), TurnQ(g, d[p][q], d[q][q]))
      && r[q][q] == TurnQ(g, TurnQ(g, d[p][p], d[q][p]), TurnQ(g, d[p][q], d[q][q]))
  {
    var d1 := RotateRows(d, n, g);
    assert RotateBoth(d, n, g)[g.p] == RotateVector(d1[g.p], g);
    assert RotateBoth(d, n, g)[g.q] == RotateVector(d1[g.q], g);
  }

  lemma OuterEntries(d: Matrix, n: nat, g: Givens, k: nat)
    requires IsMatrix(d, n, n) && ValidGivens(g, n) && k < n && k != g.p && k != g.q
    ensures var r, p, q := RotateBoth(d, n, g), g.p, g.q;
      && r[p][k] == TurnP(g, d[p][k], d[q][k]) && r[q][k] == TurnQ(g, d[p][k], d[q][k])
      && r[k][p] == TurnP(g, d[k][p], d[k][q]) && r[k][q] == TurnQ(g, d[k][p], d[k][q])
    ensures forall j :: 0 <= j < n && j != g.p && j != g.q ==> RotateBoth(d, n, g)[k][j] == d[k][j]
  {
    var d1 := RotateRows(d, n, g);
    assert RotateBoth(d, n, g)[g.p] == RotateVector(d1[g.p], g);
    assert RotateBoth(d, n, g)[g.q] == RotateVector(d1[g.q], g);
    assert d1[k] == d[k];
    assert RotateBoth(d, n, g)[k] == RotateVector(d[k], g);
  }

  lemma RotatedUnitCorner(g: Givens)
    requires g.c * g.c + g.s * g.s == 1.0
    ensures TurnP(g, TurnP(g, 1.0, 0.0), TurnP(g, 0.0, 1.0)) == 1.0
    ensures TurnQ(g, TurnP(g, 1.0, 0.0), TurnP(g, 0.0, 1.0)) == 0.0
    ensures TurnP(g, TurnQ(g, 1.0, 0.0), TurnQ(g, 0.0, 1.0)) == 0.0
    ensures TurnQ(g, TurnQ(g, 1.0, 0.0), TurnQ(g, 0.0, 1.0)) == 1.0
  {
    assert TurnP(g, 1.0, 0.0) == g.c && TurnP(g, 0.0, 1.0) == -g.s;
    assert TurnQ(g, 1.0, 0.0) == g.s && TurnQ(g, 0.0, 1.0) == g.c;
  }

  lemma RotatedIdentity(n: nat, g: Givens)
    requires ValidGivens(g, n)
    ensures RotateBoth(IdentityOf(n), n, g) == IdentityOf(n)
  {
    var id, r := IdentityOf(n), RotateBoth(IdentityOf(n), n, g);
    assert r[g.p][g.p] == 1.0 && r[g.p][g.q] == 0.0 && r[g.q][g.p] == 0.0 && r[g.q][g.q] == 1.0 by {
      CornerEntries(id, n, g);
      RotatedUnitCorner(g);
    }
    forall i, j | 0 <= i < n && 0 <= j < n ensures r[i][j] == id[i][j] {
      if i != g.p && i != g.q { OuterEntries(id, n, g, i); }
      else if j != g.p && j != g.q { OuterEntries(id, n, g, j); }
    }
    SameMatrix(r, id, n, n);
  }

  /** Orthonormal columns are the case of `Conjugates` where both matrices are the identity. */
  lemma ColumnsStayOrthonormal(v: Matrix, n: nat, g: Givens)
    requires IsMatrix(v, n, n) && ValidGivens(g, n) && OrthonormalColumns(v, n)
    ensures OrthonormalColumns(RotateColumns(v, n, g), n)
  {
    var id, v1 := IdentityOf(n), RotateColumns(v, n, g);
    forall j | 0 <= j < n
      ensures MatVecOf(id, n, n, Column(v, n, n, j)) == Column(v, n, n, j)
      ensures MatVecOf(id, n, n, Column(v1, n, n, j)) == Column(v1, n, n, j)
    {
      IdentityKeepsVectors(n, Column(v, n, n, j));
      IdentityKeepsVectors(n, Column(v1, n, n, j));
    }
    StaysConjugate(id, id, v, n, g);
    RotatedIdentity(n, g);
  }

  lemma StaysSymmetric(d: Matrix, n: nat, g: Givens)
    requires IsMatrix(d, n, n) && ValidGivens(g, n) && IsSymmetric(d, n)
    ensures IsSymmetric(RotateBoth(d, n, g), n)
  {
    var r := RotateBoth(d, n, g);
    forall i, j | 0 <= i < n && 0 <= j < n ensures r[i][j] == r[j][i] {
      if i != g.p && i != g.q { SymmetricRow(d, n, g, i, j); }
      else if j != g.p && j != g.q { SymmetricRow(d, n, g, j, i); }
      else if i != j { SymmetricCorner(d, n, g); }
    }
  }

  lemma SymmetricCorner(d: Matrix, n: nat, g: Givens)
    requires IsMatrix(d, n, n) && ValidGivens(g, n) && IsSymmetric(d, n)
    ensures RotateBoth(d, n, g)[g.p][g.q] == RotateBoth(d, n, g)[g.q][g.p]
  {
    CornerEntries(d, n, g);
    assert d[g.p][g.q] == d[g.q][g.p];
    CornerSwap(g, d[g.p][g.p], d[g.p][g.q], d[g.q][g.q]);
  }

  lemma CornerSwap(g: Givens, a: real, b: real, e: real)
    ensures TurnQ(g, TurnP(g, a, b), TurnP(g, b, e)) == TurnP(g, TurnQ(g, a, b), TurnQ(g, b, e))
  {}

  lemma SymmetricRow(d: Matrix, n: nat, g: Givens, i: nat, j: nat)
    requires IsMatrix(d, n, n) && ValidGivens(g, n) && IsSymmetric(d, n) && i < n && j < n && i != g.p && i != g.q
    ensures RotateBoth(d, n, g)[i][j] == RotateBoth(d, n, g)[j][i]
  {
    OuterEntries(d, n, g, i);
    assert d[i][g.p] == d[g.p][i] && d[i][g.q] == d[g.q][i];
    if j != g.p && j != g.q {
      OuterEntries(d, n, g, j);
      assert d[i][j] == d[j][i];
    }
  }

  // ---------------------------------------------------------------- off-diagonal weight

  function Diagonal(d: Matrix, n: nat): (v: Vector)
    requires IsMatrix(d, n, n)
    ensures |v| == n && forall i :: 0 <= i < n ==> v[i] == d[i][i]
  {
    seq(n, i requires 0 <= i < n => d[i][i])
  }

  function Trace(d: Matrix, n: nat): real
    requires IsMatrix(d, n, n)
  {
    Sum(Diagonal(d, n))
  }

  /** Squares of the first `m` entries of row `i`, the diagonal one left out. */
  function OffRow(d: Matrix, n: nat, i: nat, m: nat): real
    requires IsMatrix(d, n, n) && i < n && m <= n
  {
    if m == 0 then 0.0
    else OffRow(d, n, i, m - 1) + if m - 1 == i then 0.0 else d[i][m-1] * d[i][m-1]
  }

  function OffRows(d: Matrix, n: nat): (v: Vector)
    requires IsMatrix(d, n, n)
    ensures |v| == n && forall i :: 0 <= i < n ==> v[i] == OffRow(d, n, i, n)
  {
    seq(n, i requires 0 <= i < n => OffRow(d, n, i, n))
  }

  /** The sum of the squares of all off-diagonal entries. */
  function OffSq(d: Matrix, n: nat): real
    requires IsMatrix(d, n, n)
  {
    Sum(OffRows(d, n))
  }

  lemma {:induction false} OffRowIsRest(d: Matrix, n: nat, i: nat, m: nat)
    requires IsMatrix(d, n, n) && i < n && m <= n
    ensures OffRow(d, n, i, m) == DotTo(d[i], d[i], m) - if i < m then d[i][i] * d[i][i] else 0.0
  {
    if m > 0 { OffRowIsRest(d, n, i, m - 1); }
  }

  lemma {:induction false} OffRowBound(d: Matrix, n: nat, i: nat, m: nat, w: real)
    requires IsMatrix(d, n, n) && i < n && m <= n
    requires forall j :: 0 <= j < n && j != i ==> d[i][j] * d[i][j] <= w
    ensures 0.0 <= OffRow(d, n, i, m) <= (if i < m then m - 1 else m) as real * w
  {
    if m > 0 {
      OffRowBound(d, n, i, m - 1, w);
      AddSquare(OffRow(d, n, i, m - 1), d[i][m-1]);
    }
  }

  lemma {:induction false} OffRowNonNegative(d: Matrix, n: nat, i: nat, m: nat)
    requires IsMatrix(d, n, n) && i < n && m <= n
    ensures 0.0 <= OffRow(d, n, i, m)
  {
    if m > 0 {
      OffRowNonNegative(d, n, i, m - 1);
      AddSquare(OffRow(d, n, i, m - 1), d[i][m-1]);
    }
  }

  lemma {:induction false} SumToBound(x: Vector, m: nat, hi: real)
    requires m <= |x| && forall i :: 0 <= i < m ==> 0.0 <= x[i] <= hi
    ensures 0.0 <= SumTo(x, m) <= m as real * hi
  {
    if m > 0 { SumToBound(x, m - 1, hi); }
  }

  lemma {:induction false} SumToNonNegative(x: Vector, m: nat)
    requires m <= |x| && forall i :: 0 <= i < m ==> 0.0 <= x[i]
    ensures 0.0 <= SumTo(x, m)
  {
    if m > 0 { SumToNonNegative(x, m - 1); }
  }

  lemma OffSqNonNegative(d: Matrix, n: nat)
    requires IsMatrix(d, n, n)
    ensures OffSq(d, n) >= 0.0
  {
    forall i | 0 <= i < n ensures OffRows(d, n)[i] >= 0.0 { OffRowNonNegative(d, n, i, n); }
    SumToNonNegative(OffRows(d, n), n);
  }

  lemma SquareOfAbs(x: real, off: real)
    requires Abs(x) <= off
    ensures x * x <= off * off
  {
    var a := Abs(x);
    assert x * x == a * a;
    assert a * a <= a * off <= off * off;
  }

  lemma PivotRowShare(d: Matrix, n: nat, i: nat, off: real)
    requires IsMatrix(d, n, n) && IsSymmetric(d, n) && i < n
    requires forall a, b :: 0 <= a < b < n ==> Abs(d[a][b]) <= off
    ensures 0.0 <= OffRow(d, n, i, n) <= (n - 1) as real * (off * off)
  {
    forall j | 0 <= j < n && j != i ensures d[i][j] * d[i][j] <= off * off {
      assert d[i][j] == d[j][i];
      assert Abs(if i < j then d[i][j] else d[j][i]) <= off;
      SquareOfAbs(d[i][j], off);
    }
    OffRowBound(d, n, i, n, off * off);
  }

  function Pairs(n: nat): real { n as real * (n as real - 1.0) }

  lemma OffSqBound(d: Matrix, n: nat, off: real, hi: real)
    requires IsMatrix(d, n, n) && IsSymmetric(d, n) && hi == (n as real - 1.0) * (off * off)
    requires forall a, b :: 0 <= a < b < n ==> Abs(d[a][b]) <= off
    ensures OffSq(d, n) <= n as real * hi
  {
    forall i | 0 <= i < n ensures 0.0 <= OffRows(d, n)[i] <= hi {
      PivotRowShare(d, n, i, off);
    }
    SumToBound(OffRows(d, n), n, hi);
  }

  lemma Associate(a: real, b: real, c: real, bc: real)
    requires bc == b * c
    ensures a * bc == (a * b) * c
  {}

  /** The largest entry carries at least its share of the weight. */
  lemma PivotShare(d: Matrix, n: nat, off: real)
    requires IsMatrix(d, n, n) && IsSymmetric(d, n)
    requires forall a, b :: 0 <= a < b < n ==> Abs(d[a][b]) <= off
    ensures OffSq(d, n) <= Mul(Pairs(n), Mul(off, off))
  {
    var hi := (n as real - 1.0) * (off * off);
    OffSqBound(d, n, off, hi);
    Associate(n as real, n as real - 1.0, off * off, hi);
  }

  function RowNorms(d: Matrix, n: nat): (v: Vector)
    requires IsMatrix(d, n, n)
    ensures |v| == n && forall i :: 0 <= i < n ==> v[i] == NormSq(d[i])
  {
    seq(n, i requires 0 <= i < n => NormSq(d[i]))
  }

  function DiagonalSquares(d: Matrix, n: nat): (v: Vector)
    requires IsMatrix(d, n, n)
    ensures |v| == n && forall i :: 0 <= i < n ==> v[i] == Mul(d[i][i], d[i][i])
  {
    seq(n, i requires 0 <= i < n => Mul(d[i][i], d[i][i]))
  }

  lemma {:induction false} SumToDifference(x: Vector, y: Vector, z: Vector, m: nat)
    requires m <= |x| && m <= |y| && m <= |z|
    requires forall i :: 0 <= i < m ==> z[i] == x[i] - y[i]
    ensures SumTo(z, m) == SumTo(x, m) - SumTo(y, m)
  {
    if m > 0 { SumToDifference(x, y, z, m - 1); }
  }

  lemma OffSqSplit(d: Matrix, n: nat)
    requires IsMatrix(d, n, n)
    ensures OffSq(d, n) == Sum(RowNorms(d, n)) - Sum(DiagonalSquares(d, n))
  {
    forall i | 0 <= i < n
      ensures OffRows(d, n)[i] == RowNorms(d, n)[i] - DiagonalSquares(d, n)[i]
    {
      OffRowIsRest(d, n, i, n);
    }
    SumToDifference(RowNorms(d, n), DiagonalSquares(d, n), OffRows(d, n), n);
  }

  lemma CombinedNorms(x: Vector, y: Vector, u: Vector, w: Vector, g: Givens)
    requires |x| == |y| == |u| == |w| && g.c * g.c + g.s * g.s == 1.0
    requires forall k :: 0 <= k < |x| ==> u[k] == TurnP(g, x[k], y[k]) && w[k] == TurnQ(g, x[k], y[k])
    ensures NormSq(u) + NormSq(w) == NormSq(x) + NormSq(y)
  {
    var c, s := g.c, g.s;
    DotCombine(u, c, x, -s, y, u); DotCombine(u, c, x, -s, y, x); DotCombine(u, c, x, -s, y, y);
    DotCombine(w, s, x, c, y, w); DotCombine(w, s, x, c, y, x); DotCombine(w, s, x, c, y, y);
    DotSymmetric(x, y);
    CornerTrace(g, Dot(x, x), Dot(x, y), Dot(y, y));
  }

  lemma RowNormsKept(d: Matrix, n: nat, g: Givens)
    requires IsMatrix(d, n, n) && ValidGivens(g, n)
    ensures Sum(RowNorms(RotateBoth(d, n, g), n)) == Sum(RowNorms(d, n))
  {
    var d1, d2 := RotateRows(d, n, g), RotateBoth(d, n, g);
    forall i | 0 <= i < n ensures RowNorms(d2, n)[i] == RowNorms(d1, n)[i] {
      RotateDot(d1[i], d1[i], g);
    }
    assert RowNorms(d2, n) == RowNorms(d1, n);
    forall i | 0 <= i < n && i != g.p && i != g.q ensures d1[i] == d[i] {}
    SumToTwoChanges(RowNorms(d1, n), RowNorms(d, n), g.p, g.q, n);
    CombinedNorms(d[g.p], d[g.q], d1[g.p], d1[g.q], g);
  }

  /** The rotated corner of the symmetric block `(a, b; b, e)`: both mixed entries, the sum of the
      diagonal ones and the sum of all squares. */
  lemma CornerMixed(g: Givens, a: real, b: real, e: real)
    requires Annihilates(a, e, b, g.c, g.s)
    ensures TurnQ(g, TurnP(g, a, b), TurnP(g, b, e)) == 0.0
    ensures TurnP(g, TurnQ(g, a, b), TurnQ(g, b, e)) == 0.0
  {
    MixedForms(g, a, b, e);
  }

  lemma MixedForms(g: Givens, a: real, b: real, e: real)
    ensures TurnQ(g, TurnP(g, a, b), TurnP(g, b, e)) == g.c * g.s * (a - e) + (g.c * g.c - g.s * g.s) * b
    ensures TurnP(g, TurnQ(g, a, b), TurnQ(g, b, e)) == g.c * g.s * (a - e) + (g.c * g.c - g.s * g.s) * b
  {}

  lemma CornerTrace(g: Givens, a: real, b: real, e: real)
    requires g.c * g.c + g.s * g.s == 1.0
    ensures TurnP(g, TurnP(g, a, b), TurnP(g, b, e)) + TurnQ(g, TurnQ(g, a, b), TurnQ(g, b, e)) == a + e
  {
    assert TurnP(g, TurnP(g, a, b), TurnP(g, b, e)) + TurnQ(g, TurnQ(g, a, b), TurnQ(g, b, e))
        == (g.c * g.c + g.s * g.s) * (a + e);
  }

  lemma TurnedPair(g: Givens, x: real, y: real)
    requires g.c * g.c + g.s * g.s == 1.0
    ensures Mul(TurnP(g, x, y), TurnP(g, x, y)) + Mul(TurnQ(g, x, y), TurnQ(g, x, y)) == Mul(x, x) + Mul(y, y)
  {
    RotatedPair(g, x, y, x, y);
  }

  lemma CornerSquares(g: Givens, a: real, b: real, e: real)
    requires g.c * g.c + g.s * g.s == 1.0
    ensures var pp, pq, qp, qq :=
              TurnP(g, TurnP(g, a, b), TurnP(g, b, e)), TurnQ(g, TurnP(g, a, b), TurnP(g, b, e)),
              TurnP(g, TurnQ(g, a, b), TurnQ(g, b, e)), TurnQ(g, TurnQ(g, a, b), TurnQ(g, b, e));
            Mul(pp, pp) + Mul(pq, pq) + Mul(qp, qp) + Mul(qq, qq) == Mul(a, a) + 2.0 * Mul(b, b) + Mul(e, e)
  {
    TurnedPair(g, a, b);
    TurnedPair(g, b, e);
    TurnedPair(g, TurnP(g, a, b), TurnP(g, b, e));
    TurnedPair(g, TurnQ(g, a, b), TurnQ(g, b, e));
  }

  // ---------------------------------------------------------------- one rotation step

  predicate PivotAngle(d: Matrix, n: nat, g: Givens)
    requires IsMatrix(d, n, n)
  {
    ValidGivens(g, n) && Annihilates(d[g.p][g.p], d[g.q][g.q], d[g.p][g.q], g.c, g.s)
  }

  /** The diagonal matrix as the code leaves it: both rotations, then the four pivot entries
      overwritten by their closed forms. */
  function StepD(d: Matrix, n: nat, g: Givens): (r: Matrix)
    requires IsMatrix(d, n, n) && g.p < n && g.q < n
    ensures IsMatrix(r, n, n)
  {
    var app, aqq, apq, c, s := d[g.p][g.p], d[g.q][g.q], d[g.p][g.q], g.c, g.s;
    Overwrite(RotateBoth(d, n, g), n, g.p, g.q,
              ClosedForm(c, s, app, apq, aqq), ClosedForm(s, -c, app, apq, aqq))
  }

  lemma OtherClosedForm(c: real, s: real, app: real, apq: real, aqq: real)
    ensures ClosedForm(s, -c, app, apq, aqq) == s * s * app + 2.0 * s * c * apq + c * c * aqq
  {
    assert (-c) * (-c) == c * c && 2.0 * (-c) * s * apq == -(2.0 * s * c * apq);
  }

  /** `c * c * app - 2 * s * c * apq + s * s * aqq`; the other pivot entry is the same form at
      `(s, -c)`. */
  function ClosedForm(c: real, s: real, app: real, apq: real, aqq: real): real {
    c * c * app - 2.0 * s * c * apq + s * s * aqq
  }

  function Overwrite(r: Matrix, n: nat, p: nat, q: nat, pp: real, qq: real): (o: Matrix)
    requires IsMatrix(r, n, n) && p < n && q < n
    ensures IsMatrix(o, n, n)
  {
    seq(n, i requires 0 <= i < n =>
      if i == p then r[p][p := pp][q := 0.0] else if i == q then r[q][q := qq][p := 0.0] else r[i])
  }

  lemma OverwriteSame(r: Matrix, n: nat, p: nat, q: nat)
    requires IsMatrix(r, n, n) && p < n && q < n && p != q && r[p][q] == 0.0 && r[q][p] == 0.0
    ensures Overwrite(r, n, p, q, r[p][p], r[q][q]) == r
  {
    assert r[p][p := r[p][p]][q := 0.0] == r[p];
    assert r[q][q := r[q][q]][p := 0.0] == r[q];
  }

  lemma ClosedForms(g: Givens, a: real, b: real, e: real)
    ensures TurnP(g, TurnP(g, a, b), TurnP(g, b, e)) == ClosedForm(g.c, g.s, a, b, e)
    ensures TurnQ(g, TurnQ(g, a, b), TurnQ(g, b, e)) == ClosedForm(g.s, -g.c, a, b, e)
  {}

  lemma CornerAfter(d: Matrix, n: nat, g: Givens)
    requires IsMatrix(d, n, n) && IsSymmetric(d, n) && PivotAngle(d, n, g)
    ensures var r, a, b, e := RotateBoth(d, n, g), d[g.p][g.p], d[g.p][g.q], d[g.q][g.q];
      && r[g.p][g.q] == 0.0 && r[g.q][g.p] == 0.0
      && r[g.p][g.p] == ClosedForm(g.c, g.s, a, b, e) && r[g.q][g.q] == ClosedForm(g.s, -g.c, a, b, e)
      && r[g.p][g.p] + r[g.q][g.q] == a + e
      && Mul(r[g.p][g.p], r[g.p][g.p]) + Mul(r[g.q][g.q], r[g.q][g.q]) == Mul(a, a) + 2.0 * Mul(b, b) + Mul(e, e)
  {
    var a, b, e := d[g.p][g.p], d[g.p][g.q], d[g.q][g.q];
    CornerEntries(d, n, g);
    assert d[g.q][g.p] == b;
    CornerMixed(g, a, b, e);
    ClosedForms(g, a, b, e);
    CornerTrace(g, a, b, e);
    CornerSquares(g, a, b, e);
  }

  lemma OverwriteAgrees(d: Matrix, n: nat, g: Givens)
    requires IsMatrix(d, n, n) && IsSymmetric(d, n) && PivotAngle(d, n, g)
    ensures StepD(d, n, g) == RotateBoth(d, n, g)
  {
    CornerAfter(d, n, g);
    OverwriteSame(RotateBoth(d, n, g), n, g.p, g.q);
  }

  lemma StepKeepsTrace(d: Matrix, n: nat, g: Givens)
    requires IsMatrix(d, n, n) && IsSymmetric(d, n) && PivotAngle(d, n, g)
    ensures Trace(RotateBoth(d, n, g), n) == Trace(d, n)
  {
    var r := RotateBoth(d, n, g);
    forall i | 0 <= i < n && i != g.p && i != g.q ensures Diagonal(r, n)[i] == Diagonal(d, n)[i] {
      OuterEntries(d, n, g, i);
    }
    SumToTwoChanges(Diagonal(r, n), Diagonal(d, n), g.p, g.q, n);
    CornerAfter(d, n, g);
  }

  /** One rotation lowers the off-diagonal weight by exactly twice the squared pivot. */
  lemma StepDropsWeight(d: Matrix, n: nat, g: Givens)
    requires IsMatrix(d, n, n) && IsSymmetric(d, n) && PivotAngle(d, n, g)
    ensures OffSq(RotateBoth(d, n, g), n) == OffSq(d, n) - 2.0 * Mul(d[g.p][g.q], d[g.p][g.q])
  {
    var r := RotateBoth(d, n, g);
    var before, after := DiagonalSquares(d, n), DiagonalSquares(r, n);
    OffSqSplit(d, n); OffSqSplit(r, n);
    RowNormsKept(d, n, g);
    forall i | 0 <= i < n && i != g.p && i != g.q ensures after[i] == before[i] {
      OuterEntries(d, n, g, i);
    }
    SumToTwoChanges(after, before, g.p, g.q, n);
    CornerAfter(d, n, g);
  }

  /** A step keeps the whole decomposition of the original matrix. */
  lemma StepDecomposes(a: Matrix, d: Matrix, v: Matrix, n: nat, g: Givens)
    requires Decomposition(a, d, v, n) && PivotAngle(d, n, g)
    ensures Decomposition(a, RotateBoth(d, n, g), RotateColumns(v, n, g), n)
  {
    StaysSymmetric(d, n, g);
    RowsStayOrthonormal(v, n, g);
    ColumnsStayOrthonormal(v, n, g);
    StaysComplete(v, n, g);
    StaysConjugate(a, d, v, n, g);
    StaysRecomposing(a, d, v, n, g);
  }

  // ---------------------------------------------------------------- the iteration

  /** The final matrices, how many rotations were made, and whether the loop left by its break. */
  datatype Sweep = Sweep(d: Matrix, v: Matrix, rotations: nat, converged: bool)

  /** The loop, over its break test and its body: `off` is compared with `eps`, `next` rotates. */
  function Iterate(off: Matrix -> real, next: (Matrix, Matrix) -> (Matrix, Matrix),
                   d: Matrix, v: Matrix, budget: nat, eps: real): (r: Sweep)
    decreases budget
  {
    if budget == 0 then Sweep(d, v, 0, false)
    else if off(d) < eps then Sweep(d, v, 0, true)
    else
      var rest := Iterate(off, next, next(d, v).0, next(d, v).1, budget - 1, eps);
      Sweep(rest.d, rest.v, rest.rotations + 1, rest.converged)
  }

  /** From here the loop ends in the matrices of `goal`. */
  ghost predicate LeadsTo(off: Matrix -> real, next: (Matrix, Matrix) -> (Matrix, Matrix), d: Matrix, v: Matrix,
                          budget: nat, eps: real, goal: Sweep)
  {
    var rest := Iterate(off, next, d, v, budget, eps);
    rest.d == goal.d && rest.v == goal.v
  }

  lemma IterateEnds(off: Matrix -> real, next: (Matrix, Matrix) -> (Matrix, Matrix), d: Matrix, v: Matrix,
                    eps: real, goal: Sweep)
    requires LeadsTo(off, next, d, v, 0, eps, goal)
    ensures goal.d == d && goal.v == v
  {}

  lemma IterateTurn(off: Matrix -> real, next: (Matrix, Matrix) -> (Matrix, Matrix), d: Matrix, v: Matrix,
                    budget: nat, eps: real, goal: Sweep)
    requires budget > 0 && LeadsTo(off, next, d, v, budget, eps, goal)
    ensures off(d) < eps ==> goal.d == d && goal.v == v
    ensures off(d) >= eps ==> LeadsTo(off, next, next(d, v).0, next(d, v).1, budget - 1, eps, goal)
  {}

  /** Induction over the loop: what every pass keeps holds at the end. */
  lemma {:induction false} IterateKeeps(off: Matrix -> real, next: (Matrix, Matrix) -> (Matrix, Matrix),
                                        d: Matrix, v: Matrix, budget: nat, eps: real,
                                        keeps: (Matrix, Matrix) -> bool)
    requires keeps(d, v)
    requires forall d, v :: keeps(d, v) && off(d) >= eps ==> keeps(next(d, v).0, next(d, v).1)
    ensures var r := Iterate(off, next, d, v, budget, eps);
      && keeps(r.d, r.v) && r.rotations <= budget
      && (r.converged ==> off(r.d) < eps)
      && (!r.converged ==> r.rotations == budget)
    decreases budget
  {
    if budget > 0 && off(d) >= eps {
      IterateKeeps(off, next, next(d, v).0, next(d, v).1, budget - 1, eps, keeps);
    }
  }

  function Pow(x: real, k: nat): real { if k == 0 then 1.0 else x * Pow(x, k - 1) }

  lemma {:induction false} PowNonNegative(x: real, k: nat)
    requires x >= 0.0
    ensures Pow(x, k) >= 0.0
  {
    if k > 0 { PowNonNegative(x, k - 1); }
  }

  lemma GeometricStep(p: real, w: real, s: real, s': real, s'': real)
    requires p >= 0.0 && s' <= Mul(w, s) && s'' <= Mul(p, s')
    ensures s'' <= Mul(w * p, s)
  {
    assert p * s' <= p * (w * s);
    assert p * (w * s) == (w * p) * s;
  }

  lemma OneMore(k: nat, loss: real)
    ensures Mul((k + 1) as real, loss) == Mul(k as real, loss) + loss
  {}

  /** If every pass lowers `weight` by `loss`, the loop lowers it by that much per rotation. */
  lemma {:induction false} IterateLoses(off: Matrix -> real, next: (Matrix, Matrix) -> (Matrix, Matrix),
                                        d: Matrix, v: Matrix, budget: nat, eps: real,
                                        keeps: (Matrix, Matrix) -> bool, weight: Matrix -> real, loss: real)
    requires keeps(d, v)
    requires forall d, v :: keeps(d, v) && off(d) >= eps ==>
      keeps(next(d, v).0, next(d, v).1) && weight(next(d, v).0) <= weight(d) - loss
    ensures var r := Iterate(off, next, d, v, budget, eps);
      weight(r.d) <= weight(d) - Mul(r.rotations as real, loss)
    decreases budget
  {
    if budget > 0 && off(d) >= eps {
      var d', v' := next(d, v).0, next(d, v).1;
      IterateLoses(off, next, d', v', budget - 1, eps, keeps, weight, loss);
      OneMore(Iterate(off, next, d', v', budget - 1, eps).rotations, loss);
    }
  }

  /** If every pass lowers `weight` to `factor` times itself, the loop does so once per rotation. */
  lemma {:induction false} IterateShrinks(off: Matrix -> real, next: (Matrix, Matrix) -> (Matrix, Matrix),
                                          d: Matrix, v: Matrix, budget: nat, eps: real,
                                          keeps: (Matrix, Matrix) -> bool, weight: Matrix -> real, factor: real)
    requires keeps(d, v) && factor >= 0.0
    requires forall d, v :: keeps(d, v) && off(d) >= eps ==>
      keeps(next(d, v).0, next(d, v).1) && weight(next(d, v).0) <= Mul(factor, weight(d))
    ensures var r := Iterate(off, next, d, v, budget, eps);
      weight(r.d) <= Mul(Pow(factor, r.rotations), weight(d))
    decreases budget
  {
    if budget > 0 && off(d) >= eps {
      var d', v' := next(d, v).0, next(d, v).1;
      IterateShrinks(off, next, d', v', budget - 1, eps, keeps, weight, factor);
      var rest := Iterate(off, next, d', v', budget - 1, eps);
      PowNonNegative(factor, rest.rotations);
      GeometricStep(Pow(factor, rest.rotations), factor, weight(d), weight(d'), weight(rest.d));
    }
  }

  /** A loop that shrinks `weight` by `factor` per rotation, and rotates only while it is at least `floor`,
      leaves by its break once `factor^(budget - 1)` times the initial weight is below that. */
  lemma {:induction false} IterateConverges(off: Matrix -> real, next: (Matrix, Matrix) -> (Matrix, Matrix),
                                            d: Matrix, v: Matrix, budget: nat, eps: real,
                                            keeps: (Matrix, Matrix) -> bool, weight: Matrix -> real, factor: real,
                                            floor: real)
    requires keeps(d, v) && factor >= 0.0 && budget > 0
    requires forall d, v :: keeps(d, v) && off(d) >= eps ==>
      && keeps(next(d, v).0, next(d, v).1) && weight(next(d, v).0) <= Mul(factor, weight(d))
      && weight(d) >= floor
    requires Mul(Pow(factor, budget - 1), weight(d)) < floor
    ensures Iterate(off, next, d, v, budget, eps).converged
    decreases budget
  {
    assert Mul(1.0, weight(d)) == weight(d);
    if off(d) >= eps && budget > 1 {
      var d', v' := next(d, v).0, next(d, v).1;
      PowNonNegative(factor, budget - 2);
      PowStep(Pow(factor, budget - 2), factor, weight(d), weight(d'));
      IterateConverges(off, next, d', v', budget - 1, eps, keeps, weight, factor, floor);
    }
  }

  lemma PowStep(p: real, factor: real, w: real, w': real)
    requires p >= 0.0 && w' <= Mul(factor, w)
    ensures Mul(p, w') <= Mul(factor * p, w)
  {
    NonNegativeProduct(p, factor * w - w');
    assert p * (factor * w) == (factor * p) * w;
  }

  // ---------------------------------------------------------------- the Jacobi loop

  function PivotGivens(libm: Libm, d: Matrix, n: nat, t: Pivot): (g: Givens)
    requires IsMatrix(d, n, n) && t.p < t.q < n
    ensures g.p == t.p && g.q == t.q
  {
    var cs := libm.angle(d[t.p][t.p], d[t.q][t.q], d[t.p][t.q]);
    Givens(t.p, t.q, cs.0, cs.1)
  }

  lemma PivotGivensAnnihilates(libm: Libm, d: Matrix, n: nat, t: Pivot)
    requires IsMatrix(d, n, n) && t.p < t.q < n && IsAngle(libm.angle)
    ensures PivotAngle(d, n, PivotGivens(libm, d, n, t))
  {
    var cs := libm.angle(d[t.p][t.p], d[t.q][t.q], d[t.p][t.q]);
    assert Annihilates(d[t.p][t.p], d[t.q][t.q], d[t.p][t.q], cs.0, cs.1);
  }

  /** One pass of the loop body after the break test. */
  function Next(libm: Libm, n: nat, d: Matrix, v: Matrix): (r: (Matrix, Matrix))
    requires IsMatrix(d, n, n) && IsMatrix(v, n, n) && FindPivot(d, n).off > 0.0
    ensures IsMatrix(r.0, n, n) && IsMatrix(r.1, n, n)
  {
    var g := PivotGivens(libm, d, n, FindPivot(d, n));
    (StepD(d, n, g), RotateColumns(v, n, g))
  }

  function OffTest(n: nat): Matrix -> real {
    d => if IsMatrix(d, n, n) then FindPivot(d, n).off else 0.0
  }

  function Body(libm: Libm, n: nat): (Matrix, Matrix) -> (Matrix, Matrix) {
    (d, v) => if IsMatrix(d, n, n) && IsMatrix(v, n, n) && FindPivot(d, n).off > 0.0
              then Next(libm, n, d, v) else (d, v)
  }

  /** `eigen_sym_jacobi` on a square matrix. */
  function Diagonalise(libm: Libm, a: Matrix, n: nat, budget: nat, eps: real): (r: Sweep)
    requires IsMatrix(a, n, n)
  {
    Iterate(OffTest(n), Body(libm, n), a, IdentityOf(n), budget, eps)
  }

  lemma NextIsRotation(libm: Libm, n: nat, d: Matrix, v: Matrix, g: Givens)
    requires IsMatrix(d, n, n) && IsMatrix(v, n, n) && FindPivot(d, n).off > 0.0
    requires IsAngle(libm.angle) && IsSymmetric(d, n)
    requires g == PivotGivens(libm, d, n, FindPivot(d, n))
    ensures PivotAngle(d, n, g)
    ensures Next(libm, n, d, v) == (RotateBoth(d, n, g), RotateColumns(v, n, g))
  {
    PivotGivensAnnihilates(libm, d, n, FindPivot(d, n));
    OverwriteAgrees(d, n, g);
  }

  lemma NextDecomposes(libm: Libm, a: Matrix, d: Matrix, v: Matrix, n: nat)
    requires IsAngle(libm.angle) && Decomposition(a, d, v, n) && FindPivot(d, n).off > 0.0
    ensures var r := Next(libm, n, d, v);
      Decomposition(a, r.0, r.1, n) && Trace(r.0, n) == Trace(d, n)
  {
    var g := PivotGivens(libm, d, n, FindPivot(d, n));
    NextIsRotation(libm, n, d, v, g);
    StepDecomposes(a, d, v, n, g);
    StepKeepsTrace(d, n, g);
  }

  lemma IdentityOrthonormal(n: nat)
    ensures OrthonormalRows(IdentityOf(n), n) && OrthonormalColumns(IdentityOf(n), n)
    ensures Complete(IdentityOf(n), n)
  {
    var id := IdentityOf(n);
    forall j | 0 <= j < n ensures Column(id, n, n, j) == id[j] {}
    forall x: Vector, i | |x| == n && 0 <= i < n ensures Dot(id[i], x) == x[i] {
      DotToUnit(x, id[i], i, n);
      DotSymmetric(x, id[i]);
    }
    forall x: Vector | |x| == n ensures NormSq(Coordinates(id, n, x)) == NormSq(x) {
      assert Coordinates(id, n, x) == x;
    }
  }

  lemma IdentityConjugates(a: Matrix, n: nat)
    requires IsMatrix(a, n, n)
    ensures Conjugates(a, a, IdentityOf(n), n) && Recomposes(a, a, IdentityOf(n), n)
  {
    var id := IdentityOf(n);
    forall i, j | 0 <= i < n && 0 <= j < n
      ensures Column(id, n, n, i) == id[i] && Dot(id[i], MatVecOf(a, n, n, id[j])) == a[i][j]
    {
      DotToUnit(a[i], id[j], j, n);
      var w := MatVecOf(a, n, n, id[j]);
      DotToUnit(w, id[i], i, n);
      DotSymmetric(w, id[i]);
    }
  }

  lemma StartsDecomposed(a: Matrix, n: nat)
    requires IsMatrix(a, n, n) && IsSymmetric(a, n)
    ensures Decomposition(a, a, IdentityOf(n), n)
  {
    IdentityOrthonormal(n);
    IdentityConjugates(a, n);
  }

  ghost predicate OffDiagonalBelow(d: Matrix, n: nat, eps: real)
    requires IsMatrix(d, n, n)
  {
    forall i, j :: 0 <= i < n && 0 <= j < n && i != j ==> Abs(d[i][j]) < eps
  }

  lemma SmallPivot(d: Matrix, n: nat, eps: real)
    requires IsMatrix(d, n, n) && IsSymmetric(d, n) && FindPivot(d, n).off < eps
    ensures OffDiagonalBelow(d, n, eps)
  {
    forall i, j | 0 <= i < n && 0 <= j < n && i != j ensures Abs(d[i][j]) < eps {
      assert d[i][j] == d[j][i];
      assert Abs(if i < j then d[i][j] else d[j][i]) <= FindPivot(d, n).off;
    }
  }

  /** For every symmetric matrix and every iteration limit, the loop ends in a decomposition of that
      matrix with its trace; leaving by the break means every off-diagonal entry is below `eps`. */
  lemma DiagonaliseDecomposes(libm: Libm, a: Matrix, n: nat, budget: nat, eps: real)
    requires IsAngle(libm.angle) && IsMatrix(a, n, n) && IsSymmetric(a, n) && eps > 0.0
    ensures var r := Diagonalise(libm, a, n, budget, eps);
      && Decomposition(a, r.d, r.v, n) && Trace(r.d, n) == Trace(a, n)
      && (r.converged ==> OffDiagonalBelow(r.d, n, eps))
      && (!r.converged ==> r.rotations == budget)
  {
    var keeps := (d: Matrix, v: Matrix) => Decomposition(a, d, v, n) && Trace(d, n) == Trace(a, n);
    var off, next := OffTest(n), Body(libm, n);
    StartsDecomposed(a, n);
    forall d, v | keeps(d, v) && off(d) >= eps ensures keeps(next(d, v).0, next(d, v).1) {
      NextDecomposes(libm, a, d, v, n);
    }
    IterateKeeps(off, next, a, IdentityOf(n), budget, eps, keeps);
    var r := Diagonalise(libm, a, n, budget, eps);
    if r.converged { SmallPivot(r.d, n, eps); }
  }

  // ---------------------------------------------------------------- convergence

  /** The factor by which one rotation is guaranteed to shrink the off-diagonal weight. */
  function Shrink(n: nat): real
    requires n >= 2
  {
    1.0 - 2.0 / Pairs(n)
  }

  lemma ShrinkRange(n: nat)
    requires n >= 2
    ensures Pairs(n) >= 2.0 && 0.0 <= Shrink(n) < 1.0
  {
    var x, y := n as real, n as real - 1.0;
    assert x * y >= 2.0 * y >= 2.0;
  }

  lemma ShrinkStep(s: real, s': real, w: real, pairs: real)
    requires pairs >= 2.0 && s' == s - 2.0 * w && s <= pairs * w
    ensures s' <= (1.0 - 2.0 / pairs) * s
  {
    var k := 2.0 / pairs;
    assert k * pairs == 2.0;
    assert k * s <= k * (pairs * w);
    assert k * (pairs * w) == (k * pairs) * w;
  }

  lemma WeightBounds(s: real, s': real, off: real, eps: real, n: nat)
    requires n >= 2 && 0.0 < eps <= off
    requires s' == s - 2.0 * Mul(off, off) && s <= Mul(Pairs(n), Mul(off, off))
    ensures s' <= s - 2.0 * Mul(eps, eps) && s' <= Mul(Shrink(n), s)
  {
    assert eps * eps <= eps * off <= off * off;
    ShrinkRange(n);
    ShrinkStep(s, s', off * off, Pairs(n));
  }

  /** What one rotation at the largest entry does to the weight. */
  lemma RotationShrinks(d: Matrix, n: nat, g: Givens, off: real, eps: real)
    requires IsMatrix(d, n, n) && IsSymmetric(d, n) && PivotAngle(d, n, g)
    requires forall a, b :: 0 <= a < b < n ==> Abs(d[a][b]) <= off
    requires off == Abs(d[g.p][g.q]) && 0.0 < eps <= off
    ensures n >= 2
    ensures var d' := RotateBoth(d, n, g);
      OffSq(d', n) <= OffSq(d, n) - 2.0 * Mul(eps, eps) && OffSq(d', n) <= Mul(Shrink(n), OffSq(d, n))
  {
    StepDropsWeight(d, n, g);
    PivotShare(d, n, off);
    SquareOfPivot(d[g.p][g.q], off);
    WeightBounds(OffSq(d, n), OffSq(RotateBoth(d, n, g), n), off, eps, n);
  }

  lemma SquareOfPivot(x: real, off: real)
    requires off == Abs(x)
    ensures Mul(x, x) == Mul(off, off)
  {}

  ghost predicate Squares(n: nat, d: Matrix, v: Matrix) {
    IsMatrix(d, n, n) && IsSymmetric(d, n) && IsMatrix(v, n, n)
  }

  /** On symmetric matrices the loop compares the pivot and rotates at it (sealed). */
  ghost predicate RotatesAtPivot(libm: Libm, n: nat, off: Matrix -> real, next: (Matrix, Matrix) -> (Matrix, Matrix)) {
    forall k {:trigger Key(k)} :: Key(k) ==> PivotLoop(libm, n, off, next)
  }

  ghost predicate PivotLoop(libm: Libm, n: nat, off: Matrix -> real, next: (Matrix, Matrix) -> (Matrix, Matrix)) {
    forall d, v :: Squares(n, d, v) ==>
      && off(d) == FindPivot(d, n).off
      && (off(d) > 0.0 ==>
            var g := PivotGivens(libm, d, n, FindPivot(d, n));
            PivotAngle(d, n, g) && next(d, v) == (RotateBoth(d, n, g), RotateColumns(v, n, g)))
  }

  lemma BodyRotates(libm: Libm, n: nat)
    requires IsAngle(libm.angle)
    ensures RotatesAtPivot(libm, n, OffTest(n), Body(libm, n))
  {
    forall d, v | Squares(n, d, v) && OffTest(n)(d) > 0.0
      ensures var g := PivotGivens(libm, d, n, FindPivot(d, n));
        PivotAngle(d, n, g) && Body(libm, n)(d, v) == (RotateBoth(d, n, g), RotateColumns(v, n, g))
    {
      NextIsRotation(libm, n, d, v, PivotGivens(libm, d, n, FindPivot(d, n)));
    }
    assert PivotLoop(libm, n, OffTest(n), Body(libm, n));
  }

  function Weight(n: nat): Matrix -> real {
    d => if IsMatrix(d, n, n) then OffSq(d, n) else 0.0
  }

  lemma PassShrinks(libm: Libm, n: nat, off: Matrix -> real, next: (Matrix, Matrix) -> (Matrix, Matrix),
                    eps: real, loss: real, d: Matrix, v: Matrix)
    requires RotatesAtPivot(libm, n, off, next) && eps > 0.0 && loss == 2.0 * Mul(eps, eps)
    requires Squares(n, d, v) && off(d) >= eps
    ensures n >= 2 && Squares(n, next(d, v).0, next(d, v).1)
    ensures Weight(n)(next(d, v).0) <= Weight(n)(d) - loss
    ensures Weight(n)(next(d, v).0) <= Mul(Shrink(n), Weight(n)(d))
  {
    assert Key(0);
    var t := FindPivot(d, n);
    var g := PivotGivens(libm, d, n, t);
    assert next(d, v) == (RotateBoth(d, n, g), RotateColumns(v, n, g));
    StaysSymmetric(d, n, g);
    RotationShrinks(d, n, g, t.off, eps);
  }

  lemma LoopLoses(libm: Libm, n: nat, off: Matrix -> real, next: (Matrix, Matrix) -> (Matrix, Matrix),
                  a: Matrix, v: Matrix, budget: nat, eps: real, loss: real)
    requires RotatesAtPivot(libm, n, off, next) && eps > 0.0 && loss == 2.0 * Mul(eps, eps) && Squares(n, a, v)
    ensures var r := Iterate(off, next, a, v, budget, eps);
      && Squares(n, r.d, r.v) && OffSq(r.d, n) <= OffSq(a, n) - Mul(r.rotations as real, loss)
      && (!r.converged ==> r.rotations == budget)
  {
    var keeps, weight := (d: Matrix, v: Matrix) => Squares(n, d, v), Weight(n);
    forall d, v | keeps(d, v) && off(d) >= eps
      ensures keeps(next(d, v).0, next(d, v).1) && weight(next(d, v).0) <= weight(d) - loss
    {
      PassShrinks(libm, n, off, next, eps, loss, d, v);
    }
    IterateKeeps(off, next, a, v, budget, eps, keeps);
    IterateLoses(off, next, a, v, budget, eps, keeps, weight, loss);
  }

  lemma LoopContracts(libm: Libm, n: nat, off: Matrix -> real, next: (Matrix, Matrix) -> (Matrix, Matrix),
                      a: Matrix, v: Matrix, budget: nat, eps: real, factor: real)
    requires RotatesAtPivot(libm, n, off, next) && eps > 0.0 && Squares(n, a, v)
    requires n >= 2 && factor == Shrink(n)
    ensures var r := Iterate(off, next, a, v, budget, eps);
      IsMatrix(r.d, n, n) && OffSq(r.d, n) <= Mul(Pow(factor, r.rotations), OffSq(a, n))
  {
    var keeps, weight := (d: Matrix, v: Matrix) => Squares(n, d, v), Weight(n);
    forall d, v | keeps(d, v) && off(d) >= eps
      ensures keeps(next(d, v).0, next(d, v).1) && weight(next(d, v).0) <= Mul(factor, weight(d))
    {
      PassShrinks(libm, n, off, next, eps, 2.0 * Mul(eps, eps), d, v);
    }
    ShrinkRange(n);
    IterateKeeps(off, next, a, v, budget, eps, keeps);
    IterateShrinks(off, next, a, v, budget, eps, keeps, weight, factor);
  }

  lemma LoopConverges(libm: Libm, n: nat, off: Matrix -> real, next: (Matrix, Matrix) -> (Matrix, Matrix),
                      a: Matrix, v: Matrix, budget: nat, eps: real, loss: real)
    requires RotatesAtPivot(libm, n, off, next) && eps > 0.0 && loss == 2.0 * Mul(eps, eps) && Squares(n, a, v)
    requires Mul(budget as real, loss) > OffSq(a, n)
    ensures Iterate(off, next, a, v, budget, eps).converged
  {
    var r := Iterate(off, next, a, v, budget, eps);
    LoopLoses(libm, n, off, next, a, v, budget, eps, loss);
    OffSqNonNegative(r.d, n);
  }

  lemma LoopConvergesFast(libm: Libm, n: nat, off: Matrix -> real, next: (Matrix, Matrix) -> (Matrix, Matrix),
                          a: Matrix, v: Matrix, budget: nat, eps: real, factor: real, loss: real)
    requires RotatesAtPivot(libm, n, off, next) && eps > 0.0 && loss == 2.0 * Mul(eps, eps) && Squares(n, a, v)
    requires n >= 2 && factor == Shrink(n) && budget > 0 && Mul(Pow(factor, budget - 1), OffSq(a, n)) < loss
    ensures Iterate(off, next, a, v, budget, eps).converged
  {
    var keeps, weight := (d: Matrix, v: Matrix) => Squares(n, d, v), Weight(n);
    forall d, v | keeps(d, v) && off(d) >= eps
      ensures keeps(next(d, v).0, next(d, v).1) && weight(next(d, v).0) <= Mul(factor, weight(d))
      ensures weight(d) >= loss
    {
      PassShrinks(libm, n, off, next, eps, loss, d, v);
      OffSqNonNegative(next(d, v).0, n);
    }
    ShrinkRange(n);
    IterateConverges(off, next, a, v, budget, eps, keeps, weight, factor, loss);
  }

  /** Logarithmically many iterations suffice: the loop leaves by its break once
      `(1 - 2/(n(n-1)))^(budget - 1)` times the initial weight is below `2 eps^2`. */
  lemma FewIterationsConverge(libm: Libm, a: Matrix, n: nat, budget: nat, eps: real, loss: real)
    requires IsAngle(libm.angle) && IsMatrix(a, n, n) && IsSymmetric(a, n) && eps > 0.0 && n >= 2
    requires loss == 2.0 * Mul(eps, eps) && budget > 0 && Mul(Pow(Shrink(n), budget - 1), OffSq(a, n)) < loss
    ensures Diagonalise(libm, a, n, budget, eps).converged
  {
    BodyRotates(libm, n);
    LoopConvergesFast(libm, n, OffTest(n), Body(libm, n), a, IdentityOf(n), budget, eps, Shrink(n), loss);
  }

  /** Every rotation costs at least `2 eps^2` of off-diagonal weight. */
  lemma RotationsCostWeight(libm: Libm, a: Matrix, n: nat, budget: nat, eps: real, loss: real)
    requires IsAngle(libm.angle) && IsMatrix(a, n, n) && IsSymmetric(a, n) && eps > 0.0
    requires loss == 2.0 * Mul(eps, eps)
    ensures var r := Diagonalise(libm, a, n, budget, eps);
      IsMatrix(r.d, n, n) && OffSq(r.d, n) <= OffSq(a, n) - Mul(r.rotations as real, loss)
  {
    BodyRotates(libm, n);
    LoopLoses(libm, n, OffTest(n), Body(libm, n), a, IdentityOf(n), budget, eps, loss);
  }

  /** The off-diagonal weight shrinks geometrically in the number of rotations. */
  lemma WeightShrinksGeometrically(libm: Libm, a: Matrix, n: nat, budget: nat, eps: real)
    requires IsAngle(libm.angle) && IsMatrix(a, n, n) && IsSymmetric(a, n) && eps > 0.0 && n >= 2
    ensures var r := Diagonalise(libm, a, n, budget, eps);
      IsMatrix(r.d, n, n) && OffSq(r.d, n) <= Mul(Pow(Shrink(n), r.rotations), OffSq(a, n))
  {
    BodyRotates(libm, n);
    LoopContracts(libm, n, OffTest(n), Body(libm, n), a, IdentityOf(n), budget, eps, Shrink(n));
  }

  /** With an iteration limit above `OffSq / (2 eps^2)` the loop always leaves by its break. */
  lemma EnoughIterationsConverge(libm: Libm, a: Matrix, n: nat, budget: nat, eps: real, loss: real)
    requires IsAngle(libm.angle) && IsMatrix(a, n, n) && IsSymmetric(a, n) && eps > 0.0
    requires loss == 2.0 * Mul(eps, eps) && Mul(budget as real, loss) > OffSq(a, n)
    ensures Diagonalise(libm, a, n, budget, eps).converged
  {
    BodyRotates(libm, n);
    LoopConverges(libm, n, OffTest(n), Body(libm, n), a, IdentityOf(n), budget, eps, loss);
  }
}
