/** The Jacobi angle: half of `atan2(2 apq, aqq - app)`. Its cosine and sine need a square root only, so
    what the diagonalisation asks of an angle can always be met. */
module RotationAngle {
  import opened Linalg

  function Length(sqrt: real -> real, a: real, b: real): real { sqrt(Mul(a, a) + Mul(b, b)) }

  /** Root of half of `1 + k`. */
  function HalfRoot(sqrt: real -> real, k: real): real { sqrt((1.0 + k) / 2.0) }

  /** Cosine and sine of half the angle of the vector `(a, b)`. */
  function HalfAngle(sqrt: real -> real, a: real, b: real): (real, real) {
    var h := Length(sqrt, a, b);
    if h == 0.0 then (1.0, 0.0)
    else (HalfRoot(sqrt, Quot(a, h)), if b < 0.0 then -HalfRoot(sqrt, -Quot(a, h)) else HalfRoot(sqrt, -Quot(a, h)))
  }

  /** The angle function of the code. */
  function JacobiAngle(sqrt: real -> real): (real, real, real) -> (real, real) {
    (app: real, aqq: real, apq: real) => HalfAngle(sqrt, aqq - app, 2.0 * apq)
  }

  lemma Times(q: real, h: real, a: real)
    requires h != 0.0 && q == Quot(a, h)
    ensures q * h == a
  {}

  lemma CancelFactor(r: real, h: real)
    requires h > 0.0 && Mul(r, h) == h
    ensures r == 1.0
  {
    if r > 1.0 { Positive(r - 1.0, h, (r - 1.0) * h); }
    if r < 1.0 { Positive(1.0 - r, h, (1.0 - r) * h); }
  }

  /** `(k, m)` is on the unit circle if `(k h, m h)` has length `h`. */
  lemma OnCircle(k: real, m: real, h: real, a: real, b: real)
    requires h > 0.0 && k * h == a && m * h == b && Mul(h, h) == Mul(a, a) + Mul(b, b)
    ensures Mul(k, k) + Mul(m, m) == 1.0 && -1.0 <= k <= 1.0
  {
    Positive(h, h, Mul(h, h));
    SquareScaled(k, h, a);
    SquareScaled(m, h, b);
    UnitSum(Mul(k, k), Mul(m, m), Mul(h, h));
    AddSquare(0.0, m);
    WithinOne(k, Mul(k, k));
  }

  lemma SquareScaled(k: real, h: real, a: real)
    requires k * h == a
    ensures Mul(a, a) == Mul(Mul(k, k), Mul(h, h))
  {
    assert (k * h) * (k * h) == (k * k) * (h * h);
  }

  lemma UnitSum(x: real, y: real, h: real)
    requires h > 0.0 && Mul(x, h) + Mul(y, h) == h
    ensures x + y == 1.0
  {
    SumScaled(x, y, h);
    CancelFactor(x + y, h);
  }

  lemma SumScaled(x: real, y: real, h: real)
    ensures Mul(x, h) + Mul(y, h) == Mul(x + y, h)
  {}

  lemma WithinOne(k: real, kk: real)
    requires kk == k * k && kk <= 1.0
    ensures -1.0 <= k <= 1.0
  {
    if k > 1.0 { Positive(k - 1.0, k + 1.0, kk - 1.0); }
    if k < -1.0 { Positive(-k - 1.0, 1.0 - k, kk - 1.0); }
  }

  lemma SameSignRoots(x: real, y: real)
    requires x * x == y * y && (x >= 0.0 <==> y >= 0.0)
    ensures x == y
  {
    var d, e := x - y, x + y;
    assert d * e == 0.0;
  }

  /** Half-angle formulas: `c^2 - s^2 == k` and `2 c s == m`. */
  lemma DoubleAngle(k: real, m: real, c: real, s0: real, s: real)
    requires k * k + m * m == 1.0 && c >= 0.0 && s0 >= 0.0 && s == (if m < 0.0 then -s0 else s0)
    requires c * c == (1.0 + k) / 2.0 && s0 * s0 == (1.0 - k) / 2.0
    ensures c * c + s * s == 1.0 && c * c - s * s == k && c * s == m / 2.0
  {
    var p, cc, ss := c * s0, c * c, s0 * s0;
    NonNegativeProduct(c, s0);
    assert p * p == cc * ss;
    assert cc * ss == ((1.0 + k) * (1.0 - k)) / 4.0 == (m * m) / 4.0;
    var y := if m < 0.0 then -m / 2.0 else m / 2.0;
    assert y * y == (m * m) / 4.0;
    SameSignRoots(p, y);
    assert s * s == ss;
  }

  lemma Turned(k: real, m: real, h: real, app: real, aqq: real, apq: real, cs: real)
    requires k * h == aqq - app && m * h == 2.0 * apq && cs == m / 2.0
    ensures cs * (app - aqq) + k * apq == 0.0
  {
    assert cs * (app - aqq) == -(m / 2.0) * (k * h);
    assert k * apq == k * ((m * h) / 2.0);
  }

  lemma Combined(app: real, aqq: real, apq: real, c: real, s: real, k: real)
    requires c * c + s * s == 1.0 && c * c - s * s == k && (c * s) * (app - aqq) + k * apq == 0.0
    ensures Annihilates(app, aqq, apq, c, s)
  {}

  lemma SignOfQuotient(b: real, h: real)
    requires h > 0.0
    ensures Quot(b, h) < 0.0 <==> b < 0.0
  {}

  lemma LengthFacts(sqrt: real -> real, a: real, b: real, h: real)
    requires IsSqrt(sqrt) && h == Length(sqrt, a, b)
    ensures h >= 0.0 && h * h == Mul(a, a) + Mul(b, b) && (h == 0.0 ==> b == 0.0)
  {
    AddSquare(0.0, a);
    AddSquare(a * a, b);
  }

  lemma UnitVector(sqrt: real -> real, a: real, b: real, h: real, k: real, m: real)
    requires IsSqrt(sqrt) && h == Length(sqrt, a, b) && h != 0.0 && k == Quot(a, h) && m == Quot(b, h)
    ensures k * h == a && m * h == b && k * k + m * m == 1.0 && -1.0 <= k <= 1.0 && (m < 0.0 <==> b < 0.0)
  {
    LengthFacts(sqrt, a, b, h);
    Times(k, h, a);
    Times(m, h, b);
    OnCircle(k, m, h, a, b);
    SignOfQuotient(b, h);
  }

  lemma Halved(sqrt: real -> real, k: real, m: real, c: real, s: real)
    requires IsSqrt(sqrt) && k * k + m * m == 1.0 && -1.0 <= k <= 1.0
    requires c == HalfRoot(sqrt, k) && s == (if m < 0.0 then -HalfRoot(sqrt, -k) else HalfRoot(sqrt, -k))
    ensures c * c + s * s == 1.0 && c * c - s * s == k && c * s == m / 2.0
  {
    DoubleAngle(k, m, c, HalfRoot(sqrt, -k), s);
  }

  /** The angle the code computes zeroes the pivot entry, for every pivot. */
  lemma HalfAngleAnnihilates(sqrt: real -> real, app: real, aqq: real, apq: real, c: real, s: real)
    requires IsSqrt(sqrt) && (c, s) == HalfAngle(sqrt, aqq - app, 2.0 * apq)
    ensures Annihilates(app, aqq, apq, c, s)
  {
    var a, b := aqq - app, 2.0 * apq;
    var h := Length(sqrt, a, b);
    LengthFacts(sqrt, a, b, h);
    if h != 0.0 {
      var k, m := Quot(a, h), Quot(b, h);
      UnitVector(sqrt, a, b, h, k, m);
      Halved(sqrt, k, m, c, s);
      Turned(k, m, h, app, aqq, apq, c * s);
      Combined(app, aqq, apq, c, s, k);
    }
  }

  lemma AngleExists(sqrt: real -> real)
    requires IsSqrt(sqrt)
    ensures ValidLibm(Libm(sqrt, JacobiAngle(sqrt)))
  {
    forall app, aqq, apq
      ensures Annihilates(app, aqq, apq, JacobiAngle(sqrt)(app, aqq, apq).0, JacobiAngle(sqrt)(app, aqq, apq).1)
    {
      var cs := HalfAngle(sqrt, aqq - app, 2.0 * apq);
      HalfAngleAnnihilates(sqrt, app, aqq, apq, cs.0, cs.1);
    }
  }
}
