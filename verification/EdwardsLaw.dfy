/** The twisted Edwards curve -x^2 + y^2 = 1 + d x^2 y^2 in extended coordinates
    (x = X/Z, y = Y/Z, xy = T/Z), over the integers modulo any positive m. */
module EdwardsLaw {
  import opened ModArith

  datatype Quad = Quad(X: int, Y: int, Z: int, T: int)

  ghost predicate OnCurve(p: Quad, d: int, m: int)
    requires m > 0
  {
    && Cong(p.X * p.Y, p.Z * p.T, m)
    && Cong(p.Y * p.Y - p.X * p.X, p.Z * p.Z + d * (p.T * p.T), m)
  }

  /** Coordinatewise congruence. */
  ghost predicate Same(p: Quad, q: Quad, m: int)
    requires m > 0
  {
    Cong(p.X, q.X, m) && Cong(p.Y, q.Y, m) && Cong(p.Z, q.Z, m) && Cong(p.T, q.T, m)
  }

  function Scale(k: int, p: Quad): Quad {
    Quad(k * p.X, k * p.Y, k * p.Z, k * p.T)
  }

  // Numerators and denominators of the affine law
  //   x3 = (x1 y2 + y1 x2) / (1 + d x1 x2 y1 y2),   y3 = (y1 y2 + x1 x2) / (1 - d x1 x2 y1 y2)
  // after both are multiplied by Z1 Z2.
  function NumX(p: Quad, q: Quad): int { p.X * q.Y + p.Y * q.X }
  function NumY(p: Quad, q: Quad): int { p.Y * q.Y + p.X * q.X }
  function DenX(p: Quad, q: Quad, d: int): int { p.Z * q.Z + d * (p.T * q.T) }
  function DenY(p: Quad, q: Quad, d: int): int { p.Z * q.Z - d * (p.T * q.T) }

  /** The affine law brought to the common denominator DenX DenY. */
  function Law(p: Quad, q: Quad, d: int): Quad {
    var (e, h, g, f) := (NumX(p, q), NumY(p, q), DenX(p, q, d), DenY(p, q, d));
    Quad(e * f, g * h, f * g, e * h)
  }

  // ---- The curve is closed under the law ----

  // Write e, h for the numerators, g, f for the denominators, and for each point
  // a = XY, b = ZT, u = Y^2 - X^2, w = Z^2 + d T^2; on the curve a = b and u = w.

  /** e (Y1 Y2 - X1 X2) = g (Z1 T2 + T1 Z2). */
  lemma CrossRatio(p: Quad, q: Quad, d: int, m: int)
    requires m > 0 && OnCurve(p, d, m) && OnCurve(q, d, m)
    ensures Cong(NumX(p, q) * (p.Y * q.Y - p.X * q.X), DenX(p, q, d) * (p.Z * q.T + p.T * q.Z), m)
  {
    var (a1, u1, b1, w1) := Parts(p, d);
    var (a2, u2, b2, w2) := Parts(q, d);
    Mul(a1, b1, u2, w2, m);
    Mul(a2, b2, u1, w1, m);
    Add(a1 * u2, b1 * w2, a2 * u1, b2 * w1, m);
    CrossLeft(p.X, p.Y, q.X, q.Y);
    CrossRight(p.Z, p.T, q.Z, q.T, d);
  }

  function Parts(p: Quad, d: int): (int, int, int, int) {
    (p.X * p.Y, p.Y * p.Y - p.X * p.X, p.Z * p.T, p.Z * p.Z + d * (p.T * p.T))
  }

  lemma CrossLeft(x1: int, y1: int, x2: int, y2: int)
    ensures (x1 * y2 + y1 * x2) * (y1 * y2 - x1 * x2)
         == (x1 * y1) * (y2 * y2 - x2 * x2) + (x2 * y2) * (y1 * y1 - x1 * x1)
  {
  }

  lemma CrossRight(z1: int, t1: int, z2: int, t2: int, d: int)
    ensures (z1 * z2 + d * (t1 * t2)) * (z1 * t2 + t1 * z2)
         == (z1 * t1) * (z2 * z2 + d * (t2 * t2)) + (z2 * t2) * (z1 * z1 + d * (t1 * t1))
  {
    var n := z1 * t2 + t1 * z2;
    CrossTerm(z1, t1, z2, t2);
    CrossTerm(t1, z1, t2, z2);
    Linear(z1 * z2, t1 * t2, n, d);
    Linear(z2 * z2, t2 * t2, z1 * t1, d);
    Linear(z1 * z1, t1 * t1, z2 * t2, d);
  }

  lemma CrossTerm(z1: int, t1: int, z2: int, t2: int)
    ensures (z1 * z2) * (z1 * t2 + t1 * z2) == (z1 * t1) * (z2 * z2) + (z2 * t2) * (z1 * z1)
  {
  }

  lemma Linear(a: int, b: int, c: int, d: int)
    ensures (a + d * b) * c == a * c + d * (b * c)
  {
  }

  /** h^2 - f^2 = e^2 + d n^2, with n = Z1 T2 + T1 Z2. */
  lemma SquareGap(p: Quad, q: Quad, d: int, m: int)
    requires m > 0 && OnCurve(p, d, m) && OnCurve(q, d, m)
    ensures var (e, h, f, n) := (NumX(p, q), NumY(p, q), DenY(p, q, d), p.Z * q.T + p.T * q.Z);
      Cong(h * h - f * f, e * e + d * (n * n), m)
  {
    var (a1, u1, b1, w1) := Parts(p, d);
    var (a2, u2, b2, w2) := Parts(q, d);
    var (e, h, f, n) := (NumX(p, q), NumY(p, q), DenY(p, q, d), p.Z * q.T + p.T * q.Z);
    Mul(u1, w1, u2, w2, m);
    GapLeft(p.X, p.Y, q.X, q.Y);
    GapRight(p.Z, p.T, q.Z, q.T, d);
    Refl(e * e - f * f, m);
    Add(u1 * u2, w1 * w2, e * e - f * f, e * e - f * f, m);
  }

  lemma GapLeft(x1: int, y1: int, x2: int, y2: int)
    ensures (y1 * y2 + x1 * x2) * (y1 * y2 + x1 * x2) - (x1 * y2 + y1 * x2) * (x1 * y2 + y1 * x2)
         == (y1 * y1 - x1 * x1) * (y2 * y2 - x2 * x2)
  {
  }

  lemma GapRight(z1: int, t1: int, z2: int, t2: int, d: int)
    ensures (z1 * z2 - d * (t1 * t2)) * (z1 * z2 - d * (t1 * t2)) + d * ((z1 * t2 + t1 * z2) * (z1 * t2 + t1 * z2))
         == (z1 * z1 + d * (t1 * t1)) * (z2 * z2 + d * (t2 * t2))
  {
    var (a, b, u, v) := (z1 * z2, t1 * t2, z1 * t2, t1 * z2);
    assert a * b == u * v;
    assert (a - d * b) * (a - d * b) == a * a - 2 * d * (a * b) + d * (d * (b * b));
    assert d * ((u + v) * (u + v)) == d * (u * u) + d * (v * v) + 2 * d * (u * v);
    SquareOfProduct(z1, z2);
    SquareOfProduct(t1, t2);
    SquareOfProduct(z1, t2);
    SquareOfProduct(t1, z2);
    Bilinear(z1 * z1, t1 * t1, z2 * z2, t2 * t2, d);
  }

  lemma SquareOfProduct(x: int, y: int)
    ensures (x * y) * (x * y) == (x * x) * (y * y)
  {
  }

  lemma Bilinear(p: int, q: int, r: int, s: int, d: int)
    ensures (p + d * q) * (r + d * s) == p * r + d * (p * s) + d * (q * r) + d * (d * (q * s))
  {
    Linear(p, q, r + d * s, d);
    assert p * (r + d * s) == p * r + d * (p * s);
    assert q * (r + d * s) == q * r + d * (q * s);
  }

  /** f^2 + d h^2 = g^2 + d k^2, with k = Y1 Y2 - X1 X2. */
  lemma MixedSum(p: Quad, q: Quad, d: int, m: int)
    requires m > 0 && OnCurve(p, d, m) && OnCurve(q, d, m)
    ensures var (h, g, f, k) := (NumY(p, q), DenX(p, q, d), DenY(p, q, d), p.Y * q.Y - p.X * q.X);
      Cong(f * f + d * (h * h), g * g + d * (k * k), m)
  {
    var (a1, u1, b1, w1) := Parts(p, d);
    var (a2, u2, b2, w2) := Parts(q, d);
    var (h, g, f, k) := (NumY(p, q), DenX(p, q, d), DenY(p, q, d), p.Y * q.Y - p.X * q.X);
    Mul(a1, b1, a2, b2, m);
    Refl(4 * d, m);
    Mul(4 * d, 4 * d, a1 * a2, b1 * b2, m);
    Refl(f * f + d * (k * k), m);
    Add(4 * d * (a1 * a2), 4 * d * (b1 * b2), f * f + d * (k * k), f * f + d * (k * k), m);
    MixedLeft(p.X, p.Y, q.X, q.Y, d);
    MixedRight(p.Z, p.T, q.Z, q.T, d);
  }

  lemma MixedLeft(x1: int, y1: int, x2: int, y2: int, d: int)
    ensures d * ((y1 * y2 + x1 * x2) * (y1 * y2 + x1 * x2))
         == d * ((y1 * y2 - x1 * x2) * (y1 * y2 - x1 * x2)) + 4 * d * ((x1 * y1) * (x2 * y2))
  {
  }

  lemma MixedRight(z1: int, t1: int, z2: int, t2: int, d: int)
    ensures (z1 * z2 + d * (t1 * t2)) * (z1 * z2 + d * (t1 * t2))
         == (z1 * z2 - d * (t1 * t2)) * (z1 * z2 - d * (t1 * t2)) + 4 * d * ((z1 * t1) * (z2 * t2))
  {
  }

  /** From the three relations to the curve equation of the sum: g^2 (h^2 - f^2) = e^2 (f^2 + d h^2). */
  lemma Combine(e: int, f: int, g: int, h: int, k: int, n: int, d: int, m: int)
    requires m > 0
    requires Cong(e * k, g * n, m)
    requires Cong(h * h - f * f, e * e + d * (n * n), m)
    requires Cong(f * f + d * (h * h), g * g + d * (k * k), m)
    ensures Cong((g * h) * (g * h) - (e * f) * (e * f), (f * g) * (f * g) + d * ((e * h) * (e * h)), m)
  {
    Mul(e * k, g * n, e * k, g * n, m);
    SquareOfProduct(e, k);
    SquareOfProduct(g, n);
    CombineSquares(e * e, f * f, g * g, h * h, k * k, n * n, d, m);
    SquareOfProduct(g, h);
    SquareOfProduct(e, f);
    SquareOfProduct(f, g);
    SquareOfProduct(e, h);
  }

  /** The same with every square named: ee for e^2, and so on. */
  lemma CombineSquares(ee: int, ff: int, gg: int, hh: int, kk: int, nn: int, d: int, m: int)
    requires m > 0
    requires Cong(ee * kk, gg * nn, m)
    requires Cong(hh - ff, ee + d * nn, m)
    requires Cong(ff + d * hh, gg + d * kk, m)
    ensures Cong(gg * hh - ee * ff, ff * gg + d * (ee * hh), m)
  {
    Refl(gg, m);
    Mul(gg, gg, hh - ff, ee + d * nn, m);
    assert gg * (ee + d * nn) == gg * ee + d * (gg * nn);
    Sym(ee * kk, gg * nn, m);
    Refl(d, m);
    Mul(d, d, gg * nn, ee * kk, m);
    Refl(gg * ee, m);
    Add(gg * ee, gg * ee, d * (gg * nn), d * (ee * kk), m);
    assert ee * (gg + d * kk) == gg * ee + d * (ee * kk);
    Trans(gg * (hh - ff), gg * (ee + d * nn), ee * (gg + d * kk), m);
    Refl(ee, m);
    Mul(ee, ee, ff + d * hh, gg + d * kk, m);
    Sym(ee * (ff + d * hh), ee * (gg + d * kk), m);
    Trans(gg * (hh - ff), ee * (gg + d * kk), ee * (ff + d * hh), m);
    Refl(gg * ff - ee * ff, m);
    Add(gg * (hh - ff), ee * (ff + d * hh), gg * ff - ee * ff, gg * ff - ee * ff, m);
    assert gg * (hh - ff) + (gg * ff - ee * ff) == gg * hh - ee * ff;
    assert ee * (ff + d * hh) + (gg * ff - ee * ff) == ff * gg + d * (ee * hh);
  }

  lemma LawOnCurve(p: Quad, q: Quad, d: int, m: int)
    requires m > 0 && OnCurve(p, d, m) && OnCurve(q, d, m)
    ensures OnCurve(Law(p, q, d), d, m)
  {
    CrossRatio(p, q, d, m);
    SquareGap(p, q, d, m);
    MixedSum(p, q, d, m);
    var (e, h, g, f) := (NumX(p, q), NumY(p, q), DenX(p, q, d), DenY(p, q, d));
    var (k, n) := (p.Y * q.Y - p.X * q.X, p.Z * q.T + p.T * q.Z);
    hide Cong, NumX, NumY, DenX, DenY;
    Combine(e, f, g, h, k, n, d, m);
    assert (e * f) * (g * h) == (f * g) * (e * h);
    Refl((f * g) * (e * h), m);
  }

  // ---- What the curve equation does not see ----

  lemma ScaleOnCurve(p: Quad, k: int, d: int, m: int)
    requires m > 0 && OnCurve(p, d, m)
    ensures OnCurve(Scale(k, p), d, m)
  {
    Refl(k * k, m);
    Mul(k * k, k * k, p.X * p.Y, p.Z * p.T, m);
    Mul(k * k, k * k, p.Y * p.Y - p.X * p.X, p.Z * p.Z + d * (p.T * p.T), m);
    ScaledProduct(k, p.X, p.Y);
    ScaledProduct(k, p.Z, p.T);
    ScaledProduct(k, p.X, p.X);
    ScaledProduct(k, p.Y, p.Y);
    ScaledProduct(k, p.Z, p.Z);
    ScaledProduct(k, p.T, p.T);
    Spread(k * k, p.Y * p.Y, p.X * p.X, p.Z * p.Z, p.T * p.T, d);
  }

  lemma ScaledProduct(k: int, x: int, y: int)
    ensures (k * x) * (k * y) == (k * k) * (x * y)
  {
  }

  lemma Spread(c: int, yy: int, xx: int, zz: int, tt: int, d: int)
    ensures c * (yy - xx) == c * yy - c * xx
    ensures c * (zz + d * tt) == c * zz + d * (c * tt)
  {
  }

  lemma SameOnCurve(p: Quad, q: Quad, d: int, m: int)
    requires m > 0 && Same(p, q, m) && OnCurve(q, d, m)
    ensures OnCurve(p, d, m)
  {
    Mul(p.X, q.X, p.Y, q.Y, m);
    Mul(p.Z, q.Z, p.T, q.T, m);
    Mul(p.X, q.X, p.X, q.X, m);
    Mul(p.Y, q.Y, p.Y, q.Y, m);
    Mul(p.Z, q.Z, p.Z, q.Z, m);
    Mul(p.T, q.T, p.T, q.T, m);
    Refl(d, m);
    Mul(d, d, p.T * p.T, q.T * q.T, m);
    Add(p.Y * p.Y, q.Y * q.Y, p.X * p.X, q.X * q.X, m);
    Add(p.Z * p.Z, q.Z * q.Z, d * (p.T * p.T), d * (q.T * q.T), m);
    Sym(p.Z * p.T, q.Z * q.T, m);
    Trans(p.X * p.Y, q.X * q.Y, q.Z * q.T, m);
    Trans(p.X * p.Y, q.Z * q.T, p.Z * p.T, m);
    var (r, s) := (p.Z * p.Z + d * (p.T * p.T), q.Z * q.Z + d * (q.T * q.T));
    Sym(r, s, m);
    Trans(p.Y * p.Y - p.X * p.X, q.Y * q.Y - q.X * q.X, s, m);
    Trans(p.Y * p.Y - p.X * p.X, s, r, m);
  }

  // ---- Group facts that do not need inverses of denominators ----

  const IDENTITY: Quad := Quad(0, 1, 1, 0)

  lemma LawCommutes(p: Quad, q: Quad, d: int)
    ensures Law(p, q, d) == Law(q, p, d)
  {
  }

  /** The identity is neutral: the sum is the point itself, scaled by its own Z. */
  lemma LawIdentity(p: Quad, d: int, m: int)
    requires m > 0 && OnCurve(p, d, m)
    ensures OnCurve(IDENTITY, d, m)
    ensures Same(Law(p, IDENTITY, d), Scale(p.Z, p), m)
  {
    assert Law(p, IDENTITY, d) == Quad(p.X * p.Z, p.Y * p.Z, p.Z * p.Z, p.X * p.Y);
    hide Cong, Law;
    Refl(0, m);
    Refl(1, m);
    Refl(p.X * p.Z, m);
    Refl(p.Z * p.Y, m);
    Refl(p.Z * p.Z, m);
  }

  /** A point and its negation add up to the identity, scaled by the product of the denominators. */
  lemma LawInverse(p: Quad, d: int, m: int)
    requires m > 0 && OnCurve(p, d, m)
    ensures var r := Law(p, Quad(-p.X, p.Y, p.Z, -p.T), d);
      Same(r, Scale(r.Z, IDENTITY), m)
  {
    var n := Quad(-p.X, p.Y, p.Z, -p.T);
    var (h, g, f) := (NumY(p, n), DenX(p, n, d), DenY(p, n, d));
    assert NumX(p, n) == 0;
    assert h == p.Y * p.Y - p.X * p.X;
    assert f == p.Z * p.Z + d * (p.T * p.T);
    Refl(0, m);
    Refl(g, m);
    Mul(g, g, h, f, m);
    Refl(f * g, m);
  }
}
