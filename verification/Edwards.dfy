/** Points of edwards25519 held as four field elements, and their two addition routines. */
module Edwards {
  import opened ModArith
  import opened Field25519
  import opened EdwardsLaw

  const D: Fe := [-10913610, 13857413, -15372611, 6949391, 114729, -8787816, -6275908, -3247719, -18696448, -12055116]

  const D2: Fe := [-21827239, -5839606, -30745221, 13898782, 229458, 15978800, -12551817, -6495438, 29715968, 9444199]

  const SQRT_M1: Fe := [-32595792, -7943725, 9377950, 3500415, 12389472, -272473, -25146209, -2005654, 326686, 11406482]

  /** D = -121665/121666, D2 = 2 D and SQRT_M1^2 = -1 (section 5.1 of RFC 8032). */
  lemma Constants()
    ensures Reduced(D) && Reduced(D2) && Reduced(SQRT_M1)
    ensures Cong(121666 * Value(D), -121665, P)
    ensures Cong(Value(D2), 2 * Value(D), P)
    ensures Cong(Value(SQRT_M1) * Value(SQRT_M1), -1, P)
  {
  }

  datatype ExtendedPoint = ExtendedPoint(x: Fe, y: Fe, z: Fe, t: Fe)

  const IDENTITY_POINT := ExtendedPoint(ZERO, ONE, ONE, ZERO)

  /** The integers behind the coordinates. */
  function Abs(p: ExtendedPoint): Quad {
    Quad(Value(p.x), Value(p.y), Value(p.z), Value(p.t))
  }

  predicate Tidy(p: ExtendedPoint) {
    Reduced(p.x) && Reduced(p.y) && Reduced(p.z) && Reduced(p.t)
  }

  ghost predicate OnEd25519(p: ExtendedPoint) {
    OnCurve(Abs(p), Value(D), P)
  }

  // ---- Addition ----

  /** From the seven products of the unified addition to numerators and denominators, doubled. */
  lemma AddTerms(p: Quad, q: Quad, a: int, b: int, c: int, zz: int, d: int, m: int)
    requires m > 0 && Cong(a, (p.Y - p.X) * (q.Y - q.X), m) && Cong(b, (p.Y + p.X) * (q.Y + q.X), m)
    requires Cong(c, 2 * d * (p.T * q.T), m) && Cong(zz, 2 * (p.Z * q.Z), m)
    ensures Cong(b - a, 2 * NumX(p, q), m) && Cong(b + a, 2 * NumY(p, q), m)
    ensures Cong(zz + c, 2 * DenX(p, q, d), m) && Cong(zz - c, 2 * DenY(p, q, d), m)
  {
    hide Cong, NumX, NumY, DenX, DenY;
    var (u, v) := ((p.Y - p.X) * (q.Y - q.X), (p.Y + p.X) * (q.Y + q.X));
    var (w, z) := (2 * d * (p.T * q.T), 2 * (p.Z * q.Z));
    CrossSums(p, q);
    DenominatorSums(p, q, d);
    ModArith.Add(b, v, a, u, m);
    ModArith.Add(zz, z, c, w, m);
  }

  lemma CrossSums(p: Quad, q: Quad)
    ensures (p.Y + p.X) * (q.Y + q.X) - (p.Y - p.X) * (q.Y - q.X) == 2 * NumX(p, q)
    ensures (p.Y + p.X) * (q.Y + q.X) + (p.Y - p.X) * (q.Y - q.X) == 2 * NumY(p, q)
  {
  }

  lemma DenominatorSums(p: Quad, q: Quad, d: int)
    ensures 2 * (p.Z * q.Z) + 2 * d * (p.T * q.T) == 2 * DenX(p, q, d)
    ensures 2 * (p.Z * q.Z) - 2 * d * (p.T * q.T) == 2 * DenY(p, q, d)
  {
  }

  lemma TwistTerm(t1: int, t2: int, u: int, c: int, d2: int, d: int, m: int)
    requires m > 0 && Cong(d2, 2 * d, m) && Cong(u, t1 * d2, m) && Cong(c, u * t2, m)
    ensures Cong(c, 2 * d * (t1 * t2), m)
  {
    hide Cong;
    Refl(t1, m);
    Refl(t2, m);
    Chain(u, t1, d2, t1, 2 * d, m);
    Chain(c, u, t2, t1 * (2 * d), t2, m);
    assert t1 * (2 * d) * t2 == 2 * d * (t1 * t2);
  }

  /** A product of two doubled terms is four times the product of the terms. */
  lemma FourTimes(r: int, u: int, v: int, s: int, t: int, m: int)
    requires m > 0 && Cong(r, u * v, m) && Cong(u, 2 * s, m) && Cong(v, 2 * t, m)
    ensures Cong(r, 4 * (s * t), m)
  {
    Chain(r, u, v, 2 * s, 2 * t, m);
    assert (2 * s) * (2 * t) == 4 * (s * t);
  }

  /** The four products of an addition or doubling, all scaled alike, are the law's coordinates. */
  lemma Assemble(r: Quad, l: (int, int, int, int), e: int, f: int, g: int, h: int, m: int)
    requires m > 0 && Cong(r.X, e * f, m) && Cong(r.Y, g * h, m) && Cong(r.Z, f * g, m) && Cong(r.T, e * h, m)
    requires Cong(e, 2 * l.0, m) && Cong(h, 2 * l.1, m) && Cong(g, 2 * l.2, m) && Cong(f, 2 * l.3, m)
    ensures Same(r, Scale(4, Quad(l.0 * l.3, l.2 * l.1, l.3 * l.2, l.0 * l.1)), m)
  {
    FourTimes(r.X, e, f, l.0, l.3, m);
    FourTimes(r.Y, g, h, l.2, l.1, m);
    FourTimes(r.Z, f, g, l.3, l.2, m);
    FourTimes(r.T, e, h, l.0, l.1, m);
  }

  lemma StaysOnCurve(r: Quad, l: Quad, k: int, d: int, m: int)
    requires m > 0 && OnCurve(l, d, m) && Same(r, Scale(k, l), m)
    ensures OnCurve(r, d, m)
  {
    hide OnCurve, Same, Scale;
    ScaleOnCurve(l, k, d, m);
    SameOnCurve(r, Scale(k, l), d, m);
  }

  lemma Operands(f: Fe, g: Fe)
    requires Reduced(f) && Reduced(g)
    ensures Factor(Field25519.Add(f, g)) && Factor(Sub(f, g))
  {
    AddWithin(f, g, 0x4000000, 0x4000000);
    hide Value, Field25519.Add, Sub;
  }

  /** f + g and then plus or minus h. */
  lemma Operands3(f: Fe, g: Fe, h: Fe)
    requires Reduced(f) && Reduced(g) && Reduced(h)
    ensures Factor(Field25519.Add(Field25519.Add(f, g), h)) && Factor(Sub(Field25519.Add(f, g), h))
  {
    hide Value, Field25519.Add, Sub;
    AddWithin(f, g, 0x4000000, 0x4000000);
    AddWithin(Field25519.Add(f, g), h, 0x8000000, 0x4000000);
  }

  method PointAdd(p: ExtendedPoint, q: ExtendedPoint) returns (r: ExtendedPoint)
    requires Tidy(p) && Tidy(q)
    ensures Tidy(r)
    ensures Same(Abs(r), Scale(4, Law(Abs(p), Abs(q), Value(D))), P)
    ensures OnEd25519(p) && OnEd25519(q) ==> OnEd25519(r)
  {
    Constants();
    hide Value, Cong, D2, Within, Factor, Reduced, Field25519.Add, Sub, NumX, NumY, DenX, DenY, OnCurve;
    Operands(p.y, p.x);
    Operands(q.y, q.x);
    ReducedIsFactor(p.t); ReducedIsFactor(D2); ReducedIsFactor(q.t); ReducedIsFactor(p.z); ReducedIsFactor(q.z);
    var a := Field25519.Mul(Sub(p.y, p.x), Sub(q.y, q.x));
    var b := Field25519.Mul(Field25519.Add(p.y, p.x), Field25519.Add(q.y, q.x));
    var u := Field25519.Mul(p.t, D2);
    ReducedIsFactor(u);
    var c := Field25519.Mul(u, q.t);
    TwistTerm(Value(p.t), Value(q.t), Value(u), Value(c), Value(D2), Value(D), P);
    var z1 := Field25519.Mul(p.z, q.z);
    var z2 := Field25519.Mul(p.z, q.z);
    var d := Field25519.Add(z1, z2);
    ModArith.Add(Value(z1), Value(p.z) * Value(q.z), Value(z2), Value(p.z) * Value(q.z), P);
    AddTerms(Abs(p), Abs(q), Value(a), Value(b), Value(c), Value(d), Value(D), P);
    var e := Sub(b, a);
    var f := Sub(d, c);
    var g := Field25519.Add(d, c);
    var h := Field25519.Add(b, a);
    Operands(b, a);
    Operands3(z1, z2, c);
    var x3 := Field25519.Mul(e, f);
    var y3 := Field25519.Mul(g, h);
    var t3 := Field25519.Mul(e, h);
    var z3 := Field25519.Mul(f, g);
    r := ExtendedPoint(x3, y3, z3, t3);
    ghost var (p', q', d') := (Abs(p), Abs(q), Value(D));
    Assemble(Abs(r), (NumX(p', q'), NumY(p', q'), DenX(p', q', d'), DenY(p', q', d')),
             Value(e), Value(f), Value(g), Value(h), P);
    if OnEd25519(p) && OnEd25519(q) {
      LawOnCurve(p', q', d', P);
      StaysOnCurve(Abs(r), Law(p', q', d'), 4, d', P);
    }
  }

  lemma ReducedIsFactor(f: Fe)
    requires Reduced(f)
    ensures Factor(f)
  {
  }

  // ---- Doubling ----

  /** On the curve, Y^2 - X^2 is the denominator Z^2 + d T^2, and lowering it by 2 Z^2 leaves the
      other denominator, negated. */
  lemma DoubleTerms(p: Quad, a: int, b: int, c: int, s: int, d: int, m: int)
    requires m > 0 && OnCurve(p, d, m)
    requires Cong(a, p.X * p.X, m) && Cong(b, p.Y * p.Y, m) && Cong(c, 2 * (p.Z * p.Z), m)
    requires Cong(s, (p.X + p.Y) * (p.X + p.Y), m)
    ensures Cong(s - a - b, NumX(p, p), m) && Cong(-a - b, -NumY(p, p), m)
    ensures Cong(-a + b, DenX(p, p, d), m) && Cong(-a + b - c, -DenY(p, p, d), m)
  {
    hide Cong;
    assert (p.X + p.Y) * (p.X + p.Y) - p.X * p.X - p.Y * p.Y == p.X * p.Y + p.Y * p.X;
    var (xx, yy, w) := (p.X * p.X, p.Y * p.Y, p.Z * p.Z + d * (p.T * p.T));
    ModArith.Add(s, (p.X + p.Y) * (p.X + p.Y), a, xx, m);
    ModArith.Add(s - a, (p.X + p.Y) * (p.X + p.Y) - xx, b, yy, m);
    Refl(0, m);
    ModArith.Add(0, 0, a, xx, m);
    ModArith.Add(0 - a, 0 - xx, b, yy, m);
    Trans(-a + b, -xx + yy, w, m);
    ModArith.Add(-a + b, w, c, 2 * (p.Z * p.Z), m);
  }

  method PointDouble(p: ExtendedPoint) returns (r: ExtendedPoint)
    requires Tidy(p)
    ensures Tidy(r)
    ensures OnEd25519(p) ==> Same(Abs(r), Scale(-1, Law(Abs(p), Abs(p), Value(D))), P)
    ensures OnEd25519(p) ==> OnEd25519(r)
  {
    hide Value, Cong, Within, Factor, Reduced, Field25519.Add, Sub, Neg, NumX, NumY, DenX, DenY, OnCurve;
    ReducedIsFactor(p.x); ReducedIsFactor(p.y); ReducedIsFactor(p.z);
    Operands(p.x, p.y);
    var a := Square(p.x);
    var b := Square(p.y);
    var zz := Square(p.z);
    var c := Field25519.Add(zz, zz);
    var d := Neg(a);
    var s := Square(Field25519.Add(p.x, p.y));
    var e := Sub(Sub(s, a), b);
    var g := Field25519.Add(d, b);
    var f := Sub(g, c);
    var h := Sub(d, b);
    DoubleOperands(a, b, zz, s);
    var x3 := Field25519.Mul(e, f);
    var y3 := Field25519.Mul(g, h);
    var t3 := Field25519.Mul(e, h);
    var z3 := Field25519.Mul(f, g);
    r := ExtendedPoint(x3, y3, z3, t3);
    if OnEd25519(p) {
      ghost var (p', d') := (Abs(p), Value(D));
      ModArith.Add(Value(zz), p'.Z * p'.Z, Value(zz), p'.Z * p'.Z, P);
      DoubleTerms(p', Value(a), Value(b), Value(c), Value(s), d', P);
      AssembleNegated(Abs(r), (NumX(p', p'), NumY(p', p'), DenX(p', p', d'), DenY(p', p', d')),
                      Value(e), Value(f), Value(g), Value(h), P);
      LawOnCurve(p', p', d', P);
      StaysOnCurve(Abs(r), Law(p', p', d'), -1, d', P);
    }
  }

  lemma DoubleOperands(a: Fe, b: Fe, zz: Fe, s: Fe)
    requires Reduced(a) && Reduced(b) && Reduced(zz) && Reduced(s)
    ensures var g := Field25519.Add(Neg(a), b);
      Factor(Sub(Sub(s, a), b)) && Factor(g) && Factor(Sub(g, Field25519.Add(zz, zz))) && Factor(Sub(Neg(a), b))
  {
    hide Value, Field25519.Add, Sub, Neg;
    AddWithin(a, b, 0x4000000, 0x4000000);
    AddWithin(s, a, 0x4000000, 0x4000000);
    AddWithin(zz, zz, 0x4000000, 0x4000000);
    AddWithin(Sub(s, a), b, 0x8000000, 0x4000000);
    AddWithin(Neg(a), b, 0x4000000, 0x4000000);
    AddWithin(Field25519.Add(Neg(a), b), Field25519.Add(zz, zz), 0x8000000, 0x8000000);
  }

  /** The products of a doubling: two of the law's terms enter negated. */
  lemma AssembleNegated(r: Quad, l: (int, int, int, int), e: int, f: int, g: int, h: int, m: int)
    requires m > 0 && Cong(r.X, e * f, m) && Cong(r.Y, g * h, m) && Cong(r.Z, f * g, m) && Cong(r.T, e * h, m)
    requires Cong(e, l.0, m) && Cong(h, -l.1, m) && Cong(g, l.2, m) && Cong(f, -l.3, m)
    ensures Same(r, Scale(-1, Quad(l.0 * l.3, l.2 * l.1, l.3 * l.2, l.0 * l.1)), m)
  {
    hide Cong;
    Chain(r.X, e, f, l.0, -l.3, m);
    Chain(r.Y, g, h, l.2, -l.1, m);
    Chain(r.Z, f, g, -l.3, l.2, m);
    Chain(r.T, e, h, l.0, -l.1, m);
    Signs(l.0, l.3, l.2, l.1);
  }

  lemma Signs(e: int, f: int, g: int, h: int)
    ensures e * -f == -1 * (e * f) && g * -h == -1 * (g * h) && -f * g == -1 * (f * g) && e * -h == -1 * (e * h)
  {
  }
}
