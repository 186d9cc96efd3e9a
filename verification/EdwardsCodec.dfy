/** Decoding and encoding of points: what comes out of a decoded string is on the curve. */
module EdwardsCodec {
  import opened Wrappers
  import opened Bytes
  import opened ModArith
  import opened Field25519
  import opened FieldBytes
  import opened FieldPow
  import opened EdwardsLaw
  import opened Edwards

  method IsZero(f: Fe) returns (b: bool)
    requires Factor(f)
    ensures b <==> Cong(Value(f), 0, P)
  {
    var s := ToBytes(f);
    var zero: seq<byte> := seq(32, i => 0);
    b := s == zero;
    ZeroBytes(zero);
    if b {
      Intro(Value(f), 0, Value(f) / P, P);
    }
    if Cong(Value(f), 0, P) {
      Sym(Value(f), 0, P);
      EncodingUnique(f, s, zero);
    }
  }

  /** The sign of a residue: the parity of its canonical form. */
  predicate Sign(x: int) {
    x % P % 2 == 1
  }

  method IsNegative(f: Fe) returns (b: bool)
    requires Factor(f)
    ensures b == Sign(Value(f))
  {
    hide Value;
    var s := ToBytes(f);
    Parity(s);
    b := s[0] % 2 == 1;
  }

  lemma Parity(s: seq<byte>)
    requires s != []
    ensures LittleEndian(s) % 2 == s[0] % 2
  {
    var rest := LittleEndian(s[1..]);
    assert LittleEndian(s) == s[0] as int + 2 * (128 * rest);
  }

  /** u and v of a y coordinate: on the curve v x^2 = u. */
  lemma CurveEquation(x: int, y: int, u: int, v: int, t: int, d: int, m: int)
    requires m > 0 && Cong(u, y * y - 1, m) && Cong(v, d * (y * y) + 1, m)
    requires IsRoot(x, u, v, m) && Cong(t, x * y, m)
    ensures OnCurve(Quad(x, y, 1, t), d, m)
  {
    var (xx, yy) := (x * x, y * y);
    hide Cong;
    Refl(xx, m);
    ModArith.Mul(v, d * yy + 1, xx, xx, m);
    Sym(v * xx, (d * yy + 1) * xx, m);
    Trans((d * yy + 1) * xx, v * xx, u, m);
    Trans((d * yy + 1) * xx, u, yy - 1, m);
    Sym((d * yy + 1) * xx, yy - 1, m);
    Refl(1 - xx, m);
    ModArith.Add(yy - 1, (d * yy + 1) * xx, 1 - xx, 1 - xx, m);
    assert (d * yy + 1) * xx + (1 - xx) == 1 + d * (xx * yy);
    Sym(t, x * y, m);
    ModArith.Mul(x * y, t, x * y, t, m);
    SquareOfProduct(x, y);
    Refl(d, m);
    Refl(1, m);
    ModArith.Mul(d, d, xx * yy, t * t, m);
    ModArith.Add(1, 1, d * (xx * yy), d * (t * t), m);
    Trans(yy - xx, 1 + d * (xx * yy), 1 + d * (t * t), m);
  }

  lemma Operand(f: Fe, b: int)
    requires Within(f, b) && b <= 0x10000000
    ensures Factor(f)
  {
  }

  lemma Numerators(y: Fe, y2: Fe, yd: Fe)
    requires Reduced(y2) && Reduced(yd)
    requires Cong(Value(y2), Value(y) * Value(y), P) && Cong(Value(yd), Value(y2) * Value(D), P)
    ensures var (u, v) := (Sub(y2, ONE), Field25519.Add(yd, ONE));
      && Within(u, 0x4000001) && Within(v, 0x4000001)
      && Cong(Value(u), Value(y) * Value(y) - 1, P) && Cong(Value(v), Value(D) * (Value(y) * Value(y)) + 1, P)
  {
    OneElement();
    hide Field25519.Add, Sub, Value, Cong, D, ONE, Within;
    AddWithin(y2, ONE, 0x4000000, 1);
    AddWithin(yd, ONE, 0x4000000, 1);
    var (yy, d) := (Value(y) * Value(y), Value(D));
    Refl(1, P);
    Refl(d, P);
    ModArith.Add(Value(y2), yy, 1, 1, P);
    ModArith.Mul(Value(y2), yy, d, d, P);
    Trans(Value(yd), Value(y2) * d, yy * d, P);
    ModArith.Add(Value(yd), yy * d, 1, 1, P);
  }

  /** x is a square root of u / v. */
  ghost predicate IsRoot(x: int, u: int, v: int, m: int)
    requires m > 0
  {
    Cong(v * (x * x), u, m)
  }

  /** The first candidate when v x^2 = u. */
  lemma DirectRoot(x: int, xx: int, w: int, u: int, v: int, m: int)
    requires m > 0 && Cong(xx, x * x, m) && Cong(w, xx * v, m) && Cong(w - u, 0, m)
    ensures IsRoot(x, u, v, m)
  {
    hide Cong;
    VXX(x, xx, w, v, m);
    Refl(u, m);
    ModArith.Add(w - u, 0, u, u, m);
    Sym(w, v * (x * x), m);
    Trans(v * (x * x), w, u, m);
  }

  lemma VXX(x: int, xx: int, w: int, v: int, m: int)
    requires m > 0 && Cong(xx, x * x, m) && Cong(w, xx * v, m)
    ensures Cong(w, v * (x * x), m)
  {
    hide Cong;
    Refl(v, m);
    ModArith.Mul(v, v, xx, x * x, m);
    assert v * xx == xx * v;
    Trans(w, xx * v, v * (x * x), m);
  }

  /** When v x^2 = -u instead, x times the square root of -1 is a root. */
  lemma TwistedRoot(x: int, x': int, i: int, xx: int, w: int, u: int, v: int, m: int)
    requires m > 0 && Cong(xx, x * x, m) && Cong(w, xx * v, m) && Cong(w + u, 0, m)
    requires Cong(x', x * i, m) && Cong(i * i, -1, m)
    ensures IsRoot(x', u, v, m)
  {
    hide Cong;
    VXX(x, xx, w, v, m);
    ModArith.Mul(x', x * i, x', x * i, m);
    SquareOfProduct(x, i);
    Refl(x * x, m);
    ModArith.Mul(x * x, x * x, i * i, -1, m);
    Trans(x' * x', (x * x) * (i * i), -(x * x), m);
    Refl(v, m);
    ModArith.Mul(v, v, x' * x', -(x * x), m);
    Sym(w, v * (x * x), m);
    Refl(0, m);
    ModArith.Add(0, 0, v * (x * x), w, m);
    assert v * -(x * x) == 0 - v * (x * x);
    Trans(v * (x' * x'), 0 - v * (x * x), 0 - w, m);
    Refl(u, m);
    ModArith.Add(0, 0, w + u, 0, m);
    ModArith.Add(0 - (w + u), 0, u, u, m);
    Trans(v * (x' * x'), 0 - w, u, m);
  }

  lemma NegRoot(x: int, u: int, v: int, m: int)
    requires m > 0 && IsRoot(x, u, v, m)
    ensures IsRoot(-x, u, v, m) && (Cong(x, 0, m) ==> Cong(-x, 0, m))
  {
    hide Cong;
    assert -x * -x == x * x;
    if Cong(x, 0, m) {
      Refl(0, m);
      ModArith.Add(0, 0, x, 0, m);
    }
  }

  lemma FlipSign(x: int)
    ensures Sign(x) == Sign(-x) ==> Cong(x, 0, P)
  {
    var (q, r) := (x / P, x % P);
    if r != 0 {
      DivUnique(-x, P, -q - 1, P - r);
    } else {
      Intro(x, 0, q, P);
    }
  }

  ghost function CandidateOf(u: int, v: int): int {
    Pow(u * Pow(v, 7), TWO252 - 3) * u * Pow(v, 3)
  }

  /** The square-root candidate u v^3 (u v^7)^((p-5)/8). */
  method Candidate(u: Fe, v: Fe) returns (x: Fe)
    requires Factor(u) && Factor(v)
    ensures Reduced(x)
    ensures Cong(Value(x), CandidateOf(Value(u), Value(v)), P)
  {
    ghost var b := Value(v);
    assert Pow(b, 1) == b;
    Refl(b, P);
    var vv := MulPow(v, v, b, 1, 1);
    var v3 := MulPow(vv, v, b, 2, 1);
    var v6 := MulPow(v3, v3, b, 3, 3);
    var v7 := MulPow(v6, v, b, 6, 1);
    hide Pow, Value, Cong, Within;
    var uv7 := Field25519.Mul(u, v7);
    var root := Pow22523(uv7);
    var xu := Field25519.Mul(root, u);
    x := Field25519.Mul(xu, v3);
    CandidateProduct(Value(u), b, Value(v3), Value(v7), Value(uv7), Value(root), Value(xu), Value(x), P);
  }

  lemma CandidateProduct(u: int, v: int, v3: int, v7: int, uv7: int, root: int, xu: int, x: int, m: int)
    requires m > 0 && Cong(v3, Pow(v, 3), m) && Cong(v7, Pow(v, 7), m) && Cong(uv7, u * v7, m)
    requires Cong(root, Pow(uv7, TWO252 - 3), m) && Cong(xu, root * u, m) && Cong(x, xu * v3, m)
    ensures Cong(x, CandidateOf(u, v), m)
  {
    var (e, a, c) := (TWO252 - 3, u * Pow(v, 7), Pow(v, 3));
    hide Pow, Cong;
    Refl(u, m);
    ModArith.Mul(u, u, v7, Pow(v, 7), m);
    Trans(uv7, u * v7, a, m);
    PowCong(uv7, a, e, m);
    Trans(root, Pow(uv7, e), Pow(a, e), m);
    ModArith.Mul(root, Pow(a, e), u, u, m);
    Trans(xu, root * u, Pow(a, e) * u, m);
    ModArith.Mul(xu, Pow(a, e) * u, v3, c, m);
    Trans(x, xu * v3, Pow(a, e) * u * c, m);
  }

  /** Keeps the candidate, or multiplies it by the square root of -1, or gives up. */
  method CheckRoot(x: Fe, u: Fe, v: Fe) returns (r: Option<Fe>)
    requires Reduced(x) && Within(u, 0x4000001) && Factor(v)
    ensures r.Some? ==> Reduced(r.value) && IsRoot(Value(r.value), Value(u), Value(v), P)
    ensures r.Some? <==> var w := Value(v) * (Value(x) * Value(x));
      Cong(w - Value(u), 0, P) || Cong(w + Value(u), 0, P)
  {
    Constants();
    hide Value, Cong, SQRT_M1, D, IsRoot, Field25519.Add, Sub, Within;
    ReducedIsFactor(x);
    var xx := Square(x);
    ReducedIsFactor(xx);
    var vx2 := Field25519.Mul(xx, v);
    AddWithin(vx2, u, 0x4000000, 0x4000001);
    Operand(Sub(vx2, u), 0x8000001);
    Operand(Field25519.Add(vx2, u), 0x8000001);
    VXX(Value(x), Value(xx), Value(vx2), Value(v), P);
    Shifted(Value(vx2), Value(v) * (Value(x) * Value(x)), Value(u), P);
    var plus := IsZero(Sub(vx2, u));
    if !plus {
      var minus := IsZero(Field25519.Add(vx2, u));
      if !minus {
        return None;
      }
      ReducedIsFactor(SQRT_M1);
      var x' := Field25519.Mul(x, SQRT_M1);
      TwistedRoot(Value(x), Value(x'), Value(SQRT_M1), Value(xx), Value(vx2), Value(u), Value(v), P);
      return Some(x');
    }
    DirectRoot(Value(x), Value(xx), Value(vx2), Value(u), Value(v), P);
    r := Some(x);
  }

  lemma Shifted(w: int, w': int, u: int, m: int)
    requires m > 0 && Cong(w, w', m)
    ensures Cong(w - u, 0, m) <==> Cong(w' - u, 0, m)
    ensures Cong(w + u, 0, m) <==> Cong(w' + u, 0, m)
  {
    hide Cong;
    Refl(u, m);
    Sym(w, w', m);
    ModArith.Add(w, w', u, u, m);
    ModArith.Add(w', w, u, u, m);
    if Cong(w - u, 0, m) { Trans(w' - u, w - u, 0, m); }
    if Cong(w' - u, 0, m) { Trans(w - u, w' - u, 0, m); }
    if Cong(w + u, 0, m) { Trans(w' + u, w + u, 0, m); }
    if Cong(w' + u, 0, m) { Trans(w + u, w' + u, 0, m); }
  }

  /** The root of the requested sign. */
  method ApplySign(x: Fe, odd: bool, ghost u: int, ghost v: int) returns (r: Fe)
    requires Reduced(x) && IsRoot(Value(x), u, v, P)
    ensures Reduced(r) && IsRoot(Value(r), u, v, P)
    ensures Cong(Value(r), 0, P) || Sign(Value(r)) == odd
  {
    hide Value, Cong, IsRoot, Sign, Within, Factor, Field25519.Add, Sub, Neg;
    ReducedIsFactor(x);
    var neg := IsNegative(x);
    if neg != odd {
      r := Neg(x);
      AddWithin(x, x, 0x4000000, 0x4000000);
      FlipSign(Value(x));
      NegRoot(Value(x), u, v, P);
    } else {
      r := x;
    }
  }

  /** u = y^2 - 1 and v = d y^2 + 1, for the y coordinate in a string. */
  method CurveTerms(y: Fe) returns (u: Fe, v: Fe)
    requires Reduced(y)
    ensures Within(u, 0x4000001) && Within(v, 0x4000001)
    ensures var yy := Value(y) * Value(y);
      Cong(Value(u), yy - 1, P) && Cong(Value(v), Value(D) * yy + 1, P)
  {
    hide Value, Cong, D, ONE, Field25519.Add, Sub, Within, Factor;
    Constants();
    ReducedIsFactor(y);
    var y2 := Square(y);
    ReducedIsFactor(y2);
    ReducedIsFactor(D);
    u := Sub(y2, ONE);
    var yd := Field25519.Mul(y2, D);
    v := Field25519.Add(yd, ONE);
    Numerators(y, y2, yd);
  }

  /** A decoded point has the y of the string, an x of the requested sign unless x is 0, and lies
      on the curve; whatever the string, nothing else is ever returned. */
  method PointFromBytes(bytes: seq<byte>) returns (r: Option<ExtendedPoint>)
    requires |bytes| == 32
    ensures r.Some? ==> Tidy(r.value) && OnEd25519(r.value)
    ensures r.Some? ==> r.value.z == ONE && r.value.y == FromBytes(bytes)
    ensures r.Some? ==> Cong(Value(r.value.x), 0, P) || Sign(Value(r.value.x)) == (bytes[31] / 0x80 == 1)
  {
    hide FromBytes, Value, LittleEndian, Cong, D, ONE, IsRoot, Within, Factor, Reduced, OnCurve, Sign;
    OneElement();
    var y := FromBytes(bytes);
    FromBytesValue(bytes);
    var u, v := CurveTerms(y);
    Operand(u, 0x4000001);
    Operand(v, 0x4000001);
    var x := Candidate(u, v);
    var root := CheckRoot(x, u, v);
    if root.None? {
      return None;
    }
    x := ApplySign(root.value, bytes[31] / 0x80 == 1, Value(u), Value(v));
    ReducedIsFactor(x);
    ReducedIsFactor(y);
    var t := Field25519.Mul(x, y);
    r := Some(ExtendedPoint(x, y, ONE, t));
    CurveEquation(Value(x), Value(y), Value(u), Value(v), Value(t), Value(D), P);
  }
}
