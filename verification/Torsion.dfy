/** A group the ladder can be seen at work in: the four points (0, 1), (i, 0), (0, -1) and (-i, 0), where i is the
    square root of -1. They are the multiples of (i, 0). */
module Torsion {
  import opened Bytes
  import opened ModArith
  import opened Field25519
  import opened EdwardsLaw
  import opened Edwards
  import opened Ladder

  /** Quarter turns. */
  type Quarter = x: int | 0 <= x < 4

  function Plus(j: Quarter, k: Quarter): Quarter {
    if j + k < 4 then j + k else j + k - 4
  }

  function Sin(j: Quarter): int {
    if j == 1 then 1 else if j == 3 then -1 else 0
  }

  function Cos(j: Quarter): int {
    if j == 0 then 1 else if j == 2 then -1 else 0
  }

  lemma Angles(j: Quarter, k: Quarter)
    ensures Sin(Plus(j, k)) == Sin(j) * Cos(k) + Cos(j) * Sin(k)
    ensures Cos(Plus(j, k)) == Cos(j) * Cos(k) - Sin(j) * Sin(k)
    ensures Sin(j) * Cos(j) == 0
  { }

  /** q is the point (i sin j, cos j). */
  ghost predicate At(q: Quad, j: Quarter, i: int, m: int)
    requires m > 0
  {
    Cong(q.X, i * Sin(j) * q.Z, m) && Cong(q.Y, Cos(j) * q.Z, m) && Cong(q.T, 0, m)
  }

  // ---- The law adds the turns ----

  lemma Product(a: int, b: int, x: int, y: int, u: int, v: int, m: int)
    requires m > 0 && Cong(a, x * u, m) && Cong(b, y * v, m)
    ensures Cong(a * b, x * y * (u * v), m)
  {
    hide Cong;
    ModArith.Mul(a, x * u, b, y * v, m);
    assert (x * u) * (y * v) == x * y * (u * v);
  }

  /** The numerators, over the product w of the two Z. */
  lemma Numerators(p: Quad, q: Quad, j: Quarter, k: Quarter, i: int, m: int)
    requires m > 0 && At(p, j, i, m) && At(q, k, i, m) && Cong(i * i, -1, m)
    ensures Cong(NumX(p, q), i * Sin(Plus(j, k)) * (p.Z * q.Z), m)
    ensures Cong(NumY(p, q), Cos(Plus(j, k)) * (p.Z * q.Z), m)
  {
    hide Cong, Sin, Cos, Plus;
    var w := p.Z * q.Z;
    var (s, c, s', c') := (Sin(j), Cos(j), Sin(k), Cos(k));
    Product(p.X, q.Y, i * s, c', p.Z, q.Z, m);
    Product(p.Y, q.X, c, i * s', p.Z, q.Z, m);
    ModArith.Add(p.X * q.Y, i * s * c' * w, p.Y * q.X, c * (i * s') * w, m);
    Product(p.Y, q.Y, c, c', p.Z, q.Z, m);
    Product(p.X, q.X, i * s, i * s', p.Z, q.Z, m);
    MinusOne(i, s * s' * w, m);
    Regroup(i, s, c, s', c', w);
    Trans(p.X * q.X, i * s * (i * s') * w, -(s * s' * w), m);
    ModArith.Add(p.Y * q.Y, c * c' * w, p.X * q.X, -(s * s' * w), m);
    Angles(j, k);
  }

  lemma Regroup(i: int, s: int, c: int, s': int, c': int, w: int)
    ensures i * s * c' * w + c * (i * s') * w == i * (s * c' + c * s') * w
    ensures c * c' * w - s * s' * w == (c * c' - s * s') * w
    ensures i * s * (i * s') * w == (i * i) * (s * s' * w)
  { }

  lemma MinusOne(i: int, x: int, m: int)
    requires m > 0 && Cong(i * i, -1, m)
    ensures Cong((i * i) * x, -x, m)
  {
    hide Cong;
    Refl(x, m);
    ModArith.Mul(i * i, -1, x, x, m);
  }

  /** With both T zero the denominators are w. */
  lemma Denominators(p: Quad, q: Quad, d: int, m: int)
    requires m > 0 && Cong(p.T, 0, m) && Cong(q.T, 0, m)
    ensures Cong(DenX(p, q, d), p.Z * q.Z, m) && Cong(DenY(p, q, d), p.Z * q.Z, m)
  {
    hide Cong;
    var w := p.Z * q.Z;
    ModArith.Mul(p.T, 0, q.T, 0, m);
    Refl(d, m);
    Refl(w, m);
    ModArith.Mul(d, d, p.T * q.T, 0, m);
    ModArith.Add(w, w, d * (p.T * q.T), 0, m);
  }

  /** The four products of numerators x w, y w and denominators w. */
  lemma Products(e: int, h: int, g: int, f: int, x: int, y: int, w: int, m: int)
    requires m > 0 && Cong(e, x * w, m) && Cong(h, y * w, m) && Cong(g, w, m) && Cong(f, w, m) && x * y == 0
    ensures Cong(f * g, w * w, m) && Cong(e * f, x * (f * g), m) && Cong(g * h, y * (f * g), m) && Cong(e * h, 0, m)
  {
    hide Cong;
    ModArith.Mul(f, w, g, w, m);
    Sym(f * g, w * w, m);
    Refl(x, m);
    Refl(y, m);
    ModArith.Mul(x, x, w * w, f * g, m);
    ModArith.Mul(y, y, w * w, f * g, m);
    ModArith.Mul(e, x * w, f, w, m);
    assert x * w * w == x * (w * w) && w * (y * w) == y * (w * w);
    Trans(e * f, x * (w * w), x * (f * g), m);
    ModArith.Mul(g, w, h, y * w, m);
    Trans(g * h, y * (w * w), y * (f * g), m);
    ModArith.Mul(e, x * w, h, y * w, m);
    assert (x * w) * (y * w) == (x * y) * (w * w);
  }

  lemma LawAdds(p: Quad, q: Quad, j: Quarter, k: Quarter, i: int, d: int, m: int)
    requires m > 0 && At(p, j, i, m) && At(q, k, i, m) && Cong(i * i, -1, m)
    ensures At(Law(p, q, d), Plus(j, k), i, m)
    ensures Cong(Law(p, q, d).Z, (p.Z * q.Z) * (p.Z * q.Z), m)
  {
    var t := Plus(j, k);
    Angles(t, t);
    Numerators(p, q, j, k, i, m);
    Denominators(p, q, d, m);
    hide Cong, Sin, Cos, Plus, NumX, NumY, DenX, DenY;
    assert i * Sin(t) * Cos(t) == i * (Sin(t) * Cos(t));
    Products(NumX(p, q), NumY(p, q), DenX(p, q, d), DenY(p, q, d), i * Sin(t), Cos(t), p.Z * q.Z, m);
  }

  /** Scaling and congruence keep the turn. */
  lemma SameTurn(r: Quad, q: Quad, c: int, j: Quarter, i: int, m: int)
    requires m > 0 && At(q, j, i, m) && Same(r, Scale(c, q), m)
    ensures At(r, j, i, m)
  {
    hide Cong, Sin, Cos;
    Refl(c, m);
    Turned(r.X, r.Z, q.X, q.Z, c, i * Sin(j), m);
    Turned(r.Y, r.Z, q.Y, q.Z, c, Cos(j), m);
    ModArith.Mul(c, c, q.T, 0, m);
    Trans(r.T, c * q.T, 0, m);
  }

  lemma Turned(a: int, z: int, b: int, y: int, c: int, k: int, m: int)
    requires m > 0 && Cong(a, c * b, m) && Cong(z, c * y, m) && Cong(b, k * y, m)
    ensures Cong(a, k * z, m)
  {
    hide Cong;
    Refl(c, m);
    Refl(k, m);
    Chain(a, c, b, c, k * y, m);
    Sym(z, c * y, m);
    ModArith.Mul(k, k, c * y, z, m);
    assert c * (k * y) == k * (c * y);
    Trans(a, c * (k * y), k * z, m);
  }

  // ---- The points told apart ----

  ghost predicate Inverse(z: int, w: int, m: int)
    requires m > 0
  {
    Cong(z * w, 1, m)
  }

  ghost predicate Unit(z: int, m: int)
    requires m > 0
  {
    exists w :: Inverse(z, w, m)
  }

  lemma UnitProduct(x: int, y: int, z: int, m: int)
    requires m > 0 && Unit(x, m) && Unit(y, m) && Cong(z, x * y, m)
    ensures Unit(z, m)
  {
    hide Cong;
    var u :| Inverse(x, u, m);
    var v :| Inverse(y, v, m);
    Refl(u * v, m);
    ModArith.Mul(z, x * y, u * v, u * v, m);
    ModArith.Mul(x * u, 1, y * v, 1, m);
    assert (x * y) * (u * v) == (x * u) * (y * v);
    Trans(z * (u * v), (x * y) * (u * v), 1, m);
    assert Inverse(z, u * v, m);
  }

  /** A unit times c is not zero unless c is. */
  lemma UnitCancels(c: int, z: int, m: int)
    requires m > 0 && Unit(z, m) && Cong(c * z, 0, m)
    ensures Cong(c, 0, m)
  {
    hide Cong;
    var w :| Inverse(z, w, m);
    Refl(c, m);
    Refl(w, m);
    ModArith.Mul(c * z, 0, w, w, m);
    ModArith.Mul(c, c, z * w, 1, m);
    assert c * z * w == c * (z * w);
    Sym(c * (z * w), c, m);
    Trans(c, c * (z * w), 0, m);
  }

  lemma Differ(a: int, u: int, v: int, z: int, m: int)
    requires m > 0 && Cong(a, u * z, m) && Cong(a, v * z, m) && Unit(z, m)
    ensures Cong(u - v, 0, m)
  {
    hide Cong, Unit;
    Sym(a, u * z, m);
    Trans(u * z, a, v * z, m);
    Refl(v * z, m);
    ModArith.Add(u * z, v * z, v * z, v * z, m);
    assert (u - v) * z == u * z - v * z;
    UnitCancels(u - v, z, m);
  }

  lemma SmallNotZero(c: int, m: int)
    requires m > 0 && -m < c < m && c != 0
    ensures !Cong(c, 0, m)
  {
    if c > 0 {
      DivUnique(c, m, 0, c);
    } else {
      DivUnique(c, m, -1, c + m);
    }
  }

  /** No point is at two turns. */
  lemma OneTurn(q: Quad, j: Quarter, k: Quarter, i: int, m: int)
    requires m > 2 && At(q, j, i, m) && At(q, k, i, m) && Unit(q.Z, m) && Cong(i * i, -1, m)
    ensures j == k
  {
    hide Cong, Unit;
    Differ(q.Y, Cos(j), Cos(k), q.Z, m);
    if Cos(j) != Cos(k) {
      SmallNotZero(Cos(j) - Cos(k), m);
    } else if j != k {
      Differ(q.X, i * Sin(j), i * Sin(k), q.Z, m);
      var c := Sin(j) - Sin(k);
      assert i * Sin(j) - i * Sin(k) == i * c;
      Refl(i, m);
      ModArith.Mul(i, i, i * c, 0, m);
      assert i * (i * c) == (i * i) * c;
      MinusOne(i, c, m);
      Sym((i * i) * c, -c, m);
      Trans(-c, (i * i) * c, 0, m);
      SmallNotZero(-c, m);
    }
  }

  // ---- The four points ----

  ghost predicate Valid(q: Quad, i: int, m: int)
    requires m > 0
  {
    Unit(q.Z, m) && exists j: Quarter :: At(q, j, i, m)
  }

  ghost function Turn(q: Quad, i: int, m: int): Quarter
    requires m > 0
  {
    if j: Quarter :| At(q, j, i, m) then j else 0
  }

  /** Each is at its own turn only. */
  lemma TurnIs(q: Quad, j: Quarter, i: int, m: int)
    requires m > 2 && Cong(i * i, -1, m) && Valid(q, i, m)
    ensures At(q, j, i, m) <==> j == Turn(q, i, m)
  {
    hide Cong, Unit, At;
    if At(q, j, i, m) {
      OneTurn(q, j, Turn(q, i, m), i, m);
    }
  }

  lemma UnitCircle(j: Quarter, x: int)
    ensures Cos(j) * Cos(j) * x - -(Sin(j) * Sin(j) * x) == x
  { }

  lemma ValidOnCurve(q: Quad, i: int, d: int, m: int)
    requires m > 0 && Valid(q, i, m) && Cong(i * i, -1, m)
    ensures OnCurve(q, d, m)
  {
    var j := Turn(q, i, m);
    Angles(j, j);
    hide Cong, Sin, Cos, Unit;
    var (s, c, z) := (Sin(j), Cos(j), q.Z);
    Product(q.X, q.Y, i * s, c, z, z, m);
    assert i * s * c == i * (s * c);
    Refl(z, m);
    ModArith.Mul(z, z, q.T, 0, m);
    Sym(z * q.T, 0, m);
    Trans(q.X * q.Y, 0, z * q.T, m);
    Product(q.Y, q.Y, c, c, z, z, m);
    Product(q.X, q.X, i * s, i * s, z, z, m);
    MinusOne(i, s * s * (z * z), m);
    Regroup(i, s, c, s, c, z * z);
    Trans(q.X * q.X, i * s * (i * s) * (z * z), -(s * s * (z * z)), m);
    ModArith.Add(q.Y * q.Y, c * c * (z * z), q.X * q.X, -(s * s * (z * z)), m);
    UnitCircle(j, z * z);
    ModArith.Mul(q.T, 0, q.T, 0, m);
    Refl(d, m);
    ModArith.Mul(d, d, q.T * q.T, 0, m);
    Refl(z * z, m);
    ModArith.Add(z * z, z * z, d * (q.T * q.T), 0, m);
    Sym(z * z + d * (q.T * q.T), z * z, m);
    Trans(q.Y * q.Y - q.X * q.X, z * z, z * z + d * (q.T * q.T), m);
  }

  /** The law, up to a factor, stays among them and adds the turns. */
  lemma SumAt(r: Quad, p: Quad, q: Quad, c: int, i: int, d: int, m: int)
    requires m > 2 && Cong(i * i, -1, m) && Valid(p, i, m) && Valid(q, i, m)
    requires Unit(c, m) && Same(r, Scale(c, Law(p, q, d)), m)
    ensures Valid(r, i, m) && Turn(r, i, m) == Plus(Turn(p, i, m), Turn(q, i, m))
  {
    hide Cong, Same, Law, Scale, Plus, At, Unit;
    var (j, k) := (Turn(p, i, m), Turn(q, i, m));
    LawAdds(p, q, j, k, i, d, m);
    SameTurn(r, Law(p, q, d), c, Plus(j, k), i, m);
    ScaledUnit(r, p, q, c, d, m);
    OneTurn(r, Turn(r, i, m), Plus(j, k), i, m);
  }

  lemma ScaledUnit(r: Quad, p: Quad, q: Quad, c: int, d: int, m: int)
    requires m > 0 && Unit(p.Z, m) && Unit(q.Z, m) && Unit(c, m)
    requires Same(r, Scale(c, Law(p, q, d)), m) && Cong(Law(p, q, d).Z, (p.Z * q.Z) * (p.Z * q.Z), m)
    ensures Unit(r.Z, m)
  {
    hide Cong, Unit, Law;
    Refl(p.Z * q.Z, m);
    UnitProduct(p.Z, q.Z, p.Z * q.Z, m);
    UnitProduct(p.Z * q.Z, p.Z * q.Z, Law(p, q, d).Z, m);
    UnitProduct(c, Law(p, q, d).Z, r.Z, m);
  }

  lemma UnitOne(m: int)
    requires m > 0
    ensures Unit(1, m)
  {
    Intro(1 * 1, 1, 0, m);
    assert Inverse(1, 1, m);
  }

  lemma IdentityAt(i: int, m: int)
    requires m > 2 && Cong(i * i, -1, m)
    ensures Valid(IDENTITY, i, m) && Turn(IDENTITY, i, m) == 0
  {
    hide Cong, Unit;
    Refl(0, m);
    Refl(1, m);
    UnitOne(m);
    assert i * Sin(0) * 1 == 0;
    assert At(IDENTITY, 0, i, m);
    OneTurn(IDENTITY, Turn(IDENTITY, i, m), 0, i, m);
  }

  lemma GeneratorAt(i: int, m: int)
    requires m > 2 && Cong(i * i, -1, m)
    ensures Valid(Quad(i, 0, 1, 0), i, m) && Turn(Quad(i, 0, 1, 0), i, m) == 1
  {
    hide Cong, Unit;
    var q := Quad(i, 0, 1, 0);
    Refl(0, m);
    Refl(i, m);
    UnitOne(m);
    assert At(q, 1, i, m);
    OneTurn(q, Turn(q, i, m), 1, i, m);
  }

  // ---- The group, modulo p ----

  /** Four and minus one, the factors the routines introduce, are units. */
  lemma Factors()
    ensures Unit(4, P) && Unit(-1, P)
  {
    var q := (3 * P + 1) / 4;
    Intro(4 * q, 1, 3, P);
    assert Inverse(4, q, P);
    Intro(-1 * -1, 1, 0, P);
    assert Inverse(-1, -1, P);
  }

  lemma PlusLaws(a: Quarter, b: Quarter, c: Quarter)
    ensures Plus(a, 0) == a && Plus(a, b) == Plus(b, a) && Plus(Plus(a, b), c) == Plus(a, Plus(b, c))
  { }

  lemma PlusAbelian(g: Group<Quarter>)
    requires g.zero == 0 && forall j, k :: g.op(j, k) == Plus(j, k)
    ensures Abelian(g)
  {
    hide Plus;
    forall a ensures g.op(a, g.zero) == a { PlusLaws(a, a, a); }
    forall a, b ensures g.op(a, b) == g.op(b, a) { PlusLaws(a, b, a); }
    forall a, b, c ensures g.op(g.op(a, b), c) == g.op(a, g.op(b, c)) { PlusLaws(a, b, c); }
  }

  lemma Implemented(g: Group<Quarter>, valid: Quad -> bool, repr: Quad -> Quarter, i: int)
    requires Cong(i * i, -1, P)
    requires g.zero == 0 && forall j, k :: g.op(j, k) == Plus(j, k)
    requires forall q :: valid(q) == Valid(q, i, P) && repr(q) == Turn(q, i, P)
    ensures Represents(g, valid, repr)
  {
    Factors();
    hide Value, Cong, OnCurve, Same, Law, Scale, Valid, Turn, Plus, Unit, D;
    IdentityAt(i, P);
    forall p | valid(p) ensures OnCurve(p, Value(D), P) {
      ValidOnCurve(p, i, Value(D), P);
    }
    forall p, q, r | valid(p) && valid(q) && SumOfPoints(r, p, q)
      ensures valid(r) && repr(r) == g.op(repr(p), repr(q))
    {
      var c := if Same(r, Scale(4, Law(p, q, Value(D))), P) then 4 else -1;
      SumAt(r, p, q, c, i, Value(D), P);
    }
  }

  /** For either square root of -1 the four points form a cyclic group that the point routines implement. */
  lemma QuarterTurns(i: int) returns (g: Group<Quarter>, valid: Quad -> bool, repr: Quad -> Quarter)
    requires Cong(i * i, -1, P)
    ensures g.zero == 0 && forall j, k :: g.op(j, k) == Plus(j, k)
    ensures Abelian(g) && Represents(g, valid, repr)
    ensures forall q :: valid(q) == Valid(q, i, P) && repr(q) == Turn(q, i, P)
  {
    hide Cong, Plus, Abelian, Represents, Valid, Turn;
    g := Group(0, (j, k) => Plus(j, k));
    valid := q => Valid(q, i, P);
    repr := q => Turn(q, i, P);
    PlusAbelian(g);
    Implemented(g, valid, repr, i);
  }

  lemma NextTurn(x: nat, j: Quarter)
    ensures Plus(x % 4, j) == (x + j) % 4
  { }

  lemma {:induction false} TimesTurn(g: Group<Quarter>, n: nat, j: Quarter)
    requires g.zero == 0 && forall j, k :: g.op(j, k) == Plus(j, k)
    ensures n * j >= 0 && Times(g, n, j) == n * j % 4
  {
    hide Plus;
    if n > 0 {
      TimesTurn(g, n - 1, j);
      assert n * j == (n - 1) * j + j;
      NextTurn((n - 1) * j, j);
    }
  }

  /** Whatever the scalar n, the ladder takes a point at turn j to one at turn n j. */
  method Multiple(p: ExtendedPoint, scalar: seq<byte>, ghost i: int) returns (r: ExtendedPoint)
    requires |scalar| == 32 && Tidy(p) && Cong(i * i, -1, P) && Valid(Abs(p), i, P)
    ensures Tidy(r) && Valid(Abs(r), i, P)
    ensures Turn(Abs(r), i, P) == LittleEndian(scalar) * Turn(Abs(p), i, P) % 4
    ensures forall j: Quarter :: At(Abs(r), j, i, P) <==> j == LittleEndian(scalar) * Turn(Abs(p), i, P) % 4
  {
    hide Value, LittleEndian, Tidy, Abs, Abelian, Represents, Times, Valid, Turn, Plus, Cong;
    ghost var g, valid, repr := QuarterTurns(i);
    r := ScalarMul(p, scalar, g, valid, repr);
    TimesTurn(g, LittleEndian(scalar), Turn(Abs(p), i, P));
    forall j: Quarter ensures At(Abs(r), j, i, P) <==> j == Turn(Abs(r), i, P) {
      TurnIs(Abs(r), j, i, P);
    }
  }

  /** (i, 0), at the first turn. */
  lemma Generator()
    ensures var p, i := ExtendedPoint(SQRT_M1, ZERO, ONE, ZERO), Value(SQRT_M1);
      Tidy(p) && Cong(i * i, -1, P) && Valid(Abs(p), i, P) && Turn(Abs(p), i, P) == 1
  {
    Constants();
    ZeroElement();
    OneElement();
    hide Value, Cong, SQRT_M1, ZERO, ONE, Unit, Reduced, At, Valid, Turn;
    assert Abs(ExtendedPoint(SQRT_M1, ZERO, ONE, ZERO)) == Quad(Value(SQRT_M1), 0, 1, 0);
    GeneratorAt(Value(SQRT_M1), P);
  }
}
