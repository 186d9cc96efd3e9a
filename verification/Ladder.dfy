/** The constant-time swap and the double-and-add ladder for scalar multiplication. */
module Ladder {
  import opened Bytes
  import opened ModArith
  import opened SignedBits
  import opened Field25519
  import opened EdwardsLaw
  import opened Edwards

  /** Limb by limb: t = mask & (a ^ b), a ^= t, b ^= t. */
  method FeCtSwap(a: Fe, b: Fe, mask: int) returns (a': Fe, b': Fe)
    requires AllOneSign(mask)
    ensures if mask == 0 then a' == a && b' == b else a' == b && b' == a
  {
    a', b' := a, b;
    for i := 0 to 10
      invariant forall k :: i <= k < 10 ==> a'[k] == a[k] && b'[k] == b[k]
      invariant forall k :: 0 <= k < i ==>
        if mask == 0 then a'[k] == a[k] && b'[k] == b[k] else a'[k] == b[k] && b'[k] == a[k]
    {
      MaskedExchange(a'[i], b'[i], mask);
      var t := And(mask, Xor(a'[i], b'[i]));
      a' := a'[i := Xor(a'[i], t)];
      b' := b'[i := Xor(b'[i], t)];
    }
  }

  method CtSwap(p: ExtendedPoint, q: ExtendedPoint, choice: int) returns (p': ExtendedPoint, q': ExtendedPoint)
    requires 0 <= choice <= 1
    ensures if choice == 0 then p' == p && q' == q else p' == q && q' == p
  {
    var mask := -choice;
    var x, x' := FeCtSwap(p.x, q.x, mask);
    var y, y' := FeCtSwap(p.y, q.y, mask);
    var z, z' := FeCtSwap(p.z, q.z, mask);
    var t, t' := FeCtSwap(p.t, q.t, mask);
    p', q' := ExtendedPoint(x, y, z, t), ExtendedPoint(x', y', z', t');
  }

  // ---- Bits of a scalar ----

  /** Bit i of a little-endian scalar, as the loop fetches it. */
  function Bit(s: seq<byte>, i: nat): int
    requires i < 8 * |s|
  {
    s[i / 8] / Two(i % 8) % 2
  }

  lemma BitRange(s: seq<byte>, i: nat)
    requires i < 8 * |s|
    ensures 0 <= Bit(s, i) <= 1
  {
  }

  lemma {:induction false} BitOfValue(s: seq<byte>, i: nat)
    requires i < 8 * |s|
    ensures Bit(s, i) == LittleEndian(s) / Two(i) % 2
    decreases i
  {
    var rest := LittleEndian(s[1..]);
    if i < 8 {
      LowBits(s[0], rest, i);
    } else {
      BitOfValue(s[1..], i - 8);
      assert s[1..][(i - 8) / 8] == s[i / 8];
      TwoAdd(8, i - 8);
      assert Two(8) == 256;
      DivDiv(LittleEndian(s), 256, Two(i - 8));
      DivUnique(LittleEndian(s), 256, rest, s[0]);
    }
  }

  lemma LowBits(low: int, rest: int, i: nat)
    requires 0 <= low < 256 && i < 8
    ensures (low + 256 * rest) / Two(i) % 2 == low / Two(i) % 2
  {
    hide Two;
    WithinByte(i);
    var (d, c) := (Two(i), Two(7 - i));
    Regroup(d, c, rest);
    ParityOfQuotient(low, d, c * rest);
  }

  lemma WithinByte(i: nat)
    requires i < 8
    ensures Two(i) * Two(7 - i) == 128
  {
    TwoAdd(i, 7 - i);
    assert Two(7) == 128;
  }

  lemma Regroup(d: int, c: int, rest: int)
    requires d * c == 128
    ensures 256 * rest == 2 * (d * (c * rest))
  { }

  /** The bits above position i, read as a number: the scalar the ladder has consumed so far. */
  function Top(s: seq<byte>, i: nat): nat {
    DivNonNegative(LittleEndian(s), Two(i));
    LittleEndian(s) / Two(i)
  }

  lemma TopStep(s: seq<byte>, i: nat)
    requires i < 8 * |s|
    ensures Top(s, i) == 2 * Top(s, i + 1) + Bit(s, i)
  {
    BitOfValue(s, i);
    TwoAdd(i, 1);
    assert Two(1) == 2;
    DivDiv(LittleEndian(s), Two(i), 2);
  }

  // ---- Groups the point routines may implement ----

  datatype Group<!G> = Group(zero: G, op: (G, G) -> G)

  ghost predicate Abelian<G(!new)>(g: Group<G>) {
    && (forall a :: g.op(a, g.zero) == a)
    && (forall a, b :: g.op(a, b) == g.op(b, a))
    && (forall a, b, c :: g.op(g.op(a, b), c) == g.op(a, g.op(b, c)))
  }

  /** n-fold sum of x. */
  ghost function Times<G>(g: Group<G>, n: nat, x: G): G {
    if n == 0 then g.zero else g.op(Times(g, n - 1, x), x)
  }

  lemma {:induction false} TimesAdd<G(!new)>(g: Group<G>, m: nat, n: nat, x: G)
    requires Abelian(g)
    ensures g.op(Times(g, m, x), Times(g, n, x)) == Times(g, m + n, x)
  {
    if n > 0 {
      TimesAdd(g, m, n - 1, x);
      assert g.op(Times(g, m, x), g.op(Times(g, n - 1, x), x)) == g.op(g.op(Times(g, m, x), Times(g, n - 1, x)), x);
    }
  }

  /** repr sends the points marked valid to elements of g, and sends the two shapes in which the
      routines return a sum to the sum in g. */
  ghost predicate Represents<G(!new)>(g: Group<G>, valid: Quad -> bool, repr: Quad -> G) {
    && valid(IDENTITY) && repr(IDENTITY) == g.zero
    && (forall p :: valid(p) ==> OnCurve(p, Value(D), P))
    && (forall p, q, r :: valid(p) && valid(q) && SumOfPoints(r, p, q) ==>
          valid(r) && repr(r) == g.op(repr(p), repr(q)))
  }

  ghost predicate SumOfPoints(r: Quad, p: Quad, q: Quad) {
    Same(r, Scale(4, Law(p, q, Value(D))), P) || (p == q && Same(r, Scale(-1, Law(p, p, Value(D))), P))
  }

  /** One turn of the ladder on r0 = [k]P and r1 = [k + 1]P. */
  method LadderStep<G(!new)>(r0: ExtendedPoint, r1: ExtendedPoint, bit: int,
                             ghost g: Group<G>, ghost valid: Quad -> bool, ghost repr: Quad -> G, ghost x: G,
                                 ghost k: nat)
    returns (s0: ExtendedPoint, s1: ExtendedPoint)
    requires 0 <= bit <= 1 && Tidy(r0) && Tidy(r1)
    requires Abelian(g) && Represents(g, valid, repr)
    requires valid(Abs(r0)) && repr(Abs(r0)) == Times(g, k, x)
    requires valid(Abs(r1)) && repr(Abs(r1)) == Times(g, k + 1, x)
    ensures Tidy(s0) && Tidy(s1)
    ensures valid(Abs(s0)) && repr(Abs(s0)) == Times(g, 2 * k + bit, x)
    ensures valid(Abs(s1)) && repr(Abs(s1)) == Times(g, 2 * k + bit + 1, x)
  {
    hide Same, Law, Scale, OnCurve, OnEd25519, Value, Tidy, Abs, Abelian, Represents, Times;
    s0, s1 := CtSwap(r0, r1, bit);
    ghost var (p, q) := (Abs(s0), Abs(s1));
    OnCurveOf(g, valid, repr, s0);
    s1 := PointAdd(s0, s1);
    SumInGroup(g, valid, repr, Abs(s1), p, q);
    s0 := PointDouble(s0);
    SumInGroup(g, valid, repr, Abs(s0), p, p);
    TimesAdd(g, k + bit, k + 1 - bit, x);
    TimesAdd(g, k + bit, k + bit, x);
    s0, s1 := CtSwap(s0, s1, bit);
  }

  lemma OnCurveOf<G(!new)>(g: Group<G>, valid: Quad -> bool, repr: Quad -> G, p: ExtendedPoint)
    requires Represents(g, valid, repr) && valid(Abs(p))
    ensures OnEd25519(p)
  {
    hide OnCurve, Value, SumOfPoints;
  }

  lemma SumInGroup<G(!new)>(g: Group<G>, valid: Quad -> bool, repr: Quad -> G, r: Quad, p: Quad, q: Quad)
    requires Represents(g, valid, repr) && valid(p) && valid(q) && SumOfPoints(r, p, q)
    ensures valid(r) && repr(r) == g.op(repr(p), repr(q))
  {
    hide OnCurve, Value, SumOfPoints;
  }

  /** [n]P, for the 256-bit number n the scalar encodes, in every commutative group whose law
      the point routines compute. */
  method ScalarMul<G(!new)>(p: ExtendedPoint, scalar: seq<byte>,
                            ghost g: Group<G>, ghost valid: Quad -> bool, ghost repr: Quad -> G)
    returns (r0: ExtendedPoint)
    requires |scalar| == 32 && Tidy(p)
    requires Abelian(g) && Represents(g, valid, repr) && valid(Abs(p))
    ensures Tidy(r0) && valid(Abs(r0))
    ensures repr(Abs(r0)) == Times(g, LittleEndian(scalar), repr(Abs(p)))
  {
    hide Value, Tidy, Abs, LittleEndian, Abelian, Represents, Top, Bit;
    ghost var x := repr(Abs(p));
    r0 := IDENTITY_POINT;
    var r1 := p;
    Start(g, valid, repr, x);
    IdentityPoint();
    Ends(scalar);
    for i := 256 downto 0
      invariant Tidy(r0) && Tidy(r1)
      invariant valid(Abs(r0)) && repr(Abs(r0)) == Times(g, Top(scalar, i), x)
      invariant valid(Abs(r1)) && repr(Abs(r1)) == Times(g, Top(scalar, i) + 1, x)
    {
      BitRange(scalar, i);
      var bit := Bit(scalar, i);
      TopStep(scalar, i);
      r0, r1 := LadderStep(r0, r1, bit, g, valid, repr, x, Top(scalar, i + 1));
    }
  }

  lemma IdentityPoint()
    ensures Tidy(IDENTITY_POINT) && Abs(IDENTITY_POINT) == IDENTITY
  {
    hide Value, Reduced;
    ZeroElement();
    OneElement();
  }

  /** The starting pair is [0]P and [1]P. */
  lemma Start<G(!new)>(g: Group<G>, valid: Quad -> bool, repr: Quad -> G, x: G)
    requires Abelian(g) && Represents(g, valid, repr)
    ensures valid(IDENTITY) && repr(IDENTITY) == Times(g, 0, x) && Times(g, 1, x) == x
  {
    hide OnCurve, SumOfPoints;
    assert Times(g, 1, x) == g.op(g.zero, x);
  }

  /** Before the first step nothing of the scalar has been read, after the last one all of it. */
  lemma Ends(scalar: seq<byte>)
    requires |scalar| == 32
    ensures Top(scalar, 256) == 0 && Top(scalar, 0) == LittleEndian(scalar)
  {
    Bounded(scalar);
    assert Two(0) == 1;
    hide LittleEndian, Two;
    DivUnique(LittleEndian(scalar), Two(256), 0, LittleEndian(scalar));
  }

  lemma {:induction false} Bounded(s: seq<byte>)
    ensures LittleEndian(s) < Two(8 * |s|)
  {
    if s != [] {
      Bounded(s[1..]);
      TwoAdd(8, 8 * |s| - 8);
      assert Two(8) == 256;
    }
  }

  /** The hypotheses of ScalarMul have an instance that asks nothing of the curve: sending every
      point to 0, they say that the whole run stays on the curve. */
  lemma ClosedOnCurve() returns (g: Group<int>, valid: Quad -> bool, repr: Quad -> int)
    ensures Abelian(g) && Represents(g, valid, repr)
    ensures forall q :: valid(q) <==> OnCurve(q, Value(D), P)
  {
    hide Value, OnCurve, Same, Law, Scale;
    g := Group(0, (a, b) => a + b);
    valid := q => OnCurve(q, Value(D), P);
    repr := q => 0;
    IdentityOnCurve();
    forall p, q, r | OnCurve(p, Value(D), P) && OnCurve(q, Value(D), P) && SumOfPoints(r, p, q)
      ensures OnCurve(r, Value(D), P)
    {
      LawOnCurve(p, q, Value(D), P);
      if Same(r, Scale(4, Law(p, q, Value(D))), P) {
        ScaleOnCurve(Law(p, q, Value(D)), 4, Value(D), P);
        SameOnCurve(r, Scale(4, Law(p, q, Value(D))), Value(D), P);
      } else {
        ScaleOnCurve(Law(p, q, Value(D)), -1, Value(D), P);
        SameOnCurve(r, Scale(-1, Law(p, q, Value(D))), Value(D), P);
      }
    }
  }

  lemma IdentityOnCurve()
    ensures OnCurve(IDENTITY, Value(D), P)
  { }
}
