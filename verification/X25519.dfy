/** Key agreement on the Montgomery form: a ladder whose conditional swaps are deferred. */
module X25519 {
  import opened Bytes
  import opened ModArith
  import SignedBits
  import opened Field25519
  import opened FieldBytes
  import opened FieldPow
  import Edwards
  import opened Ladder

  // ---- The ladder on integers ----

  datatype Pair = Pair(x2: int, z2: int, x3: int, z3: int)

  /** One combined doubling and addition, as the code computes it. */
  function Step(x1: int, s: Pair): Pair {
    var (a, b, c, d) := (s.x2 + s.z2, s.x2 - s.z2, s.x3 + s.z3, s.x3 - s.z3);
    var (aa, bb) := (a * a, b * b);
    var e := aa - bb;
    var (sum, diff) := (d * a + c * b, d * a - c * b);
    Pair(aa * bb, e * (aa + 121666 * e), sum * sum, x1 * (diff * diff))
  }

  /** What the first half is: x-only doubling on the curve y^2 = x^3 + 486666 x^2 + x, over the integers; on the curve
      of section 4.1 of RFC 7748, with 486662, z2 would be less by (4 x2 z2)^2. */
  lemma Doubles(x1: int, s: Pair)
    ensures var (x, z, t) := (s.x2, s.z2, Step(x1, s));
      && t.x2 == (x * x - z * z) * (x * x - z * z)
      && t.z2 == 4 * (x * z) * (x * x + 486666 * (x * z) + z * z)
      && t.z2 - (4 * (x * z)) * (4 * (x * z)) == 4 * (x * z) * (x * x + 486662 * (x * z) + z * z)
  {
    var (x, z) := (s.x2, s.z2);
    var w := x * z;
    var q := x * x + z * z;
    assert (x + z) * (x + z) == q + 2 * w && (x - z) * (x - z) == q - 2 * w;
    assert (x + z) * (x - z) == x * x - z * z;
    Regroup(x + z, x - z);
    DoubleZ(q, w);
  }

  lemma Regroup(a: int, b: int)
    ensures (a * a) * (b * b) == (a * b) * (a * b)
  { }

  lemma DoubleZ(q: int, w: int)
    ensures var e := (q + 2 * w) - (q - 2 * w);
      && e * ((q + 2 * w) + 121666 * e) == 4 * w * (q + 486666 * w)
      && 4 * w * (q + 486666 * w) - (4 * w) * (4 * w) == 4 * w * (q + 486662 * w)
  { }

  /** And the second half: the differential addition, which takes the difference's coordinate as x1. */
  lemma Adds(x1: int, s: Pair)
    ensures var t := Step(x1, s);
      var (u, v) := (s.x2 * s.x3 - s.z2 * s.z3, s.z2 * s.x3 - s.x2 * s.z3);
      t.x3 == 4 * (u * u) && t.z3 == x1 * (4 * (v * v))
  {
    var (u, v) := (s.x2 * s.x3 - s.z2 * s.z3, s.z2 * s.x3 - s.x2 * s.z3);
    var (da, cb) := ((s.x3 - s.z3) * (s.x2 + s.z2), (s.x3 + s.z3) * (s.x2 - s.z2));
    assert da + cb == 2 * u && da - cb == 2 * v;
    FourSquares(u);
    FourSquares(v);
  }

  lemma FourSquares(u: int)
    ensures (2 * u) * (2 * u) == 4 * (u * u)
  { }

  function SwapIf(b: int, s: Pair): Pair {
    if b == 0 then s else Pair(s.x3, s.z3, s.x2, s.z2)
  }

  /** The plain ladder: for every bit from 254 down, swap, step, swap back. */
  function Plain(k: seq<byte>, u: int, pos: nat): Pair
    requires |k| == 32 && pos <= 255
    decreases 255 - pos
  {
    if pos == 255 then
      Pair(1, 0, u, 1)
    else
      SwapIf(Bit(k, pos), Step(u, SwapIf(Bit(k, pos), Plain(k, u, pos + 1))))
  }

  ghost predicate Same(s: Pair, t: Pair, m: int)
    requires m > 0
  {
    Cong(s.x2, t.x2, m) && Cong(s.z2, t.z2, m) && Cong(s.x3, t.x3, m) && Cong(s.z3, t.z3, m)
  }

  /** Congruent states stay congruent. */
  lemma StepCong(x1: int, s: Pair, t: Pair, m: int)
    requires m > 0 && Same(s, t, m)
    ensures Same(Step(x1, s), Step(x1, t), m)
  {
    hide Cong;
    ModArith.Add(s.x2, t.x2, s.z2, t.z2, m);
    ModArith.Add(s.x3, t.x3, s.z3, t.z3, m);
    var (a, b, c, d) := (s.x2 + s.z2, s.x2 - s.z2, s.x3 + s.z3, s.x3 - s.z3);
    var (a', b', c', d') := (t.x2 + t.z2, t.x2 - t.z2, t.x3 + t.z3, t.x3 - t.z3);
    ModArith.Mul(a, a', a, a', m);
    ModArith.Mul(b, b', b, b', m);
    ModArith.Mul(d, d', a, a', m);
    ModArith.Mul(c, c', b, b', m);
    ModArith.Mul(a * a, a' * a', b * b, b' * b', m);
    ModArith.Add(a * a, a' * a', b * b, b' * b', m);
    var (e, e') := (a * a - b * b, a' * a' - b' * b');
    Refl(121666, m);
    ModArith.Mul(121666, 121666, e, e', m);
    ModArith.Add(a * a, a' * a', 121666 * e, 121666 * e', m);
    ModArith.Mul(e, e', a * a + 121666 * e, a' * a' + 121666 * e', m);
    ModArith.Add(d * a, d' * a', c * b, c' * b', m);
    var (u, v, u', v') := (d * a + c * b, d * a - c * b, d' * a' + c' * b', d' * a' - c' * b');
    ModArith.Mul(u, u', u, u', m);
    ModArith.Mul(v, v', v, v', m);
    Refl(x1, m);
    ModArith.Mul(x1, x1, v * v, v' * v', m);
  }

  // ---- The ladder on limbs ----

  method Mul121666(f: Fe) returns (r: Fe)
    requires Factor(f)
    ensures Reduced(r) && Cong(Value(r), 121666 * Value(f), P)
  {
    var h := f;
    for i := 0 to 10
      invariant forall k :: 0 <= k < i ==> h[k] == f[k] * 121666
      invariant forall k :: i <= k < 10 ==> h[k] == f[k]
    {
      h := h[i := f[i] * 121666];
    }
    WeighScales(121666, f[0], f[1], f[2], f[3], f[4], f[5], f[6], f[7], f[8], f[9]);
    r := CarryMul(h);
  }

  function State(x2: Fe, z2: Fe, x3: Fe, z3: Fe): Pair {
    Pair(Value(x2), Value(z2), Value(x3), Value(z3))
  }

  predicate AllReduced(x2: Fe, z2: Fe, x3: Fe, z3: Fe) {
    Reduced(x2) && Reduced(z2) && Reduced(x3) && Reduced(z3)
  }

  method LimbStep(x1: Fe, x2: Fe, z2: Fe, x3: Fe, z3: Fe) returns (x2': Fe, z2': Fe, x3': Fe, z3': Fe)
    requires Reduced(x1) && AllReduced(x2, z2, x3, z3)
    ensures AllReduced(x2', z2', x3', z3')
    ensures Same(State(x2', z2', x3', z3'), Step(Value(x1), State(x2, z2, x3, z3)), P)
  {
    hide Value, Cong, Within, Factor, Reduced, Field25519.Add, Sub, Step;
    Edwards.Operands(x2, z2);
    Edwards.Operands(x3, z3);
    var a := Field25519.Add(x2, z2);
    var aa := Square(a);
    var b := Sub(x2, z2);
    var bb := Square(b);
    Edwards.Operands(aa, bb);
    var e := Sub(aa, bb);
    var c := Field25519.Add(x3, z3);
    var d := Sub(x3, z3);
    var da := Field25519.Mul(d, a);
    var cb := Field25519.Mul(c, b);
    Edwards.Operands(da, cb);
    var sum := Field25519.Add(da, cb);
    var diff := Sub(da, cb);
    x3' := Square(sum);
    var dd := Square(diff);
    Edwards.ReducedIsFactor(x1); Edwards.ReducedIsFactor(dd); Edwards.ReducedIsFactor(aa); Edwards.ReducedIsFactor(bb);
    z3' := Field25519.Mul(x1, dd);
    x2' := Field25519.Mul(aa, bb);
    var ea := Mul121666(e);
    Edwards.Operands(aa, ea);
    z2' := Field25519.Mul(e, Field25519.Add(aa, ea));
    StepOf(Value(x1), State(x2, z2, x3, z3), Value(aa), Value(bb), Value(da), Value(cb), Value(dd), Value(ea),
           State(x2', z2', x3', z3'), P);
  }

  lemma StepOf(x1: int, s: Pair, aa: int, bb: int, da: int, cb: int, dd: int, ea: int, r: Pair, m: int)
    requires m > 0 && Cong(aa, (s.x2 + s.z2) * (s.x2 + s.z2), m) && Cong(bb, (s.x2 - s.z2) * (s.x2 - s.z2), m)
    requires Cong(da, (s.x3 - s.z3) * (s.x2 + s.z2), m) && Cong(cb, (s.x3 + s.z3) * (s.x2 - s.z2), m)
    requires Cong(dd, (da - cb) * (da - cb), m) && Cong(ea, 121666 * (aa - bb), m)
    requires Cong(r.x3, (da + cb) * (da + cb), m) && Cong(r.z3, x1 * dd, m)
    requires Cong(r.x2, aa * bb, m) && Cong(r.z2, (aa - bb) * (aa + ea), m)
    ensures Same(r, Step(x1, s), m)
  {
    hide Cong;
    var (a, b, c, d) := (s.x2 + s.z2, s.x2 - s.z2, s.x3 + s.z3, s.x3 - s.z3);
    var (AA, BB, DA, CB) := (a * a, b * b, d * a, c * b);
    Chain(r.x2, aa, bb, AA, BB, m);
    ModArith.Add(aa, AA, bb, BB, m);
    Refl(121666, m);
    Chain(ea, 121666, aa - bb, 121666, AA - BB, m);
    ModArith.Add(aa, AA, ea, 121666 * (AA - BB), m);
    Chain(r.z2, aa - bb, aa + ea, AA - BB, AA + 121666 * (AA - BB), m);
    ModArith.Add(da, DA, cb, CB, m);
    Chain(r.x3, da + cb, da + cb, DA + CB, DA + CB, m);
    Chain(dd, da - cb, da - cb, DA - CB, DA - CB, m);
    Refl(x1, m);
    Chain(r.z3, x1, dd, x1, (DA - CB) * (DA - CB), m);
  }

  /** Fe::cswap: the mask is the negated swap bit. */
  method CSwap(a: Fe, b: Fe, swap: int) returns (a': Fe, b': Fe)
    requires 0 <= swap <= 1
    ensures if swap == 0 then a' == a && b' == b else a' == b && b' == a
  {
    a', b' := FeCtSwap(a, b, -swap);
  }

  /** The loop of x25519: a swap is carried out only when the bit changes, and the last one after
      the loop. Up to that pending swap its state is the plain ladder's, modulo p. */
  method DeferredLadder(k: seq<byte>, u: Fe) returns (x2: Fe, z2: Fe)
    requires |k| == 32 && Reduced(u)
    ensures Reduced(x2) && Reduced(z2)
    ensures var s := Plain(k, Value(u), 0); Cong(Value(x2), s.x2, P) && Cong(Value(z2), s.z2, P)
  {
    hide Value, Cong, Within, Reduced, Step, Bit;
    ZeroElement();
    OneElement();
    x2, z2 := ONE, ZERO;
    var x3, z3 := u, ONE;
    var swap := 0;
    StartPair(u);
    for pos := 255 downto 0
      invariant 0 <= swap <= 1
      invariant AllReduced(x2, z2, x3, z3)
      invariant Same(SwapIf(swap, State(x2, z2, x3, z3)), Plain(k, Value(u), pos), P)
    {
      BitRange(k, pos);
      var bit := Bit(k, pos);
      ghost var before := State(x2, z2, x3, z3);
      swap := Flip(swap, bit);
      x2, x3 := CSwap(x2, x3, swap);
      z2, z3 := CSwap(z2, z3, swap);
      swap := bit;
      ghost var (s, t) := (State(x2, z2, x3, z3), SwapIf(bit, Plain(k, Value(u), pos + 1)));
      assert Same(s, t, P);
      x2, z2, x3, z3 := LimbStep(u, x2, z2, x3, z3);
      StepCong(Value(u), s, t, P);
      SameTrans(State(x2, z2, x3, z3), Step(Value(u), s), Step(Value(u), t), P);
    }
    x2, x3 := CSwap(x2, x3, swap);
    z2, z3 := CSwap(z2, z3, swap);
  }

  /** swap ^= bit, on single bits. */
  function Flip(swap: int, bit: int): int {
    if swap == bit then 0 else 1
  }

  lemma StartPair(u: Fe)
    ensures Same(State(ONE, ZERO, u, ONE), Pair(1, 0, Value(u), 1), P)
  {
    hide Value, Cong;
    ZeroElement();
    OneElement();
    Refl(1, P);
    Refl(0, P);
    Refl(Value(u), P);
  }

  lemma SameTrans(r: Pair, s: Pair, t: Pair, m: int)
    requires m > 0 && Same(r, s, m) && Same(s, t, m)
    ensures Same(r, t, m)
  {
    hide Cong;
    Trans(r.x2, s.x2, t.x2, m);
    Trans(r.z2, s.z2, t.z2, m);
    Trans(r.x3, s.x3, t.x3, m);
    Trans(r.z3, s.z3, t.z3, m);
  }

  // ---- Scalars, coordinates, and the whole function ----

  lemma FirstCleared(low: int, t: int)
    requires 0 <= low < 8 && 0 <= t < 32
    ensures SignedBits.And(low + 8 * t, 248) == 8 * t
  {
    hide SignedBits.And, Two;
    SmallPowers();
    SignedBits.AndFields(low, t, 31, 8, 3);
    SignedBits.AndLow(t, 32, 5);
  }

  lemma FirstIs(x: byte)
    ensures SignedBits.And(x, 248) == x - x % 8
  {
    hide SignedBits.And;
    FirstCleared(x % 8, x / 8);
  }

  /** k[0] &= 248. */
  function ClampedFirst(x: byte): (r: byte)
    ensures r == x - x % 8
  {
    FirstIs(x);
    SignedBits.And(x, 248)
  }

  lemma LastSet(low: int, t: int, u: int)
    requires 0 <= low < 64 && 0 <= t < 2
    ensures SignedBits.Or(SignedBits.And(low + 64 * (t + 2 * u), 127), 64) == low + 64
  {
    hide SignedBits.Or, SignedBits.And, Two;
    SmallPowers();
    SignedBits.OneBit(t);
    SignedBits.AndLow(low + 64 * (t + 2 * u), 128, 7);
    DivUnique(low + 64 * (t + 2 * u), 128, u, low + 64 * t);
    SignedBits.OrFields(low, t, 1, 64, 6);
  }

  lemma LastIs(x: byte)
    ensures SignedBits.Or(SignedBits.And(x, 127), 64) == x % 0x40 + 0x40
  {
    hide SignedBits.Or, SignedBits.And;
    LastSet(x % 64, x / 64 % 2, x / 64 / 2);
  }

  /** k[31] &= 127; k[31] |= 64. */
  function ClampedLast(x: byte): (r: byte)
    ensures r == x % 0x40 + 0x40
  {
    LastIs(x);
    SignedBits.Or(SignedBits.And(x, 127), 64)
  }

  /** Clears the low three bits and the top bit, sets the bit below it. */
  function Clamp(k: seq<byte>): (c: seq<byte>)
    requires |k| == 32
    ensures c == k[0 := k[0] - k[0] % 8][31 := k[31] % 0x40 + 0x40]
  {
    k[0 := ClampedFirst(k[0])][31 := ClampedLast(k[31])]
  }

  /** from_bytes here loads only three bytes into the top limb. */
  function CoordinateFromBytes(b: seq<byte>): Fe
    requires |b| == 32
  {
    FromBytes(b)[9 := Low(Shr(Loaded3(b[28], b[29], b[30]), 0x40), 0x2000000)]
  }

  /** load_3. */
  function Loaded3(x0: int, x1: int, x2: int): int {
    SignedBits.Or(SignedBits.Or(x0, x1 * 0x100), x2 * 0x10000)
  }

  lemma ThreeOfFour(x0: int, x1: int, x2: int)
    ensures Loaded3(x0, x1, x2) == Loaded4(x0, x1, x2, 0)
  {
    SignedBits.OrZero(Loaded3(x0, x1, x2));
  }

  /** So the last byte is ignored, not just its top bit. */
  lemma LastByteIgnored(b: seq<byte>)
    requires |b| == 32
    ensures CoordinateFromBytes(b) == FromBytes(b[31 := 0])
  {
    ThreeOfFour(b[28], b[29], b[30]);
  }

  /** What is loaded, as a number. */
  lemma CoordinateValue(b: seq<byte>)
    requires |b| == 32
    ensures Reduced(CoordinateFromBytes(b))
    ensures Value(CoordinateFromBytes(b)) == LittleEndian(b[31 := 0])
  {
    hide CoordinateFromBytes, FromBytes, Value, Reduced, LittleEndian;
    LastByteIgnored(b);
    FromBytesRange(b[31 := 0]);
    FromBytesParts(b[31 := 0]);
  }

  /** It agrees with the decoding of section 5 of RFC 7748, which drops only bit 255, exactly when
      the other seven bits of the last byte are clear. */
  lemma CoordinateCorrect(b: seq<byte>)
    requires |b| == 32
    ensures Value(CoordinateFromBytes(b)) == LittleEndian(b) % TWO255 <==> b[31] % 0x80 == 0
  {
    hide LittleEndian, Value, Low, Shr, Loaded3, Loaded4;
    CoordinateValue(b);
    FromBytesValue(b);
    TopLimb(b[28], b[29], b[30], b[31]);
    TopLimbWeight(FromBytes(b), CoordinateFromBytes(b)[9]);
    SameBelowTop(b);
  }

  lemma SameBelowTop(b: seq<byte>)
    requires |b| == 32
    ensures CoordinateFromBytes(b) == FromBytes(b)[9 := CoordinateFromBytes(b)[9]]
  { }

  lemma TopLimbWeight(f: Fe, x: int)
    ensures Value(f) - Value(f[9 := x]) == 0x4000000000000000000000000000000000000000000000000000000000 * (f[9] - x)
  {
  }

  /** The seven bits lost are worth 2^18 each in the top limb. */
  lemma TopLimb(x0: byte, x1: byte, x2: byte, x3: byte)
    ensures Low(Shr(Loaded4(x0, x1, x2, x3), 0x40), 0x2000000) - Low(Shr(Loaded3(x0, x1, x2), 0x40), 0x2000000)
         == 0x40000 * (x3 % 0x80)
  {
    hide Loaded3, Loaded4;
    ThreeOfFour(x0, x1, x2);
    LoadedIs(x0, x1, x2, x3);
    LoadedIs(x0, x1, x2, 0);
    Limb9(x0, x1, x2, x3);
    Limb9(x0, x1, x2, 0);
  }

  method Agree(scalar: seq<byte>, point: seq<byte>) returns (r: seq<byte>)
    requires |scalar| == 32 && |point| == 32
    ensures |r| == 32
    ensures var s := Plain(Clamp(scalar), LittleEndian(point[31 := 0]), 0);
      LittleEndian(r) < P && Cong(LittleEndian(r), s.x2 * Pow(s.z2, P - 2), P)
  {
    hide Value, Cong, Within, Reduced, Factor, LittleEndian, Plain, CoordinateFromBytes, Pow, Clamp;
    CoordinateValue(point);
    var u := CoordinateFromBytes(point);
    var x2, z2 := DeferredLadder(Clamp(scalar), u);
    Edwards.ReducedIsFactor(x2); Edwards.ReducedIsFactor(z2);
    var zi := Invert(z2);
    Edwards.ReducedIsFactor(zi);
    var q := Field25519.Mul(x2, zi);
    Edwards.ReducedIsFactor(q);
    r := ToBytes(q);
    ghost var s := Plain(Clamp(scalar), Value(u), 0);
    FinalQuotient(LittleEndian(r), Value(q), Value(x2), Value(z2), Value(zi), s.x2, s.z2, P - 2, P);
  }

  lemma FinalQuotient(r: int, q: int, x: int, z: int, zi: int, X: int, Z: int, e: nat, m: int)
    requires m > 0 && r == q % m && Cong(q, x * zi, m) && Cong(zi, Pow(z, e), m)
    requires Cong(x, X, m) && Cong(z, Z, m)
    ensures 0 <= r < m && Cong(r, X * Pow(Z, e), m)
  {
    hide Cong, Pow;
    Intro(r, q, -(q / m), m);
    PowCong(z, Z, e, m);
    Trans(zi, Pow(z, e), Pow(Z, e), m);
    Chain(q, x, zi, X, Pow(Z, e), m);
    Trans(r, q, X * Pow(Z, e), m);
  }
}
