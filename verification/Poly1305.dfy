/** The Poly1305 accumulator: five 26-bit limbs modulo 2^130 - 5, fed in any chunking. */
module Poly1305 {
  import opened Bytes
  import opened ModArith
  import opened SignedBits

  const P130: int := 0x3fffffffffffffffffffffffffffffffb
  const TWO128: int := 0x100000000000000000000000000000000

  datatype Limbs = Limbs(h0: u32, h1: u32, h2: u32, h3: u32, h4: u32)

  function Weigh(h0: int, h1: int, h2: int, h3: int, h4: int): int {
    h0 + 0x4000000 * h1 + 0x10000000000000 * h2 + 0x40000000000000000000 * h3 + 0x100000000000000000000000000 * h4
  }

  function Value(l: Limbs): int {
    Weigh(l.h0, l.h1, l.h2, l.h3, l.h4)
  }

  // ---- Loading ----

  lemma SixteenWords(s: seq<byte>)
    requires |s| == 16
    ensures LittleEndian(s) == Load4(s[0], s[1], s[2], s[3]) + 0x100000000 * Load4(s[4], s[5], s[6], s[7])
      + 0x10000000000000000 * Load4(s[8], s[9], s[10], s[11])
      + 0x1000000000000000000000000 * Load4(s[12], s[13], s[14], s[15])
  {
    FourBytes(s);
    FourBytes(s[4..]);
    assert s[4..][4..] == s[8..] && s[8..][4..] == s[12..] && s[12..][4..] == [];
    FourBytes(s[8..]);
    FourBytes(s[12..]);
  }

  /** The shift `<<` of a 32-bit word, by d = 2^k: what passes bit 31 is lost. */
  function Shl(t: int, d: int): int {
    t * d % 0x100000000
  }

  lemma ShlIs(t: int, m: int, e: int)
    requires m > 0 && e > 0 && m * e == 0x100000000
    ensures Shl(t, m) == Low(t, e) * m
  {
    var (q, r) := (t / e, t % e);
    assert t * m == 0x100000000 * q + r * m by {
      assert (e * q + r) * m == (m * e) * q + r * m;
    }
    assert 0 <= r * m;
    assert r * m <= (e - 1) * m;
    assert (e - 1) * m == m * e - m;
    DivUnique(t * m, 0x100000000, q, r * m);
  }

  lemma LowOfLow(t: int, d: int, n: int)
    requires d > 0 && n > 0 && d * n > 0
    ensures Low(Low(t, d * n), d) == Low(t, d)
  {
    var (q, r) := (t / (d * n), t % (d * n));
    assert t == d * (n * q + r / d) + r % d by {
      assert (d * n) * q == d * (n * q);
      assert d * (n * q + r / d) == d * (n * q) + d * (r / d);
    }
    DivUnique(t, d, n * q + r / d, r % d);
  }

  /** The limb made of the top of one word and the bottom d of the next, m = 2^k places up. */
  lemma JoinedWords(g: int, c: int, h: int, m: int, d: int, n: int, k: nat)
    requires 0 < c && 0 <= g < c * m && 0 < d && m * d == 0x4000000 && 0 < n && d * n > 0
    requires m * (d * n) == 0x100000000 && m == Two(k)
    ensures Low(Or(Shr(g, c), Shl(h, m)), 0x4000000) == Shr(g, c) + m * Low(h, d)
  {
    hide Shl, Low, Or, Shr;
    ShlIs(h, m, d * n);
    JoinedField(g, c, Low(h, d * n), m, d, 0x4000000, k);
    LowOfLow(h, d, n);
  }

  /** Four 32-bit words cut into five 26-bit limbs, the last one holding what is left. */
  function Split(t0: int, t1: int, t2: int, t3: int): (int, int, int, int, int) {
    (Low(t0, 0x4000000),
     Low(Or(Shr(t0, 0x4000000), Shl(t1, 0x40)), 0x4000000),
     Low(Or(Shr(t1, 0x100000), Shl(t2, 0x1000)), 0x4000000),
     Low(Or(Shr(t2, 0x4000), Shl(t3, 0x40000)), 0x4000000),
     Shr(t3, 0x100))
  }

  predicate Word(t: int) {
    0 <= t < 0x100000000
  }

  lemma SplitValue(t0: int, t1: int, t2: int, t3: int)
    requires Word(t0) && Word(t1) && Word(t2) && Word(t3)
    ensures var (l0, l1, l2, l3, l4) := Split(t0, t1, t2, t3);
      && 0 <= l0 < 0x4000000 && 0 <= l1 < 0x4000000 && 0 <= l2 < 0x4000000 && 0 <= l3 < 0x4000000 && 0 <= l4 < 0x1000000
      && Weigh(l0, l1, l2, l3, l4) == t0 + 0x100000000 * t1 + 0x10000000000000000 * t2 +
          0x1000000000000000000000000 * t3
  {
    Ranges(t0, t1, t2, t3);
    hide Low, Shr;
    Halves(t0, 0x4000000);
    JoinedWords(t0, 0x4000000, t1, 0x40, 0x100000, 0x40, 6);
    Halves(t1, 0x100000);
    JoinedWords(t1, 0x100000, t2, 0x1000, 0x4000, 0x40, 12);
    Halves(t2, 0x4000);
    JoinedWords(t2, 0x4000, t3, 0x40000, 0x100, 0x40, 18);
    Halves(t3, 0x100);
  }

  lemma Ranges(t0: int, t1: int, t2: int, t3: int)
    requires Word(t3)
    ensures var (l0, l1, l2, l3, l4) := Split(t0, t1, t2, t3);
      0 <= l0 < 0x4000000 && 0 <= l1 < 0x4000000 && 0 <= l2 < 0x4000000 && 0 <= l3 < 0x4000000 && 0 <= l4 < 0x1000000
  {
  }

  // ---- One block ----

  /** Limb bounds between blocks; h1 may exceed 26 bits by the last carry. */
  predicate Settled(h: Limbs) {
    h.h0 < 0x4000000 && h.h1 < 0x4000080 && h.h2 < 0x4000000 && h.h3 < 0x4000000 && h.h4 < 0x4000000
  }

  /** Limb bounds of the multiplier: 26 bits, and 20 in the top limb. */
  predicate Multiplier(r: Limbs) {
    r.h0 < 0x4000000 && r.h1 < 0x4000000 && r.h2 < 0x4000000 && r.h3 < 0x4000000 && r.h4 < 0x100000
  }

  lemma WeighScales(x: int, r0: int, r1: int, r2: int, r3: int, r4: int)
    ensures x * Weigh(r0, r1, r2, r3, r4) == Weigh(x * r0, x * r1, x * r2, x * r3, x * r4)
  {
  }

  lemma Distribute(h0: int, h1: int, h2: int, h3: int, h4: int, R: int)
    ensures Weigh(h0, h1, h2, h3, h4) * R == h0 * R + 0x4000000 * (h1 * R) + 0x10000000000000 * (h2 * R)
      + 0x40000000000000000000 * (h3 * R) + 0x100000000000000000000000000 * (h4 * R)
  {
  }

  lemma Fives(h: int, r: int, s: int)
    requires s == r * 5
    ensures h * s == 5 * (h * r)
  {
  }

  /** The product of two numbers, column by column, with what passes 2^130 folded back five times
      (s holds the multiplier's limbs times five). */
  lemma Columns(h0: int, h1: int, h2: int, h3: int, h4: int, r0: int, r1: int, r2: int, r3: int, r4: int,
                s1: int, s2: int, s3: int, s4: int)
    requires s1 == r1 * 5 && s2 == r2 * 5 && s3 == r3 * 5 && s4 == r4 * 5
    ensures Cong(Weigh(h0 * r0 + h1 * s4 + h2 * s3 + h3 * s2 + h4 * s1,
                       h0 * r1 + h1 * r0 + h2 * s4 + h3 * s3 + h4 * s2,
                       h0 * r2 + h1 * r1 + h2 * r0 + h3 * s4 + h4 * s3,
                       h0 * r3 + h1 * r2 + h2 * r1 + h3 * r0 + h4 * s4,
                       h0 * r4 + h1 * r3 + h2 * r2 + h3 * r1 + h4 * r0),
                 Weigh(h0, h1, h2, h3, h4) * Weigh(r0, r1, r2, r3, r4), P130)
  {
    hide Weigh, Cong;
    Distribute(h0, h1, h2, h3, h4, Weigh(r0, r1, r2, r3, r4));
    WeighScales(h0, r0, r1, r2, r3, r4);
    WeighScales(h1, r0, r1, r2, r3, r4);
    WeighScales(h2, r0, r1, r2, r3, r4);
    WeighScales(h3, r0, r1, r2, r3, r4);
    WeighScales(h4, r0, r1, r2, r3, r4);
    Fives(h1, r4, s4); Fives(h2, r3, s3); Fives(h3, r2, s2); Fives(h4, r1, s1);
    Fives(h2, r4, s4); Fives(h3, r3, s3); Fives(h4, r2, s2);
    Fives(h3, r4, s4); Fives(h4, r3, s3);
    Fives(h4, r4, s4);
    Folded(h0 * r0, h0 * r1, h0 * r2, h0 * r3, h0 * r4, h1 * r0, h1 * r1, h1 * r2, h1 * r3, h1 * r4,
           h2 * r0, h2 * r1, h2 * r2, h2 * r3, h2 * r4, h3 * r0, h3 * r1, h3 * r2, h3 * r3, h3 * r4,
           h4 * r0, h4 * r1, h4 * r2, h4 * r3, h4 * r4);
  }

  lemma Folded(m00: int, m01: int, m02: int, m03: int, m04: int, m10: int, m11: int, m12: int, m13: int, m14: int,
      m20: int, m21: int, m22: int, m23: int, m24: int,
               m30: int, m31: int, m32: int, m33: int, m34: int, m40: int, m41: int, m42: int, m43: int, m44: int)
    ensures Cong(Weigh(m00 + 5 * m14 + 5 * m23 + 5 * m32 + 5 * m41,
                       m01 + m10 + 5 * m24 + 5 * m33 + 5 * m42,
                       m02 + m11 + m20 + 5 * m34 + 5 * m43,
                       m03 + m12 + m21 + m30 + 5 * m44,
                       m04 + m13 + m22 + m31 + m40),
                 Weigh(m00, m01, m02, m03, m04) + 0x4000000 * Weigh(m10, m11, m12, m13, m14)
                 + 0x10000000000000 * Weigh(m20, m21, m22, m23, m24)
                 + 0x40000000000000000000 * Weigh(m30, m31, m32, m33, m34)
                 + 0x100000000000000000000000000 * Weigh(m40, m41, m42, m43, m44), P130)
  {
    var k := m14 + m23 + 0x4000000 * m24 + m32 + 0x4000000 * m33 + 0x10000000000000 * m34 + m41 + 0x4000000 * m42 +
        0x10000000000000 * m43 + 0x40000000000000000000 * m44;
    Intro(Weigh(m00 + 5 * m14 + 5 * m23 + 5 * m32 + 5 * m41,
                m01 + m10 + 5 * m24 + 5 * m33 + 5 * m42,
                m02 + m11 + m20 + 5 * m34 + 5 * m43,
                m03 + m12 + m21 + m30 + 5 * m44,
                m04 + m13 + m22 + m31 + m40),
          Weigh(m00, m01, m02, m03, m04) + 0x4000000 * Weigh(m10, m11, m12, m13, m14)
          + 0x10000000000000 * Weigh(m20, m21, m22, m23, m24)
          + 0x40000000000000000000 * Weigh(m30, m31, m32, m33, m34)
          + 0x100000000000000000000000000 * Weigh(m40, m41, m42, m43, m44), -k, P130);
  }

  /** Limbs a block has just been added to. */
  predicate Loaded(h: Limbs) {
    h.h0 < 0x8000000 && h.h1 < 0x8000080 && h.h2 < 0x8000000 && h.h3 < 0x8000000 && h.h4 < 0x6000000
  }

  lemma ProductBound(x: int, y: int, a: int, b: int)
    requires 0 <= x <= a && 0 <= y <= b
    ensures 0 <= x * y <= a * b
  {
  }

  /** Every product of a limb and a multiplier limb, plain or times five. */
  lemma Products(x: int, r: int, s: int)
    requires 0 <= x <= 0x8000080 && 0 <= r < 0x4000000 && s == r * 5
    ensures 0 <= x * r <= 0x20000200000000 && 0 <= x * s <= 0xa0000a00000000
  {
    ProductBound(x, r, 0x8000080, 0x4000000);
    ProductBound(x, s, 0x8000080, 0x14000000);
  }

  /** d0 to d4 of process_block; d4 carries no factor of five, and its first product is short. */
  method Convolve(h: Limbs, r: Limbs) returns (d0: u64, d1: u64, d2: u64, d3: u64, d4: u64)
    requires Loaded(h) && Multiplier(r)
    ensures Cong(Weigh(d0, d1, d2, d3, d4), Value(h) * Value(r), P130)
    ensures d0 <= 0x400000000000000 && d1 <= 0x400000000000000 && d2 <= 0x400000000000000 && d3 <= 0x400000000000000
    ensures d4 <= 0x7a800000000000
  {
    var r0: u64, r1: u64, r2: u64, r3: u64, r4: u64 := r.h0, r.h1, r.h2, r.h3, r.h4;
    var s1: u64, s2: u64, s3: u64, s4: u64 := r1 * 5, r2 * 5, r3 * 5, r4 * 5;
    var h0: u64, h1: u64, h2: u64, h3: u64, h4: u64 := h.h0, h.h1, h.h2, h.h3, h.h4;
    Products(h0, r0, r0 * 5); Products(h0, r1, s1); Products(h0, r2, s2); Products(h0, r3, s3);
    Products(h1, r0, r0 * 5); Products(h1, r1, s1); Products(h1, r2, s2); Products(h1, r3, s3); Products(h1, r4, s4);
    Products(h2, r0, r0 * 5); Products(h2, r1, s1); Products(h2, r2, s2); Products(h2, r3, s3); Products(h2, r4, s4);
    Products(h3, r0, r0 * 5); Products(h3, r1, s1); Products(h3, r2, s2); Products(h3, r3, s3); Products(h3, r4, s4);
    ProductBound(h4, r0, 0x6000000, 0x4000000); Products(h4, r1, s1); Products(h4, r2, s2); Products(h4, r3, s3);
    Products(h4, r4, s4);
    ProductBound(h0, r4, 0x8000000, 0x100000);
    d0 := h0 * r0 + h1 * s4 + h2 * s3 + h3 * s2 + h4 * s1;
    d1 := h0 * r1 + h1 * r0 + h2 * s4 + h3 * s3 + h4 * s2;
    d2 := h0 * r2 + h1 * r1 + h2 * r0 + h3 * s4 + h4 * s3;
    d3 := h0 * r3 + h1 * r2 + h2 * r1 + h3 * r0 + h4 * s4;
    d4 := h0 * r4 + h1 * r3 + h2 * r2 + h3 * r1 + h4 * r0;
    Columns(h0, h1, h2, h3, h4, r0, r1, r2, r3, r4, s1, s2, s3, s4);
  }

  /** The carry pass at the end of process_block. */
  method Carry(d0: u64, d1: u64, d2: u64, d3: u64, d4: u64) returns (h: Limbs)
    requires d0 <= 0x400000000000000 && d1 <= 0x400000000000000 && d2 <= 0x400000000000000 && d3 <= 0x400000000000000
    requires d4 <= 0x7a800000000000
    ensures Settled(h) && Cong(Value(h), Weigh(d0, d1, d2, d3, d4), P130)
  {
    var c: u64 := d0 / 0x4000000;
    var h0: u32 := d0 % 0x4000000;
    var e1: u64 := d1 + c;
    c := e1 / 0x4000000;
    var h1: u32 := e1 % 0x4000000;
    var e2: u64 := d2 + c;
    c := e2 / 0x4000000;
    var h2: u32 := e2 % 0x4000000;
    var e3: u64 := d3 + c;
    c := e3 / 0x4000000;
    var h3: u32 := e3 % 0x4000000;
    var e4: u64 := d4 + c;
    c := e4 / 0x4000000;
    var h4: u32 := e4 % 0x4000000;
    ghost var top: int := c;
    var five: u32 := c * 5;
    h0 := h0 + five;
    c := h0 / 0x4000000;
    h0 := h0 % 0x4000000;
    h1 := h1 + c;
    h := Limbs(h0, h1, h2, h3, h4);
    Intro(Value(h), Weigh(d0, d1, d2, d3, d4), -top, P130);
  }

  // ---- The running accumulator ----

  /** The accumulation of section 2.5.1 of RFC 8439: 16-byte blocks, the last one possibly shorter,
      each with a 1 byte put after it. */
  function Accumulate(r: int, m: seq<byte>): int {
    if m == [] then 0
    else
      var k := (|m| - 1) / 16 * 16;
      (Accumulate(r, m[..k]) + LittleEndian(m[k..] + [1])) * r
  }

  lemma AppendBlock(r: int, m: seq<byte>, b: seq<byte>)
    requires |m| % 16 == 0 && 1 <= |b| <= 16
    ensures Accumulate(r, m + b) == (Accumulate(r, m) + LittleEndian(b + [1])) * r
  {
    assert (|m + b| - 1) / 16 * 16 == |m|;
    assert (m + b)[..|m|] == m && (m + b)[|m|..] == b;
  }

  /** A full block's 1 byte is the bit 2^128. */
  lemma FullBlock(b: seq<byte>)
    requires |b| == 16
    ensures LittleEndian(b + [1]) == LittleEndian(b) + TWO128
  {
    Concat16(b, [1]);
    assert LittleEndian([1]) == 1 + 256 * LittleEndian([]);
  }

  lemma AccumulateStep(h': int, h: int, a: int, b: int, r: int, m: int)
    requires m > 0 && Cong(h', (h + b) * r, m) && Cong(h, a, m)
    ensures Cong(h', (a + b) * r, m)
  {
    hide Cong;
    Refl(b, m);
    Refl(r, m);
    ModArith.Add(h, a, b, b, m);
    ModArith.Mul(h + b, a + b, r, r, m);
    Trans(h', (h + b) * r, (a + b) * r, m);
  }

  method LoadKey(key: seq<byte>) returns (r: Limbs)
    requires |key| == 32
    ensures Multiplier(r) && Value(r) == LoadedKey(key)
  {
    KeyWords(key);
    hide Split, Masked, Load4, MaskedWords, LoadedKey;
    MaskedRange(key[0], key[1], key[2], key[3]);
    MaskedRange(key[4], key[5], key[6], key[7]);
    MaskedRange(key[8], key[9], key[10], key[11]);
    MaskedRange(key[12], key[13], key[14], key[15]);
    var t0: u32 := Masked(Load4(key[0], key[1], key[2], key[3]));
    var t1: u32 := Masked(Load4(key[4], key[5], key[6], key[7]));
    var t2: u32 := Masked(Load4(key[8], key[9], key[10], key[11]));
    var t3: u32 := Masked(Load4(key[12], key[13], key[14], key[15]));
    SplitValue(t0, t1, t2, t3);
    TopMultiplier(t0, t1, t2, t3);
    var (l0, l1, l2, l3, l4) := Split(t0, t1, t2, t3);
    r := Limbs(l0, l1, l2, l3, l4);
  }

  lemma MaskedRange(x0: byte, x1: byte, x2: byte, x3: byte)
    ensures 0 <= Masked(Load4(x0, x1, x2, x3)) < 0x10000000
  {
  }

  lemma ZeroValue(r: int)
    ensures Settled(Limbs(0, 0, 0, 0, 0)) && Cong(Value(Limbs(0, 0, 0, 0, 0)), Accumulate(r, []), P130)
  {
    hide Cong;
    Refl(0, P130);
  }

  class Accumulator {
    var r: Limbs
    var h: Limbs
    var buffer: array<byte>
    var bufferLen: nat
    ghost var stream: seq<byte>  // everything fed in so far

    /** The object has taken in exactly s: whole blocks accumulated, the rest buffered. */
    ghost predicate Holds(s: seq<byte>)
      reads this, buffer
    {
      && buffer.Length == 16 && bufferLen < 16 && bufferLen <= |s|
      && Multiplier(r) && Settled(h)
      && (|s| - bufferLen) % 16 == 0
      && s[|s| - bufferLen..] == buffer[..bufferLen]
      && Cong(Value(h), Accumulate(Value(r), s[..|s| - bufferLen]), P130)
    }

    ghost predicate Valid()
      reads this, buffer
    {
      Holds(stream)
    }

    method ProcessBlock(block: seq<byte>, finalBlock: bool)
      requires |block| == 16 && Multiplier(r) && Settled(h)
      modifies this`h
      ensures Settled(h)
      ensures Cong(Value(h),
                   (old(Value(h)) + (LittleEndian(block) + if finalBlock then 0 else TWO128)) * Value(r), P130)
    {
      hide Value, Weigh, Cong, Split, Or, Low, Shr, Multiplier, LittleEndian;
      SixteenWords(block);
      var t0: u32 := Load4(block[0], block[1], block[2], block[3]);
      var t1: u32 := Load4(block[4], block[5], block[6], block[7]);
      var t2: u32 := Load4(block[8], block[9], block[10], block[11]);
      var t3: u32 := Load4(block[12], block[13], block[14], block[15]);
      var hibit := if finalBlock then 0 else 0x1000000;
      SplitValue(t0, t1, t2, t3);
      var (l0, l1, l2, l3, l4) := Split(t0, t1, t2, t3);
      HighBit(l4, finalBlock);
      ghost var before := h;
      h := Limbs(h.h0 + l0, h.h1 + l1, h.h2 + l2, h.h3 + l3, h.h4 + Or(l4, hibit));
      AddedValue(before, l0, l1, l2, l3, l4, hibit);
      var d0, d1, d2, d3, d4 := Convolve(h, r);
      ghost var loaded := h;
      assert Value(loaded) == Value(before) + (LittleEndian(block) + if finalBlock then 0 else TWO128);
      h := Carry(d0, d1, d2, d3, d4);
      Trans(Value(h), Weigh(d0, d1, d2, d3, d4), Value(loaded) * Value(r), P130);
    }

    constructor (key: seq<byte>)
      requires |key| == 32
      ensures Valid() && stream == [] && fresh(buffer)
      ensures Value(r) == LoadedKey(key)
    {
      hide Value, LoadedKey, Cong, Settled, Multiplier, Accumulate, LittleEndian, Weigh, Load4, Masked, Split, Low;
      var loaded := LoadKey(key);
      r := loaded;
      h := Limbs(0, 0, 0, 0, 0);
      buffer := new byte[16](i => 0);
      bufferLen := 0;
      stream := [];
      new;
      ZeroValue(Value(r));
      assert |stream| - bufferLen == 0;
      assert stream[..0] == [] && stream[0..] == buffer[..0] == [];
    }

    /** One full block of the stream absorbed: what ProcessBlock does to the accumulated prefix. */
    method Absorb(block: seq<byte>, ghost done: seq<byte>)
      requires |block| == 16 && Multiplier(r) && Settled(h) && |done| % 16 == 0
      requires Cong(Value(h), Accumulate(Value(r), done), P130)
      modifies this`h
      ensures Settled(h) && Cong(Value(h), Accumulate(Value(r), done + block), P130)
    {
      hide Value, Cong, Accumulate, LittleEndian, Settled, Multiplier;
      ghost var (h0, a) := (Value(h), Accumulate(Value(r), done));
      ProcessBlock(block, false);
      AccumulateStep(Value(h), h0, a, LittleEndian(block) + TWO128, Value(r), P130);
      FullBlock(block);
      AppendBlock(Value(r), done, block);
    }

    /** The loop of update: full blocks straight from the data. */
    method AbsorbBlocks(data: seq<byte>, start: nat, ghost before: seq<byte>) returns (offset: nat)
      requires start <= |data| && Multiplier(r) && Settled(h) && (|before| + start) % 16 == 0
      requires Cong(Value(h), Accumulate(Value(r), before + data[..start]), P130)
      modifies this`h
      ensures start <= offset <= |data| < offset + 16 && Settled(h) && (|before| + offset) % 16 == 0
      ensures Cong(Value(h), Accumulate(Value(r), before + data[..offset]), P130)
    {
      hide Value, Cong, Accumulate, Settled, Multiplier;
      offset := start;
      while offset + 16 <= |data|
        invariant start <= offset <= |data| && Settled(h) && (|before| + offset) % 16 == 0
        invariant Cong(Value(h), Accumulate(Value(r), before + data[..offset]), P130)
      {
        assert before + data[..offset] + data[offset..offset + 16] == before + data[..offset + 16];
        Absorb(data[offset..offset + 16], before + data[..offset]);
        offset := offset + 16;
      }
    }

    /** A block already begun is completed from the data and accumulated. */
    method CompleteBlock(chunk: seq<byte>, ghost before: seq<byte>)
      requires Holds(before) && |chunk| == 16 - bufferLen
      modifies this`h, this`bufferLen, buffer
      ensures Holds(before + chunk) && bufferLen == 0
    {
      hide Value, Cong, Accumulate, Settled, Multiplier;
      ghost var done := before[..|before| - bufferLen];
      ghost var tail := buffer[..bufferLen];
      assert before == done + tail;
      CopyInto(buffer, bufferLen, chunk);
      var block := buffer[..];
      assert done + block == before + chunk;
      Absorb(block, done);
      bufferLen := 0;
      ghost var s := before + chunk;
      assert s[..|s|] == s;
    }

    /** Data too short to complete the block is only buffered. */
    method Stash(chunk: seq<byte>, ghost before: seq<byte>)
      requires Holds(before) && bufferLen + |chunk| < 16
      modifies this`bufferLen, buffer
      ensures Holds(before + chunk) && bufferLen == old(bufferLen) + |chunk|
    {
      hide Value, Cong, Accumulate, Settled, Multiplier;
      ghost var done := before[..|before| - bufferLen];
      CopyInto(buffer, bufferLen, chunk);
      bufferLen := bufferLen + |chunk|;
      assert (before + chunk)[..|done|] == done;
    }

    method Update(data: seq<byte>)
      requires Valid()
      modifies this`h, this`bufferLen, this`stream, buffer
      ensures Valid() && stream == old(stream) + data
    {
      hide Value, Cong, Accumulate, Settled, Multiplier;
      ghost var before := stream;
      stream := before + data;
      var offset := 0;
      if bufferLen > 0 {
        var needed := 16 - bufferLen;
        if |data| >= needed {
          CompleteBlock(data[..needed], before);
          offset := needed;
        } else {
          Stash(data, before);
          return;
        }
      }
      ghost var begun := before + data[..offset];
      assert Holds(begun) by { assert offset == 0 ==> begun == before; }
      assert begun[..|begun|] == begun;
      offset := AbsorbBlocks(data, offset, before);
      begun := before + data[..offset];
      assert begun[..|begun|] == begun;
      assert begun + data[offset..] == stream;
      if offset < |data| {
        Stash(data[offset..], begun);
      }
    }

    /** The opening part of finalize: the bytes still buffered become a padded last block. */
    method FinishBlocks()
      requires Valid()
      modifies this`h, buffer
      ensures Settled(h) && Cong(Value(h), Accumulate(Value(r), stream), P130)
    {
      hide Value, Cong, Accumulate, LittleEndian, Settled, Multiplier;
      ghost var done := stream[..|stream| - bufferLen];
      ghost var tail := buffer[..bufferLen];
      assert stream == done + tail;
      if bufferLen > 0 {
        buffer[bufferLen] := 1;
        for i := bufferLen + 1 to 16
          modifies buffer
          invariant buffer[..bufferLen] == tail && buffer[bufferLen] == 1
          invariant forall k :: bufferLen < k < i ==> buffer[k] == 0
        {
          buffer[i] := 0;
        }
        var block := buffer[..];
        ghost var (h0, a) := (Value(h), Accumulate(Value(r), done));
        ProcessBlock(block, true);
        assert block == tail + [1] + block[bufferLen + 1..];
        ZeroTail(tail + [1], block[bufferLen + 1..]);
        AccumulateStep(Value(h), h0, a, LittleEndian(block), Value(r), P130);
        AppendBlock(Value(r), done, tail);
      } else {
        assert done == stream;
      }
    }
  }

  // ---- The key ----

  /** The mask 0x0ffffffc: bits 0, 1 and 28 to 31 cleared. */
  function Masked(t: int): int {
    Low(t, 0x10000000) - Low(t, 4)
  }

  /** Four words of four bytes each, all masked alike. */
  function MaskedWords(s: seq<byte>): int {
    if |s| < 4 then 0 else Masked(LittleEndian(s[..4])) + 0x100000000 * MaskedWords(s[4..])
  }

  function LoadedKey(key: seq<byte>): int
    requires |key| == 32
  {
    MaskedWords(key[..16])
  }

  /** The clamped r of section 2.5 of RFC 8439, which keeps bits 0 and 1 of the first word. */
  function ClampedKey(key: seq<byte>): int
    requires |key| == 32
  {
    Low(LittleEndian(key[..4]), 0x10000000) + 0x100000000 * MaskedWords(key[4..16])
  }

  /** The r in use is the standard's exactly for keys whose first byte has its low two bits clear. */
  lemma KeyCorrect(key: seq<byte>)
    requires |key| == 32
    ensures LoadedKey(key) == ClampedKey(key) <==> key[0] % 4 == 0
  {
    assert key[..16][..4] == key[..4] && key[..16][4..] == key[4..16];
    FourBytes(key[..4]);
    FirstByte(key[0], key[1], key[2], key[3]);
    hide LittleEndian;
  }

  /** The four words the key is loaded as. */
  lemma KeyWords(key: seq<byte>)
    requires |key| == 32
    ensures LoadedKey(key) == Masked(Load4(key[0], key[1], key[2], key[3]))
      + 0x100000000 * Masked(Load4(key[4], key[5], key[6], key[7]))
      + 0x10000000000000000 * Masked(Load4(key[8], key[9], key[10], key[11]))
      + 0x1000000000000000000000000 * Masked(Load4(key[12], key[13], key[14], key[15]))
  {
    hide Masked, Load4, LittleEndian;
    NextWord(key[..16]);
    assert key[..16][4..] == key[4..16] && key[4..16][4..] == key[8..16] && key[8..16][4..] == key[12..16];
    NextWord(key[4..16]);
    NextWord(key[8..16]);
    NextWord(key[12..16]);
  }

  lemma NextWord(s: seq<byte>)
    requires |s| >= 4
    ensures MaskedWords(s) == Masked(Load4(s[0], s[1], s[2], s[3])) + 0x100000000 * MaskedWords(s[4..])
  {
    hide Masked;
    assert MaskedWords(s) == Masked(LittleEndian(s[..4])) + 0x100000000 * MaskedWords(s[4..]);
    FourBytes(s[..4]);
    assert LittleEndian(s[..4][4..]) == 0;
  }

  lemma FirstByte(x0: int, x1: int, x2: int, x3: int)
    ensures Low(Load4(x0, x1, x2, x3), 4) == x0 % 4
  {
    DivUnique(Load4(x0, x1, x2, x3), 4, x0 / 4 + 0x40 * x1 + 0x4000 * x2 + 0x400000 * x3, x0 % 4);
  }

  lemma TopMultiplier(t0: int, t1: int, t2: int, t3: int)
    requires 0 <= t3 < 0x10000000
    ensures Split(t0, t1, t2, t3).4 < 0x100000
  {
  }

  lemma HighBit(l4: int, finalBlock: bool)
    requires 0 <= l4 < 0x1000000
    ensures var hibit := if finalBlock then 0 else 0x1000000; Or(l4, hibit) == l4 + hibit
  {
    BytePowers();
    hide Or, Two;
    OrIsSum(l4, if finalBlock then 0 else 1, 0x1000000, 24);
  }

  lemma AddedValue(h: Limbs, l0: int, l1: int, l2: int, l3: int, l4: int, hibit: int)
    requires Settled(h) && 0 <= l0 < 0x4000000 && 0 <= l1 < 0x4000000 && 0 <= l2 < 0x4000000 && 0 <= l3 < 0x4000000
    requires 0 <= l4 < 0x1000000 && 0 <= hibit <= 0x1000000
    ensures var h' := Limbs(h.h0 + l0, h.h1 + l1, h.h2 + l2, h.h3 + l3, h.h4 + (l4 + hibit));
      Loaded(h') && Value(h') == Value(h) + (Weigh(l0, l1, l2, l3, l4) + 0x100000000000000000000000000 * hibit)
  {
  }
}
