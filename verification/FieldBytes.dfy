/** Serialisation of field elements: 32 little-endian bytes, canonical on the way out. */
module FieldBytes {
  import opened Bytes
  import opened ModArith
  import opened SignedBits
  import opened Field25519

  lemma Sixteen(s: seq<byte>)
    requires |s| == 16
    ensures LittleEndian(s) == s[0] as int + 0x100 * s[1] as int + 0x10000 * s[2] as int + 0x1000000 * s[3] as int +
        0x100000000 * s[4] as int + 0x10000000000 * s[5] as int + 0x1000000000000 * s[6] as int +
        0x100000000000000 * s[7] as int + 0x10000000000000000 * s[8] as int + 0x1000000000000000000 * s[9] as int +
        0x100000000000000000000 * s[10] as int + 0x10000000000000000000000 * s[11] as int +
        0x1000000000000000000000000 * s[12] as int + 0x100000000000000000000000000 * s[13] as int +
        0x10000000000000000000000000000 * s[14] as int + 0x1000000000000000000000000000000 * s[15] as int
  {
    FourBytes(s);
    FourBytes(s[4..]);
    assert s[4..][4..] == s[8..] && s[8..][4..] == s[12..] && s[12..][4..] == [];
    FourBytes(s[8..]);
    FourBytes(s[12..]);
  }

  lemma Edges(h: int, g: int)
    requires 0 <= g < 0x4000000
    ensures Low(h, 0x100) == Octet(h)
    ensures Octet(Shr(g, 0x40000)) == Shr(g, 0x40000)
  {
  }

  /** A limb cut into the bits it leaves in a shared byte, two whole bytes, and the rest. */
  lemma Split(h: int, d: int)
    requires d > 0 && 0 <= h
    ensures h == Low(h, d) + d * Octet(Shr(h, d)) + d * 0x100 * Octet(Shr(h, d * 0x100)) +
        d * 0x10000 * Shr(h, d * 0x10000)
  {
    DivDiv(h, d, 0x100);
    DivDiv(h, d * 0x100, 0x100);
    var a, b := h / d, h / (d * 0x100);
    var c := b / 0x100;
    assert d * a == d * 0x100 * b + d * (a % 0x100);
    assert d * 0x100 * b == d * 0x10000 * c + d * 0x100 * (b % 0x100);
    assert d * 0x100 * 0x100 == d * 0x10000;
  }

  /** A byte shared by two limbs: the top of one below the bottom of the next. */
  function SharedByte(g: int, c: int, h: int, m: int): byte
    requires c > 0
  {
    Octet(Or(Shr(g, c), h * m))
  }

  lemma Share(g: int, c: int, h: int, m: int, d: int, k: nat)
    requires 0 < c && 0 <= g < c * m && 0 < d && m * d == 0x100 && m == Two(k)
    ensures SharedByte(g, c, h, m) == Shr(g, c) + m * Low(h, d)
  {
    JoinedField(g, c, h, m, d, 0x100, k);
  }

  function PackLow(h0: int, h1: int, h2: int, h3: int, h4: int): (s: seq<byte>)
    ensures |s| == 16
  {
    [Octet(h0), Octet(Shr(h0, 0x100)), Octet(Shr(h0, 0x10000)), SharedByte(h0, 0x1000000, h1, 0x4),
     Octet(Shr(h1, 0x40)), Octet(Shr(h1, 0x4000)), SharedByte(h1, 0x400000, h2, 0x8), Octet(Shr(h2, 0x20)),
     Octet(Shr(h2, 0x2000)), SharedByte(h2, 0x200000, h3, 0x20), Octet(Shr(h3, 0x8)), Octet(Shr(h3, 0x800)),
     SharedByte(h3, 0x80000, h4, 0x40), Octet(Shr(h4, 0x4)), Octet(Shr(h4, 0x400)), Octet(Shr(h4, 0x40000))]
  }

  /** The bytes of five limbs add up, given how each limb is cut and which bytes are shared. */
  lemma LowBytesAdd(h0: int, l0: int, b0: int, c0: int, t0: int, h1: int, l1: int, b1: int, c1: int, t1: int,
                    h2: int, l2: int, b2: int, c2: int, t2: int, h3: int, l3: int, b3: int, c3: int, t3: int,
                    h4: int, l4: int, b4: int, c4: int, t4: int, s0: int, s1: int, s2: int, s3: int)
    requires h0 == l0 + 0x100 * b0 + 0x10000 * c0 + 0x1000000 * t0
    requires h1 == l1 + 0x40 * b1 + 0x4000 * c1 + 0x400000 * t1
    requires h2 == l2 + 0x20 * b2 + 0x2000 * c2 + 0x200000 * t2
    requires h3 == l3 + 0x8 * b3 + 0x800 * c3 + 0x80000 * t3
    requires h4 == l4 + 0x4 * b4 + 0x400 * c4 + 0x40000 * t4
    requires s0 == t0 + 0x4 * l1
    requires s1 == t1 + 0x8 * l2
    requires s2 == t2 + 0x20 * l3
    requires s3 == t3 + 0x40 * l4
    ensures l0 + 0x100 * b0 + 0x10000 * c0 + 0x1000000 * s0 + 0x100000000 * b1 + 0x10000000000 * c1 +
        0x1000000000000 * s1 + 0x100000000000000 * b2 + 0x10000000000000000 * c2 + 0x1000000000000000000 * s2 +
        0x100000000000000000000 * b3 + 0x10000000000000000000000 * c3 + 0x1000000000000000000000000 * s3 +
        0x100000000000000000000000000 * b4 + 0x10000000000000000000000000000 * c4 +
        0x1000000000000000000000000000000 * t4
         == h0 + 0x4000000 * h1 + 0x8000000000000 * h2 + 0x20000000000000000000 * h3 + 0x40000000000000000000000000 * h4
  {
  }

  lemma PackLowSum(h0: int, h1: int, h2: int, h3: int, h4: int)
    requires 0 <= h0 < 0x4000000 && 0 <= h1 < 0x2000000 && 0 <= h2 < 0x4000000 && 0 <= h3 < 0x2000000 &&
        0 <= h4 < 0x4000000
    ensures Octet(h0) + 0x100 * Octet(Shr(h0, 0x100)) + 0x10000 * Octet(Shr(h0, 0x10000)) +
        0x1000000 * SharedByte(h0, 0x1000000, h1, 0x4) + 0x100000000 * Octet(Shr(h1, 0x40)) +
        0x10000000000 * Octet(Shr(h1, 0x4000)) + 0x1000000000000 * SharedByte(h1, 0x400000, h2, 0x8) +
        0x100000000000000 * Octet(Shr(h2, 0x20)) + 0x10000000000000000 * Octet(Shr(h2, 0x2000)) +
        0x1000000000000000000 * SharedByte(h2, 0x200000, h3, 0x20) +
        0x100000000000000000000 * Octet(Shr(h3, 0x8)) + 0x10000000000000000000000 * Octet(Shr(h3, 0x800)) +
        0x1000000000000000000000000 * SharedByte(h3, 0x80000, h4, 0x40) +
        0x100000000000000000000000000 * Octet(Shr(h4, 0x4)) +
        0x10000000000000000000000000000 * Octet(Shr(h4, 0x400)) +
        0x1000000000000000000000000000000 * Octet(Shr(h4, 0x40000))
         == h0 + 0x4000000 * h1 + 0x8000000000000 * h2 + 0x20000000000000000000 * h3 + 0x40000000000000000000000000 * h4
  {
    hide Octet, Shr, Low, SharedByte;
    Edges(h0, h4);
    Split(h0, 0x100);
    Split(h1, 0x40);
    Split(h2, 0x20);
    Split(h3, 0x8);
    Split(h4, 0x4);
    Share(h0, 0x1000000, h1, 0x4, 0x40, 2);
    Share(h1, 0x400000, h2, 0x8, 0x20, 3);
    Share(h2, 0x200000, h3, 0x20, 0x8, 5);
    Share(h3, 0x80000, h4, 0x40, 0x4, 6);
    LowBytesAdd(h0, Low(h0, 0x100), Octet(Shr(h0, 0x100)), Octet(Shr(h0, 0x10000)), Shr(h0, 0x1000000),
                h1, Low(h1, 0x40), Octet(Shr(h1, 0x40)), Octet(Shr(h1, 0x4000)), Shr(h1, 0x400000),
                h2, Low(h2, 0x20), Octet(Shr(h2, 0x20)), Octet(Shr(h2, 0x2000)), Shr(h2, 0x200000),
                h3, Low(h3, 0x8), Octet(Shr(h3, 0x8)), Octet(Shr(h3, 0x800)), Shr(h3, 0x80000),
                h4, Low(h4, 0x4), Octet(Shr(h4, 0x4)), Octet(Shr(h4, 0x400)), Shr(h4, 0x40000),
                SharedByte(h0, 0x1000000, h1, 0x4), SharedByte(h1, 0x400000, h2, 0x8),
                    SharedByte(h2, 0x200000, h3, 0x20), SharedByte(h3, 0x80000, h4, 0x40));
  }

  lemma PackLowValue(h0: int, h1: int, h2: int, h3: int, h4: int)
    requires 0 <= h0 < 0x4000000 && 0 <= h1 < 0x2000000 && 0 <= h2 < 0x4000000 && 0 <= h3 < 0x2000000 &&
        0 <= h4 < 0x4000000
    ensures LittleEndian(PackLow(h0, h1, h2, h3, h4)) == h0 + 0x4000000 * h1 + 0x8000000000000 * h2 +
        0x20000000000000000000 * h3 + 0x40000000000000000000000000 * h4
  {
    hide Octet, Shr, SharedByte;
    Sixteen(PackLow(h0, h1, h2, h3, h4));
    PackLowSum(h0, h1, h2, h3, h4);
  }

  function PackHigh(h5: int, h6: int, h7: int, h8: int, h9: int): (s: seq<byte>)
    ensures |s| == 16
  {
    [Octet(h5), Octet(Shr(h5, 0x100)), Octet(Shr(h5, 0x10000)), SharedByte(h5, 0x1000000, h6, 0x2),
     Octet(Shr(h6, 0x80)), Octet(Shr(h6, 0x8000)), SharedByte(h6, 0x800000, h7, 0x8), Octet(Shr(h7, 0x20)),
     Octet(Shr(h7, 0x2000)), SharedByte(h7, 0x200000, h8, 0x10), Octet(Shr(h8, 0x10)), Octet(Shr(h8, 0x1000)),
     SharedByte(h8, 0x100000, h9, 0x40), Octet(Shr(h9, 0x4)), Octet(Shr(h9, 0x400)), Octet(Shr(h9, 0x40000))]
  }

  lemma HighBytesAdd(h5: int, l0: int, b0: int, c0: int, t0: int, h6: int, l1: int, b1: int, c1: int, t1: int,
                     h7: int, l2: int, b2: int, c2: int, t2: int, h8: int, l3: int, b3: int, c3: int, t3: int,
                     h9: int, l4: int, b4: int, c4: int, t4: int, s0: int, s1: int, s2: int, s3: int)
    requires h5 == l0 + 0x100 * b0 + 0x10000 * c0 + 0x1000000 * t0
    requires h6 == l1 + 0x80 * b1 + 0x8000 * c1 + 0x800000 * t1
    requires h7 == l2 + 0x20 * b2 + 0x2000 * c2 + 0x200000 * t2
    requires h8 == l3 + 0x10 * b3 + 0x1000 * c3 + 0x100000 * t3
    requires h9 == l4 + 0x4 * b4 + 0x400 * c4 + 0x40000 * t4
    requires s0 == t0 + 0x2 * l1
    requires s1 == t1 + 0x8 * l2
    requires s2 == t2 + 0x10 * l3
    requires s3 == t3 + 0x40 * l4
    ensures l0 + 0x100 * b0 + 0x10000 * c0 + 0x1000000 * s0 + 0x100000000 * b1 + 0x10000000000 * c1 +
        0x1000000000000 * s1 + 0x100000000000000 * b2 + 0x10000000000000000 * c2 + 0x1000000000000000000 * s2 +
        0x100000000000000000000 * b3 + 0x10000000000000000000000 * c3 + 0x1000000000000000000000000 * s3 +
        0x100000000000000000000000000 * b4 + 0x10000000000000000000000000000 * c4 +
        0x1000000000000000000000000000000 * t4
         == h5 + 0x2000000 * h6 + 0x8000000000000 * h7 + 0x10000000000000000000 * h8 + 0x40000000000000000000000000 * h9
  {
  }

  lemma PackHighSum(h5: int, h6: int, h7: int, h8: int, h9: int)
    requires 0 <= h5 < 0x2000000 && 0 <= h6 < 0x4000000 && 0 <= h7 < 0x2000000 && 0 <= h8 < 0x4000000 &&
        0 <= h9 < 0x2000000
    ensures Octet(h5) + 0x100 * Octet(Shr(h5, 0x100)) + 0x10000 * Octet(Shr(h5, 0x10000)) +
        0x1000000 * SharedByte(h5, 0x1000000, h6, 0x2) + 0x100000000 * Octet(Shr(h6, 0x80)) +
        0x10000000000 * Octet(Shr(h6, 0x8000)) + 0x1000000000000 * SharedByte(h6, 0x800000, h7, 0x8) +
        0x100000000000000 * Octet(Shr(h7, 0x20)) + 0x10000000000000000 * Octet(Shr(h7, 0x2000)) +
        0x1000000000000000000 * SharedByte(h7, 0x200000, h8, 0x10) +
        0x100000000000000000000 * Octet(Shr(h8, 0x10)) + 0x10000000000000000000000 * Octet(Shr(h8, 0x1000)) +
        0x1000000000000000000000000 * SharedByte(h8, 0x100000, h9, 0x40) +
        0x100000000000000000000000000 * Octet(Shr(h9, 0x4)) +
        0x10000000000000000000000000000 * Octet(Shr(h9, 0x400)) +
        0x1000000000000000000000000000000 * Octet(Shr(h9, 0x40000))
         == h5 + 0x2000000 * h6 + 0x8000000000000 * h7 + 0x10000000000000000000 * h8 + 0x40000000000000000000000000 * h9
  {
    hide Octet, Shr, Low, SharedByte;
    Edges(h5, h9);
    Split(h5, 0x100);
    Split(h6, 0x80);
    Split(h7, 0x20);
    Split(h8, 0x10);
    Split(h9, 0x4);
    Share(h5, 0x1000000, h6, 0x2, 0x80, 1);
    Share(h6, 0x800000, h7, 0x8, 0x20, 3);
    Share(h7, 0x200000, h8, 0x10, 0x10, 4);
    Share(h8, 0x100000, h9, 0x40, 0x4, 6);
    HighBytesAdd(h5, Low(h5, 0x100), Octet(Shr(h5, 0x100)), Octet(Shr(h5, 0x10000)), Shr(h5, 0x1000000),
                 h6, Low(h6, 0x80), Octet(Shr(h6, 0x80)), Octet(Shr(h6, 0x8000)), Shr(h6, 0x800000),
                 h7, Low(h7, 0x20), Octet(Shr(h7, 0x20)), Octet(Shr(h7, 0x2000)), Shr(h7, 0x200000),
                 h8, Low(h8, 0x10), Octet(Shr(h8, 0x10)), Octet(Shr(h8, 0x1000)), Shr(h8, 0x100000),
                 h9, Low(h9, 0x4), Octet(Shr(h9, 0x4)), Octet(Shr(h9, 0x400)), Shr(h9, 0x40000),
                 SharedByte(h5, 0x1000000, h6, 0x2), SharedByte(h6, 0x800000, h7, 0x8),
                     SharedByte(h7, 0x200000, h8, 0x10), SharedByte(h8, 0x100000, h9, 0x40));
  }

  lemma PackHighValue(h5: int, h6: int, h7: int, h8: int, h9: int)
    requires 0 <= h5 < 0x2000000 && 0 <= h6 < 0x4000000 && 0 <= h7 < 0x2000000 && 0 <= h8 < 0x4000000 &&
        0 <= h9 < 0x2000000
    ensures LittleEndian(PackHigh(h5, h6, h7, h8, h9)) == h5 + 0x2000000 * h6 + 0x8000000000000 * h7 +
        0x10000000000000000000 * h8 + 0x40000000000000000000000000 * h9
  {
    hide Octet, Shr, SharedByte;
    Sixteen(PackHigh(h5, h6, h7, h8, h9));
    PackHighSum(h5, h6, h7, h8, h9);
  }

  /** Limbs after a full carry pass: exactly 26 or 25 bits each. */
  predicate Normal(h0: int, h1: int, h2: int, h3: int, h4: int, h5: int, h6: int, h7: int, h8: int, h9: int) {
    && 0 <= h0 < 0x4000000 && 0 <= h1 < 0x2000000 && 0 <= h2 < 0x4000000 && 0 <= h3 < 0x2000000 && 0 <= h4 < 0x4000000
    && 0 <= h5 < 0x2000000 && 0 <= h6 < 0x4000000 && 0 <= h7 < 0x2000000 && 0 <= h8 < 0x4000000 && 0 <= h9 < 0x2000000
  }

  /** Ten floored carries in a row, as in the q chain and again in the final carry pass: what is
      carried out is the floor of (value + start) / 2^255, what is left is the remainder. */
  method FloorChain(h0: int, h1: int, h2: int, h3: int, h4: int, h5: int, h6: int, h7: int, h8: int, h9: int,
      start: i64) returns (q: i64, r0: int, r1: int, r2: int, r3: int, r4: int, r5: int, r6: int, r7: int, r8: int,
      r9: int)
    requires Small(h0, 0x20000000) && Small(h1, 0x20000000) && Small(h2, 0x20000000) && Small(h3, 0x20000000) &&
        Small(h4, 0x20000000) && Small(h5, 0x20000000) && Small(h6, 0x20000000) && Small(h7, 0x20000000) &&
        Small(h8, 0x20000000) && Small(h9, 0x20000000)
    requires Small(start, 0x100000000)
    ensures Normal(r0, r1, r2, r3, r4, r5, r6, r7, r8, r9)
    ensures Weigh(h0, h1, h2, h3, h4, h5, h6, h7, h8, h9) + start == Weigh(r0, r1, r2, r3, r4, r5, r6, r7, r8, r9) +
        q * TWO255
    ensures Small(q, 0x100)
  {
    q := start;
    var t0: i64 := h0 + q;
    q := t0 / 0x4000000;
    r0 := t0 - q * 0x4000000;
    var t1: i64 := h1 + q;
    q := t1 / 0x2000000;
    r1 := t1 - q * 0x2000000;
    var t2: i64 := h2 + q;
    q := t2 / 0x4000000;
    r2 := t2 - q * 0x4000000;
    var t3: i64 := h3 + q;
    q := t3 / 0x2000000;
    r3 := t3 - q * 0x2000000;
    var t4: i64 := h4 + q;
    q := t4 / 0x4000000;
    r4 := t4 - q * 0x4000000;
    var t5: i64 := h5 + q;
    q := t5 / 0x2000000;
    r5 := t5 - q * 0x2000000;
    var t6: i64 := h6 + q;
    q := t6 / 0x4000000;
    r6 := t6 - q * 0x4000000;
    var t7: i64 := h7 + q;
    q := t7 / 0x2000000;
    r7 := t7 - q * 0x2000000;
    var t8: i64 := h8 + q;
    q := t8 / 0x4000000;
    r8 := t8 - q * 0x4000000;
    var t9: i64 := h9 + q;
    q := t9 / 0x2000000;
    r9 := t9 - q * 0x2000000;
  }

  /** With the rounded start value 19 h9 / 2^25, the chain yields the quotient by p itself. */
  lemma QuotientIsFloor(v: int, h9: int, q0: int, q: int, r: int)
    requires Small(v - h9 * 0x4000000000000000000000000000000000000000000000000000000000,
        0x20000000000000000000000000000000000000000000000000000000000)
    requires Small(h9, 0x10000000)
    requires 0x2000000 * q0 <= 19 * h9 + 0x1000000 < 0x2000000 * (q0 + 1)
    requires v + q0 == r + q * TWO255 && 0 <= r < TWO255
    ensures 0 <= v - q * P < P
  {
  }

  lemma Below(h0: int, h1: int, h2: int, h3: int, h4: int, h5: int, h6: int, h7: int, h8: int, h9: int)
    requires Normal(h0, h1, h2, h3, h4, h5, h6, h7, h8, h9)
    ensures 0 <= Weigh(h0, h1, h2, h3, h4, h5, h6, h7, h8, h9) < TWO255
  {
  }

  /** The canonical encoding: below p, whatever representative the limbs held. */
  method ToBytes(f: Fe) returns (s: seq<byte>)
    requires Factor(f)
    ensures |s| == 32
    ensures LittleEndian(s) == Value(f) % P
  {
    var q: i64 := (19 * f[9] + 0x1000000) / 0x2000000;
    ghost var q0 := q;
    var h0, h1, h2, h3, h4, h5, h6, h7, h8, h9: int;
    q, h0, h1, h2, h3, h4, h5, h6, h7, h8, h9 :=
      FloorChain(f[0], f[1], f[2], f[3], f[4], f[5], f[6], f[7], f[8], f[9], q);
    Below(h0, h1, h2, h3, h4, h5, h6, h7, h8, h9);
    QuotientIsFloor(Value(f), f[9], q0, q, Weigh(h0, h1, h2, h3, h4, h5, h6, h7, h8, h9));
    var carry9: int;
    carry9, h0, h1, h2, h3, h4, h5, h6, h7, h8, h9 :=
      FloorChain(f[0] + 19 * q, f[1], f[2], f[3], f[4], f[5], f[6], f[7], f[8], f[9], 0);
    Below(h0, h1, h2, h3, h4, h5, h6, h7, h8, h9);
    Dropped(Value(f), q, carry9, Weigh(h0, h1, h2, h3, h4, h5, h6, h7, h8, h9));
    s := PackLow(h0, h1, h2, h3, h4) + PackHigh(h5, h6, h7, h8, h9);
    PackValue(h0, h1, h2, h3, h4, h5, h6, h7, h8, h9);
  }

  /** The carry out of the second pass is the quotient again, so dropping it leaves v mod p. */
  lemma Dropped(v: int, q: int, c: int, r: int)
    requires 0 <= v - q * P < P && 0 <= r < TWO255
    requires v + 19 * q == r + c * TWO255
    ensures r == v % P
  {
    assert c == q;
    DivUnique(v, P, q, r);
  }

  lemma PackValue(h0: int, h1: int, h2: int, h3: int, h4: int, h5: int, h6: int, h7: int, h8: int, h9: int)
    requires Normal(h0, h1, h2, h3, h4, h5, h6, h7, h8, h9)
    ensures LittleEndian(PackLow(h0, h1, h2, h3, h4) + PackHigh(h5, h6, h7, h8, h9)) == Weigh(h0, h1, h2, h3, h4,
        h5, h6, h7, h8, h9)
  {
    PackLowValue(h0, h1, h2, h3, h4);
    PackHighValue(h5, h6, h7, h8, h9);
    hide PackLow, PackHigh, LittleEndian;
    Concat16(PackLow(h0, h1, h2, h3, h4), PackHigh(h5, h6, h7, h8, h9));
  }

  /** No other 32 bytes encode that residue canonically. */
  lemma EncodingUnique(f: Fe, s: seq<byte>, t: seq<byte>)
    requires |s| == |t| == 32
    requires LittleEndian(s) == Value(f) % P
    requires LittleEndian(t) < P && Cong(LittleEndian(t), Value(f), P)
    ensures s == t
  {
    var k := Quotient(LittleEndian(t), Value(f), P);
    DivUnique(Value(f), P, -k, LittleEndian(t));
    Injective(s, t);
  }

  /** load_4. */
  function Loaded4(x0: int, x1: int, x2: int, x3: int): int {
    Or(Or(Or(x0, x1 * 0x100), x2 * 0x10000), x3 * 0x1000000)
  }

  lemma LoadedIs(x0: byte, x1: byte, x2: byte, x3: byte)
    ensures Loaded4(x0, x1, x2, x3) == Load4(x0, x1, x2, x3)
  {
    BytePowers();
    hide Or, Two;
    OrIsSum(x0, x1, 0x100, 8);
    OrIsSum(x0 + x1 * 0x100, x2, 0x10000, 16);
    OrIsSum(x0 + x1 * 0x100 + x2 * 0x10000, x3, 0x1000000, 24);
  }

  function FromBytes(b: seq<byte>): Fe
    requires |b| == 32
  {
    [Low(Loaded4(b[0], b[1], b[2], b[3]), 0x4000000), Low(Shr(Loaded4(b[3], b[4], b[5], b[6]), 0x4), 0x2000000),
     Low(Shr(Loaded4(b[6], b[7], b[8], b[9]), 0x8), 0x4000000),
         Low(Shr(Loaded4(b[9], b[10], b[11], b[12]), 0x20), 0x2000000),
     Low(Shr(Loaded4(b[12], b[13], b[14], b[15]), 0x40), 0x4000000),
         Low(Loaded4(b[16], b[17], b[18], b[19]), 0x2000000),
     Low(Shr(Loaded4(b[19], b[20], b[21], b[22]), 0x2), 0x4000000),
         Low(Shr(Loaded4(b[22], b[23], b[24], b[25]), 0x8), 0x2000000),
     Low(Shr(Loaded4(b[25], b[26], b[27], b[28]), 0x10), 0x4000000),
         Low(Shr(Loaded4(b[28], b[29], b[30], b[31]), 0x40), 0x2000000)]
  }

  predicate Octets(x0: int, x1: int, x2: int, x3: int) {
    0 <= x0 < 0x100 && 0 <= x1 < 0x100 && 0 <= x2 < 0x100 && 0 <= x3 < 0x100
  }

  lemma Limb0(x0: int, x1: int, x2: int, x3: int)
    requires Octets(x0, x1, x2, x3)
    ensures Low(Load4(x0, x1, x2, x3), 0x4000000) == x0 + 0x100 * x1 + 0x10000 * x2 + 0x1000000 * Low(x3, 0x4)
  {
    DivUnique(Load4(x0, x1, x2, x3), 0x4000000, x3 / 0x4, x0 + 0x100 * x1 + 0x10000 * x2 + 0x1000000 * (x3 % 0x4));
  }

  lemma Limb1(x0: int, x1: int, x2: int, x3: int)
    requires Octets(x0, x1, x2, x3)
    ensures Low(Shr(Load4(x0, x1, x2, x3), 0x4), 0x2000000) == Shr(x0, 0x4) + 0x40 * x1 + 0x4000 * x2 +
        0x400000 * Low(x3, 0x8)
  {
    var low := x0 / 0x4 + 0x40 * x1 + 0x4000 * x2;
    var q := low + 0x400000 * x3;
    DivUnique(Load4(x0, x1, x2, x3), 0x4, q, x0 % 0x4);
    DivUnique(q, 0x2000000, x3 / 0x8, low + 0x400000 * (x3 % 0x8));
  }

  lemma Limb2(x0: int, x1: int, x2: int, x3: int)
    requires Octets(x0, x1, x2, x3)
    ensures Low(Shr(Load4(x0, x1, x2, x3), 0x8), 0x4000000) == Shr(x0, 0x8) + 0x20 * x1 + 0x2000 * x2 +
        0x200000 * Low(x3, 0x20)
  {
    var low := x0 / 0x8 + 0x20 * x1 + 0x2000 * x2;
    var q := low + 0x200000 * x3;
    DivUnique(Load4(x0, x1, x2, x3), 0x8, q, x0 % 0x8);
    DivUnique(q, 0x4000000, x3 / 0x20, low + 0x200000 * (x3 % 0x20));
  }

  lemma Limb3(x0: int, x1: int, x2: int, x3: int)
    requires Octets(x0, x1, x2, x3)
    ensures Low(Shr(Load4(x0, x1, x2, x3), 0x20), 0x2000000) == Shr(x0, 0x20) + 0x8 * x1 + 0x800 * x2 +
        0x80000 * Low(x3, 0x40)
  {
    var low := x0 / 0x20 + 0x8 * x1 + 0x800 * x2;
    var q := low + 0x80000 * x3;
    DivUnique(Load4(x0, x1, x2, x3), 0x20, q, x0 % 0x20);
    DivUnique(q, 0x2000000, x3 / 0x40, low + 0x80000 * (x3 % 0x40));
  }

  lemma Limb4(x0: int, x1: int, x2: int, x3: int)
    requires Octets(x0, x1, x2, x3)
    ensures Low(Shr(Load4(x0, x1, x2, x3), 0x40), 0x4000000) == Shr(x0, 0x40) + 0x4 * x1 + 0x400 * x2 +
        0x40000 * Low(x3, 0x100)
  {
    var low := x0 / 0x40 + 0x4 * x1 + 0x400 * x2;
    var q := low + 0x40000 * x3;
    DivUnique(Load4(x0, x1, x2, x3), 0x40, q, x0 % 0x40);
    DivUnique(q, 0x4000000, x3 / 0x100, low + 0x40000 * (x3 % 0x100));
  }

  lemma Limb5(x0: int, x1: int, x2: int, x3: int)
    requires Octets(x0, x1, x2, x3)
    ensures Low(Load4(x0, x1, x2, x3), 0x2000000) == x0 + 0x100 * x1 + 0x10000 * x2 + 0x1000000 * Low(x3, 0x2)
  {
    DivUnique(Load4(x0, x1, x2, x3), 0x2000000, x3 / 0x2, x0 + 0x100 * x1 + 0x10000 * x2 + 0x1000000 * (x3 % 0x2));
  }

  lemma Limb6(x0: int, x1: int, x2: int, x3: int)
    requires Octets(x0, x1, x2, x3)
    ensures Low(Shr(Load4(x0, x1, x2, x3), 0x2), 0x4000000) == Shr(x0, 0x2) + 0x80 * x1 + 0x8000 * x2 +
        0x800000 * Low(x3, 0x8)
  {
    var low := x0 / 0x2 + 0x80 * x1 + 0x8000 * x2;
    var q := low + 0x800000 * x3;
    DivUnique(Load4(x0, x1, x2, x3), 0x2, q, x0 % 0x2);
    DivUnique(q, 0x4000000, x3 / 0x8, low + 0x800000 * (x3 % 0x8));
  }

  lemma Limb7(x0: int, x1: int, x2: int, x3: int)
    requires Octets(x0, x1, x2, x3)
    ensures Low(Shr(Load4(x0, x1, x2, x3), 0x8), 0x2000000) == Shr(x0, 0x8) + 0x20 * x1 + 0x2000 * x2 +
        0x200000 * Low(x3, 0x10)
  {
    var low := x0 / 0x8 + 0x20 * x1 + 0x2000 * x2;
    var q := low + 0x200000 * x3;
    DivUnique(Load4(x0, x1, x2, x3), 0x8, q, x0 % 0x8);
    DivUnique(q, 0x2000000, x3 / 0x10, low + 0x200000 * (x3 % 0x10));
  }

  lemma Limb8(x0: int, x1: int, x2: int, x3: int)
    requires Octets(x0, x1, x2, x3)
    ensures Low(Shr(Load4(x0, x1, x2, x3), 0x10), 0x4000000) == Shr(x0, 0x10) + 0x10 * x1 + 0x1000 * x2 +
        0x100000 * Low(x3, 0x40)
  {
    var low := x0 / 0x10 + 0x10 * x1 + 0x1000 * x2;
    var q := low + 0x100000 * x3;
    DivUnique(Load4(x0, x1, x2, x3), 0x10, q, x0 % 0x10);
    DivUnique(q, 0x4000000, x3 / 0x40, low + 0x100000 * (x3 % 0x40));
  }

  lemma Limb9(x0: int, x1: int, x2: int, x3: int)
    requires Octets(x0, x1, x2, x3)
    ensures Low(Shr(Load4(x0, x1, x2, x3), 0x40), 0x2000000) == Shr(x0, 0x40) + 0x4 * x1 + 0x400 * x2 +
        0x40000 * Low(x3, 0x80)
  {
    var low := x0 / 0x40 + 0x4 * x1 + 0x400 * x2;
    var q := low + 0x40000 * x3;
    DivUnique(Load4(x0, x1, x2, x3), 0x40, q, x0 % 0x40);
    DivUnique(q, 0x2000000, x3 / 0x80, low + 0x40000 * (x3 % 0x80));
  }

  lemma Whole(x: int)
    requires 0 <= x < 0x100
    ensures Low(x, 0x100) == x
  {
  }

  lemma ReadLow(b0: int, b1: int, b2: int, b3: int, b4: int, b5: int, b6: int, b7: int, b8: int, b9: int, b10: int,
      b11: int, b12: int, b13: int, b14: int, b15: int)
    requires Octets(b0, b1, b2, b3) && Octets(b4, b5, b6, b7) && Octets(b8, b9, b10, b11) && Octets(b12, b13, b14, b15)
    ensures Low(Load4(b0, b1, b2, b3), 0x4000000) + 0x4000000 * Low(Shr(Load4(b3, b4, b5, b6), 0x4), 0x2000000) +
        0x8000000000000 * Low(Shr(Load4(b6, b7, b8, b9), 0x8), 0x4000000) +
        0x20000000000000000000 * Low(Shr(Load4(b9, b10, b11, b12), 0x20), 0x2000000) +
        0x40000000000000000000000000 * Low(Shr(Load4(b12, b13, b14, b15), 0x40), 0x4000000)
         == b0 + 0x100 * b1 + 0x10000 * b2 + 0x1000000 * b3 + 0x100000000 * b4 + 0x10000000000 * b5 +
             0x1000000000000 * b6 + 0x100000000000000 * b7 + 0x10000000000000000 * b8 + 0x1000000000000000000 * b9 +
             0x100000000000000000000 * b10 + 0x10000000000000000000000 * b11 + 0x1000000000000000000000000 * b12 +
             0x100000000000000000000000000 * b13 + 0x10000000000000000000000000000 * b14 +
             0x1000000000000000000000000000000 * b15
  {
    Halves(b3, 0x4);
    Halves(b6, 0x8);
    Halves(b9, 0x20);
    Halves(b12, 0x40);
    Whole(b15);
    hide Low, Shr, Load4;
    Limb0(b0, b1, b2, b3);
    Limb1(b3, b4, b5, b6);
    Limb2(b6, b7, b8, b9);
    Limb3(b9, b10, b11, b12);
    Limb4(b12, b13, b14, b15);
  }

  lemma ReadHigh(b16: int, b17: int, b18: int, b19: int, b20: int, b21: int, b22: int, b23: int, b24: int, b25: int,
      b26: int, b27: int, b28: int, b29: int, b30: int, b31: int)
    requires Octets(b16, b17, b18, b19) && Octets(b20, b21, b22, b23) && Octets(b24, b25, b26, b27) &&
        Octets(b28, b29, b30, b31)
    ensures Low(Load4(b16, b17, b18, b19), 0x2000000) + 0x2000000 * Low(Shr(Load4(b19, b20, b21, b22), 0x2),
        0x4000000) + 0x8000000000000 * Low(Shr(Load4(b22, b23, b24, b25), 0x8), 0x2000000) +
        0x10000000000000000000 * Low(Shr(Load4(b25, b26, b27, b28), 0x10), 0x4000000) +
        0x40000000000000000000000000 * Low(Shr(Load4(b28, b29, b30, b31), 0x40), 0x2000000) +
        0x80000000000000000000000000000000 * Shr(b31, 0x80)
         == b16 + 0x100 * b17 + 0x10000 * b18 + 0x1000000 * b19 + 0x100000000 * b20 + 0x10000000000 * b21 +
             0x1000000000000 * b22 + 0x100000000000000 * b23 + 0x10000000000000000 * b24 +
             0x1000000000000000000 * b25 + 0x100000000000000000000 * b26 + 0x10000000000000000000000 * b27 +
             0x1000000000000000000000000 * b28 + 0x100000000000000000000000000 * b29 +
             0x10000000000000000000000000000 * b30 + 0x1000000000000000000000000000000 * b31
  {
    Halves(b19, 0x2);
    Halves(b22, 0x8);
    Halves(b25, 0x10);
    Halves(b28, 0x40);
    Halves(b31, 0x80);
    hide Low, Shr, Load4;
    Limb5(b16, b17, b18, b19);
    Limb6(b19, b20, b21, b22);
    Limb7(b22, b23, b24, b25);
    Limb8(b25, b26, b27, b28);
    Limb9(b28, b29, b30, b31);
  }

  lemma FromBytesParts(b: seq<byte>)
    requires |b| == 32
    ensures Value(FromBytes(b)) + TWO255 * Shr(b[31], 0x80) == LittleEndian(b)
  {
    assert b == b[..16] + b[16..];
    hide Low, Shr, Load4, Loaded4, LittleEndian;
    LoadedIs(b[0], b[1], b[2], b[3]); LoadedIs(b[3], b[4], b[5], b[6]); LoadedIs(b[6], b[7], b[8], b[9]);
    LoadedIs(b[9], b[10], b[11], b[12]); LoadedIs(b[12], b[13], b[14], b[15]); LoadedIs(b[16], b[17], b[18], b[19]);
    LoadedIs(b[19], b[20], b[21], b[22]); LoadedIs(b[22], b[23], b[24], b[25]); LoadedIs(b[25], b[26], b[27], b[28]);
    LoadedIs(b[28], b[29], b[30], b[31]);
    Concat16(b[..16], b[16..]);
    Sixteen(b[..16]);
    Sixteen(b[16..]);
    ReadLow(b[0], b[1], b[2], b[3], b[4], b[5], b[6], b[7], b[8], b[9], b[10], b[11], b[12], b[13], b[14], b[15]);
    ReadHigh(b[16], b[17], b[18], b[19], b[20], b[21], b[22], b[23], b[24], b[25], b[26], b[27], b[28], b[29],
        b[30], b[31]);
  }

  lemma FromBytesRange(b: seq<byte>)
    requires |b| == 32
    ensures Reduced(FromBytes(b)) && 0 <= Value(FromBytes(b)) < TWO255
  {
    var f := FromBytes(b);
    hide Shr, Loaded4, Weigh;
    Below(f[0], f[1], f[2], f[3], f[4], f[5], f[6], f[7], f[8], f[9]);
  }

  /** Reading keeps every bit but the topmost one. */
  lemma FromBytesValue(b: seq<byte>)
    requires |b| == 32
    ensures Value(FromBytes(b)) == LittleEndian(b) % TWO255
    ensures Reduced(FromBytes(b))
  {
    FromBytesParts(b);
    FromBytesRange(b);
    hide FromBytes, LittleEndian, Value, Shr;
    DivUnique(LittleEndian(b), TWO255, Shr(b[31], 0x80), Value(FromBytes(b)));
  }

  /** Decoding a canonical string and encoding the result gives the string back; any other
      string comes back as the canonical form of its number. */
  lemma ReadThenWrite(b: seq<byte>, s: seq<byte>)
    requires |b| == |s| == 32
    requires LittleEndian(s) == Value(FromBytes(b)) % P
    ensures LittleEndian(s) == LittleEndian(b) % TWO255 % P
    ensures LittleEndian(b) < P <==> s == b
  {
    FromBytesValue(b);
    hide FromBytes, Value, LittleEndian;
    if LittleEndian(b) < P {
      DivUnique(LittleEndian(b), TWO255, 0, LittleEndian(b));
      DivUnique(LittleEndian(b), P, 0, LittleEndian(b));
      Injective(s, b);
    }
  }
}
