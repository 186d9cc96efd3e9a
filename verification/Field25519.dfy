/** Arithmetic modulo 2^255 - 19 on ten signed limbs of alternating width 26 and 25. */
module Field25519 {
  import opened ModArith

  const P: int := 0x7fffffffffffffffffffffffffffffffffffffffffffffffffffffffffffffed
  const TWO255: int := 0x8000000000000000000000000000000000000000000000000000000000000000

  // Machine integers; a variable of one of these types is a proof that nothing overflowed.
  type i64 = x: int | -0x8000_0000_0000_0000 <= x < 0x8000_0000_0000_0000
  type i128 = x: int | -0x8000_0000_0000_0000_0000_0000_0000_0000 <= x < 0x8000_0000_0000_0000_0000_0000_0000_0000

  /** Ten limbs, least significant first; the code keeps field elements in an [i64; 10]
      and unreduced products in an [i128; 10]. */
  type Fe = s: seq<int> | |s| == 10 witness [0, 0, 0, 0, 0, 0, 0, 0, 0, 0]

  /** The integer ten limbs stand for: limb i weighs 2^ceil(25.5 i). */
  function Weigh(f0: int, f1: int, f2: int, f3: int, f4: int, f5: int, f6: int, f7: int, f8: int, f9: int): int {
    f0 + 0x4000000 * f1 + 0x8000000000000 * f2 + 0x20000000000000000000 * f3
    + 0x40000000000000000000000000 * f4 + 0x100000000000000000000000000000000 * f5
    + 0x200000000000000000000000000000000000000 * f6 + 0x800000000000000000000000000000000000000000000 * f7
    + 0x1000000000000000000000000000000000000000000000000000 * f8
    + 0x4000000000000000000000000000000000000000000000000000000000 * f9
  }

  function Value(f: Fe): int {
    Weigh(f[0], f[1], f[2], f[3], f[4], f[5], f[6], f[7], f[8], f[9])
  }

  predicate Small(x: int, b: int) {
    -b <= x <= b
  }

  /** The limbs carry_mul leaves: small enough that every operand formed from them by up to
      three additions or subtractions is again a legal factor. */
  predicate Reduced(f: Fe) {
    Within(f, 0x4000000)
  }

  /** What mul accepts: limbs of at most 28 bits and a sign. */
  predicate Factor(f: Fe) {
    Within(f, 0x10000000)
  }

  predicate Within(f: Fe, b: int) {
    && Small(f[0], b) && Small(f[1], b) && Small(f[2], b) && Small(f[3], b) && Small(f[4], b)
    && Small(f[5], b) && Small(f[6], b) && Small(f[7], b) && Small(f[8], b) && Small(f[9], b)
  }

  /** The first pass of carry_mul: ten rounded carries, the last one returned. */
  method CarryChain(h0: int, h1: int, h2: int, h3: int, h4: int, h5: int, h6: int, h7: int, h8: int, h9: int)
    returns (out0: i64, out1: i64, out2: i64, out3: i64, out4: i64, out5: i64, out6: i64, out7: i64, out8: i64,
        out9: i64, carry: i128)
    requires Small(h0, 0x4_0000_0000_0000_0000)
    requires Small(h1, 0x4_0000_0000_0000_0000)
    requires Small(h2, 0x4_0000_0000_0000_0000)
    requires Small(h3, 0x4_0000_0000_0000_0000)
    requires Small(h4, 0x4_0000_0000_0000_0000)
    requires Small(h5, 0x4_0000_0000_0000_0000)
    requires Small(h6, 0x4_0000_0000_0000_0000)
    requires Small(h7, 0x4_0000_0000_0000_0000)
    requires Small(h8, 0x4_0000_0000_0000_0000)
    requires Small(h9, 0x4_0000_0000_0000_0000)
    ensures Small(out0, 0x2000000)
    ensures Small(out1, 0x1000000)
    ensures Small(out2, 0x2000000)
    ensures Small(out3, 0x1000000)
    ensures Small(out4, 0x2000000)
    ensures Small(out5, 0x1000000)
    ensures Small(out6, 0x2000000)
    ensures Small(out7, 0x1000000)
    ensures Small(out8, 0x2000000)
    ensures Small(out9, 0x1000000)
    ensures Small(carry, 0x400_0000_0000)
    ensures Weigh(h0, h1, h2, h3, h4, h5, h6, h7, h8, h9)
         == Weigh(out0, out1, out2, out3, out4, out5, out6, out7, out8, out9) + carry * TWO255
  {
    carry := (h0 + 0x2000000) / 0x4000000;
    out0 := h0 - carry * 0x4000000;
    var t1: i128 := h1 + carry;
    carry := (t1 + 0x1000000) / 0x2000000;
    out1 := t1 - carry * 0x2000000;
    var t2: i128 := h2 + carry;
    carry := (t2 + 0x2000000) / 0x4000000;
    out2 := t2 - carry * 0x4000000;
    var t3: i128 := h3 + carry;
    carry := (t3 + 0x1000000) / 0x2000000;
    out3 := t3 - carry * 0x2000000;
    var t4: i128 := h4 + carry;
    carry := (t4 + 0x2000000) / 0x4000000;
    out4 := t4 - carry * 0x4000000;
    var t5: i128 := h5 + carry;
    carry := (t5 + 0x1000000) / 0x2000000;
    out5 := t5 - carry * 0x2000000;
    var t6: i128 := h6 + carry;
    carry := (t6 + 0x2000000) / 0x4000000;
    out6 := t6 - carry * 0x4000000;
    var t7: i128 := h7 + carry;
    carry := (t7 + 0x1000000) / 0x2000000;
    out7 := t7 - carry * 0x2000000;
    var t8: i128 := h8 + carry;
    carry := (t8 + 0x2000000) / 0x4000000;
    out8 := t8 - carry * 0x4000000;
    var t9: i128 := h9 + carry;
    carry := (t9 + 0x1000000) / 0x2000000;
    out9 := t9 - carry * 0x2000000;
  }

  /** Brings ten wide limbs back to a reduced element of the same residue. */
  method CarryMul(h: Fe) returns (out: Fe)
    requires Within(h, 0x4_0000_0000_0000_0000)
    ensures Reduced(out)
    ensures Cong(Value(out), Value(h), P)
  {
    var out0, out1, out2, out3, out4, out5, out6, out7, out8, out9, carry :=
      CarryChain(h[0], h[1], h[2], h[3], h[4], h[5], h[6], h[7], h[8], h[9]);
    ghost var c9 := carry;
    var wrap: i64 := carry * 19;
    out0 := out0 + wrap;
    carry := (out0 + 0x2000000) / 0x4000000;
    out0 := out0 - carry * 0x4000000;
    out1 := out1 + carry;
    out := [out0, out1, out2, out3, out4, out5, out6, out7, out8, out9];
    Intro(Value(out), Value(h), -c9, P);
  }

  // ---- Multiplication ----

  /** Output limb k of the schoolbook product, exactly as the code sums it: a product of two
      odd-numbered limbs counts twice, a product that passes 2^255 counts nineteen times. */
  function Column(f: Fe, g: Fe, k: int): int
    requires 0 <= k < 10
  {
    match k
    case 0 =>
      f[0] * g[0] + (2 * f[1]) * (19 * g[9]) + f[2] * (19 * g[8]) + (2 * f[3]) * (19 * g[7])
      + f[4] * (19 * g[6]) + (2 * f[5]) * (19 * g[5]) + f[6] * (19 * g[4]) + (2 * f[7]) * (19 * g[3])
      + f[8] * (19 * g[2]) + (2 * f[9]) * (19 * g[1])
    case 1 =>
      f[0] * g[1] + f[1] * g[0] + f[2] * (19 * g[9]) + f[3] * (19 * g[8]) + f[4] * (19 * g[7])
      + f[5] * (19 * g[6]) + f[6] * (19 * g[5]) + f[7] * (19 * g[4]) + f[8] * (19 * g[3]) + f[9] * (19 * g[2])
    case 2 =>
      f[0] * g[2] + (2 * f[1]) * g[1] + f[2] * g[0] + (2 * f[3]) * (19 * g[9]) + f[4] * (19 * g[8])
      + (2 * f[5]) * (19 * g[7]) + f[6] * (19 * g[6]) + (2 * f[7]) * (19 * g[5]) + f[8] * (19 * g[4])
      + (2 * f[9]) * (19 * g[3])
    case 3 =>
      f[0] * g[3] + f[1] * g[2] + f[2] * g[1] + f[3] * g[0] + f[4] * (19 * g[9]) + f[5] * (19 * g[8])
      + f[6] * (19 * g[7]) + f[7] * (19 * g[6]) + f[8] * (19 * g[5]) + f[9] * (19 * g[4])
    case 4 =>
      f[0] * g[4] + (2 * f[1]) * g[3] + f[2] * g[2] + (2 * f[3]) * g[1] + f[4] * g[0] + (2 * f[5]) * (19 * g[9])
      + f[6] * (19 * g[8]) + (2 * f[7]) * (19 * g[7]) + f[8] * (19 * g[6]) + (2 * f[9]) * (19 * g[5])
    case 5 =>
      f[0] * g[5] + f[1] * g[4] + f[2] * g[3] + f[3] * g[2] + f[4] * g[1] + f[5] * g[0] + f[6] * (19 * g[9])
      + f[7] * (19 * g[8]) + f[8] * (19 * g[7]) + f[9] * (19 * g[6])
    case 6 =>
      f[0] * g[6] + (2 * f[1]) * g[5] + f[2] * g[4] + (2 * f[3]) * g[3] + f[4] * g[2] + (2 * f[5]) * g[1]
      + f[6] * g[0] + (2 * f[7]) * (19 * g[9]) + f[8] * (19 * g[8]) + (2 * f[9]) * (19 * g[7])
    case 7 =>
      f[0] * g[7] + f[1] * g[6] + f[2] * g[5] + f[3] * g[4] + f[4] * g[3] + f[5] * g[2] + f[6] * g[1]
      + f[7] * g[0] + f[8] * (19 * g[9]) + f[9] * (19 * g[8])
    case 8 =>
      f[0] * g[8] + (2 * f[1]) * g[7] + f[2] * g[6] + (2 * f[3]) * g[5] + f[4] * g[4] + (2 * f[5]) * g[3]
      + f[6] * g[2] + (2 * f[7]) * g[1] + f[8] * g[0] + (2 * f[9]) * (19 * g[9])
    case _ =>
      f[0] * g[9] + f[1] * g[8] + f[2] * g[7] + f[3] * g[6] + f[4] * g[5] + f[5] * g[4] + f[6] * g[3]
      + f[7] * g[2] + f[8] * g[1] + f[9] * g[0]
  }

  /** The hundred limb products, m(i, j) = f[i] * g[j]. */
  type Grid = (int, int) -> int

  ghost function Products(f: Fe, g: Fe): Grid {
    (i, j) => if 0 <= i < 10 && 0 <= j < 10 then f[i] * g[j] else 0
  }

  /** The part of column k that limbs 0 to 4 of f contribute. */
  ghost function Lower(m: Grid, k: int): int
    requires 0 <= k < 10
  {
    match k
    case 0 => m(0, 0) + 38 * m(1, 9) + 19 * m(2, 8) + 38 * m(3, 7) + 19 * m(4, 6)
    case 1 => m(0, 1) + m(1, 0) + 19 * m(2, 9) + 19 * m(3, 8) + 19 * m(4, 7)
    case 2 => m(0, 2) + 2 * m(1, 1) + m(2, 0) + 38 * m(3, 9) + 19 * m(4, 8)
    case 3 => m(0, 3) + m(1, 2) + m(2, 1) + m(3, 0) + 19 * m(4, 9)
    case 4 => m(0, 4) + 2 * m(1, 3) + m(2, 2) + 2 * m(3, 1) + m(4, 0)
    case 5 => m(0, 5) + m(1, 4) + m(2, 3) + m(3, 2) + m(4, 1)
    case 6 => m(0, 6) + 2 * m(1, 5) + m(2, 4) + 2 * m(3, 3) + m(4, 2)
    case 7 => m(0, 7) + m(1, 6) + m(2, 5) + m(3, 4) + m(4, 3)
    case 8 => m(0, 8) + 2 * m(1, 7) + m(2, 6) + 2 * m(3, 5) + m(4, 4)
    case _ => m(0, 9) + m(1, 8) + m(2, 7) + m(3, 6) + m(4, 5)
  }

  /** The part of column k that limbs 5 to 9 of f contribute. */
  ghost function Upper(m: Grid, k: int): int
    requires 0 <= k < 10
  {
    match k
    case 0 => 38 * m(5, 5) + 19 * m(6, 4) + 38 * m(7, 3) + 19 * m(8, 2) + 38 * m(9, 1)
    case 1 => 19 * m(5, 6) + 19 * m(6, 5) + 19 * m(7, 4) + 19 * m(8, 3) + 19 * m(9, 2)
    case 2 => 38 * m(5, 7) + 19 * m(6, 6) + 38 * m(7, 5) + 19 * m(8, 4) + 38 * m(9, 3)
    case 3 => 19 * m(5, 8) + 19 * m(6, 7) + 19 * m(7, 6) + 19 * m(8, 5) + 19 * m(9, 4)
    case 4 => 38 * m(5, 9) + 19 * m(6, 8) + 38 * m(7, 7) + 19 * m(8, 6) + 38 * m(9, 5)
    case 5 => m(5, 0) + 19 * m(6, 9) + 19 * m(7, 8) + 19 * m(8, 7) + 19 * m(9, 6)
    case 6 => 2 * m(5, 1) + m(6, 0) + 38 * m(7, 9) + 19 * m(8, 8) + 38 * m(9, 7)
    case 7 => m(5, 2) + m(6, 1) + m(7, 0) + 19 * m(8, 9) + 19 * m(9, 8)
    case 8 => 2 * m(5, 3) + m(6, 2) + 2 * m(7, 1) + m(8, 0) + 38 * m(9, 9)
    case _ => m(5, 4) + m(6, 3) + m(7, 2) + m(8, 1) + m(9, 0)
  }

  /** The factors 2 and 19 of a term, gathered. */
  lemma Scaled(x: int, y: int)
    ensures (2 * x) * y == 2 * (x * y) && x * (19 * y) == 19 * (x * y) && (2 * x) * (19 * y) == 38 * (x * y)
  { }

  lemma Column0(f: Fe, g: Fe)
    ensures var m := Products(f, g); Column(f, g, 0) == Lower(m, 0) + Upper(m, 0)
  {
    Scaled(f[1], g[9]); Scaled(f[2], g[8]); Scaled(f[3], g[7]); Scaled(f[4], g[6]); Scaled(f[5], g[5]);
    Scaled(f[6], g[4]); Scaled(f[7], g[3]); Scaled(f[8], g[2]); Scaled(f[9], g[1]);
  }

  lemma Column1(f: Fe, g: Fe)
    ensures var m := Products(f, g); Column(f, g, 1) == Lower(m, 1) + Upper(m, 1)
  {
    Scaled(f[2], g[9]); Scaled(f[3], g[8]); Scaled(f[4], g[7]); Scaled(f[5], g[6]); Scaled(f[6], g[5]);
    Scaled(f[7], g[4]); Scaled(f[8], g[3]); Scaled(f[9], g[2]);
  }

  lemma Column2(f: Fe, g: Fe)
    ensures var m := Products(f, g); Column(f, g, 2) == Lower(m, 2) + Upper(m, 2)
  {
    Scaled(f[1], g[1]); Scaled(f[3], g[9]); Scaled(f[4], g[8]); Scaled(f[5], g[7]); Scaled(f[6], g[6]);
    Scaled(f[7], g[5]); Scaled(f[8], g[4]); Scaled(f[9], g[3]);
  }

  lemma Column3(f: Fe, g: Fe)
    ensures var m := Products(f, g); Column(f, g, 3) == Lower(m, 3) + Upper(m, 3)
  {
    Scaled(f[4], g[9]); Scaled(f[5], g[8]); Scaled(f[6], g[7]); Scaled(f[7], g[6]); Scaled(f[8], g[5]);
    Scaled(f[9], g[4]);
  }

  lemma Column4(f: Fe, g: Fe)
    ensures var m := Products(f, g); Column(f, g, 4) == Lower(m, 4) + Upper(m, 4)
  {
    Scaled(f[1], g[3]); Scaled(f[3], g[1]); Scaled(f[5], g[9]); Scaled(f[6], g[8]); Scaled(f[7], g[7]);
    Scaled(f[8], g[6]); Scaled(f[9], g[5]);
  }

  lemma Column5(f: Fe, g: Fe)
    ensures var m := Products(f, g); Column(f, g, 5) == Lower(m, 5) + Upper(m, 5)
  {
    Scaled(f[6], g[9]); Scaled(f[7], g[8]); Scaled(f[8], g[7]); Scaled(f[9], g[6]);
  }

  lemma Column6(f: Fe, g: Fe)
    ensures var m := Products(f, g); Column(f, g, 6) == Lower(m, 6) + Upper(m, 6)
  {
    Scaled(f[1], g[5]); Scaled(f[3], g[3]); Scaled(f[5], g[1]); Scaled(f[7], g[9]); Scaled(f[8], g[8]);
    Scaled(f[9], g[7]);
  }

  lemma Column7(f: Fe, g: Fe)
    ensures var m := Products(f, g); Column(f, g, 7) == Lower(m, 7) + Upper(m, 7)
  {
    Scaled(f[8], g[9]); Scaled(f[9], g[8]);
  }

  lemma Column8(f: Fe, g: Fe)
    ensures var m := Products(f, g); Column(f, g, 8) == Lower(m, 8) + Upper(m, 8)
  {
    Scaled(f[1], g[7]); Scaled(f[3], g[5]); Scaled(f[5], g[3]); Scaled(f[7], g[1]); Scaled(f[9], g[9]);
  }

  lemma Column9(f: Fe, g: Fe)
    ensures var m := Products(f, g); Column(f, g, 9) == Lower(m, 9) + Upper(m, 9)
  { }

  /** Row i of the product: f[i] times every limb of g, folded back below 2^255. */
  ghost function Row0(m: Grid): int {
    Weigh(m(0, 0), m(0, 1), m(0, 2), m(0, 3), m(0, 4), m(0, 5), m(0, 6), m(0, 7), m(0, 8), m(0, 9))
  }

  lemma RowCong0(m: Grid, v: int)
    requires v == Weigh(m(0, 0), m(0, 1), m(0, 2), m(0, 3), m(0, 4), m(0, 5), m(0, 6), m(0, 7), m(0, 8), m(0, 9))
    ensures Cong(0x1 * v, Row0(m), P)
  {
    Intro(0x1 * v, Row0(m), 0, P);
  }

  ghost function Row1(m: Grid): int {
    Weigh(38 * m(1, 9), m(1, 0), 2 * m(1, 1), m(1, 2), 2 * m(1, 3), m(1, 4), 2 * m(1, 5), m(1, 6), 2 * m(1, 7),
          m(1, 8))
  }

  lemma RowCong1(m: Grid, v: int)
    requires v == Weigh(m(1, 0), m(1, 1), m(1, 2), m(1, 3), m(1, 4), m(1, 5), m(1, 6), m(1, 7), m(1, 8), m(1, 9))
    ensures Cong(0x4000000 * v, Row1(m), P)
  {
    Intro(0x4000000 * v, Row1(m), 0x2 * m(1, 9), P);
  }

  ghost function Row2(m: Grid): int {
    Weigh(19 * m(2, 8), 19 * m(2, 9), m(2, 0), m(2, 1), m(2, 2), m(2, 3), m(2, 4), m(2, 5), m(2, 6), m(2, 7))
  }

  lemma RowCong2(m: Grid, v: int)
    requires v == Weigh(m(2, 0), m(2, 1), m(2, 2), m(2, 3), m(2, 4), m(2, 5), m(2, 6), m(2, 7), m(2, 8), m(2, 9))
    ensures Cong(0x8000000000000 * v, Row2(m), P)
  {
    Intro(0x8000000000000 * v, Row2(m), 0x1 * m(2, 8) + 0x4000000 * m(2, 9), P);
  }

  ghost function Row3(m: Grid): int {
    Weigh(38 * m(3, 7), 19 * m(3, 8), 38 * m(3, 9), m(3, 0), 2 * m(3, 1), m(3, 2), 2 * m(3, 3), m(3, 4),
          2 * m(3, 5), m(3, 6))
  }

  lemma RowCong3(m: Grid, v: int)
    requires v == Weigh(m(3, 0), m(3, 1), m(3, 2), m(3, 3), m(3, 4), m(3, 5), m(3, 6), m(3, 7), m(3, 8), m(3, 9))
    ensures Cong(0x20000000000000000000 * v, Row3(m), P)
  {
    Intro(0x20000000000000000000 * v, Row3(m), 0x2 * m(3, 7) + 0x4000000 * m(3, 8) + 0x10000000000000 * m(3, 9), P);
  }

  ghost function Row4(m: Grid): int {
    Weigh(19 * m(4, 6), 19 * m(4, 7), 19 * m(4, 8), 19 * m(4, 9), m(4, 0), m(4, 1), m(4, 2), m(4, 3), m(4, 4),
          m(4, 5))
  }

  lemma RowCong4(m: Grid, v: int)
    requires v == Weigh(m(4, 0), m(4, 1), m(4, 2), m(4, 3), m(4, 4), m(4, 5), m(4, 6), m(4, 7), m(4, 8), m(4, 9))
    ensures Cong(0x40000000000000000000000000 * v, Row4(m), P)
  {
    Intro(0x40000000000000000000000000 * v, Row4(m), 0x1 * m(4, 6) + 0x4000000 * m(4, 7) +
        0x8000000000000 * m(4, 8) + 0x20000000000000000000 * m(4, 9), P);
  }

  ghost function Row5(m: Grid): int {
    Weigh(38 * m(5, 5), 19 * m(5, 6), 38 * m(5, 7), 19 * m(5, 8), 38 * m(5, 9), m(5, 0), 2 * m(5, 1), m(5, 2),
          2 * m(5, 3), m(5, 4))
  }

  lemma RowCong5(m: Grid, v: int)
    requires v == Weigh(m(5, 0), m(5, 1), m(5, 2), m(5, 3), m(5, 4), m(5, 5), m(5, 6), m(5, 7), m(5, 8), m(5, 9))
    ensures Cong(0x100000000000000000000000000000000 * v, Row5(m), P)
  {
    Intro(0x100000000000000000000000000000000 * v, Row5(m), 0x2 * m(5, 5) + 0x4000000 * m(5, 6) +
        0x10000000000000 * m(5, 7) + 0x20000000000000000000 * m(5, 8)
          + 0x80000000000000000000000000 * m(5, 9), P);
  }

  ghost function Row6(m: Grid): int {
    Weigh(19 * m(6, 4), 19 * m(6, 5), 19 * m(6, 6), 19 * m(6, 7), 19 * m(6, 8), 19 * m(6, 9), m(6, 0), m(6, 1),
          m(6, 2), m(6, 3))
  }

  lemma RowCong6(m: Grid, v: int)
    requires v == Weigh(m(6, 0), m(6, 1), m(6, 2), m(6, 3), m(6, 4), m(6, 5), m(6, 6), m(6, 7), m(6, 8), m(6, 9))
    ensures Cong(0x200000000000000000000000000000000000000 * v, Row6(m), P)
  {
    Intro(0x200000000000000000000000000000000000000 * v, Row6(m), 0x1 * m(6, 4) + 0x4000000 * m(6, 5) +
        0x8000000000000 * m(6, 6) + 0x20000000000000000000 * m(6, 7)
          + 0x40000000000000000000000000 * m(6, 8) + 0x100000000000000000000000000000000 * m(6, 9), P);
  }

  ghost function Row7(m: Grid): int {
    Weigh(38 * m(7, 3), 19 * m(7, 4), 38 * m(7, 5), 19 * m(7, 6), 38 * m(7, 7), 19 * m(7, 8), 38 * m(7, 9),
          m(7, 0), 2 * m(7, 1), m(7, 2))
  }

  lemma RowCong7(m: Grid, v: int)
    requires v == Weigh(m(7, 0), m(7, 1), m(7, 2), m(7, 3), m(7, 4), m(7, 5), m(7, 6), m(7, 7), m(7, 8), m(7, 9))
    ensures Cong(0x800000000000000000000000000000000000000000000 * v, Row7(m), P)
  {
    Intro(0x800000000000000000000000000000000000000000000 * v, Row7(m), 0x2 * m(7, 3) + 0x4000000 * m(7, 4) +
        0x10000000000000 * m(7, 5) + 0x20000000000000000000 * m(7, 6)
          + 0x80000000000000000000000000 * m(7, 7) + 0x100000000000000000000000000000000 * m(7, 8)
          + 0x400000000000000000000000000000000000000 * m(7, 9), P);
  }

  ghost function Row8(m: Grid): int {
    Weigh(19 * m(8, 2), 19 * m(8, 3), 19 * m(8, 4), 19 * m(8, 5), 19 * m(8, 6), 19 * m(8, 7), 19 * m(8, 8),
          19 * m(8, 9), m(8, 0), m(8, 1))
  }

  lemma RowCong8(m: Grid, v: int)
    requires v == Weigh(m(8, 0), m(8, 1), m(8, 2), m(8, 3), m(8, 4), m(8, 5), m(8, 6), m(8, 7), m(8, 8), m(8, 9))
    ensures Cong(0x1000000000000000000000000000000000000000000000000000 * v, Row8(m), P)
  {
    Intro(0x1000000000000000000000000000000000000000000000000000 * v, Row8(m), 0x1 * m(8, 2) + 0x4000000 * m(8, 3) +
        0x8000000000000 * m(8, 4) + 0x20000000000000000000 * m(8, 5)
          + 0x40000000000000000000000000 * m(8, 6) + 0x100000000000000000000000000000000 * m(8, 7)
          + 0x200000000000000000000000000000000000000 * m(8, 8)
          + 0x800000000000000000000000000000000000000000000 * m(8, 9), P);
  }

  ghost function Row9(m: Grid): int {
    Weigh(38 * m(9, 1), 19 * m(9, 2), 38 * m(9, 3), 19 * m(9, 4), 38 * m(9, 5), 19 * m(9, 6), 38 * m(9, 7),
          19 * m(9, 8), 38 * m(9, 9), m(9, 0))
  }

  lemma RowCong9(m: Grid, v: int)
    requires v == Weigh(m(9, 0), m(9, 1), m(9, 2), m(9, 3), m(9, 4), m(9, 5), m(9, 6), m(9, 7), m(9, 8), m(9, 9))
    ensures Cong(0x4000000000000000000000000000000000000000000000000000000000 * v, Row9(m), P)
  {
    Intro(0x4000000000000000000000000000000000000000000000000000000000 * v, Row9(m), 0x2 * m(9, 1) +
        0x4000000 * m(9, 2) + 0x10000000000000 * m(9, 3) + 0x20000000000000000000 * m(9, 4)
          + 0x80000000000000000000000000 * m(9, 5) + 0x100000000000000000000000000000000 * m(9, 6)
          + 0x400000000000000000000000000000000000000 * m(9, 7)
          + 0x800000000000000000000000000000000000000000000 * m(9, 8)
          + 0x2000000000000000000000000000000000000000000000000000 * m(9, 9), P);
  }

  lemma GatherLower(m: Grid)
    ensures Weigh(Lower(m, 0), Lower(m, 1), Lower(m, 2), Lower(m, 3), Lower(m, 4), Lower(m, 5), Lower(m, 6),
                  Lower(m, 7), Lower(m, 8), Lower(m, 9))
         == Row0(m) + Row1(m) + Row2(m) + Row3(m) + Row4(m)
  {
  }

  lemma GatherUpper(m: Grid)
    ensures Weigh(Upper(m, 0), Upper(m, 1), Upper(m, 2), Upper(m, 3), Upper(m, 4), Upper(m, 5), Upper(m, 6),
                  Upper(m, 7), Upper(m, 8), Upper(m, 9))
         == Row5(m) + Row6(m) + Row7(m) + Row8(m) + Row9(m)
  {
  }

  lemma WeighAdds(a0: int, a1: int, a2: int, a3: int, a4: int, a5: int, a6: int, a7: int, a8: int, a9: int,
                  b0: int, b1: int, b2: int, b3: int, b4: int, b5: int, b6: int, b7: int, b8: int, b9: int)
    ensures Weigh(a0, a1, a2, a3, a4, a5, a6, a7, a8, a9) + Weigh(b0, b1, b2, b3, b4, b5, b6, b7, b8, b9)
         == Weigh(a0 + b0, a1 + b1, a2 + b2, a3 + b3, a4 + b4, a5 + b5, a6 + b6, a7 + b7, a8 + b8, a9 + b9)
  {
  }

  lemma WeighScales(x: int, g0: int, g1: int, g2: int, g3: int, g4: int, g5: int, g6: int, g7: int, g8: int, g9: int)
    ensures x * Weigh(g0, g1, g2, g3, g4, g5, g6, g7, g8, g9)
         == Weigh(x * g0, x * g1, x * g2, x * g3, x * g4, x * g5, x * g6, x * g7, x * g8, x * g9)
  {
  }

  lemma SumCong(a0: int, a1: int, a2: int, a3: int, a4: int, a5: int, a6: int, a7: int, a8: int, a9: int,
                b0: int, b1: int, b2: int, b3: int, b4: int, b5: int, b6: int, b7: int, b8: int, b9: int)
    requires Cong(a0, b0, P) && Cong(a1, b1, P) && Cong(a2, b2, P) && Cong(a3, b3, P) && Cong(a4, b4, P)
    requires Cong(a5, b5, P) && Cong(a6, b6, P) && Cong(a7, b7, P) && Cong(a8, b8, P) && Cong(a9, b9, P)
    ensures Cong(a0 + a1 + a2 + a3 + a4 + a5 + a6 + a7 + a8 + a9, b0 + b1 + b2 + b3 + b4 + b5 + b6 + b7 + b8 + b9, P)
  {
    ModArith.Add(a0, b0, a1, b1, P);
    ModArith.Add(a0 + a1, b0 + b1, a2, b2, P);
    ModArith.Add(a0 + a1 + a2, b0 + b1 + b2, a3, b3, P);
    ModArith.Add(a0 + a1 + a2 + a3, b0 + b1 + b2 + b3, a4, b4, P);
    ModArith.Add(a0 + a1 + a2 + a3 + a4, b0 + b1 + b2 + b3 + b4, a5, b5, P);
    ModArith.Add(a0 + a1 + a2 + a3 + a4 + a5, b0 + b1 + b2 + b3 + b4 + b5, a6, b6, P);
    ModArith.Add(a0 + a1 + a2 + a3 + a4 + a5 + a6, b0 + b1 + b2 + b3 + b4 + b5 + b6, a7, b7, P);
    ModArith.Add(a0 + a1 + a2 + a3 + a4 + a5 + a6 + a7, b0 + b1 + b2 + b3 + b4 + b5 + b6 + b7, a8, b8, P);
    ModArith.Add(a0 + a1 + a2 + a3 + a4 + a5 + a6 + a7 + a8, b0 + b1 + b2 + b3 + b4 + b5 + b6 + b7 + b8, a9, b9, P);
  }

  /** Each row, weighed by its limb's position, is congruent to that limb's share of the product. */
  lemma RowShare(f: Fe, g: Fe, i: int)
    requires 0 <= i < 10
    ensures f[i] * Value(g) == Weigh(Products(f, g)(i, 0), Products(f, g)(i, 1), Products(f, g)(i, 2),
        Products(f, g)(i, 3), Products(f, g)(i, 4), Products(f, g)(i, 5), Products(f, g)(i, 6),
        Products(f, g)(i, 7), Products(f, g)(i, 8), Products(f, g)(i, 9))
  {
    WeighScales(f[i], g[0], g[1], g[2], g[3], g[4], g[5], g[6], g[7], g[8], g[9]);
  }

  lemma Distribute(f: Fe, G: int)
    ensures 0x1 * (f[0] * G) + 0x4000000 * (f[1] * G) + 0x8000000000000 * (f[2] * G) +
        0x20000000000000000000 * (f[3] * G) + 0x40000000000000000000000000 * (f[4] * G) +
        0x100000000000000000000000000000000 * (f[5] * G) + 0x200000000000000000000000000000000000000 * (f[6] * G) +
        0x800000000000000000000000000000000000000000000 * (f[7] * G) +
        0x1000000000000000000000000000000000000000000000000000 * (f[8] * G) +
        0x4000000000000000000000000000000000000000000000000000000000 * (f[9] * G) == Value(f) * G
  {
    WeighScales(G, f[0], f[1], f[2], f[3], f[4], f[5], f[6], f[7], f[8], f[9]);
  }

  lemma RowsCong(f: Fe, g: Fe)
    ensures Cong(Value(f) * Value(g), Row0(Products(f, g)) + Row1(Products(f, g)) + Row2(Products(f, g)) +
        Row3(Products(f, g)) + Row4(Products(f, g)) + Row5(Products(f, g)) + Row6(Products(f, g)) +
        Row7(Products(f, g)) + Row8(Products(f, g)) + Row9(Products(f, g)), P)
  {
    hide *;
    var m, G := Products(f, g), Value(g);
    RowShare(f, g, 0); RowCong0(m, f[0] * G);
    RowShare(f, g, 1); RowCong1(m, f[1] * G);
    RowShare(f, g, 2); RowCong2(m, f[2] * G);
    RowShare(f, g, 3); RowCong3(m, f[3] * G);
    RowShare(f, g, 4); RowCong4(m, f[4] * G);
    RowShare(f, g, 5); RowCong5(m, f[5] * G);
    RowShare(f, g, 6); RowCong6(m, f[6] * G);
    RowShare(f, g, 7); RowCong7(m, f[7] * G);
    RowShare(f, g, 8); RowCong8(m, f[8] * G);
    RowShare(f, g, 9); RowCong9(m, f[9] * G);
    SumCong(0x1 * (f[0] * G), 0x4000000 * (f[1] * G), 0x8000000000000 * (f[2] * G),
        0x20000000000000000000 * (f[3] * G), 0x40000000000000000000000000 * (f[4] * G),
        0x100000000000000000000000000000000 * (f[5] * G), 0x200000000000000000000000000000000000000 * (f[6] * G),
        0x800000000000000000000000000000000000000000000 * (f[7] * G),
        0x1000000000000000000000000000000000000000000000000000 * (f[8] * G),
        0x4000000000000000000000000000000000000000000000000000000000 * (f[9] * G),
            Row0(m), Row1(m), Row2(m), Row3(m), Row4(m), Row5(m), Row6(m), Row7(m), Row8(m), Row9(m));
    Distribute(f, G);
  }

  lemma ProductIsRows(f: Fe, g: Fe, h: Fe)
    requires forall k :: 0 <= k < 10 ==> h[k] == Column(f, g, k)
    ensures Value(h) == Row0(Products(f, g)) + Row1(Products(f, g)) + Row2(Products(f, g)) + Row3(Products(f, g)) +
        Row4(Products(f, g)) + Row5(Products(f, g)) + Row6(Products(f, g)) + Row7(Products(f, g)) +
        Row8(Products(f, g)) + Row9(Products(f, g))
  {
    hide Lower, Upper, Column, Row0, Row1, Row2, Row3, Row4, Row5, Row6, Row7, Row8, Row9, Weigh, Products;
    var m := Products(f, g);
    GatherLower(m);
    GatherUpper(m);
    WeighAdds(Lower(m, 0), Lower(m, 1), Lower(m, 2), Lower(m, 3), Lower(m, 4), Lower(m, 5), Lower(m, 6),
        Lower(m, 7), Lower(m, 8), Lower(m, 9),
              Upper(m, 0), Upper(m, 1), Upper(m, 2), Upper(m, 3), Upper(m, 4), Upper(m, 5), Upper(m, 6),
                  Upper(m, 7), Upper(m, 8), Upper(m, 9));
    Column0(f, g); Column1(f, g); Column2(f, g); Column3(f, g); Column4(f, g);
    Column5(f, g); Column6(f, g); Column7(f, g); Column8(f, g); Column9(f, g);
  }

  lemma MulCong(f: Fe, g: Fe, h: Fe)
    requires forall k :: 0 <= k < 10 ==> h[k] == Column(f, g, k)
    ensures Cong(Value(h), Value(f) * Value(g), P)
  {
    hide Cong, Value, Column, Products, Row0, Row1, Row2, Row3, Row4, Row5, Row6, Row7, Row8, Row9;
    RowsCong(f, g);
    ProductIsRows(f, g, h);
    Sym(Value(f) * Value(g), Value(h), P);
  }

  lemma NonNegative(a: nat, b: nat)
    ensures a * b >= 0
  { }

  lemma ProductBound(x: int, y: int)
    requires Small(x, 0x10000000) && Small(y, 0x10000000)
    ensures Small(x * y, 0x100000000000000)
  {
    NonNegative(0x10000000 - x, 0x10000000 + y);
    NonNegative(0x10000000 + x, 0x10000000 - y);
    NonNegative(0x10000000 - x, 0x10000000 - y);
    NonNegative(0x10000000 + x, 0x10000000 + y);
  }

  lemma PartBounds(m: Grid, k: int)
    requires 0 <= k < 10
    requires forall i, j :: Small(m(i, j), 0x100000000000000)
    ensures Small(Lower(m, k), 190 * 0x100000000000000) && Small(Upper(m, k), 190 * 0x100000000000000)
  {
  }

  /** No column of a legal product leaves the range carry_mul accepts, far inside an i128. */
  lemma ColumnBound(f: Fe, g: Fe, k: int)
    requires Factor(f) && Factor(g) && 0 <= k < 10
    ensures Small(Column(f, g, k), 0x4_0000_0000_0000_0000)
  {
    var m := Products(f, g);
    forall i, j ensures Small(m(i, j), 0x100000000000000) {
      if 0 <= i < 10 && 0 <= j < 10 {
        ProductBound(f[i], g[j]);
      }
    }
    hide Column, Lower, Upper;
    PartBounds(m, k);
    Column0(f, g); Column1(f, g); Column2(f, g); Column3(f, g); Column4(f, g);
    Column5(f, g); Column6(f, g); Column7(f, g); Column8(f, g); Column9(f, g);
  }

  /** The j-th term of column k is the product of these: limb j of f, doubled when both limbs have odd numbers, */
  function LeftFactor(f: Fe, k: int, j: int): int
    requires 0 <= k < 10 && 0 <= j < 10
  {
    if j % 2 == 1 && (k - j) % 2 == 1 then 2 * f[j] else f[j]
  }

  /** and the limb of g that completes the weight, times nineteen when the product passes 2^255. */
  function RightFactor(g: Fe, k: int, j: int): int
    requires 0 <= k < 10 && 0 <= j < 10
  {
    if j > k then 19 * g[k - j + 10] else g[k - j]
  }

  /** The sum of the first j terms, from left to right. */
  function PartialSum(f: Fe, g: Fe, k: int, j: nat): int
    requires 0 <= k < 10 && j <= 10
  {
    if j == 0 then 0 else PartialSum(f, g, k, j - 1) + LeftFactor(f, k, j - 1) * RightFactor(g, k, j - 1)
  }

  lemma TermBound(f: Fe, g: Fe, k: int, j: int)
    requires Factor(f) && Factor(g) && 0 <= k < 10 && 0 <= j < 10
    ensures Small(LeftFactor(f, k, j), 0x20000000) && Small(RightFactor(g, k, j), 19 * 0x10000000)
    ensures Small(LeftFactor(f, k, j) * RightFactor(g, k, j), 38 * 0x100000000000000)
  {
    var i := if j > k then k - j + 10 else k - j;
    ProductBound(f[j], g[i]);
    Scaled(f[j], g[i]);
    Doubled(f[j], g[i]);
  }

  lemma Doubled(x: int, y: int)
    ensures (2 * x) * y == 2 * (x * y)
  { }

  /** No factor, product or partial sum of a legal multiplication comes near the ends of an i128. */
  lemma {:induction false} PartialSums(f: Fe, g: Fe, k: int, j: nat)
    requires Factor(f) && Factor(g) && 0 <= k < 10 && j <= 10
    ensures Small(PartialSum(f, g, k, j), j * (38 * 0x100000000000000))
    ensures PartialSum(f, g, k, 10) == Column(f, g, k)
    decreases j
  {
    SumOfTerms(f, g, k);
    hide Column, LeftFactor, RightFactor, Factor, PartialSum;
    if j == 0 {
      NoTerms(f, g, k);
    } else {
      TermBound(f, g, k, j - 1);
      NextTerm(f, g, k, j - 1);
      PartialSums(f, g, k, j - 1);
    }
  }

  lemma SumOfTerms(f: Fe, g: Fe, k: int)
    requires 0 <= k < 10
    ensures PartialSum(f, g, k, 10) == Column(f, g, k)
  {
    Terms(f, g, k);
    hide PartialSum;
  }

  lemma Terms(f: Fe, g: Fe, k: int)
    requires 0 <= k < 10
    ensures PartialSum(f, g, k, 10)
         == LeftFactor(f, k, 0) * RightFactor(g, k, 0) + LeftFactor(f, k, 1) * RightFactor(g, k, 1)
          + LeftFactor(f, k, 2) * RightFactor(g, k, 2) + LeftFactor(f, k, 3) * RightFactor(g, k, 3)
          + LeftFactor(f, k, 4) * RightFactor(g, k, 4) + LeftFactor(f, k, 5) * RightFactor(g, k, 5)
          + LeftFactor(f, k, 6) * RightFactor(g, k, 6) + LeftFactor(f, k, 7) * RightFactor(g, k, 7)
          + LeftFactor(f, k, 8) * RightFactor(g, k, 8) + LeftFactor(f, k, 9) * RightFactor(g, k, 9)
  {
    hide LeftFactor, RightFactor, PartialSum;
    NoTerms(f, g, k);
    NextTerm(f, g, k, 0); NextTerm(f, g, k, 1); NextTerm(f, g, k, 2); NextTerm(f, g, k, 3); NextTerm(f, g, k, 4);
    NextTerm(f, g, k, 5); NextTerm(f, g, k, 6); NextTerm(f, g, k, 7); NextTerm(f, g, k, 8); NextTerm(f, g, k, 9);
  }

  lemma NoTerms(f: Fe, g: Fe, k: int)
    requires 0 <= k < 10
    ensures PartialSum(f, g, k, 0) == 0
  { }

  lemma NextTerm(f: Fe, g: Fe, k: int, j: nat)
    requires 0 <= k < 10 && j < 10
    ensures PartialSum(f, g, k, j + 1) == PartialSum(f, g, k, j) + LeftFactor(f, k, j) * RightFactor(g, k, j)
  {
    hide LeftFactor, RightFactor;
  }

  method Mul(f: Fe, g: Fe) returns (r: Fe)
    requires Factor(f) && Factor(g)
    ensures Reduced(r)
    ensures Cong(Value(r), Value(f) * Value(g), P)
  {
    hide Column;
    forall k | 0 <= k < 10 ensures Small(Column(f, g, k), 0x4_0000_0000_0000_0000) {
      ColumnBound(f, g, k);
    }
    var h: Fe := [Column(f, g, 0), Column(f, g, 1), Column(f, g, 2), Column(f, g, 3), Column(f, g, 4),
                  Column(f, g, 5), Column(f, g, 6), Column(f, g, 7), Column(f, g, 8), Column(f, g, 9)];
    MulCong(f, g, h);
    r := CarryMul(h);
    Trans(Value(r), Value(h), Value(f) * Value(g), P);
  }

  // ---- Addition, subtraction, negation ----

  function Add(f: Fe, g: Fe): (r: Fe)
    ensures Value(r) == Value(f) + Value(g)
  {
    [f[0] + g[0], f[1] + g[1], f[2] + g[2], f[3] + g[3], f[4] + g[4],
     f[5] + g[5], f[6] + g[6], f[7] + g[7], f[8] + g[8], f[9] + g[9]]
  }

  function Sub(f: Fe, g: Fe): (r: Fe)
    ensures Value(r) == Value(f) - Value(g)
  {
    [f[0] - g[0], f[1] - g[1], f[2] - g[2], f[3] - g[3], f[4] - g[4],
     f[5] - g[5], f[6] - g[6], f[7] - g[7], f[8] - g[8], f[9] - g[9]]
  }

  function Neg(f: Fe): (r: Fe)
    ensures Value(r) == -Value(f)
  {
    [-f[0], -f[1], -f[2], -f[3], -f[4], -f[5], -f[6], -f[7], -f[8], -f[9]]
  }

  const ZERO: Fe := [0, 0, 0, 0, 0, 0, 0, 0, 0, 0]
  const ONE: Fe := [1, 0, 0, 0, 0, 0, 0, 0, 0, 0]

  lemma WeighZero()
    ensures Weigh(0, 0, 0, 0, 0, 0, 0, 0, 0, 0) == 0
  {
  }

  lemma ZeroElement()
    ensures Value(ZERO) == 0 && Reduced(ZERO)
  {
    hide Weigh;
    WeighZero();
  }

  lemma OneElement()
    ensures Value(ONE) == 1 && Within(ONE, 1) && Reduced(ONE)
  {
  }

  /** Limb bounds of sums and differences add up. */
  lemma AddWithin(f: Fe, g: Fe, a: int, b: int)
    requires Within(f, a) && Within(g, b)
    ensures Within(Add(f, g), a + b) && Within(Sub(f, g), a + b) && Within(Neg(f), a)
  {
    hide Within, Value;
    SumWithin(f, g, a, b);
    DifferenceWithin(f, g, a, b);
    NegWithin(f, a);
  }

  lemma SumWithin(f: Fe, g: Fe, a: int, b: int)
    requires Within(f, a) && Within(g, b)
    ensures Within(Add(f, g), a + b)
  {
    hide Value;
  }

  lemma DifferenceWithin(f: Fe, g: Fe, a: int, b: int)
    requires Within(f, a) && Within(g, b)
    ensures Within(Sub(f, g), a + b)
  {
    hide Value;
  }

  lemma NegWithin(f: Fe, a: int)
    requires Within(f, a)
    ensures Within(Neg(f), a)
  {
    hide Value;
  }

  method Square(f: Fe) returns (r: Fe)
    requires Factor(f)
    ensures Reduced(r)
    ensures Cong(Value(r), Value(f) * Value(f), P)
  {
    r := Mul(f, f);
  }
}
