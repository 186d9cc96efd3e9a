/** The 16-bit CRC with polynomial 0x1021 and initial value 0xFFFF: by table, a byte at a time, and by its
    definition, a bit at a time. */
module Crc16 {
  import opened Words

  // ---- By definition ----

  /** One step of the shift register: up by one bit, and the polynomial where the bit that leaves is one. */
  function Bit(c: bv16): bv16 {
    (c << 1) ^ (0x1021 & (0 - (c >> 15)))
  }

  function Bit8(c: bv16): bv16 {
    Bit(Bit(Bit(Bit(Bit(Bit(Bit(Bit(c))))))))
  }

  function Hi(b: bv8): bv16 { (b as bv16) << 8 }
  function Lo(b: bv8): bv16 { b as bv16 }
  function Xor(a: bv16, b: bv16): bv16 { a ^ b }

  function ByBits(c: bv16, data: Octets): bv16 {
    if data == [] then c else Bit8(Xor(ByBits(c, data[..|data| - 1]), Hi(data[|data| - 1])))
  }

  // ---- The table ----

  function Row0(j: nat): bv16 {
    if j == 0 then 0x0000 else if j == 1 then 0x1021 else if j == 2 then 0x2042 else if j == 3 then 0x3063 else
    if j == 4 then 0x4084 else if j == 5 then 0x50A5 else if j == 6 then 0x60C6 else if j == 7 then 0x70E7 else
    if j == 8 then 0x8108 else if j == 9 then 0x9129 else if j == 10 then 0xA14A else if j == 11 then 0xB16B else
    if j == 12 then 0xC18C else if j == 13 then 0xD1AD else if j == 14 then 0xE1CE else 0xF1EF
  }

  function Row1(j: nat): bv16 {
    if j == 0 then 0x1231 else if j == 1 then 0x0210 else if j == 2 then 0x3273 else if j == 3 then 0x2252 else
    if j == 4 then 0x52B5 else if j == 5 then 0x4294 else if j == 6 then 0x72F7 else if j == 7 then 0x62D6 else
    if j == 8 then 0x9339 else if j == 9 then 0x8318 else if j == 10 then 0xB37B else if j == 11 then 0xA35A else
    if j == 12 then 0xD3BD else if j == 13 then 0xC39C else if j == 14 then 0xF3FF else 0xE3DE
  }

  function Row2(j: nat): bv16 {
    if j == 0 then 0x2462 else if j == 1 then 0x3443 else if j == 2 then 0x0420 else if j == 3 then 0x1401 else
    if j == 4 then 0x64E6 else if j == 5 then 0x74C7 else if j == 6 then 0x44A4 else if j == 7 then 0x5485 else
    if j == 8 then 0xA56A else if j == 9 then 0xB54B else if j == 10 then 0x8528 else if j == 11 then 0x9509 else
    if j == 12 then 0xE5EE else if j == 13 then 0xF5CF else if j == 14 then 0xC5AC else 0xD58D
  }

  function Row3(j: nat): bv16 {
    if j == 0 then 0x3653 else if j == 1 then 0x2672 else if j == 2 then 0x1611 else if j == 3 then 0x0630 else
    if j == 4 then 0x76D7 else if j == 5 then 0x66F6 else if j == 6 then 0x5695 else if j == 7 then 0x46B4 else
    if j == 8 then 0xB75B else if j == 9 then 0xA77A else if j == 10 then 0x9719 else if j == 11 then 0x8738 else
    if j == 12 then 0xF7DF else if j == 13 then 0xE7FE else if j == 14 then 0xD79D else 0xC7BC
  }

  function Row4(j: nat): bv16 {
    if j == 0 then 0x48C4 else if j == 1 then 0x58E5 else if j == 2 then 0x6886 else if j == 3 then 0x78A7 else
    if j == 4 then 0x0840 else if j == 5 then 0x1861 else if j == 6 then 0x2802 else if j == 7 then 0x3823 else
    if j == 8 then 0xC9CC else if j == 9 then 0xD9ED else if j == 10 then 0xE98E else if j == 11 then 0xF9AF else
    if j == 12 then 0x8948 else if j == 13 then 0x9969 else if j == 14 then 0xA90A else 0xB92B
  }

  function Row5(j: nat): bv16 {
    if j == 0 then 0x5AF5 else if j == 1 then 0x4AD4 else if j == 2 then 0x7AB7 else if j == 3 then 0x6A96 else
    if j == 4 then 0x1A71 else if j == 5 then 0x0A50 else if j == 6 then 0x3A33 else if j == 7 then 0x2A12 else
    if j == 8 then 0xDBFD else if j == 9 then 0xCBDC else if j == 10 then 0xFBBF else if j == 11 then 0xEB9E else
    if j == 12 then 0x9B79 else if j == 13 then 0x8B58 else if j == 14 then 0xBB3B else 0xAB1A
  }

  function Row6(j: nat): bv16 {
    if j == 0 then 0x6CA6 else if j == 1 then 0x7C87 else if j == 2 then 0x4CE4 else if j == 3 then 0x5CC5 else
    if j == 4 then 0x2C22 else if j == 5 then 0x3C03 else if j == 6 then 0x0C60 else if j == 7 then 0x1C41 else
    if j == 8 then 0xEDAE else if j == 9 then 0xFD8F else if j == 10 then 0xCDEC else if j == 11 then 0xDDCD else
    if j == 12 then 0xAD2A else if j == 13 then 0xBD0B else if j == 14 then 0x8D68 else 0x9D49
  }

  function Row7(j: nat): bv16 {
    if j == 0 then 0x7E97 else if j == 1 then 0x6EB6 else if j == 2 then 0x5ED5 else if j == 3 then 0x4EF4 else
    if j == 4 then 0x3E13 else if j == 5 then 0x2E32 else if j == 6 then 0x1E51 else if j == 7 then 0x0E70 else
    if j == 8 then 0xFF9F else if j == 9 then 0xEFBE else if j == 10 then 0xDFDD else if j == 11 then 0xCFFC else
    if j == 12 then 0xBF1B else if j == 13 then 0xAF3A else if j == 14 then 0x9F59 else 0x8F78
  }

  function Row8(j: nat): bv16 {
    if j == 0 then 0x9188 else if j == 1 then 0x81A9 else if j == 2 then 0xB1CA else if j == 3 then 0xA1EB else
    if j == 4 then 0xD10C else if j == 5 then 0xC12D else if j == 6 then 0xF14E else if j == 7 then 0xE16F else
    if j == 8 then 0x1080 else if j == 9 then 0x00A1 else if j == 10 then 0x30C2 else if j == 11 then 0x20E3 else
    if j == 12 then 0x5004 else if j == 13 then 0x4025 else if j == 14 then 0x7046 else 0x6067
  }

  function Row9(j: nat): bv16 {
    if j == 0 then 0x83B9 else if j == 1 then 0x9398 else if j == 2 then 0xA3FB else if j == 3 then 0xB3DA else
    if j == 4 then 0xC33D else if j == 5 then 0xD31C else if j == 6 then 0xE37F else if j == 7 then 0xF35E else
    if j == 8 then 0x02B1 else if j == 9 then 0x1290 else if j == 10 then 0x22F3 else if j == 11 then 0x32D2 else
    if j == 12 then 0x4235 else if j == 13 then 0x5214 else if j == 14 then 0x6277 else 0x7256
  }

  function RowA(j: nat): bv16 {
    if j == 0 then 0xB5EA else if j == 1 then 0xA5CB else if j == 2 then 0x95A8 else if j == 3 then 0x8589 else
    if j == 4 then 0xF56E else if j == 5 then 0xE54F else if j == 6 then 0xD52C else if j == 7 then 0xC50D else
    if j == 8 then 0x34E2 else if j == 9 then 0x24C3 else if j == 10 then 0x14A0 else if j == 11 then 0x0481 else
    if j == 12 then 0x7466 else if j == 13 then 0x6447 else if j == 14 then 0x5424 else 0x4405
  }

  function RowB(j: nat): bv16 {
    if j == 0 then 0xA7DB else if j == 1 then 0xB7FA else if j == 2 then 0x8799 else if j == 3 then 0x97B8 else
    if j == 4 then 0xE75F else if j == 5 then 0xF77E else if j == 6 then 0xC71D else if j == 7 then 0xD73C else
    if j == 8 then 0x26D3 else if j == 9 then 0x36F2 else if j == 10 then 0x0691 else if j == 11 then 0x16B0 else
    if j == 12 then 0x6657 else if j == 13 then 0x7676 else if j == 14 then 0x4615 else 0x5634
  }

  function RowC(j: nat): bv16 {
    if j == 0 then 0xD94C else if j == 1 then 0xC96D else if j == 2 then 0xF90E else if j == 3 then 0xE92F else
    if j == 4 then 0x99C8 else if j == 5 then 0x89E9 else if j == 6 then 0xB98A else if j == 7 then 0xA9AB else
    if j == 8 then 0x5844 else if j == 9 then 0x4865 else if j == 10 then 0x7806 else if j == 11 then 0x6827 else
    if j == 12 then 0x18C0 else if j == 13 then 0x08E1 else if j == 14 then 0x3882 else 0x28A3
  }

  function RowD(j: nat): bv16 {
    if j == 0 then 0xCB7D else if j == 1 then 0xDB5C else if j == 2 then 0xEB3F else if j == 3 then 0xFB1E else
    if j == 4 then 0x8BF9 else if j == 5 then 0x9BD8 else if j == 6 then 0xABBB else if j == 7 then 0xBB9A else
    if j == 8 then 0x4A75 else if j == 9 then 0x5A54 else if j == 10 then 0x6A37 else if j == 11 then 0x7A16 else
    if j == 12 then 0x0AF1 else if j == 13 then 0x1AD0 else if j == 14 then 0x2AB3 else 0x3A92
  }

  function RowE(j: nat): bv16 {
    if j == 0 then 0xFD2E else if j == 1 then 0xED0F else if j == 2 then 0xDD6C else if j == 3 then 0xCD4D else
    if j == 4 then 0xBDAA else if j == 5 then 0xAD8B else if j == 6 then 0x9DE8 else if j == 7 then 0x8DC9 else
    if j == 8 then 0x7C26 else if j == 9 then 0x6C07 else if j == 10 then 0x5C64 else if j == 11 then 0x4C45 else
    if j == 12 then 0x3CA2 else if j == 13 then 0x2C83 else if j == 14 then 0x1CE0 else 0x0CC1
  }

  function RowF(j: nat): bv16 {
    if j == 0 then 0xEF1F else if j == 1 then 0xFF3E else if j == 2 then 0xCF5D else if j == 3 then 0xDF7C else
    if j == 4 then 0xAF9B else if j == 5 then 0xBFBA else if j == 6 then 0x8FD9 else if j == 7 then 0x9FF8 else
    if j == 8 then 0x6E17 else if j == 9 then 0x7E36 else if j == 10 then 0x4E55 else if j == 11 then 0x5E74 else
    if j == 12 then 0x2E93 else if j == 13 then 0x3EB2 else if j == 14 then 0x0ED1 else 0x1EF0
  }

  function Row(r: nat, j: nat): bv16 {
    match r
    case 0 => Row0(j)
    case 1 => Row1(j)
    case 2 => Row2(j)
    case 3 => Row3(j)
    case 4 => Row4(j)
    case 5 => Row5(j)
    case 6 => Row6(j)
    case 7 => Row7(j)
    case 8 => Row8(j)
    case 9 => Row9(j)
    case 10 => RowA(j)
    case 11 => RowB(j)
    case 12 => RowC(j)
    case 13 => RowD(j)
    case 14 => RowE(j)
    case _ => RowF(j)
  }

  function Table(i: nat): bv16
    requires i < 256
  {
    Row(i / 16, i % 16)
  }

  lemma Pair0(j: nat)
    requires j < 8
    ensures Row0(2 * j) == Bit(Row0(j)) && Row0(2 * j + 1) == Xor(Bit(Row0(j)), 0x1021)
    ensures Row1(2 * j) == Bit(Row0(j + 8)) && Row1(2 * j + 1) == Xor(Bit(Row0(j + 8)), 0x1021)
  {
  }

  lemma Pair1(j: nat)
    requires j < 8
    ensures Row2(2 * j) == Bit(Row1(j)) && Row2(2 * j + 1) == Xor(Bit(Row1(j)), 0x1021)
    ensures Row3(2 * j) == Bit(Row1(j + 8)) && Row3(2 * j + 1) == Xor(Bit(Row1(j + 8)), 0x1021)
  {
  }

  lemma Pair2(j: nat)
    requires j < 8
    ensures Row4(2 * j) == Bit(Row2(j)) && Row4(2 * j + 1) == Xor(Bit(Row2(j)), 0x1021)
    ensures Row5(2 * j) == Bit(Row2(j + 8)) && Row5(2 * j + 1) == Xor(Bit(Row2(j + 8)), 0x1021)
  {
  }

  lemma Pair3(j: nat)
    requires j < 8
    ensures Row6(2 * j) == Bit(Row3(j)) && Row6(2 * j + 1) == Xor(Bit(Row3(j)), 0x1021)
    ensures Row7(2 * j) == Bit(Row3(j + 8)) && Row7(2 * j + 1) == Xor(Bit(Row3(j + 8)), 0x1021)
  {
  }

  lemma Pair4(j: nat)
    requires j < 8
    ensures Row8(2 * j) == Bit(Row4(j)) && Row8(2 * j + 1) == Xor(Bit(Row4(j)), 0x1021)
    ensures Row9(2 * j) == Bit(Row4(j + 8)) && Row9(2 * j + 1) == Xor(Bit(Row4(j + 8)), 0x1021)
  {
  }

  lemma Pair5(j: nat)
    requires j < 8
    ensures RowA(2 * j) == Bit(Row5(j)) && RowA(2 * j + 1) == Xor(Bit(Row5(j)), 0x1021)
    ensures RowB(2 * j) == Bit(Row5(j + 8)) && RowB(2 * j + 1) == Xor(Bit(Row5(j + 8)), 0x1021)
  {
  }

  lemma Pair6(j: nat)
    requires j < 8
    ensures RowC(2 * j) == Bit(Row6(j)) && RowC(2 * j + 1) == Xor(Bit(Row6(j)), 0x1021)
    ensures RowD(2 * j) == Bit(Row6(j + 8)) && RowD(2 * j + 1) == Xor(Bit(Row6(j + 8)), 0x1021)
  {
  }

  lemma Pair7(j: nat)
    requires j < 8
    ensures RowE(2 * j) == Bit(Row7(j)) && RowE(2 * j + 1) == Xor(Bit(Row7(j)), 0x1021)
    ensures RowF(2 * j) == Bit(Row7(j + 8)) && RowF(2 * j + 1) == Xor(Bit(Row7(j + 8)), 0x1021)
  {
  }

  lemma PairRow(r: nat, j: nat)
    requires r < 8 && j < 8
    ensures Row(2 * r, 2 * j) == Bit(Row(r, j)) && Row(2 * r, 2 * j + 1) == Xor(Bit(Row(r, j)), 0x1021)
    ensures Row(2 * r + 1, 2 * j) == Bit(Row(r, j + 8)) && Row(2 * r + 1, 2 * j + 1) == Xor(Bit(Row(r, j + 8)), 0x1021)
  {
    hide Bit, Xor, Row0, Row1, Row2, Row3, Row4, Row5, Row6, Row7, Row8, Row9, RowA, RowB, RowC, RowD, RowE, RowF;
    match r
    case 0 => Pair0(j);
    case 1 => Pair1(j);
    case 2 => Pair2(j);
    case 3 => Pair3(j);
    case 4 => Pair4(j);
    case 5 => Pair5(j);
    case 6 => Pair6(j);
    case _ => Pair7(j);
  }

  /** The table follows the register: entry 2i is a step on from entry i, entry 2i + 1 that and the polynomial. */
  lemma TableDoubles(i: nat)
    requires i < 128
    ensures Table(2 * i) == Bit(Table(i)) && Table(2 * i + 1) == Xor(Bit(Table(i)), 0x1021)
  {
    hide Bit, Row, Xor;
    var r, j := i / 16, i % 8;
    PairRow(r, j);
    assert i % 16 == j || i % 16 == j + 8;
    assert (2 * i) / 16 == (if i % 16 == j then 2 * r else 2 * r + 1) && (2 * i) % 16 == 2 * j;
    assert (2 * i + 1) / 16 == (2 * i) / 16 && (2 * i + 1) % 16 == 2 * j + 1;
  }

  // ---- The register is linear and reversible ----

  lemma BitLinear(a: bv16, b: bv16)
    ensures Bit(Xor(a, b)) == Xor(Bit(a), Bit(b))
  {
    assert Xor((a << 1) ^ (0x1021 & (0 - (a >> 15))), (b << 1) ^ (0x1021 & (0 - (b >> 15)))) == Bit(a ^ b);
  }

  lemma Bit8Linear(a: bv16, b: bv16)
    ensures Bit8(Xor(a, b)) == Xor(Bit8(a), Bit8(b))
  {
    hide Bit, Xor;
    var (a1, b1) := (Bit(a), Bit(b));
    var (a2, b2) := (Bit(a1), Bit(b1));
    var (a3, b3) := (Bit(a2), Bit(b2));
    var (a4, b4) := (Bit(a3), Bit(b3));
    var (a5, b5) := (Bit(a4), Bit(b4));
    var (a6, b6) := (Bit(a5), Bit(b5));
    var (a7, b7) := (Bit(a6), Bit(b6));
    BitLinear(a, b);
    BitLinear(a1, b1);
    BitLinear(a2, b2);
    BitLinear(a3, b3);
    BitLinear(a4, b4);
    BitLinear(a5, b5);
    BitLinear(a6, b6);
    BitLinear(a7, b7);
  }

  /** Eight steps lose nothing. */
  lemma Bit8Injective(a: bv16, b: bv16)
    requires Bit8(a) == Bit8(b)
    ensures a == b
  {
    hide Bit;
    Back(Bit(Bit(Bit(Bit(Bit(Bit(Bit(a))))))), Bit(Bit(Bit(Bit(Bit(Bit(Bit(b))))))));
    Back(Bit(Bit(Bit(Bit(Bit(Bit(a)))))), Bit(Bit(Bit(Bit(Bit(Bit(b)))))));
    Back(Bit(Bit(Bit(Bit(Bit(a))))), Bit(Bit(Bit(Bit(Bit(b))))));
    Back(Bit(Bit(Bit(Bit(a)))), Bit(Bit(Bit(Bit(b)))));
    Back(Bit(Bit(Bit(a))), Bit(Bit(Bit(b))));
    Back(Bit(Bit(a)), Bit(Bit(b)));
    Back(Bit(a), Bit(b));
    Back(a, b);
  }

  lemma Back(a: bv16, b: bv16)
    requires Bit(a) == Bit(b)
    ensures a == b
  { }

  /** Eight steps carry a low byte to the high half untouched. */
  lemma Bit8Low(b: bv8)
    ensures Bit8(Lo(b)) == Hi(b)
  { }

  lemma Constants()
    ensures Bit8(0) == 0 && Bit8(0x0100) == 0x1021 && Table(0) == 0
  { }

  lemma XorZero(a: bv16)
    ensures Xor(a, 0) == a
  {
  }

  /** A byte in the high half is its upper seven bits a step on, and its last bit. */
  lemma HalfOf(h: bv8)
    ensures h as nat == 2 * (h >> 1) as nat + (h & 1) as nat && (h & 1 == 0 || h & 1 == 1) && (h >> 1) as nat < 128
    ensures h & 1 == 0 ==> Hi(h) == Bit(Hi(h >> 1))
    ensures h & 1 == 1 ==> Hi(h) == Xor(Bit(Hi(h >> 1)), 0x0100)
  { }

  lemma NineSteps(c: bv16)
    ensures Bit8(Bit(c)) == Bit(Bit8(c))
  { }

  /** Entry h of the table is eight steps of the register from h in the high byte. */
  lemma {:induction false} TableIsBits(h: bv8)
    ensures h as nat < 256 && Table(h as nat) == Bit8(Hi(h))
    decreases h as nat
  {
    hide Bit, Bit8, Table, Hi, Xor;
    Constants();
    if h == 0 {
      assert Hi(0) == 0 by { HiZero(); }
    } else {
      var g := h >> 1;
      HalfOf(h);
      TableIsBits(g);
      TableDoubles(g as nat);
      NineSteps(Hi(g));
      Bit8Linear(Bit(Hi(g)), 0x0100);
    }
  }

  lemma HiZero()
    ensures Hi(0) == 0
  {
  }

  // ---- By table ----

  function Index(c: bv16, b: bv8): nat {
    ((c >> 8) ^ (b as bv16)) as nat
  }

  function High(c: bv16): bv8 { (c >> 8) as bv8 }
  function Low(c: bv16): bv8 { (c & 0xFF) as bv8 }

  lemma IndexIs(c: bv16, b: bv8)
    ensures Index(c, b) < 256 && Index(c, b) == (High(c) ^ b) as nat
  {
    assert (c >> 8) ^ (b as bv16) == (((c >> 8) as bv8) ^ b) as bv16;
  }

  lemma Parts(c: bv16, b: bv8)
    ensures Xor(c, Hi(b)) == Xor(Hi(High(c) ^ b), Lo(Low(c)))
    ensures Hi(Low(c)) == c << 8
  { }

  lemma XorCommutes(a: bv16, b: bv16)
    ensures Xor(a, b) == Xor(b, a)
  {
  }

  function ByTable(c: bv16, b: bv8): bv16 {
    IndexIs(c, b);
    Xor(c << 8, Table(Index(c, b)))
  }

  /** A look-up does what eight steps of the register do. */
  lemma ByteStep(c: bv16, b: bv8)
    ensures ByTable(c, b) == Bit8(Xor(c, Hi(b)))
  {
    hide Bit8, Table, Hi, Lo, Xor, Index, High, Low;
    IndexIs(c, b);
    Parts(c, b);
    TableIsBits(High(c) ^ b);
    Bit8Linear(Hi(High(c) ^ b), Lo(Low(c)));
    Bit8Low(Low(c));
    XorCommutes(Hi(Low(c)), Table(Index(c, b)));
  }

  function Crc(data: Octets): bv16 {
    ByBits(0xFFFF, data)
  }

  /** The code's table loop computes the CRC. */
  method Checksum(data: Octets) returns (crc: bv16)
    ensures crc == Crc(data)
  {
    hide Bit8, Xor, Hi, ByTable;
    crc := 0xFFFF;
    for i := 0 to |data|
      invariant crc == ByBits(0xFFFF, data[..i])
    {
      ByteStep(crc, data[i]);
      assert data[..i + 1][..i] == data[..i];
      crc := ByTable(crc, data[i]);
    }
    assert data[..|data|] == data;
  }

  // ---- What it detects ----

  lemma Tail(c: bv16, data: Octets, j: nat)
    requires j < |data|
    ensures ByBits(c, data[..j + 1]) == Bit8(Xor(ByBits(c, data[..j]), Hi(data[j])))
  {
    assert data[..j + 1][..j] == data[..j];
  }

  /** Two bytes enter the register as one sixteen-bit word. */
  lemma TwoBytes(s: bv16, a: bv8, b: bv8)
    ensures Bit8(Xor(Bit8(Xor(s, Hi(a))), Hi(b))) == Bit8(Bit8(Xor(Xor(s, Hi(a)), Lo(b))))
  {
    hide Bit8, Xor, Hi, Lo;
    Bit8Low(b);
    Bit8Linear(Xor(s, Hi(a)), Lo(b));
  }

  lemma WordInjective(s: bv16, a: bv8, b: bv8, a': bv8, b': bv8)
    requires Xor(Xor(s, Hi(a)), Lo(b)) == Xor(Xor(s, Hi(a')), Lo(b'))
    ensures a == a' && b == b'
  { }

  /** A byte does not undo a difference. */
  lemma StaysDifferent(s: bv16, t: bv16, b: bv8)
    requires Bit8(Xor(s, Hi(b))) == Bit8(Xor(t, Hi(b)))
    ensures s == t
  {
    hide Bit8, Hi;
    Bit8Injective(Xor(s, Hi(b)), Xor(t, Hi(b)));
    Unxor(s, Hi(b));
    Unxor(t, Hi(b));
  }

  lemma Unxor(s: bv16, h: bv16)
    ensures Xor(Xor(s, h), h) == s
  { }

  lemma {:induction false} ChangeShows(c: bv16, x: Octets, y: Octets, k: nat, j: nat)
    requires |x| == |y| && k + 2 <= j <= |x| && x != y
    requires forall i :: 0 <= i < |x| && i != k && i != k + 1 ==> x[i] == y[i]
    ensures ByBits(c, x[..j]) != ByBits(c, y[..j])
    decreases j
  {
    hide Bit8, Xor, Hi, Lo, ByBits;
    if j == k + 2 {
      assert x[..k] == y[..k];
      var s := ByBits(c, x[..k]);
      Tail(c, x, k);
      Tail(c, x, k + 1);
      Tail(c, y, k);
      Tail(c, y, k + 1);
      TwoBytes(s, x[k], x[k + 1]);
      TwoBytes(s, y[k], y[k + 1]);
      if ByBits(c, x[..j]) == ByBits(c, y[..j]) {
        var (v, w) := (Xor(Xor(s, Hi(x[k])), Lo(x[k + 1])), Xor(Xor(s, Hi(y[k])), Lo(y[k + 1])));
        Bit8Injective(Bit8(v), Bit8(w));
        Bit8Injective(v, w);
        WordInjective(s, x[k], x[k + 1], y[k], y[k + 1]);
      }
    } else {
      ChangeShows(c, x, y, k, j - 1);
      Tail(c, x, j - 1);
      Tail(c, y, j - 1);
      if ByBits(c, x[..j]) == ByBits(c, y[..j]) {
        StaysDifferent(ByBits(c, x[..j - 1]), ByBits(c, y[..j - 1]), x[j - 1]);
      }
    }
  }

  /** Any change confined to two adjacent bytes changes the CRC. */
  lemma AdjacentChange(x: Octets, y: Octets, k: nat)
    requires |x| == |y| && k + 2 <= |x| && x != y
    requires forall i :: 0 <= i < |x| && i != k && i != k + 1 ==> x[i] == y[i]
    ensures Crc(x) != Crc(y)
  {
    hide ByBits;
    ChangeShows(0xFFFF, x, y, k, |x|);
    assert x[..|x|] == x && y[..|y|] == y;
  }

  /** What the last byte does: a change d of it changes the low CRC byte by x and nothing else for one d only. */
  lemma LastByteChange(c: bv16, data: Octets, b: bv8, b': bv8, x: bv8)
    ensures ByBits(c, data + [b']) == Xor(ByBits(c, data + [b]), Lo(x))
       <==> (b' == b && x == 0) || (b' == b ^ 0x89 && x == 0xA1)
  {
    hide Bit8, Xor, Hi, Lo;
    var s := ByBits(c, data);
    assert (data + [b])[..|data|] == data && (data + [b'])[..|data|] == data;
    var d := Turned(b, b');
    HiXor(s, b, b');
    Bit8Linear(Xor(s, Hi(b)), Hi(d));
    SameChange(Bit8(Xor(s, Hi(b))), Bit8(Hi(d)), Lo(x));
    LowOnly(d, x);
    TurnedBack(b, b');
  }

  function Turned(b: bv8, b': bv8): bv8 { b ^ b' }

  lemma TurnedBack(b: bv8, b': bv8)
    ensures (Turned(b, b') == 0 <==> b' == b) && (Turned(b, b') == 0x89 <==> b' == b ^ 0x89)
  { }

  lemma HiXor(s: bv16, b: bv8, b': bv8)
    ensures Xor(s, Hi(b')) == Xor(Xor(s, Hi(b)), Hi(Turned(b, b')))
  {
    HiTurned(b, b');
    XorTurned(s, Hi(b), Hi(b'));
  }

  lemma HiTurned(b: bv8, b': bv8)
    ensures Hi(Turned(b, b')) == Xor(Hi(b), Hi(b'))
  { }

  lemma XorTurned(s: bv16, h: bv16, h': bv16)
    ensures Xor(Xor(s, h), Xor(h, h')) == Xor(s, h')
  { }

  lemma SameChange(s: bv16, a: bv16, b: bv16)
    ensures Xor(s, a) == Xor(s, b) <==> a == b
  { }

  /** The CRC of a single byte d has only low bits set, x, for d = 0 and d = 0x89. */
  lemma LowOnly(d: bv8, x: bv8)
    ensures Bit8(Hi(d)) == Lo(x) <==> (d == 0 && x == 0) || (d == 0x89 && x == 0xA1)
  { }
}
