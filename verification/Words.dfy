/** Machine words as bit vectors, and their little-endian bytes. */
module Words {

  type Octets = seq<bv8>

  function Zeros(n: nat): (r: Octets)
    ensures |r| == n && forall i :: 0 <= i < n ==> r[i] == 0
  {
    seq(n, i => 0)
  }

  function WordBytes(w: bv32): (r: Octets)
    ensures |r| == 4
  {
    [(w & 0xFF) as bv8, ((w >> 8) & 0xFF) as bv8, ((w >> 16) & 0xFF) as bv8, (w >> 24) as bv8]
  }

  function WordOf(b0: bv8, b1: bv8, b2: bv8, b3: bv8): bv32 {
    (b0 as bv32) | ((b1 as bv32) << 8) | ((b2 as bv32) << 16) | ((b3 as bv32) << 24)
  }

  lemma WordRoundTrip(w: bv32)
    ensures var b := WordBytes(w); WordOf(b[0], b[1], b[2], b[3]) == w
  { }

  lemma BytesOfWord(b0: bv8, b1: bv8, b2: bv8, b3: bv8)
    ensures WordBytes(WordOf(b0, b1, b2, b3)) == [b0, b1, b2, b3]
  { }

  // ---- Numbers as words ----

  function Place(n: nat, radix: nat): (d: nat)
    requires radix > 0
    ensures d < 0x100
  {
    n / radix % 0x100
  }

  function Even(x: bv8): bv8 { x << 1 }
  function Odd(x: bv8): bv8 { (x << 1) | 1 }

  lemma Doubled(x: bv8)
    requires x as nat < 0x80
    ensures Even(x) as nat == 2 * x as nat && Odd(x) as nat == 2 * x as nat + 1
  {
  }

  /** The byte with the value n, bit by bit. */
  function ByteOf(n: nat): (b: bv8)
    requires n < 0x100
    ensures b as nat == n
  {
    if n == 0 then 0
    else
      Doubled(ByteOf(n / 2));
      if n % 2 == 0 then Even(ByteOf(n / 2)) else Odd(ByteOf(n / 2))
  }

  lemma ByteOfValue(b: bv8)
    ensures b as nat < 0x100 && ByteOf(b as nat) == b
  {
    SameValue(ByteOf(b as nat), b);
  }

  lemma SameValue(a: bv8, b: bv8)
    requires a as nat == b as nat
    ensures a == b
  { }

  function Digit(n: nat, radix: nat): (d: bv8)
    requires radix > 0
    ensures d as nat == Place(n, radix)
  {
    ByteOf(Place(n, radix))
  }

  /** The 32-bit word with the value n. */
  function WordFrom(n: nat): bv32 {
    WordOf(Digit(n, 1), Digit(n, 0x100), Digit(n, 0x1_0000), Digit(n, 0x100_0000))
  }

  lemma WordFromInjective(m: nat, n: nat)
    requires m < 0x1_0000_0000 && n < 0x1_0000_0000 && WordFrom(m) == WordFrom(n)
    ensures m == n
  {
    hide Digit, WordOf, WordBytes, Place;
    BytesOfWord(Digit(m, 1), Digit(m, 0x100), Digit(m, 0x1_0000), Digit(m, 0x100_0000));
    BytesOfWord(Digit(n, 1), Digit(n, 0x100), Digit(n, 0x1_0000), Digit(n, 0x100_0000));
    SameDigit(m, n, 1);
    SameDigit(m, n, 0x100);
    SameDigit(m, n, 0x1_0000);
    SameDigit(m, n, 0x100_0000);
    Digits(m);
    Digits(n);
  }

  lemma SameDigit(m: nat, n: nat, radix: nat)
    requires radix > 0
    ensures Digit(m, radix) == Digit(n, radix) ==> Place(m, radix) == Place(n, radix)
  { }

  lemma Digits(n: nat)
    requires n < 0x1_0000_0000
    ensures n == Place(n, 1) + 0x100 * Place(n, 0x100) + 0x1_0000 * Place(n, 0x1_0000) +
        0x100_0000 * Place(n, 0x100_0000)
  {
    var a := n / 0x100;
    var b := a / 0x100;
    var c := b / 0x100;
    assert n / 0x1_0000 == b && n / 0x100_0000 == c && c < 0x100;
  }
}
