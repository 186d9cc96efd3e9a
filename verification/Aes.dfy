/** The AES block cipher over round keys, in the table form and the branch-free form of the code, and its
    inverse (sections 5.1 to 5.3 of FIPS 197). */
module Aes {
  import opened AesModes
  import opened AesSbox
  import opened AesTables
  import opened Gf256
  import opened Words

  // ---- The four transformations ----

  function SubBytes(s: Block): Block {
    seq(16, i requires 0 <= i < 16 => Sbox(s[i]))
  }

  function InvSubBytes(s: Block): Block {
    seq(16, i requires 0 <= i < 16 => InvSbox(s[i]))
  }

  function ShiftRows(s: Block): Block {
    [s[0], s[5], s[10], s[15], s[4], s[9], s[14], s[3], s[8], s[13], s[2], s[7], s[12], s[1], s[6], s[11]]
  }

  function InvShiftRows(s: Block): Block {
    [s[0], s[13], s[10], s[7], s[4], s[1], s[14], s[11], s[8], s[5], s[2], s[15], s[12], s[9], s[6], s[3]]
  }

  /** A row of the matrix times a column: bytes a, b, c, d times p, q, r, s. */
  function Dot(a: bv8, p: bv8, b: bv8, q: bv8, c: bv8, r: bv8, d: bv8, s: bv8): bv8 {
    Xor(Xor(Xor(Mul(a, p), Mul(b, q)), Mul(c, r)), Mul(d, s))
  }

  /** A column times the matrix with rows 2 3 1 1, 1 2 3 1, 1 1 2 3 and 3 1 1 2. */
  function Mixed(s0: bv8, s1: bv8, s2: bv8, s3: bv8): (r: Octets)
    ensures |r| == 4
  {
    [Dot(s0, 2, s1, 3, s2, 1, s3, 1), Dot(s0, 1, s1, 2, s2, 3, s3, 1),
     Dot(s0, 1, s1, 1, s2, 2, s3, 3), Dot(s0, 3, s1, 1, s2, 1, s3, 2)]
  }

  /** The inverse matrix. */
  function Unmixed(s0: bv8, s1: bv8, s2: bv8, s3: bv8): (r: Octets)
    ensures |r| == 4
  {
    [Dot(s0, 0x0e, s1, 0x0b, s2, 0x0d, s3, 0x09), Dot(s0, 0x09, s1, 0x0e, s2, 0x0b, s3, 0x0d),
     Dot(s0, 0x0d, s1, 0x09, s2, 0x0e, s3, 0x0b), Dot(s0, 0x0b, s1, 0x0d, s2, 0x09, s3, 0x0e)]
  }

  function MixColumns(s: Block): Block {
    Mixed(s[0], s[1], s[2], s[3]) + Mixed(s[4], s[5], s[6], s[7])
    + Mixed(s[8], s[9], s[10], s[11]) + Mixed(s[12], s[13], s[14], s[15])
  }

  function InvMixColumns(s: Block): Block {
    Unmixed(s[0], s[1], s[2], s[3]) + Unmixed(s[4], s[5], s[6], s[7])
    + Unmixed(s[8], s[9], s[10], s[11]) + Unmixed(s[12], s[13], s[14], s[15])
  }

  function AddKey(s: Block, key: Block): Block {
    Xored(s, key)
  }

  // ---- Each has its inverse ----

  lemma SubInverse(s: Block)
    ensures InvSubBytes(SubBytes(s)) == s
  {
    hide Sbox, InvSbox;
    forall i | 0 <= i < 16 ensures InvSubBytes(SubBytes(s))[i] == s[i] {
      SboxTheorem(s[i]);
    }
  }

  lemma ShiftInverse(s: Block)
    ensures InvShiftRows(ShiftRows(s)) == s
  {
  }

  lemma AddKeyTwice(s: Block, key: Block)
    ensures AddKey(AddKey(s, key), key) == s
  { }

  /** Multiplying by p of something multiplied by q is one multiplication. */
  lemma Coefficient(s: bv8, q: bv8, p: bv8)
    ensures Mul(Mul(s, q), p) == Mul(s, Mul(q, p))
  {
    MulAssociates(s, q, p);
  }

  lemma DotLinear(k: bv8, s0: bv8, p: bv8, s1: bv8, q: bv8, s2: bv8, r: bv8, s3: bv8, s: bv8)
    ensures Mul(Dot(s0, p, s1, q, s2, r, s3, s), k) == Dot(s0, Mul(p, k), s1, Mul(q, k), s2, Mul(r, k), s3, Mul(s, k))
  {
    hide Mul, Xor;
    MulLinear(Xor(Xor(Mul(s0, p), Mul(s1, q)), Mul(s2, r)), Mul(s3, s), k);
    MulLinear(Xor(Mul(s0, p), Mul(s1, q)), Mul(s2, r), k);
    MulLinear(Mul(s0, p), Mul(s1, q), k);
    Coefficient(s0, p, k);
    Coefficient(s1, q, k);
    Coefficient(s2, r, k);
    Coefficient(s3, s, k);
  }

  /** Four dot products with the same column add up coefficient by coefficient. */
  lemma DotAdd(s0: bv8, s1: bv8, s2: bv8, s3: bv8, p: bv8, q: bv8, r: bv8, s: bv8, p': bv8, q': bv8, r': bv8, s': bv8)
    ensures Xor(Dot(s0, p, s1, q, s2, r, s3, s), Dot(s0, p', s1, q', s2, r', s3, s'))
         == Dot(s0, Xor(p, p'), s1, Xor(q, q'), s2, Xor(r, r'), s3, Xor(s, s'))
  {
    hide Mul, Xor;
    MulLinear(s0, p, p');
    MulLinear(s1, q, q');
    MulLinear(s2, r, r');
    MulLinear(s3, s, s');
    var (a, b, c, d) := (Mul(s0, p), Mul(s1, q), Mul(s2, r), Mul(s3, s));
    var (a', b', c', d') := (Mul(s0, p'), Mul(s1, q'), Mul(s2, r'), Mul(s3, s'));
    XorSwap(Xor(Xor(a, b), c), d, Xor(Xor(a', b'), c'), d');
    XorSwap(Xor(a, b), c, Xor(a', b'), c');
    XorSwap(a, b, a', b');
  }

  function Sum(a: bv8, b: bv8, c: bv8, d: bv8): bv8 {
    Xor(Xor(Xor(a, b), c), d)
  }

  /** A row u of a matrix applied to a mixed column is the row times the mixing matrix, applied to the column. */
  lemma RowTimesMix(s0: bv8, s1: bv8, s2: bv8, s3: bv8, u0: bv8, u1: bv8, u2: bv8, u3: bv8)
    ensures Dot(Dot(s0, 2, s1, 3, s2, 1, s3, 1), u0, Dot(s0, 1, s1, 2, s2, 3, s3, 1), u1,
                Dot(s0, 1, s1, 1, s2, 2, s3, 3), u2, Dot(s0, 3, s1, 1, s2, 1, s3, 2), u3)
         == Dot(s0, Sum(Mul(2, u0), Mul(1, u1), Mul(1, u2), Mul(3, u3)),
                s1, Sum(Mul(3, u0), Mul(2, u1), Mul(1, u2), Mul(1, u3)),
                s2, Sum(Mul(1, u0), Mul(3, u1), Mul(2, u2), Mul(1, u3)),
                s3, Sum(Mul(1, u0), Mul(1, u1), Mul(3, u2), Mul(2, u3)))
  {
    hide Mul, Xor, Dot, Sum;
    DotLinear(u0, s0, 2, s1, 3, s2, 1, s3, 1);
    DotLinear(u1, s0, 1, s1, 2, s2, 3, s3, 1);
    DotLinear(u2, s0, 1, s1, 1, s2, 2, s3, 3);
    DotLinear(u3, s0, 3, s1, 1, s2, 1, s3, 2);
    DotIs(Dot(s0, 2, s1, 3, s2, 1, s3, 1), u0, Dot(s0, 1, s1, 2, s2, 3, s3, 1), u1,
          Dot(s0, 1, s1, 1, s2, 2, s3, 3), u2, Dot(s0, 3, s1, 1, s2, 1, s3, 2), u3);
    FourDots(s0, s1, s2, s3, Mul(2, u0), Mul(3, u0), Mul(1, u0), Mul(1, u0), Mul(1, u1), Mul(2, u1), Mul(3, u1),
        Mul(1, u1),
             Mul(1, u2), Mul(1, u2), Mul(2, u2), Mul(3, u2), Mul(3, u3), Mul(1, u3), Mul(1, u3), Mul(2, u3));
  }

  lemma DotIs(a: bv8, p: bv8, b: bv8, q: bv8, c: bv8, r: bv8, d: bv8, s: bv8)
    ensures Dot(a, p, b, q, c, r, d, s) == Sum(Mul(a, p), Mul(b, q), Mul(c, r), Mul(d, s))
  {
  }

  lemma FourDots(s0: bv8, s1: bv8, s2: bv8, s3: bv8, a0: bv8, a1: bv8, a2: bv8, a3: bv8, b0: bv8, b1: bv8, b2: bv8,
      b3: bv8,
                 c0: bv8, c1: bv8, c2: bv8, c3: bv8, d0: bv8, d1: bv8, d2: bv8, d3: bv8)
    ensures Sum(Dot(s0, a0, s1, a1, s2, a2, s3, a3), Dot(s0, b0, s1, b1, s2, b2, s3, b3),
                Dot(s0, c0, s1, c1, s2, c2, s3, c3), Dot(s0, d0, s1, d1, s2, d2, s3, d3))
         == Dot(s0, Sum(a0, b0, c0, d0), s1, Sum(a1, b1, c1, d1), s2, Sum(a2, b2, c2, d2), s3, Sum(a3, b3, c3, d3))
  {
    hide Mul, Xor, Dot;
    DotAdd(s0, s1, s2, s3, a0, a1, a2, a3, b0, b1, b2, b3);
    DotAdd(s0, s1, s2, s3, Xor(a0, b0), Xor(a1, b1), Xor(a2, b2), Xor(a3, b3), c0, c1, c2, c3);
    DotAdd(s0, s1, s2, s3, Xor(Xor(a0, b0), c0), Xor(Xor(a1, b1), c1), Xor(Xor(a2, b2), c2), Xor(Xor(a3, b3), c3),
        d0, d1, d2, d3);
  }

  lemma Small(u: bv8)
    ensures Mul(1, u) == u && Mul(2, u) == Xt(u) && Mul(3, u) == Xor(Xt(u), u)
  {
    hide Mul, Xt;
    MulCommutes(1, u);
    MulOne(u);
    MulCommutes(2, u);
    BasisIs();
    MulPower(u, 1);
    assert Xor(2, 1) == 3;
    MulLinear(2, 1, u);
    assert Power(u, 0) == u;
  }

  lemma DotUnits(s0: bv8, s1: bv8, s2: bv8, s3: bv8)
    ensures Dot(s0, 1, s1, 0, s2, 0, s3, 0) == s0 && Dot(s0, 0, s1, 1, s2, 0, s3, 0) == s1
    ensures Dot(s0, 0, s1, 0, s2, 1, s3, 0) == s2 && Dot(s0, 0, s1, 0, s2, 0, s3, 1) == s3
  {
    hide MulBits, Xor;
    MulOne(s0);
    MulOne(s1);
    MulOne(s2);
    MulOne(s3);
    MulZero(s0, 8);
    MulZero(s1, 8);
    MulZero(s2, 8);
    MulZero(s3, 8);
    XorLaws(s0, 0);
    XorLaws(s1, 0);
    XorLaws(s2, 0);
    XorLaws(s3, 0);
    XorLaws(0, 0);
    XorLaws(0, s1);
    XorLaws(0, s2);
    XorLaws(0, s3);
  }

  /** The rows of the inverse matrix times the mixing matrix are the unit rows. */
  lemma UnitRow(u0: bv8, u1: bv8, u2: bv8, u3: bv8, k: nat)
    requires k < 4
    requires (u0, u1, u2, u3) == if k == 0 then (0x0e, 0x0b, 0x0d, 0x09) else if k == 1 then (0x09, 0x0e, 0x0b, 0x0d)
      else if k == 2 then (0x0d, 0x09, 0x0e, 0x0b) else (0x0b, 0x0d, 0x09, 0x0e)
    ensures Sum(Mul(2, u0), Mul(1, u1), Mul(1, u2), Mul(3, u3)) == if k == 0 then 1 else 0
    ensures Sum(Mul(3, u0), Mul(2, u1), Mul(1, u2), Mul(1, u3)) == if k == 1 then 1 else 0
    ensures Sum(Mul(1, u0), Mul(3, u1), Mul(2, u2), Mul(1, u3)) == if k == 2 then 1 else 0
    ensures Sum(Mul(1, u0), Mul(1, u1), Mul(3, u2), Mul(2, u3)) == if k == 3 then 1 else 0
  {
    hide Mul;
    Small(0x0e);
    Small(0x0b);
    Small(0x0d);
    Small(0x09);
    assert Xt(0x0e) == 0x1c && Xt(0x0b) == 0x16 && Xt(0x0d) == 0x1a && Xt(0x09) == 0x12;
    assert Xor(0x1c, 0x0e) == 0x12 && Xor(0x16, 0x0b) == 0x1d && Xor(0x1a, 0x0d) == 0x17 && Xor(0x12, 0x09) == 0x1b;
  }

  lemma ColumnInverse(s0: bv8, s1: bv8, s2: bv8, s3: bv8)
    ensures var m := Mixed(s0, s1, s2, s3); Unmixed(m[0], m[1], m[2], m[3]) == [s0, s1, s2, s3]
  {
    hide Dot, Sum, Mul;
    DotUnits(s0, s1, s2, s3);
    UnitRow(0x0e, 0x0b, 0x0d, 0x09, 0);
    UnitRow(0x09, 0x0e, 0x0b, 0x0d, 1);
    UnitRow(0x0d, 0x09, 0x0e, 0x0b, 2);
    UnitRow(0x0b, 0x0d, 0x09, 0x0e, 3);
    RowTimesMix(s0, s1, s2, s3, 0x0e, 0x0b, 0x0d, 0x09);
    RowTimesMix(s0, s1, s2, s3, 0x09, 0x0e, 0x0b, 0x0d);
    RowTimesMix(s0, s1, s2, s3, 0x0d, 0x09, 0x0e, 0x0b);
    RowTimesMix(s0, s1, s2, s3, 0x0b, 0x0d, 0x09, 0x0e);
  }

  lemma MixInverse(s: Block)
    ensures InvMixColumns(MixColumns(s)) == s
  {
    hide Mixed, Unmixed;
    ColumnInverse(s[0], s[1], s[2], s[3]);
    ColumnInverse(s[4], s[5], s[6], s[7]);
    ColumnInverse(s[8], s[9], s[10], s[11]);
    ColumnInverse(s[12], s[13], s[14], s[15]);
  }

  // ---- Rounds ----

  /** Round keys for a number of rounds. */
  predicate Keys(keys: Octets, rounds: nat) {
    |keys| == 16 * (rounds + 1) && rounds > 0
  }

  function KeyAt(keys: Octets, r: nat): Block
    requires 16 * (r + 1) <= |keys|
  {
    keys[16 * r..16 * (r + 1)]
  }

  /** The state after round r. */
  function Encrypting(keys: Octets, s: Block, r: nat): Block
    requires 16 * (r + 1) <= |keys|
  {
    if r == 0 then AddKey(s, KeyAt(keys, 0))
    else AddKey(MixColumns(ShiftRows(SubBytes(Encrypting(keys, s, r - 1)))), KeyAt(keys, r))
  }

  function Encrypt(keys: Octets, rounds: nat, s: Block): Block
    requires Keys(keys, rounds)
  {
    AddKey(ShiftRows(SubBytes(Encrypting(keys, s, rounds - 1))), KeyAt(keys, rounds))
  }

  /** The state before the rounds from r down are undone. */
  function Decrypting(keys: Octets, rounds: nat, c: Block, r: nat): Block
    requires Keys(keys, rounds) && 1 <= r <= rounds
    decreases rounds - r
  {
    if r == rounds then AddKey(c, KeyAt(keys, rounds))
    else InvMixColumns(AddKey(InvSubBytes(InvShiftRows(Decrypting(keys, rounds, c, r + 1))), KeyAt(keys, r)))
  }

  function Decrypt(keys: Octets, rounds: nat, c: Block): Block
    requires Keys(keys, rounds)
  {
    AddKey(InvSubBytes(InvShiftRows(Decrypting(keys, rounds, c, 1))), KeyAt(keys, 0))
  }

  lemma {:induction false} Unwinds(keys: Octets, rounds: nat, s: Block, r: nat)
    requires Keys(keys, rounds) && 1 <= r <= rounds
    ensures Decrypting(keys, rounds, Encrypt(keys, rounds, s), r) == ShiftRows(SubBytes(Encrypting(keys, s, r - 1)))
    decreases rounds - r
  {
    hide AddKey, SubBytes, InvSubBytes, ShiftRows, InvShiftRows, MixColumns, InvMixColumns, KeyAt;
    if r == rounds {
      AddKeyTwice(ShiftRows(SubBytes(Encrypting(keys, s, rounds - 1))), KeyAt(keys, rounds));
    } else {
      Unwinds(keys, rounds, s, r + 1);
      var e := Encrypting(keys, s, r);
      ShiftInverse(SubBytes(e));
      SubInverse(e);
      var m := ShiftRows(SubBytes(Encrypting(keys, s, r - 1)));
      AddKeyTwice(MixColumns(m), KeyAt(keys, r));
      MixInverse(m);
    }
  }

  /** Decryption undoes encryption, for every block, every number of rounds and all round keys. */
  lemma DecryptEncrypt(keys: Octets, rounds: nat, s: Block)
    requires Keys(keys, rounds)
    ensures Decrypt(keys, rounds, Encrypt(keys, rounds, s)) == s
  {
    hide AddKey, SubBytes, InvSubBytes, ShiftRows, InvShiftRows, MixColumns, InvMixColumns, KeyAt, Encrypt, Decrypting;
    Unwinds(keys, rounds, s, 1);
    var e := Encrypting(keys, s, 0);
    ShiftInverse(SubBytes(e));
    SubInverse(e);
    AddKeyTwice(s, KeyAt(keys, 0));
  }
}
