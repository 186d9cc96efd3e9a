/** The AES classes of the code: key expansion, the in-place rounds with tables and without, and the chained
    modes (sections 5.1 to 5.3 of FIPS 197, sections 6.2 and 6.5 of NIST SP 800-38A). */
module AesCipher {
  import opened Aes
  import opened AesModes
  import opened AesSbox
  import opened AesTables
  import opened Gf256
  import opened Words

  // ---- Transformations in place ----

  method SubBytesInPlace(state: array<bv8>)
    requires state.Length == 16
    modifies state
    ensures state[..] == SubBytes(old(state[..]))
  {
    hide Sbox;
    for i := 0 to 16
      invariant forall k :: 0 <= k < i ==> state[k] == Sbox(old(state[k]))
      invariant forall k :: i <= k < 16 ==> state[k] == old(state[k])
    {
      state[i] := Sbox(state[i]);
    }
  }

  method InvSubBytesInPlace(state: array<bv8>)
    requires state.Length == 16
    modifies state
    ensures state[..] == InvSubBytes(old(state[..]))
  {
    hide InvSbox;
    for i := 0 to 16
      invariant forall k :: 0 <= k < i ==> state[k] == InvSbox(old(state[k]))
      invariant forall k :: i <= k < 16 ==> state[k] == old(state[k])
    {
      state[i] := InvSbox(state[i]);
    }
  }

  method SubBytesCt(state: array<bv8>)
    requires state.Length == 16
    modifies state
    ensures state[..] == SubBytes(old(state[..]))
  {
    hide Sbox, SboxCt;
    for i := 0 to 16
      invariant forall k :: 0 <= k < i ==> state[k] == Sbox(old(state[k]))
      invariant forall k :: i <= k < 16 ==> state[k] == old(state[k])
    {
      SboxTheorem(state[i]);
      state[i] := SboxCt(state[i]);
    }
  }

  method InvSubBytesCt(state: array<bv8>)
    requires state.Length == 16
    modifies state
    ensures state[..] == InvSubBytes(old(state[..]))
  {
    hide InvSbox, InvSboxCt;
    for i := 0 to 16
      invariant forall k :: 0 <= k < i ==> state[k] == InvSbox(old(state[k]))
      invariant forall k :: i <= k < 16 ==> state[k] == old(state[k])
    {
      SboxTheorem(state[i]);
      state[i] := InvSboxCt(state[i]);
    }
  }

  lemma ShiftedIs(t: Octets, s: Block)
    requires |t| == 16
    requires t[0] == s[0] && t[1] == s[5] && t[2] == s[10] && t[3] == s[15] && t[4] == s[4] && t[5] == s[9]
    requires t[6] == s[14] && t[7] == s[3] && t[8] == s[8] && t[9] == s[13] && t[10] == s[2] && t[11] == s[7]
    requires t[12] == s[12] && t[13] == s[1] && t[14] == s[6] && t[15] == s[11]
    ensures t == ShiftRows(s)
  {
  }

  method ShiftRowsInPlace(state: array<bv8>)
    requires state.Length == 16
    modifies state
    ensures state[..] == ShiftRows(old(state[..]))
  {
    hide *;
    ghost var s: Block := state[..];
    var temp := state[1];
    state[1] := state[5];
    state[5] := state[9];
    state[9] := state[13];
    state[13] := temp;
    var temp0, temp1 := state[2], state[6];
    state[2] := state[10];
    state[6] := state[14];
    state[10] := temp0;
    state[14] := temp1;
    temp := state[15];
    state[15] := state[11];
    state[11] := state[7];
    state[7] := state[3];
    state[3] := temp;
    ShiftedIs(state[..], s);
  }

  lemma UnshiftedIs(t: Octets, s: Block)
    requires |t| == 16
    requires t[0] == s[0] && t[1] == s[13] && t[2] == s[10] && t[3] == s[7] && t[4] == s[4] && t[5] == s[1]
    requires t[6] == s[14] && t[7] == s[11] && t[8] == s[8] && t[9] == s[5] && t[10] == s[2] && t[11] == s[15]
    requires t[12] == s[12] && t[13] == s[9] && t[14] == s[6] && t[15] == s[3]
    ensures t == InvShiftRows(s)
  {
  }

  method InvShiftRowsInPlace(state: array<bv8>)
    requires state.Length == 16
    modifies state
    ensures state[..] == InvShiftRows(old(state[..]))
  {
    hide *;
    ghost var s: Block := state[..];
    var temp := state[13];
    state[13] := state[9];
    state[9] := state[5];
    state[5] := state[1];
    state[1] := temp;
    var temp0, temp1 := state[2], state[6];
    state[2] := state[10];
    state[6] := state[14];
    state[10] := temp0;
    state[14] := temp1;
    temp := state[3];
    state[3] := state[7];
    state[7] := state[11];
    state[11] := state[15];
    state[15] := temp;
    UnshiftedIs(state[..], s);
  }

  method AddKeyInPlace(state: array<bv8>, key: Block)
    requires state.Length == 16
    modifies state
    ensures state[..] == AddKey(old(state[..]), key) == Xored(old(state[..]), key)
  {
    for i := 0 to 16
      invariant forall k :: 0 <= k < i ==> state[k] == old(state[k]) ^ key[k]
      invariant forall k :: i <= k < 16 ==> state[k] == old(state[k])
    {
      state[i] := state[i] ^ key[i];
    }
  }

  /** One column with the looping multiplication; multiplying by one is left out. */
  method MixColumn(s0: bv8, s1: bv8, s2: bv8, s3: bv8) returns (r: Octets)
    ensures r == Mixed(s0, s1, s2, s3)
  {
    hide Mul, Xor;
    OneTimes(s0, s1, s2, s3);
    var a0 := GfMul(s0, 2);
    var a1 := GfMul(s1, 2);
    var a2 := GfMul(s2, 2);
    var a3 := GfMul(s3, 2);
    var b0 := GfMul(s0, 3);
    var b1 := GfMul(s1, 3);
    var b2 := GfMul(s2, 3);
    var b3 := GfMul(s3, 3);
    r := [Xor(Xor(Xor(a0, b1), s2), s3), Xor(Xor(Xor(s0, a1), b2), s3),
          Xor(Xor(Xor(s0, s1), a2), b3), Xor(Xor(Xor(b0, s1), s2), a3)];
  }

  lemma OneTimes(s0: bv8, s1: bv8, s2: bv8, s3: bv8)
    ensures Mul(s0, 1) == s0 && Mul(s1, 1) == s1 && Mul(s2, 1) == s2 && Mul(s3, 1) == s3
  { }

  method MixColumnCt(s0: bv8, s1: bv8, s2: bv8, s3: bv8) returns (r: Octets)
    ensures r == Mixed(s0, s1, s2, s3)
  {
    hide Mul, MulCt, Xor;
    OneTimes(s0, s1, s2, s3);
    forall a, b ensures MulCt(a, b) == Mul(a, b) {
      MulCtIsMul(a, b);
    }
    r := [Xor(Xor(Xor(MulCt(s0, 2), MulCt(s1, 3)), s2), s3), Xor(Xor(Xor(s0, MulCt(s1, 2)), MulCt(s2, 3)), s3),
          Xor(Xor(Xor(s0, s1), MulCt(s2, 2)), MulCt(s3, 3)), Xor(Xor(Xor(MulCt(s0, 3), s1), s2), MulCt(s3, 2))];
  }

  /** Four products, summed from the left. */
  method DotWith(a: bv8, p: bv8, b: bv8, q: bv8, c: bv8, r: bv8, d: bv8, s: bv8) returns (x: bv8)
    ensures x == Dot(a, p, b, q, c, r, d, s)
  {
    hide Mul, Xor;
    var w := GfMul(a, p);
    var x0 := GfMul(b, q);
    var y := GfMul(c, r);
    var z := GfMul(d, s);
    x := Xor(Xor(Xor(w, x0), y), z);
  }

  method UnmixColumn(s0: bv8, s1: bv8, s2: bv8, s3: bv8) returns (r: Octets)
    ensures r == Unmixed(s0, s1, s2, s3)
  {
    hide Dot;
    var r0 := DotWith(s0, 0x0e, s1, 0x0b, s2, 0x0d, s3, 0x09);
    var r1 := DotWith(s0, 0x09, s1, 0x0e, s2, 0x0b, s3, 0x0d);
    var r2 := DotWith(s0, 0x0d, s1, 0x09, s2, 0x0e, s3, 0x0b);
    var r3 := DotWith(s0, 0x0b, s1, 0x0d, s2, 0x09, s3, 0x0e);
    r := [r0, r1, r2, r3];
  }

  function DotCt(a: bv8, p: bv8, b: bv8, q: bv8, c: bv8, r: bv8, d: bv8, s: bv8): bv8 {
    Xor(Xor(Xor(MulCt(a, p), MulCt(b, q)), MulCt(c, r)), MulCt(d, s))
  }

  method UnmixColumnCt(s0: bv8, s1: bv8, s2: bv8, s3: bv8) returns (r: Octets)
    ensures r == Unmixed(s0, s1, s2, s3)
  {
    hide Mul, MulCt, Xor;
    forall a, b ensures MulCt(a, b) == Mul(a, b) {
      MulCtIsMul(a, b);
    }
    r := [DotCt(s0, 0x0e, s1, 0x0b, s2, 0x0d, s3, 0x09), DotCt(s0, 0x09, s1, 0x0e, s2, 0x0b, s3, 0x0d),
          DotCt(s0, 0x0d, s1, 0x09, s2, 0x0e, s3, 0x0b), DotCt(s0, 0x0b, s1, 0x0d, s2, 0x09, s3, 0x0e)];
  }

  /** state[4 * col..4 * col + 4] := column. */
  method PutColumn(state: array<bv8>, col: nat, column: Octets)
    requires state.Length == 16 && col < 4 && |column| == 4
    modifies state
    ensures state[..] == old(state[..4 * col]) + column + old(state[4 * col + 4..])
  {
    state[4 * col], state[4 * col + 1] := column[0], column[1];
    state[4 * col + 2], state[4 * col + 3] := column[2], column[3];
  }

  function ColumnOf(s: Block, col: nat): (r: Octets)
    requires col < 4
    ensures |r| == 4
  {
    Mixed(s[4 * col], s[4 * col + 1], s[4 * col + 2], s[4 * col + 3])
  }

  function UncolumnOf(s: Block, col: nat): (r: Octets)
    requires col < 4
    ensures |r| == 4
  {
    Unmixed(s[4 * col], s[4 * col + 1], s[4 * col + 2], s[4 * col + 3])
  }

  lemma MixedIs(s: Block)
    ensures MixColumns(s) == ColumnOf(s, 0) + ColumnOf(s, 1) + ColumnOf(s, 2) + ColumnOf(s, 3)
    ensures InvMixColumns(s) == UncolumnOf(s, 0) + UncolumnOf(s, 1) + UncolumnOf(s, 2) + UncolumnOf(s, 3)
  {
    hide Mixed, Unmixed;
  }

  /** Columns before col hold their results, the others are untouched. */
  ghost predicate Upto(t: Octets, s: Octets, c0: Octets, c1: Octets, c2: Octets, c3: Octets, col: nat) {
    && |t| == |s| == 16 && |c0| == |c1| == |c2| == |c3| == 4 && col <= 4
    && t[0..4] == (if col > 0 then c0 else s[0..4]) && t[4..8] == (if col > 1 then c1 else s[4..8])
    && t[8..12] == (if col > 2 then c2 else s[8..12]) && t[12..16] == (if col > 3 then c3 else s[12..16])
  }

  lemma AllColumns(t: Octets, s: Octets, c0: Octets, c1: Octets, c2: Octets, c3: Octets)
    requires Upto(t, s, c0, c1, c2, c3, 4)
    ensures t == c0 + c1 + c2 + c3
  { }

  lemma NextColumn(t: Octets, t': Octets, s: Octets, c0: Octets, c1: Octets, c2: Octets, c3: Octets, col: nat,
      column: Octets)
    requires Upto(t, s, c0, c1, c2, c3, col) && col < 4
    requires column == if col == 0 then c0 else if col == 1 then c1 else if col == 2 then c2 else c3
    requires t' == t[..4 * col] + column + t[4 * col + 4..]
    ensures Upto(t', s, c0, c1, c2, c3, col + 1)
  { }

  lemma Untouched(t: Octets, s: Octets, c0: Octets, c1: Octets, c2: Octets, c3: Octets, col: nat)
    requires Upto(t, s, c0, c1, c2, c3, col) && col < 4
    ensures t[4 * col..4 * col + 4] == s[4 * col..4 * col + 4]
  {
  }

  /** Column by column; ct chooses the branch-free multiplication of the second class. */
  method MixColumnsInPlace(state: array<bv8>, ct: bool)
    requires state.Length == 16
    modifies state
    ensures state[..] == MixColumns(old(state[..]))
  {
    hide Mixed, MixColumns, Upto;
    ghost var s: Block := state[..];
    ghost var (c0, c1, c2, c3) := (ColumnOf(s, 0), ColumnOf(s, 1), ColumnOf(s, 2), ColumnOf(s, 3));
    Begun(s, c0, c1, c2, c3);
    for col := 0 to 4
      invariant Upto(state[..], s, c0, c1, c2, c3, col)
    {
      Untouched(state[..], s, c0, c1, c2, c3, col);
      Elements(state[..], s, col);
      var column: Octets;
      if ct {
        column := MixColumnCt(state[4 * col], state[4 * col + 1], state[4 * col + 2], state[4 * col + 3]);
      } else {
        column := MixColumn(state[4 * col], state[4 * col + 1], state[4 * col + 2], state[4 * col + 3]);
      }
      ghost var before := state[..];
      PutColumn(state, col, column);
      NextColumn(before, state[..], s, c0, c1, c2, c3, col, column);
    }
    AllColumns(state[..], s, c0, c1, c2, c3);
    MixedIs(s);
  }

  lemma Begun(s: Block, c0: Octets, c1: Octets, c2: Octets, c3: Octets)
    requires |c0| == |c1| == |c2| == |c3| == 4
    ensures Upto(s, s, c0, c1, c2, c3, 0)
  {
  }

  lemma Elements(t: Octets, s: Octets, col: nat)
    requires |t| == |s| == 16 && col < 4 && t[4 * col..4 * col + 4] == s[4 * col..4 * col + 4]
    ensures t[4 * col] == s[4 * col] && t[4 * col + 1] == s[4 * col + 1]
    ensures t[4 * col + 2] == s[4 * col + 2] && t[4 * col + 3] == s[4 * col + 3]
  {
    var (a, b) := (t[4 * col..4 * col + 4], s[4 * col..4 * col + 4]);
    assert a[0] == b[0] && a[1] == b[1] && a[2] == b[2] && a[3] == b[3];
  }

  method InvMixColumnsInPlace(state: array<bv8>, ct: bool)
    requires state.Length == 16
    modifies state
    ensures state[..] == InvMixColumns(old(state[..]))
  {
    hide Unmixed, InvMixColumns, Upto;
    ghost var s: Block := state[..];
    ghost var (c0, c1, c2, c3) := (UncolumnOf(s, 0), UncolumnOf(s, 1), UncolumnOf(s, 2), UncolumnOf(s, 3));
    Begun(s, c0, c1, c2, c3);
    for col := 0 to 4
      invariant Upto(state[..], s, c0, c1, c2, c3, col)
    {
      Untouched(state[..], s, c0, c1, c2, c3, col);
      Elements(state[..], s, col);
      var column: Octets;
      if ct {
        column := UnmixColumnCt(state[4 * col], state[4 * col + 1], state[4 * col + 2], state[4 * col + 3]);
      } else {
        column := UnmixColumn(state[4 * col], state[4 * col + 1], state[4 * col + 2], state[4 * col + 3]);
      }
      ghost var before := state[..];
      PutColumn(state, col, column);
      NextColumn(before, state[..], s, c0, c1, c2, c3, col, column);
    }
    AllColumns(state[..], s, c0, c1, c2, c3);
    MixedIs(s);
  }

  // ---- Blocks ----

  method SubstituteBytes(state: array<bv8>, ct: bool)
    requires state.Length == 16
    modifies state
    ensures state[..] == SubBytes(old(state[..]))
  {
    if ct {
      SubBytesCt(state);
    } else {
      SubBytesInPlace(state);
    }
  }

  method UnsubstituteBytes(state: array<bv8>, ct: bool)
    requires state.Length == 16
    modifies state
    ensures state[..] == InvSubBytes(old(state[..]))
  {
    if ct {
      InvSubBytesCt(state);
    } else {
      InvSubBytesInPlace(state);
    }
  }

  method EncryptRounds(keys: Octets, rounds: nat, block: array<bv8>, ct: bool)
    requires Keys(keys, rounds) && block.Length == 16
    modifies block
    ensures block[..] == Encrypt(keys, rounds, old(block[..]))
  {
    hide AddKey, SubBytes, ShiftRows, MixColumns, KeyAt;
    ghost var s: Block := block[..];
    AddKeyInPlace(block, KeyAt(keys, 0));
    for round := 1 to rounds
      invariant block[..] == Encrypting(keys, s, round - 1)
    {
      SubstituteBytes(block, ct);
      ShiftRowsInPlace(block);
      MixColumnsInPlace(block, ct);
      AddKeyInPlace(block, KeyAt(keys, round));
    }
    SubstituteBytes(block, ct);
    ShiftRowsInPlace(block);
    AddKeyInPlace(block, KeyAt(keys, rounds));
  }

  method DecryptRounds(keys: Octets, rounds: nat, block: array<bv8>, ct: bool)
    requires Keys(keys, rounds) && block.Length == 16
    modifies block
    ensures block[..] == Decrypt(keys, rounds, old(block[..]))
  {
    hide AddKey, InvSubBytes, InvShiftRows, InvMixColumns, KeyAt;
    ghost var c: Block := block[..];
    AddKeyInPlace(block, KeyAt(keys, rounds));
    for round := rounds downto 1
      invariant block[..] == Decrypting(keys, rounds, c, round)
    {
      InvShiftRowsInPlace(block);
      UnsubstituteBytes(block, ct);
      AddKeyInPlace(block, KeyAt(keys, round));
      InvMixColumnsInPlace(block, ct);
    }
    InvShiftRowsInPlace(block);
    UnsubstituteBytes(block, ct);
    AddKeyInPlace(block, KeyAt(keys, 0));
  }

  // ---- Key expansion of AES-128 ----

  function Rcon(i: nat): bv8
    requires 1 <= i <= 10
  {
    [0x01, 0x02, 0x04, 0x08, 0x10, 0x20, 0x40, 0x80, 0x1b, 0x36][i - 1]
  }

  /** The last word of the keys so far, rotated, substituted and changed by a constant once a round. */
  function Temp(k: Octets): (t: Octets)
    requires 16 <= |k| < 176
    ensures |t| == 4
  {
    var n := |k|;
    if n % 16 == 0 then [Xor(Sbox(k[n - 3]), Rcon(n / 16)), Sbox(k[n - 2]), Sbox(k[n - 1]), Sbox(k[n - 4])]
    else k[n - 4..]
  }

  function XorWord(k: Octets, t: Octets): (w: Octets)
    requires |k| >= 16 && |t| == 4
    ensures |w| == 4
  {
    var n := |k|;
    [Xor(k[n - 16], t[0]), Xor(k[n - 15], t[1]), Xor(k[n - 14], t[2]), Xor(k[n - 13], t[3])]
  }

  /** The first four times w bytes of the round keys. */
  function Expanded(key: Block, w: nat): (k: Octets)
    requires 4 <= w <= 44
    ensures |k| == 4 * w
  {
    if w == 4 then key else Expanded(key, w - 1) + XorWord(Expanded(key, w - 1), Temp(Expanded(key, w - 1)))
  }

  method SubWord(a: bv8, b: bv8, c: bv8, d: bv8, ct: bool) returns (r: Octets)
    ensures r == [Sbox(a), Sbox(b), Sbox(c), Sbox(d)]
  {
    hide Sbox, SboxCt, InvSbox, InvSboxCt;
    SboxTheorem(a);
    SboxTheorem(b);
    SboxTheorem(c);
    SboxTheorem(d);
    r := if ct then [SboxCt(a), SboxCt(b), SboxCt(c), SboxCt(d)] else [Sbox(a), Sbox(b), Sbox(c), Sbox(d)];
  }

  lemma TempIs(k: Octets, a: bv8, b: bv8, c: bv8, d: bv8)
    requires 16 <= |k| < 176 && k[|k| - 4] == a && k[|k| - 3] == b && k[|k| - 2] == c && k[|k| - 1] == d
    ensures |k| % 16 == 0 ==> Temp(k) == [Xor(Sbox(b), Rcon(|k| / 16)), Sbox(c), Sbox(d), Sbox(a)]
    ensures |k| % 16 != 0 ==> Temp(k) == [a, b, c, d]
  { }

  method TempWord(roundKeys: array<bv8>, i: nat, ct: bool) returns (temp: Octets)
    requires roundKeys.Length == 176 && 16 <= i < 176
    ensures temp == Temp(roundKeys[..i])
  {
    hide Sbox, Xor, Rcon, Temp;
    var (a, b, c, d) := (roundKeys[i - 4], roundKeys[i - 3], roundKeys[i - 2], roundKeys[i - 1]);
    TempIs(roundKeys[..i], a, b, c, d);
    temp := [a, b, c, d];
    if i % 16 == 0 {
      temp := SubWord(b, c, d, a, ct);
      temp := [Xor(temp[0], Rcon(i / 16)), temp[1], temp[2], temp[3]];
    }
  }

  /** round_keys[i + j] = round_keys[i - 16 + j] ^ temp[j]. */
  method AppendWord(roundKeys: array<bv8>, i: nat, temp: Octets)
    requires 16 <= i && i + 4 <= roundKeys.Length && |temp| == 4
    modifies roundKeys
    ensures roundKeys[..i + 4] == old(roundKeys[..i]) + XorWord(old(roundKeys[..i]), temp)
  {
    hide Xor;
    for j := 0 to 4
      invariant forall m :: 0 <= m < i ==> roundKeys[m] == old(roundKeys[m])
      invariant forall m :: 0 <= m < j ==> roundKeys[i + m] == Xor(old(roundKeys[i - 16 + m]), temp[m])
    {
      roundKeys[i + j] := Xor(roundKeys[i - 16 + j], temp[j]);
    }
    ghost var k, w := old(roundKeys[..i]), XorWord(old(roundKeys[..i]), temp);
    forall m | 0 <= m < i + 4 ensures roundKeys[m] == (k + w)[m] {
    }
  }

  /** Both classes expand a key to the same round keys. */
  method ExpandKey(key: Block, roundKeys: array<bv8>, ct: bool)
    requires roundKeys.Length == 176
    modifies roundKeys
    ensures roundKeys[..] == Expanded(key, 44)
  {
    hide Temp, XorWord;
    forall i | 0 <= i < 16 {
      roundKeys[i] := key[i];
    }
    assert roundKeys[..16] == key;
    var i := 16;
    while i < 176
      invariant 16 <= i <= 176 && i % 4 == 0
      invariant roundKeys[..i] == Expanded(key, i / 4)
    {
      var temp := TempWord(roundKeys, i, ct);
      AppendWord(roundKeys, i, temp);
      i := i + 4;
    }
    assert roundKeys[..176] == roundKeys[..];
  }

  // ---- The cipher under a key ----

  function Enciphered(key: Block, b: Block): Block {
    Encrypt(Expanded(key, 44), 10, b)
  }

  function Deciphered(key: Block, b: Block): Block {
    Decrypt(Expanded(key, 44), 10, b)
  }

  /** Decryption undoes encryption under every key. */
  lemma Deciphers(key: Block, b: Block)
    ensures Deciphered(key, Enciphered(key, b)) == b
  {
    hide Encrypt, Decrypt, Expanded;
    DecryptEncrypt(Expanded(key, 44), 10, b);
  }

  /** CBC decryption undoes CBC encryption under every key and initial vector. */
  lemma CbcDeciphers(key: Block, iv: Block, data: Octets)
    requires Blocks(|data|)
    ensures Uncbc(b => Deciphered(key, b), iv, Cbc(b => Enciphered(key, b), iv, data)) == data
  {
    hide Enciphered, Deciphered;
    forall b: Block ensures Deciphered(key, Enciphered(key, b)) == b {
      Deciphers(key, b);
    }
    CbcRoundTrip(b => Enciphered(key, b), b => Deciphered(key, b), iv, data);
  }

  /** The table class and, with ct, the branch-free class Aes128Ct. */
  class Aes128 {
    const roundKeys: array<bv8>
    const ct: bool
    ghost const key: Block

    ghost predicate Valid()
      reads roundKeys
    {
      roundKeys.Length == 176 && roundKeys[..] == Expanded(key, 44)
    }

    constructor (key: Block, ct: bool)
      ensures Valid() && this.key == key && this.ct == ct && fresh(roundKeys)
    {
      hide Expanded;
      var expanded := new bv8[176](i => 0);
      ExpandKey(key, expanded, ct);
      roundKeys := expanded;
      this.key := key;
      this.ct := ct;
    }

    /** The same blocks come out of both classes. */
    method EncryptBlock(block: array<bv8>)
      requires Valid() && block.Length == 16 && block != roundKeys
      modifies block
      ensures Valid() && block[..] == Enciphered(key, old(block[..]))
    {
      hide Expanded, Encrypt;
      EncryptRounds(roundKeys[..], 10, block, ct);
    }

    method DecryptBlock(block: array<bv8>)
      requires Valid() && block.Length == 16 && block != roundKeys
      modifies block
      ensures Valid() && block[..] == Deciphered(key, old(block[..]))
    {
      hide Expanded, Decrypt;
      DecryptRounds(roundKeys[..], 10, block, ct);
    }

    /** A copy of sixteen bytes of data. */
    method Load(data: array<bv8>, start: nat) returns (block: array<bv8>)
      requires start + 16 <= data.Length
      ensures fresh(block) && block.Length == 16 && block[..] == data[start..start + 16]
    {
      block := new bv8[16](i requires 0 <= i < 16 && start + 16 <= data.Length reads data => data[start + i]);
    }

    method Store(data: array<bv8>, start: nat, bytes: Octets)
      requires start + |bytes| <= data.Length
      modifies data
      ensures data[..start] == old(data[..start]) && data[start + |bytes|..] == old(data[start + |bytes|..])
      ensures data[..start + |bytes|] == old(data[..start]) + bytes
    {
      forall i | 0 <= i < |bytes| {
        data[start + i] := bytes[i];
      }
    }

    method EncryptCbc(iv: Block, data: array<bv8>)
      requires Valid() && Blocks(data.Length) && data != roundKeys
      modifies data
      ensures Valid() && data[..] == Cbc(b => Enciphered(key, b), iv, old(data[..]))
    {
      hide Expanded, Enciphered, Xored, Blocks, Cbc;
      ghost var m := data[..];
      ghost var e: Block -> Block := b => Enciphered(key, b);
      var prev: Block := iv;
      var start := 0;
      assert m[0..] == m && data[..0] == [];
      while start < data.Length
        invariant 0 <= start <= data.Length && Blocks(data.Length - start)
        invariant Valid() && data[start..] == m[start..]
        invariant data[..start] + Cbc(e, prev, m[start..]) == Cbc(e, iv, m)
      {
        CbcNext(e, prev, m, start, data[..start]);
        var block := Load(data, start);
        SamePart(data[..], m, start, start + 16);
        AddKeyInPlace(block, prev);
        EncryptBlock(block);
        Store(data, start, block[..]);
        prev := block[..];
        start := start + 16;
      }
      CbcDone(e, prev);
      assert m[start..] == [] && data[..start] == data[..];
    }

    method DecryptCbc(iv: Block, data: array<bv8>)
      requires Valid() && Blocks(data.Length) && data != roundKeys
      modifies data
      ensures Valid() && data[..] == Uncbc(b => Deciphered(key, b), iv, old(data[..]))
    {
      hide Expanded, Deciphered, Xored, Blocks, Uncbc;
      ghost var m := data[..];
      ghost var d: Block -> Block := b => Deciphered(key, b);
      var prev: Block := iv;
      var start := 0;
      assert m[0..] == m && data[..0] == [];
      while start < data.Length
        invariant 0 <= start <= data.Length && Blocks(data.Length - start)
        invariant Valid() && data[start..] == m[start..]
        invariant data[..start] + Uncbc(d, prev, m[start..]) == Uncbc(d, iv, m)
      {
        UncbcNext(d, prev, m, start, data[..start]);
        var block := Load(data, start);
        SamePart(data[..], m, start, start + 16);
        var saved: Block := block[..];
        DecryptBlock(block);
        AddKeyInPlace(block, prev);
        Store(data, start, block[..]);
        prev := saved;
        start := start + 16;
      }
      CbcDone(d, prev);
      assert m[start..] == [] && data[..start] == data[..];
    }

    /** A chunk of at most sixteen bytes XORed with the keystream block. */
    method XorChunk(data: array<bv8>, start: nat, end: nat, keystream: Block)
      requires start <= end <= data.Length && end <= start + 16
      modifies data
      ensures data[..start] == old(data[..start]) && data[end..] == old(data[end..])
      ensures data[..end] == old(data[..start]) + Xored(old(data[start..end]), keystream)
    {
      for i := start to end
        invariant forall k :: 0 <= k < start ==> data[k] == old(data[k])
        invariant forall k :: start <= k < i ==> data[k] == old(data[k]) ^ keystream[k - start]
        invariant forall k :: i <= k < data.Length ==> data[k] == old(data[k])
      {
        data[i] := data[i] ^ keystream[i - start];
      }
    }

    method EncryptCtr(nonce: Block, data: array<bv8>)
      requires Valid() && data != roundKeys
      modifies data
      ensures Valid() && data[..] == Ctr(b => Enciphered(key, b), nonce, old(data[..]))
    {
      hide Expanded, Enciphered, Xored, Increment, Ctr;
      ghost var m := data[..];
      ghost var e: Block -> Block := b => Enciphered(key, b);
      var counter := new bv8[16](i requires 0 <= i < 16 => nonce[i]);
      assert counter[..] == nonce;
      var start := 0;
      assert m[0..] == m && data[..0] == [];
      while start < data.Length
        invariant 0 <= start <= data.Length && fresh(counter) && counter.Length == 16
        invariant Valid() && data[start..] == m[start..]
        invariant data[..start] + Ctr(e, counter[..], m[start..]) == Ctr(e, nonce, m)
      {
        var end := if start + 16 <= data.Length then start + 16 else data.Length;
        CtrNext(e, counter[..], m, start, end, data[..start]);
        var keystream := Load(counter, 0);
        assert counter[0..16] == counter[..];
        EncryptBlock(keystream);
        SamePart(data[..], m, start, end);
        XorChunk(data, start, end, keystream[..]);
        IncrementInPlace(counter);
        start := end;
      }
      CtrDone(e, counter[..]);
      assert m[start..] == [] && data[..start] == data[..];
    }
  }

  lemma SamePart(t: Octets, m: Octets, start: nat, end: nat)
    requires |t| == |m| && start <= end <= |m| && t[start..] == m[start..]
    ensures t[start..end] == m[start..end]
  { }

  lemma CbcDone(e: Block -> Block, prev: Block)
    ensures Cbc(e, prev, []) == [] && Uncbc(e, prev, []) == []
  {
  }

  lemma CtrDone(e: Block -> Block, counter: Block)
    ensures Ctr(e, counter, []) == []
  {
  }
}
