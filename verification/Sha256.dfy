/** The compression function of SHA-256, as loops over words and as the recursion of the standard. */
module Sha256 {
  import opened Bytes
  import opened HashStream

  type Table = s: seq<bv32> | |s| == 64 witness seq(64, i => 0)

  const K0: seq<bv32> :=
    [0x428a2f98, 0x71374491, 0xb5c0fbcf, 0xe9b5dba5, 0x3956c25b, 0x59f111f1, 0x923f82a4, 0xab1c5ed5,
     0xd807aa98, 0x12835b01, 0x243185be, 0x550c7dc3, 0x72be5d74, 0x80deb1fe, 0x9bdc06a7, 0xc19bf174]
  const K1: seq<bv32> :=
    [0xe49b69c1, 0xefbe4786, 0x0fc19dc6, 0x240ca1cc, 0x2de92c6f, 0x4a7484aa, 0x5cb0a9dc, 0x76f988da,
     0x983e5152, 0xa831c66d, 0xb00327c8, 0xbf597fc7, 0xc6e00bf3, 0xd5a79147, 0x06ca6351, 0x14292967]
  const K2: seq<bv32> :=
    [0x27b70a85, 0x2e1b2138, 0x4d2c6dfc, 0x53380d13, 0x650a7354, 0x766a0abb, 0x81c2c92e, 0x92722c85,
     0xa2bfe8a1, 0xa81a664b, 0xc24b8b70, 0xc76c51a3, 0xd192e819, 0xd6990624, 0xf40e3585, 0x106aa070]
  const K3: seq<bv32> :=
    [0x19a4c116, 0x1e376c08, 0x2748774c, 0x34b0bcb5, 0x391c0cb3, 0x4ed8aa4a, 0x5b9cca4f, 0x682e6ff3,
     0x748f82ee, 0x78a5636f, 0x84c87814, 0x8cc70208, 0x90befffa, 0xa4506ceb, 0xbef9a3f7, 0xc67178f2]

  const K: Table := K0 + K1 + K2 + K3

  const H_INIT: seq<bv32> := [0x6a09e667, 0xbb67ae85, 0x3c6ef372, 0xa54ff53a, 0x510e527f, 0x9b05688c, 0x1f83d9ab,
      0x5be0cd19]

  type Words = s: seq<bv32> | |s| == 8 witness [0, 0, 0, 0, 0, 0, 0, 0]

  // ---- Section 6.2.2 of FIPS 180-4 ----

  function BigEndianWord(b: seq<byte>, i: nat): bv32
    requires i + 4 <= |b|
  {
    (b[i] as bv32 << 24) | (b[i + 1] as bv32 << 16) | (b[i + 2] as bv32 << 8) | b[i + 3] as bv32
  }

  function SmallSigma0(x: bv32): bv32 { x.RotateRight(7) ^ x.RotateRight(18) ^ (x >> 3) }
  function SmallSigma1(x: bv32): bv32 { x.RotateRight(17) ^ x.RotateRight(19) ^ (x >> 10) }
  function BigSigma0(x: bv32): bv32 { x.RotateRight(2) ^ x.RotateRight(13) ^ x.RotateRight(22) }
  function BigSigma1(x: bv32): bv32 { x.RotateRight(6) ^ x.RotateRight(11) ^ x.RotateRight(25) }
  function Choose(x: bv32, y: bv32, z: bv32): bv32 { (x & y) ^ (!x & z) }
  function Majority(x: bv32, y: bv32, z: bv32): bv32 { (x & y) ^ (x & z) ^ (y & z) }

  function Add(x: bv32, y: bv32): bv32 { x + y }

  /** Word t of the message schedule. */
  function Schedule(block: seq<byte>, t: nat): bv32
    requires |block| == 64
  {
    if t < 16 then BigEndianWord(block, 4 * t)
    else Add(Add(Add(Schedule(block, t - 16), SmallSigma0(Schedule(block, t - 15))), Schedule(block, t - 7)),
             SmallSigma1(Schedule(block, t - 2)))
  }

  /** The eight working variables a to h before round t. */
  function Working(state: Words, block: seq<byte>, t: nat): Words
    requires |block| == 64 && t <= 64
  {
    if t == 0 then state
    else
      var v := Working(state, block, t - 1);
      var t1 := Add(Add(Add(Add(v[7], BigSigma1(v[4])), Choose(v[4], v[5], v[6])), K[t - 1]), Schedule(block, t - 1));
      var t2 := Add(BigSigma0(v[0]), Majority(v[0], v[1], v[2]));
      [Add(t1, t2), v[0], v[1], v[2], Add(v[3], t1), v[4], v[5], v[6]]
  }

  function Compress(state: seq<bv32>, block: seq<byte>): seq<bv32> {
    if |state| != 8 || |block| != 64 then state
    else
      var v := Working(state, block, 64);
      [Add(state[0], v[0]), Add(state[1], v[1]), Add(state[2], v[2]), Add(state[3], v[3]),
       Add(state[4], v[4]), Add(state[5], v[5]), Add(state[6], v[6]), Add(state[7], v[7])]
  }

  // ---- process_block ----

  /** The recurrence of the schedule. */
  lemma ScheduleNext(block: seq<byte>, t: nat)
    requires |block| == 64
    ensures t < 16 ==> Schedule(block, t) == BigEndianWord(block, 4 * t)
    ensures t >= 16 ==>
      Schedule(block, t) == Add(Add(Add(Schedule(block, t - 16), SmallSigma0(Schedule(block, t - 15))),
                                    Schedule(block, t - 7)), SmallSigma1(Schedule(block, t - 2)))
  { }

  /** The message schedule, filled in by two loops. */
  method Expand(block: seq<byte>) returns (w: array<bv32>)
    requires |block| == 64
    ensures fresh(w) && w.Length == 64 && forall t :: 0 <= t < 64 ==> w[t] == Schedule(block, t)
  {
    hide Schedule, BigEndianWord, SmallSigma0, SmallSigma1, Add;
    w := new bv32[64](i => 0);
    for i := 0 to 16
      invariant forall t :: 0 <= t < i ==> w[t] == Schedule(block, t)
    {
      ScheduleNext(block, i);
      w[i] := BigEndianWord(block, 4 * i);
    }
    for i := 16 to 64
      invariant forall t :: 0 <= t < i ==> w[t] == Schedule(block, t)
    {
      ScheduleNext(block, i);
      var s0, s1 := SmallSigma0(w[i - 15]), SmallSigma1(w[i - 2]);
      w[i] := Add(Add(Add(w[i - 16], s0), w[i - 7]), s1);
    }
  }

  /** The sixty-four rounds on the working variables. */
  method Rounds(start: Words, block: seq<byte>, w: array<bv32>) returns (v: Words)
    requires |block| == 64 && w.Length == 64 && forall t :: 0 <= t < 64 ==> w[t] == Schedule(block, t)
    ensures v == Working(start, block, 64)
  {
    hide Schedule, BigSigma0, BigSigma1, Choose, Majority, K, Add;
    var a, b, c, d := start[0], start[1], start[2], start[3];
    var e, f, g, h := start[4], start[5], start[6], start[7];
    for i := 0 to 64
      invariant [a, b, c, d, e, f, g, h] == Working(start, block, i)
    {
      var s1 := BigSigma1(e);
      var ch := Choose(e, f, g);
      var temp1 := Add(Add(Add(Add(h, s1), ch), K[i]), w[i]);
      var s0 := BigSigma0(a);
      var maj := Majority(a, b, c);
      var temp2 := Add(s0, maj);
      h := g;
      g := f;
      f := e;
      e := Add(d, temp1);
      d := c;
      c := b;
      b := a;
      a := Add(temp1, temp2);
    }
    v := [a, b, c, d, e, f, g, h];
  }

  method ProcessBlock(state: array<bv32>, block: seq<byte>)
    requires state.Length == 8 && |block| == 64
    modifies state
    ensures state[..] == Compress(old(state[..]), block)
  {
    hide Working, Schedule, Add;
    var start: Words := state[..];
    var w := Expand(block);
    var v := Rounds(start, block, w);
    for i := 0 to 8
      modifies state
      invariant forall k :: 0 <= k < i ==> state[k] == Add(start[k], v[k])
      invariant forall k :: i <= k < 8 ==> state[k] == start[k]
    {
      state[i] := Add(state[i], v[i]);
    }
  }

  // ---- The whole hash ----

  const SHA256: Hash<seq<bv32>> := Hash(64, 8, Compress, H_INIT)

  function BigEndianBytes(w: bv32): (s: seq<byte>)
    ensures |s| == 4
  {
    [(w >> 24) as int, ((w >> 16) & 0xff) as int, ((w >> 8) & 0xff) as int, (w & 0xff) as int]
  }

  function Digest(words: seq<bv32>): (s: seq<byte>)
    ensures |s| == 4 * |words|
  {
    if words == [] then [] else BigEndianBytes(words[0]) + Digest(words[1..])
  }

  /** Sha256::hash. */
  method HashOf(data: seq<byte>) returns (digest: seq<byte>)
    ensures Whole(|data| + |Padding(SHA256, |data|)|, 64)
    ensures digest == Digest(Fold(SHA256, data + Padding(SHA256, |data|)))
  {
    hide Compress, Padding, Fold, Digest;
    var hasher := new Hasher<seq<bv32>>(SHA256);
    hasher.Update(data);
    assert hasher.stream == data;
    hasher.Finalize();
    digest := Digest(hasher.state);
  }
}
