/** Streaming for the SHA-2 hashes: a block buffer in front of a compression function. SHA-256 has
    64-byte blocks and an 8-byte length field, SHA-512 128-byte blocks and a 16-byte one; the code of
    the two differs in nothing else, so both are instances of this class. */
module HashStream {
  import opened Bytes
  import opened ModArith

  /** A hash: its geometry, its compression function and its initial value. */
  datatype Hash<!S> = Hash(block: nat, lenBytes: nat, compress: (S, seq<byte>) -> S, init: S) {
    predicate Geometry() {
      0 < lenBytes < block
    }
  }

  /** n bytes are a whole number of b-byte blocks. */
  predicate Whole(n: int, b: nat)
    requires 0 < b
  {
    n % b == 0
  }

  /** The low n bytes of v, most significant first. */
  function BigEndian(v: nat, n: nat): (s: seq<byte>)
    ensures |s| == n
  {
    if n == 0 then [] else BigEndian(v / 256, n - 1) + [v % 256]
  }

  function Zeros(n: nat): (s: seq<byte>)
    ensures |s| == n && forall i :: 0 <= i < n ==> s[i] == 0
  {
    seq(n, i => 0)
  }

  /** The padding of sections 5.1.1 and 5.1.2 of FIPS 180-4: a 1 bit, the fewest zeros that make
      room, and the length in bits. */
  function Padding<S>(g: Hash<S>, len: nat): (s: seq<byte>)
    requires g.Geometry()
  {
    [0x80] + Zeros((g.block - 1 - (len + g.lenBytes) % g.block)) + BigEndian(8 * len, g.lenBytes)
  }

  /** The padded message is a whole number of blocks, and one block less would not hold it. */
  lemma PaddingFits<S>(g: Hash<S>, len: nat)
    requires g.Geometry()
    ensures Whole(len + |Padding(g, len)|, g.block)
    ensures |Padding(g, len)| - g.lenBytes - 1 < g.block
  {
    var (q, r) := ((len + g.lenBytes) / g.block, (len + g.lenBytes) % g.block);
    assert len + |Padding(g, len)| == g.block * q + g.block;
    assert g.block * q + g.block == g.block * (q + 1);
    DivUnique(len + |Padding(g, len)|, g.block, q + 1, 0);
  }

  /** The compression function folded over whole blocks. */
  function Fold<S>(g: Hash<S>, s: seq<byte>): S
    requires g.Geometry() && Whole(|s|, g.block)
    decreases |s|
  {
    if s == [] then g.init
    else
      LastBlock(|s|, g.block);
      g.compress(Fold(g, s[..|s| - g.block]), s[|s| - g.block..])
  }

  lemma LastBlock(n: nat, b: nat)
    requires 0 < b && 0 < n && Whole(n, b)
    ensures n >= b && Whole(n - b, b)
  {
    var q := n / b;
    assert n == b * q;
    assert q >= 1;
    assert b * (q - 1) == n - b;
    DivUnique(n - b, b, q - 1, 0);
  }

  lemma AddBlock(n: nat, b: nat)
    requires 0 < b && Whole(n, b)
    ensures Whole(n + b, b)
  {
    assert n + b == b * (n / b + 1);
    DivUnique(n + b, b, n / b + 1, 0);
  }

  lemma FoldBlock<S>(g: Hash<S>, s: seq<byte>, b: seq<byte>)
    requires g.Geometry() && Whole(|s|, g.block) && |b| == g.block
    ensures Whole(|s| + |b|, g.block)
    ensures Fold(g, s + b) == g.compress(Fold(g, s), b)
  {
    AddBlock(|s|, g.block);
    assert (s + b)[..|s|] == s && (s + b)[|s|..] == b;
  }

  class Hasher<!S> {
    const g: Hash<S>
    var state: S
    var totalLen: nat
    var buffer: array<byte>
    var bufferLen: nat
    ghost var stream: seq<byte>  // everything fed in so far

    /** The object has taken in exactly s: whole blocks folded into the state, the rest buffered. */
    ghost predicate Holds(s: seq<byte>)
      reads this, buffer
    {
      && g.Geometry() && buffer.Length == g.block && bufferLen < g.block && bufferLen <= |s|
      && Whole(|s| - bufferLen, g.block)
      && s[|s| - bufferLen..] == buffer[..bufferLen]
      && state == Fold(g, s[..|s| - bufferLen])
    }

    ghost predicate Valid()
      reads this, buffer
    {
      Holds(stream) && totalLen == |stream|
    }

    constructor (g: Hash<S>)
      requires g.Geometry()
      ensures Valid() && stream == [] && this.g == g && fresh(buffer)
    {
      this.g := g;
      state := g.init;
      totalLen := 0;
      buffer := new byte[g.block](i => 0);
      bufferLen := 0;
      stream := [];
    }

    method ProcessBlock(block: seq<byte>, ghost done: seq<byte>)
      requires g.Geometry() && |block| == g.block && Whole(|done|, g.block) && state == Fold(g, done)
      modifies this`state
      ensures Whole(|done| + |block|, g.block)
      ensures state == Fold(g, done + block)
    {
      FoldBlock(g, done, block);
      state := g.compress(state, block);
    }

    /** A block already begun is completed from the data and compressed. */
    method CompleteBlock(chunk: seq<byte>, ghost before: seq<byte>)
      requires Holds(before) && |chunk| == g.block - bufferLen
      modifies this`state, this`bufferLen, buffer
      ensures Holds(before + chunk) && bufferLen == 0
    {
      hide Fold, Whole;
      ghost var done := before[..|before| - bufferLen];
      ghost var tail := buffer[..bufferLen];
      assert before == done + tail;
      Regroup(done, tail, chunk);
      CopyInto(buffer, bufferLen, chunk);
      var block := buffer[..];
      assert block == buffer[..bufferLen + |chunk|];
      ProcessBlock(block, done);
      bufferLen := 0;
      ghost var s := before + chunk;
      assert s[..|s|] == s;
    }

    /** Data too short to complete the block is only buffered. */
    method Stash(chunk: seq<byte>, ghost before: seq<byte>)
      requires Holds(before) && bufferLen + |chunk| < g.block
      modifies this`bufferLen, buffer
      ensures Holds(before + chunk) && bufferLen == old(bufferLen) + |chunk|
    {
      hide Fold, Whole;
      ghost var done := before[..|before| - bufferLen];
      ghost var tail := buffer[..bufferLen];
      assert before == done + tail;
      Regroup(done, tail, chunk);
      CopyInto(buffer, bufferLen, chunk);
      bufferLen := bufferLen + |chunk|;
    }

    /** The loop of update: full blocks straight from the data. */
    method ProcessBlocks(data: seq<byte>, start: nat, ghost before: seq<byte>) returns (offset: nat)
      requires g.Geometry() && start <= |data| && Whole(|before| + start, g.block)
      requires state == Fold(g, before + data[..start])
      modifies this`state
      ensures start <= offset <= |data| < offset + g.block && Whole(|before| + offset, g.block)
      ensures state == Fold(g, before + data[..offset])
    {
      offset := start;
      while offset + g.block <= |data|
        invariant start <= offset <= |data| && Whole(|before| + offset, g.block)
        invariant state == Fold(g, before + data[..offset])
      {
        var next := offset + g.block;
        assert before + data[..offset] + data[offset..next] == before + data[..next];
        ProcessBlock(data[offset..next], before + data[..offset]);
        offset := next;
      }
    }

    method Update(data: seq<byte>)
      requires Valid()
      modifies this`state, this`totalLen, this`bufferLen, this`stream, buffer
      ensures Valid() && stream == old(stream) + data
    {
      hide Fold, Whole;
      ghost var before := stream;
      stream := before + data;
      totalLen := totalLen + |data|;
      var offset := 0;
      if bufferLen > 0 {
        var needed := g.block - bufferLen;
        if |data| >= needed {
          CompleteBlock(data[..needed], before);
          offset := needed;
        } else {
          Stash(data, before);
          return;
        }
      }
      ghost var begun := before + data[..offset];
      assert Holds(begun) by { assert offset == 0 ==> begun == before; }
      assert begun[..|begun|] == begun;
      offset := ProcessBlocks(data, offset, before);
      begun := before + data[..offset];
      assert begun[..|begun|] == begun;
      assert begun + data[offset..] == stream;
      if offset < |data| {
        Stash(data[offset..], begun);
      }
    }

    /** buffer[from..to] = 0. */
    method ZeroFill(from: nat, to: nat)
      requires from <= to <= buffer.Length
      modifies buffer
      ensures buffer[..from] == old(buffer[..from]) && buffer[from..to] == Zeros(to - from)
      ensures buffer[..to] == old(buffer[..from]) + Zeros(to - from)
    {
      for i := from to to
        invariant buffer[..from] == old(buffer[..from])
        invariant forall k :: from <= k < i ==> buffer[k] == 0
      {
        buffer[i] := 0;
      }
    }

    /** The end of finalize: zeros up to the length field, then the length. */
    method Close(prefix: seq<byte>, totalBits: nat)
      requires g.Geometry() && buffer.Length == g.block && |prefix| <= g.block - g.lenBytes
      requires buffer[..|prefix|] == prefix
      modifies buffer
      ensures buffer[..] == prefix + Zeros(g.block - g.lenBytes - |prefix|) + BigEndian(totalBits, g.lenBytes)
    {
      var room := g.block - g.lenBytes;
      ZeroFill(|prefix|, room);
      CopyInto(buffer, room, BigEndian(totalBits, g.lenBytes));
      assert buffer[..] == buffer[..room + g.lenBytes];
    }

    /** The state at the end is the fold over the padded stream, however the stream was cut into
        updates. */
    method Finalize()
      requires Valid()
      modifies this`state, this`bufferLen, buffer
      ensures Whole(|stream| + |Padding(g, |stream|)|, g.block)
      ensures state == Fold(g, stream + Padding(g, |stream|))
    {
      hide Fold, Padding, Whole, Zeros, BigEndian;
      ghost var done := stream[..|stream| - bufferLen];
      ghost var tail := buffer[..bufferLen];
      assert stream == done + tail;
      var totalBits := totalLen * 8;
      ghost var field := BigEndian(totalBits, g.lenBytes);
      PaddingIs(g, |stream|, |done|, |tail|);
      buffer[bufferLen] := 0x80;
      bufferLen := bufferLen + 1;
      ghost var begun := tail + [0x80];
      assert buffer[..bufferLen] == begun;
      if bufferLen > g.block - g.lenBytes {
        ZeroFill(bufferLen, g.block);
        var block := buffer[..];
        assert block == buffer[..g.block];
        ProcessBlock(block, done);
        bufferLen := 0;
        Close([], totalBits);
        LongPad(done, tail, |block| - |begun|, g.block - g.lenBytes, field);
        ProcessBlock(buffer[..], done + block);
      } else {
        Close(buffer[..bufferLen], totalBits);
        ShortPad(done, tail, g.block - g.lenBytes - |begun|, field);
        ProcessBlock(buffer[..], done);
      }
    }
  }

  lemma Regroup(a: seq<byte>, b: seq<byte>, c: seq<byte>)
    ensures a + b + c == a + (b + c) && (a + b + c)[..|a|] == a && (a + b + c)[|a|..] == b + c
  {
  }

  lemma ShortPad(done: seq<byte>, tail: seq<byte>, z: nat, field: seq<byte>)
    ensures done + (tail + [0x80] + Zeros(z) + field) == done + tail + ([0x80] + Zeros(z) + field)
  {
  }

  lemma LongPad(done: seq<byte>, tail: seq<byte>, y: nat, z: nat, field: seq<byte>)
    ensures done + (tail + [0x80] + Zeros(y)) + ([] + Zeros(z) + field)
         == done + tail + ([0x80] + Zeros(y + z) + field)
  {
    assert Zeros(y + z) == Zeros(y) + Zeros(z);
  }

  /** The number of padding zeros, from how much of the last block is filled. */
  lemma PaddingIs<S>(g: Hash<S>, len: nat, done: nat, tail: nat)
    requires g.Geometry() && len == done + tail && Whole(done, g.block) && tail < g.block
    ensures Whole(len + |Padding(g, len)|, g.block)
    ensures var room := g.block - g.lenBytes;
      var z := if tail + 1 > room then (g.block - tail - 1) + room else room - tail - 1;
      Padding(g, len) == [0x80] + Zeros(z) + BigEndian(8 * len, g.lenBytes)
  {
    PaddingFits(g, len);
    var (b, t) := (g.block, tail + g.lenBytes);
    LastZeros(done, t, b);
  }

  lemma LastZeros(done: nat, t: nat, b: nat)
    requires 0 < b && Whole(done, b) && t < 2 * b
    ensures (done + t) % b == if t < b then t else t - b
  {
    var q := done / b;
    assert done == b * q;
    assert b * (q + 1) == b * q + b;
    if t < b {
      DivUnique(done + t, b, q, t);
    } else {
      DivUnique(done + t, b, q + 1, t - b);
    }
  }
}
