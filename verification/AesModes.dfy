/** The chained modes of the code over any block cipher: CBC and counter mode (sections 6.2 and 6.5 of NIST
    SP 800-38A). */
module AesModes {
  import Bytes
  import opened Words

  type Block = s: Octets | |s| == 16 witness seq(16, i => 0)

  function Xored(a: Octets, b: Block): (r: Octets)
    requires |a| <= 16
    ensures |r| == |a|
  {
    seq(|a|, i requires 0 <= i < |a| => a[i] ^ b[i])
  }

  lemma XoredTwice(a: Octets, b: Block)
    requires |a| <= 16
    ensures Xored(Xored(a, b), b) == a
  { }

  predicate Blocks(n: nat) {
    n % 16 == 0
  }

  lemma OneBlockLess(n: nat)
    requires Blocks(n) && n > 0
    ensures n >= 16 && Blocks(n - 16)
  {
  }

  // ---- Cipher block chaining ----

  function Cbc(e: Block -> Block, iv: Block, data: Octets): (r: Octets)
    requires Blocks(|data|)
    ensures |r| == |data|
    decreases |data|
  {
    if data == [] then []
    else
      OneBlockLess(|data|);
      var c := e(Xored(data[..16], iv));
      c + Cbc(e, c, data[16..])
  }

  function Uncbc(d: Block -> Block, iv: Block, data: Octets): (r: Octets)
    requires Blocks(|data|)
    ensures |r| == |data|
    decreases |data|
  {
    if data == [] then []
    else
      OneBlockLess(|data|);
      Xored(d(data[..16]), iv) + Uncbc(d, data[..16], data[16..])
  }

  /** Decrypting undoes encrypting, for any number of blocks and any initial vector. */
  lemma {:induction false} CbcRoundTrip(e: Block -> Block, d: Block -> Block, iv: Block, data: Octets)
    requires Blocks(|data|) && forall b :: d(e(b)) == b
    ensures Uncbc(d, iv, Cbc(e, iv, data)) == data
    decreases |data|
  {
    hide Xored, Blocks;
    if data != [] {
      OneBlockLess(|data|);
      var m: Block := data[..16];
      var x: Block := Xored(m, iv);
      var c := e(x);
      var sent := Cbc(e, iv, data);
      assert sent[..16] == c && sent[16..] == Cbc(e, c, data[16..]);
      XoredTwice(m, iv);
      assert d(e(x)) == x;
      CbcRoundTrip(e, d, c, data[16..]);
      assert data == m + data[16..];
    }
  }

  /** The next block of a message being encrypted in place. */
  lemma CbcNext(e: Block -> Block, prev: Block, m: Octets, start: nat, done: Octets)
    requires start < |m| && Blocks(|m| - start)
    ensures start + 16 <= |m| && Blocks(|m| - start - 16)
    ensures var c := e(Xored(m[start..start + 16], prev));
      done + Cbc(e, prev, m[start..]) == done + c + Cbc(e, c, m[start + 16..])
  {
    hide Xored, Blocks;
    var rest := m[start..];
    OneBlockLess(|rest|);
    var c := e(Xored(rest[..16], prev));
    assert rest[..16] == m[start..start + 16] && rest[16..] == m[start + 16..];
    Associate(done, c, Cbc(e, c, rest[16..]));
  }

  lemma UncbcNext(d: Block -> Block, prev: Block, m: Octets, start: nat, done: Octets)
    requires start < |m| && Blocks(|m| - start)
    ensures start + 16 <= |m| && Blocks(|m| - start - 16)
    ensures var saved: Block := m[start..start + 16];
      done + Uncbc(d, prev, m[start..]) == done + Xored(d(saved), prev) + Uncbc(d, saved, m[start + 16..])
  {
    hide Xored, Blocks;
    var rest := m[start..];
    OneBlockLess(|rest|);
    assert rest[..16] == m[start..start + 16] && rest[16..] == m[start + 16..];
    Associate(done, Xored(d(rest[..16]), prev), Uncbc(d, rest[..16], rest[16..]));
  }

  lemma Associate(a: Octets, b: Octets, c: Octets)
    ensures a + b + c == a + (b + c)
  {
  }

  // ---- Counter mode ----

  function BigEndian(c: Octets): nat {
    if c == [] then 0 else 0x100 * BigEndian(c[..|c| - 1]) + c[|c| - 1] as nat
  }

  function Next(b: bv8): bv8 {
    b + 1
  }

  /** A carry runs from the last byte up as far as it has to. */
  function Increment(c: Octets): (r: Octets)
    ensures |r| == |c|
  {
    if c == [] then []
    else
      var last := Next(c[|c| - 1]);
      if last != 0 then c[..|c| - 1] + [last] else Increment(c[..|c| - 1]) + [0]
  }

  lemma PlusOne(b: bv8)
    ensures Next(b) == 0 ==> b as nat == 0xFF
    ensures Next(b) != 0 ==> Next(b) as nat == b as nat + 1
    ensures b as nat <= 0xFF
  {
  }

  /** The counter goes up by one, around at the top. */
  lemma {:induction false} IncrementIs(c: Octets)
    ensures BigEndian(c) < Bytes.Radix(|c|)
    ensures BigEndian(Increment(c)) == if BigEndian(c) + 1 == Bytes.Radix(|c|) then 0 else BigEndian(c) + 1
  {
    hide Next;
    if c != [] {
      var (front, b) := (c[..|c| - 1], c[|c| - 1]);
      PlusOne(b);
      IncrementIs(front);
      var r := Increment(c);
      assert r[..|r| - 1] == if Next(b) != 0 then front else Increment(front);
    }
  }

  function Chunk(data: Octets): nat {
    if |data| < 16 then |data| else 16
  }

  function Ctr(e: Block -> Block, counter: Block, data: Octets): (r: Octets)
    ensures |r| == |data|
    decreases |data|
  {
    if data == [] then []
    else
      var n := Chunk(data);
      Xored(data[..n], e(counter)) + Ctr(e, Increment(counter), data[n..])
  }

  lemma CtrNext(e: Block -> Block, counter: Block, m: Octets, start: nat, end: nat, done: Octets)
    requires start < end <= |m| && end == if start + 16 <= |m| then start + 16 else |m|
    ensures done + Ctr(e, counter, m[start..])
         == done + Xored(m[start..end], e(counter)) + Ctr(e, Increment(counter), m[end..])
  { }

  /** Encrypting twice under the same counter gives the data back, whatever its length. */
  lemma {:induction false} CtrTwice(e: Block -> Block, counter: Block, data: Octets)
    ensures Ctr(e, counter, Ctr(e, counter, data)) == data
    decreases |data|
  {
    hide Increment, Xored;
    if data != [] {
      var n := Chunk(data);
      var sent := Ctr(e, counter, data);
      assert sent[..n] == Xored(data[..n], e(counter)) && sent[n..] == Ctr(e, Increment(counter), data[n..]);
      XoredTwice(data[..n], e(counter));
      CtrTwice(e, Increment(counter), data[n..]);
    }
  }

  lemma LastByte(c: Octets)
    requires c != []
    ensures Next(c[|c| - 1]) == 0 ==> Increment(c) == Increment(c[..|c| - 1]) + [0]
    ensures Next(c[|c| - 1]) != 0 ==> Increment(c) == c[..|c| - 1] + [Next(c[|c| - 1])]
  {
  }

  lemma CarryStep(was: Octets, i: nat, tail: Octets)
    requires i < |was| && Increment(was) == Increment(was[..i + 1]) + tail
    ensures Next(was[i]) == 0 ==> Increment(was) == Increment(was[..i]) + ([0] + tail)
    ensures Next(was[i]) != 0 ==> Increment(was) == was[..i] + ([Next(was[i])] + tail)
  {
    hide Increment, Next;
    LastByte(was[..i + 1]);
    Prefix(was, i);
    Associate(Increment(was[..i]), [0], tail);
    Associate(was[..i], [Next(was[i])], tail);
  }

  lemma Prefix(was: Octets, i: nat)
    requires i < |was|
    ensures was[..i + 1][i] == was[i] && was[..i + 1][..i] == was[..i]
  {
  }

  method IncrementInPlace(counter: array<bv8>)
    modifies counter
    ensures counter[..] == Increment(old(counter[..]))
  {
    hide Increment, Next;
    ghost var was := counter[..];
    var i := counter.Length;
    assert was[..i] == was && counter[i..] == [] && Increment(was) == Increment(was) + [];
    while i > 0
      invariant 0 <= i <= counter.Length
      invariant counter[..i] == was[..i]
      invariant Increment(was) == Increment(was[..i]) + counter[i..]
    {
      i := i - 1;
      CarryStep(was, i, counter[i + 1..]);
      counter[i] := Next(counter[i]);
      assert counter[i..] == [counter[i]] + counter[i + 1..];
      if counter[i] != 0 {
        assert counter[..] == counter[..i] + counter[i..];
        return;
      }
    }
    assert was[..0] == [] && Increment([]) + counter[0..] == counter[..];
  }
}
