/** The wire format: base-128 varints, tags, fields, an encoder with a bounded buffer and a decoder with a
    cursor. */
module Protobuf {
  import opened Bytes
  import opened ModArith
  import opened SignedBits
  import opened Wrappers

  const U32 := 0x1_0000_0000
  const U64 := 0x1_0000_0000_0000_0000
  const GROUPS := 10  // the most bytes a varint may take

  const SLICE_LIMIT := 0x8000_0000  // no slice is this long on the target

  /** How an attempt to read ends: with a value, with nothing, or in a panic. */
  datatype Read<+T> = Got(value: T) | Nothing | Stopped

  // ---- Varints ----

  function VarintOf(v: nat): (s: seq<byte>)
    ensures |s| >= 1
  {
    if v < 128 then [v] else [v % 128 + 128] + VarintOf(v / 128)
  }

  /** The value of the groups up to the first byte without a continuation bit, and how many there are. */
  function Groups(s: seq<byte>, left: nat): (r: Option<(nat, nat)>)
    ensures r.Some? ==> 1 <= r.value.1 <= |s| && r.value.1 <= left
    decreases left
  {
    if s == [] || left == 0 then None
    else if s[0] < 128 then Some((s[0] as nat, 1))
    else
      match Groups(s[1..], left - 1)
      case None => None
      case Some(pair) => Some((s[0] - 128 + 128 * pair.0, pair.1 + 1))
  }

  /** Bits beyond the 64th are lost. */
  function ReadVarint(s: seq<byte>): (r: Option<(nat, nat)>)
    ensures r.Some? ==> r.value.0 < U64 && 1 <= r.value.1 <= |s|
  {
    match Groups(s, GROUPS)
    case None => None
    case Some(pair) => Some((pair.0 % U64, pair.1))
  }

  function Bits7(k: nat): (p: nat)
    ensures p >= 1
  {
    if k == 0 then 1 else 128 * Bits7(k - 1)
  }

  lemma {:induction false} ShortVarint(v: nat, k: nat)
    requires v < Bits7(k) && k > 0
    ensures |VarintOf(v)| <= k
  {
    if v >= 128 {
      ShortVarint(v / 128, k - 1);
    }
  }

  lemma {:induction false} GroupsOfVarint(v: nat, rest: seq<byte>, left: nat)
    requires |VarintOf(v)| <= left
    ensures Groups(VarintOf(v) + rest, left) == Some((v, |VarintOf(v)|))
  {
    var s := VarintOf(v) + rest;
    if v >= 128 {
      GroupsOfVarint(v / 128, rest, left - 1);
      assert s[1..] == VarintOf(v / 128) + rest;
    }
  }

  /** Every 64-bit value is read back, whatever follows it. */
  lemma VarintRoundTrip(v: nat, rest: seq<byte>)
    requires v < U64
    ensures ReadVarint(VarintOf(v) + rest) == Some((v, |VarintOf(v)|))
  {
    TenGroups();
    hide Bits7, VarintOf, Groups;
    ShortVarint(v, GROUPS);
    GroupsOfVarint(v, rest, GROUPS);
  }

  lemma TenGroups()
    ensures Bits7(5) == 0x8_0000_0000 && Bits7(GROUPS) == 0x40_0000_0000_0000_0000
  { }

  lemma {:induction false} GroupsPrefix(s: seq<byte>, t: seq<byte>, left: nat)
    requires Groups(s, left).Some?
    ensures Groups(s + t, left) == Groups(s, left)
  {
    if s[0] >= 128 {
      GroupsPrefix(s[1..], t, left - 1);
      assert (s + t)[1..] == s[1..] + t;
    }
  }

  /** No encoding of a value is shorter than the one written. */
  lemma {:induction false} VarintIsShortest(s: seq<byte>, left: nat)
    requires Groups(s, left).Some?
    ensures |VarintOf(Groups(s, left).value.0)| <= Groups(s, left).value.1
  {
    if s[0] >= 128 {
      VarintIsShortest(s[1..], left - 1);
    }
  }

  lemma {:induction false} VarintGrows(v: nat, w: nat)
    requires v <= w
    ensures |VarintOf(v)| <= |VarintOf(w)|
  {
    if v >= 128 {
      VarintGrows(v / 128, w / 128);
    }
  }

  lemma ReadIsShortest(s: seq<byte>)
    requires ReadVarint(s).Some?
    ensures |VarintOf(ReadVarint(s).value.0)| <= ReadVarint(s).value.1
    ensures |VarintOf(ReadVarint(s).value.0 % U32)| <= ReadVarint(s).value.1
  {
    VarintIsShortest(s, GROUPS);
    var v := Groups(s, GROUPS).value.0;
    VarintGrows(v % U64, v);
    VarintGrows(v % U64 % U32, v);
  }

  // ---- Signed integers ----

  /** The cast of a 32-bit pattern to a signed integer. */
  function Signed(n: int): int {
    var r := n % U32;
    if r < 0x8000_0000 then r else r - U32
  }

  predicate IsI32(v: int) {
    -0x8000_0000 <= v < 0x8000_0000
  }

  /** ((v << 1) ^ (v >> 31)) as u32. */
  function Zigzag(v: int): (r: nat)
    ensures r < U32
  {
    Xor(Signed(2 * v), v / 0x8000_0000) % U32
  }

  /** ((e >> 1) as i32) ^ -((e & 1) as i32). */
  function Unzigzag(e: nat): int {
    Xor(Signed(e / 2), -(e % 2))
  }

  lemma {:induction false} XorOnes(a: int)
    ensures Xor(a, -1) == -1 - a
    decreases Size(a)
  {
    if !AllOneSign(a) {
      XorOnes(a / 2);
    }
  }

  lemma ZigzagIs(v: int)
    requires IsI32(v)
    ensures Zigzag(v) == if v >= 0 then 2 * v else -2 * v - 1
  {
    hide Xor;
    XorZero(Signed(2 * v));
    XorOnes(Signed(2 * v));
  }

  lemma ZigzagRoundTrip(v: int)
    requires IsI32(v)
    ensures Unzigzag(Zigzag(v)) == v
  {
    hide Xor, Zigzag;
    ZigzagIs(v);
    XorZero(Signed(Zigzag(v) / 2));
    XorOnes(Signed(Zigzag(v) / 2));
  }

  // ---- Fields ----

  datatype Content = Number(v: nat) | Block(b: seq<byte>) | Fixed64(b: seq<byte>) | Fixed32(b: seq<byte>)

  datatype Field = Field(number: nat, content: Content)

  function WireType(c: Content): nat {
    match c
    case Number(_) => 0
    case Fixed64(_) => 1
    case Block(_) => 2
    case Fixed32(_) => 5
  }

  function TagOf(f: Field): nat {
    8 * f.number + WireType(f.content)
  }

  function ContentBytes(c: Content): seq<byte> {
    match c
    case Number(v) => VarintOf(v)
    case Block(b) => VarintOf(|b|) + b
    case Fixed64(b) => b
    case Fixed32(b) => b
  }

  function FieldBytes(f: Field): (s: seq<byte>)
    ensures s != []
  {
    VarintOf(TagOf(f)) + ContentBytes(f.content)
  }

  /** A field that fits its types: 29-bit number, 64-bit value, 32-bit length. */
  predicate Proper(f: Field) {
    && f.number < U32 / 8
    && match f.content
       case Number(v) => v < U64
       case Block(b) => |b| < U32
       case Fixed64(b) => |b| == 8
       case Fixed32(b) => |b| == 4
  }

  function ReadContent(wire: nat, s: seq<byte>): (r: Option<(Content, nat)>)
    ensures r.Some? ==> r.value.1 <= |s| && WireType(r.value.0) == wire
  {
    match wire
    case 0 =>
      (match ReadVarint(s)
       case None => None
       case Some(pair) => Some((Number(pair.0), pair.1)))
    case 1 => if |s| < 8 then None else Some((Fixed64(s[..8]), 8))
    case 2 =>
      (match ReadVarint(s)
       case None => None
       case Some(pair) =>
         var len := pair.0 % U32;
         if pair.1 + len > |s| then None else Some((Block(s[pair.1..pair.1 + len]), pair.1 + len)))
    case 5 => if |s| < 4 then None else Some((Fixed32(s[..4]), 4))
    case _ => None
  }

  /** One field off the front, and how many bytes it took. */
  function ReadField(s: seq<byte>): (r: Option<(Field, nat)>)
    ensures r.Some? ==> 1 <= r.value.1 <= |s|
  {
    match ReadVarint(s)
    case None => None
    case Some(tag) =>
      match ReadContent(tag.0 % 8, s[tag.1..])
      case None => None
      case Some(pair) => Some((Field(tag.0 % U32 / 8, pair.0), tag.1 + pair.1))
  }

  lemma BlockRoundTrip(b: seq<byte>, rest: seq<byte>)
    requires |b| < U32
    ensures ReadContent(2, VarintOf(|b|) + b + rest) == Some((Block(b), |VarintOf(|b|)| + |b|))
  {
    hide ReadVarint, VarintOf;
    var n := |VarintOf(|b|)|;
    assert VarintOf(|b|) + b + rest == VarintOf(|b|) + (b + rest);
    VarintRoundTrip(|b|, b + rest);
    assert (VarintOf(|b|) + b + rest)[n..n + |b|] == b;
  }

  lemma ContentRoundTrip(c: Content, rest: seq<byte>)
    requires Proper(Field(0, c))
    ensures ReadContent(WireType(c), ContentBytes(c) + rest) == Some((c, |ContentBytes(c)|))
  {
    hide ReadVarint, VarintOf;
    match c
    case Number(v) => VarintRoundTrip(v, rest);
    case Block(b) => BlockRoundTrip(b, rest);
    case Fixed64(b) => assert (b + rest)[..8] == b;
    case Fixed32(b) => assert (b + rest)[..4] == b;
  }

  /** What is written as a field is read as that field, whatever follows. */
  lemma FieldRoundTrip(f: Field, rest: seq<byte>)
    requires Proper(f)
    ensures ReadField(FieldBytes(f) + rest) == Some((f, |FieldBytes(f)|))
  {
    hide ReadVarint, VarintOf, ReadContent, ContentBytes;
    var s, tag, body := FieldBytes(f) + rest, VarintOf(TagOf(f)), ContentBytes(f.content);
    assert s == tag + (body + rest);
    VarintRoundTrip(TagOf(f), body + rest);
    assert s[|tag|..] == body + rest;
    ContentRoundTrip(f.content, rest);
  }

  lemma VarintPrefix(s: seq<byte>, t: seq<byte>)
    requires ReadVarint(s).Some?
    ensures ReadVarint(s + t) == ReadVarint(s)
  {
    GroupsPrefix(s, t, GROUPS);
  }

  lemma ContentPrefix(wire: nat, s: seq<byte>, t: seq<byte>)
    requires ReadContent(wire, s).Some?
    ensures ReadContent(wire, s + t) == ReadContent(wire, s)
  {
    hide ReadVarint;
    match wire
    case 0 => VarintPrefix(s, t);
    case 1 => assert (s + t)[..8] == s[..8];
    case 2 =>
      VarintPrefix(s, t);
      var n, len := ReadVarint(s).value.1, ReadVarint(s).value.0 % U32;
      assert (s + t)[n..n + len] == s[n..n + len];
    case 5 => assert (s + t)[..4] == s[..4];
  }

  /** A complete field does not depend on what follows it. */
  lemma FieldPrefix(s: seq<byte>, t: seq<byte>)
    requires ReadField(s).Some?
    ensures ReadField(s + t) == ReadField(s)
  {
    hide ReadVarint, ReadContent;
    VarintPrefix(s, t);
    var tag := ReadVarint(s).value;
    assert (s + t)[tag.1..] == s[tag.1..] + t;
    ContentPrefix(tag.0 % 8, s[tag.1..], t);
  }

  lemma {:induction false} GroupsCut(s: seq<byte>, m: nat, left: nat)
    requires Groups(s, left).Some? && Groups(s, left).value.1 <= m <= |s|
    ensures Groups(s[..m], left) == Groups(s, left)
  {
    assert s[..m][0] == s[0];
    if s[0] >= 128 {
      GroupsCut(s[1..], m - 1, left - 1);
      assert s[..m][1..] == s[1..][..m - 1];
    }
  }

  lemma ContentCut(wire: nat, s: seq<byte>, m: nat)
    requires ReadContent(wire, s).Some? && ReadContent(wire, s).value.1 <= m <= |s|
    ensures ReadContent(wire, s[..m]) == ReadContent(wire, s)
  {
    hide Groups;
    match wire
    case 0 => GroupsCut(s, m, GROUPS);
    case 1 => assert s[..m][..8] == s[..8];
    case 2 =>
      GroupsCut(s, m, GROUPS);
      var n, len := ReadVarint(s).value.1, ReadVarint(s).value.0 % U32;
      assert s[..m][n..n + len] == s[n..n + len];
    case 5 => assert s[..m][..4] == s[..4];
  }

  /** Nor does it need what follows it. */
  lemma FieldCut(s: seq<byte>, m: nat)
    requires ReadField(s).Some? && ReadField(s).value.1 <= m <= |s|
    ensures ReadField(s[..m]) == ReadField(s)
  {
    hide Groups, ReadContent;
    GroupsCut(s, m, GROUPS);
    var tag := ReadVarint(s).value;
    assert s[..m][tag.1..] == s[tag.1..][..m - tag.1];
    ContentCut(tag.0 % 8, s[tag.1..], m - tag.1);
  }

  // ---- Decoding as a fold over fields ----

  /** A message type's decoder: what each field does to the record built so far; None gives up. */
  type Update<!R> = (R, Field) -> Option<R>

  function Decode<R>(update: Update<R>, acc: R, s: seq<byte>): Option<R>
    decreases |s|
  {
    if s == [] then Some(acc)
    else
      match ReadField(s)
      case None => None
      case Some(pair) =>
        match update(acc, pair.0)
        case None => None
        case Some(next) => Decode(update, next, s[pair.1..])
  }

  /** Decoding a concatenation continues where the first part left off; so the last of several values wins. */
  lemma {:induction false} DecodeConcat<R>(update: Update<R>, acc: R, a: seq<byte>, b: seq<byte>)
    requires Decode(update, acc, a).Some?
    ensures Decode(update, acc, a + b) == Decode(update, Decode(update, acc, a).value, b)
    decreases |a|
  {
    hide ReadField;
    if a == [] {
      assert a + b == b;
    } else {
      var (f, n) := ReadField(a).value;
      FieldPrefix(a, b);
      assert (a + b)[n..] == a[n..] + b;
      DecodeConcat(update, update(acc, f).value, a[n..], b);
    }
  }

  /** A well-formed field the message does not know can stand anywhere between two fields. */
  lemma UnknownFieldsSkipped<R(!new)>(update: Update<R>, acc: R, a: seq<byte>, f: Field, b: seq<byte>)
    requires Decode(update, acc, a).Some? && Proper(f)
    requires forall r :: update(r, f) == Some(r)
    ensures Decode(update, acc, a + FieldBytes(f) + b) == Decode(update, acc, a + b)
  {
    hide ReadField;
    var r := Decode(update, acc, a).value;
    assert a + FieldBytes(f) + b == a + (FieldBytes(f) + b);
    DecodeConcat(update, acc, a, FieldBytes(f) + b);
    DecodeConcat(update, acc, a, b);
    FieldRoundTrip(f, b);
    assert (FieldBytes(f) + b)[|FieldBytes(f)|..] == b;
  }

  // ---- Where the cursor's arithmetic gives out ----

  /** A block is announced at a position from which its length takes the cursor's 32-bit sum past the top. */
  predicate Overruns(wire: nat, at: nat, s: seq<byte>) {
    wire == 2 && ReadVarint(s).Some? && at + ReadVarint(s).value.1 + ReadVarint(s).value.0 % U32 >= U32
  }

  /** A tag and then such an announcement. */
  predicate FieldOverruns(at: nat, s: seq<byte>) {
    ReadVarint(s).Some? && var tag := ReadVarint(s).value; Overruns(tag.0 % 8, at + tag.1, s[tag.1..])
  }

  /** How decoding ends when it starts at a given position. */
  function Outcome<R>(update: Update<R>, acc: R, at: nat, s: seq<byte>): Read<R>
    decreases |s|
  {
    if s == [] then Got(acc)
    else if FieldOverruns(at, s) then Stopped
    else
      match ReadField(s)
      case None => Nothing
      case Some(pair) =>
        match update(acc, pair.0)
        case None => Nothing
        case Some(next) => Outcome(update, next, at + pair.1, s[pair.1..])
  }

  lemma OverrunIsNoField(at: nat, s: seq<byte>)
    requires at + |s| < U32 && FieldOverruns(at, s)
    ensures ReadField(s) == None
  {
    hide ReadVarint;
  }

  /** Values come out exactly as from the fold. */
  lemma {:induction false} OutcomeIs<R>(update: Update<R>, acc: R, at: nat, s: seq<byte>)
    requires at + |s| < U32
    ensures Decode(update, acc, s) == match Outcome(update, acc, at, s) case Got(r) => Some(r) case _ => None
    decreases |s|
  {
    hide ReadField, FieldOverruns;
    if s != [] {
      if FieldOverruns(at, s) {
        OverrunIsNoField(at, s);
      } else if ReadField(s).Some? {
        var (f, n) := ReadField(s).value;
        if update(acc, f).Some? {
          OutcomeIs(update, update(acc, f).value, at + n, s[n..]);
        }
      }
    }
  }

  /** Decoding panics exactly when whole fields that decode are followed by such an announcement. */
  lemma {:induction false} StopsExactly<R>(update: Update<R>, acc: R, at: nat, s: seq<byte>)
    requires at + |s| < U32
    ensures Outcome(update, acc, at, s).Stopped?
       <==> exists k :: 0 <= k <= |s| && Decode(update, acc, s[..k]).Some? && FieldOverruns(at + k, s[k..])
    decreases |s|
  {
    hide ReadField, FieldOverruns;
    if Outcome(update, acc, at, s).Stopped? {
      var k := StopIsReached(update, acc, at, s);
    }
    if k :| 0 <= k <= |s| && Decode(update, acc, s[..k]).Some? && FieldOverruns(at + k, s[k..]) {
      StopIsFinal(update, acc, at, s, k);
    }
  }

  lemma {:induction false} StopIsReached<R>(update: Update<R>, acc: R, at: nat, s: seq<byte>) returns (k: nat)
    requires Outcome(update, acc, at, s).Stopped?
    ensures k <= |s| && Decode(update, acc, s[..k]).Some? && FieldOverruns(at + k, s[k..])
    decreases |s|
  {
    hide ReadField, FieldOverruns;
    if FieldOverruns(at, s) {
      k := 0;
      assert s[0..] == s;
    } else {
      var (f, n) := ReadField(s).value;
      k := StopIsReached(update, update(acc, f).value, at + n, s[n..]);
      k := n + k;
      FieldCut(s, k);
      assert s[..k][n..] == s[n..][..k - n] && s[n..][k - n..] == s[k..];
    }
  }

  lemma {:induction false} StopIsFinal<R>(update: Update<R>, acc: R, at: nat, s: seq<byte>, k: nat)
    requires at + |s| < U32
    requires k <= |s| && Decode(update, acc, s[..k]).Some? && FieldOverruns(at + k, s[k..])
    ensures Outcome(update, acc, at, s).Stopped?
    decreases |s|
  {
    hide ReadField, FieldOverruns;
    if k == 0 {
      assert s[0..] == s;
      SomethingOverruns(at, s);
    } else {
      var (f, n) := ReadField(s[..k]).value;
      assert s[..k] + s[k..] == s;
      FieldPrefix(s[..k], s[k..]);
      if FieldOverruns(at, s) {
        OverrunIsNoField(at, s);
      }
      assert s[..k][n..] == s[n..][..k - n] && s[n..][k - n..] == s[k..];
      StopIsFinal(update, update(acc, f).value, at + n, s[n..], k - n);
    }
  }

  lemma SomethingOverruns(at: nat, s: seq<byte>)
    requires FieldOverruns(at, s)
    ensures s != []
  { }

  function FieldsBytes(fields: seq<Field>): seq<byte> {
    if fields == [] then [] else FieldBytes(fields[0]) + FieldsBytes(fields[1..])
  }

  function FoldFields<R>(update: Update<R>, acc: R, fields: seq<Field>): Option<R> {
    if fields == [] then Some(acc)
    else
      match update(acc, fields[0])
      case None => None
      case Some(next) => FoldFields(update, next, fields[1..])
  }

  /** Written fields are decoded one after the other. */
  lemma {:induction false} DecodeWritten<R>(update: Update<R>, acc: R, fields: seq<Field>)
    requires forall f :: f in fields ==> Proper(f)
    ensures Decode(update, acc, FieldsBytes(fields)) == FoldFields(update, acc, fields)
  {
    hide ReadField;
    if fields != [] {
      var rest := FieldsBytes(fields[1..]);
      FieldRoundTrip(fields[0], rest);
      assert FieldsBytes(fields)[|FieldBytes(fields[0])|..] == rest;
      if update(acc, fields[0]).Some? {
        DecodeWritten(update, update(acc, fields[0]).value, fields[1..]);
      }
    }
  }

  // ---- The encoder ----

  /** Bytes pushed one at a time until the buffer is full. */
  function PushEach(buf: seq<byte>, cap: nat, bytes: seq<byte>): (seq<byte>, bool)
    decreases |bytes|
  {
    if bytes == [] then (buf, true)
    else if |buf| < cap then PushEach(buf + [bytes[0]], cap, bytes[1..])
    else (buf, false)
  }

  /** All of the bytes or none of them. */
  function PushAll(buf: seq<byte>, cap: nat, bytes: seq<byte>): (seq<byte>, bool) {
    if |buf| + |bytes| <= cap then (buf + bytes, true) else (buf, false)
  }

  /** Zero numbers and empty blocks are not written at all. */
  predicate Skipped(c: Content) {
    c == Number(0) || c == Block([])
  }

  function PushContent(buf: seq<byte>, cap: nat, c: Content): (seq<byte>, bool) {
    match c
    case Number(v) => PushEach(buf, cap, VarintOf(v))
    case Block(b) =>
      var (b1, ok) := PushEach(buf, cap, VarintOf(|b|));
      if ok then PushAll(b1, cap, b) else (b1, false)
    case Fixed64(b) => PushAll(buf, cap, b)
    case Fixed32(b) => PushAll(buf, cap, b)
  }

  function PushField(buf: seq<byte>, cap: nat, f: Field): (seq<byte>, bool) {
    if Skipped(f.content) then (buf, true)
    else
      var (b1, ok) := PushEach(buf, cap, VarintOf(TagOf(f)));
      if ok then PushContent(b1, cap, f.content) else (b1, false)
  }

  lemma {:induction false} PushEachFits(buf: seq<byte>, cap: nat, bytes: seq<byte>)
    requires |buf| <= cap
    ensures |PushEach(buf, cap, bytes).0| <= cap
    ensures |buf| + |bytes| <= cap ==> PushEach(buf, cap, bytes) == (buf + bytes, true)
    decreases |bytes|
  {
    if bytes == [] {
      assert buf + bytes == buf;
    } else if |buf| < cap {
      PushEachFits(buf + [bytes[0]], cap, bytes[1..]);
      assert buf + [bytes[0]] + bytes[1..] == buf + bytes;
    }
  }

  /** A buffer is never overrun, and a field for which there is room is written whole. */
  lemma PushFieldFits(buf: seq<byte>, cap: nat, f: Field)
    requires |buf| <= cap
    ensures |PushField(buf, cap, f).0| <= cap
    ensures !Skipped(f.content) && |buf| + |FieldBytes(f)| <= cap ==>
      PushField(buf, cap, f) == (buf + FieldBytes(f), true)
  {
    hide VarintOf, PushEach;
    var tag := VarintOf(TagOf(f));
    PushEachFits(buf, cap, tag);
    var b1 := PushEach(buf, cap, tag).0;
    assert buf + FieldBytes(f) == buf + tag + ContentBytes(f.content);
    match f.content
    case Number(v) => PushEachFits(b1, cap, VarintOf(v));
    case Block(b) =>
      PushEachFits(b1, cap, VarintOf(|b|));
      assert b1 + ContentBytes(f.content) == b1 + VarintOf(|b|) + b;
    case Fixed64(b) =>
    case Fixed32(b) =>
  }

  class ProtobufEncoder {
    const cap: nat
    var buffer: seq<byte>

    constructor (cap: nat)
      ensures this.cap == cap && buffer == []
    {
      this.cap := cap;
      buffer := [];
    }

    method Push(b: byte) returns (ok: bool)
      modifies this
      ensures ok == (|old(buffer)| < cap) && buffer == if ok then old(buffer) + [b] else old(buffer)
    {
      ok := |buffer| < cap;
      if ok {
        buffer := buffer + [b];
      }
    }

    method WriteVarint(value: nat) returns (ok: bool)
      modifies this
      ensures (buffer, ok) == PushEach(old(buffer), cap, VarintOf(value))
    {
      var v := value;
      while true
        invariant PushEach(buffer, cap, VarintOf(v)) == PushEach(old(buffer), cap, VarintOf(value))
        decreases v
      {
        var b := v % 128;
        v := v / 128;
        if v == 0 {
          assert VarintOf(b) == [b];
          assert PushEach(buffer + [b], cap, []) == (buffer + [b], true);
          ok := Push(b);
          return;
        } else {
          SmallPowers();
          OrIsSum(b, 1, 128, 7);
          var pushed := Push(Or(b, 128));
          if !pushed {
            return false;
          }
        }
      }
    }

    method WriteTag(fieldNumber: nat, wireType: nat) returns (ok: bool)
      requires wireType < 8
      modifies this
      ensures (buffer, ok) == PushEach(old(buffer), cap, VarintOf(8 * fieldNumber + wireType))
    {
      SmallPowers();
      OrIsSum(wireType, fieldNumber, 8, 3);
      OrCommutes(8 * fieldNumber, wireType);
      ok := WriteVarint(Or(8 * fieldNumber, wireType));
    }

    method WriteVarintField(fieldNumber: nat, value: nat) returns (ok: bool)
      modifies this
      ensures (buffer, ok) == PushField(old(buffer), cap, Field(fieldNumber, Number(value)))
    {
      hide PushEach, VarintOf;
      if value == 0 {
        return true;
      }
      ok := WriteTag(fieldNumber, 0);
      if ok {
        ok := WriteVarint(value);
      }
    }

    method WriteSint32Field(fieldNumber: nat, value: int) returns (ok: bool)
      requires IsI32(value)
      modifies this
      ensures (buffer, ok) == PushField(old(buffer), cap, Field(fieldNumber, Number(Zigzag(value))))
    {
      hide PushEach, VarintOf, Zigzag;
      ZigzagIs(value);
      if value == 0 {
        return true;
      }
      ok := WriteTag(fieldNumber, 0);
      if ok {
        ok := WriteVarint(Zigzag(value));
      }
    }

    method WriteBoolField(fieldNumber: nat, value: bool) returns (ok: bool)
      modifies this
      ensures (buffer, ok) == PushField(old(buffer), cap, Field(fieldNumber, Number(if value then 1 else 0)))
    {
      if !value {
        return true;
      }
      ok := WriteTag(fieldNumber, 0);
      if ok {
        var one: seq<byte> := [1];
        assert VarintOf(1) == one && one[1..] == [];
        assert PushEach(buffer + one, cap, one[1..]) == (buffer + one, true);
        ok := Push(1);
      }
    }

    method WriteBytesField(fieldNumber: nat, data: seq<byte>) returns (ok: bool)
      modifies this
      ensures (buffer, ok) == PushField(old(buffer), cap, Field(fieldNumber, Block(data)))
    {
      hide PushEach, VarintOf;
      if data == [] {
        return true;
      }
      ok := WriteTag(fieldNumber, 2);
      if ok {
        ok := WriteVarint(|data|);
        if ok {
          if |buffer| + |data| <= cap {
            buffer := buffer + data;
          } else {
            ok := false;
          }
        }
      }
    }
  }

  // ---- The decoder ----

  lemma {:induction false} Bits7Add(a: nat, b: nat)
    ensures Bits7(a + b) == Bits7(a) * Bits7(b)
  {
    if a > 0 {
      Bits7Add(a - 1, b);
      Associate(128, Bits7(a - 1), Bits7(b));
    }
  }

  lemma Associate(x: int, y: int, z: int)
    ensures (x * y) * z == x * (y * z)
  {
  }

  /** A seven-bit group moved up by i groups. */
  function MovedUp(group: nat, i: nat): nat {
    Bits7(i) * group
  }

  /** What a 64-bit word keeps of it. */
  function ShiftedGroup(group: nat, i: nat): nat {
    MovedUp(group, i) % U64
  }

  /** Adding a group above what has been read loses only what a 64-bit word cannot hold. */
  lemma GroupFits(acc: nat, group: nat, i: nat)
    requires i < GROUPS && acc < Bits7(i) && group < 128
    ensures acc + ShiftedGroup(group, i) == (acc + MovedUp(group, i)) % U64
    ensures i < GROUPS - 1 ==> ShiftedGroup(group, i) == MovedUp(group, i) && acc + MovedUp(group, i) < Bits7(i + 1)
  {
    var p, c := Bits7(i), 2 * Bits7(GROUPS - 1 - i);
    Bits7Add(i, GROUPS - 1 - i);
    assert Bits7(GROUPS - 1) == 0x8000_0000_0000_0000 by {
      assert Bits7(5) == 0x8_0000_0000;
      assert Bits7(7) == 0x2_0000_0000_0000;
    }
    assert p * c == U64 by { Associate(p, Bits7(GROUPS - 1 - i), 2); }
    Aligned(acc, p, c, group);
    if i < GROUPS - 1 {
      Bits7Add(i + 1, GROUPS - 2 - i);
      SmallGroup(acc, p, c, group, Bits7(GROUPS - 2 - i));
    }
  }

  lemma {:induction false} Bits7IsTwo(k: nat)
    ensures Bits7(k) == Two(7 * k)
  {
    if k > 0 {
      Bits7IsTwo(k - 1);
      TwoAdd(7, 7 * k - 7);
      assert Two(7) == 128;
    }
  }

  /** The bits of the next group lie above those read so far. */
  lemma GroupJoins(acc: nat, group: nat, i: nat)
    requires i < GROUPS && acc < Bits7(i)
    ensures Or(acc, ShiftedGroup(group, i)) == acc + ShiftedGroup(group, i)
  {
    hide Or, Two, Bits7;
    var p, c := Bits7(i), 2 * Bits7(GROUPS - 1 - i);
    TopGroups(i);
    var r := group % c;
    assert p * r < U64 by {
      assert p * r <= p * (c - 1);
      assert p * (c - 1) == p * c - p;
    }
    assert group * p == U64 * (group / c) + p * r by {
      assert group == c * (group / c) + r;
      assert (c * (group / c)) * p == (p * c) * (group / c);
    }
    DivUnique(group * p, U64, group / c, p * r);
    Bits7IsTwo(i);
    OrIsSum(acc, r, p, 7 * i);
  }

  lemma TopGroups(i: nat)
    requires i < GROUPS
    ensures Bits7(i) * (2 * Bits7(GROUPS - 1 - i)) == U64
  {
    Bits7Add(i, GROUPS - 1 - i);
    assert Bits7(GROUPS - 1) == 0x8000_0000_0000_0000 by {
      assert Bits7(5) == 0x8_0000_0000;
      assert Bits7(7) == 0x2_0000_0000_0000;
    }
    Associate(Bits7(i), Bits7(GROUPS - 1 - i), 2);
  }

  lemma Aligned(acc: nat, p: nat, c: nat, group: nat)
    requires p > 0 && c > 0 && acc < p && p * c == U64
    ensures acc + (p * group) % U64 == (acc + p * group) % U64
  {
    var q, r := group / c, group % c;
    calc {
      p * group;
      p * (q * c + r);
      U64 * q + p * r;
    }
    assert p * r <= p * (c - 1);
    assert p * (c - 1) == p * c - p;
    DivUnique(p * group, U64, q, p * r);
    DivUnique(acc + p * group, U64, q, acc + p * r);
  }

  lemma SmallGroup(acc: nat, p: nat, c: nat, group: nat, d: nat)
    requires acc < p && group < 128 && p * c == U64 && c == 2 * (128 * d) && d >= 1
    ensures (p * group) % U64 == p * group && acc + p * group < 128 * p
  { }

  /** The groups read so far, under what the rest will turn out to be. */
  function Onto(acc: nat, i: nat, rest: Option<(nat, nat)>): Option<(nat, nat)> {
    match rest
    case None => None
    case Some(pair) => Some((acc + Bits7(i) * pair.0, i + pair.1))
  }

  lemma OntoNext(acc: nat, i: nat, group: nat, rest: Option<(nat, nat)>)
    ensures Onto(acc, i, match rest case None => None case Some(pair) => Some((group + 128 * pair.0, pair.1 + 1)))
         == Onto(acc + Bits7(i) * group, i + 1, rest)
  {
    if rest.Some? {
      var v := rest.value.0;
      calc {
        acc + Bits7(i) * (group + 128 * v);
        acc + Bits7(i) * group + Bits7(i) * (128 * v);
        { Associate(Bits7(i), 128, v); }
        acc + Bits7(i) * group + (Bits7(i) * 128) * v;
      }
    }
  }

  class ProtobufDecoder {
    const data: seq<byte>
    var pos: nat

    ghost predicate Valid()
      reads this
    {
      pos <= |data| < SLICE_LIMIT
    }

    ghost function Rest(): seq<byte>
      requires Valid()
      reads this
    {
      data[pos..]
    }

    constructor (data: seq<byte>)
      requires |data| < SLICE_LIMIT
      ensures Valid() && this.data == data && pos == 0
    {
      this.data := data;
      pos := 0;
    }

    method ReadVarintHere() returns (r: Option<nat>)
      requires Valid()
      modifies this
      ensures Valid() && pos >= old(pos)
      ensures ReadVarint(old(Rest())) == if r.Some? then Some((r.value, pos - old(pos))) else None
    {
      hide Bits7, ShiftedGroup, MovedUp, Groups, Onto;
      ghost var s := data[pos..];
      var result: nat, i: nat := 0, 0;  // the shift is 7 * i
      OntoStart(s);
      ghost var start := pos;
      while true
        invariant i < GROUPS && result < Bits7(i) && pos == start + i <= |data|
        invariant Groups(s, GROUPS) == Onto(result, i, Groups(s[i..], GROUPS - i))
        decreases GROUPS - i
      {
        NextGroup(s, i, result);
        if pos >= |data| {
          return None;
        }
        var b := data[pos];
        assert b == s[i];
        pos := pos + 1;
        var group := (b % 128) as nat;
        GroupFits(result, group, i);
        GroupJoins(result, group, i);
        result := Or(result, ShiftedGroup(group, i));
        if b < 128 {
          return Some(result);
        }
        i := i + 1;
        if i >= GROUPS {
          return None;
        }
      }
    }

    method ReadTag() returns (r: Option<(nat, nat)>)
      requires Valid()
      modifies this
      ensures Valid() && pos >= old(pos)
      ensures match ReadVarint(old(Rest()))
              case None => r == None
              case Some(tag) => r == Some((tag.0 % U32 / 8, tag.0 % 8)) && pos == old(pos) + tag.1
    {
      hide ReadVarint;
      var tag := ReadVarintHere();
      if tag.None? {
        return None;
      }
      var low := tag.value % U32;
      r := Some((low / 8, low % 8));
    }

    method ReadBytes() returns (r: Read<seq<byte>>)
      requires Valid()
      modifies this
      ensures Valid() && pos >= old(pos)
      ensures r.Stopped? <==> Overruns(2, old(pos), old(Rest()))
      ensures ReadContent(2, old(Rest())) == if r.Got? then Some((Block(r.value), pos - old(pos))) else None
    {
      hide ReadVarint;
      ghost var s := data[pos..];
      ghost var start := pos;
      var read := ReadVarintHere();
      if read.None? {
        return Nothing;
      }
      var len := read.value % U32;
      if pos + len >= U32 {
        return Stopped;  // the 32-bit sum wraps, and the slice that follows begins after its end
      }
      if pos + len > |data| {
        return Nothing;
      }
      assert data[pos..pos + len] == s[pos - start..pos - start + len];
      r := Got(data[pos..pos + len]);
      pos := pos + len;
    }

    method SkipField(wireType: nat) returns (r: Read<()>)
      requires Valid()
      modifies this
      ensures Valid() && pos >= old(pos)
      ensures r.Stopped? <==> Overruns(wireType, old(pos), old(Rest()))
      ensures match ReadContent(wireType, old(Rest()))
              case None => !r.Got?
              case Some(pair) => r == Got(()) && pos == old(pos) + pair.1
    {
      hide ReadVarint;
      r := Nothing;
      if wireType == 0 {
        var v := ReadVarintHere();
        r := if v.Some? then Got(()) else Nothing;
      } else if wireType == 1 {
        if pos + 8 <= |data| {
          pos := pos + 8;
          r := Got(());
        }
      } else if wireType == 2 {
        var b := ReadBytes();
        match b {
          case Got(_) => r := Got(());
          case Nothing =>
          case Stopped => r := Stopped;
        }
      } else if wireType == 5 {
        if pos + 4 <= |data| {
          pos := pos + 4;
          r := Got(());
        }
      }
    }
  }

  lemma OntoStart(s: seq<byte>)
    ensures Bits7(0) == 1 && Groups(s, GROUPS) == Onto(0, 0, Groups(s[0..], GROUPS))
    ensures forall acc: nat, i: nat :: Onto(acc, i, None) == None
  { }

  /** One turn of the reading loop: the next byte ends the varint or adds a group. */
  lemma NextGroup(s: seq<byte>, i: nat, acc: nat)
    requires i < GROUPS
    ensures i >= |s| ==> i > |s| || Groups(s[i..], GROUPS - i) == None
    ensures i < |s| && s[i] < 128 ==>
      Onto(acc, i, Groups(s[i..], GROUPS - i)) == Some((acc + MovedUp(s[i] as nat, i), i + 1))
    ensures i < |s| && s[i] >= 128 ==>
      Onto(acc, i, Groups(s[i..], GROUPS - i)) == Onto(acc + MovedUp(s[i] - 128, i), i + 1,
          Groups(s[i + 1..], GROUPS - i - 1))
    ensures i < |s| && i + 1 == GROUPS ==> Groups(s[i + 1..], GROUPS - i - 1) == None
  {
    hide Bits7;
    if i < |s| {
      assert s[i..][0] == s[i] && s[i..][1..] == s[i + 1..];
      if s[i] >= 128 {
        OntoNext(acc, i, s[i] - 128, Groups(s[i + 1..], GROUPS - i - 1));
      }
    }
  }
}
