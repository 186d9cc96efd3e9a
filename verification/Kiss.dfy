/** KISS framing: frames between FEND bytes, with FEND and FESC escaped inside (the codes of section "PROTOCOL"
    of RFC 1055), and the byte-at-a-time parser. */
module Kiss {
  import opened ByteFeed
  import opened Words
  import opened Wrappers

  const FEND: bv8 := 0xC0
  const FESC: bv8 := 0xDB
  const TFEND: bv8 := 0xDC
  const TFESC: bv8 := 0xDD
  const MAX_DATA := 512
  const MAX_FRAME := 2 * MAX_DATA + 4

  datatype Frame = Frame(command: bv8, data: Octets)

  function Escaped(b: bv8): (r: Octets)
    ensures 1 <= |r| <= 2 && FEND !in r
  {
    if b == FEND then [FESC, TFEND] else if b == FESC then [FESC, TFESC] else [b]
  }

  function EscapedAll(data: Octets): (r: Octets)
    ensures |r| <= 2 * |data| && FEND !in r
  {
    if data == [] then [] else Escaped(data[0]) + EscapedAll(data[1..])
  }

  function Body(f: Frame): Octets {
    Escaped(f.command) + EscapedAll(f.data)
  }

  function Encoded(f: Frame): Octets {
    [FEND] + Body(f) + [FEND]
  }

  /** No FEND stands between the two that delimit a frame, and the buffer of 1028 bytes holds any frame. */
  lemma Delimited(f: Frame)
    requires |f.data| <= MAX_DATA
    ensures FEND !in Body(f) && |Encoded(f)| <= MAX_FRAME
  {
  }

  /** A push onto the frame buffer; what does not fit is dropped. */
  function Pushed(buf: Octets, b: bv8): Octets {
    if |buf| < MAX_FRAME then buf + [b] else buf
  }

  method EscapeByte(b: bv8, buf: Octets) returns (r: Octets)
    ensures |buf| + 2 <= MAX_FRAME ==> r == buf + Escaped(b)
  {
    match b {
      case 0xC0 => r := Pushed(Pushed(buf, FESC), TFEND);
      case 0xDB => r := Pushed(Pushed(buf, FESC), TFESC);
      case _ => r := Pushed(buf, b);
    }
  }

  lemma {:induction false} EscapedAllAppend(a: Octets, b: bv8)
    ensures EscapedAll(a + [b]) == EscapedAll(a) + Escaped(b)
  {
    hide Escaped;
    if a == [] {
      assert a + [b] == [b] && EscapedAll([b]) == Escaped(b) + EscapedAll([]);
    } else {
      assert (a + [b])[0] == a[0] && (a + [b])[1..] == a[1..] + [b];
      EscapedAllAppend(a[1..], b);
      assert Escaped(a[0]) + (EscapedAll(a[1..]) + Escaped(b)) == Escaped(a[0]) + EscapedAll(a[1..]) + Escaped(b);
    }
  }

  method Encode(f: Frame) returns (buf: Octets)
    requires |f.data| <= MAX_DATA
    ensures buf == Encoded(f)
  {
    hide Escaped, EscapedAll;
    buf := Pushed([], FEND);
    buf := EscapeByte(f.command, buf);
    assert EscapedAll([]) == [] by { NothingEscaped(); }
    for i := 0 to |f.data|
      invariant buf == [FEND] + (Escaped(f.command) + EscapedAll(f.data[..i]))
    {
      EscapedAllAppend(f.data[..i], f.data[i]);
      assert f.data[..i + 1] == f.data[..i] + [f.data[i]];
      buf := EscapeByte(f.data[i], buf);
    }
    assert f.data[..|f.data|] == f.data;
    buf := Pushed(buf, FEND);
  }

  lemma NothingEscaped()
    ensures EscapedAll([]) == []
  {
  }

  // ---- The parser ----

  datatype Phase = WaitStart | WaitCommand | ReadData | Escape

  datatype Parser = Parser(phase: Phase, command: bv8, data: Octets)

  const NEW := Parser(WaitStart, 0, [])

  function Kept(data: Octets, b: bv8): Octets {
    if |data| < MAX_DATA then data + [b] else data
  }

  function Unescaped(b: bv8): bv8 {
    if b == TFEND then FEND else if b == TFESC then FESC else b
  }

  function Fed(p: Parser, b: bv8): (Parser, Option<Frame>) {
    match p.phase
    case WaitStart => (if b == FEND then p.(phase := WaitCommand, data := []) else p, None)
    case WaitCommand =>
      (if b == FEND then p else if b == FESC then p.(phase := Escape) else p.(command := b, phase := ReadData), None)
    case ReadData =>
      if b == FEND then (NEW, Some(Frame(p.command, p.data)))
      else if b == FESC then (p.(phase := Escape), None)
      else (p.(data := Kept(p.data, b)), None)
    case Escape => (p.(data := Kept(p.data, Unescaped(b)), phase := ReadData), None)
  }

  class KissParser {
    var phase: Phase
    var command: bv8
    var data: Octets

    ghost function Abs(): Parser
      reads this
    {
      Parser(phase, command, data)
    }

    constructor ()
      ensures Abs() == NEW
    {
      phase, command, data := WaitStart, 0, [];
    }

    method Reset()
      modifies this
      ensures Abs() == NEW
    {
      phase := WaitStart;
      command := 0;
      data := [];
    }

    method Feed(b: bv8) returns (r: Option<Frame>)
      modifies this
      ensures (Abs(), r) == Fed(old(Abs()), b)
    {
      r := None;
      match phase {
        case WaitStart =>
          if b == FEND {
            phase := WaitCommand;
            data := [];
          }
        case WaitCommand =>
          if b == FESC {
            phase := Escape;
          } else if b != FEND {
            command := b;
            phase := ReadData;
          }
        case ReadData =>
          if b == FEND {
            r := Some(Frame(command, data));
            Reset();
          } else if b == FESC {
            phase := Escape;
          } else {
            data := Kept(data, b);
          }
        case Escape =>
          data := Kept(data, Unescaped(b));
          phase := ReadData;
      }
    }
  }

  // ---- Streams of frames ----

  /** An escaped byte of data arrives as the byte. */
  lemma RunEscaped(p: Parser, b: bv8, rest: Octets)
    requires p.phase == ReadData
    ensures Run(Fed, p, Escaped(b) + rest) == Run(Fed, p.(data := Kept(p.data, b)), rest)
  { }

  lemma TwoBytes(p: Parser, a: bv8, b: bv8, rest: Octets)
    requires Fed(p, a).1 == None && Fed(Fed(p, a).0, b).1 == None
    ensures Run(Fed, p, [a, b] + rest) == Run(Fed, Fed(Fed(p, a).0, b).0, rest)
  { }

  /** What is kept of data that may be too long. */
  function KeptAll(data: Octets, more: Octets): Octets
    decreases |more|
  {
    if more == [] then data else KeptAll(Kept(data, more[0]), more[1..])
  }

  lemma {:induction false} KeptAllFits(data: Octets, more: Octets)
    requires |data| <= MAX_DATA
    ensures KeptAll(data, more) == if |data| + |more| <= MAX_DATA then data + more else data + more[..MAX_DATA - |data|]
    decreases |more|
  {
    if more == [] {
      assert data + more == data;
    } else if |data| < MAX_DATA {
      KeptAllFits(data + [more[0]], more[1..]);
      assert data + [more[0]] + more[1..] == data + more;
      if |data| + |more| > MAX_DATA {
        assert data + [more[0]] + more[1..][..MAX_DATA - |data| - 1] == data + more[..MAX_DATA - |data|];
      }
    } else {
      KeptAllFits(data, more[1..]);
      assert data + [] == data;
    }
  }

  lemma {:induction false} RunData(p: Parser, more: Octets, rest: Octets)
    requires p.phase == ReadData
    ensures Run(Fed, p, EscapedAll(more) + rest) == Run(Fed, p.(data := KeptAll(p.data, more)), rest)
    decreases |more|
  {
    hide Run, Escaped, Kept;
    if more == [] {
      assert [] + rest == rest;
    } else {
      assert EscapedAll(more) + rest == Escaped(more[0]) + (EscapedAll(more[1..]) + rest);
      RunEscaped(p, more[0], EscapedAll(more[1..]) + rest);
      RunData(p.(data := Kept(p.data, more[0])), more[1..], rest);
    }
  }

  predicate Special(command: bv8) {
    command == FEND || command == FESC
  }

  /** What comes out for a frame: itself, unless its command needs escaping; then command 0, with the command
      byte at the front of the data. */
  function Received(f: Frame): Frame {
    if Special(f.command) then Frame(0, KeptAll([f.command], f.data)) else f
  }

  /** One encoded frame, fed to a new parser: one frame, at its closing FEND, and the parser is new again. */
  lemma RunFrame(f: Frame, rest: Octets)
    requires |f.data| <= MAX_DATA
    ensures Run(Fed, NEW, Encoded(f) + rest) == (Run(Fed, NEW, rest).0, [Received(f)] + Run(Fed, NEW, rest).1)
  {
    hide Run, EscapedAll, KeptAll;
    var p1 := Fed(NEW, FEND).0;
    var tail := EscapedAll(f.data) + ([FEND] + rest);
    assert Encoded(f) + rest == [FEND] + (Escaped(f.command) + tail);
    RunOne(Fed, NEW, FEND, Escaped(f.command) + tail);
    assert [] + [f.command] == [f.command];
    if f.command == FEND {
      TwoBytes(p1, FESC, TFEND, tail);
      AfterCommand(Parser(ReadData, 0, [FEND]), f.data, rest);
    } else if f.command == FESC {
      TwoBytes(p1, FESC, TFESC, tail);
      AfterCommand(Parser(ReadData, 0, [FESC]), f.data, rest);
    } else {
      RunOne(Fed, p1, f.command, tail);
      AfterCommand(Parser(ReadData, f.command, []), f.data, rest);
      KeptAllFits([], f.data);
      assert [] + f.data == f.data;
    }
  }

  lemma AfterCommand(p: Parser, data: Octets, rest: Octets)
    requires p.phase == ReadData
    ensures Run(Fed, p, EscapedAll(data) + ([FEND] + rest))
         == (Run(Fed, NEW, rest).0, [Frame(p.command, KeptAll(p.data, data))] + Run(Fed, NEW, rest).1)
  {
    hide Run, EscapedAll, KeptAll;
    RunData(p, data, [FEND] + rest);
    RunOne(Fed, p.(data := KeptAll(p.data, data)), FEND, rest);
  }

  function ReceivedAll(fs: seq<Frame>): (r: seq<Frame>)
    ensures |r| == |fs| && forall k :: 0 <= k < |fs| ==> r[k] == Received(fs[k])
  {
    if fs == [] then [] else [Received(fs[0])] + ReceivedAll(fs[1..])
  }

  lemma {:induction false} StreamReceived(fs: seq<Frame>)
    requires forall f :: f in fs ==> |f.data| <= MAX_DATA
    ensures Run(Fed, NEW, EncodedAll(Encoded, fs)) == (NEW, ReceivedAll(fs))
  {
    hide Received, Encoded;
    if fs != [] {
      RunFrame(fs[0], EncodedAll(Encoded, fs[1..]));
      StreamReceived(fs[1..]);
    }
  }

  /** A stream of encoded frames is recovered exactly when no command in it is FEND or FESC. */
  lemma StreamRecovered(fs: seq<Frame>)
    requires forall f :: f in fs ==> |f.data| <= MAX_DATA
    ensures Run(Fed, NEW, EncodedAll(Encoded, fs)).1 == fs <==> forall f :: f in fs ==> !Special(f.command)
  {
    hide Run, Encoded, KeptAll;
    StreamReceived(fs);
    if f :| f in fs && Special(f.command) {
      var k :| 0 <= k < |fs| && fs[k] == f;
      assert ReceivedAll(fs)[k].command == 0;
    } else {
      assert ReceivedAll(fs) == fs;
    }
  }

  lemma {:induction false} NoFrameWithoutEnd(p: Parser, bytes: Octets)
    requires FEND !in bytes
    ensures Run(Fed, p, bytes).1 == []
    decreases |bytes|
  {
    if bytes != [] {
      NoFrameWithoutEnd(Fed(p, bytes[0]).0, bytes[1..]);
    }
  }

  /** A frame is returned at its closing FEND, not before. */
  lemma NotBefore(f: Frame, n: nat)
    requires |f.data| <= MAX_DATA && n < |Encoded(f)|
    ensures Run(Fed, NEW, Encoded(f)[..n]).1 == []
  {
    hide Run, Body;
    Delimited(f);
    if n == 0 {
      NoFrameWithoutEnd(NEW, []);
      assert Encoded(f)[..0] == [];
    } else {
      assert Encoded(f)[..n] == [FEND] + Body(f)[..n - 1];
      RunOne(Fed, NEW, FEND, Body(f)[..n - 1]);
      NoFrameWithoutEnd(Fed(NEW, FEND).0, Body(f)[..n - 1]);
    }
  }

  // ---- Recovery ----

  const BEGUN := Parser(WaitCommand, 0, [])

  /** A parser between frames remembers nothing. */
  predicate Clean(p: Parser) {
    (p.phase == WaitStart ==> p == NEW) && (p.phase == WaitCommand ==> p == BEGUN)
  }

  lemma {:induction false} RunClean(p: Parser, bytes: Octets)
    requires Clean(p)
    ensures Clean(Run(Fed, p, bytes).0)
    decreases |bytes|
  {
    hide Kept, Unescaped;
    if bytes != [] {
      RunClean(Fed(p, bytes[0]).0, bytes[1..]);
    }
  }

  /** Whatever has been received before, after two FENDs the next encoded frame is received, and the parser is new. */
  lemma Recovers(history: Octets, f: Frame)
    requires |f.data| <= MAX_DATA
    ensures Run(Fed, NEW, history + [FEND, FEND] + Encoded(f))
         == (NEW, Run(Fed, NEW, history + [FEND, FEND]).1 + [Received(f)])
  {
    hide Run, Encoded, Received;
    RunClean(NEW, history);
    var p := Run(Fed, NEW, history).0;
    TwoEnds(p);
    RunConcat(Fed, NEW, history, [FEND, FEND]);
    RunConcat(Fed, NEW, history + [FEND, FEND], Encoded(f));
    FromBegun(f);
    RunFrame(f, []);
    RunNothing(Fed, NEW);
    assert Encoded(f) + [] == Encoded(f);
    assert [Received(f)] + [] == [Received(f)];
  }

  lemma TwoEnds(p: Parser)
    requires Clean(p)
    ensures Run(Fed, p, [FEND, FEND]).0 in {NEW, BEGUN}
  {
    var q := Fed(p, FEND).0;
    assert [FEND] + [] == [FEND] && [FEND] + [FEND] == [FEND, FEND];
    RunOne(Fed, p, FEND, [FEND]);
    RunOne(Fed, q, FEND, []);
  }

  /** The opening FEND of a frame may already have been received. */
  lemma FromBegun(f: Frame)
    ensures Run(Fed, BEGUN, Encoded(f)) == Run(Fed, NEW, Encoded(f))
  {
    hide Run, Escaped, EscapedAll;
    var rest := Encoded(f)[1..];
    assert Encoded(f) == [FEND] + rest;
    RunOne(Fed, BEGUN, FEND, rest);
    RunOne(Fed, NEW, FEND, rest);
  }

  /** One is too few: after FESC it is taken for data. */
  lemma OneEndTooFew()
    ensures Run(Fed, NEW, [FEND, 0x01, FESC] + [FEND]).0.phase == ReadData
  {
    hide Run;
    var p1 := Fed(NEW, FEND).0;
    var p2 := Fed(p1, 0x01).0;
    var p3 := Fed(p2, FESC).0;
    assert [FEND, 0x01, FESC] + [FEND] == [FEND] + ([0x01] + ([FESC] + ([FEND] + [])));
    RunOne(Fed, NEW, FEND, [0x01] + ([FESC] + ([FEND] + [])));
    RunOne(Fed, p1, 0x01, [FESC] + ([FEND] + []));
    RunOne(Fed, p2, FESC, [FEND] + []);
    RunOne(Fed, p3, FEND, []);
    RunNothing(Fed, Fed(p3, FEND).0);
  }
}
