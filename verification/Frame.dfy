/** The serial frame format: sync bytes, a length, a command, a sequence number, data, a CRC and an end byte;
    its printer and its byte-at-a-time parser. */
module Frame {
  import opened ByteFeed
  import opened Crc16
  import opened Words
  import opened Wrappers

  import ModArith
  import SignedBits

  const SYNC0: bv8 := 0xAA
  const SYNC1: bv8 := 0x55
  const END: bv8 := 0x0D
  const MAX_DATA := 255

  datatype Command =
    | Ping | Pong | Configure | ConfigAck | Transmit | TxDone | TxError | Receive | GetStats | StatsResponse
    | Cad | CadResult | Reset | Version | VersionResponse | Error

  function ToByte(c: Command): bv8 {
    match c
    case Ping => 0x01
    case Pong => 0x02
    case Configure => 0x10
    case ConfigAck => 0x11
    case Transmit => 0x20
    case TxDone => 0x21
    case TxError => 0x22
    case Receive => 0x30
    case GetStats => 0x40
    case StatsResponse => 0x41
    case Cad => 0x50
    case CadResult => 0x51
    case Reset => 0xF0
    case Version => 0xF1
    case VersionResponse => 0xF2
    case Error => 0xFF
  }

  function FromByte(b: bv8): Option<Command> {
    if b == 0x01 then Some(Ping) else if b == 0x02 then Some(Pong)
    else if b == 0x10 then Some(Configure) else if b == 0x11 then Some(ConfigAck)
    else if b == 0x20 then Some(Transmit) else if b == 0x21 then Some(TxDone)
    else if b == 0x22 then Some(TxError) else if b == 0x30 then Some(Receive)
    else if b == 0x40 then Some(GetStats) else if b == 0x41 then Some(StatsResponse)
    else if b == 0x50 then Some(Cad) else if b == 0x51 then Some(CadResult)
    else if b == 0xF0 then Some(Reset) else if b == 0xF1 then Some(Version)
    else if b == 0xF2 then Some(VersionResponse) else if b == 0xFF then Some(Error)
    else None
  }

  lemma CommandRoundTrip(b: bv8, c: Command)
    ensures FromByte(b) == Some(c) <==> ToByte(c) == b
  {
  }

  datatype Frame = Frame(command: Command, sequence: bv8, data: Octets)

  predicate Fits(f: Frame) {
    |f.data| <= MAX_DATA
  }

  function Num(b: bv8): nat {
    b as nat
  }

  /** The second length byte joins the first. */
  function JoinedLength(low: nat, b: bv8): nat {
    SignedBits.Or(low, 0x100 * Num(b))
  }

  function LenByte(n: nat): bv8 {
    Digit(n, 1)
  }

  function Covered(command: bv8, sequence: bv8, data: Octets): Octets {
    [command, sequence] + data
  }

  function CrcLow(c: bv16): bv8 { (c & 0xFF) as bv8 }
  function CrcHigh(c: bv16): bv8 { (c >> 8) as bv8 }
  function CrcOf(lo: bv8, hi: bv8): bv16 { (lo as bv16) | ((hi as bv16) << 8) }

  /** Any bytes in the shape of a frame. */
  function Shape(command: bv8, sequence: bv8, data: Octets, lo: bv8, hi: bv8, end: bv8): Octets {
    [SYNC0, SYNC1, LenByte(|data|), 0, command, sequence] + data + [lo, hi, end]
  }

  function Encoded(f: Frame): Octets {
    var crc := Crc(Covered(ToByte(f.command), f.sequence, f.data));
    Shape(ToByte(f.command), f.sequence, f.data, CrcLow(crc), CrcHigh(crc), END)
  }

  method Encode(f: Frame) returns (buf: Octets)
    requires Fits(f)
    ensures buf == Encoded(f)
  {
    hide Crc, LenByte;
    buf := [SYNC0, SYNC1];
    buf := buf + [LenByte(|f.data|), 0];  // no length reaches the second byte
    buf := buf + [ToByte(f.command), f.sequence];
    ghost var head := buf;
    for i := 0 to |f.data|
      invariant buf == head + f.data[..i]
    {
      buf := buf + [f.data[i]];
    }
    assert f.data[..|f.data|] == f.data;
    assert buf[4..] == Covered(ToByte(f.command), f.sequence, f.data);
    var crc := Checksum(buf[4..]);
    buf := buf + [CrcLow(crc), CrcHigh(crc)];
    buf := buf + [END];
  }

  // ---- The parser ----

  datatype Phase =
    | WaitSync1 | WaitSync2 | WaitLenLow | WaitLenHigh | WaitCommand | WaitSequence | WaitData
    | WaitCrcLow | WaitCrcHigh | WaitEnd

  datatype Parser = Parser(
    phase: Phase, dataLen: nat, dataIdx: nat, command: bv8, sequence: bv8, data: Octets, crcLow: bv8)

  const NEW := Parser(WaitSync1, 0, 0, 0, 0, [], 0)

  function Restarted(p: Parser): Parser {
    p.(phase := WaitSync1, data := [], dataLen := 0, dataIdx := 0)
  }

  function Fed(p: Parser, b: bv8): (Parser, Option<Frame>) {
    match p.phase
    case WaitSync1 => (if b == SYNC0 then p.(phase := WaitSync2) else p, None)
    case WaitSync2 =>
      (if b == SYNC1 then p.(phase := WaitLenLow) else if b == SYNC0 then p else Restarted(p), None)
    case WaitLenLow => (p.(dataLen := Num(b), phase := WaitLenHigh), None)
    case WaitLenHigh =>
      var len := JoinedLength(p.dataLen, b);
      (if len > MAX_DATA then Restarted(p) else p.(dataLen := len, phase := WaitCommand), None)
    case WaitCommand => (p.(command := b, phase := WaitSequence), None)
    case WaitSequence =>
      (p.(sequence := b, data := [], dataIdx := 0, phase := if p.dataLen == 0 then WaitCrcLow else WaitData), None)
    case WaitData =>
      (p.(data := if |p.data| < MAX_DATA then p.data + [b] else p.data, dataIdx := p.dataIdx + 1,
          phase := if p.dataIdx + 1 >= p.dataLen then WaitCrcLow else WaitData), None)
    case WaitCrcLow => (p.(crcLow := b, phase := WaitCrcHigh), None)
    case WaitCrcHigh =>
      (if CrcOf(p.crcLow, b) == Crc(Covered(p.command, p.sequence,
          p.data)) then p.(phase := WaitEnd) else Restarted(p), None)
    case WaitEnd =>
      (Restarted(p),
       if b == END && FromByte(p.command).Some?
       then Some(Frame(FromByte(p.command).value, p.sequence, p.data)) else None)
  }

  class FrameParser {
    var phase: Phase
    var dataLen: nat
    var dataIdx: nat
    var command: bv8
    var sequence: bv8
    var data: Octets
    var crcLow: bv8

    ghost function Abs(): Parser
      reads this
    {
      Parser(phase, dataLen, dataIdx, command, sequence, data, crcLow)
    }

    constructor ()
      ensures Abs() == NEW
    {
      phase, dataLen, dataIdx, command, sequence, data, crcLow := WaitSync1, 0, 0, 0, 0, [], 0;
    }

    method Restart()
      modifies this
      ensures Abs() == Restarted(old(Abs()))
    {
      phase := WaitSync1;
      data := [];
      dataLen, dataIdx := 0, 0;
    }

    /** The last CRC byte. */
    method CheckCrc(b: bv8)
      requires phase == WaitCrcHigh
      modifies this
      ensures Abs() == Fed(old(Abs()), b).0
    {
      hide Crc, CrcOf, Covered;
      var receivedCrc := CrcOf(crcLow, b);
      var calculatedCrc := Checksum(Covered(command, sequence, data));
      if receivedCrc == calculatedCrc {
        phase := WaitEnd;
      } else {
        Restart();
      }
    }

    /** The end byte. */
    method Finish(b: bv8) returns (r: Option<Frame>)
      requires phase == WaitEnd
      modifies this
      ensures (Abs(), r) == Fed(old(Abs()), b)
    {
      hide FromByte;
      if b == END {
        var cmd := FromByte(command);
        if cmd.Some? {
          r := Some(Frame(cmd.value, sequence, data));
          Restart();
          return;
        }
      }
      Restart();
      r := None;
    }

    method Feed(b: bv8) returns (r: Option<Frame>)
      modifies this
      ensures (Abs(), r) == Fed(old(Abs()), b)
    {
      hide Crc, FromByte, CrcOf, Covered, Num;
      r := None;
      match phase {
        case WaitSync1 =>
          if b == SYNC0 {
            phase := WaitSync2;
          }
        case WaitSync2 =>
          if b == SYNC1 {
            phase := WaitLenLow;
          } else if b != SYNC0 {
            Restart();
          }
        case WaitLenLow =>
          dataLen := Num(b);
          phase := WaitLenHigh;
        case WaitLenHigh =>
          var len := JoinedLength(dataLen, b);
          if len > MAX_DATA {
            Restart();
            return;
          }
          dataLen := len;
          phase := WaitCommand;
        case WaitCommand =>
          command := b;
          phase := WaitSequence;
        case WaitSequence =>
          sequence := b;
          data := [];
          dataIdx := 0;
          phase := if dataLen == 0 then WaitCrcLow else WaitData;
        case WaitData =>
          if |data| < MAX_DATA {
            data := data + [b];
          }
          dataIdx := dataIdx + 1;
          if dataIdx >= dataLen {
            phase := WaitCrcLow;
          }
        case WaitCrcLow =>
          crcLow := b;
          phase := WaitCrcHigh;
        case WaitCrcHigh =>
          CheckCrc(b);
        case WaitEnd =>
          r := Finish(b);
      }
    }
  }

  // ---- Bytes and numbers ----

  lemma LengthJoins(low: nat, b: bv8)
    requires low <= MAX_DATA
    ensures JoinedLength(low, b) == low + 0x100 * Num(b)
  {
    ModArith.BytePowers();
    hide ModArith.Two, SignedBits.Or, Num;
    SignedBits.OrIsSum(low, Num(b), 0x100, 8);
  }

  lemma LenByteOf(b: bv8)
    ensures Num(b) < 0x100 && LenByte(Num(b)) == b && (Num(b) == 0 <==> b == 0)
  {
    hide Num, ByteOf, Place;
    NumWord(b);
    LastPlace(Num(b));
  }

  lemma NumWord(b: bv8)
    ensures Num(b) < 0x100 && ByteOf(Num(b)) == b && (Num(b) == 0 <==> b == 0)
  {
    hide ByteOf;
    ByteOfValue(b);
    Nought(b);
  }

  lemma Nought(b: bv8)
    ensures b as nat == 0 <==> b == 0
  {
  }

  lemma LastPlace(n: nat)
    requires n < 0x100
    ensures Place(n, 1) == n
  {
  }

  lemma LenByteNum(n: nat)
    requires n < 0x100
    ensures Num(LenByte(n)) == n
  {
    hide Digit;
    LastPlace(n);
  }

  lemma CrcBytes(c: bv16, lo: bv8, hi: bv8)
    ensures CrcOf(lo, hi) == c <==> lo == CrcLow(c) && hi == CrcHigh(c)
  {
    hide CrcOf, CrcLow, CrcHigh;
    CrcJoin(c);
    CrcSplit(lo, hi);
  }

  lemma CrcJoin(c: bv16)
    ensures CrcOf(CrcLow(c), CrcHigh(c)) == c
  { }

  lemma CrcSplit(lo: bv8, hi: bv8)
    ensures CrcLow(CrcOf(lo, hi)) == lo && CrcHigh(CrcOf(lo, hi)) == hi
  { }

  // ---- Soundness ----

  /** The part of a frame the parser has taken in, as it must have been received. */
  function Pending(p: Parser): Octets {
    match p.phase
    case WaitSync1 => []
    case WaitSync2 => [SYNC0]
    case WaitLenLow => [SYNC0, SYNC1]
    case WaitLenHigh => [SYNC0, SYNC1, LenByte(p.dataLen)]
    case WaitCommand => [SYNC0, SYNC1, LenByte(p.dataLen), 0]
    case WaitSequence => [SYNC0, SYNC1, LenByte(p.dataLen), 0, p.command]
    case WaitData => Head(p)
    case WaitCrcLow => Head(p)
    case WaitCrcHigh => Head(p) + [p.crcLow]
    case WaitEnd => Head(p) + [p.crcLow, CrcHigh(Crc(Covered(p.command, p.sequence, p.data)))]
  }

  function Head(p: Parser): Octets {
    [SYNC0, SYNC1, LenByte(p.dataLen), 0, p.command, p.sequence] + p.data
  }

  ghost predicate Ok(p: Parser) {
    && (p.phase.WaitLenHigh? || p.phase.WaitCommand? || p.phase.WaitSequence? ==> p.dataLen <= MAX_DATA)
    && (p.phase == WaitData ==> |p.data| == p.dataIdx < p.dataLen <= MAX_DATA)
    && (p.phase.WaitCrcLow? || p.phase.WaitCrcHigh? || p.phase.WaitEnd? ==> |p.data| == p.dataLen <= MAX_DATA)
    && (p.phase == WaitEnd ==> p.crcLow == CrcLow(Crc(Covered(p.command, p.sequence, p.data))))
  }

  predicate EndsWith(h: Octets, s: Octets) {
    |s| <= |h| && h[|h| - |s|..] == s
  }

  lemma EndsOn(h: Octets, s: Octets, b: bv8)
    requires EndsWith(h, s)
    ensures EndsWith(h + [b], s + [b]) && EndsWith(h + [b], [b])
  {
  }

  /** What one byte does to the part taken in: it is added, or it starts a new one, or all is dropped. */
  ghost predicate Extends(p: Parser, b: bv8) {
    var q := Fed(p, b).0;
    Ok(q) && (Pending(q) == Pending(p) + [b] || Pending(q) == [b] || Pending(q) == [])
  }

  lemma SyncExtends(p: Parser, b: bv8)
    requires Ok(p) && (p.phase == WaitSync1 || p.phase == WaitSync2)
    ensures Extends(p, b)
  { }

  lemma LengthExtends(p: Parser, b: bv8)
    requires Ok(p) && (p.phase == WaitLenLow || p.phase == WaitLenHigh)
    ensures Extends(p, b)
  {
    hide Crc, FromByte, CrcOf, CrcLow, CrcHigh, Covered, Num, LenByte, JoinedLength;
    LenByteOf(b);
    if p.phase == WaitLenHigh {
      LengthJoins(p.dataLen, b);
    }
    assert [SYNC0, SYNC1] + [b] == [SYNC0, SYNC1, b];
    assert [SYNC0, SYNC1, LenByte(p.dataLen)] + [b] == [SYNC0, SYNC1, LenByte(p.dataLen), b];
  }

  lemma CommandExtends(p: Parser, b: bv8)
    requires Ok(p) && (p.phase == WaitCommand || p.phase == WaitSequence)
    ensures Extends(p, b)
  {
    hide Crc, FromByte, CrcOf, CrcLow, CrcHigh, Covered, Num, LenByte;
    assert Pending(Fed(p, b).0) == Pending(p) + [b];
  }

  lemma DataExtends(p: Parser, b: bv8)
    requires Ok(p) && (p.phase == WaitData || p.phase == WaitCrcLow)
    ensures Extends(p, b)
  {
    hide Crc, FromByte, CrcOf, CrcLow, CrcHigh, Covered, Num, LenByte;
    assert Pending(Fed(p, b).0) == Pending(p) + [b];
  }

  lemma CrcExtends(p: Parser, b: bv8)
    requires Ok(p) && p.phase == WaitCrcHigh
    ensures Extends(p, b)
  {
    hide Crc, FromByte, CrcOf, CrcLow, CrcHigh, Covered, Num, LenByte, Head;
    CrcBytes(Crc(Covered(p.command, p.sequence, p.data)), p.crcLow, b);
    assert Head(p) + [p.crcLow] + [b] == Head(p) + [p.crcLow, b];
    HeadIsFixed(p);
  }

  lemma HeadIsFixed(p: Parser)
    ensures Head(p.(phase := WaitEnd)) == Head(p)
  {
  }

  lemma EndExtends(p: Parser, b: bv8)
    requires Ok(p) && p.phase == WaitEnd
    ensures Extends(p, b)
  { }

  lemma ReturnsWhole(p: Parser, b: bv8)
    requires Ok(p) && Fed(p, b).1.Some?
    ensures Fits(Fed(p, b).1.value) && Pending(p) + [b] == Encoded(Fed(p, b).1.value)
  {
    hide Crc, FromByte, ToByte, CrcLow, CrcHigh, CrcOf, Covered, LenByte, Num;
    CommandRoundTrip(p.command, Fed(p, b).1.value.command);
  }

  /** One byte more, and what the parser has is still the end of what it was sent. */
  lemma FeedKeeps(p: Parser, h: Octets, b: bv8)
    requires Ok(p) && EndsWith(h, Pending(p))
    ensures var (q, r) := Fed(p, b);
      && Ok(q) && EndsWith(h + [b], Pending(q))
      && (r.Some? ==> Fits(r.value) && EndsWith(h + [b], Encoded(r.value)))
  {
    hide Fed, Encoded, Pending, Ok, EndsWith;
    EndsOn(h, Pending(p), b);
    EndsOnNothing(h + [b]);
    match p.phase {
      case WaitSync1 => SyncExtends(p, b);
      case WaitSync2 => SyncExtends(p, b);
      case WaitLenLow => LengthExtends(p, b);
      case WaitLenHigh => LengthExtends(p, b);
      case WaitCommand => CommandExtends(p, b);
      case WaitSequence => CommandExtends(p, b);
      case WaitData => DataExtends(p, b);
      case WaitCrcLow => DataExtends(p, b);
      case WaitCrcHigh => CrcExtends(p, b);
      case WaitEnd => EndExtends(p, b);
    }
    if Fed(p, b).1.Some? {
      ReturnsWhole(p, b);
    }
  }

  lemma EndsOnNothing(h: Octets)
    ensures EndsWith(h, [])
  {
  }

  function After(history: Octets): Parser {
    if history == [] then NEW else Fed(After(history[..|history| - 1]), history[|history| - 1]).0
  }

  lemma {:induction false} AfterKeeps(history: Octets)
    ensures Ok(After(history)) && EndsWith(history, Pending(After(history)))
  {
    hide Fed, Ok, EndsWith, Pending;
    if history == [] {
      Fresh();
    } else {
      var before := history[..|history| - 1];
      AfterKeeps(before);
      FeedKeeps(After(before), before, history[|history| - 1]);
      assert before + [history[|history| - 1]] == history;
    }
  }

  lemma Fresh()
    ensures Ok(NEW) && EndsWith([], Pending(NEW))
  {
  }

  /** Whatever bytes have come before: when a frame is returned, the last bytes consumed are exactly its
      encoding. */
  lemma Sound(history: Octets, b: bv8)
    ensures var r := Fed(After(history), b).1;
      r.Some? ==> Fits(r.value) && EndsWith(history + [b], Encoded(r.value))
  {
    hide Fed, Ok, EndsWith, Pending;
    AfterKeeps(history);
    FeedKeeps(After(history), history, b);
  }


  // ---- Completeness ----

  /** The six bytes before the data. */
  lemma RunHead(p: Parser, len: nat, command: bv8, sequence: bv8, rest: Octets)
    requires p.phase == WaitSync1 && len <= MAX_DATA
    ensures var q := p.(phase := if len == 0 then WaitCrcLow else WaitData, dataLen := len, dataIdx := 0,
                        command := command, sequence := sequence, data := []);
      Run(Fed, p, [SYNC0, SYNC1, LenByte(len), 0, command, sequence] + rest) == Run(Fed, q, rest)
  {
    hide Run, LenByte, Num, Crc, FromByte, CrcOf, JoinedLength;
    LengthJoins(len, 0);
    LenByteNum(len);
    LenByteOf(0);
    var p1 := Fed(p, SYNC0).0;
    var p2 := Fed(p1, SYNC1).0;
    var p3 := Fed(p2, LenByte(len)).0;
    var p4 := Fed(p3, 0).0;
    var p5 := Fed(p4, command).0;
    RunOne(Fed, p5, sequence, rest);
    RunOne(Fed, p4, command, [sequence] + rest);
    RunOne(Fed, p3, 0, [command] + ([sequence] + rest));
    RunOne(Fed, p2, LenByte(len), [0] + ([command] + ([sequence] + rest)));
    RunOne(Fed, p1, SYNC1, [LenByte(len)] + ([0] + ([command] + ([sequence] + rest))));
    RunOne(Fed, p, SYNC0, [SYNC1] + ([LenByte(len)] + ([0] + ([command] + ([sequence] + rest)))));
    assert [SYNC0, SYNC1, LenByte(len), 0, command, sequence] + rest
        == [SYNC0] + ([SYNC1] + ([LenByte(len)] + ([0] + ([command] + ([sequence] + rest)))));
  }

  lemma {:induction false} RunData(p: Parser, data: Octets, rest: Octets)
    requires p.phase == WaitData && |p.data| == p.dataIdx < p.dataLen <= MAX_DATA && |data| == p.dataLen - p.dataIdx
    ensures Run(Fed, p, data + rest)
         == Run(Fed, p.(phase := WaitCrcLow, dataIdx := p.dataLen, data := p.data + data), rest)
    decreases |data|
  {
    hide Run, Crc, FromByte, CrcOf, Num;
    assert data + rest == [data[0]] + (data[1..] + rest);
    RunOne(Fed, p, data[0], data[1..] + rest);
    var q := Fed(p, data[0]).0;
    assert p.data + [data[0]] + data[1..] == p.data + data;
    if |data| == 1 {
      assert data[1..] + rest == rest && p.data + [data[0]] == p.data + data;
    } else {
      RunData(q, data[1..], rest);
    }
  }

  /** The CRC and the end byte: what is returned, and where the parser is left. */
  lemma RunTail(p: Parser, lo: bv8, hi: bv8, end: bv8)
    requires p.phase == WaitCrcLow
    ensures var good := CrcOf(lo, hi) == Crc(Covered(p.command, p.sequence, p.data));
      var (q, fs) := Run(Fed, p, [lo, hi, end]);
      && q.phase == (if !good && end == SYNC0 then WaitSync2 else WaitSync1)
      && fs == if good && end == END && FromByte(p.command).Some?
               then [Frame(FromByte(p.command).value, p.sequence, p.data)] else []
  {
    hide Run, Crc, FromByte, CrcOf, Covered;
    var p1 := Fed(p, lo).0;
    var p2 := Fed(p1, hi).0;
    var (q, r) := Fed(p2, end);
    RunOne(Fed, p2, end, []);
    RunOne(Fed, p1, hi, [end]);
    RunOne(Fed, p, lo, [hi, end]);
    assert [end] + [] == [end] && [hi] + [end] == [hi, end] && [lo] + [hi, end] == [lo, hi, end];
    RunNothing(Fed, q);
  }

  /** Bytes in the shape of a frame, fed to a parser waiting for one: a frame is returned if and only if the CRC is
      that of the covered bytes, the last byte is the end byte and the command is known; and it is that frame. */
  lemma RunShape(p: Parser, command: bv8, sequence: bv8, data: Octets, lo: bv8, hi: bv8, end: bv8)
    requires p.phase == WaitSync1 && |data| <= MAX_DATA
    ensures var good := CrcOf(lo, hi) == Crc(Covered(command, sequence, data));
      var (q, fs) := Run(Fed, p, Shape(command, sequence, data, lo, hi, end));
      && q.phase == (if !good && end == SYNC0 then WaitSync2 else WaitSync1)
      && fs == if good && end == END && FromByte(command).Some?
               then [Frame(FromByte(command).value, sequence, data)] else []
  {
    hide Run, Crc, FromByte, CrcOf, Covered, LenByte;
    var head, tail := [SYNC0, SYNC1, LenByte(|data|), 0, command, sequence], [lo, hi, end];
    assert Shape(command, sequence, data, lo, hi, end) == head + (data + tail);
    RunHead(p, |data|, command, sequence, data + tail);
    var q := p.(phase := if |data| == 0 then WaitCrcLow else WaitData, dataLen := |data|, dataIdx := 0,
                command := command, sequence := sequence, data := []);
    if data == [] {
      assert data + tail == tail;
      RunTail(q, lo, hi, end);
    } else {
      RunData(q, data, tail);
      assert [] + data == data;
      RunTail(q.(phase := WaitCrcLow, dataIdx := |data|, data := data), lo, hi, end);
    }
  }

  /** Every encoded frame fed to a waiting parser is returned, and nothing else; the parser waits again. */
  lemma Complete(p: Parser, f: Frame)
    requires p.phase == WaitSync1 && Fits(f)
    ensures Run(Fed, p, Encoded(f)).0.phase == WaitSync1 && Run(Fed, p, Encoded(f)).1 == [f]
  {
    hide Run, Crc, FromByte, ToByte, CrcOf, CrcLow, CrcHigh, Covered, Shape;
    var crc := Crc(Covered(ToByte(f.command), f.sequence, f.data));
    RunShape(p, ToByte(f.command), f.sequence, f.data, CrcLow(crc), CrcHigh(crc), END);
    CrcJoin(crc);
    CommandRoundTrip(ToByte(f.command), f.command);
  }

  /** Any stream of frames is recovered. */
  lemma {:induction false} StreamRecovered(p: Parser, fs: seq<Frame>)
    requires p.phase == WaitSync1 && forall f :: f in fs ==> Fits(f)
    ensures Run(Fed, p, EncodedAll(Encoded, fs)).1 == fs
    decreases |fs|
  {
    hide Run, Encoded;
    if fs == [] {
      RunNothing(Fed, p);
    } else {
      Complete(p, fs[0]);
      StreamRecovered(Run(Fed, p, Encoded(fs[0])).0, fs[1..]);
      RunConcat(Fed, p, Encoded(fs[0]), EncodedAll(Encoded, fs[1..]));
    }
  }

  /** A frame is not returned before its last byte. */
  lemma NotBefore(p: Parser, f: Frame, n: nat)
    requires p.phase == WaitSync1 && Fits(f) && n < |Encoded(f)|
    ensures Run(Fed, p, Encoded(f)[..n]).1 == []
  {
    hide Run, Encoded, Ok, Pending, EndsWith;
    var first, rest := Encoded(f)[..n], Encoded(f)[n..];
    assert first + rest == Encoded(f);
    Complete(p, f);
    RunConcat(Fed, p, first, rest);
    assert Ok(p) && EndsWith([], Pending(p)) by { WaitingIsOk(p); }
    RunIsLong(p, [], first);
    OneOfTwo(Run(Fed, p, first).1, Run(Fed, Run(Fed, p, first).0, rest).1, f);
  }

  lemma OneOfTwo(a: seq<Frame>, b: seq<Frame>, f: Frame)
    requires a + b == [f]
    ensures a == [] || f in a
  {
    assert a != [] ==> a[0] == (a + b)[0];
  }

  lemma WaitingIsOk(p: Parser)
    requires p.phase == WaitSync1
    ensures Ok(p) && EndsWith([], Pending(p))
  {
  }

  /** No frame comes out of fewer bytes than encode it. */
  lemma {:induction false} RunIsLong(p: Parser, h: Octets, bytes: Octets)
    requires Ok(p) && EndsWith(h, Pending(p))
    ensures forall g :: g in Run(Fed, p, bytes).1 ==> |Encoded(g)| <= |h| + |bytes|
    decreases |bytes|
  {
    hide Fed, Encoded, Ok, Pending;
    if bytes != [] {
      FeedKeeps(p, h, bytes[0]);
      RunIsLong(Fed(p, bytes[0]).0, h + [bytes[0]], bytes[1..]);
    }
  }

  // ---- Recovery ----

  function Filler(z: bv8, n: nat): (r: Octets)
    ensures |r| == n && forall i :: 0 <= i < n ==> r[i] == z
  {
    seq(n, i => z)
  }

  /** How many bytes z, not a sync byte, a parser takes at most to be waiting for a frame. */
  function Distance(p: Parser, z: bv8): int {
    match p.phase
    case WaitSync1 => 0
    case WaitSync2 => 1
    case WaitLenLow => if z == 0 then 7 else 2
    case WaitLenHigh => if z == 0 then p.dataLen + 6 else 1
    case WaitCommand => p.dataLen + 5
    case WaitSequence => p.dataLen + 4
    case WaitData => p.dataLen - p.dataIdx + 3
    case WaitCrcLow => 3
    case WaitCrcHigh => 2
    case WaitEnd => 1
  }

  lemma Nears(p: Parser, z: bv8)
    requires Ok(p) && z != SYNC0 && z != SYNC1
    ensures p.phase == WaitSync1 ==> Fed(p, z).0.phase == WaitSync1
    ensures p.phase != WaitSync1 ==> Distance(Fed(p, z).0, z) < Distance(p, z)
    ensures 0 <= Distance(p, z) <= MAX_DATA + 6 && (Distance(p, z) == 0 ==> p.phase == WaitSync1)
  {
    hide Num, Crc, CrcOf, Covered, FromByte, JoinedLength;
    NumOfZero(z);
    if p.phase == WaitLenHigh {
      LengthJoins(p.dataLen, z);
    }
  }

  lemma NumOfZero(z: bv8)
    ensures Num(z) == 0 <==> z == 0
  { }

  lemma {:induction false} Settles(p: Parser, z: bv8, n: nat)
    requires Ok(p) && z != SYNC0 && z != SYNC1 && Distance(p, z) <= n
    ensures Run(Fed, p, Filler(z, n)).0.phase == WaitSync1
    decreases n
  {
    hide Fed, Ok, Distance, Run;
    Nears(p, z);
    if n == 0 {
      assert Filler(z, n) == [];
      RunNothing(Fed, p);
    } else {
      var q := Fed(p, z).0;
      StaysOk(p, z);
      AtZero(q, z);
      Settles(q, z, n - 1);
      assert Filler(z, n) == [z] + Filler(z, n - 1);
      RunOne(Fed, p, z, Filler(z, n - 1));
    }
  }

  lemma AtZero(p: Parser, z: bv8)
    ensures p.phase == WaitSync1 ==> Distance(p, z) == 0
  { }

  lemma StaysOk(p: Parser, b: bv8)
    requires Ok(p)
    ensures Ok(Fed(p, b).0)
  {
    hide Fed, Ok, Pending;
    assert EndsWith(Pending(p), Pending(p));
    FeedKeeps(p, Pending(p), b);
  }

  lemma {:induction false} AfterIsRun(history: Octets)
    ensures After(history) == Run(Fed, NEW, history).0
  {
    hide Fed, Run;
    if history == [] {
      RunNothing(Fed, NEW);
    } else {
      var before, b := history[..|history| - 1], history[|history| - 1];
      AfterIsRun(before);
      assert history == before + [b] && [b] + [] == [b];
      RunConcat(Fed, NEW, before, [b]);
      RunOne(Fed, After(before), b, []);
      RunNothing(Fed, Fed(After(before), b).0);
    }
  }

  /** Whatever has been received before, after 261 equal bytes that are not sync bytes the next encoded frame is
      returned. */
  lemma Recovers(history: Octets, z: bv8, n: nat, f: Frame)
    requires z != SYNC0 && z != SYNC1 && n >= MAX_DATA + 6 && Fits(f)
    ensures var (p, before) := Run(Fed, NEW, history + Filler(z, n));
      && p.phase == WaitSync1
      && Run(Fed, NEW, history + Filler(z, n) + Encoded(f)).1 == before + [f]
  {
    hide Fed, Ok, Run, Encoded, Distance, EndsWith, Pending;
    AfterKeeps(history);
    AfterIsRun(history);
    Nears(After(history), z);
    Settles(After(history), z, n);
    RunConcat(Fed, NEW, history, Filler(z, n));
    RunConcat(Fed, NEW, history + Filler(z, n), Encoded(f));
    Complete(Run(Fed, NEW, history + Filler(z, n)).0, f);
  }

  /** 259 are too few: the announcement of 255 bytes of data cut off after its first length byte takes them all. */
  lemma TooFew(p: Parser)
    requires p.phase == WaitSync1
    ensures Run(Fed, p, [SYNC0, SYNC1, LenByte(MAX_DATA)] + Filler(0, MAX_DATA + 4)).0.phase == WaitCrcHigh
  {
    hide Run, LenByte;
    var data := Filler(0, MAX_DATA);
    assert [SYNC0, SYNC1, LenByte(MAX_DATA)] + Filler(0, MAX_DATA + 4)
        == [SYNC0, SYNC1, LenByte(MAX_DATA), 0, 0, 0] + (data + [0]);
    RunHead(p, MAX_DATA, 0, 0, data + [0]);
    var q := p.(phase := WaitData, dataLen := MAX_DATA, dataIdx := 0, command := 0, sequence := 0, data := []);
    RunData(q, data, [0]);
    var u := q.(phase := WaitCrcLow, dataIdx := MAX_DATA, data := [] + data);
    var last: Octets := [0];
    assert last + [] == last;
    RunOne(Fed, u, 0, []);
    RunNothing(Fed, Fed(u, 0).0);
  }

  // ---- Corruption ----

  /** What the CRC covers, and the CRC as it is sent. */
  function Protected(command: bv8, sequence: bv8, data: Octets, lo: bv8, hi: bv8): Octets {
    Covered(command, sequence, data) + [lo, hi]
  }

  function Sent(f: Frame): Octets {
    var crc := Crc(Covered(ToByte(f.command), f.sequence, f.data));
    Protected(ToByte(f.command), f.sequence, f.data, CrcLow(crc), CrcHigh(crc))
  }

  /** The frame with bits 0, 3 and 7 of its last covered byte turned over: the last data byte, or the sequence number
      when there is no data. */
  function Altered(f: Frame): Frame {
    if f.data == [] then f.(sequence := Flipped(f.sequence))
    else
      var last := |f.data| - 1;
      f.(data := f.data[..last] + [Flipped(f.data[last])])
  }

  function Flipped(b: bv8): bv8 { b ^ 0x89 }

  /** The one change that goes unnoticed, because the CRC is sent low byte first: the altered frame, with bits 0, 5
      and 7 of the first CRC byte turned over. */
  function Unnoticed(f: Frame): Octets {
    var crc, g := Crc(Covered(ToByte(f.command), f.sequence, f.data)), Altered(f);
    Protected(ToByte(g.command), g.sequence, g.data, CrcLow(crc) ^ 0xA1, CrcHigh(crc))
  }

  /** s and t differ, in two adjacent places at most. */
  predicate AdjacentlyChanged(s: Octets, t: Octets, k: nat) {
    && s != t && |s| == |t| && k + 2 <= |s|
    && forall i :: 0 <= i < |s| && i != k && i != k + 1 ==> s[i] == t[i]
  }

  /** The altered bytes with the altered low CRC byte. */
  predicate IsUnnoticed(sent: Octets, got: Octets, lo: bv8, hi: bv8)
    requires sent != []
  {
    var last := |sent| - 1;
    got == sent[..last] + [Flipped(sent[last])] && lo == CrcLow(Crc(sent)) ^ 0xA1 && hi == CrcHigh(Crc(sent))
  }

  /** A change confined to two adjacent bytes leaves the CRC right exactly if it is that one. */
  lemma GoodChange(sent: Octets, got: Octets, lo: bv8, hi: bv8, k: nat)
    requires |sent| == |got| && sent != []
    requires AdjacentlyChanged(sent + [CrcLow(Crc(sent)), CrcHigh(Crc(sent))], got + [lo, hi], k)
    ensures CrcOf(lo, hi) == Crc(got) <==> IsUnnoticed(sent, got, lo, hi)
  {
    hide Crc, CrcOf, CrcLow, CrcHigh, Flipped, AdjacentlyChanged;
    CrcJoin(Crc(sent));
    if k + 2 <= |sent| {
      ChangedInside(sent, got, lo, hi, k);
    } else if k == |sent| {
      ChangedCrc(sent, got, lo, hi);
    } else {
      assert k == |sent| - 1 by { Within(sent + [CrcLow(Crc(sent)), CrcHigh(Crc(sent))], got + [lo, hi], k); }
      ChangedAcross(sent, got, lo, hi);
    }
  }

  lemma Within(s: Octets, t: Octets, k: nat)
    requires AdjacentlyChanged(s, t, k)
    ensures k + 2 <= |s|
  { }

  lemma ChangedInside(sent: Octets, got: Octets, lo: bv8, hi: bv8, k: nat)
    requires |sent| == |got| && k + 2 <= |sent|
    requires AdjacentlyChanged(sent + [CrcLow(Crc(sent)), CrcHigh(Crc(sent))], got + [lo, hi], k)
    ensures lo == CrcLow(Crc(sent)) && hi == CrcHigh(Crc(sent)) && CrcOf(lo, hi) != Crc(got)
    ensures lo != CrcLow(Crc(sent)) ^ 0xA1
  {
    hide Crc, CrcOf, CrcLow, CrcHigh;
    var n := |sent|;
    var s, t := sent + [CrcLow(Crc(sent)), CrcHigh(Crc(sent))], got + [lo, hi];
    assert s[n] == t[n] && s[n + 1] == t[n + 1];
    assert forall i :: 0 <= i < n ==> s[i] == sent[i] && t[i] == got[i];
    AdjacentChange(sent, got, k);
    CrcJoin(Crc(sent));
  }

  lemma ChangedCrc(sent: Octets, got: Octets, lo: bv8, hi: bv8)
    requires |sent| == |got| && sent != []
    requires AdjacentlyChanged(sent + [CrcLow(Crc(sent)), CrcHigh(Crc(sent))], got + [lo, hi], |sent|)
    ensures got == sent && CrcOf(lo, hi) != Crc(sent) && Flipped(got[|got| - 1]) != got[|got| - 1]
    ensures got != sent[..|sent| - 1] + [Flipped(sent[|sent| - 1])]
  {
    hide Crc, CrcOf, CrcLow, CrcHigh, Flipped;
    var n := |sent|;
    var s, t := sent + [CrcLow(Crc(sent)), CrcHigh(Crc(sent))], got + [lo, hi];
    assert forall i :: 0 <= i < n ==> s[i] == sent[i] && t[i] == got[i];
    CrcSplit(lo, hi);
    FlippedDiffers(sent[n - 1]);
    assert (sent[..n - 1] + [Flipped(sent[n - 1])])[n - 1] != got[n - 1];
  }

  lemma ChangedAcross(sent: Octets, got: Octets, lo: bv8, hi: bv8)
    requires |sent| == |got| && sent != []
    requires AdjacentlyChanged(sent + [CrcLow(Crc(sent)), CrcHigh(Crc(sent))], got + [lo, hi], |sent| - 1)
    ensures CrcOf(lo, hi) == Crc(got) <==> IsUnnoticed(sent, got, lo, hi)
  {
    hide ByBits, CrcOf, CrcLow, CrcHigh, Flipped, Turned, Xor, Lo;
    var last, crc := |sent| - 1, Crc(sent);
    var s, t := sent + [CrcLow(crc), CrcHigh(crc)], got + [lo, hi];
    assert s[last + 2] == t[last + 2];
    assert forall i :: 0 <= i < last ==> s[i] == sent[i] && t[i] == got[i];
    var head, b, b' := sent[..last], sent[last], got[last];
    assert sent == head + [b] && got == head + [b'];
    LastByteChange(0xFFFF, head, b, b', Turned(CrcLow(crc), lo));
    LowChange(crc, lo);
    LowTurned(CrcLow(crc), lo);
    FlippedIs(b, b');
    assert s[last] == b && t[last] == b' && s[last + 1] == CrcLow(crc) && t[last + 1] == lo;
    assert b' == b && lo == CrcLow(crc) ==> s == t;
    assert got == head + [Flipped(b)] <==> b' == Flipped(b) by { assert (head + [Flipped(b)])[last] == Flipped(b); }
  }

  lemma LowChange(c: bv16, lo: bv8)
    ensures CrcOf(lo, CrcHigh(c)) == Xor(c, Lo(Turned(CrcLow(c), lo)))
  { }

  lemma LowTurned(a: bv8, b: bv8)
    ensures (Turned(a, b) == 0 <==> b == a) && (Turned(a, b) == 0xA1 <==> b == a ^ 0xA1)
  { }

  lemma FlippedIs(b: bv8, b': bv8)
    ensures b' == b ^ 0x89 <==> b' == Flipped(b)
  { }

  lemma FlippedDiffers(b: bv8)
    ensures Flipped(b) != b
  { }

  lemma AlteredIs(f: Frame, command: bv8)
    ensures var sent := Covered(command, f.sequence, f.data);
      var got := Covered(command, Altered(f).sequence, Altered(f).data);
      |got| == |sent| && got == sent[..|sent| - 1] + [Flipped(sent[|sent| - 1])]
    ensures Altered(f) != f && Altered(f).command == f.command && |Altered(f).data| == |f.data|
  {
    hide Flipped;
    var sent := Covered(command, f.sequence, f.data);
    FlippedDiffers(sent[|sent| - 1]);
    if f.data != [] {
      assert Altered(f).data[|f.data| - 1] == Flipped(sent[|sent| - 1]);
    }
  }

  lemma SameCovered(command: bv8, sequence: bv8, data: Octets, command': bv8, sequence': bv8, data': Octets)
    ensures Covered(command, sequence, data) == Covered(command', sequence', data')
       <==> command == command' && sequence == sequence' && data == data'
  {
    var s, t := Covered(command, sequence, data), Covered(command', sequence', data');
    assert s[0] == command && s[1] == sequence && s[2..] == data;
    assert t[0] == command' && t[1] == sequence' && t[2..] == data';
  }

  lemma SameProtected(s: Octets, lo: bv8, hi: bv8, t: Octets, lo': bv8, hi': bv8)
    requires |s| == |t|
    ensures s + [lo, hi] == t + [lo', hi'] <==> s == t && lo == lo' && hi == hi'
  {
    var n := |s|;
    assert (s + [lo, hi])[..n] == s && (t + [lo', hi'])[..n] == t;
    assert (s + [lo, hi])[n] == lo && (s + [lo, hi])[n + 1] == hi;
    assert (t + [lo', hi'])[n] == lo' && (t + [lo', hi'])[n + 1] == hi';
  }

  lemma UnnoticedIs(f: Frame, command: bv8, sequence: bv8, data: Octets, lo: bv8, hi: bv8)
    requires |data| == |f.data|
    ensures var sent, got := Covered(ToByte(f.command), f.sequence, f.data), Covered(command, sequence, data);
      && sent != []
      && (Protected(command, sequence, data, lo, hi) == Unnoticed(f) <==> IsUnnoticed(sent, got, lo, hi))
      && (IsUnnoticed(sent, got, lo, hi) ==>
            command == ToByte(f.command) && Frame(f.command, sequence, data) == Altered(f))
  {
    hide Crc, CrcOf, CrcLow, CrcHigh, Altered, Covered, Flipped, ToByte;
    var c, g := ToByte(f.command), Altered(f);
    var sent, got := Covered(c, f.sequence, f.data), Covered(command, sequence, data);
    AlteredIs(f, c);
    CoveredLength(c, f.sequence, f.data);
    CoveredLength(command, sequence, data);
    SameCovered(command, sequence, data, c, g.sequence, g.data);
    SameProtected(got, lo, hi, Covered(c, g.sequence, g.data), CrcLow(Crc(sent)) ^ 0xA1, CrcHigh(Crc(sent)));
  }

  /** Any change confined to two adjacent bytes of command, sequence, data and CRC: no frame is returned at all, but for
      that one, after which the altered frame is. */
  lemma Corruption(p: Parser, f: Frame, command: bv8, sequence: bv8, data: Octets, lo: bv8, hi: bv8, k: nat)
    requires p.phase == WaitSync1 && Fits(f) && |data| == |f.data|
    requires AdjacentlyChanged(Sent(f), Protected(command, sequence, data, lo, hi), k)
    ensures Run(Fed, p, Shape(command, sequence, data, lo, hi, END)).1
         == if Protected(command, sequence, data, lo, hi) == Unnoticed(f) then [Altered(f)] else []
  {
    hide Run, Crc, FromByte, ToByte, CrcOf, CrcLow, CrcHigh, Shape, Altered, Covered, Unnoticed, IsUnnoticed,
        AdjacentlyChanged;
    var c, g := ToByte(f.command), Altered(f);
    var sent, got := Covered(c, f.sequence, f.data), Covered(command, sequence, data);
    CoveredLength(c, f.sequence, f.data);
    CoveredLength(command, sequence, data);
    GoodChange(sent, got, lo, hi, k);
    UnnoticedIs(f, command, sequence, data, lo, hi);
    RunShape(p, command, sequence, data, lo, hi, END);
    CommandRoundTrip(c, f.command);
  }

  lemma CoveredLength(command: bv8, sequence: bv8, data: Octets)
    ensures |Covered(command, sequence, data)| == |data| + 2
  { }

  /** So nothing comes out after a change confined to two adjacent bytes of command, sequence and data, */
  lemma CorruptionDropped(p: Parser, f: Frame, command: bv8, sequence: bv8, data: Octets, k: nat)
    requires p.phase == WaitSync1 && Fits(f) && |data| == |f.data|
    requires AdjacentlyChanged(Covered(ToByte(f.command), f.sequence, f.data), Covered(command, sequence, data), k)
    ensures var crc := Crc(Covered(ToByte(f.command), f.sequence, f.data));
      Run(Fed, p, Shape(command, sequence, data, CrcLow(crc), CrcHigh(crc), END)).1 == []
  {
    hide Run, Crc, FromByte, ToByte, CrcOf, CrcLow, CrcHigh, Shape, Altered, Covered;
    var crc, c, g := Crc(Covered(ToByte(f.command), f.sequence, f.data)), ToByte(f.command), Altered(f);
    var sent, got := Covered(c, f.sequence, f.data), Covered(command, sequence, data);
    SameProtected(sent, CrcLow(crc), CrcHigh(crc), got, CrcLow(crc), CrcHigh(crc));
    Corruption(p, f, command, sequence, data, CrcLow(crc), CrcHigh(crc), k);
    AlteredIs(f, c);
    SameProtected(got, CrcLow(crc), CrcHigh(crc), Covered(c, g.sequence, g.data), CrcLow(crc) ^ 0xA1, CrcHigh(crc));
  }

  /** and of the changes across the last covered byte and the first CRC byte one gets through, in every frame. */
  lemma CorruptionAccepted(p: Parser, f: Frame)
    requires p.phase == WaitSync1 && Fits(f)
    ensures var crc, g := Crc(Covered(ToByte(f.command), f.sequence, f.data)), Altered(f);
      && g != f && g.command == f.command && |g.data| == |f.data|
      && AdjacentlyChanged(Sent(f), Unnoticed(f), |f.data| + 1)
      && Run(Fed, p, Shape(ToByte(g.command), g.sequence, g.data, CrcLow(crc) ^ 0xA1, CrcHigh(crc), END)).1 == [g]
  {
    hide Run, Crc, FromByte, ToByte, CrcOf, CrcLow, CrcHigh, Shape, Altered, Covered, Flipped, AdjacentlyChanged;
    var crc, c, g := Crc(Covered(ToByte(f.command), f.sequence, f.data)), ToByte(f.command), Altered(f);
    var sent, got := Covered(c, f.sequence, f.data), Covered(c, g.sequence, g.data);
    AlteredIs(f, c);
    CoveredLength(c, f.sequence, f.data);
    FlippedDiffers(sent[|sent| - 1]);
    LastTwoChanged(sent, Flipped(sent[|sent| - 1]), CrcLow(crc), CrcLow(crc) ^ 0xA1, CrcHigh(crc));
    Corruption(p, f, c, g.sequence, g.data, CrcLow(crc) ^ 0xA1, CrcHigh(crc), |f.data| + 1);
  }

  lemma LastTwoChanged(s: Octets, b: bv8, lo: bv8, lo': bv8, hi: bv8)
    requires s != [] && b != s[|s| - 1]
    ensures AdjacentlyChanged(s + [lo, hi], s[..|s| - 1] + [b] + [lo', hi], |s| - 1)
  {
    var x, y := s + [lo, hi], s[..|s| - 1] + [b] + [lo', hi];
    assert x[|s| - 1] == s[|s| - 1] && y[|s| - 1] == b;
  }
}
