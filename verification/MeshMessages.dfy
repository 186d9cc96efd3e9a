/** The Data and Position messages: their fields, written in order and read in any order. */
module MeshMessages {
  import opened Bytes
  import opened Protobuf
  import opened Wrappers

  const MAX_PAYLOAD := 237

  // ---- Data ----

  datatype Data = Data(
    port: nat, payload: seq<byte>, wantResponse: bool, dest: nat, source: nat, requestId: nat, replyId: nat, emoji: nat)

  const BLANK_DATA := Data(0, [], false, 0, 0, 0, 0, 0)

  /** The port numbers there are. */
  predicate IsPort(v: nat) {
    v <= 10 || 32 <= v <= 34 || 64 <= v <= 73 || v == 256 || v == 257 || v == 511
  }

  /** The port numbers the decoder knows; any other is read as 0, unknown. */
  predicate Known(v: nat) {
    v <= 8 || v == 32 || v == 33 || 64 <= v <= 67 || v == 70 || v == 71
  }

  function PortFrom(v: nat): nat {
    if Known(v) then v else 0
  }

  /** A record the code's types can hold. */
  predicate FitsData(d: Data) {
    && IsPort(d.port) && |d.payload| <= MAX_PAYLOAD
    && d.dest < U32 && d.source < U32 && d.requestId < U32 && d.replyId < U32 && d.emoji < U32
  }

  function One(b: bool): nat {
    if b then 1 else 0
  }

  function DataFields(d: Data): seq<Field> {
    [Field(1, Number(d.port)), Field(2, Block(d.payload)), Field(3, Number(One(d.wantResponse))),
     Field(4, Number(d.dest)), Field(5, Number(d.source)), Field(6, Number(d.requestId)),
     Field(7, Number(d.replyId)), Field(8, Number(d.emoji))]
  }

  function UpdateData(d: Data, f: Field): Option<Data> {
    match f
    case Field(1, Number(v)) => Some(d.(port := PortFrom(v % U32)))
    case Field(2, Block(b)) => if |b| <= MAX_PAYLOAD then Some(d.(payload := b)) else None
    case Field(3, Number(v)) => Some(d.(wantResponse := v != 0))
    case Field(4, Number(v)) => Some(d.(dest := v % U32))
    case Field(5, Number(v)) => Some(d.(source := v % U32))
    case Field(6, Number(v)) => Some(d.(requestId := v % U32))
    case Field(7, Number(v)) => Some(d.(replyId := v % U32))
    case Field(8, Number(v)) => Some(d.(emoji := v % U32))
    case _ => Some(d)
  }

  /** The writes of an encoder from field i on, each going on whether or not the last fitted. */
  function PushFrom(buf: seq<byte>, fields: seq<Field>, i: nat): seq<byte>
    decreases |fields| - i
  {
    if i >= |fields| then buf else PushFrom(PushField(buf, MAX_PAYLOAD, fields[i]).0, fields, i + 1)
  }

  lemma Pushed(buf: seq<byte>, fields: seq<Field>, i: nat, f: Field)
    requires i < |fields| && fields[i] == f
    ensures PushFrom(buf, fields, i) == PushFrom(PushField(buf, MAX_PAYLOAD, f).0, fields, i + 1)
  {
  }

  method EncodeData(d: Data) returns (r: seq<byte>)
    ensures r == PushFrom([], DataFields(d), 0)
  {
    hide PushField, PushFrom;
    var e := new ProtobufEncoder(MAX_PAYLOAD);
    ghost var fields := DataFields(d);
    Pushed(e.buffer, fields, 0, Field(1, Number(d.port)));
    var ok := e.WriteVarintField(1, d.port);
    Pushed(e.buffer, fields, 1, Field(2, Block(d.payload)));
    ok := e.WriteBytesField(2, d.payload);
    Pushed(e.buffer, fields, 2, Field(3, Number(One(d.wantResponse))));
    ok := e.WriteBoolField(3, d.wantResponse);
    Pushed(e.buffer, fields, 3, Field(4, Number(d.dest)));
    ok := e.WriteVarintField(4, d.dest);
    Pushed(e.buffer, fields, 4, Field(5, Number(d.source)));
    ok := e.WriteVarintField(5, d.source);
    Pushed(e.buffer, fields, 5, Field(6, Number(d.requestId)));
    ok := e.WriteVarintField(6, d.requestId);
    Pushed(e.buffer, fields, 6, Field(7, Number(d.replyId)));
    ok := e.WriteVarintField(7, d.replyId);
    Pushed(e.buffer, fields, 7, Field(8, Number(d.emoji)));
    ok := e.WriteVarintField(8, d.emoji);
    AllPushed(e.buffer, fields);
    r := e.buffer;
  }

  lemma AllPushed(buf: seq<byte>, fields: seq<Field>)
    ensures PushFrom(buf, fields, |fields|) == buf
  {
  }

  // ---- What is written ----

  /** The fields from i on that are worth writing. */
  function Kept(fields: seq<Field>, i: nat): (r: seq<Field>)
    ensures forall f :: f in r ==> f in fields && !Skipped(f.content)
    decreases |fields| - i
  {
    if i >= |fields| then []
    else if Skipped(fields[i].content) then Kept(fields, i + 1)
    else [fields[i]] + Kept(fields, i + 1)
  }

  /** The message written in full, from field i on. */
  function Full(fields: seq<Field>, i: nat): seq<byte> {
    FieldsBytes(Kept(fields, i))
  }

  lemma FullFront(fields: seq<Field>, i: nat)
    ensures i >= |fields| ==> Full(fields, i) == []
    ensures i < |fields| ==>
      Full(fields, i) ==
        if Skipped(fields[i].content) then Full(fields, i + 1) else FieldBytes(fields[i]) + Full(fields, i + 1)
  { }

  /** The buffer is never overrun, and a message that fits is written in full. */
  lemma {:induction false} PushedInFull(buf: seq<byte>, fields: seq<Field>, i: nat)
    requires |buf| <= MAX_PAYLOAD
    ensures |PushFrom(buf, fields, i)| <= MAX_PAYLOAD
    ensures |buf| + |Full(fields, i)| <= MAX_PAYLOAD ==> PushFrom(buf, fields, i) == buf + Full(fields, i)
    decreases |fields| - i
  {
    hide PushField, Full, FieldBytes, Kept, Skipped;
    FullFront(fields, i);
    if i >= |fields| {
      assert buf + [] == buf;
    } else {
      var f := fields[i];
      PushFieldFits(buf, MAX_PAYLOAD, f);
      SkippedIsNotPushed(buf, f);
      PushedInFull(PushField(buf, MAX_PAYLOAD, f).0, fields, i + 1);
      Associate(buf, FieldBytes(f), Full(fields, i + 1));
    }
  }

  lemma Associate(a: seq<byte>, b: seq<byte>, c: seq<byte>)
    ensures a + b + c == a + (b + c)
  {
  }

  lemma SkippedIsNotPushed(buf: seq<byte>, f: Field)
    ensures Skipped(f.content) ==> PushField(buf, MAX_PAYLOAD, f) == (buf, true)
  {
  }

  /** A numeric field of Data. */
  method DecodeDataNumber(decoder: ProtobufDecoder, d: Data, fieldNumber: nat) returns (r: Option<Data>)
    requires decoder.Valid() && 1 <= fieldNumber <= 8 && fieldNumber != 2
    modifies decoder
    ensures decoder.Valid() && decoder.pos >= old(decoder.pos)
    ensures match ReadVarint(old(decoder.Rest()))
            case None => r == None
            case Some(v) => r == UpdateData(d, Field(fieldNumber, Number(v.0))) && decoder.pos == old(decoder.pos) + v.1
  {
    hide ReadVarint;
    var v := decoder.ReadVarintHere();
    if v.None? {
      return None;
    }
    match fieldNumber {
      case 1 => r := Some(d.(port := PortFrom(v.value % U32)));
      case 3 => r := Some(d.(wantResponse := v.value != 0));
      case 4 => r := Some(d.(dest := v.value % U32));
      case 5 => r := Some(d.(source := v.value % U32));
      case 6 => r := Some(d.(requestId := v.value % U32));
      case 7 => r := Some(d.(replyId := v.value % U32));
      case _ => r := Some(d.(emoji := v.value % U32));
    }
  }

  /** The body of the decoding loop: one field into the record. */
  method DecodeDataField(decoder: ProtobufDecoder, d: Data) returns (r: Read<Data>)
    requires decoder.Valid()
    modifies decoder
    ensures decoder.Valid() && decoder.pos >= old(decoder.pos)
    ensures r.Stopped? <==> FieldOverruns(old(decoder.pos), old(decoder.Rest()))
    ensures match ReadField(old(decoder.Rest()))
            case None => !r.Got?
            case Some(pair) =>
              match UpdateData(d, pair.0)
              case None => r == Nothing
              case Some(next) => r == Got(next) && decoder.pos == old(decoder.pos) + pair.1
  {
    hide ReadVarint;
    ghost var s := decoder.Rest();
    ghost var start := decoder.pos;
    var tag := decoder.ReadTag();
    if tag.None? {
      return Nothing;
    }
    var (fieldNumber, wireType) := tag.value;
    assert s[decoder.pos - start..] == decoder.Rest();
    if fieldNumber == 2 && wireType == 2 {
      var bytes := decoder.ReadBytes();
      if bytes.Stopped? {
        return Stopped;
      }
      if bytes.Nothing? || |bytes.value| > MAX_PAYLOAD {
        return Nothing;
      }
      r := Got(d.(payload := bytes.value));
    } else if 1 <= fieldNumber <= 8 && fieldNumber != 2 && wireType == 0 {
      var next := DecodeDataNumber(decoder, d, fieldNumber);
      r := if next.Some? then Got(next.value) else Nothing;
    } else {
      var skipped := decoder.SkipField(wireType);
      match skipped {
        case Got(_) => r := Got(d);
        case Nothing => r := Nothing;
        case Stopped => r := Stopped;
      }
    }
  }

  method DecodeData(data: seq<byte>) returns (r: Read<Data>)
    requires |data| < SLICE_LIMIT
    ensures r == Outcome(UpdateData, BLANK_DATA, 0, data)
  {
    hide ReadField, FieldOverruns, UpdateData;
    var decoder := new ProtobufDecoder(data);
    var result := BLANK_DATA;
    assert data[0..] == data;
    while decoder.pos < |data|
      invariant decoder.Valid() && decoder.data == data
      invariant Outcome(UpdateData, result, decoder.pos, data[decoder.pos..])
             == Outcome(UpdateData, BLANK_DATA, 0, data)
      decreases |data| - decoder.pos
    {
      ghost var start := decoder.pos;
      var next := DecodeDataField(decoder, result);
      if !next.Got? {
        return next;
      }
      assert data[start..][decoder.pos - start..] == data[decoder.pos..];
      result := next.value;
    }
    r := Got(result);
  }

  // ---- Round trips ----

  /** One written field, or one that was left out and changes nothing. */
  lemma FoldNext<R>(update: Update<R>, acc: R, fields: seq<Field>, i: nat, next: R)
    requires i < |fields|
    requires if Skipped(fields[i].content) then next == acc else update(acc, fields[i]) == Some(next)
    ensures FoldFields(update, acc, Kept(fields, i)) == FoldFields(update, next, Kept(fields, i + 1))
  { }

  lemma FoldEnd<R>(update: Update<R>, acc: R, fields: seq<Field>)
    ensures FoldFields(update, acc, Kept(fields, |fields|)) == Some(acc)
  {
  }

  lemma FieldsOf(d: Data)
    ensures var s := DataFields(d);
      && |s| == 8 && s[0] == Field(1, Number(d.port)) && s[1] == Field(2, Block(d.payload))
      && s[2] == Field(3, Number(One(d.wantResponse))) && s[3] == Field(4, Number(d.dest))
      && s[4] == Field(5, Number(d.source)) && s[5] == Field(6, Number(d.requestId))
      && s[6] == Field(7, Number(d.replyId)) && s[7] == Field(8, Number(d.emoji))
  {
  }

  /** The record while its first i fields have been read. */
  function DataUpTo(d: Data, i: nat): Data {
    var z := BLANK_DATA;
    Data(if i > 0 then PortFrom(d.port) else z.port, if i > 1 then d.payload else z.payload,
         i > 2 && d.wantResponse, if i > 3 then d.dest else z.dest, if i > 4 then d.source else z.source,
         if i > 5 then d.requestId else z.requestId, if i > 6 then d.replyId else z.replyId,
         if i > 7 then d.emoji else z.emoji)
  }

  lemma DataStep(d: Data, i: nat)
    requires FitsData(d) && i < 8
    ensures UpdateData(DataUpTo(d, i), DataFields(d)[i]) == Some(DataUpTo(d, i + 1))
    ensures Skipped(DataFields(d)[i].content) ==> DataUpTo(d, i + 1) == DataUpTo(d, i)
  {
    hide PortFrom;
    ZeroIsKnown();
    FieldsOf(d);
  }

  lemma {:induction false} DataFolds(d: Data, i: nat)
    requires FitsData(d) && i <= 8
    ensures FoldFields(UpdateData, DataUpTo(d, i), Kept(DataFields(d), i)) == Some(DataUpTo(d, 8))
    decreases 8 - i
  {
    hide DataFields, Kept, FoldFields, UpdateData, DataUpTo, IsPort;
    FieldsOf(d);
    if i == 8 {
      FoldEnd(UpdateData, DataUpTo(d, 8), DataFields(d));
    } else {
      DataStep(d, i);
      FoldNext(UpdateData, DataUpTo(d, i), DataFields(d), i, DataUpTo(d, i + 1));
      DataFolds(d, i + 1);
    }
  }

  lemma ZeroIsKnown()
    ensures PortFrom(0) == 0
  {
  }

  // ---- No message has a shorter encoding than the one written ----

  function FieldCost(f: Field): nat {
    if Skipped(f.content) then 0 else |FieldBytes(f)|
  }

  function DataCost(d: Data): nat {
    FieldCost(Field(1, Number(d.port))) + FieldCost(Field(2, Block(d.payload)))
    + FieldCost(Field(3, Number(One(d.wantResponse)))) + FieldCost(Field(4, Number(d.dest)))
    + FieldCost(Field(5, Number(d.source))) + FieldCost(Field(6, Number(d.requestId)))
    + FieldCost(Field(7, Number(d.replyId))) + FieldCost(Field(8, Number(d.emoji)))
  }

  lemma FullCost(fields: seq<Field>, i: nat)
    ensures |Full(fields, i)| == if i < |fields| then FieldCost(fields[i]) + |Full(fields, i + 1)| else 0
  { }

  lemma DataCostIs(d: Data)
    ensures |Full(DataFields(d), 0)| == DataCost(d)
  {
    hide Full, FieldCost, DataFields;
    FieldsOf(d);
    var s := DataFields(d);
    FullCost(s, 0);
    FullCost(s, 1);
    FullCost(s, 2);
    FullCost(s, 3);
    FullCost(s, 4);
    FullCost(s, 5);
    FullCost(s, 6);
    FullCost(s, 7);
    FullCost(s, 8);
  }

  lemma SmallTag(f: Field)
    requires f.number < 16
    ensures FieldCost(f) <= 1 + |ContentBytes(f.content)|
  {
  }

  /** What a field took to read bounds what any value it may set would cost. */
  lemma ReadCost(s: seq<byte>, v: nat)
    requires ReadField(s).Some?
    ensures var (f, n) := ReadField(s).value;
      && (f.content.Block? ==> 1 + |ContentBytes(f.content)| <= n)
      && (f.content.Number? && (v <= f.content.v % U32 || v <= f.content.v) ==> 1 + |VarintOf(v)| <= n)
  {
    hide VarintOf, ReadVarint;
    ReadIsShortest(s);
    var tag := ReadVarint(s).value;
    var rest := s[tag.1..];
    if tag.0 % 8 == 0 || tag.0 % 8 == 2 {
      ReadIsShortest(rest);
      var x := ReadVarint(rest).value.0;
      if v <= x % U32 {
        VarintGrows(v, x % U32);
      }
      if v <= x {
        VarintGrows(v, x);
      }
    }
  }

  /** Reading n bytes adds at most n to the cost of the record. */
  lemma UpdateCost(d: Data, s: seq<byte>)
    requires ReadField(s).Some? && UpdateData(d, ReadField(s).value.0).Some?
    ensures DataCost(UpdateData(d, ReadField(s).value.0).value) <= DataCost(d) + ReadField(s).value.1
    ensures Known(d.port) ==> Known(UpdateData(d, ReadField(s).value.0).value.port)
  {
    hide ReadField, FieldCost, ContentBytes;
    var (f, n) := ReadField(s).value;
    var r := UpdateData(d, f).value;
    if 1 <= f.number <= 8 {
      if f.content.Number? {
        var v := if f.number == 1 then r.port else if f.number == 3 then One(r.wantResponse) else f.content.v % U32;
        ReadCost(s, v);
        SmallTag(Field(f.number, Number(v)));
        NumberBytes(v);
      } else if f.content.Block? {
        ReadCost(s, 0);
        SmallTag(f);
      }
    }
  }

  lemma NumberBytes(v: nat)
    ensures ContentBytes(Number(v)) == VarintOf(v)
  {
  }

  lemma {:induction false} DecodeCost(d: Data, s: seq<byte>)
    requires Decode(UpdateData, d, s).Some?
    ensures DataCost(Decode(UpdateData, d, s).value) <= DataCost(d) + |s|
    ensures Known(d.port) ==> Known(Decode(UpdateData, d, s).value.port)
    decreases |s|
  {
    hide ReadField, UpdateData, DataCost, Known;
    if s != [] {
      var (f, n) := ReadField(s).value;
      UpdateCost(d, s);
      DecodeCost(UpdateData(d, f).value, s[n..]);
    }
  }

  /** A Data record survives encoding and decoding exactly when its encoding fits 237 bytes and its port is one
      the decoder knows. */
  lemma DataRoundTrip(d: Data)
    requires FitsData(d)
    ensures Decode(UpdateData, BLANK_DATA, PushFrom([], DataFields(d), 0)) == Some(d)
       <==> |Full(DataFields(d), 0)| <= MAX_PAYLOAD && Known(d.port)
  {
    hide Decode, UpdateData, PushFrom, Full, Kept, DataFields, DataCost, Known;
    var fields := DataFields(d);
    var sent := PushFrom([], fields, 0);
    PushedInFull([], fields, 0);
    if |Full(fields, 0)| <= MAX_PAYLOAD {
      WholeData(d);
      assert [] + Full(fields, 0) == Full(fields, 0);
      PortComesBack(d.port);
    } else if Decode(UpdateData, BLANK_DATA, sent) == Some(d) {
      DecodeCost(BLANK_DATA, sent);
      DataCostIs(d);
      assert DataCost(BLANK_DATA) == 0 by { BlankCost(); }
    }
  }

  lemma PortComesBack(port: nat)
    ensures PortFrom(port) == port <==> Known(port)
  {
  }

  lemma BlankCost()
    ensures DataCost(BLANK_DATA) == 0
  {
  }

  lemma DataFieldsProper(d: Data)
    requires FitsData(d)
    ensures forall f :: f in DataFields(d) ==> Proper(f)
  {
  }

  lemma WholeData(d: Data)
    requires FitsData(d)
    ensures Decode(UpdateData, BLANK_DATA, Full(DataFields(d), 0)) == Some(d.(port := PortFrom(d.port)))
  {
    hide Decode, UpdateData, Kept, PortFrom, DataFields, FitsData;
    DataFieldsProper(d);
    DecodeWritten(UpdateData, BLANK_DATA, Kept(DataFields(d), 0));
    DataFolds(d, 0);
    assert DataUpTo(d, 0) == BLANK_DATA;
  }

  /** Concatenated messages decode to the second laid over the first: its nonzero fields win. */
  lemma DataMerges(a: Data, b: Data)
    requires FitsData(a) && FitsData(b) && Known(a.port) && Known(b.port)
    ensures Decode(UpdateData, BLANK_DATA, Full(DataFields(a), 0) + Full(DataFields(b), 0)) == Some(Over(a, b))
  {
    hide Decode, UpdateData, Kept, Known, DataFields, FitsData, PortFrom, FoldFields;
    DataFieldsProper(b);
    PortComesBack(a.port);
    WholeData(a);
    DecodeConcat(UpdateData, BLANK_DATA, Full(DataFields(a), 0), Full(DataFields(b), 0));
    DecodeWritten(UpdateData, a, Kept(DataFields(b), 0));
    OverFolds(a, b, 0);
    assert OverUpTo(a, b, 0) == a;
  }

  function Over(a: Data, b: Data): Data {
    OverUpTo(a, b, 8)
  }

  function OverUpTo(a: Data, b: Data, i: nat): Data {
    Data(if i > 0 && b.port != 0 then b.port else a.port, if i > 1 && b.payload != [] then b.payload else a.payload,
         a.wantResponse || (i > 2 && b.wantResponse), if i > 3 && b.dest != 0 then b.dest else a.dest,
         if i > 4 && b.source != 0 then b.source else a.source,
         if i > 5 && b.requestId != 0 then b.requestId else a.requestId,
         if i > 6 && b.replyId != 0 then b.replyId else a.replyId, if i > 7 && b.emoji != 0 then b.emoji else a.emoji)
  }

  lemma OverStep(a: Data, b: Data, i: nat)
    requires FitsData(b) && Known(b.port) && i < 8
    ensures !Skipped(DataFields(b)[i].content) ==>
      UpdateData(OverUpTo(a, b, i), DataFields(b)[i]) == Some(OverUpTo(a, b, i + 1))
    ensures Skipped(DataFields(b)[i].content) ==> OverUpTo(a, b, i + 1) == OverUpTo(a, b, i)
  {
    hide PortFrom, Known;
    PortComesBack(b.port);
    FieldsOf(b);
  }

  lemma {:induction false} OverFolds(a: Data, b: Data, i: nat)
    requires FitsData(b) && Known(b.port) && i <= 8
    ensures FoldFields(UpdateData, OverUpTo(a, b, i), Kept(DataFields(b), i)) == Some(Over(a, b))
    decreases 8 - i
  {
    hide DataFields, Kept, FoldFields, UpdateData, OverUpTo, IsPort, Known;
    FieldsOf(b);
    if i == 8 {
      FoldEnd(UpdateData, OverUpTo(a, b, 8), DataFields(b));
    } else {
      OverStep(a, b, i);
      FoldNext(UpdateData, OverUpTo(a, b, i), DataFields(b), i, OverUpTo(a, b, i + 1));
      OverFolds(a, b, i + 1);
    }
  }

  // ---- Position ----

  datatype Source = Unset | Manual | InternalGps | ExternalGps

  function SourceNumber(s: Source): nat {
    match s
    case Unset => 0
    case Manual => 1
    case InternalGps => 2
    case ExternalGps => 3
  }

  function SourceFrom(v: nat): Source {
    match v
    case 1 => Manual
    case 2 => InternalGps
    case 3 => ExternalGps
    case _ => Unset
  }

  datatype Position = Position(
    latitude: int, longitude: int, altitude: int, time: nat, locationSource: Source,
    altitudeSource: Source, timestamp: nat, pdop: nat, hdop: nat, satsInView: nat,
    groundSpeed: nat, groundTrack: nat, fixQuality: nat, fixType: nat, seqNumber: nat)

  const BLANK_POSITION := Position(0, 0, 0, 0, Unset, Unset, 0, 0, 0, 0, 0, 0, 0, 0, 0)

  /** Signed and unsigned 32-bit fields. */
  predicate FitsPosition(p: Position) {
    && IsI32(p.latitude) && IsI32(p.longitude) && IsI32(p.altitude)
    && p.time < U32 && p.timestamp < U32 && p.pdop < U32 && p.hdop < U32 && p.satsInView < U32 &&
        p.groundSpeed < U32 && p.groundTrack < U32 && p.fixQuality < U32 && p.fixType < U32 && p.seqNumber < U32
  }

  function PositionFields(p: Position): seq<Field> {
    [Field(1, Number(Zigzag(p.latitude))), Field(2, Number(Zigzag(p.longitude))),
     Field(3, Number(Zigzag(p.altitude))), Field(4, Number(p.time)),
     Field(5, Number(SourceNumber(p.locationSource))), Field(6, Number(SourceNumber(p.altitudeSource))),
     Field(7, Number(p.timestamp)), Field(11, Number(p.pdop)),
     Field(12, Number(p.hdop)), Field(19, Number(p.satsInView)),
     Field(15, Number(p.groundSpeed)), Field(16, Number(p.groundTrack)),
     Field(17, Number(p.fixQuality)), Field(18, Number(p.fixType)),
     Field(22, Number(p.seqNumber))]
  }

  function UpdatePosition(p: Position, f: Field): Option<Position> {
    match f
    case Field(1, Number(v)) => Some(p.(latitude := Unzigzag(v % U32)))
    case Field(2, Number(v)) => Some(p.(longitude := Unzigzag(v % U32)))
    case Field(3, Number(v)) => Some(p.(altitude := Unzigzag(v % U32)))
    case Field(4, Number(v)) => Some(p.(time := v % U32))
    case Field(5, Number(v)) => Some(p.(locationSource := SourceFrom(v % 0x100)))
    case Field(6, Number(v)) => Some(p.(altitudeSource := SourceFrom(v % 0x100)))
    case Field(7, Number(v)) => Some(p.(timestamp := v % U32))
    case Field(11, Number(v)) => Some(p.(pdop := v % U32))
    case Field(12, Number(v)) => Some(p.(hdop := v % U32))
    case Field(19, Number(v)) => Some(p.(satsInView := v % U32))
    case Field(15, Number(v)) => Some(p.(groundSpeed := v % U32))
    case Field(16, Number(v)) => Some(p.(groundTrack := v % U32))
    case Field(17, Number(v)) => Some(p.(fixQuality := v % U32))
    case Field(18, Number(v)) => Some(p.(fixType := v % U32))
    case Field(22, Number(v)) => Some(p.(seqNumber := v % U32))
    case _ => Some(p)
  }

  method EncodePosition(p: Position) returns (r: seq<byte>)
    requires FitsPosition(p)
    ensures r == PushFrom([], PositionFields(p), 0)
  {
    hide PushField, PushFrom, Zigzag, SourceNumber, PositionFields;
    var e := new ProtobufEncoder(MAX_PAYLOAD);
    ghost var fields := PositionFields(p);
    PositionFieldsAre(p);
    Pushed(e.buffer, fields, 0, Field(1, Number(Zigzag(p.latitude))));
    var ok := e.WriteSint32Field(1, p.latitude);
    Pushed(e.buffer, fields, 1, Field(2, Number(Zigzag(p.longitude))));
    ok := e.WriteSint32Field(2, p.longitude);
    Pushed(e.buffer, fields, 2, Field(3, Number(Zigzag(p.altitude))));
    ok := e.WriteSint32Field(3, p.altitude);
    Pushed(e.buffer, fields, 3, Field(4, Number(p.time)));
    ok := e.WriteVarintField(4, p.time);
    Pushed(e.buffer, fields, 4, Field(5, Number(SourceNumber(p.locationSource))));
    ok := e.WriteVarintField(5, SourceNumber(p.locationSource));
    Pushed(e.buffer, fields, 5, Field(6, Number(SourceNumber(p.altitudeSource))));
    ok := e.WriteVarintField(6, SourceNumber(p.altitudeSource));
    Pushed(e.buffer, fields, 6, Field(7, Number(p.timestamp)));
    ok := e.WriteVarintField(7, p.timestamp);
    Pushed(e.buffer, fields, 7, Field(11, Number(p.pdop)));
    ok := e.WriteVarintField(11, p.pdop);
    Pushed(e.buffer, fields, 8, Field(12, Number(p.hdop)));
    ok := e.WriteVarintField(12, p.hdop);
    Pushed(e.buffer, fields, 9, Field(19, Number(p.satsInView)));
    ok := e.WriteVarintField(19, p.satsInView);
    Pushed(e.buffer, fields, 10, Field(15, Number(p.groundSpeed)));
    ok := e.WriteVarintField(15, p.groundSpeed);
    Pushed(e.buffer, fields, 11, Field(16, Number(p.groundTrack)));
    ok := e.WriteVarintField(16, p.groundTrack);
    Pushed(e.buffer, fields, 12, Field(17, Number(p.fixQuality)));
    ok := e.WriteVarintField(17, p.fixQuality);
    Pushed(e.buffer, fields, 13, Field(18, Number(p.fixType)));
    ok := e.WriteVarintField(18, p.fixType);
    Pushed(e.buffer, fields, 14, Field(22, Number(p.seqNumber)));
    ok := e.WriteVarintField(22, p.seqNumber);
    AllPushed(e.buffer, fields);
    r := e.buffer;
  }

  lemma PositionFieldsAre(p: Position)
    ensures var s := PositionFields(p);
      && |s| == 15 && s[0] == Field(1, Number(Zigzag(p.latitude)))
      && s[1] == Field(2, Number(Zigzag(p.longitude)))
      && s[2] == Field(3, Number(Zigzag(p.altitude)))
      && s[3] == Field(4, Number(p.time))
      && s[4] == Field(5, Number(SourceNumber(p.locationSource)))
      && s[5] == Field(6, Number(SourceNumber(p.altitudeSource)))
      && s[6] == Field(7, Number(p.timestamp))
      && s[7] == Field(11, Number(p.pdop))
      && s[8] == Field(12, Number(p.hdop))
      && s[9] == Field(19, Number(p.satsInView))
      && s[10] == Field(15, Number(p.groundSpeed))
      && s[11] == Field(16, Number(p.groundTrack))
      && s[12] == Field(17, Number(p.fixQuality))
      && s[13] == Field(18, Number(p.fixType))
      && s[14] == Field(22, Number(p.seqNumber))
  {
    hide Zigzag, SourceNumber;
  }

  predicate IsPositionField(number: nat) {
    1 <= number <= 7 || number == 11 || number == 12 || 15 <= number <= 19 || number == 22
  }

  /** A field of Position. */
  method DecodePositionNumber(decoder: ProtobufDecoder, p: Position, fieldNumber: nat) returns (r: Option<Position>)
    requires decoder.Valid() && IsPositionField(fieldNumber)
    modifies decoder
    ensures decoder.Valid() && decoder.pos >= old(decoder.pos)
    ensures match ReadVarint(old(decoder.Rest()))
            case None => r == None
            case Some(v) =>
              r == UpdatePosition(p, Field(fieldNumber, Number(v.0))) && decoder.pos == old(decoder.pos) + v.1
  {
    hide ReadVarint, Unzigzag, SourceFrom;
    var read := decoder.ReadVarintHere();
    if read.None? {
      return None;
    }
    var v := read.value;
    match fieldNumber {
      case 1 => r := Some(p.(latitude := Unzigzag(v % U32)));
      case 2 => r := Some(p.(longitude := Unzigzag(v % U32)));
      case 3 => r := Some(p.(altitude := Unzigzag(v % U32)));
      case 4 => r := Some(p.(time := v % U32));
      case 5 => r := Some(p.(locationSource := SourceFrom(v % 0x100)));
      case 6 => r := Some(p.(altitudeSource := SourceFrom(v % 0x100)));
      case 7 => r := Some(p.(timestamp := v % U32));
      case 11 => r := Some(p.(pdop := v % U32));
      case 12 => r := Some(p.(hdop := v % U32));
      case 19 => r := Some(p.(satsInView := v % U32));
      case 15 => r := Some(p.(groundSpeed := v % U32));
      case 16 => r := Some(p.(groundTrack := v % U32));
      case 17 => r := Some(p.(fixQuality := v % U32));
      case 18 => r := Some(p.(fixType := v % U32));
      case _ => r := Some(p.(seqNumber := v % U32));
    }
  }

  method DecodePositionField(decoder: ProtobufDecoder, p: Position) returns (r: Read<Position>)
    requires decoder.Valid()
    modifies decoder
    ensures decoder.Valid() && decoder.pos >= old(decoder.pos)
    ensures r.Stopped? <==> FieldOverruns(old(decoder.pos), old(decoder.Rest()))
    ensures match ReadField(old(decoder.Rest()))
            case None => !r.Got?
            case Some(pair) =>
              match UpdatePosition(p, pair.0)
              case None => r == Nothing
              case Some(next) => r == Got(next) && decoder.pos == old(decoder.pos) + pair.1
  {
    hide ReadVarint, Unzigzag, SourceFrom;
    ghost var s := decoder.Rest();
    ghost var start := decoder.pos;
    var tag := decoder.ReadTag();
    if tag.None? {
      return Nothing;
    }
    var (fieldNumber, wireType) := tag.value;
    assert s[decoder.pos - start..] == decoder.Rest();
    if IsPositionField(fieldNumber) && wireType == 0 {
      var next := DecodePositionNumber(decoder, p, fieldNumber);
      r := if next.Some? then Got(next.value) else Nothing;
    } else {
      var skipped := decoder.SkipField(wireType);
      match skipped {
        case Got(_) => r := Got(p);
        case Nothing => r := Nothing;
        case Stopped => r := Stopped;
      }
    }
  }

  method DecodePosition(data: seq<byte>) returns (r: Read<Position>)
    requires |data| < SLICE_LIMIT
    ensures r == Outcome(UpdatePosition, BLANK_POSITION, 0, data)
  {
    hide ReadField, FieldOverruns, UpdatePosition;
    var decoder := new ProtobufDecoder(data);
    var result := BLANK_POSITION;
    assert data[0..] == data;
    while decoder.pos < |data|
      invariant decoder.Valid() && decoder.data == data
      invariant Outcome(UpdatePosition, result, decoder.pos, data[decoder.pos..])
             == Outcome(UpdatePosition, BLANK_POSITION, 0, data)
      decreases |data| - decoder.pos
    {
      ghost var start := decoder.pos;
      var next := DecodePositionField(decoder, result);
      if !next.Got? {
        return next;
      }
      assert data[start..][decoder.pos - start..] == data[decoder.pos..];
      result := next.value;
    }
    r := Got(result);
  }

  // ---- The round trip of Position ----

  function PositionUpTo(p: Position, i: nat): Position {
    var z := BLANK_POSITION;
    Position(if i > 0 then p.latitude else z.latitude, if i > 1 then p.longitude else z.longitude,
             if i > 2 then p.altitude else z.altitude, if i > 3 then p.time else z.time,
             if i > 4 then p.locationSource else z.locationSource, if i > 5 then p.altitudeSource else z.altitudeSource,
             if i > 6 then p.timestamp else z.timestamp, if i > 7 then p.pdop else z.pdop,
             if i > 8 then p.hdop else z.hdop, if i > 9 then p.satsInView else z.satsInView,
             if i > 10 then p.groundSpeed else z.groundSpeed, if i > 11 then p.groundTrack else z.groundTrack,
             if i > 12 then p.fixQuality else z.fixQuality, if i > 13 then p.fixType else z.fixType,
             if i > 14 then p.seqNumber else z.seqNumber)
  }

  lemma NumbersComeBack(v: int, u: nat, s: Source)
    requires u < U32
    ensures IsI32(v) ==> Unzigzag(Zigzag(v) % U32) == v && (Zigzag(v) == 0 <==> v == 0)
    ensures u % U32 == u
    ensures SourceFrom(SourceNumber(s) % 0x100) == s && (SourceNumber(s) == 0 <==> s == Unset)
  {
    hide Zigzag, Unzigzag;
    if IsI32(v) {
      ZigzagIs(v);
      ZigzagRoundTrip(v);
    }
  }

  lemma PositionStepFirst(p: Position, i: nat)
    requires FitsPosition(p) && 0 <= i < 5
    ensures UpdatePosition(PositionUpTo(p, i), PositionFields(p)[i]) == Some(PositionUpTo(p, i + 1))
    ensures Skipped(PositionFields(p)[i].content) ==> PositionUpTo(p, i + 1) == PositionUpTo(p, i)
  {
    hide Zigzag, Unzigzag, SourceNumber, SourceFrom, PositionFields;
    PositionFieldsAre(p);
    NumbersComeBack(p.latitude, p.time, p.locationSource);
    NumbersComeBack(p.longitude, 0, Unset);
    NumbersComeBack(p.altitude, 0, Unset);
  }

  lemma PositionStepMiddle(p: Position, i: nat)
    requires FitsPosition(p) && 5 <= i < 10
    ensures UpdatePosition(PositionUpTo(p, i), PositionFields(p)[i]) == Some(PositionUpTo(p, i + 1))
    ensures Skipped(PositionFields(p)[i].content) ==> PositionUpTo(p, i + 1) == PositionUpTo(p, i)
  {
    hide Zigzag, Unzigzag, SourceNumber, SourceFrom, PositionFields;
    PositionFieldsAre(p);
    NumbersComeBack(0, p.timestamp, p.altitudeSource);
    NumbersComeBack(0, p.pdop, Unset);
    NumbersComeBack(0, p.hdop, Unset);
    NumbersComeBack(0, p.satsInView, Unset);
  }

  lemma PositionStepLast(p: Position, i: nat)
    requires FitsPosition(p) && 10 <= i < 15
    ensures UpdatePosition(PositionUpTo(p, i), PositionFields(p)[i]) == Some(PositionUpTo(p, i + 1))
    ensures Skipped(PositionFields(p)[i].content) ==> PositionUpTo(p, i + 1) == PositionUpTo(p, i)
  {
    hide Zigzag, Unzigzag, SourceNumber, SourceFrom, PositionFields;
    PositionFieldsAre(p);
    NumbersComeBack(0, p.groundSpeed, Unset);
    NumbersComeBack(0, p.groundTrack, Unset);
    NumbersComeBack(0, p.fixQuality, Unset);
    NumbersComeBack(0, p.fixType, Unset);
    NumbersComeBack(0, p.seqNumber, Unset);
  }

  lemma {:induction false} PositionFolds(p: Position, i: nat)
    requires FitsPosition(p) && i <= 15
    ensures FoldFields(UpdatePosition, PositionUpTo(p, i), Kept(PositionFields(p), i)) == Some(PositionUpTo(p, 15))
    decreases 15 - i
  {
    hide PositionFields, Kept, FoldFields, UpdatePosition, PositionUpTo;
    PositionFieldsAre(p);
    if i == 15 {
      FoldEnd(UpdatePosition, PositionUpTo(p, 15), PositionFields(p));
    } else {
      if i < 5 {
        PositionStepFirst(p, i);
      } else if i < 10 {
        PositionStepMiddle(p, i);
      } else {
        PositionStepLast(p, i);
      }
      FoldNext(UpdatePosition, PositionUpTo(p, i), PositionFields(p), i, PositionUpTo(p, i + 1));
      PositionFolds(p, i + 1);
    }
  }

  /** A numeric field of 32 bits with a number below 2048 takes at most seven bytes. */
  lemma SevenBytes(f: Field)
    requires f.number < 2048 && f.content.Number? && f.content.v < U32
    ensures FieldCost(f) <= 7
  {
    ShortVarint(TagOf(f), 2);
    assert Bits7(5) == 0x8_0000_0000;
    ShortVarint(f.content.v, 5);
  }

  lemma {:induction false} PositionIsShort(p: Position, i: nat)
    requires FitsPosition(p) && i <= 15
    ensures |Full(PositionFields(p), i)| <= 7 * (15 - i)
    decreases 15 - i
  {
    hide PositionFields, Full, FieldCost, SourceNumber;
    PositionFieldsAre(p);
    FullCost(PositionFields(p), i);
    if i < 15 {
      SourcesAreSmall(p);
      SevenBytes(PositionFields(p)[i]);
      PositionIsShort(p, i + 1);
    }
  }

  lemma SourcesAreSmall(p: Position)
    ensures SourceNumber(p.locationSource) < 4 && SourceNumber(p.altitudeSource) < 4
  {
  }

  /** Every Position survives encoding and decoding. */
  lemma PositionRoundTrip(p: Position)
    requires FitsPosition(p)
    ensures Decode(UpdatePosition, BLANK_POSITION, PushFrom([], PositionFields(p), 0)) == Some(p)
  {
    hide Decode, UpdatePosition, PushFrom, Kept, PositionFields;
    var fields := PositionFields(p);
    PushedInFull([], fields, 0);
    PositionIsShort(p, 0);
    assert [] + Full(fields, 0) == Full(fields, 0);
    PositionFieldsProper(p);
    DecodeWritten(UpdatePosition, BLANK_POSITION, Kept(fields, 0));
    PositionFolds(p, 0);
    assert PositionUpTo(p, 0) == BLANK_POSITION && PositionUpTo(p, 15) == p;
  }

  lemma PositionFieldsProper(p: Position)
    requires FitsPosition(p)
    ensures forall f :: f in PositionFields(p) ==> Proper(f)
  {
    hide PositionFields;
    PositionFieldsAre(p);
    SourcesAreSmall(p);
  }
}
