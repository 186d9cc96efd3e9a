/** The packet format on the air: a sixteen-byte header, the payload, and a four-byte check code that is
    computed when building and ignored when parsing. */
module LoraPacket {
  import opened Words
  import opened Wrappers

  const HEADER_SIZE := 16
  const MIC_SIZE := 4
  const MAX_PAYLOAD := 237
  const CAPACITY := 256

  /** Byte i of the check code of the given bytes. */
  type Mic = (Octets, nat) -> bv8

  datatype MeshPacket = MeshPacket(
    from: bv32, to: bv32, id: bv32, channel: bv8, hopLimit: bv8, wantAck: bool, payload: Octets)

  function Flags(wantAck: bool, hopLimit: bv8, channel: bv8): bv8 {
    (if wantAck then 0x01 else 0) | ((hopLimit & 0x07) << 1) | ((channel & 0x0F) << 4)
  }

  lemma FlagsRoundTrip(wantAck: bool, hopLimit: bv8, channel: bv8)
    ensures var f := Flags(wantAck, hopLimit, channel);
      && ((f & 0x01 != 0) == wantAck)
      && (f & 0x0E) >> 1 == hopLimit & 0x07
      && (f & 0xF0) >> 4 == channel & 0x0F
  {
  }

  function ChannelHash(channel: bv8): bv8 {
    var h := channel * 0x9E + 0x37;
    (h ^ (h >> 4)) * 0xB5
  }

  function Header(from: bv32, to: bv32, id: bv32, channel: bv8, hopLimit: bv8, wantAck: bool): (h: Octets)
    ensures |h| == HEADER_SIZE
  {
    WordBytes(to) + WordBytes(from) + WordBytes(id)
      + [Flags(wantAck, hopLimit, channel), ChannelHash(channel), 0, 0]
  }

  function Code(mic: Mic, data: Octets): (r: Octets)
    ensures |r| == MIC_SIZE
  {
    seq(MIC_SIZE, i requires 0 <= i => mic(data, i))
  }

  function Build(mic: Mic, from: bv32, to: bv32, id: bv32, channel: bv8, hopLimit: bv8, wantAck: bool,
      payload: Octets): Option<Octets> {
    if HEADER_SIZE + |payload| + MIC_SIZE > CAPACITY || |payload| > MAX_PAYLOAD then None
    else
      var covered := Header(from, to, id, channel, hopLimit, wantAck) + payload;
      Some(covered + Code(mic, covered))
  }

  /** The received check code is computed and compared, and the comparison has no effect. */
  function Parse(data: Octets): Option<MeshPacket> {
    if |data| < HEADER_SIZE + MIC_SIZE then None
    else
      var end := |data| - MIC_SIZE;
      if end <= HEADER_SIZE then None
      else if end - HEADER_SIZE > MAX_PAYLOAD then None
      else
        Some(MeshPacket(
          WordOf(data[4], data[5], data[6], data[7]),
          WordOf(data[0], data[1], data[2], data[3]),
          WordOf(data[8], data[9], data[10], data[11]),
          (data[12] & 0xF0) >> 4, (data[12] & 0x0E) >> 1, data[12] & 0x01 != 0,
          data[HEADER_SIZE..end]))
  }

  /** What was built parses to what was put in, with the channel cut to four bits and the hop limit to
      three; a packet with no payload does not parse. */
  lemma ParseBuilt(mic: Mic, from: bv32, to: bv32, id: bv32, channel: bv8, hopLimit: bv8, wantAck: bool,
      payload: Octets)
    ensures var built := Build(mic, from, to, id, channel, hopLimit, wantAck, payload);
      && (built.Some? <==> |payload| <= 236)
      && (built.Some? ==>
            Parse(built.value) == if payload == [] then None
                                  else Some(MeshPacket(from, to, id, channel & 0x0F, hopLimit & 0x07, wantAck,
                                      payload)))
  {
    hide Flags, ChannelHash, WordBytes, WordOf, Code;
    if |payload| <= 236 {
      var header := Header(from, to, id, channel, hopLimit, wantAck);
      var data := Build(mic, from, to, id, channel, hopLimit, wantAck, payload).value;
      assert header[0..4] == WordBytes(to) && header[4..8] == WordBytes(from) && header[8..12] == WordBytes(id);
      assert forall i :: 0 <= i < 12 ==> data[i] == header[i];
      assert data[12] == Flags(wantAck, hopLimit, channel);
      assert data[HEADER_SIZE..|data| - MIC_SIZE] == payload;
      WordRoundTrip(to);
      WordRoundTrip(from);
      WordRoundTrip(id);
      FlagsRoundTrip(wantAck, hopLimit, channel);
    }
  }

  /** The round trip is exact for exactly these packets. */
  lemma RoundTrip(mic: Mic, p: MeshPacket)
    requires |p.payload| <= 236
    ensures Parse(Build(mic, p.from, p.to, p.id, p.channel, p.hopLimit, p.wantAck, p.payload).value) == Some(p)
       <==> p.payload != [] && p.channel < 16 && p.hopLimit < 8
  {
    hide Build, Parse;
    ParseBuilt(mic, p.from, p.to, p.id, p.channel, p.hopLimit, p.wantAck, p.payload);
    assert p.channel < 16 <==> p.channel & 0x0F == p.channel;
    assert p.hopLimit < 8 <==> p.hopLimit & 0x07 == p.hopLimit;
  }

  /** Whatever parses has a small hop limit and channel and a payload of 1 to 237 bytes. */
  lemma ParsedIsSmall(data: Octets)
    ensures Parse(data).Some? <==> 20 < |data| <= 257
    ensures Parse(data).Some? ==>
      var p := Parse(data).value; p.hopLimit < 8 && p.channel < 16 && 1 <= |p.payload| <= MAX_PAYLOAD
  { }

  function CreateForward(mic: Mic, p: MeshPacket, payload: Octets): Option<Octets> {
    if p.hopLimit == 0 then None
    else Build(mic, p.from, p.to, p.id, p.channel, p.hopLimit - 1, p.wantAck, payload)
  }

  /** A parsed packet that is forwarded parses at the next node to itself with one hop less. It can be
      forwarded exactly when it has hops left and is not of the one length that parses but cannot be built. */
  lemma ForwardParses(mic: Mic, data: Octets)
    requires Parse(data).Some?
    ensures var p := Parse(data).value;
      var f := CreateForward(mic, p, p.payload);
      && (f.Some? <==> p.hopLimit > 0 && |p.payload| <= 236)
      && (f.Some? ==> Parse(f.value) == Some(p.(hopLimit := p.hopLimit - 1)))
  {
    hide Build, Parse;
    ParsedIsSmall(data);
    var p := Parse(data).value;
    ParseBuilt(mic, p.from, p.to, p.id, p.channel, p.hopLimit - 1, p.wantAck, p.payload);
    assert p.channel & 0x0F == p.channel;
    assert p.hopLimit > 0 ==> (p.hopLimit - 1) & 0x07 == p.hopLimit - 1;
  }
}
