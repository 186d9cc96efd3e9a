/** Whole runs of the updater: what a completed update guarantees, and that the way the stream is cut into
    writes makes no difference. */
module OtaRun {
  import opened Ota
  import opened Words
  import opened Wrappers

  /** The manager, with two things it does not keep itself: every byte written since begin, and the
      minimum version in force when the header was accepted. */
  datatype World = World(s: State, stream: Octets, floor: nat)

  datatype Event =
    | BeginUpdate(d: Driver)
    | WriteData(data: Octets, d: Driver)
    | AbortUpdate
    | AddKey(key: Octets)
    | SetMin(major: bv8, minor: bv8, patch: bv8)

  const START := World(FRESH, [], 0)

  ghost function Step(c: Crypto, w: World, e: Event): World
    requires w.s.headerReceived <= HEADER_SIZE == |w.s.headerBuf|
  {
    match e
    case BeginUpdate(d) =>
      var (s, r) := Begun(w.s, d);
      if r.Ok? then World(s, [], 0) else World(s, w.stream, w.floor)
    case WriteData(data, d) =>
      var s := Written(c, w.s, data, d).0;
      World(s, w.stream + data, if w.s.phase == ReceivingHeader then w.s.minVersion else w.floor)
    case AbortUpdate => World(Stopped(w.s), w.stream, w.floor)
    case AddKey(key) => World(KeyAdded(w.s, key), w.stream, w.floor)
    case SetMin(major, minor, patch) => World(w.s.(minVersion := PackVersion(major, minor, patch)), w.stream, w.floor)
  }

  // ---- The invariant ----

  /** Header h stands at the front of the stream and was rightly accepted. */
  ghost predicate Accepted(c: Crypto, stream: Octets, floor: nat, keys: seq<Octets>, h: Header) {
    && |stream| >= HEADER_SIZE && HeaderOf(stream[..HEADER_SIZE]) == Some(h)
    && h.firmwareSize <= MAX_FIRMWARE_SIZE && VersionOf(h) >= floor && SignedBy(c, keys, h)
  }

  function Body(stream: Octets): Octets {
    if |stream| < HEADER_SIZE then [] else stream[HEADER_SIZE..]
  }

  /** The header is still incomplete, or complete and unreadable. */
  ghost predicate AtHeader(s: State, stream: Octets) {
    && s.header == None && s.bytesReceived == 0 && s.hashed == [] && s.flash == []
    && s.headerReceived == Least(|stream|, HEADER_SIZE)
    && |s.headerBuf| == HEADER_SIZE && s.headerBuf[..s.headerReceived] == stream[..s.headerReceived]
    && (s.headerReceived == HEADER_SIZE ==> HeaderOf(s.headerBuf) == None)
  }

  /** What has been flashed and hashed is the stream after the header, up to the firmware's size. */
  ghost predicate AtFirmware(c: Crypto, s: State, stream: Octets, floor: nat) {
    && s.headerReceived == HEADER_SIZE
    && s.header.Some? && Accepted(c, stream, floor, s.keys, s.header.value)
    && s.bytesReceived == Least(s.header.value.firmwareSize, |Body(stream)|)
    && s.flash == s.hashed == Body(stream)[..s.bytesReceived]
    && (s.header.value.firmwareSize > 0 ==> s.bytesReceived < s.header.value.firmwareSize)
  }

  /** A completed update: every fact about what was flashed. */
  ghost predicate Verified(c: Crypto, s: State, stream: Octets, floor: nat) {
    && s.header.Some? && Accepted(c, stream, floor, s.keys, s.header.value)
    && var size := s.header.value.firmwareSize;
    && 0 < size <= |Body(stream)|
    && s.flash == Body(stream)[..size]
    && c.hash(s.flash) == s.header.value.firmwareHash
  }

  ghost predicate Inv(c: Crypto, w: World) {
    && w.s.headerReceived <= HEADER_SIZE == |w.s.headerBuf| && |w.s.keys| <= MAX_KEYS
    && !w.s.phase.Verifying? && !w.s.phase.Writing?
    && (w.s.phase == ReceivingHeader ==> AtHeader(w.s, w.stream))
    && (w.s.phase == Receiving ==> AtFirmware(c, w.s, w.stream, w.floor))
    && (w.s.phase == Complete ==> Verified(c, w.s, w.stream, w.floor))
  }

  /** The verdict on a firmware that is all there. */
  lemma FinishedKeeps(c: Crypto, s: State, stream: Octets, floor: nat, d: Driver)
    requires s.header.Some? && Accepted(c, stream, floor, s.keys, s.header.value)
    requires 0 < s.header.value.firmwareSize <= |Body(stream)|
    requires s.flash == s.hashed == Body(stream)[..s.header.value.firmwareSize]
    requires s.headerReceived <= HEADER_SIZE == |s.headerBuf| && |s.keys| <= MAX_KEYS
    ensures Inv(c, World(Finished(c, s, d).0, stream, floor))
  {
    hide HeaderOf, VersionOf, SignedBy, Body;
  }

  lemma FirmwareStep(c: Crypto, s: State, stream: Octets, floor: nat, data: Octets, d: Driver)
    requires AtFirmware(c, s, stream, floor) && s.phase == Receiving && |s.headerBuf| == HEADER_SIZE &&
        |s.keys| <= MAX_KEYS
    ensures Inv(c, World(FirmwareWritten(c, s, data, d).0, stream + data, floor))
  {
    hide HeaderOf, VersionOf, SignedBy, Percent, Finished;
    var size := s.header.value.firmwareSize;
    assert (stream + data)[..HEADER_SIZE] == stream[..HEADER_SIZE];
    assert Body(stream + data) == Body(stream) + data;
    assert Remaining(size, s.bytesReceived) == size - s.bytesReceived;
    var n := Least(|data|, size - s.bytesReceived);
    if s.bytesReceived == |Body(stream)| {
      assert (Body(stream) + data)[..s.bytesReceived + n] == s.flash + data[..n];
    }
    if 0 < n == size - s.bytesReceived {
      FinishedKeeps(c, s.(hashed := s.hashed + data[..n], flash := s.flash + data[..n], bytesReceived := size,
          progress := Percent(size, size), phase := Verifying), stream + data, floor, d);
    }
  }

  /** A complete header that passes is followed by whatever the same write brings of the firmware. */
  lemma JudgeStep(c: Crypto, s: State, stream: Octets, rest: Octets, copied: nat, d: Driver)
    requires s.phase == ReceivingHeader && |s.keys| <= MAX_KEYS
    requires s.header == None && s.bytesReceived == 0 && s.hashed == [] && s.flash == []
    requires s.headerReceived == HEADER_SIZE && s.headerBuf == stream && |stream| == HEADER_SIZE
    ensures Inv(c, World(Judged(c, s, rest, copied, d).0, stream + rest, s.minVersion))
  {
    hide HeaderOf, VersionOf, SignedBy, FirmwareWritten;
    assert (stream + rest)[..HEADER_SIZE] == stream;
    if HeaderOf(stream).Some? && Objection(c, s.keys, s.minVersion, HeaderOf(stream).value).None? {
      var s1 := s.(header := HeaderOf(stream), phase := Receiving);
      assert stream[..HEADER_SIZE] == stream && Body(stream) == [];
      FirmwareStep(c, s1, stream, s.minVersion, rest, d);
      assert rest == [] ==> stream + rest == stream;
    }
  }

  lemma HeaderStep(c: Crypto, s: State, stream: Octets, data: Octets, d: Driver)
    requires AtHeader(s, stream) && s.phase == ReceivingHeader && |s.keys| <= MAX_KEYS
    ensures Inv(c, World(HeaderWritten(c, s, data, d).0, stream + data, s.minVersion))
  {
    hide HeaderOf, VersionOf, SignedBy, FirmwareWritten, Judged, AtFirmware, Verified;
    var toCopy := Least(|data|, HEADER_SIZE - s.headerReceived);
    var s1 := Filled(s, data[..toCopy]);
    if s.headerReceived == HEADER_SIZE {
      StillUnreadable(c, s, stream, data, d);
    } else if s1.headerReceived < HEADER_SIZE {
      assert s1.headerBuf[..s1.headerReceived] == stream + data;
    } else {
      assert s1.headerBuf == stream + data[..toCopy];
      JudgeStep(c, s1, s1.headerBuf, data[toCopy..], toCopy, d);
      assert stream + data == s1.headerBuf + data[toCopy..];
    }
  }

  lemma StillUnreadable(c: Crypto, s: State, stream: Octets, data: Octets, d: Driver)
    requires AtHeader(s, stream) && s.phase == ReceivingHeader && s.headerReceived == HEADER_SIZE
    ensures HeaderWritten(c, s, data, d).0 == s && AtHeader(s, stream + data)
  {
    hide HeaderOf, FirmwareWritten;
    assert Filled(s, []).headerBuf == s.headerBuf;
    assert (stream + data)[..HEADER_SIZE] == stream[..HEADER_SIZE];
  }

  // ---- Safety over whole runs ----

  /** Adding a key never withdraws an acceptance. */
  lemma AddKeyKeeps(c: Crypto, w: World, key: Octets)
    requires Inv(c, w)
    ensures Inv(c, Step(c, w, AddKey(key)))
  {
    hide HeaderOf, VersionOf;
    assert w.s.header.Some? && SignedBy(c, w.s.keys, w.s.header.value) ==>
        SignedBy(c, KeyAdded(w.s, key).keys, w.s.header.value);
  }

  /** Data written to a finished update changes nothing it was finished from. */
  lemma LateData(c: Crypto, w: World, data: Octets)
    requires Inv(c, w) && w.s.phase == Complete
    ensures Verified(c, w.s, w.stream + data, w.floor)
  {
    hide HeaderOf, VersionOf, SignedBy;
    var size := w.s.header.value.firmwareSize;
    assert (w.stream + data)[..HEADER_SIZE] == w.stream[..HEADER_SIZE];
    assert Body(w.stream + data)[..size] == Body(w.stream)[..size];
  }

  lemma StepKeeps(c: Crypto, w: World, e: Event)
    requires Inv(c, w)
    ensures Inv(c, Step(c, w, e))
  {
    hide HeaderOf, VersionOf, SignedBy, FirmwareWritten, HeaderWritten, PackVersion;
    match e
    case BeginUpdate(d) =>
    case WriteData(data, d) =>
      if w.s.phase == ReceivingHeader {
        HeaderStep(c, w.s, w.stream, data, d);
      } else if w.s.phase == Receiving {
        FirmwareStep(c, w.s, w.stream, w.floor, data, d);
      } else if w.s.phase == Complete {
        LateData(c, w, data);
      }
    case AbortUpdate =>
    case AddKey(key) =>
      AddKeyKeeps(c, w, key);
    case SetMin(major, minor, patch) =>
  }

  ghost function Run(c: Crypto, events: seq<Event>): (w: World)
    ensures Inv(c, w)
  {
    if events == [] then START
    else
      var before := Run(c, events[..|events| - 1]);
      StepKeeps(c, before, events[|events| - 1]);
      Step(c, before, events[|events| - 1])
  }

  /** Over any run of begins, writes, aborts, key additions and version changes, with the flash driver
      answering as it likes: a completed update had a header in the first 144 bytes of its stream whose version
      was not below the minimum in force when it was checked and whose signature a trusted key verifies;
      exactly firmwareSize bytes were flashed, they are the stream after the header, and their hash is the
      signed one. */
  lemma CompleteMeans(c: Crypto, events: seq<Event>)
    requires Run(c, events).s.phase == Complete
    ensures var w := Run(c, events);
      && |w.stream| >= HEADER_SIZE && w.s.header.Some? && HeaderOf(w.stream[..HEADER_SIZE]) == w.s.header
      && var h := w.s.header.value;
      && VersionOf(h) >= w.floor
      && h.publicKey in w.s.keys && c.verify(h.publicKey, h.firmwareHash, h.signature)
      && 0 < h.firmwareSize <= MAX_FIRMWARE_SIZE && |w.stream| >= HEADER_SIZE + h.firmwareSize
      && w.s.flash == w.stream[HEADER_SIZE..HEADER_SIZE + h.firmwareSize]
      && c.hash(w.s.flash) == h.firmwareHash
  {
    hide HeaderOf, VersionOf, Run;
    var w := Run(c, events);
    assert Inv(c, w);
    assert Body(w.stream)[..w.s.header.value.firmwareSize] == w.stream[HEADER_SIZE..HEADER_SIZE +
        w.s.header.value.firmwareSize];
  }

  // ---- Cutting the stream into writes ----

  const WORKING: Driver := Driver(true, true, 1, true, true, true)

  function WriteAll(c: Crypto, s: State, chunks: seq<Octets>): (t: State)
    requires s.headerReceived <= HEADER_SIZE == |s.headerBuf|
    ensures t.headerReceived <= HEADER_SIZE == |t.headerBuf|
  {
    if chunks == [] then s
    else
      WrittenShape(c, WriteAll(c, s, chunks[..|chunks| - 1]), chunks[|chunks| - 1]);
      Written(c, WriteAll(c, s, chunks[..|chunks| - 1]), chunks[|chunks| - 1], WORKING).0
  }

  lemma WrittenShape(c: Crypto, s: State, data: Octets)
    requires s.headerReceived <= HEADER_SIZE == |s.headerBuf|
    ensures Written(c, s, data, WORKING).0.headerReceived <= HEADER_SIZE == |Written(c, s, data, WORKING).0.headerBuf|
  {
    hide HeaderOf, Objection, FirmwareWritten;
    FirmwareShape(c, s, data);
    if s.phase == ReceivingHeader && HEADER_SIZE - s.headerReceived <= |data| {
      var needed := HEADER_SIZE - s.headerReceived;
      var t := Filled(s, data[..needed]);
      FirmwareShape(c, t.(header := HeaderOf(t.headerBuf), phase := Receiving), data[needed..]);
    }
  }

  lemma FirmwareShape(c: Crypto, s: State, data: Octets)
    ensures var t := FirmwareWritten(c, s, data, WORKING).0;
      t.headerReceived == s.headerReceived && t.headerBuf == s.headerBuf
  { }

  function Joined(chunks: seq<Octets>): Octets {
    if chunks == [] then [] else Joined(chunks[..|chunks| - 1]) + chunks[|chunks| - 1]
  }

  /** In the firmware's part of the stream two writes do what one does. */
  lemma FirmwareTwice(c: Crypto, s: State, a: Octets, b: Octets)
    requires s.phase == Receiving && s.headerReceived <= HEADER_SIZE == |s.headerBuf| && s.header.Some?
    requires s.bytesReceived <= s.header.value.firmwareSize <= MAX_FIRMWARE_SIZE
    requires s.header.value.firmwareSize > 0 ==> s.bytesReceived < s.header.value.firmwareSize
    ensures var t := FirmwareWritten(c, s, a, WORKING).0;
      && t.headerReceived <= HEADER_SIZE == |t.headerBuf|
      && Written(c, t, b, WORKING).0 == FirmwareWritten(c, s, a + b, WORKING).0
  {
    hide Percent, HeaderWritten;
    var left := s.header.value.firmwareSize - s.bytesReceived;
    assert Remaining(s.header.value.firmwareSize, s.bytesReceived) == left;
    if |a| >= left {
      assert (a + b)[..left] == a[..left];
    } else {
      ShortOfTheEnd(c, s, a, b);
    }
  }

  lemma ShortOfTheEnd(c: Crypto, s: State, a: Octets, b: Octets)
    requires s.phase == Receiving && s.headerReceived <= HEADER_SIZE == |s.headerBuf| && s.header.Some?
    requires s.bytesReceived + |a| < s.header.value.firmwareSize <= MAX_FIRMWARE_SIZE
    ensures var t := FirmwareWritten(c, s, a, WORKING).0;
      && t.headerReceived <= HEADER_SIZE == |t.headerBuf|
      && Written(c, t, b, WORKING).0 == FirmwareWritten(c, s, a + b, WORKING).0
  {
    hide Percent, HeaderWritten, Finished, Remaining;
    var size := s.header.value.firmwareSize;
    var left := size - s.bytesReceived;
    LeftOf(size, s.bytesReceived);
    LeftOf(size, s.bytesReceived + |a|);
    if a == [] {
      assert a + b == b;
    } else {
      var n := Least(|b|, left - |a|);
      assert a[..|a|] == a;
      assert (a + b)[..|a| + n] == a + b[..n];
      assert s.hashed + (a + b[..n]) == s.hashed + a + b[..n];
      assert s.flash + (a + b[..n]) == s.flash + a + b[..n];
    }
  }

  lemma LeftOf(size: nat, received: nat)
    requires received <= size <= MAX_FIRMWARE_SIZE
    ensures Remaining(size, received) == size - received
  {
  }

  lemma FillTwice(s: State, a: Octets, b: Octets)
    requires s.headerReceived + |a| + |b| <= HEADER_SIZE == |s.headerBuf|
    ensures Filled(Filled(s, a), b) == Filled(s, a + b)
  { }

  lemma FirmwareNothing(c: Crypto, s: State)
    ensures FirmwareWritten(c, s, [], WORKING).0 == s
  {
  }

  lemma JudgeTwice(c: Crypto, s: State, rest: Octets, b: Octets, copied: nat, copied': nat)
    requires s.phase == ReceivingHeader && s.headerReceived == HEADER_SIZE == |s.headerBuf| && s.bytesReceived == 0
    ensures var t := Judged(c, s, rest, copied, WORKING).0;
      && t.headerReceived <= HEADER_SIZE == |t.headerBuf|
      && Written(c, t, b, WORKING).0 == Judged(c, s, rest + b, copied', WORKING).0
  {
    hide HeaderOf, VersionOf, SignedBy, FirmwareWritten, Filled;
    if HeaderOf(s.headerBuf).None? {
      Unfilled(s);
      assert b[..0] == [];
    } else if Objection(c, s.keys, s.minVersion, HeaderOf(s.headerBuf).value).None? {
      var s1 := s.(header := HeaderOf(s.headerBuf), phase := Receiving);
      FirmwareNothing(c, s1);
      FirmwareTwice(c, s1, rest, b);
      assert rest == [] ==> rest + b == b;
    }
  }

  lemma Unfilled(s: State)
    requires s.headerReceived == HEADER_SIZE == |s.headerBuf|
    ensures Filled(s, []) == s
  { }

  lemma HeaderTwice(c: Crypto, s: State, a: Octets, b: Octets)
    requires s.phase == ReceivingHeader && s.headerReceived <= HEADER_SIZE == |s.headerBuf| && s.bytesReceived == 0
    ensures var t := HeaderWritten(c, s, a, WORKING).0;
      && t.headerReceived <= HEADER_SIZE == |t.headerBuf|
      && Written(c, t, b, WORKING).0 == HeaderWritten(c, s, a + b, WORKING).0
  {
    hide HeaderOf, FirmwareWritten, Judged;
    var needed := HEADER_SIZE - s.headerReceived;
    if |a| >= needed {
      assert (a + b)[..needed] == a[..needed] && (a + b)[needed..] == a[needed..] + b;
      JudgeTwice(c, Filled(s, a[..needed]), a[needed..], b, needed, needed);
    } else {
      var n := Least(|b|, needed - |a|);
      assert a[..|a|] == a && (a + b)[..|a| + n] == a + b[..n] && (a + b)[|a| + n..] == b[n..];
      FillTwice(s, a, b[..n]);
      JudgeCount(c, Filled(s, a + b[..n]), b[n..], n, |a| + n);
    }
  }

  lemma JudgeCount(c: Crypto, s: State, rest: Octets, m: nat, n: nat)
    ensures Judged(c, s, rest, m, WORKING).0 == Judged(c, s, rest, n, WORKING).0
  { }

  /** Between begin and any later point: reachable while a stream is being written. */
  ghost predicate Started(s: State) {
    && s.headerReceived <= HEADER_SIZE == |s.headerBuf|
    && !s.phase.Verifying? && !s.phase.Writing?
    && (s.phase == ReceivingHeader ==> s.bytesReceived == 0)
    && (s.phase == ReceivingHeader && s.headerReceived == HEADER_SIZE ==> HeaderOf(s.headerBuf) == None)
    && (s.phase == Receiving ==> s.header.Some? && s.bytesReceived <= s.header.value.firmwareSize <= MAX_FIRMWARE_SIZE)
    && (s.phase == Receiving && s.header.value.firmwareSize > 0 ==> s.bytesReceived < s.header.value.firmwareSize)
  }

  lemma WriteTwice(c: Crypto, s: State, a: Octets, b: Octets)
    requires Started(s)
    ensures var t := Written(c, s, a, WORKING).0;
      && t.headerReceived <= HEADER_SIZE == |t.headerBuf|
      && Written(c, t, b, WORKING).0 == Written(c, s, a + b, WORKING).0
  {
    hide HeaderOf, FirmwareWritten, HeaderWritten;
    if s.phase == ReceivingHeader {
      HeaderTwice(c, s, a, b);
    } else if s.phase == Receiving {
      FirmwareTwice(c, s, a, b);
    }
  }

  lemma WriteNothing(c: Crypto, s: State)
    requires Started(s)
    ensures Written(c, s, [], WORKING).0 == s
  {
    hide HeaderOf, FirmwareWritten;
    FirmwareNothing(c, s);
    assert Filled(s, []).headerBuf == s.headerBuf;
  }

  /** With the keys and minimum version fixed and the flash driver working, the manager ends in the same state,
      field for field, however the stream is cut into writes. */
  lemma {:induction false} CutsDoNotMatter(c: Crypto, s: State, chunks: seq<Octets>)
    requires Started(s)
    ensures WriteAll(c, s, chunks) == Written(c, s, Joined(chunks), WORKING).0
  {
    hide Written, Started;
    if chunks == [] {
      WriteNothing(c, s);
    } else {
      CutsDoNotMatter(c, s, chunks[..|chunks| - 1]);
      WriteTwice(c, s, Joined(chunks[..|chunks| - 1]), chunks[|chunks| - 1]);
    }
  }

  /** What a working driver's begin leaves is a state the two lemmas above apply to. */
  lemma BeginStarts(s: State)
    requires s.phase == Idle
    ensures Started(Begun(s, WORKING).0) && Begun(s, WORKING).0.phase == ReceivingHeader
  {
  }

  /** Which streams complete: exactly those with a readable header nothing is held against, at least as much
      firmware as it announces, more than none, and the announced hash. */
  lemma CompletesIff(c: Crypto, s: State, chunks: seq<Octets>)
    requires s.phase == Idle
    ensures WriteAll(c, Begun(s, WORKING).0, chunks).phase == Complete <==>
      var stream := Joined(chunks);
      && |stream| >= HEADER_SIZE && HeaderOf(stream[..HEADER_SIZE]).Some?
      && var h := HeaderOf(stream[..HEADER_SIZE]).value;
      && Objection(c, s.keys, s.minVersion, h) == None
      && 0 < h.firmwareSize <= |stream| - HEADER_SIZE
      && c.hash(stream[HEADER_SIZE..HEADER_SIZE + h.firmwareSize]) == h.firmwareHash
  {
    hide HeaderOf, VersionOf, SignedBy, WriteAll, Joined;
    var s0, stream := Begun(s, WORKING).0, Joined(chunks);
    BeginStarts(s);
    CutsDoNotMatter(c, s0, chunks);
    if |stream| >= HEADER_SIZE {
      assert Filled(s0, stream[..HEADER_SIZE]).headerBuf == stream[..HEADER_SIZE];
      var h := HeaderOf(stream[..HEADER_SIZE]);
      if h.Some? && h.value.firmwareSize <= |stream| - HEADER_SIZE {
        assert [] + stream[HEADER_SIZE..][..h.value.firmwareSize] == stream[HEADER_SIZE..HEADER_SIZE +
            h.value.firmwareSize];
      }
    }
  }
}
