/** Over-the-air update: a signed header, then the firmware, written to flash as it arrives and accepted
    only if its hash is the signed one. */
module Ota {
  import opened Words
  import opened Wrappers

  const HEADER_SIZE := 144
  const MAX_FIRMWARE_SIZE := 3_584_000
  const MAGIC: Octets := [0x4C, 0x55, 0x4E, 0x41]
  const HEADER_VERSION: bv8 := 1
  const MAX_KEYS := 2

  datatype Header = Header(
    headerSize: bv8, major: bv8, minor: bv8, patch: bv8, reserved: Octets, firmwareSize: nat,
    firmwareHash: Octets, signature: Octets, publicKey: Octets)

  datatype OtaError =
    | InvalidHeader | SignatureInvalid | HashMismatch | TooLarge | FlashError | PartitionError
    | Busy | Aborted | DowngradeRejected | NoTrustedKeys

  datatype Phase = Idle | ReceivingHeader | Receiving | Verifying | Writing | Complete | Error(error: OtaError)

  /** SHA-256 and Ed25519 verification: functions of their inputs, otherwise arbitrary. */
  datatype Crypto = Crypto(hash: Octets -> Octets, verify: (Octets, Octets, Octets) -> bool)

  /** What the flash driver's calls answer during one operation. */
  datatype Driver = Driver(partition: bool, beginOk: bool, handle: bv32, writeOk: bool, endOk: bool, bootOk: bool)

  /** The manager's fields; hashed is what its hasher has taken in, flash what the driver has written
      to the update partition since it was opened. */
  datatype State = State(
    phase: Phase, headerBuf: Octets, headerReceived: nat, header: Option<Header>, bytesReceived: nat,
    hashed: Octets, handle: bv32, keys: seq<Octets>, progress: nat, minVersion: nat, flash: Octets)

  function SizeOf(data: Octets): nat
    requires |data| >= HEADER_SIZE
  {
    WordOf(data[12], data[13], data[14], data[15]) as nat
  }

  function HeaderOf(data: Octets): Option<Header> {
    if |data| < HEADER_SIZE || data[0..4] != MAGIC || data[4] != HEADER_VERSION then None
    else Some(Header(data[5], data[6], data[7], data[8], data[9..12], SizeOf(data), data[16..48], data[48..112],
        data[112..144]))
  }

  function PackVersion(major: bv8, minor: bv8, patch: bv8): nat {
    (((major as bv32) << 16) | ((minor as bv32) << 8) | (patch as bv32)) as nat
  }

  function VersionOf(h: Header): nat {
    PackVersion(h.major, h.minor, h.patch)
  }

  predicate SignedBy(c: Crypto, keys: seq<Octets>, h: Header) {
    h.publicKey in keys && c.verify(h.publicKey, h.firmwareHash, h.signature)
  }

  // ---- What the operations do ----

  const FRESH := State(Idle, Zeros(HEADER_SIZE), 0, None, 0, [], 0, [], 0, 0, [])

  function KeyAdded(s: State, key: Octets): State {
    if |s.keys| >= MAX_KEYS then s else s.(keys := s.keys + [key])
  }

  function Begun(s: State, d: Driver): (State, Result<(), OtaError>) {
    if s.phase != Idle then (s, Err(Busy))
    else
      var s1 := s.(headerBuf := Zeros(HEADER_SIZE), headerReceived := 0, header := None,
                   bytesReceived := 0, hashed := [], progress := 0);
      if !d.partition then (s1, Err(PartitionError))
      else if !d.beginOk then (s1, Err(FlashError))
      else (s1.(handle := d.handle, phase := ReceivingHeader, flash := []), Ok(()))
  }

  function Stopped(s: State): State {
    s.(handle := 0, phase := Idle)
  }

  function Finished(c: Crypto, s: State, d: Driver): (State, Result<(), OtaError>) {
    if s.header.None? then (s, Err(InvalidHeader))
    else if c.hash(s.hashed) != s.header.value.firmwareHash then (Stopped(s), Err(HashMismatch))
    else if !d.endOk then (s.(phase := Error(FlashError)), Err(FlashError))
    else if !d.bootOk then (s.(phase := Error(PartitionError)), Err(PartitionError))
    else (s.(phase := Complete, progress := 100), Ok(()))
  }

  /** The size less what has come, as a 32-bit difference. */
  function Remaining(size: nat, received: nat): nat {
    (size - received) % 0x1_0000_0000
  }

  function Least(a: nat, b: nat): nat {
    if a < b then a else b
  }

  function FirmwareWritten(c: Crypto, s: State, data: Octets, d: Driver): (State, Result<nat, OtaError>) {
    if s.header.None? then (s, Err(InvalidHeader))
    else
      var size := s.header.value.firmwareSize;
      var toWrite := Least(|data|, Remaining(size, s.bytesReceived));
      if toWrite == 0 then (s, Ok(0))
      else
        var s1 := s.(hashed := s.hashed + data[..toWrite]);
        if !d.writeOk then (s1.(phase := Error(FlashError)), Err(FlashError))
        else
          var received := s.bytesReceived + toWrite;
          var s2 := s1.(flash := s.flash + data[..toWrite], bytesReceived := received,
              progress := Percent(received, size));
          if received >= size then
            var (s3, r) := Finished(c, s2.(phase := Verifying), d);
            (s3, if r.Ok? then Ok(toWrite) else Err(r.error))
          else (s2, Ok(toWrite))
  }

  function Percent(received: nat, size: nat): nat {
    if size == 0 then 0 else (received * 100 / size) % 256
  }

  /** The error a complete header meets, if any, in the order the checks are made. */
  function Objection(c: Crypto, keys: seq<Octets>, minVersion: nat, h: Header): Option<OtaError> {
    if h.firmwareSize > MAX_FIRMWARE_SIZE then Some(TooLarge)
    else if keys == [] then Some(NoTrustedKeys)
    else if VersionOf(h) < minVersion then Some(DowngradeRejected)
    else if !SignedBy(c, keys, h) then Some(SignatureInvalid)
    else None
  }

  /** The header buffer takes in more of the header. */
  function Filled(s: State, data: Octets): (t: State)
    requires s.headerReceived + |data| <= HEADER_SIZE == |s.headerBuf|
    ensures t.headerReceived <= HEADER_SIZE == |t.headerBuf|
  {
    s.(headerBuf := s.headerBuf[..s.headerReceived] + data + s.headerBuf[s.headerReceived + |data|..],
       headerReceived := s.headerReceived + |data|)
  }

  /** A complete header is judged; if it passes, the rest of the data is firmware. */
  function Judged(c: Crypto, s: State, rest: Octets, copied: nat, d: Driver): (State, Result<nat, OtaError>) {
    if HeaderOf(s.headerBuf).None? then (s, Err(InvalidHeader))
    else
      var h := HeaderOf(s.headerBuf).value;
      var objection := Objection(c, s.keys, s.minVersion, h);
      if objection.Some? then (s.(phase := Error(objection.value)), Err(objection.value))
      else
        var s1 := s.(header := Some(h), phase := Receiving);
        if rest != [] then
          var (s2, r) := FirmwareWritten(c, s1, rest, d);
          (s2, if r.Ok? then Ok(copied + r.value) else r)
        else (s1, Ok(copied))
  }

  function HeaderWritten(c: Crypto, s: State, data: Octets, d: Driver): (State, Result<nat, OtaError>)
    requires s.headerReceived <= HEADER_SIZE == |s.headerBuf|
  {
    var toCopy := Least(|data|, HEADER_SIZE - s.headerReceived);
    var s1 := Filled(s, data[..toCopy]);
    if s1.headerReceived < HEADER_SIZE then (s1, Ok(toCopy))
    else Judged(c, s1, data[toCopy..], toCopy, d)
  }

  function Written(c: Crypto, s: State, data: Octets, d: Driver): (State, Result<nat, OtaError>)
    requires s.headerReceived <= HEADER_SIZE == |s.headerBuf|
  {
    match s.phase
    case Idle => (s, Err(Aborted))
    case Error(e) => (s, Err(e))
    case ReceivingHeader => HeaderWritten(c, s, data, d)
    case Receiving => FirmwareWritten(c, s, data, d)
    case Writing => FirmwareWritten(c, s, data, d)
    case _ => (s, Ok(0))
  }

  // ---- The manager ----

  class OtaManager {
    var phase: Phase
    const headerBuf: array<bv8>
    var headerReceived: nat
    var header: Option<Header>
    var bytesReceived: nat
    var hashed: Octets
    var handle: bv32
    var keys: seq<Octets>
    var progress: nat
    var minVersion: nat
    ghost var flash: Octets

    ghost predicate Valid()
      reads this, headerBuf
    {
      headerReceived <= HEADER_SIZE == headerBuf.Length
    }

    ghost function Abs(): State
      reads this, headerBuf
    {
      State(phase, headerBuf[..], headerReceived, header, bytesReceived, hashed, handle, keys, progress, minVersion,
          flash)
    }

    constructor ()
      ensures Valid() && fresh(headerBuf) && Abs() == FRESH
    {
      phase := Idle;
      headerBuf := new bv8[HEADER_SIZE](i => 0);
      headerReceived, header, bytesReceived, hashed := 0, None, 0, [];
      handle, keys, progress, minVersion, flash := 0, [], 0, 0, [];
      new;
      assert headerBuf[..] == FRESH.headerBuf;
    }

    method AddTrustedKey(key: Octets) returns (added: bool)
      requires Valid()
      modifies this
      ensures Valid() && Abs() == KeyAdded(old(Abs()), key) && added == (|old(keys)| < MAX_KEYS)
    {
      if |keys| >= MAX_KEYS {
        return false;
      }
      keys := keys + [key];
      added := true;
    }

    method SetMinVersion(major: bv8, minor: bv8, patch: bv8)
      requires Valid()
      modifies this
      ensures Valid() && Abs() == old(Abs()).(minVersion := PackVersion(major, minor, patch))
    {
      hide PackVersion;
      minVersion := PackVersion(major, minor, patch);
    }

    method Begin(d: Driver) returns (r: Result<(), OtaError>)
      requires Valid()
      modifies this, headerBuf
      ensures Valid() && (Abs(), r) == Begun(old(Abs()), d)
    {
      if phase != Idle {
        return Err(Busy);
      }
      forall i | 0 <= i < headerBuf.Length {
        headerBuf[i] := 0;
      }
      assert headerBuf[..] == Zeros(HEADER_SIZE);
      headerReceived, header, bytesReceived, hashed, progress := 0, None, 0, [], 0;
      if !d.partition {
        return Err(PartitionError);
      }
      if !d.beginOk {
        return Err(FlashError);
      }
      handle := d.handle;
      flash := [];
      phase := ReceivingHeader;
      r := Ok(());
    }

    method Abort()
      requires Valid()
      modifies this
      ensures Valid() && Abs() == Stopped(old(Abs()))
    {
      if handle != 0 {
        handle := 0;
      }
      phase := Idle;
    }

    method VerifySignature(c: Crypto, h: Header) returns (ok: bool)
      ensures ok == SignedBy(c, keys, h)
    {
      var i := 0;
      while i < |keys|
        invariant 0 <= i <= |keys|
        invariant forall k :: 0 <= k < i ==>
          !(keys[k] == h.publicKey && c.verify(h.publicKey, h.firmwareHash, h.signature))
      {
        if h.publicKey == keys[i] {
          if c.verify(h.publicKey, h.firmwareHash, h.signature) {
            return true;
          }
        }
        i := i + 1;
      }
      ok := false;
    }

    method VerifyAndFinish(c: Crypto, d: Driver) returns (r: Result<(), OtaError>)
      requires Valid()
      modifies this
      ensures Valid() && (Abs(), r) == Finished(c, old(Abs()), d)
    {
      if header.None? {
        return Err(InvalidHeader);
      }
      var computedHash := c.hash(hashed);
      if computedHash != header.value.firmwareHash {
        phase := Error(HashMismatch);
        Abort();
        return Err(HashMismatch);
      }
      if !d.endOk {
        phase := Error(FlashError);
        return Err(FlashError);
      }
      if !d.bootOk {
        phase := Error(PartitionError);
        return Err(PartitionError);
      }
      phase := Complete;
      progress := 100;
      r := Ok(());
    }

    method WriteFirmware(c: Crypto, data: Octets, d: Driver) returns (r: Result<nat, OtaError>)
      requires Valid()
      modifies this
      ensures Valid() && (Abs(), r) == FirmwareWritten(c, old(Abs()), data, d)
    {
      hide Percent, Remaining, Finished;
      if header.None? {
        return Err(InvalidHeader);
      }
      var remaining := Remaining(header.value.firmwareSize, bytesReceived);
      var toWrite := Least(|data|, remaining);
      if toWrite == 0 {
        return Ok(0);
      }
      hashed := hashed + data[..toWrite];
      if !d.writeOk {
        phase := Error(FlashError);
        return Err(FlashError);
      }
      flash := flash + data[..toWrite];
      bytesReceived := bytesReceived + toWrite;
      progress := Percent(bytesReceived, header.value.firmwareSize);
      if bytesReceived >= header.value.firmwareSize {
        phase := Verifying;
        var finish := VerifyAndFinish(c, d);
        if finish.Err? {
          return Err(finish.error);
        }
      }
      r := Ok(toWrite);
    }

    method CopyHeader(data: Octets)
      requires Valid() && headerReceived + |data| <= HEADER_SIZE
      modifies headerBuf
      ensures headerBuf[..] == old(headerBuf[..headerReceived]) + data + old(headerBuf[headerReceived + |data|..])
    {
      forall i | 0 <= i < |data| {
        headerBuf[headerReceived + i] := data[i];
      }
    }

    method WriteHeader(c: Crypto, data: Octets, d: Driver) returns (r: Result<nat, OtaError>)
      requires Valid()
      modifies this, headerBuf
      ensures Valid() && (Abs(), r) == HeaderWritten(c, old(Abs()), data, d)
    {
      hide FirmwareWritten, HeaderOf, VersionOf, SignedBy;
      var needed := HEADER_SIZE - headerReceived;
      var toCopy := Least(|data|, needed);
      CopyHeader(data[..toCopy]);
      headerReceived := headerReceived + toCopy;
      if headerReceived >= HEADER_SIZE {
        var parsed := HeaderOf(headerBuf[..]);
        if parsed.None? {
          return Err(InvalidHeader);
        }
        var h := parsed.value;
        if h.firmwareSize > MAX_FIRMWARE_SIZE {
          phase := Error(TooLarge);
          return Err(TooLarge);
        }
        if |keys| == 0 {
          phase := Error(NoTrustedKeys);
          return Err(NoTrustedKeys);
        }
        if VersionOf(h) < minVersion {
          phase := Error(DowngradeRejected);
          return Err(DowngradeRejected);
        }
        var signed := VerifySignature(c, h);
        if !signed {
          phase := Error(SignatureInvalid);
          return Err(SignatureInvalid);
        }
        header := Some(h);
        phase := Receiving;
        if toCopy < |data| {
          r := WriteFirmware(c, data[toCopy..], d);
          if r.Ok? {
            r := Ok(toCopy + r.value);
          }
          return;
        }
      }
      r := Ok(toCopy);
    }

    method Write(c: Crypto, data: Octets, d: Driver) returns (r: Result<nat, OtaError>)
      requires Valid()
      modifies this, headerBuf
      ensures Valid() && (Abs(), r) == Written(c, old(Abs()), data, d)
    {
      hide FirmwareWritten, HeaderWritten;
      match phase {
        case Idle => r := Err(Aborted);
        case Error(e) => r := Err(e);
        case ReceivingHeader => r := WriteHeader(c, data, d);
        case Receiving => r := WriteFirmware(c, data, d);
        case Writing => r := WriteFirmware(c, data, d);
        case _ => r := Ok(0);
      }
    }
  }
}
