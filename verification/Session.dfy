/** A ratcheting session: per-message keys from a hash chain, a new chain after every hundred
    messages sent, and stored keys for messages that were skipped. */
module Session {
  import opened StreamCipher
  import opened Words
  import opened Wrappers

  const MAX_MESSAGES_BEFORE_RATCHET := 100
  const MAX_SKIPPED_KEYS := 100
  const CAPACITY := 256  // of every message buffer

  datatype Info = RootKey | ChainKey | MessageKey

  /** HKDF salts: a counter's bytes or a label. */
  datatype Salt = Count(n: nat) | Text(text: string)

  datatype Header = Header(dhPublic: Key, prevChainLen: nat, messageNum: nat)

  /** The primitives beneath the protocol: functions of their inputs, otherwise arbitrary. */
  datatype Crypto = Crypto(
    hkdf: (Octets, Salt, Info) -> Key,
    dh: (Key, Key) -> Key,
    pub: Key -> Key,
    aes: Cipher,
    tagByte: (Key, Header, Octets, nat) -> bv8)
  {
    /** Both ends of a key agreement compute the same secret. */
    ghost predicate Agrees() {
      forall a, b :: dh(a, pub(b)) == dh(b, pub(a))
    }

    function Tag(key: Key, header: Header, ciphertext: Octets): (t: Octets)
      ensures |t| == 16
    {
      seq(16, i requires 0 <= i => tagByte(key, header, ciphertext, i))
    }
  }

  datatype SessionError = NotEstablished | InvalidFormat | DecryptionFailed | TooManySkipped

  datatype State = State(
    root: Key, sendChain: Key, recvChain: Key,
    sendPrivate: Key, sendPublic: Key, recvPublic: Key,
    sendCount: nat, recvCount: nat, prevRecvChain: nat,
    skipped: map<(Octets, nat), Key>, established: bool)

  // ---- What the operations do, as functions of the state ----

  function NextChain(c: Crypto, chain: Key): Key {
    c.hkdf(chain, Text("chain-advance"), ChainKey)
  }

  function KeyFor(c: Crypto, chain: Key, n: nat): Key {
    c.hkdf(chain, Count(n), MessageKey)
  }

  /** extend_from_slice on a bounded vector with its error dropped: all of the data or none of it. */
  function Push(v: Octets, data: Octets): Octets {
    if |v| + |data| <= CAPACITY then v + data else v
  }

  function Clamp(k: Key): Key {
    k[0 := k[0] & 248][31 := (k[31] & 127) | 64]
  }

  function Seal(c: Crypto, key: Key, header: Header, plaintext: Octets): Octets {
    var body := Crypt(c.aes, key, header.messageNum, Push([], plaintext));
    Push(body, c.Tag(key, header, body))
  }

  function SendRatchet(c: Crypto, s: State, random: Key): State {
    var private := Clamp(random);
    var input := s.root + c.dh(private, s.recvPublic);
    s.(root := c.hkdf(input, Text("root"), RootKey), sendChain := c.hkdf(input, Text("chain"), ChainKey),
       sendPrivate := private, sendPublic := c.pub(private), prevRecvChain := s.recvCount, sendCount := 0)
  }

  /** random is what the random generator would supply if this message ends the chain. */
  function Encrypted(c: Crypto, s: State, plaintext: Octets, random: Key): (State, Result<(Header, Octets),
      SessionError>) {
    if !s.established then (s, Err(NotEstablished))
    else
      var header := Header(s.sendPublic, s.prevRecvChain, s.sendCount);
      var sealed := Seal(c, KeyFor(c, s.sendChain, s.sendCount), header, plaintext);
      var s' := s.(sendChain := NextChain(c, s.sendChain), sendCount := s.sendCount + 1);
      (if s'.sendCount >= MAX_MESSAGES_BEFORE_RATCHET then SendRatchet(c, s', random) else s', Ok((header, sealed)))
  }

  function RecvRatchet(c: Crypto, s: State, theirs: Key): State {
    var input := s.root + c.dh(s.sendPrivate, theirs);
    s.(root := c.hkdf(input, Text("root"), RootKey), recvChain := c.hkdf(input, Text("chain"), ChainKey),
       recvPublic := theirs, recvCount := 0)
  }

  /** The key of the next number in the receiving chain is put aside. */
  function SkipOne(c: Crypto, s: State): State {
    s.(skipped := s.skipped[(s.recvPublic[..8], s.recvCount) := KeyFor(c, s.recvChain, s.recvCount)],
       recvChain := NextChain(c, s.recvChain), recvCount := s.recvCount + 1)
  }

  function SkipTo(c: Crypto, s: State, until: nat): State
    decreases until - s.recvCount
  {
    if s.recvCount < until then SkipTo(c, SkipOne(c, s), until) else s
  }

  /** The count to skip is compared as a usize, 32 bits wide on the target. */
  predicate TooMany(recvCount: nat, until: nat) {
    var toSkip := if until > recvCount then until - recvCount else 0;
    toSkip % 0x1_0000_0000 > MAX_SKIPPED_KEYS
  }

  function TakeKey(c: Crypto, s: State, header: Header): (State, Result<Key, SessionError>) {
    var id := (header.dhPublic[..8], header.messageNum);
    if id in s.skipped then
      (s.(skipped := s.skipped - {id}), Ok(s.skipped[id]))
    else if header.messageNum > s.recvCount && TooMany(s.recvCount, header.messageNum) then
      (s, Err(TooManySkipped))
    else
      var s' := SkipTo(c, s, header.messageNum);
      (s'.(recvChain := NextChain(c, s'.recvChain), recvCount := header.messageNum + 1),
       Ok(KeyFor(c, s'.recvChain, header.messageNum)))
  }

  function Open(c: Crypto, key: Key, header: Header, ciphertext: Octets): Result<Octets, SessionError>
    requires |ciphertext| >= 16
  {
    var tagStart := |ciphertext| - 16;
    var body := ciphertext[..tagStart];
    if ciphertext[tagStart..] != c.Tag(key, header, body) then Err(DecryptionFailed)
    else Ok(Crypt(c.aes, key, header.messageNum, Push([], body)))
  }

  function Decrypted(c: Crypto, s: State, header: Header, ciphertext: Octets): (State, Result<Octets, SessionError>) {
    if !s.established then (s, Err(NotEstablished))
    else if |ciphertext| < 16 then (s, Err(InvalidFormat))
    else if header.dhPublic != s.recvPublic && TooMany(s.recvCount, header.prevChainLen) then (s, Err(TooManySkipped))
    else
      var s1 :=
        if header.dhPublic == s.recvPublic then s
        else RecvRatchet(c, SkipTo(c, s, header.prevChainLen), header.dhPublic);
      var (s2, key) := TakeKey(c, s1, header);
      match key
      case Err(e) => (s2, Err(e))
      case Ok(k) => (s2, Open(c, k, header, ciphertext))
  }

  // ---- The object ----

  class SessionObject {
    var root: Key
    var sendChain: Key
    var recvChain: Key
    var sendPrivate: Key
    var sendPublic: Key
    var recvPublic: Key
    var sendCount: nat
    var recvCount: nat
    var prevRecvChain: nat
    var skipped: map<(Octets, nat), Key>
    var established: bool

    function Abs(): State
      reads this
    {
      State(root, sendChain, recvChain, sendPrivate, sendPublic, recvPublic,
            sendCount, recvCount, prevRecvChain, skipped, established)
    }

    method AdvanceSendRatchet(c: Crypto, random: Key)
      modifies this
      ensures Abs() == SendRatchet(c, old(Abs()), random)
    {
      hide Clamp;
      var newPrivate := Clamp(random);
      var newPublic := c.pub(newPrivate);
      var dhOutput := c.dh(newPrivate, recvPublic);
      var kdfInput := root + dhOutput;
      root := c.hkdf(kdfInput, Text("root"), RootKey);
      sendChain := c.hkdf(kdfInput, Text("chain"), ChainKey);
      sendPrivate := newPrivate;
      sendPublic := newPublic;
      prevRecvChain := recvCount;
      sendCount := 0;
    }

    method Encrypt(c: Crypto, plaintext: Octets, random: Key) returns (r: Result<(Header, Octets), SessionError>)
      modifies this
      ensures (Abs(), r) == Encrypted(c, old(Abs()), plaintext, random)
    {
      if !established {
        return Err(NotEstablished);
      }
      var messageKey := KeyFor(c, sendChain, sendCount);
      sendChain := NextChain(c, sendChain);
      var header := Header(sendPublic, prevRecvChain, sendCount);
      var ciphertext := Push([], plaintext);
      ciphertext := CryptCopy(c.aes, messageKey, sendCount, ciphertext);
      var tag := c.Tag(messageKey, header, ciphertext);
      ciphertext := Push(ciphertext, tag);
      sendCount := sendCount + 1;
      if sendCount >= MAX_MESSAGES_BEFORE_RATCHET {
        AdvanceSendRatchet(c, random);
      }
      r := Ok((header, ciphertext));
    }

    method AdvanceRecvRatchet(c: Crypto, theirs: Key)
      modifies this
      ensures Abs() == RecvRatchet(c, old(Abs()), theirs)
    {
      var dhOutput := c.dh(sendPrivate, theirs);
      var kdfInput := root + dhOutput;
      root := c.hkdf(kdfInput, Text("root"), RootKey);
      recvChain := c.hkdf(kdfInput, Text("chain"), ChainKey);
      recvPublic := theirs;
      recvCount := 0;
    }

    method SkipMessageKeys(c: Crypto, until: nat) returns (r: Result<(), SessionError>)
      modifies this
      ensures if TooMany(old(recvCount), until) then r == Err(TooManySkipped) && Abs() == old(Abs())
              else r == Ok(()) && Abs() == SkipTo(c, old(Abs()), until)
    {
      hide NextChain, KeyFor;
      var toSkip := if until > recvCount then until - recvCount else 0;
      if toSkip % 0x1_0000_0000 > MAX_SKIPPED_KEYS {
        return Err(TooManySkipped);
      }
      while recvCount < until
        invariant SkipTo(c, Abs(), until) == SkipTo(c, old(Abs()), until)
        decreases until - recvCount
      {
        var messageKey := KeyFor(c, recvChain, recvCount);
        skipped := skipped[(recvPublic[..8], recvCount) := messageKey];
        recvChain := NextChain(c, recvChain);
        recvCount := recvCount + 1;
      }
      r := Ok(());
    }

    method GetMessageKey(c: Crypto, header: Header) returns (r: Result<Key, SessionError>)
      modifies this
      ensures (Abs(), r) == TakeKey(c, old(Abs()), header)
    {
      var id := (header.dhPublic[..8], header.messageNum);
      if id in skipped {
        var key := skipped[id];
        skipped := skipped - {id};
        return Ok(key);
      }
      if header.messageNum > recvCount {
        var skip := SkipMessageKeys(c, header.messageNum);
        if skip.Err? {
          return Err(skip.error);
        }
      }
      var messageKey := KeyFor(c, recvChain, header.messageNum);
      recvChain := NextChain(c, recvChain);
      recvCount := header.messageNum + 1;
      r := Ok(messageKey);
    }

    method Decrypt(c: Crypto, header: Header, ciphertext: Octets) returns (r: Result<Octets, SessionError>)
      modifies this
      ensures (Abs(), r) == Decrypted(c, old(Abs()), header, ciphertext)
    {
      if !established {
        return Err(NotEstablished);
      }
      if |ciphertext| < 16 {
        return Err(InvalidFormat);
      }
      if header.dhPublic != recvPublic {
        var skip := SkipMessageKeys(c, header.prevChainLen);
        if skip.Err? {
          return Err(skip.error);
        }
        AdvanceRecvRatchet(c, header.dhPublic);
      }
      var key := GetMessageKey(c, header);
      if key.Err? {
        return Err(key.error);
      }
      var tagStart := |ciphertext| - 16;
      var receivedTag := ciphertext[tagStart..];
      var body := ciphertext[..tagStart];
      if receivedTag != c.Tag(key.value, header, body) {
        return Err(DecryptionFailed);
      }
      var plaintext := CryptCopy(c.aes, key.value, header.messageNum, Push([], body));
      r := Ok(plaintext);
    }
  }
}
