/** One-way runs of a session: a sender encrypts, messages are lost and reordered, a receiver decrypts. */
module SessionRun {
  import opened StreamCipher
  import opened Words
  import opened Wrappers
  import opened Session

  // ---- Single messages ----

  /** What is sealed opens to itself exactly when it leaves room for the tag in the buffer. */
  lemma OpenSealed(c: Crypto, key: Key, header: Header, plaintext: Octets)
    ensures |Seal(c, key, header, plaintext)| >= 16
    ensures Open(c, key, header, Seal(c, key, header, plaintext)) == Ok(plaintext) <==> |plaintext| <= CAPACITY - 16
  {
    var pushed := Push([], plaintext);
    var body := Crypt(c.aes, key, header.messageNum, pushed);
    var tag := c.Tag(key, header, body);
    var sealed := Seal(c, key, header, plaintext);
    CryptTwice(c.aes, key, header.messageNum, pushed);
    if |plaintext| <= CAPACITY - 16 {
      assert [] + plaintext == plaintext && [] + body == body;
      assert sealed == body + tag && sealed[..|sealed| - 16] == body && sealed[|sealed| - 16..] == tag;
      assert Push([], body) == body;
    } else if |plaintext| <= CAPACITY {
      assert sealed == body;
    } else {
      assert pushed == [] && |sealed| == 16;
    }
  }

  // ---- Chains ----

  function Chain(c: Crypto, chain: Key, k: nat): Key {
    if k == 0 then chain else NextChain(c, Chain(c, chain, k - 1))
  }

  lemma {:induction false} ChainFront(c: Crypto, chain: Key, k: nat)
    ensures Chain(c, NextChain(c, chain), k) == Chain(c, chain, k + 1)
  {
    if k > 0 {
      ChainFront(c, chain, k - 1);
    }
  }

  lemma {:induction false} ChainAdd(c: Crypto, chain: Key, j: nat, k: nat)
    ensures Chain(c, Chain(c, chain, j), k) == Chain(c, chain, j + k)
  {
    if k > 0 {
      ChainAdd(c, chain, j, k - 1);
    }
  }

  /** Skipping to a number advances the chain and stores exactly the keys passed over. */
  lemma {:induction false} SkipStores(c: Crypto, s: State, until: nat)
    ensures var t := SkipTo(c, s, until);
      var m := if until > s.recvCount then until else s.recvCount;
      && t == s.(skipped := t.skipped, recvChain := Chain(c, s.recvChain, m - s.recvCount), recvCount := m)
      && (forall p: Octets, n: nat :: ((p, n) in t.skipped) <==>
           ((p, n) in s.skipped || (p == s.recvPublic[..8] && s.recvCount <= n < m)))
      && (forall p: Octets, n: nat :: (p, n) in t.skipped ==>
           (t.skipped[(p, n)] ==
            if p == s.recvPublic[..8] && s.recvCount <= n < m
            then KeyFor(c, Chain(c, s.recvChain, n - s.recvCount), n) else s.skipped[(p, n)]))
    decreases until - s.recvCount
  {
    hide KeyFor, NextChain;
    if s.recvCount < until {
      var s1 := SkipOne(c, s);
      SkipStores(c, s1, until);
      forall k: nat ensures Chain(c, s1.recvChain, k) == Chain(c, s.recvChain, k + 1) {
        ChainFront(c, s.recvChain, k);
      }
    }
  }

  // ---- The sender's side of a run ----

  datatype Run = Run(c: Crypto, sender: State, receiver: State, plain: seq<Octets>, random: seq<Key>)

  ghost predicate Sized(run: Run) {
    |run.random| == |run.plain| && run.sender.established && run.sender.sendCount < 100
  }

  function SenderAt(run: Run, i: nat): State
    requires |run.random| == |run.plain| && i <= |run.plain|
  {
    if i == 0 then run.sender
    else Encrypted(run.c, SenderAt(run, i - 1), run.plain[i - 1], run.random[i - 1]).0
  }

  /** Position of message i: which sending chain, and where in it. */
  function Epoch(run: Run, i: nat): nat { (run.sender.sendCount + i) / 100 }
  function Num(run: Run, i: nat): nat { (run.sender.sendCount + i) % 100 }

  /** The first message of an epoch, and its number. */
  function First(run: Run, e: nat): nat
    requires run.sender.sendCount < 100
  {
    if e == 0 then 0 else 100 * e - run.sender.sendCount
  }

  function Base(run: Run, e: nat): nat {
    if e == 0 then run.sender.sendCount else 0
  }

  /** The message with a given number of an epoch. */
  function At(run: Run, e: nat, n: nat): int
    requires run.sender.sendCount < 100
  {
    First(run, e) + n - Base(run, e)
  }

  /** The sender's state when an epoch opens. */
  function Opening(run: Run, e: nat): State
    requires Sized(run) && First(run, e) <= |run.plain|
  {
    SenderAt(run, First(run, e))
  }

  /** Each message moves one place on; the last place of an epoch is 99. */
  lemma Places(run: Run, i: nat)
    requires run.sender.sendCount < 100
    ensures First(run, Epoch(run, i)) <= i && Base(run, Epoch(run, i)) + i - First(run, Epoch(run, i)) == Num(run, i)
    ensures Num(run, i) < 99 ==> Epoch(run, i + 1) == Epoch(run, i) && Num(run, i + 1) == Num(run, i) + 1
    ensures Num(run, i) == 99 ==> Epoch(run, i + 1) == Epoch(run, i) + 1 && Num(run, i + 1) == 0
                                  && First(run, Epoch(run, i + 1)) == i + 1
    ensures Num(run, i) == 99 ==> i + 1 == First(run, Epoch(run, i) + 1)
    ensures Epoch(run, 0) == 0 && Num(run, 0) == run.sender.sendCount && Num(run, i) < 100
  {
  }

  /** What one message does to the sender. */
  lemma SenderStep(c: Crypto, s: State, plaintext: Octets, random: Key)
    requires s.established && s.sendCount < 100
    ensures var t := s.(sendChain := NextChain(c, s.sendChain), sendCount := s.sendCount + 1);
      Encrypted(c, s, plaintext, random).0 == if s.sendCount == 99 then SendRatchet(c, t, random) else t
    ensures Encrypted(c, s, plaintext, random).1.Ok?
  { }

  /** Inside an epoch only the chain and the counter move. */
  ghost predicate Within(run: Run, e: nat, i: nat)
    requires Sized(run) && i <= |run.plain|
  {
    && First(run, e) <= i
    && var s := Opening(run, e);
    && s.established && s.recvCount == run.sender.recvCount && s.recvPublic == run.sender.recvPublic
    && s.prevRecvChain == (if e == 0 then run.sender.prevRecvChain else run.sender.recvCount)
    && SenderAt(run, i) == s.(sendChain := Chain(run.c, s.sendChain, i - First(run, e)), sendCount := Num(run, i))
  }

  lemma {:induction false} SenderInEpoch(run: Run, i: nat)
    requires Sized(run) && i <= |run.plain|
    ensures Within(run, Epoch(run, i), i)
  {
    hide SendRatchet, NextChain, Encrypted, Epoch, Num, First;
    Places(run, i);
    if i == 0 {
      Places(run, 0);
    } else {
      Places(run, i - 1);
      SenderInEpoch(run, i - 1);
      SenderStep(run.c, SenderAt(run, i - 1), run.plain[i - 1], run.random[i - 1]);
      if Num(run, i - 1) == 99 {
        RatchetKeeps(run.c, SenderAt(run, i - 1), run.random[i - 1]);
      }
    }
  }

  lemma RatchetKeeps(c: Crypto, s: State, random: Key)
    requires s.sendCount == 99
    ensures var t := SendRatchet(c, s.(sendChain := NextChain(c, s.sendChain), sendCount := 100), random);
      && t.established == s.established && t.recvCount == s.recvCount && t.recvPublic == s.recvPublic
      && t.prevRecvChain == s.recvCount && t.sendCount == 0
      && t.sendPublic == c.pub(Clamp(random))
      && var input := s.root + c.dh(Clamp(random), s.recvPublic);
      && t.root == c.hkdf(input, Text("root"), RootKey) && t.sendChain == c.hkdf(input, Text("chain"), ChainKey)
  { }

  /** The last message of an epoch opens the next one: a fresh pair, agreed with the receiver's public key. */
  lemma EpochStep(run: Run, e: nat)
    requires Sized(run) && First(run, e + 1) <= |run.plain|
    ensures First(run, e) < First(run, e + 1)
    ensures var private := Clamp(run.random[First(run, e + 1) - 1]);
      var input := Opening(run, e).root + run.c.dh(private, run.sender.recvPublic);
      var next := Opening(run, e + 1);
      && next.root == run.c.hkdf(input, Text("root"), RootKey)
      && next.sendChain == run.c.hkdf(input, Text("chain"), ChainKey)
      && next.sendPublic == run.c.pub(private)
  {
    hide Clamp, SendRatchet, NextChain, Encrypted;
    var i := First(run, e + 1) - 1;
    assert run.sender.sendCount + i == 100 * e + 99;
    assert Epoch(run, i) == e && Num(run, i) == 99;
    SenderInEpoch(run, i);
    var s := SenderAt(run, i);
    SenderStep(run.c, s, run.plain[i], run.random[i]);
    RatchetKeeps(run.c, s, run.random[i]);
  }

  /** What travels for message i. */
  function Wire(run: Run, i: nat): (Header, Octets)
    requires Sized(run) && i < |run.plain|
  {
    SenderInEpoch(run, i);
    Encrypted(run.c, SenderAt(run, i), run.plain[i], run.random[i]).1.value
  }

  function Prefix(run: Run, e: nat): Octets
    requires Sized(run) && First(run, e) <= |run.plain|
  {
    Opening(run, e).sendPublic[..8]
  }

  function MessageKeyAt(run: Run, e: nat, n: nat): Key
    requires Sized(run) && First(run, e) <= |run.plain| && Base(run, e) <= n
  {
    KeyFor(run.c, Chain(run.c, Opening(run, e).sendChain, n - Base(run, e)), n)
  }

  /** A message is sealed under the key at its place in its epoch's chain. */
  lemma WireIs(run: Run, i: nat)
    requires Sized(run) && i < |run.plain|
    ensures var e, n := Epoch(run, i), Num(run, i);
      && First(run, e) <= i && Base(run, e) <= n < 100
      && Wire(run, i).0.dhPublic == Opening(run, e).sendPublic
      && Wire(run, i).0.messageNum == n
      && Wire(run, i).0.prevChainLen == (if e == 0 then run.sender.prevRecvChain else run.sender.recvCount)
      && Wire(run, i).1 == Seal(run.c, MessageKeyAt(run, e, n), Wire(run, i).0, run.plain[i])
  {
    hide Seal, SendRatchet;
    SenderInEpoch(run, i);
  }

  // ---- The receiver's side ----

  /** The two ends agree before the run, and the public keys to come can be told apart. */
  ghost predicate Matched(run: Run) {
    && Sized(run) && run.c.Agrees() && run.receiver.established
    && run.receiver.root == run.sender.root
    && run.receiver.recvPublic == run.sender.sendPublic
    && run.sender.recvPublic == run.c.pub(run.receiver.sendPrivate)
    && run.receiver.recvCount == run.sender.sendCount
    && run.receiver.recvChain == run.sender.sendChain
    && (forall d: nat, e: nat :: d < e && First(run, d) <= |run.plain| && First(run, e) <= |run.plain|
          ==> Prefix(run, d) != Prefix(run, e))
    && (forall e: nat, n: nat :: First(run, e) <= |run.plain| && (Prefix(run, e), n) in run.receiver.skipped
          ==> e == 0 && n < run.sender.sendCount)
  }

  /** The receiver r is in the sender's epoch e. */
  ghost predicate Follows(run: Run, r: State, e: nat)
    requires Sized(run)
  {
    && First(run, e) <= |run.plain|
    && r.established && r.sendPrivate == run.receiver.sendPrivate
    && r.root == Opening(run, e).root && r.recvPublic == Opening(run, e).sendPublic
    && Base(run, e) <= r.recvCount <= 100
    && r.recvChain == Chain(run.c, Opening(run, e).sendChain, r.recvCount - Base(run, e))
  }

  /** Nothing later than number m of epoch e has been delivered. */
  ghost predicate Seen(run: Run, e: nat, m: nat, done: set<nat>) {
    forall i :: i in done ==> i < |run.plain| && Epoch(run, i) <= e && (Epoch(run, i) == e ==> Num(run, i) < m)
  }

  /** Of the current epoch exactly the undelivered numbers below m are stored, each with its key; of
      later epochs nothing is. */
  ghost predicate Stores(run: Run, skipped: map<(Octets, nat), Key>, e: nat, m: nat, done: set<nat>)
    requires Sized(run) && First(run, e) <= |run.plain|
  {
    && (forall n: nat :: Base(run, e) <= n ==>
         ((Prefix(run, e), n) in skipped <==> (n < m && At(run, e, n) !in done)))
    && (forall n: nat :: Base(run, e) <= n && (Prefix(run, e), n) in skipped ==>
         skipped[(Prefix(run, e), n)] == MessageKeyAt(run, e, n))
    && (forall f: nat, n: nat :: e < f && First(run, f) <= |run.plain| ==> (Prefix(run, f), n) !in skipped)
  }

  /** The receiver has followed the sender into epoch e, having been given exactly the messages in done. */
  ghost predicate Inv(run: Run, r: State, e: nat, done: set<nat>)
    requires Sized(run)
  {
    Follows(run, r, e) && Seen(run, e, r.recvCount, done) && Stores(run, r.skipped, e, r.recvCount, done)
  }

  /** A number of an epoch and the message it belongs to. */
  lemma PlaceOf(run: Run, e: nat, n: nat)
    requires run.sender.sendCount < 100 && Base(run, e) <= n < 100
    ensures Epoch(run, At(run, e, n)) == e && Num(run, At(run, e, n)) == n
  {
  }

  function Most(a: nat, b: nat): nat {
    if a < b then b else a
  }

  /** A stored key is handed out and forgotten. */
  lemma TakeStored(run: Run, r: State, i: nat, done: set<nat>)
    requires Sized(run) && Matched(run) && i < |run.plain| && i !in done && Inv(run, r, Epoch(run, i), done)
    requires Num(run, i) < r.recvCount
    ensures var e := Epoch(run, i);
      var (t, key) := TakeKey(run.c, r, Wire(run, i).0);
      && key == Ok(MessageKeyAt(run, e, Num(run, i))) && Inv(run, t, e, done + {i})
      && t.recvCount == Most(r.recvCount, Num(run, i) + 1)
  {
    hide Opening, SenderAt, Wire, Matched, KeyFor, NextChain, Chain, SkipTo, Epoch, Num, First, Base;
    WireIs(run, i);
    Places(run, i);
  }

  /** Skipping ahead inside the current epoch. */
  lemma SkipKeeps(run: Run, r: State, e: nat, n: nat, done: set<nat>)
    requires Sized(run) && Matched(run) && Inv(run, r, e, done) && r.recvCount <= n < 100
    ensures var t := SkipTo(run.c, r, n);
      && t == r.(skipped := t.skipped, recvChain := Chain(run.c, Opening(run, e).sendChain, n - Base(run, e)),
          recvCount := n)
      && Stores(run, t.skipped, e, n, done)
  {
    hide Opening, SenderAt, KeyFor, NextChain, SkipTo, Epoch, Num, First, Base, At, Chain;
    var c, m := run.c, r.recvCount;
    SkipStores(c, r, n);
    forall k: nat ensures Chain(c, r.recvChain, k) == Chain(c, Opening(run, e).sendChain, m - Base(run, e) + k) {
      ChainAdd(c, Opening(run, e).sendChain, m - Base(run, e), k);
    }
    forall k: nat | m <= k < n ensures At(run, e, k) !in done {
      PlaceOf(run, e, k);
    }
  }

  /** A new number stores the keys before it and moves the chain past it. */
  lemma TakeNew(run: Run, r: State, i: nat, done: set<nat>)
    requires Sized(run) && Matched(run) && i < |run.plain| && i !in done && Inv(run, r, Epoch(run, i), done)
    requires Num(run, i) >= r.recvCount
    ensures var e := Epoch(run, i);
      var (t, key) := TakeKey(run.c, r, Wire(run, i).0);
      && key == Ok(MessageKeyAt(run, e, Num(run, i))) && Inv(run, t, e, done + {i})
      && t.recvCount == Most(r.recvCount, Num(run, i) + 1)
  {
    hide Opening, SenderAt, Wire, KeyFor, NextChain, SkipTo, Epoch, Num, First, Base, Matched;
    WireIs(run, i);
    Places(run, i);
    SkipKeeps(run, r, Epoch(run, i), Num(run, i), done);
  }

  lemma TakeAny(run: Run, r: State, i: nat, done: set<nat>)
    requires Sized(run) && Matched(run) && i < |run.plain| && i !in done && Inv(run, r, Epoch(run, i), done)
    ensures var e := Epoch(run, i);
      var (t, key) := TakeKey(run.c, r, Wire(run, i).0);
      && key == Ok(MessageKeyAt(run, e, Num(run, i))) && Inv(run, t, e, done + {i})
      && t.recvCount == Most(r.recvCount, Num(run, i) + 1)
  {
    hide *;
    if Num(run, i) < r.recvCount {
      TakeStored(run, r, i, done);
    } else {
      TakeNew(run, r, i, done);
    }
  }

  /** Skipping to the count in the header and ratcheting takes the receiver to the next epoch, whatever was lost in
      this one. */
  lemma Follow(run: Run, r: State, e: nat, done: set<nat>)
    requires Sized(run) && Matched(run) && Inv(run, r, e, done) && First(run, e + 1) <= |run.plain|
    ensures var theirs := Opening(run, e + 1).sendPublic;
      var t := RecvRatchet(run.c, SkipTo(run.c, r, run.sender.recvCount), theirs);
      theirs != r.recvPublic && t.recvCount == 0 && Inv(run, t, e + 1, done)
  {
    hide Opening, SenderAt, KeyFor, NextChain, SkipTo, Epoch, Num, First, At, Chain, Clamp;
    EpochStep(run, e);
    SkipStores(run.c, r, run.sender.recvCount);
    assert Prefix(run, e) != Prefix(run, e + 1);
    assert Chain(run.c, Opening(run, e + 1).sendChain, 0) == Opening(run, e + 1).sendChain by {
      ChainStart(run.c, Opening(run, e + 1).sendChain);
    }
    var private := Clamp(run.random[First(run, e + 1) - 1]);
    assert run.c.dh(private, run.c.pub(run.receiver.sendPrivate)) == run.c.dh(run.receiver.sendPrivate,
        run.c.pub(private));
  }

  lemma ChainStart(c: Crypto, chain: Key)
    ensures Chain(c, chain, 0) == chain
  {
  }

  /** One delivery. Across an epoch it is refused, and changes nothing, exactly when the header's count is too far
      beyond the receiver's. Otherwise the receiver stays in step, and the plaintext sent comes out exactly when it
      is not too long for the buffer. */
  lemma Deliver(run: Run, r: State, e: nat, i: nat, done: set<nat>)
    requires Sized(run) && Matched(run) && i < |run.plain| && i !in done && Inv(run, r, e, done)
    requires e <= Epoch(run, i) <= e + 1
    ensures var (t, plaintext) := Decrypted(run.c, r, Wire(run, i).0, Wire(run, i).1);
      if Epoch(run, i) == e + 1 && TooMany(r.recvCount, run.sender.recvCount) then
        t == r && plaintext == Err(TooManySkipped)
      else
        && Inv(run, t, Epoch(run, i), done + {i})
        && t.recvCount == Most(if Epoch(run, i) == e then r.recvCount else 0, Num(run, i) + 1)
        && (plaintext == Ok(run.plain[i]) <==> |run.plain[i]| <= CAPACITY - 16)
  {
    hide Opening, SenderAt, KeyFor, NextChain, SkipTo, Epoch, Num, First, At, Chain, Wire, Seal, Open, TakeKey,
        RecvRatchet, TooMany, MessageKeyAt, Stores, Seen;
    var c, header := run.c, Wire(run, i).0;
    WireIs(run, i);
    OpenSealed(c, MessageKeyAt(run, Epoch(run, i), Num(run, i)), header, run.plain[i]);
    if Epoch(run, i) == e {
      TakeAny(run, r, i, done);
    } else {
      Follow(run, r, e, done);
      TakeAny(run, RecvRatchet(c, SkipTo(c, r, run.sender.recvCount), header.dhPublic), i, done);
    }
  }

  // ---- Whole runs ----

  /** The order messages arrive in: each at most once, never back to an earlier epoch, none passed over. */
  ghost predicate Arrival(run: Run, order: seq<nat>) {
    && (forall j :: 0 <= j < |order| ==> order[j] < |run.plain|)
    && (forall j, k :: 0 <= j < k < |order| ==> order[j] != order[k])
    && (order != [] ==> Epoch(run, order[0]) <= 1)
    && (forall j :: 0 < j < |order| ==>
          Epoch(run, order[j - 1]) <= Epoch(run, order[j]) <= Epoch(run, order[j - 1]) + 1)
  }

  lemma ArrivalPrefix(run: Run, order: seq<nat>, k: nat)
    requires Arrival(run, order) && k <= |order|
    ensures Arrival(run, order[..k])
  { }

  /** The receiver after the given deliveries. */
  function ReceiverAfter(run: Run, order: seq<nat>): State
    requires Sized(run) && forall j :: 0 <= j < |order| ==> order[j] < |run.plain|
  {
    if order == [] then run.receiver
    else
      var last := |order| - 1;
      var wire := Wire(run, order[last]);
      Decrypted(run.c, ReceiverAfter(run, order[..last]), wire.0, wire.1).0
  }

  /** What the receiver makes of the j-th delivery. */
  function Received(run: Run, order: seq<nat>, j: nat): Result<Octets, SessionError>
    requires Sized(run) && j < |order| && forall j :: 0 <= j < |order| ==> order[j] < |run.plain|
  {
    var wire := Wire(run, order[j]);
    Decrypted(run.c, ReceiverAfter(run, order[..j]), wire.0, wire.1).1
  }

  function Delivered(order: seq<nat>): set<nat> {
    set i | i in order
  }

  lemma NotGiven(order: seq<nat>, i: nat)
    ensures i in Delivered(order) <==> i in order
  {
  }

  lemma GivenOneMore(order: seq<nat>)
    ensures order == [] ==> Delivered(order) == {}
    ensures order != [] ==> Delivered(order) == Delivered(order[..|order| - 1]) + {order[|order| - 1]}
  {
    assert order != [] ==> order == order[..|order| - 1] + [order[|order| - 1]];
  }

  function EpochAfter(run: Run, order: seq<nat>): nat {
    if order == [] then 0 else Epoch(run, order[|order| - 1])
  }

  /** One more than the highest number delivered of the last epoch: what the receive count is then. */
  function Reached(run: Run, order: seq<nat>): nat {
    if order == [] then run.sender.sendCount
    else
      var before, i := order[..|order| - 1], order[|order| - 1];
      Most(if Epoch(run, i) == EpochAfter(run, before) then Reached(run, before) else 0, Num(run, i) + 1)
  }

  /** After these deliveries message i would open an epoch, with a header whose count, the sender's own receive
      count, is more than a hundred beyond what the receiver has reached. */
  predicate Blocked(run: Run, before: seq<nat>, i: nat) {
    Epoch(run, i) != EpochAfter(run, before) && TooMany(Reached(run, before), run.sender.recvCount)
  }

  /** No epoch is opened by such a message. */
  ghost predicate Passable(run: Run, order: seq<nat>) {
    forall j :: 0 <= j < |order| ==> !Blocked(run, order[..j], order[j])
  }

  lemma PassablePrefix(run: Run, order: seq<nat>, k: nat)
    requires k <= |order| && Passable(run, order)
    ensures Passable(run, order[..k])
  {
    forall j | 0 <= j < k ensures !Blocked(run, order[..k][..j], order[..k][j]) {
      assert order[..k][..j] == order[..j];
    }
  }

  lemma Started(run: Run)
    requires Sized(run) && Matched(run)
    ensures Inv(run, run.receiver, 0, {})
  {
    hide KeyFor, NextChain, Encrypted;
    assert SenderAt(run, 0) == run.sender;
    assert Opening(run, 0) == run.sender;
  }

  /** Every run in which no epoch is blocked keeps the receiver in step with the sender. */
  lemma {:induction false} InStep(run: Run, order: seq<nat>)
    requires Sized(run) && Matched(run) && Arrival(run, order) && Passable(run, order)
    ensures Inv(run, ReceiverAfter(run, order), EpochAfter(run, order), Delivered(order))
    ensures ReceiverAfter(run, order).recvCount == Reached(run, order)
    decreases |order|
  {
    hide Inv, Epoch, Num, Wire, Decrypted, Delivered, TooMany, Most;
    GivenOneMore(order);
    if order == [] {
      Started(run);
    } else {
      var last := |order| - 1;
      var before := order[..last];
      ArrivalPrefix(run, order, last);
      PassablePrefix(run, order, last);
      InStep(run, before);
      NotGiven(before, order[last]);
      Deliver(run, ReceiverAfter(run, before), EpochAfter(run, before), order[last], Delivered(before));
    }
  }

  /** As long as no epoch has been blocked, a delivery returns what was sent exactly when it does not open an epoch
      too far on and the plaintext is at most 240 bytes; a blocked one is refused. */
  lemma EveryPlaintext(run: Run, order: seq<nat>, j: nat)
    requires Sized(run) && Matched(run) && Arrival(run, order) && j < |order| && Passable(run, order[..j])
    ensures Received(run, order, j) == Ok(run.plain[order[j]])
       <==> !Blocked(run, order[..j], order[j]) && |run.plain[order[j]]| <= CAPACITY - 16
    ensures Blocked(run, order[..j], order[j]) ==> Received(run, order, j) == Err(TooManySkipped)
  {
    hide Matched, Inv, Epoch, Wire, TooMany, Reached, Decrypted;
    ArrivalPrefix(run, order, j);
    InStep(run, order[..j]);
    NotGiven(order[..j], order[j]);
    Deliver(run, ReceiverAfter(run, order[..j]), EpochAfter(run, order[..j]), order[j], Delivered(order[..j]));
  }

  /** So a whole run returns every plaintext exactly when nothing is too long and no epoch is blocked. */
  lemma {:induction false} AllReceived(run: Run, order: seq<nat>)
    requires Sized(run) && Matched(run) && Arrival(run, order)
    ensures (forall j :: 0 <= j < |order| ==> Received(run, order, j) == Ok(run.plain[order[j]]))
       <==> Passable(run, order) && forall j :: 0 <= j < |order| ==> |run.plain[order[j]]| <= CAPACITY - 16
  {
    hide Matched, Received, Blocked;
    if Passable(run, order) {
      forall j | 0 <= j < |order|
        ensures Received(run, order, j) == Ok(run.plain[order[j]]) <==> |run.plain[order[j]]| <= CAPACITY - 16
      {
        PassablePrefix(run, order, j);
        EveryPlaintext(run, order, j);
      }
    } else {
      var j := FirstBlocked(run, order);
      EveryPlaintext(run, order, j);
    }
  }

  lemma {:induction false} FirstBlocked(run: Run, order: seq<nat>) returns (j: nat)
    requires !Passable(run, order)
    ensures j < |order| && Passable(run, order[..j]) && Blocked(run, order[..j], order[j])
    decreases |order|
  {
    hide Blocked;
    var last := |order| - 1;
    if Passable(run, order[..last]) {
      forall k | 0 <= k < last ensures !Blocked(run, order[..k], order[k]) {
        assert order[..last][..k] == order[..k];
      }
      j := last;
    } else {
      j := FirstBlocked(run, order[..last]);
      assert order[..last][..j] == order[..j];
    }
  }

  /** Nothing is ever blocked while the sender has received at most a hundred messages of its current epoch. */
  lemma {:induction false} NeverBlocked(run: Run, order: seq<nat>)
    requires run.sender.recvCount <= 100
    ensures Passable(run, order)
  {
  }

  // ---- How the count gets that far ----

  /** Nothing is stored under the current public key from the receive count on. */
  ghost predicate NothingAhead(s: State) {
    forall n: nat :: n >= s.recvCount ==> (s.recvPublic[..8], n) !in s.skipped
  }

  /** A header up to a hundred ahead moves the receive count past its number before the tag is looked at. */
  lemma CountMoves(c: Crypto, s: State, header: Header, ciphertext: Octets)
    requires s.established && |ciphertext| >= 16 && NothingAhead(s)
    requires header.dhPublic == s.recvPublic && s.recvCount <= header.messageNum <= s.recvCount + 100
    ensures var t := Decrypted(c, s, header, ciphertext).0;
      && t == s.(skipped := t.skipped, recvChain := t.recvChain, recvCount := header.messageNum + 1)
      && NothingAhead(t)
  {
    hide KeyFor, NextChain, SkipTo, Open;
    SkipStores(c, s, header.messageNum);
  }

  /** So two of them, whatever they carry, take it up by 202. */
  lemma CountAdvances(c: Crypto, s: State, before: nat, first: Octets, second: Octets)
    requires s.established && |first| >= 16 && |second| >= 16 && NothingAhead(s)
    ensures var s1 := Decrypted(c, s, Header(s.recvPublic, before, s.recvCount + 100), first).0;
      var s2 := Decrypted(c, s1, Header(s.recvPublic, before, s.recvCount + 201), second).0;
      s2 == s.(skipped := s2.skipped, recvChain := s2.recvChain, recvCount := s.recvCount + 202)
  {
    hide Decrypted, NothingAhead;
    var h := Header(s.recvPublic, before, s.recvCount + 100);
    CountMoves(c, s, h, first);
    CountMoves(c, Decrypted(c, s, h, first).0, Header(s.recvPublic, before, s.recvCount + 201), second);
  }

  /** The second public key is not the first. */
  lemma OneEpochOn(run: Run)
    requires Sized(run) && run.sender.sendCount == 99 && |run.plain| == 2
    requires run.random[0][0] == 8 && run.sender.sendPublic[0] == 0 && forall k :: run.c.pub(k) == k
    ensures First(run, 1) == 1 && Prefix(run, 0) != Prefix(run, 1)
    ensures forall e: nat :: First(run, e) <= 2 ==> e <= 1
    ensures Prefix(run, 0) == run.sender.sendPublic[..8] && Epoch(run, 0) == 0 && Epoch(run, 1) == 1
  {
    EpochStep(run, 0);
    hide SendRatchet, NextChain, Encrypted;
    assert Opening(run, 0) == run.sender;
    assert Prefix(run, 0)[0] == 0 && Prefix(run, 1)[0] == 8;
  }

  /** A run of two messages, the first closing an epoch, between ends that agree. */
  ghost predicate LastOfEpoch(run: Run) {
    && Sized(run) && run.c.Agrees() && run.receiver.established && run.sender.sendCount == 99 && |run.plain| == 2
    && run.receiver.root == run.sender.root && run.receiver.recvPublic == run.sender.sendPublic
    && run.receiver.recvCount == 99 && run.receiver.recvChain == run.sender.sendChain
    && run.sender.recvPublic == run.receiver.sendPrivate && run.receiver.skipped == map[]
    && run.random[0][0] == 8 && run.sender.sendPublic[0] == 0 && forall k :: run.c.pub(k) == k
  }

  lemma SecondBlocked(run: Run)
    requires LastOfEpoch(run) && run.sender.recvCount == 202
    ensures Matched(run) && Arrival(run, [1]) && Blocked(run, [], 1)
  {
    OneEpochOn(run);
    hide First, Prefix, Epoch;
    forall d: nat, e: nat | d < e && First(run, d) <= |run.plain| && First(run, e) <= |run.plain|
      ensures Prefix(run, d) != Prefix(run, e)
    {
      assert e <= 1 && d == 0;
    }
  }

  lemma SecondRefused(run: Run)
    requires LastOfEpoch(run) && run.sender.recvCount == 202
    ensures Arrival(run, [1]) && Received(run, [1], 0) == Err(TooManySkipped)
  {
    SecondBlocked(run);
    hide Matched, Arrival, Blocked, LastOfEpoch;
    assert [1][..0] == [];
    EveryPlaintext(run, [1], 0);
  }

  /** There are such runs: after two such headers the sender, about to end its first epoch, loses that epoch's last
      message, and the next one is refused. */
  lemma BlockedRun(first: Octets, second: Octets) returns (before: State, run: Run)
    requires |first| >= 16 && |second| >= 16
    ensures before.established && before.recvCount == 0
    ensures var s1 := Decrypted(run.c, before, Header(before.recvPublic, 0, 100), first).0;
      run.sender == Decrypted(run.c, s1, Header(before.recvPublic, 0, 201), second).0
    ensures Sized(run) && Matched(run) && Arrival(run, [1]) && Blocked(run, [], 1)
    ensures Received(run, [1], 0) == Err(TooManySkipped)
  {
    hide Decrypted, Matched, Arrival, Blocked, Received, Passable;
    var zero: Key := Zeros(32);
    var random: Key := zero[0 := 8];
    var c := Crypto((k, s, i) => zero, (a, b) => zero, k => k, (k, n, b, i) => 0, (k, h, t, i) => 0);
    before := State(zero, zero, zero, zero, zero, zero, 99, 0, 0, map[], true);
    CountAdvances(c, before, 0, first, second);
    var s1 := Decrypted(c, before, Header(zero, 0, 100), first).0;
    var sender := Decrypted(c, s1, Header(zero, 0, 201), second).0;
    run := Run(c, sender, before.(recvCount := 99), [[], []], [random, random]);
    assert LastOfEpoch(run);
    SecondBlocked(run);
    SecondRefused(run);
  }

  /** What is stored after any run: of the epoch reached, exactly the numbers passed over and not delivered. */
  lemma StoredAfter(run: Run, order: seq<nat>, n: nat)
    requires Sized(run) && Matched(run) && Arrival(run, order) && Passable(run, order)
    requires Base(run, EpochAfter(run, order)) <= n
    ensures First(run, EpochAfter(run, order)) <= |run.plain|
    ensures var r, e := ReceiverAfter(run, order), EpochAfter(run, order);
      (Prefix(run, e), n) in r.skipped <==> n < r.recvCount && At(run, e, n) !in order
  {
    hide Matched, Epoch, Wire, Passable;
    InStep(run, order);
  }
}
