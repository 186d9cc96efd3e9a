/** What a one-way run leaves stored of earlier epochs, and what becomes of a message that arrives after its epoch. */
module SessionStore {
  import opened StreamCipher
  import opened Words
  import opened Wrappers
  import opened Session
  import opened SessionRun

  // ---- How far each epoch was received ----

  /** One more than the highest number delivered of an epoch. */
  function ReachedIn(run: Run, order: seq<nat>, f: nat): nat {
    if order == [] then Base(run, f)
    else
      var before, i := order[..|order| - 1], order[|order| - 1];
      var m := ReachedIn(run, before, f);
      if Epoch(run, i) == f then Most(m, Num(run, i) + 1) else m
  }

  /** Of an epoch left behind, keys were stored up to the count in the header that opened the next one, if that is
      more. */
  function Limit(run: Run, order: seq<nat>, f: nat): nat {
    Most(ReachedIn(run, order, f), run.sender.recvCount)
  }

  /** Nothing of later epochs has arrived, and of the current one what Reached says. */
  lemma {:induction false} ReachedSoFar(run: Run, order: seq<nat>)
    requires run.sender.sendCount < 100 && Arrival(run, order)
    ensures forall f: nat :: f > EpochAfter(run, order) ==> ReachedIn(run, order, f) == Base(run, f)
    ensures ReachedIn(run, order, EpochAfter(run, order)) == Reached(run, order)
    decreases |order|
  {
    hide Epoch, Num, Most;
    if order != [] {
      ArrivalPrefix(run, order, |order| - 1);
      ReachedSoFar(run, order[..|order| - 1]);
      EpochsGrow(run, order);
    }
  }

  lemma EpochsGrow(run: Run, order: seq<nat>)
    requires run.sender.sendCount < 100 && Arrival(run, order) && order != []
    ensures var before := order[..|order| - 1];
      EpochAfter(run, before) <= EpochAfter(run, order) <= EpochAfter(run, before) + 1
    ensures Base(run, EpochAfter(run, order)) == if EpochAfter(run, order) == 0 then run.sender.sendCount else 0
  {
    hide Epoch;
  }

  // ---- What is stored of earlier epochs ----

  type Store = map<(Octets, nat), Key>

  /** Of every epoch before e exactly the undelivered numbers below its limit, each with its key. */
  ghost predicate Left(run: Run, skipped: Store, e: nat, order: seq<nat>)
    requires Sized(run) && First(run, e) <= |run.plain|
  {
    forall f: nat, n: nat :: f < e && Base(run, f) <= n ==>
      && ((Prefix(run, f), n) in skipped <==> n < Limit(run, order, f) && (n < 100 ==> At(run, f, n) !in order))
      && ((Prefix(run, f), n) in skipped ==> skipped[(Prefix(run, f), n)] == MessageKeyAt(run, f, n))
  }

  /** Two stores agree except under one prefix. */
  ghost predicate SameElsewhere(a: Store, b: Store, prefix: Octets) {
    forall p: Octets, n: nat :: p != prefix ==>
      && ((p, n) in a <==> (p, n) in b)
      && ((p, n) in a ==> a[(p, n)] == b[(p, n)])
  }

  lemma SkipTouches(c: Crypto, s: State, until: nat)
    ensures SameElsewhere(s.skipped, SkipTo(c, s, until).skipped, s.recvPublic[..8])
  {
    hide KeyFor, NextChain, SkipTo;
    SkipStores(c, s, until);
  }

  lemma TakeTouches(c: Crypto, s: State, header: Header)
    requires header.dhPublic[..8] == s.recvPublic[..8]
    ensures SameElsewhere(s.skipped, TakeKey(c, s, header).0.skipped, s.recvPublic[..8])
    ensures TakeKey(c, s, header).0.recvPublic == s.recvPublic
  {
    hide KeyFor, NextChain, SkipTo;
    SkipTouches(c, s, header.messageNum);
    SkipStores(c, s, header.messageNum);
  }

  /** A delivery of the current epoch changes nothing about earlier ones. */
  lemma LeftWithin(run: Run, skipped: Store, later: Store, e: nat, order: seq<nat>, i: nat)
    requires Sized(run) && Matched(run) && First(run, e) <= |run.plain| && Epoch(run, i) == e
    requires Left(run, skipped, e, order) && SameElsewhere(skipped, later, Prefix(run, e))
    ensures Left(run, later, e, order + [i])
  {
    hide Prefix, MessageKeyAt, Epoch, Num, Most;
    assert (order + [i])[..|order|] == order;
    forall f: nat, n: nat | f < e && Base(run, f) <= n
      ensures Limit(run, order + [i], f) == Limit(run, order, f)
      ensures n < 100 ==> (At(run, f, n) in order + [i] <==> At(run, f, n) in order)
      ensures Prefix(run, f) != Prefix(run, e)
    {
      assert First(run, f) <= |run.plain|;
      if n < 100 {
        PlaceOf(run, f, n);
      }
    }
  }

  /** Leaving an epoch stores the keys up to the count in the header. */
  lemma LeftBehind(run: Run, r: State, e: nat, order: seq<nat>)
    requires Sized(run) && Matched(run) && Inv(run, r, e, Delivered(order)) && First(run, e + 1) <= |run.plain|
    requires Left(run, r.skipped, e, order) && r.recvCount == ReachedIn(run, order, e)
    ensures Left(run, SkipTo(run.c, r, run.sender.recvCount).skipped, e + 1, order)
  {
    hide KeyFor, NextChain, SkipTo, Epoch, Num, Delivered, Opening, Chain, At, Prefix, ReachedIn;
    var c, m, until := run.c, r.recvCount, run.sender.recvCount;
    var later := SkipTo(c, r, until).skipped;
    SkipStores(c, r, until);
    PrefixIs(run, e);
    forall f: nat, n: nat | f < e + 1 && Base(run, f) <= n
      ensures (Prefix(run, f), n) in later <==> n < Limit(run, order, f) && (n < 100 ==> At(run, f, n) !in order)
      ensures (Prefix(run, f), n) in later ==> later[(Prefix(run, f), n)] == MessageKeyAt(run, f, n)
    {
      if f < e {
        assert First(run, f) <= |run.plain|;
        assert Prefix(run, f) != Prefix(run, e);
      } else {
        LeftOfCurrent(run, r, e, order, n);
      }
    }
  }

  lemma PrefixIs(run: Run, e: nat)
    requires Sized(run) && First(run, e) <= |run.plain|
    ensures Prefix(run, e) == Opening(run, e).sendPublic[..8]
  { }

  lemma LeftOfCurrent(run: Run, r: State, e: nat, order: seq<nat>, n: nat)
    requires Sized(run) && Matched(run) && Inv(run, r, e, Delivered(order)) && Base(run, e) <= n
    requires r.recvCount == ReachedIn(run, order, e)
    ensures var later := SkipTo(run.c, r, run.sender.recvCount).skipped;
      && ((Prefix(run, e), n) in later <==> n < Limit(run, order, e) && (n < 100 ==> At(run, e, n) !in order))
      && ((Prefix(run, e), n) in later ==> later[(Prefix(run, e), n)] == MessageKeyAt(run, e, n))
  {
    hide KeyFor, NextChain, SkipTo, Epoch, Num, Delivered, Opening, Chain, At, ReachedIn;
    var c, m := run.c, r.recvCount;
    SkipStores(c, r, run.sender.recvCount);
    if m <= n {
      ChainAdd(c, Opening(run, e).sendChain, m - Base(run, e), n - m);
    }
    if n < 100 {
      PlaceOf(run, e, n);
      if At(run, e, n) >= 0 {
        NotGiven(order, At(run, e, n));
      }
    }
  }

  /** After any run, for all earlier epochs. */
  lemma {:induction false} Behind(run: Run, order: seq<nat>)
    requires Sized(run) && Matched(run) && Arrival(run, order) && Passable(run, order)
    ensures First(run, EpochAfter(run, order)) <= |run.plain|
    ensures Left(run, ReceiverAfter(run, order).skipped, EpochAfter(run, order), order)
    decreases |order|
  {
    hide Matched, Inv, Epoch, Num, Wire, Decrypted, Delivered, TooMany, Most, Left, Passable, Reached;
    InStep(run, order);
    InvInRange(run, ReceiverAfter(run, order), EpochAfter(run, order), Delivered(order));
    if order == [] {
      NothingLeft(run, run.receiver.skipped, order);
    } else {
      var last := |order| - 1;
      var before := order[..last];
      ArrivalPrefix(run, order, last);
      PassablePrefix(run, order, last);
      Behind(run, before);
      InStep(run, before);
      ReachedSoFar(run, before);
      EpochsGrow(run, order);
      NotBlocked(run, order, last);
      assert order == before + [order[last]];
      BehindStep(run, before, order[last]);
    }
  }

  lemma NotBlocked(run: Run, order: seq<nat>, j: nat)
    requires Passable(run, order) && j < |order|
    ensures !Blocked(run, order[..j], order[j])
  {
    hide Blocked;
  }

  lemma InvInRange(run: Run, r: State, e: nat, done: set<nat>)
    requires Sized(run) && Inv(run, r, e, done)
    ensures First(run, e) <= |run.plain|
  {
    hide Opening, SenderAt, Chain, Stores, Seen;
  }

  lemma NothingLeft(run: Run, skipped: Store, order: seq<nat>)
    requires Sized(run)
    ensures Left(run, skipped, 0, order)
  { }

  lemma BehindStep(run: Run, before: seq<nat>, i: nat)
    requires Sized(run) && Matched(run) && Arrival(run, before) && i < |run.plain|
    requires var e := EpochAfter(run, before);
      && Inv(run, ReceiverAfter(run, before), e, Delivered(before))
      && First(run, e) <= |run.plain| && Left(run, ReceiverAfter(run, before).skipped, e, before)
      && ReceiverAfter(run, before).recvCount == ReachedIn(run, before, e) == Reached(run, before)
      && e <= Epoch(run, i) <= e + 1 && First(run, Epoch(run, i)) <= |run.plain|
    requires !Blocked(run, before, i)
    ensures var wire := Wire(run, i);
      Left(run, Decrypted(run.c, ReceiverAfter(run, before), wire.0, wire.1).0.skipped, Epoch(run, i), before + [i])
  {
    hide Matched, Inv, Epoch, Num, Delivered, TooMany, Most, Left, Reached, ReachedIn, ReceiverAfter, SameElsewhere,
        Seal, Open, TakeKey, SkipTo, RecvRatchet, Opening, SenderAt, Chain, First, Prefix, MessageKeyAt, Wire;
    var c, r, e, f := run.c, ReceiverAfter(run, before), EpochAfter(run, before), Epoch(run, i);
    var header := Wire(run, i).0;
    WireIs(run, i);
    OpenSealed(c, MessageKeyAt(run, f, Num(run, i)), header, run.plain[i]);
    PrefixIs(run, f);
    FollowsIs(run, r, e, Delivered(before));
    if f == e {
      TakeTouches(c, r, header);
      LeftWithin(run, r.skipped, TakeKey(c, r, header).0.skipped, e, before, i);
    } else {
      NewKey(run, e);
      LeftBehind(run, r, e, before);
      var s := RecvRatchet(c, SkipTo(c, r, run.sender.recvCount), header.dhPublic);
      RatchetIs(c, SkipTo(c, r, run.sender.recvCount), header.dhPublic);
      TakeTouches(c, s, header);
      LeftWithin(run, s.skipped, TakeKey(c, s, header).0.skipped, f, before, i);
    }
  }

  lemma FollowsIs(run: Run, r: State, e: nat, done: set<nat>)
    requires Sized(run) && Inv(run, r, e, done)
    ensures First(run, e) <= |run.plain| && r.established && r.recvPublic == Opening(run, e).sendPublic
  {
    hide Opening, SenderAt, Chain, Stores, Seen;
  }

  lemma NewKey(run: Run, e: nat)
    requires Sized(run) && Matched(run) && First(run, e) <= |run.plain| && First(run, e + 1) <= |run.plain|
    ensures Opening(run, e).sendPublic != Opening(run, e + 1).sendPublic
  {
    hide Opening, First;
    assert Prefix(run, e) != Prefix(run, e + 1);
  }

  lemma RatchetIs(c: Crypto, s: State, theirs: Key)
    ensures RecvRatchet(c, s, theirs).skipped == s.skipped && RecvRatchet(c, s, theirs).recvPublic == theirs
    ensures RecvRatchet(c, s, theirs).recvCount == 0 && RecvRatchet(c, s, theirs).established == s.established
  { }

  /** What is stored of an earlier epoch after any run. */
  lemma StoredBehind(run: Run, order: seq<nat>, f: nat, n: nat)
    requires Sized(run) && Matched(run) && Arrival(run, order) && Passable(run, order)
    requires f < EpochAfter(run, order) && Base(run, f) <= n
    ensures First(run, f) <= |run.plain|
    ensures (Prefix(run, f), n) in ReceiverAfter(run, order).skipped
       <==> n < Limit(run, order, f) && (n < 100 ==> At(run, f, n) !in order)
  {
    hide Matched, Epoch, Passable, Prefix, ReceiverAfter;
    Behind(run, order);
  }

  // ---- Late messages ----

  /** Any header with another public key ratchets to that key first, stored keys or not. */
  lemma RatchetsTo(c: Crypto, s: State, header: Header, ciphertext: Octets)
    requires s.established && |ciphertext| >= 16 && header.dhPublic != s.recvPublic
    ensures var (t, r) := Decrypted(c, s, header, ciphertext);
      if TooMany(s.recvCount, header.prevChainLen) then t == s && r == Err(TooManySkipped)
      else t.recvPublic == header.dhPublic
  {
    hide KeyFor, NextChain, SkipTo, Open, RecvRatchet, TooMany;
    var u := RecvRatchet(c, SkipTo(c, s, header.prevChainLen), header.dhPublic);
    RatchetIs(c, SkipTo(c, s, header.prevChainLen), header.dhPublic);
    TakeTouches(c, u, header);
  }

  /** A message that arrives when its epoch has been left. Unless it is refused it takes the receiver back to the old
      public key, out of step with the sender; its plaintext comes out, if not too long, when its key was stored, and
      otherwise it is opened with a key of a chain that is not the sender's. */
  lemma Late(run: Run, order: seq<nat>, i: nat)
    requires Sized(run) && Matched(run) && Arrival(run, order) && Passable(run, order)
    requires i < |run.plain| && i !in order && Epoch(run, i) < EpochAfter(run, order)
    ensures var c, r, f, n := run.c, ReceiverAfter(run, order), Epoch(run, i), Num(run, i);
      var (header, ciphertext) := Wire(run, i);
      var (t, plaintext) := Decrypted(c, r, header, ciphertext);
      && header.dhPublic != r.recvPublic
      && if TooMany(r.recvCount, header.prevChainLen) then t == r && plaintext == Err(TooManySkipped)
         else
           && t.recvPublic == header.dhPublic
           && if n < Limit(run, order, f) then plaintext == Ok(run.plain[i]) <==> |run.plain[i]| <= CAPACITY - 16
              else
                var chain := c.hkdf(r.root + c.dh(r.sendPrivate, header.dhPublic), Text("chain"), ChainKey);
                |ciphertext| >= 16 && plaintext == Open(c, KeyFor(c, Chain(c, chain, n), n), header, ciphertext)
  {
    hide Matched, Epoch, Num, Passable, Prefix, ReceiverAfter, Wire, Seal, Open, KeyFor, NextChain, SkipTo, Chain,
        Opening, SenderAt, Limit, Inv, TooMany, At, MessageKeyAt, Left, Delivered, Reached;
    var c, r, e, f, n := run.c, ReceiverAfter(run, order), EpochAfter(run, order), Epoch(run, i), Num(run, i);
    var (header, ciphertext) := Wire(run, i);
    InStep(run, order);
    Behind(run, order);
    FollowsIs(run, r, e, Delivered(order));
    WireIs(run, i);
    PrefixIs(run, f);
    PrefixIs(run, e);
    OldPrefix(run, f, e);
    OpenSealed(c, MessageKeyAt(run, f, n), header, run.plain[i]);
    PlaceIs(run, i);
    LeftIs(run, r.skipped, e, order, f, n);
    SkipTouches(c, r, header.prevChainLen);
    RatchetsTo(c, r, header, ciphertext);
    TakeLate(c, r, header);
  }

  lemma OldPrefix(run: Run, f: nat, e: nat)
    requires Sized(run) && Matched(run) && f < e && First(run, f) <= |run.plain| && First(run, e) <= |run.plain|
    ensures Prefix(run, f) != Prefix(run, e)
  {
    hide Prefix, First;
  }

  lemma PlaceIs(run: Run, i: nat)
    requires run.sender.sendCount < 100
    ensures At(run, Epoch(run, i), Num(run, i)) == i && Base(run, Epoch(run, i)) <= Num(run, i) < 100
  {
    Places(run, i);
  }

  lemma LeftIs(run: Run, skipped: Store, e: nat, order: seq<nat>, f: nat, n: nat)
    requires Sized(run) && First(run, e) <= |run.plain| && Left(run, skipped, e, order)
    requires f < e && Base(run, f) <= n < 100 && At(run, f, n) !in order
    ensures (Prefix(run, f), n) in skipped <==> n < Limit(run, order, f)
    ensures (Prefix(run, f), n) in skipped ==> skipped[(Prefix(run, f), n)] == MessageKeyAt(run, f, n)
  {
    hide Prefix, MessageKeyAt, Limit, At;
  }

  /** The key such a message gets. */
  lemma TakeLate(c: Crypto, r: State, header: Header)
    requires header.dhPublic[..8] != r.recvPublic[..8] && header.messageNum < 100
    ensures var s := RecvRatchet(c, SkipTo(c, r, header.prevChainLen), header.dhPublic);
      var id, n := (header.dhPublic[..8], header.messageNum), header.messageNum;
      var chain := c.hkdf(r.root + c.dh(r.sendPrivate, header.dhPublic), Text("chain"), ChainKey);
      TakeKey(c, s, header).1 == Ok(if id in r.skipped then r.skipped[id] else KeyFor(c, Chain(c, chain, n), n))
  {
    hide KeyFor, NextChain, SkipTo, Chain;
    SkipTouches(c, r, header.prevChainLen);
    SkipStores(c, r, header.prevChainLen);
    var s := RecvRatchet(c, SkipTo(c, r, header.prevChainLen), header.dhPublic);
    SkipStores(c, s, header.messageNum);
  }
}
