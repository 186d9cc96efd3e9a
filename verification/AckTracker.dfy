/** Retransmission: up to eight packets waiting for an acknowledgement, each sent again when its timeout has
    passed, a limited number of times. */
module AckTracker {
  import opened Words
  import opened Wrappers

  const SLOTS := 8

  datatype Pending = Pending(
    packetId: bv32, to: bv32, data: Octets, txCount: nat, maxRetransmit: nat, lastTxTime: nat, timeout: nat)

  type Slots = seq<Option<Pending>>

  // ---- What the operations do ----

  function Added(s: Slots, p: Pending): (Slots, bool) {
    if s == [] then ([], false)
    else if s[0].None? then ([Some(p)] + s[1..], true)
    else ([s[0]] + Added(s[1..], p).0, Added(s[1..], p).1)
  }

  predicate Matches(slot: Option<Pending>, to: bv32, id: bv32) {
    slot.Some? && slot.value.to == to && slot.value.packetId == id
  }

  function Acknowledged(s: Slots, from: bv32, id: bv32): (Slots, bool) {
    if s == [] then ([], false)
    else if Matches(s[0], from, id) then ([None] + s[1..], true)
    else ([s[0]] + Acknowledged(s[1..], from, id).0, Acknowledged(s[1..], from, id).1)
  }

  predicate Due(p: Pending, now: nat) {
    (if now < p.lastTxTime then 0 else now - p.lastTxTime) >= p.timeout
  }

  predicate Spent(p: Pending) {
    p.txCount >= p.maxRetransmit
  }

  /** The first packet due and not spent is sent; those due and spent before it are given up. */
  function Retransmitted(s: Slots, now: nat): (Slots, Option<Octets>) {
    if s == [] then ([], None)
    else if s[0].Some? && Due(s[0].value, now) && !Spent(s[0].value) then
      ([Some(s[0].value.(txCount := s[0].value.txCount + 1, lastTxTime := now))] + s[1..], Some(s[0].value.data))
    else
      var (rest, data) := Retransmitted(s[1..], now);
      ([if s[0].Some? && Due(s[0].value, now) then None else s[0]] + rest, data)
  }

  class Tracker {
    const pending: array<Option<Pending>>

    ghost predicate Valid() {
      pending.Length == SLOTS
    }

    constructor ()
      ensures Valid() && fresh(pending) && forall k :: 0 <= k < SLOTS ==> pending[k] == None
    {
      pending := new Option<Pending>[SLOTS](k => None);
    }

    method Add(p: Pending) returns (ok: bool)
      requires Valid()
      modifies pending
      ensures (pending[..], ok) == Added(old(pending[..]), p)
    {
      hide Added;
      ghost var was := pending[..];
      var i := 0;
      AddNext(was, 0, p);
      while i < pending.Length
        invariant 0 <= i <= pending.Length && pending[..] == was
        invariant Added(was, p).0 == was[..i] + Added(was[i..], p).0 && Added(was, p).1 == Added(was[i..], p).1
      {
        AddNext(was, i, p);
        if pending[i].None? {
          Splice(was[..i], was, i, Some(p));
          pending[i] := Some(p);
          return true;
        }
        i := i + 1;
      }
      AddNext(was, i, p);
      ok := false;
    }

    method IsPending(to: bv32, id: bv32) returns (r: bool)
      requires Valid()
      ensures r <==> exists k :: 0 <= k < SLOTS && Matches(pending[k], to, id)
    {
      for i := 0 to pending.Length
        invariant forall k :: 0 <= k < i ==> !Matches(pending[k], to, id)
      {
        if Matches(pending[i], to, id) {
          return true;
        }
      }
      r := false;
    }

    method HandleAck(from: bv32, id: bv32) returns (ok: bool)
      requires Valid()
      modifies pending
      ensures (pending[..], ok) == Acknowledged(old(pending[..]), from, id)
    {
      hide Matches, Acknowledged;
      ghost var was := pending[..];
      var i := 0;
      AckNext(was, 0, from, id);
      while i < pending.Length
        invariant 0 <= i <= pending.Length && pending[..] == was
        invariant Acknowledged(was, from, id).0 == was[..i] + Acknowledged(was[i..], from, id).0
        invariant Acknowledged(was, from, id).1 == Acknowledged(was[i..], from, id).1
      {
        AckNext(was, i, from, id);
        if Matches(pending[i], from, id) {
          Splice(was[..i], was, i, None);
          pending[i] := None;
          return true;
        }
        i := i + 1;
      }
      AckNext(was, i, from, id);
      ok := false;
    }

    method GetRetransmit(now: nat) returns (r: Option<Octets>)
      requires Valid()
      modifies pending
      ensures (pending[..], r) == Retransmitted(old(pending[..]), now)
    {
      hide Due, Spent, Retransmitted;
      ghost var was := pending[..];
      ghost var done: Slots := [];
      var i := 0;
      PollNext(was, 0, now, []);
      while i < pending.Length
        invariant 0 <= i <= pending.Length == |was| && |done| == i && pending[..] == done + was[i..]
        invariant Retransmitted(was, now).0 == done + Retransmitted(was[i..], now).0
        invariant Retransmitted(was, now).1 == Retransmitted(was[i..], now).1
      {
        PollNext(was, i, now, done);
        Splice(done, was, i, pending[i]);
        var x := pending[i];
        if x.Some? && Due(x.value, now) {
          if !Spent(x.value) {
            x := Some(x.value.(txCount := x.value.txCount + 1, lastTxTime := now));
            Splice(done, was, i, x);
            pending[i] := x;
            return Some(x.value.data);
          }
          x := None;
        }
        Splice(done, was, i, x);
        pending[i] := x;
        done := done + [x];
        i := i + 1;
      }
      PollNext(was, i, now, done);
      assert done + was[i..] == done;
      r := None;
    }

    method Clear()
      requires Valid()
      modifies pending
      ensures forall k :: 0 <= k < SLOTS ==> pending[k] == None
    {
      for i := 0 to pending.Length
        invariant forall k :: 0 <= k < i ==> pending[k] == None
      {
        pending[i] := None;
      }
    }
  }

  // ---- One turn of each scan ----

  lemma Associate(a: Slots, b: Slots, c: Slots)
    ensures a + b + c == a + (b + c) && [] + a == a && a + [] == a
  {
  }

  /** Writing slot i, with the slots before it as in done. */
  lemma Splice(done: Slots, was: Slots, i: nat, x: Option<Pending>)
    requires i == |done| && i < |was|
    ensures (done + was[i..])[i] == was[i] && (done + was[i..])[i := x] == done + [x] + was[i + 1..]
    ensures done == was[..i] ==> done + was[i..] == was && was[i := x] == done + [x] + was[i + 1..]
  {
  }

  lemma Slice(was: Slots, i: nat)
    requires i < |was|
    ensures was[i..][0] == was[i] && was[i..][1..] == was[i + 1..] && was[..i + 1] == was[..i] + [was[i]]
  {
  }

  lemma AddNext(was: Slots, i: nat, p: Pending)
    requires i <= |was|
    ensures i == 0 ==> Added(was, p).0 == was[..i] + Added(was[i..], p).0 && was[i..] == was
    ensures i == |was| ==> was[..i] + Added(was[i..], p).0 == was && !Added(was[i..], p).1
    ensures i < |was| && was[i].None? ==>
      was[..i] + Added(was[i..], p).0 == was[..i] + [Some(p)] + was[i + 1..] && Added(was[i..], p).1
    ensures i < |was| && was[i].Some? ==>
      was[..i] + Added(was[i..], p).0 == was[..i + 1] + Added(was[i + 1..], p).0 &&
          Added(was[i..], p).1 == Added(was[i + 1..], p).1
  {
    if i == 0 {
      assert was[..0] == [] && was[0..] == was;
      Associate(Added(was, p).0, [], []);
    }
    if i < |was| {
      Slice(was, i);
      Associate(was[..i], [was[i]], Added(was[i + 1..], p).0);
      Associate(was[..i], [Some(p)], was[i + 1..]);
    } else {
      assert was[i..] == [] && was[..i] == was;
    }
  }

  lemma AckNext(was: Slots, i: nat, from: bv32, id: bv32)
    requires i <= |was|
    ensures i == 0 ==> Acknowledged(was, from, id).0 == was[..i] + Acknowledged(was[i..], from, id).0 && was[i..] == was
    ensures i == |was| ==> was[..i] + Acknowledged(was[i..], from, id).0 == was && !Acknowledged(was[i..], from, id).1
    ensures i < |was| && Matches(was[i], from, id) ==>
      was[..i] + Acknowledged(was[i..], from, id).0 == was[..i] + [None] + was[i + 1..] &&
          Acknowledged(was[i..], from, id).1
    ensures i < |was| && !Matches(was[i], from, id) ==>
      was[..i] + Acknowledged(was[i..], from, id).0 == was[..i + 1] + Acknowledged(was[i + 1..], from, id).0
      && Acknowledged(was[i..], from, id).1 == Acknowledged(was[i + 1..], from, id).1
  {
    hide Matches;
    if i == 0 {
      assert was[..0] == [] && was[0..] == was;
      Associate(Acknowledged(was, from, id).0, [], []);
    }
    if i < |was| {
      Slice(was, i);
      Associate(was[..i], [was[i]], Acknowledged(was[i + 1..], from, id).0);
      Associate(was[..i], [None], was[i + 1..]);
    } else {
      assert was[i..] == [] && was[..i] == was;
    }
  }

  /** The slot as a scan leaves it, when it does not end there. */
  function Passed(slot: Option<Pending>, now: nat): Option<Pending> {
    if slot.Some? && Due(slot.value, now) then None else slot
  }

  lemma PollNext(was: Slots, i: nat, now: nat, done: Slots)
    requires i <= |was|
    ensures i == 0 ==> Retransmitted(was, now).0 == [] + Retransmitted(was[i..], now).0 && was[i..] == was
    ensures i == |was| ==> done + Retransmitted(was[i..], now).0 == done && Retransmitted(was[i..], now).1 == None
    ensures i < |was| && was[i].Some? && Due(was[i].value, now) && !Spent(was[i].value) ==>
      var p := was[i].value;
      done + Retransmitted(was[i..], now).0 == done + [Some(p.(txCount := p.txCount + 1, lastTxTime := now))] +
          was[i + 1..]
      && Retransmitted(was[i..], now).1 == Some(p.data)
    ensures i < |was| && !(was[i].Some? && Due(was[i].value, now) && !Spent(was[i].value)) ==>
      done + Retransmitted(was[i..], now).0 == done + [Passed(was[i], now)] + Retransmitted(was[i + 1..], now).0
      && Retransmitted(was[i..], now).1 == Retransmitted(was[i + 1..], now).1
  { }

  // ---- What they guarantee ----

  function Count(s: Slots): nat {
    if s == [] then 0 else (if s[0].Some? then 1 else 0) + Count(s[1..])
  }

  /** The transmissions a packet has left, and all of them together. */
  function Left(p: Pending): nat {
    if p.txCount < p.maxRetransmit then p.maxRetransmit - p.txCount else 0
  }

  function Budget(s: Slots): nat {
    if s == [] then 0 else (if s[0].Some? then Left(s[0].value) else 0) + Budget(s[1..])
  }

  /** A packet is taken exactly when a slot is free; it brings its own transmissions. */
  lemma {:induction false} AddMeans(s: Slots, p: Pending)
    ensures var (t, ok) := Added(s, p);
      && |t| == |s| && (ok <==> None in s)
      && Count(t) == Count(s) + (if ok then 1 else 0) && Budget(t) == Budget(s) + (if ok then Left(p) else 0)
      && (!ok ==> t == s)
  {
    if s != [] && s[0].Some? {
      AddMeans(s[1..], p);
      assert Added(s, p).0[1..] == Added(s[1..], p).0;
    } else if s != [] {
      assert Added(s, p).0[1..] == s[1..];
    }
  }

  /** An acknowledgement is accepted exactly when its packet is pending; it frees one slot and adds nothing. */
  lemma {:induction false} AckMeans(s: Slots, from: bv32, id: bv32)
    ensures var (t, ok) := Acknowledged(s, from, id);
      && |t| == |s| && (ok <==> exists k :: 0 <= k < |s| && Matches(s[k], from, id))
      && Count(t) == Count(s) - (if ok then 1 else 0) && Budget(t) <= Budget(s)
      && (!ok ==> t == s)
  {
    hide Matches;
    if s != [] {
      var t := Acknowledged(s, from, id).0;
      if Matches(s[0], from, id) {
        assert t[1..] == s[1..];
        assert s[0].Some? by { MatchIsPending(s[0], from, id); }
      } else {
        AckMeans(s[1..], from, id);
        assert t[1..] == Acknowledged(s[1..], from, id).0;
        assert forall k :: 0 <= k < |s[1..]| ==> s[1..][k] == s[k + 1];
        assert forall k :: 1 <= k < |s| ==> s[k] == s[1..][k - 1];
      }
    }
  }

  lemma MatchIsPending(slot: Option<Pending>, from: bv32, id: bv32)
    requires Matches(slot, from, id)
    ensures slot.Some?
  {
  }

  /** A retransmission costs exactly one; silence means that nothing left is due. */
  lemma {:induction false} RetransmitMeans(s: Slots, now: nat)
    ensures var (t, data) := Retransmitted(s, now);
      && |t| == |s| && Count(t) <= Count(s)
      && Budget(t) == Budget(s) - (if data.Some? then 1 else 0)
      && (data.None? ==> forall k :: 0 <= k < |t| && t[k].Some? ==> !Due(t[k].value, now))
  {
    hide Due;
    if s != [] {
      var t := Retransmitted(s, now).0;
      if s[0].Some? && Due(s[0].value, now) && !Spent(s[0].value) {
        assert t[1..] == s[1..];
      } else {
        RetransmitMeans(s[1..], now);
        assert t[1..] == Retransmitted(s[1..], now).0;
        assert forall k :: 1 <= k < |t| ==> t[k] == t[1..][k - 1];
      }
    }
  }

  datatype Event = AddPacket(p: Pending) | Ack(from: bv32, id: bv32) | Poll(now: nat) | ClearAll

  function Step(s: Slots, e: Event): Slots {
    match e
    case AddPacket(p) => Added(s, p).0
    case Ack(from, id) => Acknowledged(s, from, id).0
    case Poll(now) => Retransmitted(s, now).0
    case ClearAll => seq(|s|, k => None)
  }

  function Sent(s: Slots, run: seq<Event>): nat
    decreases |run|
  {
    if run == [] then 0
    else (if run[0].Poll? && Retransmitted(s, run[0].now).1.Some? then 1 else 0) + Sent(Step(s, run[0]), run[1..])
  }

  /** The retransmissions the packets handed in during a run allow. */
  function Allowed(run: seq<Event>): nat {
    if run == [] then 0 else (if run[0].AddPacket? then Left(run[0].p) else 0) + Allowed(run[1..])
  }

  lemma {:induction false} EmptyBudget(n: nat)
    ensures Budget(seq(n, k => None)) == 0
  {
    if n > 0 {
      EmptyBudget(n - 1);
      var s: Slots := seq(n, k => None);
      assert s[1..] == seq(n - 1, k => None);
    }
  }

  /** Over every run no more is sent again than the packets pending at the start and those added allow. */
  lemma {:induction false} Bounded(s: Slots, run: seq<Event>)
    ensures Sent(s, run) <= Budget(s) + Allowed(run)
    decreases |run|
  {
    hide Retransmitted, Acknowledged, Added, Left, Budget;
    if run != [] {
      match run[0] {
        case AddPacket(p) => AddMeans(s, p);
        case Ack(from, id) => AckMeans(s, from, id);
        case Poll(now) => RetransmitMeans(s, now);
        case ClearAll => EmptyBudget(|s|);
      }
      Bounded(Step(s, run[0]), run[1..]);
    }
  }
}
