/** Flooding: the duplicate cache, the routing decision, and a network of nodes that forward what they hear. */
module Mesh {
  import opened LoraPacket
  import opened ModArith
  import opened Words

  // ---- The duplicate cache ----

  const SLOTS := 32

  datatype Entry = Entry(from: bv32, id: bv32, at: bv32)

  datatype Cache = Cache(entries: seq<Entry>, index: nat) {
    predicate Ok() {
      |entries| == SLOTS && index < SLOTS
    }

    /** Packets from node 0 are never taken for duplicates. */
    predicate Has(from: bv32, id: bv32) {
      from != 0 && exists k :: 0 <= k < |entries| && entries[k].from == from && entries[k].id == id
    }

    function Add(from: bv32, id: bv32, at: bv32): (c: Cache)
      requires Ok()
      ensures c.Ok()
    {
      Cache(entries[index := Entry(from, id, at)], (index + 1) % SLOTS)
    }

    function ClearOld(now: bv32, maxAge: bv32): (c: Cache)
      ensures |c.entries| == |entries| && c.index == index
    {
      Cache(seq(|entries|, k requires 0 <= k < |entries| => Kept(entries[k], now, maxAge)), index)
    }
  }

  const EMPTY := Cache(seq(SLOTS, k => Entry(0, 0, 0)), 0)

  function Age(now: bv32, at: bv32): bv32 {
    if now < at then 0 else now - at
  }

  predicate TooOld(e: Entry, now: bv32, maxAge: bv32) {
    e.from != 0 && Age(now, e.at) > maxAge
  }

  function Kept(e: Entry, now: bv32, maxAge: bv32): Entry {
    if TooOld(e, now, maxAge) then Entry(0, 0, 0) else e
  }

  class PacketCache {
    const entries: array<Entry>
    var index: nat

    ghost predicate Valid()
      reads this, entries
    {
      Abs().Ok()
    }

    ghost function Abs(): Cache
      reads this, entries
    {
      Cache(entries[..], index)
    }

    constructor ()
      ensures Valid() && fresh(entries) && Abs() == EMPTY
    {
      entries := new Entry[SLOTS](k => Entry(0, 0, 0));
      index := 0;
      new;
      assert entries[..] == EMPTY.entries;
    }

    method IsDuplicate(from: bv32, id: bv32) returns (r: bool)
      requires Valid()
      ensures r == Abs().Has(from, id)
    {
      var k := 0;
      while k < entries.Length
        invariant 0 <= k <= entries.Length
        invariant forall j :: 0 <= j < k ==> !(entries[j].from == from && entries[j].id == id && entries[j].from != 0)
      {
        if entries[k].from == from && entries[k].id == id && entries[k].from != 0 {
          assert Abs().entries[k] == entries[k];
          return true;
        }
        k := k + 1;
      }
      r := false;
    }

    method Add(from: bv32, id: bv32, at: bv32)
      requires Valid()
      modifies this, entries
      ensures Valid() && Abs() == old(Abs()).Add(from, id, at)
    {
      entries[index] := Entry(from, id, at);
      index := (index + 1) % entries.Length;
    }

    method CheckAndAdd(from: bv32, id: bv32, at: bv32) returns (duplicate: bool)
      requires Valid()
      modifies this, entries
      ensures Valid() && duplicate == old(Abs()).Has(from, id)
      ensures Abs() == if duplicate then old(Abs()) else old(Abs()).Add(from, id, at)
    {
      duplicate := IsDuplicate(from, id);
      if duplicate {
        return;
      }
      Add(from, id, at);
    }

    method ClearOld(now: bv32, maxAge: bv32)
      requires Valid()
      modifies entries
      ensures Valid() && Abs() == old(Abs()).ClearOld(now, maxAge)
    {
      hide Age, TooOld;
      ghost var was := entries[..];
      var k := 0;
      while k < entries.Length
        invariant 0 <= k <= entries.Length && |was| == entries.Length
        invariant forall j :: 0 <= j < k ==> entries[j] == Kept(was[j], now, maxAge)
        invariant forall j :: k <= j < entries.Length ==> entries[j] == was[j]
      {
        if TooOld(entries[k], now, maxAge) {
          entries[k] := Entry(0, 0, 0);
        }
        k := k + 1;
      }
      assert entries[..] == Cache(was, index).ClearOld(now, maxAge).entries;
    }
  }

  // ---- Routing ----

  datatype Decision = Local | Forward | Drop

  const BROADCAST: bv32 := 0xFFFF_FFFF

  function Route(p: MeshPacket, node: bv32, cache: Cache, at: bv32): (r: (Cache, Decision))
    requires cache.Ok()
    ensures r.0.Ok()
  {
    if cache.Has(p.from, p.id) then (cache, Drop)
    else
      (cache.Add(p.from, p.id, at),
       if p.to == node || p.to == BROADCAST then
         if p.to == BROADCAST && p.hopLimit > 0 then Forward else Local
       else if p.hopLimit > 0 then Forward else Drop)
  }

  method RoutePacket(p: MeshPacket, node: bv32, cache: PacketCache, at: bv32) returns (d: Decision)
    requires cache.Valid()
    modifies cache, cache.entries
    ensures cache.Valid() && (cache.Abs(), d) == Route(p, node, old(cache.Abs()), at)
  {
    var duplicate := cache.CheckAndAdd(p.from, p.id, at);
    if duplicate {
      return Drop;
    }
    var isBroadcast := p.to == BROADCAST;
    var isForUs := p.to == node;
    if isForUs || isBroadcast {
      if isBroadcast && p.hopLimit > 0 {
        return Forward;
      }
      return Local;
    }
    d := if p.hopLimit > 0 then Forward else Drop;
  }

  /** What the decision means: forwarding needs hops left, a packet not seen before, and a destination other
      than this node alone; local delivery is for this node, or for all when no hops are left. */
  lemma Decides(p: MeshPacket, node: bv32, cache: Cache, at: bv32)
    requires cache.Ok()
    ensures Route(p, node, cache, at).1 == Forward <==>
      !cache.Has(p.from, p.id) && p.hopLimit > 0 && (p.to == BROADCAST || p.to != node)
    ensures Route(p, node, cache, at).1 == Local <==>
      !cache.Has(p.from, p.id) && (if p.to == BROADCAST then p.hopLimit == 0 else p.to == node)
    ensures p.from != 0 ==> Route(p, node, cache, at).0.Has(p.from, p.id)
    ensures p.from == 0 ==> !cache.Has(p.from, p.id)
  {
    if p.from != 0 && !cache.Has(p.from, p.id) {
      assert cache.Add(p.from, p.id, at).entries[cache.index] == Entry(p.from, p.id, at);
    }
  }

  // ---- A node's history ----

  datatype Event = Arrive(p: MeshPacket, at: bv32) | Clean(now: bv32, maxAge: bv32)

  function Step(node: bv32, cache: Cache, event: Event): (c: Cache)
    requires cache.Ok()
    ensures c.Ok()
  {
    match event
    case Arrive(p, at) => Route(p, node, cache, at).0
    case Clean(now, maxAge) => cache.ClearOld(now, maxAge)
  }

  function After(node: bv32, cache: Cache, events: seq<Event>): (c: Cache)
    requires cache.Ok()
    ensures c.Ok()
  {
    if events == [] then cache
    else Step(node, After(node, cache, events[..|events| - 1]), events[|events| - 1])
  }

  lemma AfterNext(node: bv32, cache: Cache, events: seq<Event>, j: nat)
    requires cache.Ok() && 0 < j <= |events|
    ensures After(node, cache, events[..j]) == Step(node, After(node, cache, events[..j - 1]), events[j - 1])
  {
    assert events[..j][..j - 1] == events[..j - 1];
  }

  /** Event k is the arrival of the packet (from, id), and it is forwarded. */
  ghost predicate Forwards(node: bv32, cache: Cache, events: seq<Event>, k: nat, from: bv32, id: bv32)
    requires cache.Ok() && k < |events|
  {
    && events[k].Arrive? && events[k].p.from == from && events[k].p.id == id
    && Route(events[k].p, node, After(node, cache, events[..k]), events[k].at).1 == Forward
  }

  /** Event k writes an entry: it arrives and is not a duplicate. */
  ghost predicate Adds(node: bv32, cache: Cache, events: seq<Event>, k: nat)
    requires cache.Ok() && k < |events|
  {
    events[k].Arrive? && !After(node, cache, events[..k]).Has(events[k].p.from, events[k].p.id)
  }

  ghost function AddsIn(node: bv32, cache: Cache, events: seq<Event>, i: nat, j: nat): nat
    requires cache.Ok() && i <= j <= |events|
    decreases j
  {
    if i == j then 0 else AddsIn(node, cache, events, i, j - 1) + if Adds(node, cache, events, j - 1) then 1 else 0
  }

  /** The entry written a adds ago. */
  ghost predicate Recent(c: Cache, from: bv32, id: bv32, a: nat)
    requires c.Ok()
  {
    a < SLOTS && var e := c.entries[(c.index + SLOTS - 1 - a) % SLOTS]; e.from == from && e.id == id
  }

  lemma AddAges(c: Cache, from: bv32, id: bv32, a: nat, e: Entry)
    requires c.Ok() && Recent(c, from, id, a) && a + 1 < SLOTS
    ensures Recent(c.Add(e.from, e.id, e.at), from, id, a + 1)
  {
  }

  lemma {:induction false} StaysRecent(node: bv32, cache: Cache, events: seq<Event>, i: nat, j: nat)
    requires cache.Ok() && i < j <= |events| && Adds(node, cache, events, i)
    requires forall k :: i < k < j ==> events[k].Arrive?
    requires AddsIn(node, cache, events, i + 1, j) < SLOTS
    ensures Recent(After(node, cache, events[..j]), events[i].p.from, events[i].p.id,
        AddsIn(node, cache, events, i + 1, j))
    decreases j
  {
    hide Recent, After;
    var from, id := events[i].p.from, events[i].p.id;
    AfterNext(node, cache, events, j);
    var before := After(node, cache, events[..j - 1]);
    if j == i + 1 {
      JustAdded(before, Entry(from, id, events[i].at));
    } else {
      StaysRecent(node, cache, events, i, j - 1);
      if Adds(node, cache, events, j - 1) {
        var e := events[j - 1];
        AddAges(before, from, id, AddsIn(node, cache, events, i + 1, j - 1), Entry(e.p.from, e.p.id, e.at));
      }
    }
  }

  lemma JustAdded(c: Cache, e: Entry)
    requires c.Ok()
    ensures Recent(c.Add(e.from, e.id, e.at), e.from, e.id, 0)
  {
  }

  /** A node forwards a given packet of a nonzero sender at most once, until its cache has been cleaned or
      has taken in thirty-two other packets. */
  lemma ForwardsOnce(node: bv32, cache: Cache, events: seq<Event>, i: nat, j: nat, from: bv32, id: bv32)
    requires cache.Ok() && i < j < |events| && from != 0
    requires Forwards(node, cache, events, i, from, id) && Forwards(node, cache, events, j, from, id)
    ensures (exists k :: i < k < j && events[k].Clean?) || AddsIn(node, cache, events, i + 1, j) >= SLOTS
  {
    hide AddsIn;
    if (forall k :: i < k < j ==> events[k].Arrive?) && AddsIn(node, cache, events, i + 1, j) < SLOTS {
      StaysRecent(node, cache, events, i, j);
      Decides(events[j].p, node, After(node, cache, events[..j]), events[j].at);
    }
  }

  // ---- A network ----

  /** Nodes 0 .. |ids| - 1; every node hears from at most degree others. */
  datatype Network = Network(mic: Mic, ids: seq<bv32>, neighbours: seq<seq<nat>>, degree: nat) {
    ghost predicate Ok() {
      && |ids| == |neighbours|
      && forall n :: 0 <= n < |ids| ==> |neighbours[n]| <= degree && forall m :: m in neighbours[n] ==> m < |ids|
    }
  }

  datatype Copy = Copy(node: nat, data: Octets)

  datatype World = World(caches: seq<Cache>, flight: seq<Copy>) {
    ghost predicate Ok(net: Network) {
      && |caches| == |net.ids|
      && (forall n :: 0 <= n < |caches| ==> caches[n].Ok())
      && (forall c :: c in flight ==> c.node < |net.ids|)
    }
  }

  /** A copy arrives at its node at some local time, is lost on the air, or a node cleans its cache. */
  datatype Happening = Deliver(k: nat, at: bv32) | Lose(k: nat) | Tidy(n: nat, now: bv32, maxAge: bv32)

  function Sends(to: seq<nat>, data: Octets): (r: seq<Copy>)
    ensures |r| == |to|
    ensures forall c :: c in r ==> c.data == data && c.node in to
  {
    if to == [] then [] else [Copy(to[0], data)] + Sends(to[1..], data)
  }

  function Without(flight: seq<Copy>, k: nat): seq<Copy>
    requires k < |flight|
  {
    flight[..k] + flight[k + 1..]
  }

  /** What a node puts on the air on hearing a packet. */
  function Relayed(net: Network, node: nat, cache: Cache, p: MeshPacket, at: bv32): seq<Copy>
    requires node < |net.ids| == |net.neighbours| && cache.Ok()
  {
    if Route(p, net.ids[node], cache, at).1 != Forward then []
    else
      match CreateForward(net.mic, p, p.payload)
      case None => []
      case Some(data) => Sends(net.neighbours[node], data)
  }

  ghost predicate Can(net: Network, w: World, h: Happening) {
    match h
    case Deliver(k, _) => k < |w.flight|
    case Lose(k) => k < |w.flight|
    case Tidy(n, _, _) => n < |w.caches|
  }

  ghost function Next(net: Network, w: World, h: Happening): (w': World)
    requires net.Ok() && w.Ok(net) && Can(net, w, h)
    ensures w'.Ok(net)
  {
    match h
    case Lose(k) => World(w.caches, Without(w.flight, k))
    case Tidy(n, now, maxAge) => World(w.caches[n := w.caches[n].ClearOld(now, maxAge)], w.flight)
    case Deliver(k, at) =>
      var n, rest := w.flight[k].node, Without(w.flight, k);
      match Parse(w.flight[k].data)
      case None => World(w.caches, rest)
      case Some(p) =>
        World(w.caches[n := Route(p, net.ids[n], w.caches[n], at).0], rest + Relayed(net, n, w.caches[n], p, at))
  }

  // ---- Every flood dies out ----

  /** (degree + 1) to the number of hops a copy has left. */
  function Weight(net: Network, data: Octets): (r: nat)
    ensures r >= 1
  {
    PowPositive(net.degree + 1, if Parse(data).Some? then Parse(data).value.hopLimit as nat else 0);
    Pow(net.degree + 1, if Parse(data).Some? then Parse(data).value.hopLimit as nat else 0)
  }

  function Load(net: Network, flight: seq<Copy>): nat {
    if flight == [] then 0 else Weight(net, flight[0].data) + Load(net, flight[1..])
  }

  lemma {:induction false} PowPositive(b: nat, e: nat)
    requires b >= 1
    ensures Pow(b, e) >= 1
  {
    if e > 0 {
      PowPositive(b, e - 1);
      assert Pow(b, e) >= Pow(b, e - 1);
    }
  }

  lemma {:induction false} LoadAdds(net: Network, a: seq<Copy>, b: seq<Copy>)
    ensures Load(net, a + b) == Load(net, a) + Load(net, b)
  {
    hide Weight;
    if a == [] {
      assert a + b == b;
    } else {
      LoadAdds(net, a[1..], b);
      assert (a + b)[1..] == a[1..] + b;
    }
  }

  lemma LoadWithout(net: Network, flight: seq<Copy>, k: nat)
    requires k < |flight|
    ensures Load(net, Without(flight, k)) == Load(net, flight) - Weight(net, flight[k].data)
  {
    hide Weight;
    LoadAdds(net, flight[..k], flight[k..]);
    LoadAdds(net, flight[..k], flight[k + 1..]);
    assert flight == flight[..k] + flight[k..] && flight[k..][1..] == flight[k + 1..];
  }

  lemma {:induction false} LoadOfSends(net: Network, to: seq<nat>, data: Octets)
    ensures Load(net, Sends(to, data)) == |to| * Weight(net, data)
  {
    hide Weight;
    if to != [] {
      LoadOfSends(net, to[1..], data);
      assert Sends(to, data) == [Copy(to[0], data)] + Sends(to[1..], data);
      assert Sends(to, data)[1..] == Sends(to[1..], data);
      assert Sends(to, data)[0].data == data;
      Distribute(|to|, Weight(net, data));
    }
  }

  lemma ForwardWeighs(net: Network, data: Octets)
    requires Parse(data).Some? && CreateForward(net.mic, Parse(data).value, Parse(data).value.payload).Some?
    ensures Weight(net, data) == (net.degree + 1) * Weight(net,
        CreateForward(net.mic, Parse(data).value, Parse(data).value.payload).value)
  { }

  /** What a node relays weighs less than what it heard. */
  lemma RelayIsLighter(net: Network, node: nat, cache: Cache, data: Octets, at: bv32)
    requires net.Ok() && node < |net.ids| && cache.Ok() && Parse(data).Some?
    ensures Load(net, Relayed(net, node, cache, Parse(data).value, at)) < Weight(net, data)
  {
    hide Parse, CreateForward, Weight, Route;
    var p := Parse(data).value;
    var f := CreateForward(net.mic, p, p.payload);
    if f.Some? {
      ForwardWeighs(net, data);
      LoadOfSends(net, net.neighbours[node], f.value);
      Product(|net.neighbours[node]|, net.degree, Weight(net, f.value));
    }
  }

  lemma Distribute(n: nat, w: nat)
    ensures n * w == (n - 1) * w + w
  {
  }

  lemma Product(a: nat, d: nat, w: nat)
    requires a <= d && w >= 1
    ensures a * w < (d + 1) * w
  {
  }

  /** Each delivery and each loss makes the load on the air smaller; cleaning a cache leaves it alone. */
  lemma LoadFalls(net: Network, w: World, h: Happening)
    requires net.Ok() && w.Ok(net) && Can(net, w, h)
    ensures Load(net, Next(net, w, h).flight) + (if h.Tidy? then 0 else 1) <= Load(net, w.flight)
  {
    hide Parse, Weight, Relayed, Route, Without;
    if !h.Tidy? {
      LoadWithout(net, w.flight, h.k);
    }
    if h.Deliver? && Parse(w.flight[h.k].data).Some? {
      var n, p := w.flight[h.k].node, Parse(w.flight[h.k].data).value;
      RelayIsLighter(net, n, w.caches[n], w.flight[h.k].data, h.at);
      LoadAdds(net, Without(w.flight, h.k), Relayed(net, n, w.caches[n], p, h.at));
    }
  }

  ghost predicate Possible(net: Network, w: World, run: seq<Happening>)
    requires net.Ok() && w.Ok(net)
    decreases |run|
  {
    run == [] || (Can(net, w, run[0]) && Possible(net, Next(net, w, run[0]), run[1..]))
  }

  function Arrivals(run: seq<Happening>): nat {
    if run == [] then 0 else Arrivals(run[1..]) + if run[0].Tidy? then 0 else 1
  }

  /** Every flood dies out: whatever the network, the copies in the air, the timing, the losses and the
      cleaning of caches, a run has no more arrivals than the load it started with. */
  lemma {:induction false} FloodEnds(net: Network, w: World, run: seq<Happening>)
    requires net.Ok() && w.Ok(net) && Possible(net, w, run)
    ensures Arrivals(run) <= Load(net, w.flight)
    decreases |run|
  {
    hide Next, Load, Can;
    if run != [] {
      LoadFalls(net, w, run[0]);
      FloodEnds(net, Next(net, w, run[0]), run[1..]);
    }
  }
}
