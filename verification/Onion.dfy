/** Onion layering: a payload is wrapped for the hops of a route from the last inward, and each hop
    peels one layer with a key it shares with the sender. */
module Onion {
  import opened StreamCipher
  import opened Words
  import opened Wrappers

  const MIN_HOPS := 3
  const MAX_HOPS := 7
  const HOP_OVERHEAD := 18  // a two-byte hint and a sixteen-byte tag
  const CAPACITY := 256

  datatype Hop = Hop(hint: bv16, publicKey: Key)

  datatype Packet = Packet(data: Octets, numLayers: bv8)

  datatype OnionError = InvalidRoute | PacketTooLarge | AuthenticationFailed | DecryptionFailed | NoMoreLayers

  /** The primitives beneath the layers: functions of their inputs, otherwise arbitrary. */
  datatype Crypto = Crypto(
    hkdf: (Octets, Octets) -> Key,
    dh: (Key, Key) -> Key,
    pub: Key -> Key,
    aes: Cipher,
    tagByte: (Key, Octets, nat) -> bv8)
  {
    ghost predicate Agrees() {
      forall a, b :: dh(a, pub(b)) == dh(b, pub(a))
    }

    function Tag(key: Key, data: Octets): (t: Octets)
      ensures |t| == 16
    {
      seq(16, i requires 0 <= i => tagByte(key, data, i))
    }

    function LayerKey(ours: Key, theirs: Key, index: bv8): Key {
      hkdf(dh(ours, theirs) + [index], [index])
    }
  }

  // ---- What the operations do ----

  /** A push onto a bounded vector, refused when it does not fit. */
  function Extend(v: Octets, data: Octets): Result<Octets, OnionError> {
    if |v| + |data| <= CAPACITY then Ok(v + data) else Err(PacketTooLarge)
  }

  function EncryptLayer(c: Crypto, key: Key, data: Octets): Result<Octets, OnionError> {
    match Extend([], data)
    case Err(e) => Err(e)
    case Ok(output) => Ok(Crypt(c.aes, key, 0, output))
  }

  function NextHint(hops: seq<Hop>, i: nat): bv16
    requires i < |hops|
  {
    if i == |hops| - 1 then 0 else hops[i + 1].hint
  }

  function HintBytes(hint: bv16): Octets {
    [(hint >> 8) as bv8, (hint & 0xFF) as bv8]
  }

  function HintOf(data: Octets): bv16
    requires |data| >= 2
  {
    ((data[0] as bv16) << 8) | (data[1] as bv16)
  }

  function AddLayer(c: Crypto, key: Key, hint: bv16, current: Octets): Result<Octets, OnionError> {
    match EncryptLayer(c, key, current)
    case Err(e) => Err(e)
    case Ok(encrypted) =>
      match Extend(HintBytes(hint), c.Tag(key, encrypted))
      case Err(e) => Err(e)
      case Ok(front) => Extend(front, encrypted)
  }

  /** Layers for hops i - 1 down to 0 around current. */
  function WrapFrom(c: Crypto, ours: Key, hops: seq<Hop>, current: Octets, i: nat): Result<Octets, OnionError>
    requires i <= |hops| <= MAX_HOPS
    decreases i
  {
    if i == 0 then Ok(current)
    else
      var key := c.LayerKey(ours, hops[i - 1].publicKey, Left(hops, i));
      match AddLayer(c, key, NextHint(hops, i - 1), current)
      case Err(e) => Err(e)
      case Ok(layer) => WrapFrom(c, ours, hops, layer, i - 1)
  }

  function Wrapped(c: Crypto, ours: Key, payload: Octets, hops: seq<Hop>): Result<Packet, OnionError> {
    if |hops| < MIN_HOPS || |hops| > MAX_HOPS then Err(InvalidRoute)
    else if |payload| + |hops| * HOP_OVERHEAD > CAPACITY then Err(PacketTooLarge)
    else
      match WrapFrom(c, ours, hops, payload, |hops|)
      case Err(e) => Err(e)
      case Ok(data) => Ok(Packet(data, Left(hops, 0)))
  }

  /** The layers a packet still has when hop i gets it; one fewer is that hop's layer index. */
  function Left(hops: seq<Hop>, i: nat): bv8
    requires i <= |hops| <= MAX_HOPS
  {
    (|hops| - i) as bv8
  }

  lemma LeftDrops(hops: seq<Hop>, i: nat)
    requires i < |hops| <= MAX_HOPS
    ensures Left(hops, i + 1) < 0xFF && Left(hops, i) == Left(hops, i + 1) + 1
  {
  }

  function LessOne(layers: bv8): bv8 {
    if layers == 0 then 0 else layers - 1
  }

  function UnwrappedFinal(c: Crypto, ours: Key, packet: Packet, senderPublic: Key): Result<Octets, OnionError> {
    if |packet.data| < HOP_OVERHEAD then Err(DecryptionFailed)
    else
      var encrypted := packet.data[18..];
      var key := c.LayerKey(ours, senderPublic, LessOne(packet.numLayers));
      if packet.data[2..18] != c.Tag(key, encrypted) then Err(AuthenticationFailed)
      else EncryptLayer(c, key, encrypted)
  }

  function Unwrapped(c: Crypto, ours: Key, packet: Packet, senderPublic: Key): Result<(bv16, Packet), OnionError> {
    match UnwrappedFinal(c, ours, packet, senderPublic)
    case Err(e) => Err(e)
    case Ok(inner) =>
      var hint := HintOf(packet.data);
      if hint == 0 then Err(NoMoreLayers) else Ok((hint, Packet(inner, LessOne(packet.numLayers))))
  }

  // ---- The router's methods ----

  method EncryptInto(c: Crypto, key: Key, data: Octets) returns (r: Result<Octets, OnionError>)
    ensures r == EncryptLayer(c, key, data)
  {
    var output := Extend([], data);
    if output.Err? {
      return Err(output.error);
    }
    var encrypted := CryptCopy(c.aes, key, 0, output.value);
    r := Ok(encrypted);
  }

  method Wrap(c: Crypto, ours: Key, payload: Octets, hops: seq<Hop>) returns (r: Result<Packet, OnionError>)
    ensures r == Wrapped(c, ours, payload, hops)
  {
    hide EncryptLayer, HintBytes, Extend, WrapFrom, Left, NextHint;
    if |hops| < MIN_HOPS || |hops| > MAX_HOPS {
      return Err(InvalidRoute);
    }
    var totalOverhead := |hops| * HOP_OVERHEAD;
    if |payload| + totalOverhead > CAPACITY {
      return Err(PacketTooLarge);
    }
    var current, i := payload, |hops|;
    while i > 0
      invariant 0 <= i <= |hops|
      invariant WrapFrom(c, ours, hops, current, i) == WrapFrom(c, ours, hops, payload, |hops|)
    {
      WrapNext(c, ours, hops, current, i);
      i := i - 1;
      var layerIndex := Left(hops, i + 1);
      var layerKey := c.LayerKey(ours, hops[i].publicKey, layerIndex);
      var encrypted := EncryptInto(c, layerKey, current);
      if encrypted.Err? {
        return Err(encrypted.error);
      }
      var tag := c.Tag(layerKey, encrypted.value);
      var newLayer := Extend(HintBytes(NextHint(hops, i)), tag);
      if newLayer.Err? {
        return Err(newLayer.error);
      }
      newLayer := Extend(newLayer.value, encrypted.value);
      if newLayer.Err? {
        return Err(newLayer.error);
      }
      current := newLayer.value;
    }
    WrapEnd(c, ours, hops, current);
    r := Ok(Packet(current, Left(hops, 0)));
  }

  lemma WrapNext(c: Crypto, ours: Key, hops: seq<Hop>, current: Octets, i: nat)
    requires 0 < i <= |hops| <= MAX_HOPS
    ensures WrapFrom(c, ours, hops, current, i) ==
      match AddLayer(c, c.LayerKey(ours, hops[i - 1].publicKey, Left(hops, i)), NextHint(hops, i - 1), current)
      case Err(e) => Err(e)
      case Ok(layer) => WrapFrom(c, ours, hops, layer, i - 1)
  {
  }

  lemma WrapEnd(c: Crypto, ours: Key, hops: seq<Hop>, current: Octets)
    requires |hops| <= MAX_HOPS
    ensures WrapFrom(c, ours, hops, current, 0) == Ok(current)
  {
  }

  method UnwrapFinal(c: Crypto, ours: Key, packet: Packet, senderPublic: Key) returns (r: Result<Octets, OnionError>)
    ensures r == UnwrappedFinal(c, ours, packet, senderPublic)
  {
    if |packet.data| < HOP_OVERHEAD {
      return Err(DecryptionFailed);
    }
    var tag, encrypted := packet.data[2..18], packet.data[18..];
    var layerKey := c.LayerKey(ours, senderPublic, LessOne(packet.numLayers));
    if tag != c.Tag(layerKey, encrypted) {
      return Err(AuthenticationFailed);
    }
    r := EncryptInto(c, layerKey, encrypted);
  }

  method Unwrap(c: Crypto, ours: Key, packet: Packet, senderPublic: Key) returns (r: Result<(bv16, Packet), OnionError>)
    ensures r == Unwrapped(c, ours, packet, senderPublic)
  {
    if |packet.data| < HOP_OVERHEAD {
      return Err(DecryptionFailed);
    }
    var nextHint := HintOf(packet.data);
    var tag, encrypted := packet.data[2..18], packet.data[18..];
    var layerKey := c.LayerKey(ours, senderPublic, LessOne(packet.numLayers));
    if tag != c.Tag(layerKey, encrypted) {
      return Err(AuthenticationFailed);
    }
    var inner := EncryptInto(c, layerKey, encrypted);
    if inner.Err? {
      return Err(inner.error);
    }
    if nextHint == 0 {
      return Err(NoMoreLayers);
    }
    r := Ok((nextHint, Packet(inner.value, LessOne(packet.numLayers))));
  }

  // ---- Peeling ----

  /** What one layer holds, when there is room for it. */
  lemma LayerShape(c: Crypto, key: Key, hint: bv16, inner: Octets)
    requires |inner| + HOP_OVERHEAD <= CAPACITY
    ensures var layer := AddLayer(c, key, hint, inner);
      && layer.Ok? && |layer.value| == |inner| + HOP_OVERHEAD
      && HintOf(layer.value) == hint
      && layer.value[18..] == Crypt(c.aes, key, 0, inner)
      && layer.value[2..18] == c.Tag(key, Crypt(c.aes, key, 0, inner))
  { }

  /** The hop that shares the layer's key, at the layer's index, opens it and finds the hint. */
  lemma OpenLayer(c: Crypto, ours: Key, theirs: Key, index: bv8, hint: bv16, inner: Octets)
    requires c.Agrees() && |inner| + HOP_OVERHEAD <= CAPACITY && index < 0xFF
    ensures var layer := AddLayer(c, c.LayerKey(ours, c.pub(theirs), index), hint, inner);
      && layer.Ok?
      && var packet := Packet(layer.value, index + 1);
      && UnwrappedFinal(c, theirs, packet, c.pub(ours)) == Ok(inner)
      && Unwrapped(c, theirs, packet, c.pub(ours)) ==
           if hint == 0 then Err(NoMoreLayers) else Ok((hint, Packet(inner, index)))
  {
    hide AddLayer;
    var key := c.LayerKey(ours, c.pub(theirs), index);
    LayerShape(c, key, hint, inner);
    CryptTwice(c.aes, key, 0, inner);
    assert c.dh(ours, c.pub(theirs)) == c.dh(theirs, c.pub(ours));
    assert [] + Crypt(c.aes, key, 0, inner) == Crypt(c.aes, key, 0, inner);
  }

  /** The packet a hop should see: the layers from hop i on. */
  function Seen(c: Crypto, ours: Key, hops: seq<Hop>, payload: Octets, i: nat): Octets
    requires i <= |hops| <= MAX_HOPS
    decreases |hops| - i
  {
    if i == |hops| then payload
    else
      var inner := Seen(c, ours, hops, payload, i + 1);
      var layer := AddLayer(c, c.LayerKey(ours, hops[i].publicKey, Left(hops, i + 1)), NextHint(hops, i), inner);
      if layer.Ok? then layer.value else inner
  }

  lemma {:induction false} SeenSize(c: Crypto, ours: Key, hops: seq<Hop>, payload: Octets, i: nat)
    requires i <= |hops| <= MAX_HOPS && |payload| + |hops| * HOP_OVERHEAD <= CAPACITY
    ensures |Seen(c, ours, hops, payload, i)| == |payload| + (|hops| - i) * HOP_OVERHEAD
    decreases |hops| - i
  {
    hide AddLayer, Left;
    if i < |hops| {
      SeenSize(c, ours, hops, payload, i + 1);
      LayerShape(c, c.LayerKey(ours, hops[i].publicKey, Left(hops, i + 1)), NextHint(hops, i),
                 Seen(c, ours, hops, payload, i + 1));
    }
  }

  /** No push fails, and the layers come out in the order the hops need them. */
  lemma {:induction false} WrapIsSeen(c: Crypto, ours: Key, hops: seq<Hop>, payload: Octets, i: nat)
    requires i <= |hops| <= MAX_HOPS && |payload| + |hops| * HOP_OVERHEAD <= CAPACITY
    ensures WrapFrom(c, ours, hops, Seen(c, ours, hops, payload, i), i) == Ok(Seen(c, ours, hops, payload, 0))
  {
    hide AddLayer, Left;
    if i > 0 {
      WrapIsSeen(c, ours, hops, payload, i - 1);
      SeenSize(c, ours, hops, payload, i);
      LayerShape(c, c.LayerKey(ours, hops[i - 1].publicKey, Left(hops, i)), NextHint(hops, i - 1),
                 Seen(c, ours, hops, payload, i));
    }
  }

  /** Wrapping succeeds exactly when the route has three to seven hops and the packet fits; its size is then
      the payload's plus eighteen bytes a hop. */
  lemma WrapFits(c: Crypto, ours: Key, payload: Octets, hops: seq<Hop>)
    ensures var r := Wrapped(c, ours, payload, hops);
      && (r.Ok? <==> MIN_HOPS <= |hops| <= MAX_HOPS && |payload| + |hops| * HOP_OVERHEAD <= CAPACITY)
      && (r.Ok? ==> r.value == Packet(Seen(c, ours, hops, payload, 0), Left(hops, 0))
                    && |r.value.data| == |payload| + |hops| * HOP_OVERHEAD)
  {
    hide WrapFrom, Seen, Left;
    if MIN_HOPS <= |hops| <= MAX_HOPS && |payload| + |hops| * HOP_OVERHEAD <= CAPACITY {
      WrapIsSeen(c, ours, hops, payload, |hops|);
      assert Seen(c, ours, hops, payload, |hops|) == payload by {
        SeenAll(c, ours, hops, payload);
      }
      SeenSize(c, ours, hops, payload, 0);
    }
  }

  lemma SeenAll(c: Crypto, ours: Key, hops: seq<Hop>, payload: Octets)
    requires |hops| <= MAX_HOPS
    ensures Seen(c, ours, hops, payload, |hops|) == payload
  {
  }

  /** The packet handed from hop to hop: each but the last unwraps and reports a hint, the last
      unwraps for good. */
  function Travel(c: Crypto, privates: seq<Key>, packet: Packet, senderPublic: Key): Result<(seq<bv16>, Octets),
      OnionError>
    requires privates != []
  {
    if |privates| == 1 then
      match UnwrappedFinal(c, privates[0], packet, senderPublic)
      case Err(e) => Err(e)
      case Ok(payload) => Ok(([], payload))
    else
      match Unwrapped(c, privates[0], packet, senderPublic)
      case Err(e) => Err(e)
      case Ok(pair) =>
        match Travel(c, privates[1..], pair.1, senderPublic)
        case Err(e) => Err(e)
        case Ok(rest) => Ok(([pair.0] + rest.0, rest.1))
  }

  function Hints(hops: seq<Hop>, i: nat): seq<bv16>
    requires i <= |hops|
  {
    seq(|hops| - i, k requires 0 <= k < |hops| - i => hops[i + k].hint)
  }

  lemma HintsFront(hops: seq<Hop>, i: nat)
    requires i < |hops|
    ensures Hints(hops, i) == [hops[i].hint] + Hints(hops, i + 1)
    ensures 0 in Hints(hops, i) <==> hops[i].hint == 0 || 0 in Hints(hops, i + 1)
  { }

  lemma HintsEnd(hops: seq<Hop>)
    ensures Hints(hops, |hops|) == []
  {
  }

  /** Hop i opens what it is given and finds the packet for hop i + 1. */
  lemma PeelOne(c: Crypto, ours: Key, hops: seq<Hop>, private: Key, payload: Octets, i: nat)
    requires c.Agrees() && i < |hops| <= MAX_HOPS && hops[i].publicKey == c.pub(private)
    requires |payload| + |hops| * HOP_OVERHEAD <= CAPACITY
    ensures var packet, inner := Packet(Seen(c, ours, hops, payload, i), Left(hops, i)),
        Seen(c, ours, hops, payload, i + 1);
      && UnwrappedFinal(c, private, packet, c.pub(ours)) == Ok(inner)
      && Unwrapped(c, private, packet, c.pub(ours)) ==
           if NextHint(hops, i) == 0 then Err(NoMoreLayers)
           else Ok((NextHint(hops, i), Packet(inner, Left(hops, i + 1))))
  {
    hide AddLayer, Unwrapped, UnwrappedFinal, Left, NextHint;
    LeftDrops(hops, i);
    SeenSize(c, ours, hops, payload, i + 1);
    OpenLayer(c, ours, private, Left(hops, i + 1), NextHint(hops, i), Seen(c, ours, hops, payload, i + 1));
  }

  lemma {:induction false} TravelFrom(c: Crypto, ours: Key, hops: seq<Hop>, privates: seq<Key>, payload: Octets, i: nat)
    requires c.Agrees() && i < |hops| <= MAX_HOPS && |privates| == |hops|
    requires forall k :: 0 <= k < |hops| ==> hops[k].publicKey == c.pub(privates[k])
    requires |payload| + |hops| * HOP_OVERHEAD <= CAPACITY
    ensures Travel(c, privates[i..], Packet(Seen(c, ours, hops, payload, i), Left(hops, i)), c.pub(ours))
         == if 0 in Hints(hops, i + 1) then Err(NoMoreLayers) else Ok((Hints(hops, i + 1), payload))
    decreases |hops| - i
  {
    hide AddLayer, Unwrapped, UnwrappedFinal, Left, Hints, Seen, c.Agrees;
    PeelOne(c, ours, hops, privates[i], payload, i);
    HintsEnd(hops);
    var rest := privates[i..];
    assert rest[0] == privates[i];
    if i < |hops| - 1 {
      TravelFrom(c, ours, hops, privates, payload, i + 1);
      assert rest[1..] == privates[i + 1..];
      HintsFront(hops, i + 1);
    } else {
      SeenAll(c, ours, hops, payload);
    }
  }

  /** The peel: over any route the hops' keys learn hops 2 to n's hints in order and then the payload,
      if and only if none of those hints is zero; a zero hint stops the packet with NoMoreLayers. */
  lemma Peel(c: Crypto, ours: Key, hops: seq<Hop>, privates: seq<Key>, payload: Octets)
    requires c.Agrees() && |privates| == |hops|
    requires forall k :: 0 <= k < |hops| ==> hops[k].publicKey == c.pub(privates[k])
    requires Wrapped(c, ours, payload, hops).Ok?
    ensures privates != []
    ensures Travel(c, privates, Wrapped(c, ours, payload, hops).value, c.pub(ours))
         == if 0 in Hints(hops, 1) then Err(NoMoreLayers) else Ok((Hints(hops, 1), payload))
  {
    hide Wrapped, Travel, Seen, Left;
    WrapFits(c, ours, payload, hops);
    TravelFrom(c, ours, hops, privates, payload, 0);
    assert privates[0..] == privates;
  }
}
