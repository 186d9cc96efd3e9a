/** Packet ids: a session and a sequence number, of which the sequence is saved only every 256 ids in
    memory that survives sleep, mixed into 32 bits. */
module PacketId {
  import opened Words
  import opened Wrappers

  const MAGIC: bv32 := 0x4C55_4E42
  const RADIX := 0x1_0000_0000
  const MAX_SEQUENCE := 0xFFFF_FFFE
  const WAKE_SKIP := 256

  // ---- The mixer ----

  function Shift16(x: bv32): bv32 { x ^ (x >> 16) }
  function Shift13(x: bv32): bv32 { x ^ (x >> 13) }
  function Unshift13(y: bv32): bv32 { y ^ (y >> 13) ^ (y >> 26) }

  function Spread(x: bv32): bv32 { x * 0x85EB_CA6B }
  function Unspread(y: bv32): bv32 { y * 0xA5CB_9243 }
  function Stir(x: bv32): bv32 { x * 0xC2B2_AE35 }
  function Unstir(y: bv32): bv32 { y * 0x7ED1_B41D }

  /** Every step of the mixer has an inverse; the odd factors have theirs modulo 2^32. */
  lemma Steps(x: bv32)
    ensures Shift16(Shift16(x)) == x && Unshift13(Shift13(x)) == x
    ensures Unspread(Spread(x)) == x && Unstir(Stir(x)) == x
  {
    assert Shift16(x ^ (x >> 16)) == x;
    assert Unshift13(x ^ (x >> 13)) == x;
    assert Unspread(x * 0x85EB_CA6B) == x;
    assert Unstir(x * 0xC2B2_AE35) == x;
  }

  function Mix(x: bv32): bv32 {
    Shift16(Stir(Shift13(Spread(Shift16(x)))))
  }

  function Unmix(y: bv32): bv32 {
    Shift16(Unspread(Unshift13(Unstir(Shift16(y)))))
  }

  /** The mixer loses nothing: it is a bijection of 32-bit words. */
  lemma MixInverse(x: bv32)
    ensures Unmix(Mix(x)) == x
  {
    hide Shift16, Shift13, Unshift13, Spread, Unspread, Stir, Unstir;
    Steps(x);
    Steps(Shift16(x));
    Steps(Spread(Shift16(x)));
    Steps(Shift13(Spread(Shift16(x))));
    Steps(Stir(Shift13(Spread(Shift16(x)))));
  }

  function Id(session: bv32, sequence: nat): bv32 {
    Mix(Xor(session, Spread(WordFrom(sequence))))
  }

  function Xor(a: bv32, b: bv32): bv32 { a ^ b }

  lemma XorTwice(a: bv32, b: bv32)
    ensures Xor(a, Xor(a, b)) == b
  { }

  /** Within a session different sequence numbers give different ids. */
  lemma IdInjective(session: bv32, m: nat, n: nat)
    requires m < RADIX && n < RADIX
    ensures Id(session, m) == Id(session, n) <==> m == n
  {
    hide Mix, Unmix, Xor, Spread, Unspread, WordFrom;
    if Id(session, m) == Id(session, n) {
      var (v, w) := (WordFrom(m), WordFrom(n));
      MixInverse(Xor(session, Spread(v)));
      MixInverse(Xor(session, Spread(w)));
      XorTwice(session, Spread(v));
      XorTwice(session, Spread(w));
      Steps(v);
      Steps(w);
      WordFromInjective(m, n);
    }
  }

  // ---- The two memories ----

  /** What survives sleep. */
  datatype Rtc = Rtc(magic: bv32, session: bv32, sequence: nat, boot: nat)

  /** What does not. */
  datatype Ram = Ram(session: bv32, sequence: nat, boot: nat)

  datatype Write = Magic | Boot(n: nat) | Session(id: bv32) | Sequence(n: nat)

  function Apply(rtc: Rtc, w: Write): Rtc {
    match w
    case Magic => rtc.(magic := MAGIC)
    case Boot(n) => rtc.(boot := n)
    case Session(id) => rtc.(session := id)
    case Sequence(n) => rtc.(sequence := n)
  }

  function ApplyAll(rtc: Rtc, writes: seq<Write>): Rtc
    decreases |writes|
  {
    if writes == [] then rtc else ApplyAll(Apply(rtc, writes[0]), writes[1..])
  }

  lemma ApplyTwo(rtc: Rtc, a: Write, b: Write)
    ensures ApplyAll(rtc, []) == rtc && ApplyAll(rtc, [a]) == Apply(rtc, a)
    ensures ApplyAll(rtc, [a, b]) == Apply(Apply(rtc, a), b)
  {
    assert [a, b][1..] == [b] && [b][1..] == [];
    assert ApplyAll(Apply(rtc, a), [b]) == ApplyAll(Apply(Apply(rtc, a), b), []);
  }

  lemma ApplyThree(rtc: Rtc, a: Write, b: Write, c: Write)
    ensures ApplyAll(rtc, [a, b, c]) == Apply(Apply(Apply(rtc, a), b), c)
  {
    assert [a, b, c][1..] == [b, c];
    ApplyTwo(Apply(rtc, a), b, c);
  }

  lemma ApplyFour(rtc: Rtc, a: Write, b: Write, c: Write, d: Write)
    ensures ApplyAll(rtc, [a, b, c, d]) == Apply(Apply(Apply(Apply(rtc, a), b), c), d)
  {
    assert [a, b, c, d][1..] == [b, c, d];
    ApplyThree(Apply(rtc, a), b, c, d);
  }

  function Saturated(n: nat): nat {
    if n < RADIX then n else RADIX - 1
  }

  /** Starting up: where counting resumes, given the session id that would be drawn. */
  function Woken(rtc: Rtc, drawn: bv32): Ram {
    if rtc.magic == MAGIC then
      var boot := (rtc.boot + 1) % RADIX;
      if rtc.sequence >= MAX_SEQUENCE then Ram(drawn, 0, boot)
      else Ram(rtc.session, Saturated(rtc.sequence + WAKE_SKIP), boot)
    else Ram(drawn, 0, 0)
  }

  function WakeWrites(rtc: Rtc, drawn: bv32): seq<Write> {
    var ram := Woken(rtc, drawn);
    if rtc.magic == MAGIC then [Boot(ram.boot), Session(ram.session), Sequence(ram.sequence)]
    else [Magic, Boot(ram.boot), Session(ram.session), Sequence(ram.sequence)]
  }

  function RotateWrites(drawn: bv32): seq<Write> {
    [Session(drawn), Sequence(0)]
  }

  function Counted(ram: Ram, drawn: bv32): Ram {
    if ram.sequence >= MAX_SEQUENCE then Ram(drawn, 0, ram.boot) else ram.(sequence := ram.sequence + 1)
  }

  /** The two numbers past the end are no multiples of 256. */
  function CountWrites(ram: Ram, drawn: bv32): seq<Write> {
    if ram.sequence >= MAX_SEQUENCE then RotateWrites(drawn)
    else if ram.sequence % 256 == 0 then [Session(ram.session), Sequence(ram.sequence)]
    else []
  }

  /** The code's statics and memory slots. */
  class PacketIds {
    var slots: Rtc
    var ram: Ram
    var initialized: bool

    method RtcWrite(w: Write)
      modifies this`slots
      ensures slots == Apply(old(slots), w)
    {
      match w {
        case Magic => slots := slots.(magic := MAGIC);
        case Boot(n) => slots := slots.(boot := n);
        case Session(id) => slots := slots.(session := id);
        case Sequence(n) => slots := slots.(sequence := n);
      }
    }

    method Init(drawn: bv32)
      modifies this
      ensures initialized
      ensures old(initialized) ==> ram == old(ram) && slots == old(slots)
      ensures !old(initialized) ==>
        ram == Woken(old(slots), drawn) && slots == ApplyAll(old(slots), WakeWrites(old(slots), drawn))
    {
      if initialized {
        return;
      }
      initialized := true;
      ghost var was := slots;
      var sessionId, sequence, bootCount := drawn, 0, 0;
      if slots.magic == MAGIC {
        bootCount := (slots.boot + 1) % RADIX;
        if slots.sequence < MAX_SEQUENCE {
          sessionId, sequence := slots.session, Saturated(slots.sequence + WAKE_SKIP);
        }
      } else {
        RtcWrite(Magic);
      }
      ram := Ram(sessionId, sequence, bootCount);
      RtcWrite(Boot(bootCount));
      RtcWrite(Session(sessionId));
      RtcWrite(Sequence(sequence));
      assert WakeWrites(was, drawn) ==
        if was.magic == MAGIC then [Boot(bootCount), Session(sessionId), Sequence(sequence)]
                                       else [Magic, Boot(bootCount), Session(sessionId), Sequence(sequence)];
      ApplyThree(was, Boot(bootCount), Session(sessionId), Sequence(sequence));
      ApplyFour(was, Magic, Boot(bootCount), Session(sessionId), Sequence(sequence));
    }

    method RotateInternal(drawn: bv32)
      modifies this
      ensures initialized == old(initialized) && ram == Ram(drawn, 0, old(ram).boot)
      ensures slots == ApplyAll(old(slots), RotateWrites(drawn))
    {
      ram := Ram(drawn, 0, ram.boot);
      ApplyTwo(slots, Session(drawn), Sequence(0));
      RtcWrite(Session(drawn));
      RtcWrite(Sequence(0));
    }

    /** next_packet_id: starts the device if need be, with a session id drawn for that. */
    method NextPacketId(drawnFirst: bv32, drawn: bv32) returns (id: bv32)
      requires slots.sequence < RADIX && ram.sequence < RADIX
      modifies this
      ensures var was := if old(initialized) then old(ram) else Woken(old(slots), drawnFirst);
        && id == Id(was.session, was.sequence) && ram == Counted(was, drawn)
        && slots == ApplyAll(if old(initialized) then old(slots) else ApplyAll(old(slots),
            WakeWrites(old(slots), drawnFirst)),
                             CountWrites(was, drawn))
    {
      hide Id, ApplyAll, WakeWrites, CountWrites;
      Init(drawnFirst);
      id := Next(drawn);
    }

    /** An id, on a device already started. */
    method Next(drawn: bv32) returns (id: bv32)
      requires initialized && ram.sequence < RADIX
      modifies this
      ensures initialized && id == Id(old(ram).session, old(ram).sequence)
      ensures ram == Counted(old(ram), drawn) && slots == ApplyAll(old(slots), CountWrites(old(ram), drawn))
    {
      hide Id;
      ApplyTwo(slots, Session(ram.session), Sequence(ram.sequence));
      var sequence, sessionId := ram.sequence, ram.session;
      ram := ram.(sequence := (sequence + 1) % RADIX);
      if sequence >= MAX_SEQUENCE {
        RotateInternal(drawn);
      }
      if sequence % 256 == 0 {
        RtcWrite(Session(sessionId));
        RtcWrite(Sequence(sequence));
      }
      id := Id(sessionId, sequence);
    }
  }

  // ---- Runs with sleep, crashes and power loss ----

  datatype World = World(rtc: Rtc, ram: Option<Ram>, issued: seq<(bv32, nat)>, used: set<bv32>)

  datatype Op = Wake | Issue | Rotate

  /** An operation completes, or the device resets after some of its writes; or it resets between
      operations, or the saved state is invalidated, or power is lost and the slots come up with anything
      but the magic word. */
  datatype Event =
    | Done(op: Op, drawn: bv32)
    | Cut(op: Op, drawn: bv32, writes: nat)
    | Reset
    | Invalidate
    | PowerLoss(magic: bv32, session: bv32, sequence: nat, boot: nat)

  predicate Able(w: World, op: Op) {
    op == Wake <==> w.ram.None?
  }

  predicate Draws(w: World, op: Op)
    requires Able(w, op)
  {
    match op
    case Wake => w.rtc.magic != MAGIC || w.rtc.sequence >= MAX_SEQUENCE
    case Issue => w.ram.value.sequence >= MAX_SEQUENCE
    case Rotate => true
  }

  function Writes(w: World, op: Op, drawn: bv32): seq<Write>
    requires Able(w, op)
  {
    match op
    case Wake => WakeWrites(w.rtc, drawn)
    case Issue => CountWrites(w.ram.value, drawn)
    case Rotate => RotateWrites(drawn)
  }

  function RamAfter(w: World, op: Op, drawn: bv32): Ram
    requires Able(w, op)
  {
    match op
    case Wake => Woken(w.rtc, drawn)
    case Issue => Counted(w.ram.value, drawn)
    case Rotate => Ram(drawn, 0, w.ram.value.boot)
  }

  /** A session id that is drawn, or that garbage happens to spell, has not been one before. */
  predicate Possible(w: World, e: Event) {
    match e
    case Done(op, drawn) => Able(w, op) && (Draws(w, op) ==> drawn !in w.used)
    case Cut(op, drawn, n) => Able(w, op) && (Draws(w, op) ==> drawn !in w.used) && n <= |Writes(w, op, drawn)|
    case PowerLoss(magic, session, sequence, _) => magic != MAGIC && session !in w.used && sequence < RADIX
    case _ => true
  }

  function Step(w: World, e: Event): World
    requires Possible(w, e)
  {
    match e
    case Done(op, drawn) =>
      World(ApplyAll(w.rtc, Writes(w, op, drawn)), Some(RamAfter(w, op, drawn)),
            if op == Issue then w.issued + [(w.ram.value.session, w.ram.value.sequence)] else w.issued,
            if Draws(w, op) then w.used + {drawn} else w.used)
    case Cut(op, drawn, n) =>
      World(ApplyAll(w.rtc, Writes(w, op, drawn)[..n]), None, w.issued,
            if Draws(w, op) then w.used + {drawn} else w.used)
    case Reset => w.(ram := None)
    case Invalidate => w.(rtc := w.rtc.(magic := 0))
    case PowerLoss(magic, session, sequence, boot) =>
      World(Rtc(magic, session, sequence, boot), None, w.issued, w.used + {session})
  }

  /** Everything issued in the saved session lies in the saved sequence's block of 256 or below, so the skip
      on waking clears it. */
  ghost predicate Saved(rtc: Rtc, issued: seq<(bv32, nat)>) {
    && rtc.sequence < RADIX
    && forall k :: 0 <= k < |issued| && issued[k].0 == rtc.session ==>
         issued[k].1 < MAX_SEQUENCE && issued[k].1 / 256 <= rtc.sequence / 256
  }

  ghost predicate Live(rtc: Rtc, ram: Ram, issued: seq<(bv32, nat)>) {
    && ram.session == rtc.session && rtc.sequence <= ram.sequence < RADIX
    && (ram.sequence == rtc.sequence || (ram.sequence - 1) / 256 <= rtc.sequence / 256)
    && forall k :: 0 <= k < |issued| && issued[k].0 == ram.session ==> issued[k].1 < ram.sequence
  }

  ghost predicate NoRepeat(issued: seq<(bv32, nat)>) {
    forall j, k :: 0 <= j < k < |issued| ==> issued[j] != issued[k]
  }

  ghost predicate Inv(w: World) {
    && w.rtc.session in w.used && (forall k :: 0 <= k < |w.issued| ==> w.issued[k].0 in w.used && w.issued[k].1 < RADIX)
    && Saved(w.rtc, w.issued) && NoRepeat(w.issued)
    && (w.ram.Some? ==> Live(w.rtc, w.ram.value, w.issued))
  }

  /** At any point of an operation the saved session and sequence are the old ones, or the new session with
      the old sequence, or the new ones: the session is always written first. */
  lemma SavedPairs(w: World, op: Op, drawn: bv32, n: nat)
    requires Able(w, op) && n <= |Writes(w, op, drawn)|
    ensures var t := ApplyAll(w.rtc, Writes(w, op, drawn)[..n]);
      var (session, sequence) := Target(w, op, drawn);
      || (t.session == w.rtc.session && t.sequence == w.rtc.sequence && (n == |Writes(w, op, drawn)| ==> n == 0))
      || (t.session == session && t.sequence == w.rtc.sequence && n < |Writes(w, op, drawn)|)
      || (t.session == session && t.sequence == sequence && n == |Writes(w, op, drawn)| > 0)
  {
    var writes := Writes(w, op, drawn);
    if n == 0 {
      assert writes[..0] == [];
    } else if n == 1 {
      assert writes[..1] == [writes[0]];
      ApplyTwo(w.rtc, writes[0], writes[0]);
    } else if n == 2 {
      assert writes[..2] == [writes[0], writes[1]];
      ApplyTwo(w.rtc, writes[0], writes[1]);
    } else if n == 3 {
      assert writes[..3] == [writes[0], writes[1], writes[2]];
      ApplyThree(w.rtc, writes[0], writes[1], writes[2]);
    } else {
      assert writes[..n] == [writes[0], writes[1], writes[2], writes[3]];
      ApplyFour(w.rtc, writes[0], writes[1], writes[2], writes[3]);
    }
  }

  function Target(w: World, op: Op, drawn: bv32): (bv32, nat)
    requires Able(w, op)
  {
    match op
    case Wake => (Woken(w.rtc, drawn).session, Woken(w.rtc, drawn).sequence)
    case Issue =>
      if w.ram.value.sequence >= MAX_SEQUENCE then (drawn, 0) else (w.ram.value.session, w.ram.value.sequence)
    case Rotate => (drawn, 0)
  }

  /** A new saved state is either further on in the same session or in a session never used. */
  ghost predicate Onward(w: World, session: bv32, sequence: nat) {
    sequence < RADIX && (session !in w.used || (session == w.rtc.session && w.rtc.sequence <= sequence))
  }

  lemma TargetIsOnward(w: World, op: Op, drawn: bv32)
    requires Inv(w) && Able(w, op) && (Draws(w, op) ==> drawn !in w.used)
    ensures Onward(w, Target(w, op, drawn).0, Target(w, op, drawn).1)
    ensures Onward(w, Target(w, op, drawn).0, w.rtc.sequence)
    ensures Target(w, op, drawn).0 in (if Draws(w, op) then w.used + {drawn} else w.used)
  { }

  lemma SavedMoves(w: World, rtc: Rtc)
    requires Inv(w) && Onward(w, rtc.session, rtc.sequence)
    ensures Saved(rtc, w.issued)
  {
  }

  /** The saved slots stay good wherever an operation stops. */
  lemma SlotsKept(w: World, op: Op, drawn: bv32, n: nat)
    requires Inv(w) && Able(w, op) && (Draws(w, op) ==> drawn !in w.used) && n <= |Writes(w, op, drawn)|
    ensures var t := ApplyAll(w.rtc, Writes(w, op, drawn)[..n]);
      Saved(t, w.issued) && t.session in (if Draws(w, op) then w.used + {drawn} else w.used)
  {
    hide Writes, ApplyAll, Saved, NoRepeat, Target, Live, Draws;
    var t := ApplyAll(w.rtc, Writes(w, op, drawn)[..n]);
    SavedPairs(w, op, drawn, n);
    TargetIsOnward(w, op, drawn);
    if t.session == w.rtc.session && t.sequence == w.rtc.sequence {
      SameSlots(w.rtc, t, w.issued);
    } else {
      SavedMoves(w, t);
    }
  }

  lemma SameSlots(rtc: Rtc, t: Rtc, issued: seq<(bv32, nat)>)
    requires Saved(rtc, issued) && t.session == rtc.session && t.sequence == rtc.sequence
    ensures Saved(t, issued)
  {
  }

  /** Where the slots and the counter stand when an operation is done. */
  lemma WakeDone(w: World, drawn: bv32)
    requires Inv(w) && Able(w, Wake) && (Draws(w, Wake) ==> drawn !in w.used)
    ensures Inv(Step(w, Done(Wake, drawn)))
  {
    hide ApplyAll, Saved, NoRepeat;
    AllWrites(w, Wake, drawn);
    WokenIsPast(w, drawn);
  }

  lemma WokenIsPast(w: World, drawn: bv32)
    requires Inv(w) && w.ram.None? && (Draws(w, Wake) ==> drawn !in w.used)
    ensures var ram := Woken(w.rtc, drawn);
      && ram.sequence < RADIX
      && forall k :: 0 <= k < |w.issued| && w.issued[k].0 == ram.session ==> w.issued[k].1 < ram.sequence
  { }

  lemma AllWrites(w: World, op: Op, drawn: bv32)
    requires Inv(w) && Able(w, op) && (Draws(w, op) ==> drawn !in w.used)
    ensures var t := ApplyAll(w.rtc, Writes(w, op, drawn));
      && Saved(t, w.issued) && t.session in (if Draws(w, op) then w.used + {drawn} else w.used)
      && (t.session, t.sequence) ==
           if Writes(w, op, drawn) == [] then (w.rtc.session, w.rtc.sequence) else Target(w, op, drawn)
  {
    hide Writes, ApplyAll, Saved, NoRepeat, Target, Live, Draws;
    var all := Writes(w, op, drawn);
    assert all[..|all|] == all;
    SlotsKept(w, op, drawn, |all|);
    SavedPairs(w, op, drawn, |all|);
  }

  lemma RotateDone(w: World, drawn: bv32)
    requires Inv(w) && Able(w, Rotate) && drawn !in w.used
    ensures Inv(Step(w, Done(Rotate, drawn)))
  {
    hide ApplyAll, Saved, NoRepeat;
    AllWrites(w, Rotate, drawn);
  }

  lemma IssueDone(w: World, drawn: bv32)
    requires Inv(w) && Able(w, Issue) && (Draws(w, Issue) ==> drawn !in w.used)
    ensures Inv(Step(w, Done(Issue, drawn)))
  {
    hide ApplyAll, NoRepeat, Saved, Live;
    AllWrites(w, Issue, drawn);
    var t, ram := ApplyAll(w.rtc, Writes(w, Issue, drawn)), w.ram.value;
    SlotsAndCounter(w.rtc, ram, w.issued);
    NotAgain(w.issued, ram.session, ram.sequence);
    SavedAppend(t, w.issued, ram.session, ram.sequence);
    LiveAfter(w.rtc, t, ram, w.issued, drawn, w.used);
  }

  lemma SlotsAndCounter(rtc: Rtc, ram: Ram, issued: seq<(bv32, nat)>)
    requires Live(rtc, ram, issued)
    ensures ram.session == rtc.session && rtc.sequence <= ram.sequence < RADIX
    ensures forall k :: 0 <= k < |issued| && issued[k].0 == ram.session ==> issued[k].1 < ram.sequence
    ensures ram.sequence % 256 != 0 ==> ram.sequence / 256 <= rtc.sequence / 256
  {
  }

  lemma SavedAppend(t: Rtc, issued: seq<(bv32, nat)>, session: bv32, sequence: nat)
    requires Saved(t, issued)
    requires session == t.session ==> sequence < MAX_SEQUENCE && sequence / 256 <= t.sequence / 256
    ensures Saved(t, issued + [(session, sequence)])
  {
  }

  lemma LiveAfter(rtc: Rtc, t: Rtc, ram: Ram, issued: seq<(bv32, nat)>, drawn: bv32, used: set<bv32>)
    requires Live(rtc, ram, issued) && rtc.session in used
    requires forall k :: 0 <= k < |issued| ==> issued[k].0 in used
    requires ram.sequence >= MAX_SEQUENCE ==> drawn !in used && t.session == drawn && t.sequence == 0
    requires ram.sequence < MAX_SEQUENCE ==>
      t.session == rtc.session && t.sequence == if ram.sequence % 256 == 0 then ram.sequence else rtc.sequence
    ensures Live(t, Counted(ram, drawn), issued + [(ram.session, ram.sequence)])
  {
  }

  lemma NotAgain(issued: seq<(bv32, nat)>, session: bv32, sequence: nat)
    requires NoRepeat(issued) && forall k :: 0 <= k < |issued| && issued[k].0 == session ==> issued[k].1 < sequence
    ensures NoRepeat(issued + [(session, sequence)])
  {
  }

  /** Every event keeps it. */
  lemma StepKeeps(w: World, e: Event)
    requires Inv(w) && Possible(w, e)
    ensures Inv(Step(w, e))
  {
    hide Writes, ApplyAll, NoRepeat;
    match e
    case Done(op, drawn) =>
      match op {
        case Wake => WakeDone(w, drawn);
        case Issue => IssueDone(w, drawn);
        case Rotate => RotateDone(w, drawn);
      }
    case Cut(op, drawn, n) =>
      SlotsKept(w, op, drawn, n);
    case Reset =>
    case Invalidate =>
    case PowerLoss(_, _, _, _) =>
  }

  /** Whatever the slots first hold. */
  predicate First(w: World) {
    w.ram.None? && w.issued == [] && w.rtc.session in w.used && w.rtc.sequence < RADIX
  }

  predicate PossibleRun(w: World, run: seq<Event>)
    decreases |run|
  {
    run == [] || (Possible(w, run[0]) && PossibleRun(Step(w, run[0]), run[1..]))
  }

  function End(w: World, run: seq<Event>): World
    requires PossibleRun(w, run)
    decreases |run|
  {
    if run == [] then w else End(Step(w, run[0]), run[1..])
  }

  lemma {:induction false} RunKeeps(w: World, run: seq<Event>)
    requires Inv(w) && PossibleRun(w, run)
    ensures Inv(End(w, run))
    decreases |run|
  {
    hide Inv, Step, Possible;
    if run != [] {
      StepKeeps(w, run[0]);
      RunKeeps(Step(w, run[0]), run[1..]);
    }
  }

  /** Over every run of starts, ids, rotations, sleeps, crashes between any two writes, invalidations and power
      losses, no session and sequence are issued twice, and two ids of one session are never equal. */
  lemma NoIdRepeats(w: World, run: seq<Event>, j: nat, k: nat)
    requires First(w) && PossibleRun(w, run) && j < k < |End(w, run).issued|
    ensures var issued := End(w, run).issued;
      issued[j] != issued[k]
      && (issued[j].0 == issued[k].0 ==> Id(issued[j].0, issued[j].1) != Id(issued[k].0, issued[k].1))
  {
    hide Id, Step, Possible, PossibleRun, End;
    assert Inv(w);
    RunKeeps(w, run);
    var issued := End(w, run).issued;
    IdInjective(issued[j].0, issued[j].1, issued[k].1);
  }

  /** While the device runs, the next sequence number is within 256 of the saved one. */
  lemma CloseBehind(w: World, run: seq<Event>)
    requires First(w) && PossibleRun(w, run) && End(w, run).ram.Some?
    ensures var t := End(w, run);
      t.ram.value.session == t.rtc.session && t.rtc.sequence <= t.ram.value.sequence <= t.rtc.sequence + WAKE_SKIP
  {
    hide Step, Possible, PossibleRun, End, NoRepeat, Saved;
    assert Inv(w) by {
      assert Saved(w.rtc, w.issued) by { NothingIssued(w); }
      assert NoRepeat(w.issued) by { NothingIssued(w); }
    }
    RunKeeps(w, run);
  }

  lemma NothingIssued(w: World)
    requires First(w)
    ensures Saved(w.rtc, w.issued) && NoRepeat(w.issued)
  {
  }
}
