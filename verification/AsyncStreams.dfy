/**
 The asynchronous streams of include/grpc++/support/async_stream.h and async_unary_call.h, and the
 client side of sync_stream.h: which call puts the initial metadata into which batch.

 All these classes work alike.  A stream owns some op sets and shares a context with one flag:
 "initial metadata sent" on the server, "initial metadata received" on the client.  A call arms
 slots of one set, among them possibly the metadata slot (position 0), and issues the set; later
 the set is finalized.  One state machine over such calls covers them all, and the tables below
 say which event each source method is.
 */
module AsyncStreams {
  import opened Common
  import opened CallOps

  /** Which metadata op the flag is about: SEND_ on servers, RECV_ on clients. */
  datatype Side = Server | Client

  /** What a method does about metadata: assert that the flag is clear and then set it, take them
      along if the flag is clear, or leave them alone. */
  datatype Guard = Asserted | IfNeeded | Unasked

  datatype ArmAt = ArmAt(i: nat, a: Arming)

  datatype Event =
    | Issue(k: nat, guard: Guard, md: Metadata, arr: Option<Mem>, arms: seq<ArmAt>)
    | Completed(k: nat, ds: seq<Delivery>, ok: bool, parses: bool)

  datatype Stream = Stream(side: Side, flag: bool, sets: seq<seq<Slot>>, trace: seq<seq<Op>>)

  predicate IsMetadata(side: Side, op: Op) {
    match side
    case Server => op.SendInitialMetadataOp?
    case Client => op.RecvInitialMetadataOp?
  }

  predicate IsMetadataSlot(side: Side, slot: Slot) {
    match side
    case Server => slot.SendInitialMetadata?
    case Client => slot.RecvInitialMetadata?
  }

  function MetadataArming(side: Side, md: Metadata, arr: Option<Mem>): Arming {
    match side
    case Server => ArmInitialMetadata(md, arr)
    case Client => ArmRecvInitialMetadata
  }

  /** The metadata slot of a set, if any, comes first. */
  predicate WellFormed(side: Side, slots: seq<Slot>) {
    forall i :: 0 < i < |slots| ==> !IsMetadataSlot(side, slots[i])
  }

  predicate HasMetadataSlot(side: Side, slots: seq<Slot>) {
    |slots| > 0 && IsMetadataSlot(side, slots[0])
  }

  predicate MetadataArmed(side: Side, slots: seq<Slot>) {
    HasMetadataSlot(side, slots) && Armed(slots[0])
  }

  // ---------- Steps ----------

  predicate Armable(side: Side, slots: seq<Slot>, arms: seq<ArmAt>) {
    forall a <- arms :: a.i < |slots| && Fits(slots[a.i], a.a) && !IsMetadataSlot(side, slots[a.i])
  }

  function ArmAll(slots: seq<Slot>, arms: seq<ArmAt>): (r: seq<Slot>)
    requires forall a <- arms :: a.i < |slots| && Fits(slots[a.i], a.a)
    ensures |r| == |slots|
    ensures forall i :: 0 <= i < |slots| ==>
                          (forall a: Arming :: Fits(r[i], a) <==> Fits(slots[i], a))
                          && ((forall a <- arms :: a.i != i) ==> r[i] == slots[i])
  {
    if arms == [] then slots else
      var r := ArmAll(slots, arms[..|arms| - 1]);
      var last := arms[|arms| - 1];
      KeepsKind(r[last.i], last.a);
      r[last.i := Arm(r[last.i], last.a)]
  }

  lemma KeepsKind(slot: Slot, a: Arming)
    requires Fits(slot, a)
    ensures forall b: Arming :: Fits(Arm(slot, a), b) <==> Fits(slot, b)
    ensures forall side :: IsMetadataSlot(side, Arm(slot, a)) <==> IsMetadataSlot(side, slot)
  {
  }

  predicate Possible(s: Stream, e: Event) {
    e.k < |s.sets| &&
    match e
    case Issue(k, guard, _, _, arms) =>
      (guard != Unasked ==> HasMetadataSlot(s.side, s.sets[k])) && Armable(s.side, s.sets[k], arms)
    case Completed(k, ds, _, _) => |ds| == |s.sets[k]|
  }

  /** The set with its metadata slot armed, if the call takes the metadata along. */
  function WithMetadata(s: Stream, e: Event): (r: seq<Slot>)
    requires e.Issue? && Possible(s, e)
    ensures |r| == |s.sets[e.k]|
    ensures forall i :: 0 <= i < |r| && (i > 0 || e.guard == Unasked) ==> r[i] == s.sets[e.k][i]
  {
    if e.guard != Unasked && !s.flag
    then s.sets[e.k][0 := Arm(s.sets[e.k][0], MetadataArming(s.side, e.md, e.arr))]
    else s.sets[e.k]
  }

  lemma WithMetadataFits(s: Stream, e: Event)
    requires e.Issue? && Possible(s, e)
    ensures forall a <- e.arms :: a.i < |WithMetadata(s, e)| && Fits(WithMetadata(s, e)[a.i], a.a)
    ensures forall i :: 0 <= i < |s.sets[e.k]| ==>
                          (IsMetadataSlot(s.side, WithMetadata(s, e)[i]) <==> IsMetadataSlot(s.side, s.sets[e.k][i]))
  {
  }

  function Loaded(s: Stream, e: Event): seq<Slot>
    requires e.Issue? && Possible(s, e)
  {
    WithMetadataFits(s, e);
    ArmAll(WithMetadata(s, e), e.arms)
  }

  /** A call asserts that its message serializes, unless it has a status to report that in. */
  predicate Unsendable(arms: seq<ArmAt>) {
    && (exists a <- arms :: a.a.ArmMessage? && !SerializeStatus(a.a.ser).Ok())
    && (forall a <- arms :: !a.a.ArmStatus?)
  }

  /** The stream after the event; None when GPR_ASSERT aborts the process. */
  function Step(s: Stream, e: Event): Option<Stream>
    requires Possible(s, e)
  {
    match e
    case Issue(k, guard, _, _, arms) =>
      if (guard == Asserted && s.flag) || Unsendable(arms) then None
      else Some(s.(flag := s.flag || guard != Unasked, sets := s.sets[k := AfterFill(Loaded(s, e))],
                   trace := s.trace + [Batch(Loaded(s, e))]))
    case Completed(k, ds, ok, parses) =>
      Some(s.(sets := s.sets[k := Finalize(DeliveredAll(s.sets[k], ds), ok, parses).slots]))
  }

  /** The stream after all the events; None if one is impossible or aborts. */
  function Replay(s: Stream, events: seq<Event>): Option<Stream> {
    if events == [] then Some(s) else
      var before := Replay(s, events[..|events| - 1]);
      var e := events[|events| - 1];
      if before.Some? && Possible(before.value, e) then Step(before.value, e) else None
  }

  /** A stream as its constructor leaves it: no metadata asked for. */
  ghost predicate Init(s: Stream) {
    && !s.flag && s.trace == []
    && forall k :: 0 <= k < |s.sets| ==> WellFormed(s.side, s.sets[k]) && !MetadataArmed(s.side, s.sets[k])
  }

  // ---------- What a history of events says ----------

  /** Some call dealt with the initial metadata. */
  predicate Asked(events: seq<Event>) {
    exists i :: 0 <= i < |events| && events[i].Issue? && events[i].guard != Unasked
  }

  /** The last call on set k has not completed. */
  predicate Outstanding(events: seq<Event>, k: nat) {
    if events == [] then false else
      var e := events[|events| - 1];
      if e.k == k then e.Issue? else Outstanding(events[..|events| - 1], k)
  }

  /** No set is issued again before its last call has completed. */
  predicate Disciplined(events: seq<Event>) {
    forall i :: 0 <= i < |events| && events[i].Issue? ==> !Outstanding(events[..i], events[i].k)
  }

  /** Which set has the metadata in an armed slot: that of the first call that asked for them, until
      its completion. */
  datatype Holder = Nobody | Holds(k: nat) | Settled

  function Holding(events: seq<Event>): Holder {
    if events == [] then Nobody else
      var h := Holding(events[..|events| - 1]);
      match events[|events| - 1]
      case Issue(k, guard, _, _, _) => if h.Nobody? && guard != Unasked then Holds(k) else h
      case Completed(k, _, _, _) => if h == Holds(k) then Settled else h
  }

  /** How often the set of the first call that asked was issued again before its completion. */
  function Repeats(events: seq<Event>): nat {
    if events == [] then 0 else
      var before, e := events[..|events| - 1], events[|events| - 1];
      Repeats(before) + if e.Issue? && Holding(before) == Holds(e.k) then 1 else 0
  }

  function Count(side: Side, ops: seq<Op>): nat {
    if ops == [] then 0 else
      Count(side, ops[..|ops| - 1]) + if IsMetadata(side, ops[|ops| - 1]) then 1 else 0
  }

  /** The number of metadata ops issued. */
  function MetadataOps(s: Stream): nat {
    Count(s.side, Flat(s.trace))
  }

  // ---------- Proofs about one set ----------

  lemma {:induction false} CountConcat(side: Side, a: seq<Op>, b: seq<Op>)
    ensures Count(side, a + b) == Count(side, a) + Count(side, b)
  {
    hide IsMetadata;
    if b == [] {
      assert a + b == a;
    } else {
      var n := |b| - 1;
      assert (a + b)[..|a + b| - 1] == a + b[..n];
      CountConcat(side, a, b[..n]);
    }
  }

  lemma CountOfSlot(side: Side, slot: Slot)
    ensures Count(side, AddedOp(slot)) == if IsMetadataSlot(side, slot) && Armed(slot) then 1 else 0
  {
    var ops := AddedOp(slot);
    if ops != [] {
      assert ops[..0] == [];
    }
  }

  lemma {:induction false} CountOfBatch(side: Side, slots: seq<Slot>)
    requires WellFormed(side, slots)
    ensures Count(side, Batch(slots)) == if MetadataArmed(side, slots) then 1 else 0
  {
    hide Count, AddedOp, IsMetadataSlot, Armed;
    if slots == [] {
      CountEmpty(side);
    } else {
      var n := |slots| - 1;
      CountOfBatch(side, slots[..n]);
      CountConcat(side, Batch(slots[..n]), AddedOp(slots[n]));
      CountOfSlot(side, slots[n]);
    }
  }

  lemma CountEmpty(side: Side)
    ensures Count(side, []) == 0
  {
  }

  lemma SameKind(slot: Slot, d: Delivery, ok: bool, parses: bool, side: Side)
    ensures IsMetadataSlot(side, AfterAddOp(slot)) <==> IsMetadataSlot(side, slot)
    ensures Armed(AfterAddOp(slot)) <==> Armed(slot)
    ensures IsMetadataSlot(side, FinishOp(Delivered(slot, d), ok, parses).slot) <==> IsMetadataSlot(side, slot)
    ensures !Armed(FinishOp(Delivered(slot, d), ok, parses).slot)
  {
  }

  lemma FillKeeps(side: Side, slots: seq<Slot>)
    requires WellFormed(side, slots)
    ensures WellFormed(side, AfterFill(slots))
    ensures MetadataArmed(side, AfterFill(slots)) <==> MetadataArmed(side, slots)
  {
    hide IsMetadataSlot, Armed, AfterAddOp;
    forall i | 0 <= i < |slots|
      ensures IsMetadataSlot(side, AfterFill(slots)[i]) <==> IsMetadataSlot(side, slots[i])
      ensures Armed(AfterFill(slots)[i]) <==> Armed(slots[i])
    {
      SameKind(slots[i], Delivery(None, None), true, true, side);
    }
  }

  lemma {:induction false} FinalizeKeeps(side: Side, slots: seq<Slot>, ds: seq<Delivery>, ok: bool, parses: bool)
    requires |ds| == |slots|
    ensures var r := Finalize(DeliveredAll(slots, ds), ok, parses).slots;
            |r| == |slots| && forall i :: 0 <= i < |r| ==> !Armed(r[i]) && (IsMetadataSlot(side, r[i]) <==> IsMetadataSlot(side, slots[i]))
  {
    hide IsMetadataSlot, Armed, FinishOp, Delivered;
    if slots != [] {
      var n := |slots| - 1;
      FinalizeKeeps(side, slots[..n], ds[..n], ok, parses);
      var d := DeliveredAll(slots, ds);
      assert d[..n] == DeliveredAll(slots[..n], ds[..n]);
      SameKind(slots[n], ds[n], Finalize(d[..n], ok, parses).ok, parses, side);
    }
  }

  lemma {:induction false} ArmAllKeeps(side: Side, slots: seq<Slot>, arms: seq<ArmAt>)
    requires forall a <- arms :: a.i < |slots| && Fits(slots[a.i], a.a)
    ensures forall i :: 0 <= i < |slots| ==> (IsMetadataSlot(side, ArmAll(slots, arms)[i]) <==> IsMetadataSlot(side, slots[i]))
  {
    hide IsMetadataSlot, Fits, Arm;
    if arms != [] {
      var n := |arms| - 1;
      ArmAllKeeps(side, slots, arms[..n]);
      var r := ArmAll(slots, arms[..n]);
      assert Fits(r[arms[n].i], arms[n].a);
      KeepsKind(r[arms[n].i], arms[n].a);
    }
  }

  /** The issued set carries the metadata if it was asked to, or if it still did from before. */
  lemma LoadedMetadata(s: Stream, e: Event)
    requires e.Issue? && Possible(s, e) && WellFormed(s.side, s.sets[e.k])
    ensures WellFormed(s.side, Loaded(s, e))
    ensures MetadataArmed(s.side, Loaded(s, e)) <==>
            MetadataArmed(s.side, s.sets[e.k]) || (e.guard != Unasked && !s.flag)
  {
    hide Fits, Arm, IsMetadataSlot, Armed;
    WithMetadataFits(s, e);
    var w := WithMetadata(s, e);
    ArmAllKeeps(s.side, w, e.arms);
    if |w| > 0 && IsMetadataSlot(s.side, s.sets[e.k][0]) {
      assert forall a <- e.arms :: a.i != 0;
      assert Loaded(s, e)[0] == w[0];
      if e.guard != Unasked && !s.flag {
        ArmedMetadata(s.side, s.sets[e.k][0], e.md, e.arr);
      }
    }
  }

  lemma ArmedMetadata(side: Side, slot: Slot, md: Metadata, arr: Option<Mem>)
    requires IsMetadataSlot(side, slot)
    ensures var a := MetadataArming(side, md, arr); Fits(slot, a) && Armed(Arm(slot, a))
  {
  }

  // ---------- Invariant ----------

  ghost predicate Inv(s: Stream) {
    forall k :: 0 <= k < |s.sets| ==> WellFormed(s.side, s.sets[k]) && (MetadataArmed(s.side, s.sets[k]) ==> s.flag)
  }

  lemma StepKeeps(s: Stream, e: Event)
    requires Inv(s) && Possible(s, e) && Step(s, e).Some?
    ensures var s' := Step(s, e).value;
            && Inv(s') && s'.side == s.side
            && MetadataOps(s') == MetadataOps(s)
               + (if s'.flag && !s.flag then 1 else 0)
               + (if e.Issue? && MetadataArmed(s.side, s.sets[e.k]) then 1 else 0)
            && (s'.flag <==> s.flag || (e.Issue? && e.guard != Unasked))
            && forall k :: 0 <= k < |s.sets| ==>
                 if k != e.k then s'.sets[k] == s.sets[k]
                 else if e.Completed? then !MetadataArmed(s.side, s'.sets[k])
                 else MetadataArmed(s.side, s'.sets[k]) <==> MetadataArmed(s.side, s.sets[k]) || (e.guard != Unasked && !s.flag)
  {
    hide WellFormed, MetadataArmed, Batch, Loaded, Count, AfterFill, Finalize, DeliveredAll, Armable, HasMetadataSlot;
    match e
    case Issue(k, _, _, _, _) =>
      LoadedMetadata(s, e);
      var l := Loaded(s, e);
      FillKeeps(s.side, l);
      CountOfBatch(s.side, l);
      assert (s.trace + [Batch(l)])[..|s.trace|] == s.trace;
      CountConcat(s.side, Flat(s.trace), Batch(l));
    case Completed(k, ds, ok, parses) =>
      FinalizeKeeps(s.side, s.sets[k], ds, ok, parses);
      Disarms(s.side, s.sets[k], Finalize(DeliveredAll(s.sets[k], ds), ok, parses).slots);
  }

  lemma Disarms(side: Side, slots: seq<Slot>, r: seq<Slot>)
    requires WellFormed(side, slots) && |r| == |slots|
    requires forall i :: 0 <= i < |r| ==> !Armed(r[i]) && (IsMetadataSlot(side, r[i]) <==> IsMetadataSlot(side, slots[i]))
    ensures WellFormed(side, r) && !MetadataArmed(side, r)
  {
  }

  // ---------- Main results ----------

  lemma AskedGrows(events: seq<Event>)
    requires events != []
    ensures var e := events[|events| - 1];
            Asked(events) <==> Asked(events[..|events| - 1]) || (e.Issue? && e.guard != Unasked)
  {
    var n := |events| - 1;
    assert forall i :: 0 <= i < n ==> events[..n][i] == events[i];
  }

  /** The slots of a stream are armed as its history says. */
  ghost predicate Tracks(s: Stream, h: Holder) {
    && (s.flag <==> !h.Nobody?)
    && forall k :: 0 <= k < |s.sets| ==> (MetadataArmed(s.side, s.sets[k]) <==> h == Holds(k))
  }

  /** Exact count: one metadata op if any call asked, plus one for each time the set of the first such
      call was issued again before its completion. */
  lemma {:induction false} MetadataCount(s: Stream, events: seq<Event>)
    requires Init(s) && Replay(s, events).Some?
    ensures var r := Replay(s, events).value;
            && Inv(r) && r.side == s.side && Tracks(r, Holding(events)) && (r.flag <==> Asked(events))
            && MetadataOps(r) == (if Asked(events) then 1 else 0) + Repeats(events)
  {
    hide Asked, WellFormed, MetadataArmed, Step, Possible, MetadataOps;
    if events == [] {
      EmptyHistory(s);
    } else {
      var before := events[..|events| - 1];
      MetadataCount(s, before);
      AskedGrows(events);
      StepKeeps(Replay(s, before).value, events[|events| - 1]);
      SameSets(Replay(s, before).value, events[|events| - 1]);
    }
  }

  lemma EmptyHistory(s: Stream)
    requires s.trace == []
    ensures !Asked([]) && MetadataOps(s) == 0
  {
  }

  /** A caller that waits for a set before using it again never repeats. */
  lemma {:induction false} DisciplineMeansNoRepeat(events: seq<Event>)
    requires Disciplined(events)
    ensures Repeats(events) == 0
    ensures forall k :: Holding(events) == Holds(k) ==> Outstanding(events, k)
  {
    if events != [] {
      var n := |events| - 1;
      assert Disciplined(events[..n]) by {
        assert forall i :: 0 <= i < n ==> events[..n][i] == events[i] && events[..n][..i] == events[..i];
      }
      DisciplineMeansNoRepeat(events[..n]);
    }
  }

  lemma SameSets(s: Stream, e: Event)
    requires Possible(s, e) && Step(s, e).Some?
    ensures |Step(s, e).value.sets| == |s.sets| && e.k < |s.sets|
  {
  }

  /** A caller that waits for a set before using it again sees the metadata asked for exactly once,
      and only if some call asked. */
  lemma MetadataAtMostOnce(s: Stream, events: seq<Event>)
    requires Init(s) && Replay(s, events).Some? && Disciplined(events)
    ensures MetadataOps(Replay(s, events).value) == if Asked(events) then 1 else 0
  {
    MetadataCount(s, events);
    DisciplineMeansNoRepeat(events);
  }

  /** In general the promise "at most once" holds if and only if the set of the first call that asked is
      not issued again before its completion. */
  lemma AtMostOnceIffNoRepeat(s: Stream, events: seq<Event>)
    requires Init(s) && Replay(s, events).Some?
    ensures MetadataOps(Replay(s, events).value) <= 1 <==> Repeats(events) == 0
  {
    MetadataCount(s, events);
    if Repeats(events) > 0 {
      RepeatNeedsAsked(events);
    }
  }

  lemma {:induction false} RepeatNeedsAsked(events: seq<Event>)
    ensures !Holding(events).Nobody? ==> Asked(events)
    ensures Repeats(events) > 0 ==> Asked(events)
  {
    if events != [] {
      hide Asked;
      AskedGrows(events);
      RepeatNeedsAsked(events[..|events| - 1]);
    }
  }

  // ---------- The object ----------

  /** A stream object: its op sets, its call, and the flag of its context. */
  class AsyncStream {
    const side: Side
    const sets: seq<CallOpSet>
    const call: Call
    var flag: bool

    ghost predicate Valid()
      reads this
    {
      forall i, k :: 0 <= i < k < |sets| ==> sets[i] != sets[k]
    }

    ghost function View(): Stream
      reads this, call, sets
    {
      Stream(side, flag, seq(|sets|, i requires 0 <= i < |sets| reads sets => sets[i].slots), call.trace)
    }

    constructor (side: Side, sets: seq<CallOpSet>, call: Call)
      requires forall i, k :: 0 <= i < k < |sets| ==> sets[i] != sets[k]
      ensures Valid() && this.side == side && this.sets == sets && this.call == call && !flag
    {
      this.side, this.sets, this.call, flag := side, sets, call, false;
    }

    /** The common body of the calls: assert, arm the metadata if needed, arm the rest, issue. */
    method Perform(e: Event) returns (aborted: bool)
      requires Valid() && e.Issue? && Possible(View(), e)
      modifies this, call, sets
      ensures Valid()
      ensures aborted <==> Step(old(View()), e).None?
      ensures !aborted ==> View() == Step(old(View()), e).value
    {
      hide Batch, AfterFill, Arm, Fits, IsMetadataSlot, Armable, ArmAll, Unsendable;
      ghost var s := View();
      if (e.guard == Asserted && flag) || Unsendable(e.arms) { return true; }
      var ops := sets[e.k];
      if e.guard != Unasked && !flag {
        MetadataFits(s, e);
        ops.Set(0, MetadataArming(side, e.md, e.arr));
        flag := true;
      }
      WithMetadataFits(s, e);
      assert ops.slots == WithMetadata(s, e);
      ArmEach(ops, e.arms);
      call.PerformOps(ops);
      assert View().sets == s.sets[e.k := AfterFill(Loaded(s, e))];
      return false;
    }

    /** The remaining setters of a call. */
    static method ArmEach(ops: CallOpSet, arms: seq<ArmAt>)
      requires forall a <- arms :: a.i < |ops.slots| && Fits(ops.slots[a.i], a.a)
      modifies ops
      ensures ops.slots == ArmAll(old(ops.slots), arms)
    {
      ghost var w := ops.slots;
      for j := 0 to |arms|
        invariant ops.slots == ArmAll(w, arms[..j])
      {
        assert arms[..j + 1][..j] == arms[..j] && arms[j] in arms;
        ops.Set(arms[j].i, arms[j].a);
      }
      assert arms[..|arms|] == arms;
    }

    /** FinalizeResult of a completed set. */
    method Complete(e: Event)
      requires Valid() && e.Completed? && Possible(View(), e)
      modifies sets
      ensures Valid() && Step(old(View()), e) == Some(View())
    {
      hide Finalize, DeliveredAll;
      ghost var s := View();
      var ops := sets[e.k];
      ops.Deliver(e.ds);
      var _, _, _ := ops.FinalizeResult(e.ok, e.parses);
      assert View().sets == s.sets[e.k := Finalize(DeliveredAll(s.sets[e.k], e.ds), e.ok, e.parses).slots];
    }
  }

  lemma MetadataFits(s: Stream, e: Event)
    requires e.Issue? && Possible(s, e) && e.guard != Unasked
    ensures |s.sets[e.k]| > 0 && Fits(s.sets[e.k][0], MetadataArming(s.side, e.md, e.arr))
  {
  }

  // ---------- The server classes ----------

  const META := 0
  const READ := 1
  const WRITE := 2
  const FINISH := 3

  const NO_METADATA := Slot.SendInitialMetadata(false, [], None)
  const NO_MESSAGE := SendMessage(None, false, 0, "")

  /** meta_ops_, read_ops_, write_ops_ and finish_ops_ of ServerAsyncReaderWriter; the other three
      server classes have some of these sets and methods. */
  function ServerStart(): Stream {
    Stream(Server, false,
           [[NO_METADATA], [RecvMessage(NoTarget, None, false)], [NO_METADATA, NO_MESSAGE],
            [NO_METADATA, NO_MESSAGE, ServerSendStatus(false, [], None, OK)]],
           [])
  }

  function ServerSendInitialMetadata(md: Metadata, arr: Option<Mem>): Event {
    Issue(META, Asserted, md, arr, [])
  }

  function ServerRead(): Event {
    Issue(READ, Unasked, [], None, [ArmAt(0, ArmRecvMessage(Proto))])
  }

  /** Write aborts unless the message serializes. */
  function ServerWrite(md: Metadata, arr: Option<Mem>, message: Message, ser: Serialized): Event {
    Issue(WRITE, IfNeeded, md, arr, [ArmAt(1, ArmMessage(message, 0, ser))])
  }

  /** Finish with a reply (ServerAsyncReader, ServerAsyncResponseWriter) or without; FinishWithError
      is Finish without a reply.  The reply is dropped if the status is not OK. */
  function ServerFinish(md: Metadata, arr: Option<Mem>, reply: Option<(Message, Serialized)>,
                        trailing: Metadata, tail: Option<Mem>, status: Status): Event {
    Issue(FINISH, IfNeeded, md, arr,
          if reply.Some? && status.Ok()
          then [ArmAt(1, ArmMessage(reply.value.0, 0, reply.value.1)),
                ArmAt(2, ArmStatus(trailing, tail, SerializeStatus(reply.value.1)))]
          else [ArmAt(2, ArmStatus(trailing, tail, status))])
  }

  ghost predicate ServerEvent(e: Event) {
    || (exists md, arr :: e == ServerSendInitialMetadata(md, arr))
    || e == ServerRead()
    || (exists md, arr, message, ser :: e == ServerWrite(md, arr, message, ser))
    || (exists md, arr, reply, trailing, tail, status :: e == ServerFinish(md, arr, reply, trailing, tail, status))
    || e.Completed?
  }

  /** Which calls abort: a second request for the metadata, and a write whose message does not serialize.  Finish
      reports that in its status instead. */
  lemma ServerAborts(s: Stream, md: Metadata, arr: Option<Mem>, message: Message, ser: Serialized,
                     reply: Option<(Message, Serialized)>, trailing: Metadata, tail: Option<Mem>, status: Status)
    requires Possible(s, ServerSendInitialMetadata(md, arr)) && Possible(s, ServerWrite(md, arr, message, ser))
    requires Possible(s, ServerFinish(md, arr, reply, trailing, tail, status))
    ensures Step(s, ServerSendInitialMetadata(md, arr)).None? <==> s.flag
    ensures Step(s, ServerWrite(md, arr, message, ser)).None? <==> !SerializeStatus(ser).Ok()
    ensures Step(s, ServerFinish(md, arr, reply, trailing, tail, status)).Some?
  {
    hide Possible, Loaded, AfterFill, Batch;
    var w, f := ServerWrite(md, arr, message, ser), ServerFinish(md, arr, reply, trailing, tail, status);
    assert w.arms[0].a.ArmMessage? && w.arms[0] in w.arms;
    assert f.arms[|f.arms| - 1].a.ArmStatus? && f.arms[|f.arms| - 1] in f.arms;
  }

  /** Only reading does without the metadata, and it sends nothing. */
  lemma ServerGuards(e: Event)
    requires ServerEvent(e) && e.Issue?
    ensures e.guard == Unasked <==> e.k == READ
  {
  }

  /** Shape of the four sets, kept by every event. */
  ghost predicate ServerShape(s: Stream) {
    && s.side == Server && |s.sets| == 4 && |s.sets[READ]| == 1 && s.sets[READ][0].RecvMessage?
  }

  ghost predicate StartsWithMetadata(ops: seq<Op>) {
    ops != [] && ops[0].SendInitialMetadataOp?
  }

  lemma {:induction false} BatchStarts(slots: seq<Slot>)
    requires MetadataArmed(Server, slots)
    ensures StartsWithMetadata(Sends(Batch(slots)))
  {
    var n := |slots| - 1;
    if n == 0 {
      assert slots == [slots[0]];
      BatchOfOne(slots[0]);
      SendsOnly(AddedOp(slots[0]));
    } else {
      hide Sends, AddedOp;
      BatchStarts(slots[..n]);
      SendsConcat(Batch(slots[..n]), AddedOp(slots[n]));
    }
  }

  lemma ReadSendsNothing(slots: seq<Slot>)
    requires |slots| == 1 && slots[0].RecvMessage?
    ensures Sends(Batch(slots)) == []
  {
    assert slots == [slots[0]];
    BatchOfOne(slots[0]);
    var ops := AddedOp(slots[0]);
    if ops != [] { assert ops[..0] == []; }
  }

  lemma ShapeKept(s: Stream, e: Event)
    requires ServerShape(s) && Possible(s, e) && Step(s, e).Some?
    ensures ServerShape(Step(s, e).value)
    ensures e.Issue? && e.k == READ ==> |Loaded(s, e)| == 1 && Loaded(s, e)[0].RecvMessage?
  {
    if e.k == READ && e.Issue? {
      WithMetadataFits(s, e);
      var w := WithMetadata(s, e);
      var l := ArmAll(w, e.arms);
      assert Fits(w[0], ArmRecvMessage(Proto)) && Fits(l[0], ArmRecvMessage(Proto));
    } else if e.k == READ {
      var d := DeliveredAll(s.sets[READ], e.ds);
      assert d == [d[0]];
      FinalStatus(d, e.ok, e.parses);
      assert d[..0] == [];
    }
  }

  /** Whatever is called in whatever order: nothing is sent before the initial metadata. */
  lemma {:induction false} ServerMetadataFirst(events: seq<Event>)
    requires Replay(ServerStart(), events).Some? && forall e <- events :: ServerEvent(e)
    ensures var s := Replay(ServerStart(), events).value;
            && ServerShape(s) && Inv(s)
            && if s.flag then StartsWithMetadata(Sent(s.trace)) else Sent(s.trace) == []
  {
    hide ServerEvent, WellFormed, MetadataArmed, Batch, Loaded, AfterFill, Finalize, DeliveredAll, Sent, Possible,
         Armable;
    ServerInit();
    if events != [] {
      var n := |events| - 1;
      var e := events[n];
      ServerMetadataFirst(events[..n]);
      var s := Replay(ServerStart(), events[..n]).value;
      ShapeKept(s, e);
      StepKeeps(s, e);
      if e.Issue? {
        ServerGuards(e);
        SentAppend(s.trace, Batch(Loaded(s, e)));
        ValidSet(s, e);
        if e.k == READ {
          ReadSendsNothing(Loaded(s, e));
        } else if !s.flag {
          LoadedMetadata(s, e);
          BatchStarts(Loaded(s, e));
        }
      }
    }
  }

  lemma ValidSet(s: Stream, e: Event)
    requires Possible(s, e)
    ensures e.k < |s.sets|
  {
  }

  lemma ServerInit()
    ensures Init(ServerStart()) && Inv(ServerStart()) && ServerShape(ServerStart()) && Sent(ServerStart().trace) == []
  {
  }

  /** Why a caller must wait: two writes in a row, the second before the first has completed, send
      the initial metadata twice. */
  lemma OverlappingWritesSendMetadataTwice(first: Mem, second: Mem)
    ensures var w1 := ServerWrite([], None, "a", Created(first, true));
            var w2 := ServerWrite([], None, "b", Created(second, true));
            var r := Replay(ServerStart(), [w1, w2]);
            r.Some? && r.value.trace == [[SendInitialMetadataOp([]), SendMessageOp("a", 0)],
                                         [SendInitialMetadataOp([]), SendMessageOp("b", 0)]]
  {
    hide Step, Possible, ServerStart, ServerWrite;
    var w1 := ServerWrite([], None, "a", Created(first, true));
    var w2 := ServerWrite([], None, "b", Created(second, true));
    var s0 := ServerStart();
    ServerInit();
    WriteSetAtStart();
    var s1 := WriteStep(s0, "a", first);
    var s2 := WriteStep(s1, "b", second);
    assert [w1, w2][..1] == [w1] && [w1][..0] == [];
    assert Replay(s0, [w1]) == Some(s1);
    assert Replay(s0, [w1, w2]) == Some(s2);
  }

  lemma WriteSetAtStart()
    ensures var s := ServerStart(); !s.flag && s.trace == [] && |s.sets| == 4 && s.sets[WRITE] == [NO_METADATA, NO_MESSAGE]
  {
  }

  /** A write on a stream whose write set is idle or outstanding with the metadata. */
  lemma WriteStep(s: Stream, message: Message, mem: Mem) returns (s': Stream)
    requires ServerShape(s) && |s.sets[WRITE]| == 2 && s.sets[WRITE][1].SendMessage?
    requires s.sets[WRITE][0] == Slot.SendInitialMetadata(s.flag, [], None)
    ensures var w := ServerWrite([], None, message, Created(mem, true)); Possible(s, w) && Step(s, w) == Some(s')
    ensures ServerShape(s') && s'.flag && s'.sets[WRITE] == [Slot.SendInitialMetadata(true, [], None), SendMessage(Some(mem), true, 0, message)]
    ensures s'.trace == s.trace + [[SendInitialMetadataOp([]), SendMessageOp(message, 0)]]
  {
    var w := ServerWrite([], None, message, Created(mem, true));
    var l := [Slot.SendInitialMetadata(true, [], None), SendMessage(Some(mem), true, 0, message)];
    assert w.arms[..0] == [] && !Unsendable(w.arms);
    assert WithMetadata(s, w) == [l[0], s.sets[WRITE][1]];
    assert Loaded(s, w) == l;
    BatchOfTwo(l[0], l[1]);
    assert l == [l[0], l[1]] && Batch(l) == [SendInitialMetadataOp([]), SendMessageOp(message, 0)];
    assert AfterFill(l) == l;
    s' := Step(s, w).value;
  }

  // ---------- The client classes ----------

  const CLIENT_META := 1
  const CLIENT_READ := 2
  const CLIENT_FINISH := 5

  /** The sets of the client classes; `response` says whether the constructor already armed the
      finish set for a response, as the writers do. */
  function ClientStart(response: Target): Stream {
    Stream(Client, false,
           [[NO_METADATA, NO_MESSAGE, ClientSendClose(false)], [RecvInitialMetadata(false, None)],
            [RecvInitialMetadata(false, None), RecvMessage(NoTarget, None, false)], [NO_MESSAGE], [ClientSendClose(false)],
            [RecvInitialMetadata(false, None), RecvMessage(response, None, false), ClientRecvStatus(false, None, None)]],
           [])
  }

  /** ReadInitialMetadata; WaitForInitialMetadata on the sync streams. */
  function ClientReadInitialMetadata(): Event {
    Issue(CLIENT_META, Asserted, [], None, [])
  }

  function ClientRead(): Event {
    Issue(CLIENT_READ, IfNeeded, [], None, [ArmAt(1, ArmRecvMessage(Proto))])
  }

  /** Finish of the async classes; the unary one awaits its message here. */
  function ClientFinish(message: bool): Event {
    Issue(CLIENT_FINISH, IfNeeded, [], None,
          (if message then [ArmAt(1, ArmRecvMessage(Proto))] else []) + [ArmAt(2, ArmRecvStatus)])
  }

  /** On the async clients RECV_INITIAL_METADATA is issued exactly once when Finish has been issued,
      whatever else was called before and after. */
  lemma AsyncFinishReceivesMetadataOnce(response: Target, events: seq<Event>, message: bool)
    requires Replay(ClientStart(response), events).Some? && Disciplined(events) && ClientFinish(message) in events
    ensures MetadataOps(Replay(ClientStart(response), events).value) == 1
  {
    ClientInit(response);
    hide Replay, ClientStart, MetadataOps;
    var i :| 0 <= i < |events| && events[i] == ClientFinish(message);
    assert Asked(events);
    MetadataAtMostOnce(ClientStart(response), events);
  }

  lemma ClientInit(response: Target)
    ensures Init(ClientStart(response))
  {
  }

  /** The core demands one RECV_INITIAL_METADATA of every client.  A sync stream issues it if and only
      if the application waited for the metadata or read a message: Finish does not ask for it. */
  lemma SyncClientReceivesMetadataIff(response: Target, events: seq<Event>)
    requires Replay(ClientStart(response), events).Some? && Disciplined(events)
    requires forall e <- events :: e.Issue? && e.guard != Unasked ==> e == ClientReadInitialMetadata() || e == ClientRead()
    ensures MetadataOps(Replay(ClientStart(response), events).value) ==
            if ClientReadInitialMetadata() in events || ClientRead() in events then 1 else 0
  {
    ClientInit(response);
    hide Replay, ClientStart, MetadataOps;
    MetadataAtMostOnce(ClientStart(response), events);
    if ClientReadInitialMetadata() in events {
      var i :| 0 <= i < |events| && events[i] == ClientReadInitialMetadata();
      assert Asked(events);
    } else if ClientRead() in events {
      var i :| 0 <= i < |events| && events[i] == ClientRead();
      assert Asked(events);
    }
  }
}
