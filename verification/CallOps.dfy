/**
 The call-operation layer of include/grpc++/impl/call.h: the slots that a CallOpSet composes, how
 an armed set becomes a batch for the C core, and how a completed batch is finished.

 A CallOpSet is a sequence of slots, one for each template argument, so every instantiation (any
 choice, any order) is covered.  Heap blocks are identities; what the core writes on completion
 and whether a received message parses are arbitrary.
 */
module CallOps {
  import opened Common

  type Mem = nat
  type Message = string
  type Metadata = seq<(string, string)>

  datatype Status = Status(code: nat, details: string) {
    predicate Ok() { code == 0 }
  }

  const OK := Status(0, "")
  const SERIALIZATION_ERROR := Status(13, "Failed to serialize message")

  /** grpc_op, with the fields that the caller fills in. */
  datatype Op =
    | SendInitialMetadataOp(md: Metadata)
    | SendMessageOp(message: Message, flags: nat)
    | SendCloseOp
    | SendStatusOp(trailing: Metadata, status: Status)
    | RecvInitialMetadataOp
    | RecvMessageOp
    | RecvStatusOp

  /** Where a received message goes: nowhere (not armed), a protobuf message, or a ByteBuffer. */
  datatype Target = NoTarget | Proto | Bytes

  datatype Slot =
    | NoOp
    | SendInitialMetadata(send: bool, md: Metadata, arr: Option<Mem>)
    | SendMessage(buf: Option<Mem>, own: bool, flags: nat, message: Message)
    | ClientSendClose(send: bool)
    | ServerSendStatus(available: bool, trailing: Metadata, arr: Option<Mem>, status: Status)
    | RecvInitialMetadata(context: bool, arr: Option<Mem>)
    | RecvMessage(target: Target, buf: Option<Mem>, got: bool)
    | ClientRecvStatus(wanted: bool, arr: Option<Mem>, details: Option<Mem>)

  /** What SerializationTraits::Serialize leaves behind.  A protobuf serializer creates the buffer
      first, so the buffer is there even when serialization fails; a ByteBuffer lends its own. */
  datatype Serialized = Created(mem: Mem, fits: bool) | Lent(buffer: Option<Mem>)

  /** The setters that arm a slot. */
  datatype Arming =
    | ArmInitialMetadata(md: Metadata, arr: Option<Mem>)
    | ArmMessage(message: Message, flags: nat, ser: Serialized)
    | ArmClose
    | ArmStatus(trailing: Metadata, arr: Option<Mem>, status: Status)
    | ArmRecvInitialMetadata
    | ArmRecvMessage(target: Target)
    | ArmRecvStatus

  predicate Fits(slot: Slot, a: Arming) {
    match a
    case ArmInitialMetadata(_, _) => slot.SendInitialMetadata?
    case ArmMessage(_, _, _) => slot.SendMessage?
    case ArmClose => slot.ClientSendClose?
    case ArmStatus(_, _, _) => slot.ServerSendStatus?
    case ArmRecvInitialMetadata => slot.RecvInitialMetadata?
    case ArmRecvMessage(target) => slot.RecvMessage? && !target.NoTarget?
    case ArmRecvStatus => slot.ClientRecvStatus?
  }

  function Arm(slot: Slot, a: Arming): Slot
    requires Fits(slot, a)
  {
    match a
    case ArmInitialMetadata(md, arr) => SendInitialMetadata(true, md, arr)
    case ArmMessage(message, flags, Created(mem, _)) => SendMessage(Some(mem), true, flags, message)
    case ArmMessage(message, flags, Lent(buffer)) => SendMessage(buffer, false, flags, message)
    case ArmClose => ClientSendClose(true)
    case ArmStatus(trailing, arr, status) => ServerSendStatus(true, trailing, arr, status)
    case ArmRecvInitialMetadata => RecvInitialMetadata(true, slot.arr)
    case ArmRecvMessage(target) => RecvMessage(target, slot.buf, slot.got)
    case ArmRecvStatus => ClientRecvStatus(true, slot.arr, slot.details)
  }

  /** The status that SendMessage returns. */
  function SerializeStatus(ser: Serialized): Status {
    if ser.Created? && !ser.fits then SERIALIZATION_ERROR else OK
  }

  predicate Armed(slot: Slot) {
    match slot
    case NoOp => false
    case SendInitialMetadata(send, _, _) => send
    case SendMessage(buf, _, _, _) => buf.Some?
    case ClientSendClose(send) => send
    case ServerSendStatus(available, _, _, _) => available
    case RecvInitialMetadata(context, _) => context
    case RecvMessage(target, _, _) => !target.NoTarget?
    case ClientRecvStatus(wanted, _, _) => wanted
  }

  /** AddOp: the op a slot contributes to the batch, and the slot afterwards. */
  function AddedOp(slot: Slot): seq<Op> {
    match slot
    case NoOp => []
    case SendInitialMetadata(send, md, _) => if send then [SendInitialMetadataOp(md)] else []
    case SendMessage(buf, _, flags, message) => if buf.Some? then [SendMessageOp(message, flags)] else []
    case ClientSendClose(send) => if send then [SendCloseOp] else []
    case ServerSendStatus(available, trailing, _, status) => if available then [SendStatusOp(trailing, status)] else []
    case RecvInitialMetadata(context, _) => if context then [RecvInitialMetadataOp] else []
    case RecvMessage(target, _, _) => if target.NoTarget? then [] else [RecvMessageOp]
    case ClientRecvStatus(wanted, _, _) => if wanted then [RecvStatusOp] else []
  }

  function AfterAddOp(slot: Slot): Slot {
    match slot
    case SendMessage(Some(mem), own, _, message) => SendMessage(Some(mem), own, 0, message)
    case RecvInitialMetadata(true, _) => RecvInitialMetadata(true, None)
    case ClientRecvStatus(true, _, _) => ClientRecvStatus(true, None, None)
    case _ => slot
  }

  /** What the core hands over when the batch completes. */
  datatype Delivery = Delivery(block: Option<Mem>, details: Option<Mem>)

  /** The slot after the core has written to it, which it does if the batch has an op of that slot. */
  function Arrived(slot: Slot, issued: bool, d: Delivery): Slot {
    if !issued then slot else
      match slot
      case RecvInitialMetadata(context, _) => RecvInitialMetadata(context, d.block)
      case RecvMessage(target, _, got) => RecvMessage(target, d.block, got)
      case ClientRecvStatus(wanted, _, _) => ClientRecvStatus(wanted, d.block, d.details)
      case _ => slot
  }

  function Delivered(slot: Slot, d: Delivery): Slot {
    Arrived(slot, Armed(slot), d)
  }

  function List(m: Option<Mem>): seq<Mem> {
    if m.Some? then [m.value] else []
  }

  /** The slot after FinishOp, the status passed on, the blocks freed and the blocks given away. */
  datatype Finished = Finished(slot: Slot, ok: bool, freed: seq<Mem>, given: seq<Mem>)

  function FinishOp(slot: Slot, ok: bool, parses: bool): Finished {
    match slot
    case NoOp => Finished(slot, ok, [], [])
    case SendInitialMetadata(send, md, arr) =>
      if send then Finished(SendInitialMetadata(false, md, arr), ok, List(arr), []) else Finished(slot, ok, [], [])
    case SendMessage(buf, own, flags, message) =>
      Finished(SendMessage(None, own, flags, message), ok, if own then List(buf) else [], [])
    case ClientSendClose(_) => Finished(ClientSendClose(false), ok, [], [])
    case ServerSendStatus(available, _, arr, _) =>
      if available then Finished(slot.(available := false), ok, List(arr), []) else Finished(slot, ok, [], [])
    case RecvInitialMetadata(context, arr) =>
      if context then Finished(RecvInitialMetadata(false, None), ok, List(arr), []) else Finished(slot, ok, [], [])
    case RecvMessage(target, buf, got) =>
      if target.NoTarget? then Finished(slot, ok, [], [])
      else if buf.None? then Finished(RecvMessage(NoTarget, buf, false), false, [], [])
      else if !ok then Finished(RecvMessage(NoTarget, buf, false), false, [buf.value], [])
      else if target.Bytes? then Finished(RecvMessage(NoTarget, buf, true), true, [], [buf.value])
      else Finished(RecvMessage(NoTarget, buf, true), parses, [buf.value], [])
    case ClientRecvStatus(wanted, arr, details) =>
      if wanted then Finished(ClientRecvStatus(false, None, details), ok, List(arr) + List(details), [])
      else Finished(slot, ok, [], [])
  }

  // ---------- The whole set ----------

  function Batch(slots: seq<Slot>): seq<Op> {
    if slots == [] then [] else Batch(slots[..|slots| - 1]) + AddedOp(slots[|slots| - 1])
  }

  function AfterFill(slots: seq<Slot>): (r: seq<Slot>)
    ensures |r| == |slots|
  {
    seq(|slots|, i requires 0 <= i < |slots| => AfterAddOp(slots[i]))
  }

  datatype Result = Result(slots: seq<Slot>, ok: bool, freed: seq<Mem>, given: seq<Mem>)

  /** FinalizeResult: each slot finishes in turn, passing the status along. */
  function Finalize(slots: seq<Slot>, ok: bool, parses: bool): Result {
    if slots == [] then Result([], ok, [], []) else
      var r := Finalize(slots[..|slots| - 1], ok, parses);
      var f := FinishOp(slots[|slots| - 1], r.ok, parses);
      Result(r.slots + [f.slot], f.ok, r.freed + f.freed, r.given + f.given)
  }

  predicate Disarmed(slots: seq<Slot>) {
    forall i :: 0 <= i < |slots| ==> !Armed(slots[i])
  }

  /** A set as its constructor leaves it. */
  predicate Fresh(slots: seq<Slot>) {
    forall i :: 0 <= i < |slots| ==> slots[i] in {
      NoOp, SendInitialMetadata(false, [], None), SendMessage(None, false, 0, ""), ClientSendClose(false),
      ServerSendStatus(false, [], None, OK), RecvInitialMetadata(false, None), RecvMessage(NoTarget, None, false),
      ClientRecvStatus(false, None, None)
    }
  }

  /** The object itself: template arguments become a sequence of slots. */
  class CallOpSet {
    var slots: seq<Slot>

    constructor (slots: seq<Slot>)
      requires Fresh(slots)
      ensures this.slots == slots
    {
      this.slots := slots;
    }

    /** Any of the setters, on the slot in template position i. */
    method Set(i: nat, a: Arming)
      requires i < |slots| && Fits(slots[i], a)
      modifies this
      ensures slots == old(slots)[i := Arm(old(slots)[i], a)]
    {
      slots := slots[i := Arm(slots[i], a)];
    }

    method FillOps() returns (ops: seq<Op>)
      modifies this
      ensures ops == Batch(old(slots)) && slots == AfterFill(old(slots))
    {
      hide AddedOp, AfterAddOp;
      ops := [];
      ghost var was := slots;
      for i := 0 to |slots|
        invariant |slots| == |was|
        invariant ops == Batch(was[..i])
        invariant forall k :: 0 <= k < |was| ==> slots[k] == if k < i then AfterAddOp(was[k]) else was[k]
      {
        assert was[..i + 1][..i] == was[..i];
        ops := ops + AddedOp(slots[i]);
        slots := slots[i := AfterAddOp(slots[i])];
      }
      assert was[..|was|] == was;
    }

    /** The core's writes into the slots of a completed batch. */
    method Deliver(ds: seq<Delivery>)
      requires |ds| == |slots|
      modifies this
      ensures slots == DeliveredAll(old(slots), ds)
    {
      slots := DeliveredAll(slots, ds);
    }

    method FinalizeResult(status: bool, parses: bool) returns (ok: bool, freed: seq<Mem>, given: seq<Mem>)
      modifies this
      ensures Result(slots, ok, freed, given) == Finalize(old(slots), status, parses)
    {
      hide FinishOp, Finalize;
      ok, freed, given := status, [], [];
      ghost var was := slots;
      FinalizeNone(was, status, parses);
      for i := 0 to |slots|
        invariant |slots| == |was|
        invariant forall k :: i <= k < |was| ==> slots[k] == was[k]
        invariant Result(slots[..i], ok, freed, given) == Finalize(was[..i], status, parses)
      {
        FinalizeOneMore(was, i, status, parses);
        var f := FinishOp(slots[i], ok, parses);
        ghost var done := slots[..i];
        slots := slots[i := f.slot];
        assert slots[..i + 1] == done + [f.slot];
        ok, freed, given := f.ok, freed + f.freed, given + f.given;
      }
      assert was[..|was|] == was && slots[..|slots|] == slots;
    }
  }

  lemma FinalizeNone(slots: seq<Slot>, ok: bool, parses: bool)
    ensures Finalize(slots[..0], ok, parses) == Result([], ok, [], [])
  {
  }

  lemma FinalizeOneMore(slots: seq<Slot>, i: nat, ok: bool, parses: bool)
    requires i < |slots|
    ensures var r := Finalize(slots[..i], ok, parses);
            var f := FinishOp(slots[i], r.ok, parses);
            Finalize(slots[..i + 1], ok, parses) == Result(r.slots + [f.slot], f.ok, r.freed + f.freed, r.given + f.given)
  {
    hide FinishOp;
    assert slots[..i + 1][..i] == slots[..i];
  }

  lemma BatchOfTwo(a: Slot, b: Slot)
    ensures Batch([a, b]) == AddedOp(a) + AddedOp(b)
  {
    assert [a, b][..1] == [a];
    BatchOfOne(a);
  }

  lemma BatchOfThree(a: Slot, b: Slot, c: Slot)
    ensures Batch([a, b, c]) == AddedOp(a) + AddedOp(b) + AddedOp(c)
  {
    hide AddedOp;
    assert [a, b, c][..2] == [a, b];
    BatchOfTwo(a, b);
  }

  lemma BatchOfOne(a: Slot)
    ensures Batch([a]) == AddedOp(a)
  {
    assert [a][..0] == [];
  }

  // ---------- A call ----------

  /** grpc::Call with the batches it has started, in order. */
  class Call {
    var trace: seq<seq<Op>>

    constructor ()
      ensures trace == []
    {
      trace := [];
    }

    method PerformOps(ops: CallOpSet)
      modifies this, ops
      ensures trace == old(trace) + [Batch(old(ops.slots))] && ops.slots == AfterFill(old(ops.slots))
    {
      var batch := ops.FillOps();
      trace := trace + [batch];
    }

    /** CompletionQueue::Pluck: the batch completes as the core says and the set is finalized; the
        result is the status of the core, before FinalizeResult had its say. */
    method Pluck(ops: CallOpSet, core: Answer) returns (ok: bool, freed: seq<Mem>, given: seq<Mem>)
      requires |core.ds| == |ops.slots|
      modifies ops
      ensures ok == core.ok
      ensures var r := Finalize(DeliveredAll(old(ops.slots), core.ds), core.ok, core.parses);
              ops.slots == r.slots && freed == r.freed && given == r.given
    {
      ops.Deliver(core.ds);
      ok, freed, given := ops.FinalizeResult(core.ok, core.parses);
      ok := core.ok;
    }
  }

  /** How the core completes a batch: its status, what it hands over for each slot, and whether a
      received message will parse. */
  datatype Answer = Answer(ok: bool, ds: seq<Delivery>, parses: bool)

  /** Some completion of a batch of n slots. */
  method AnyAnswer(n: nat) returns (core: Answer)
    ensures |core.ds| == n
  {
    assert |seq(n, _ => Delivery(None, None))| == n;
    var ds: seq<Delivery> :| |ds| == n;
    var ok, parses: bool := *, *;
    core := Answer(ok, ds, parses);
  }

  /** The ops of a trace, in order. */
  function Flat(trace: seq<seq<Op>>): seq<Op> {
    if trace == [] then [] else Flat(trace[..|trace| - 1]) + trace[|trace| - 1]
  }

  predicate IsSend(op: Op) {
    op.SendInitialMetadataOp? || op.SendMessageOp? || op.SendCloseOp? || op.SendStatusOp?
  }

  function Sends(ops: seq<Op>): seq<Op> {
    if ops == [] then [] else
      Sends(ops[..|ops| - 1]) + if IsSend(ops[|ops| - 1]) then [ops[|ops| - 1]] else []
  }

  /** What a trace has sent so far. */
  function Sent(trace: seq<seq<Op>>): seq<Op> {
    Sends(Flat(trace))
  }

  lemma {:induction false} SendsConcat(a: seq<Op>, b: seq<Op>)
    ensures Sends(a + b) == Sends(a) + Sends(b)
  {
    if b == [] {
      assert a + b == a;
    } else {
      var n := |b| - 1;
      assert (a + b)[..|a + b| - 1] == a + b[..n];
      SendsConcat(a, b[..n]);
    }
  }

  lemma SentAppend(trace: seq<seq<Op>>, batch: seq<Op>)
    ensures Sent(trace + [batch]) == Sent(trace) + Sends(batch)
  {
    assert (trace + [batch])[..|trace|] == trace;
    SendsConcat(Flat(trace), batch);
  }

  lemma {:induction false} SendsOnly(ops: seq<Op>)
    requires forall op <- ops :: IsSend(op)
    ensures Sends(ops) == ops
  {
    hide IsSend;
    if ops != [] {
      var n := |ops| - 1;
      assert forall op <- ops[..n] :: op in ops;
      SendsOnly(ops[..n]);
      assert ops[n] in ops;
      assert ops == ops[..n] + [ops[n]];
    }
  }

  // ---------- Who owns what ----------

  /** The blocks a slot took over when it was armed. */
  function Taken(slot: Slot): seq<Mem> {
    match slot
    case SendInitialMetadata(true, _, arr) => List(arr)
    case SendMessage(buf, true, _, _) => List(buf)
    case ServerSendStatus(true, _, arr, _) => List(arr)
    case _ => []
  }

  /** The blocks the core hands to a slot with a delivery. */
  function Handed(slot: Slot, issued: bool, d: Delivery): seq<Mem> {
    if !issued then [] else
      match slot
      case RecvInitialMetadata(_, _) => List(d.block)
      case RecvMessage(_, _, _) => List(d.block)
      case ClientRecvStatus(_, _, _) => List(d.block) + List(d.details)
      case _ => []
  }

  /** Those of them that nobody waits for any more, because the slot was finished with another batch. */
  function Orphaned(slot: Slot, issued: bool, d: Delivery): seq<Mem> {
    if Armed(slot) then [] else Handed(slot, issued, d)
  }

  /** The blocks of an earlier delivery that FinishOp takes for a new one, because the slot was armed after the
      batch had gone out. */
  function Stale(slot: Slot, issued: bool): seq<Mem> {
    if issued || !Armed(slot) then [] else
      match slot
      case RecvInitialMetadata(_, arr) => List(arr)
      case RecvMessage(_, buf, _) => List(buf)
      case ClientRecvStatus(_, arr, details) => List(arr) + List(details)
      case _ => []
  }

  /** The blocks an arming brings along for the slot to own. */
  function Brought(a: Arming): seq<Mem> {
    match a
    case ArmInitialMetadata(_, arr) => List(arr)
    case ArmMessage(_, _, Created(mem, _)) => [mem]
    case ArmStatus(_, arr, _) => List(arr)
    case _ => []
  }

  lemma ArmTakes(slot: Slot, a: Arming)
    requires Fits(slot, a)
    ensures Taken(Arm(slot, a)) == Brought(a)
  {
  }

  lemma IdleTakesNothing(slot: Slot)
    requires !Armed(slot)
    ensures Taken(slot) == [] && AddedOp(slot) == []
  {
  }

  /** Finishing a slot disarms it and frees or gives away each block it owns and each that has arrived for it,
      and no other, unless the slot was finished or armed since the batch went out. */
  lemma FinishOpBalances(slot: Slot, issued: bool, d: Delivery, ok: bool, parses: bool)
    ensures var f := FinishOp(Arrived(slot, issued, d), ok, parses);
            && !Armed(f.slot)
            && f.freed + f.given + Orphaned(slot, issued, d) == Taken(slot) + Handed(slot, issued, d) + Stale(slot, issued)
  {
    match slot
    case NoOp =>
    case SendInitialMetadata(_, _, _) =>
    case SendMessage(_, _, _, _) =>
    case ClientSendClose(_) =>
    case ServerSendStatus(_, _, _, _) =>
    case RecvInitialMetadata(_, _) =>
    case RecvMessage(_, _, _) =>
    case ClientRecvStatus(_, _, _) =>
  }

  // ---------- Sums over the slots of a set ----------

  function Total<T(!new)>(slots: seq<Slot>, f: Slot -> multiset<T>): multiset<T> {
    if slots == [] then multiset{} else Total(slots[..|slots| - 1], f) + f(slots[|slots| - 1])
  }

  lemma Regroup<T>(a: multiset<T>, b: multiset<T>, c: multiset<T>)
    ensures a + b + c == a + c + b
  {
  }

  /** Replacing one slot exchanges its share of the sum. */
  lemma {:induction false} TotalUpdate<T(!new)>(slots: seq<Slot>, i: nat, slot: Slot, f: Slot -> multiset<T>)
    requires i < |slots|
    ensures Total(slots[i := slot], f) + f(slots[i]) == Total(slots, f) + f(slot)
  {
    var n := |slots| - 1;
    var rest, last := slots[..n], slots[n];
    if i == n {
      assert slots[i := slot][..n] == rest;
      Regroup(Total(rest, f), f(slot), f(last));
    } else {
      TotalUpdate(rest, i, slot, f);
      assert slots[i := slot][..n] == rest[i := slot] && rest[i] == slots[i];
      Regroup(Total(rest[i := slot], f), f(last), f(slots[i]));
      Regroup(Total(rest, f), f(slot), f(last));
    }
  }

  lemma {:induction false} TotalNothing<T(!new)>(slots: seq<Slot>, f: Slot -> multiset<T>)
    requires forall i :: 0 <= i < |slots| ==> f(slots[i]) == multiset{}
    ensures Total(slots, f) == multiset{}
  {
    if slots != [] {
      TotalNothing(slots[..|slots| - 1], f);
    }
  }

  lemma {:induction false} TotalSame<T(!new)>(slots: seq<Slot>, slots': seq<Slot>, f: Slot -> multiset<T>)
    requires |slots| == |slots'| && forall i :: 0 <= i < |slots| ==> f(slots[i]) == f(slots'[i])
    ensures Total(slots, f) == Total(slots', f)
  {
    if slots != [] {
      TotalSame(slots[..|slots| - 1], slots'[..|slots| - 1], f);
    }
  }

  // ---------- Rounds: arm, fill, complete, finalize, any number of times ----------

  datatype Event =
    | Arms(i: nat, a: Arming)
    | Fills
    | Completes(k: nat, ds: seq<Delivery>, ok: bool, parses: bool)  // the k-th of the batches in flight

  /** An op set with the batches in flight, each as the slots it was filled from, and the history of the blocks
      it was made responsible for.  A block is lost when the slot that owns it is armed again, or when it
      arrives for a slot that is not armed any more; it is released again when it is stale. */
  datatype Ledger = Ledger(slots: seq<Slot>, flying: seq<seq<Slot>>, batches: seq<seq<Op>>, acquired: multiset<Mem>,
                           freed: multiset<Mem>, given: multiset<Mem>, lost: multiset<Mem>, again: multiset<Mem>)

  function Start(slots: seq<Slot>): Ledger {
    Ledger(slots, [], [], multiset{}, multiset{}, multiset{}, multiset{}, multiset{})
  }

  function TakenBy(slot: Slot): multiset<Mem> {
    multiset(Taken(slot))
  }

  /** The blocks a set owns. */
  function TakenAll(slots: seq<Slot>): multiset<Mem> {
    Total(slots, TakenBy)
  }

  /** That a batch has an op of slot i. */
  predicate HasOp(batch: seq<Slot>, i: nat) {
    i < |batch| && Armed(batch[i])
  }

  /** What the core hands over on a completion, and which of it is orphaned; and what is stale. */
  datatype Flow = Flow(handed: multiset<Mem>, orphaned: multiset<Mem>, stale: multiset<Mem>)

  function FlowAll(slots: seq<Slot>, batch: seq<Slot>, ds: seq<Delivery>): Flow
    requires |ds| == |slots|
  {
    if slots == [] then Flow(multiset{}, multiset{}, multiset{}) else
      var n := |slots| - 1;
      var r := FlowAll(slots[..n], batch, ds[..n]);
      var slot, issued, d := slots[n], HasOp(batch, n), ds[n];
      Flow(r.handed + multiset(Handed(slot, issued, d)), r.orphaned + multiset(Orphaned(slot, issued, d)),
           r.stale + multiset(Stale(slot, issued)))
  }

  function ArrivedAll(slots: seq<Slot>, batch: seq<Slot>, ds: seq<Delivery>): (r: seq<Slot>)
    requires |ds| == |slots|
    ensures |r| == |slots|
  {
    seq(|slots|, i requires 0 <= i < |slots| => Arrived(slots[i], HasOp(batch, i), ds[i]))
  }

  function DeliveredAll(slots: seq<Slot>, ds: seq<Delivery>): (r: seq<Slot>)
    requires |ds| == |slots|
    ensures |r| == |slots|
  {
    seq(|slots|, i requires 0 <= i < |slots| => Delivered(slots[i], ds[i]))
  }

  predicate Legal(l: Ledger, e: Event) {
    match e
    case Arms(i, a) => i < |l.slots| && Fits(l.slots[i], a)
    case Fills => true
    case Completes(k, ds, _, _) => k < |l.flying| && |ds| == |l.slots|
  }

  function Apply(l: Ledger, e: Event): Ledger
    requires Legal(l, e)
  {
    match e
    case Arms(i, a) =>
      l.(slots := l.slots[i := Arm(l.slots[i], a)], acquired := l.acquired + multiset(Brought(a)),
         lost := l.lost + TakenBy(l.slots[i]))
    case Fills =>
      l.(slots := AfterFill(l.slots), flying := l.flying + [AfterFill(l.slots)], batches := l.batches + [Batch(l.slots)])
    case Completes(k, ds, ok, parses) =>
      var r := Finalize(ArrivedAll(l.slots, l.flying[k], ds), ok, parses);
      var flow := FlowAll(l.slots, l.flying[k], ds);
      l.(slots := r.slots, flying := l.flying[..k] + l.flying[k + 1..], acquired := l.acquired + flow.handed,
         freed := l.freed + multiset(r.freed), given := l.given + multiset(r.given),
         lost := l.lost + flow.orphaned, again := l.again + flow.stale)
  }

  /** The ledger after the events, or None if one of them was not legal. */
  function Play(slots: seq<Slot>, events: seq<Event>): Option<Ledger> {
    if events == [] then Some(Start(slots)) else
      var before := Play(slots, events[..|events| - 1]);
      var e := events[|events| - 1];
      if before.Some? && Legal(before.value, e) then Some(Apply(before.value, e)) else None
  }

  lemma PlayOneMore(slots: seq<Slot>, events: seq<Event>, e: Event)
    ensures Play(slots, events + [e]) ==
            var l := Play(slots, events);
            if l.Some? && Legal(l.value, e) then Some(Apply(l.value, e)) else None
  {
    assert (events + [e])[..|events|] == events;
  }

  /** A batch in flight is left alone until it completes. */
  predicate Tidy(slots: seq<Slot>, events: seq<Event>) {
    && Play(slots, events).Some?
    && (events == [] ||
        var before, e := events[..|events| - 1], events[|events| - 1];
        Tidy(slots, before) && (e.Completes? || Play(slots, before).value.flying == []))
  }

  /** Some arming overwrote a slot that still owned a block. */
  predicate Overwrites(slots: seq<Slot>, events: seq<Event>)
    requires Play(slots, events).Some?
  {
    events != [] &&
    var before, e := events[..|events| - 1], events[|events| - 1];
    Overwrites(slots, before) || (e.Arms? && Taken(Play(slots, before).value.slots[e.i]) != [])
  }

  lemma IdleSet(slots: seq<Slot>)
    requires Disarmed(slots)
    ensures TakenAll(slots) == multiset{}
  {
    forall i | 0 <= i < |slots| ensures TakenBy(slots[i]) == multiset{} {
      IdleTakesNothing(slots[i]);
    }
    TotalNothing(slots, TakenBy);
  }

  lemma {:induction false} IdleBatch(slots: seq<Slot>)
    requires Disarmed(slots)
    ensures Batch(slots) == []
  {
    hide Armed;
    if slots != [] {
      IdleBatch(slots[..|slots| - 1]);
      IdleTakesNothing(slots[|slots| - 1]);
    }
  }

  lemma AddOpKeepsTaken(slot: Slot)
    ensures Taken(AfterAddOp(slot)) == Taken(slot)
  {
  }

  lemma FillKeepsTaken(slots: seq<Slot>)
    ensures TakenAll(AfterFill(slots)) == TakenAll(slots)
  {
    hide Taken, AfterAddOp;
    forall i | 0 <= i < |slots| ensures TakenBy(AfterFill(slots)[i]) == TakenBy(slots[i]) {
      AddOpKeepsTaken(slots[i]);
    }
    TotalSame(AfterFill(slots), slots, TakenBy);
  }

  lemma {:induction false} FinalizeBalances(slots: seq<Slot>, batch: seq<Slot>, ds: seq<Delivery>, ok: bool, parses: bool)
    requires |ds| == |slots|
    ensures var r := Finalize(ArrivedAll(slots, batch, ds), ok, parses);
            var flow := FlowAll(slots, batch, ds);
            && |r.slots| == |slots| && Disarmed(r.slots)
            && multiset(r.freed) + multiset(r.given) + flow.orphaned == TakenAll(slots) + flow.handed + flow.stale
  {
    hide Taken, AfterAddOp, FinishOp, Handed, Orphaned, Stale, Arrived, Armed;
    if slots != [] {
      var n := |slots| - 1;
      FinalizeBalances(slots[..n], batch, ds[..n], ok, parses);
      assert ArrivedAll(slots, batch, ds)[..n] == ArrivedAll(slots[..n], batch, ds[..n]);
      var r := Finalize(ArrivedAll(slots[..n], batch, ds[..n]), ok, parses);
      var flow := FlowAll(slots[..n], batch, ds[..n]);
      var slot, issued, d := slots[n], HasOp(batch, n), ds[n];
      FinishOpBalances(slot, issued, d, r.ok, parses);
      var f := FinishOp(Arrived(slot, issued, d), r.ok, parses);
      assert Finalize(ArrivedAll(slots, batch, ds), ok, parses) ==
             Result(r.slots + [f.slot], f.ok, r.freed + f.freed, r.given + f.given);
      Shuffle(r.freed, r.given, flow.orphaned, f.freed, f.given, Orphaned(slot, issued, d),
              TakenAll(slots[..n]), flow.handed, flow.stale, Taken(slot), Handed(slot, issued, d), Stale(slot, issued));
    }
  }

  /** A batch that has an op of each armed slot. */
  lemma ArrivedForAll(slots: seq<Slot>, ds: seq<Delivery>)
    requires |ds| == |slots|
    ensures ArrivedAll(slots, slots, ds) == DeliveredAll(slots, ds)
  {
  }

  lemma FourWay<T>(a: multiset<T>, b: multiset<T>, c: multiset<T>, d: multiset<T>)
    ensures (a + b) + (c + d) == (a + c) + (b + d)
  {
  }

  lemma SixWay<T>(a: multiset<T>, b: multiset<T>, c: multiset<T>, d: multiset<T>, e: multiset<T>, f: multiset<T>)
    ensures (a + d) + (b + e) + (c + f) == (a + b + c) + (d + e + f)
  {
    FourWay(a, d, b, e);
    FourWay(a + b, d + e, c, f);
  }

  lemma Bagged(a: seq<Mem>, b: seq<Mem>, c: seq<Mem>)
    ensures multiset(a + b + c) == multiset(a) + multiset(b) + multiset(c)
  {
    assert multiset(a + b + c) == multiset(a + b) + multiset(c);
    assert multiset(a + b) == multiset(a) + multiset(b);
  }

  /** Two balances make one. */
  lemma Shuffle(freed: seq<Mem>, given: seq<Mem>, orphaned: multiset<Mem>, f: seq<Mem>, g: seq<Mem>, o: seq<Mem>,
                taken: multiset<Mem>, handed: multiset<Mem>, stale: multiset<Mem>, t: seq<Mem>, h: seq<Mem>, st: seq<Mem>)
    requires multiset(freed) + multiset(given) + orphaned == taken + handed + stale && f + g + o == t + h + st
    ensures multiset(freed + f) + multiset(given + g) + (orphaned + multiset(o)) ==
            (taken + multiset(t)) + (handed + multiset(h)) + (stale + multiset(st))
  {
    Bagged(f, g, o);
    Bagged(t, h, st);
    assert multiset(freed + f) == multiset(freed) + multiset(f) && multiset(given + g) == multiset(given) + multiset(g);
    SixWay(multiset(freed), multiset(given), orphaned, multiset(f), multiset(g), multiset(o));
    SixWay(taken, handed, stale, multiset(t), multiset(h), multiset(st));
  }

  lemma TidySlot(slot: Slot, d: Delivery)
    ensures Orphaned(slot, Armed(slot), d) == [] && Stale(slot, Armed(slot)) == []
  {
  }

  /** A slot that a batch has an op of exactly if it is armed is neither orphaned nor stale. */
  lemma {:induction false} TidyFlow(slots: seq<Slot>, batch: seq<Slot>, ds: seq<Delivery>)
    requires |ds| == |slots| <= |batch| && batch[..|slots|] == slots
    ensures FlowAll(slots, batch, ds).orphaned == multiset{} && FlowAll(slots, batch, ds).stale == multiset{}
  {
    hide Handed, Orphaned, Stale, Armed;
    if slots != [] {
      var n := |slots| - 1;
      assert batch[..n] == slots[..n] && batch[n] == slots[n];
      TidyFlow(slots[..n], batch, ds[..n]);
      TidySlot(slots[n], ds[n]);
    }
  }

  /** The invariant of every history: what was acquired or released again was freed, given away, lost, or is owned. */
  ghost predicate Balanced(l: Ledger) {
    l.acquired + l.again == l.freed + l.given + TakenAll(l.slots) + l.lost
  }

  lemma ArmBalances(l: Ledger, i: nat, a: Arming)
    requires Balanced(l) && Legal(l, Arms(i, a))
    ensures Balanced(Apply(l, Arms(i, a)))
  {
    ArmTakes(l.slots[i], a);
    hide Arm, Fits, Taken, Brought, TakenAll;
    var slot := Arm(l.slots[i], a);
    TotalUpdate(l.slots, i, slot, TakenBy);
    Exchanged(l.slots, i, slot);
    Traded(l.acquired, l.again, l.freed + l.given, TakenAll(l.slots), TakenBy(slot), TakenAll(l.slots[i := slot]), TakenBy(l.slots[i]), l.lost);
  }

  lemma Exchanged(slots: seq<Slot>, i: nat, slot: Slot)
    requires i < |slots|
    ensures TakenAll(slots[i := slot]) + TakenBy(slots[i]) == TakenAll(slots) + TakenBy(slot)
  {
    hide TakenBy, Total;
    TotalUpdate(slots, i, slot, TakenBy);
  }

  lemma Traded(acquired: multiset<Mem>, again: multiset<Mem>, released: multiset<Mem>, owned: multiset<Mem>, more: multiset<Mem>,
               owned': multiset<Mem>, gone: multiset<Mem>, lost: multiset<Mem>)
    requires owned' + gone == owned + more && acquired + again == released + owned + lost
    ensures acquired + more + again == released + owned' + (lost + gone)
  {
    Regroup(acquired, more, again);
    assert released + owned + lost + more == released + (owned + more) + lost;
  }

  lemma CompletionBalances(l: Ledger, e: Event)
    requires e.Completes? && Balanced(l) && Legal(l, e)
    ensures Balanced(Apply(l, e)) && Disarmed(Apply(l, e).slots) && |Apply(l, e).slots| == |l.slots|
    ensures TakenAll(Apply(l, e).slots) == multiset{}
  {
    hide HasOp, Finalize, TakenAll, FlowAll, Disarmed, ArrivedAll;
    var batch := l.flying[e.k];
    FinalizeBalances(l.slots, batch, e.ds, e.ok, e.parses);
    var r := Finalize(ArrivedAll(l.slots, batch, e.ds), e.ok, e.parses);
    var flow := FlowAll(l.slots, batch, e.ds);
    IdleSet(r.slots);
    Settled(l.acquired, l.again, l.freed, l.given, TakenAll(l.slots), l.lost, flow, multiset(r.freed), multiset(r.given));
  }

  lemma Settled(acquired: multiset<Mem>, again: multiset<Mem>, freed: multiset<Mem>, given: multiset<Mem>, owned: multiset<Mem>,
                lost: multiset<Mem>, flow: Flow, f: multiset<Mem>, g: multiset<Mem>)
    requires acquired + again == freed + given + owned + lost
    requires f + g + flow.orphaned == owned + flow.handed + flow.stale
    ensures (acquired + flow.handed) + (again + flow.stale) == (freed + f) + (given + g) + multiset{} + (lost + flow.orphaned)
  {
    forall m ensures ((acquired + flow.handed) + (again + flow.stale))[m] ==
                     ((freed + f) + (given + g) + multiset{} + (lost + flow.orphaned))[m]
    {
      assert (acquired + again)[m] == (freed + given + owned + lost)[m];
      assert (f + g + flow.orphaned)[m] == (owned + flow.handed + flow.stale)[m];
    }
  }

  lemma ApplyKeepsBalance(l: Ledger, e: Event)
    requires Balanced(l) && Legal(l, e)
    ensures Balanced(Apply(l, e))
    ensures e.Completes? ==> Disarmed(Apply(l, e).slots) && TakenAll(Apply(l, e).slots) == multiset{}
  {
    match e
    case Arms(i, a) =>
      hide Legal, Disarmed;
      ArmBalances(l, i, a);
    case Fills =>
      hide TakenAll, AfterFill;
      FillKeepsTaken(l.slots);
    case Completes(_, _, _, _) =>
      hide Legal, Balanced;
      CompletionBalances(l, e);
  }

  lemma {:induction false} PlayBalanced(slots: seq<Slot>, events: seq<Event>)
    requires Disarmed(slots) && Play(slots, events).Some?
    ensures Balanced(Play(slots, events).value)
  {
    if events == [] {
      IdleSet(slots);
    } else {
      var before, e := events[..|events| - 1], events[|events| - 1];
      hide Balanced, Disarmed, Legal, Apply;
      PlayBalanced(slots, before);
      ApplyKeepsBalance(Play(slots, before).value, e);
    }
  }

  /** In a tidy history nothing is released again, only a second arming loses a block, and the one batch that may
      be in flight is that of the slots as they are. */
  lemma {:induction false} TidyPlay(slots: seq<Slot>, events: seq<Event>)
    requires Disarmed(slots) && Tidy(slots, events)
    ensures var l := Play(slots, events).value;
            && l.again == multiset{} && (l.lost == multiset{} <==> !Overwrites(slots, events))
            && (l.flying == [] || l.flying == [l.slots])
  {
    hide Balanced, Disarmed, Fits, Arm, Taken, Brought, Finalize, FlowAll, ArrivedAll, Batch, AfterFill;
    if events != [] {
      var before, e := events[..|events| - 1], events[|events| - 1];
      TidyPlay(slots, before);
      var l := Play(slots, before).value;
      match e {
        case Arms(i, _) =>
          LostMore(l.lost, Taken(l.slots[i]));
        case Fills =>
        case Completes(k, ds, _, _) =>
          assert k == 0 && l.flying[0] == l.slots && l.slots[..|l.slots|] == l.slots;
          TidyFlow(l.slots, l.slots, ds);
      }
    }
  }

  lemma LostMore(lost: multiset<Mem>, taken: seq<Mem>)
    ensures lost + multiset(taken) == multiset{} <==> lost == multiset{} && taken == []
  {
    if taken != [] {
      assert taken[0] in multiset(taken);
      assert taken[0] in lost + multiset(taken);
    }
    if lost != multiset{} {
      var m :| m in lost;
      assert m in lost + multiset(taken);
    }
  }

  /** Conservation, over every history, batches overlapping or not: a block the set was made responsible for was
      freed, given away, lost or is still owned, and nothing else was freed or given but what is stale.  After a
      completion none is owned, every slot is disarmed and a further FillOps would add nothing.  If no batch is
      touched in flight, the set has released each block exactly once if and only if no arming overwrote a
      slot that still owned a block and none is owned now; and it owns what a batch in flight uses. */
  lemma RoundsReleaseExactlyOnce(slots: seq<Slot>, events: seq<Event>)
    requires Disarmed(slots) && Play(slots, events).Some?
    ensures var l := Play(slots, events).value;
            && l.acquired + l.again == l.freed + l.given + TakenAll(l.slots) + l.lost
            && (events != [] && events[|events| - 1].Completes? ==>
                  Disarmed(l.slots) && TakenAll(l.slots) == multiset{} && Batch(l.slots) == [])
            && (Tidy(slots, events) ==>
                  && l.again == multiset{}
                  && (l.acquired == l.freed + l.given <==> !Overwrites(slots, events) && TakenAll(l.slots) == multiset{})
                  && (l.flying == [] || l.flying == [l.slots]))
  {
    hide Apply, Legal, Disarmed, Batch, TakenAll, Overwrites, Tidy;
    PlayBalanced(slots, events);
    var l := Play(slots, events).value;
    if Tidy(slots, events) {
      TidyPlay(slots, events);
      Nothing(l.freed + l.given, TakenAll(l.slots), l.lost);
      assert l.acquired + multiset{} == l.acquired;
    }
    if events != [] && events[|events| - 1].Completes? {
      var before := events[..|events| - 1];
      PlayBalanced(slots, before);
      ApplyKeepsBalance(Play(slots, before).value, events[|events| - 1]);
      IdleBatch(l.slots);
    }
  }

  lemma Nothing(released: multiset<Mem>, owned: multiset<Mem>, lost: multiset<Mem>)
    ensures released + owned + lost == released <==> lost == multiset{} && owned == multiset{}
  {
    if released + owned + lost == released {
      forall m ensures owned[m] == 0 && lost[m] == 0 {
        assert (released + owned + lost)[m] == released[m] + owned[m] + lost[m];
      }
    }
  }

  /** The smallest history that loses a block: one slot, armed twice before the batch goes out. */
  function RearmedRound(first: Mem, second: Mem): seq<Event> {
    [Arms(0, ArmMessage("a", 0, Created(first, true))), Arms(0, ArmMessage("b", 0, Created(second, true)))]
  }

  lemma RearmingLeaks(first: Mem, second: Mem)
    ensures var l := Play([SendMessage(None, false, 0, "")], RearmedRound(first, second));
            && l.Some? && l.value.acquired == multiset{first, second}
            && l.value.lost == multiset{first} && TakenAll(l.value.slots) == multiset{second}
  {
    hide Play, Apply, Legal, TakenAll, TakenBy;
    var slots := [SendMessage(None, false, 0, "")];
    var e1, e2 := Arms(0, ArmMessage("a", 0, Created(first, true))), Arms(0, ArmMessage("b", 0, Created(second, true)));
    assert RearmedRound(first, second) == [] + [e1] + [e2];
    IdleOwnsNothing();
    ArmOnly(Start(slots), "a", first);
    var l1 := Apply(Start(slots), e1);
    ArmOnly(l1, "b", second);
    PlayOneMore(slots, [], e1);
    PlayOneMore(slots, [] + [e1], e2);
    PlayNothing(slots);
  }

  lemma IdleOwnsNothing()
    ensures TakenBy(SendMessage(None, false, 0, "")) == multiset{}
  {
  }

  lemma PlayNothing(slots: seq<Slot>)
    ensures Play(slots, []) == Some(Start(slots))
  {
  }

  /** Arming the only slot of a set. */
  lemma ArmOnly(l: Ledger, message: Message, mem: Mem)
    requires |l.slots| == 1 && l.slots[0].SendMessage?
    ensures var e := Arms(0, ArmMessage(message, 0, Created(mem, true)));
            && Legal(l, e)
            && Apply(l, e) == l.(slots := [SendMessage(Some(mem), true, 0, message)], acquired := l.acquired + multiset{mem},
                                 lost := l.lost + TakenBy(l.slots[0]))
            && TakenAll(Apply(l, e).slots) == TakenBy(Apply(l, e).slots[0]) == multiset{mem}
  {
    OneSlot([SendMessage(Some(mem), true, 0, message)]);
    hide TakenAll;
    assert multiset([mem]) == multiset{mem};
  }

  lemma OneSlot(slots: seq<Slot>)
    requires |slots| == 1
    ensures TakenAll(slots) == TakenBy(slots[0])
  {
    hide TakenBy;
    assert slots[..0] == [];
    assert Total(slots[..0], TakenBy) == multiset{};
    assert multiset{} + TakenBy(slots[0]) == TakenBy(slots[0]);
  }

  /** Two writes on one set, the second before the first has completed. */
  function OverlappingRound(first: Mem, second: Mem, d: Delivery, ok: bool, parses: bool): seq<Event> {
    [Arms(0, ArmMessage("a", 0, Created(first, true))), Fills, Arms(0, ArmMessage("b", 0, Created(second, true))), Fills,
     Completes(0, [d], ok, parses)]
  }

  /** What that does to the buffers: the first is lost, and the second is freed by the first completion, while the
      batch that sends it is still in flight. */
  lemma OverlappingWritesMixBuffers(first: Mem, second: Mem, d: Delivery, ok: bool, parses: bool)
    ensures var l := Play([SendMessage(None, false, 0, "")], OverlappingRound(first, second, d, ok, parses));
            && l.Some? && l.value.acquired == multiset{first, second}
            && l.value.lost == multiset{first} && l.value.freed == multiset{second}
            && l.value.flying == [[SendMessage(Some(second), true, 0, "b")]]
  {
    hide Play, Apply, Legal, TakenBy;
    var slots := [SendMessage(None, false, 0, "")];
    var e1, e3 := Arms(0, ArmMessage("a", 0, Created(first, true))), Arms(0, ArmMessage("b", 0, Created(second, true)));
    var e5 := Completes(0, [d], ok, parses);
    assert OverlappingRound(first, second, d, ok, parses) == [] + [e1] + [Fills] + [e3] + [Fills] + [e5];
    IdleOwnsNothing();
    PlayNothing(slots);
    var l0 := Start(slots);
    ArmOnly(l0, "a", first);
    PlayOneMore(slots, [], e1);
    var l1 := Apply(l0, e1);
    FillOnly(l1);
    PlayOneMore(slots, [] + [e1], Fills);
    var l2 := Apply(l1, Fills);
    ArmOnly(l2, "b", second);
    PlayOneMore(slots, [] + [e1] + [Fills], e3);
    var l3 := Apply(l2, e3);
    FillOnly(l3);
    PlayOneMore(slots, [] + [e1] + [Fills] + [e3], Fills);
    var l4 := Apply(l3, Fills);
    CompleteOnly(l4, second, d, ok, parses);
    PlayOneMore(slots, [] + [e1] + [Fills] + [e3] + [Fills], e5);
  }

  /** Filling the only slot of a set. */
  lemma FillOnly(l: Ledger)
    requires |l.slots| == 1 && l.slots[0].SendMessage? && l.slots[0].flags == 0
    ensures Legal(l, Fills) && Apply(l, Fills) == l.(flying := l.flying + [l.slots], batches := l.batches + [Batch(l.slots)])
  {
    assert AfterFill(l.slots) == l.slots;
  }

  /** Completing a batch of a set whose only slot is armed with a message of its own. */
  lemma CompleteOnly(l: Ledger, mem: Mem, d: Delivery, ok: bool, parses: bool)
    requires |l.slots| == 1 && l.slots[0].SendMessage? && l.slots[0].own && l.slots[0].buf == Some(mem) && l.flying != []
    ensures var e := Completes(0, [d], ok, parses);
            && Legal(l, e) && Apply(l, e).flying == l.flying[1..] && Apply(l, e).freed == l.freed + multiset{mem}
            && Apply(l, e).lost == l.lost && Apply(l, e).acquired == l.acquired
  {
    var slots, batch := ArrivedAll(l.slots, l.flying[0], [d]), l.flying[0];
    assert slots == l.slots;
    assert slots[..0] == [] && l.slots[..0] == [] && [d][..0] == [];
    assert Finalize(slots[..0], ok, parses) == Result([], ok, [], []);
    assert Finalize(slots, ok, parses).freed == [] + [mem] == [mem];
    assert multiset([mem]) == multiset{mem};
    assert FlowAll(l.slots[..0], batch, [d][..0]) == Flow(multiset{}, multiset{}, multiset{});
    assert FlowAll(l.slots, batch, [d]) == Flow(multiset{}, multiset{}, multiset{});
  }

  // ---------- The set of a synchronous write ----------

  const WRITE_SET := [SendInitialMetadata(false, [], None), SendMessage(None, false, 0, "")]

  /** What Write does to its local set: a message that does not serialize ends it there. */
  function WriteEvents(due: Option<Arming>, message: Message, flags: nat, ser: Serialized, core: Answer): seq<Event> {
    var armed := [Arms(1, ArmMessage(message, flags, ser))];
    if !SerializeStatus(ser).Ok() then armed
    else (if due.Some? then armed + [Arms(0, due.value)] else armed) + [Fills] + [Completes(0, core.ds, core.ok, core.parses)]
  }

  /** Write gives back every block it was responsible for if and only if the message serializes:
      otherwise the buffer that was created for it stays in a set that nobody finalizes. */
  lemma WriteReleasesIff(due: Option<Arming>, message: Message, flags: nat, ser: Serialized, core: Answer)
    requires |core.ds| == 2 && (due.Some? ==> due.value.ArmInitialMetadata?)
    ensures var l := Play(WRITE_SET, WriteEvents(due, message, flags, ser, core));
            && l.Some? && (l.value.acquired == l.value.freed + l.value.given <==> SerializeStatus(ser).Ok())
            && (!SerializeStatus(ser).Ok() ==> TakenAll(l.value.slots) == multiset{ser.mem})
  {
    hide Play, Overwrites, Apply, TakenAll;
    var e1 := Arms(1, ArmMessage(message, flags, ser));
    WriteArms(e1);
    if SerializeStatus(ser).Ok() {
      WriteGoesOn(due, e1, core);
    } else {
      WriteStops(e1, ser.mem);
    }
  }

  /** A write that ends after its first setter: the set owns the new buffer. */
  lemma WriteStops(e1: Event, mem: Mem)
    requires e1.Arms? && e1.i == 1 && e1.a.ArmMessage? && e1.a.ser.Created? && e1.a.ser.mem == mem
    requires Disarmed(WRITE_SET) && Tidy(WRITE_SET, [e1]) && Play(WRITE_SET, [e1]) == Some(Apply(Start(WRITE_SET), e1))
    requires Apply(Start(WRITE_SET), e1).slots == [WRITE_SET[0], Arm(WRITE_SET[1], e1.a)]
    ensures var l := Play(WRITE_SET, [e1]).value;
            TakenAll(l.slots) == multiset{mem} && l.acquired != l.freed + l.given
  {
    hide Play, Overwrites, Apply, TakenAll, Disarmed, Tidy;
    RoundsReleaseExactlyOnce(WRITE_SET, [e1]);
    var l := Play(WRITE_SET, [e1]).value;
    TwoSlots(l.slots);
    assert TakenBy(l.slots[1]) == multiset{mem} && TakenBy(l.slots[0]) == multiset{};
    assert mem in TakenAll(l.slots);
  }

  /** After the first setter. */
  lemma WriteArms(e1: Event)
    requires e1.Arms? && e1.i == 1 && e1.a.ArmMessage?
    ensures Disarmed(WRITE_SET) && Play(WRITE_SET, [e1]) == Some(Apply(Start(WRITE_SET), e1))
    ensures Apply(Start(WRITE_SET), e1).slots == [WRITE_SET[0], Arm(WRITE_SET[1], e1.a)] && Apply(Start(WRITE_SET), e1).flying == []
    ensures Tidy(WRITE_SET, [e1]) && !Overwrites(WRITE_SET, [e1])
  {
    assert Fits(WRITE_SET[1], e1.a) && Legal(Start(WRITE_SET), e1);
    assert Taken(WRITE_SET[1]) == [];
    assert forall i :: 0 <= i < |WRITE_SET| ==> !Armed(WRITE_SET[i]);
    assert WRITE_SET[1 := Arm(WRITE_SET[1], e1.a)] == [WRITE_SET[0], Arm(WRITE_SET[1], e1.a)];
    hide Arm, Armed, Fits, Taken, Brought;
    FirstEvent(WRITE_SET, e1);
  }

  lemma FirstEvent(slots: seq<Slot>, e: Event)
    requires Legal(Start(slots), e)
    ensures Play(slots, [e]) == Some(Apply(Start(slots), e)) && Tidy(slots, [e])
    ensures Overwrites(slots, [e]) <==> e.Arms? && Taken(slots[e.i]) != []
  {
    hide Legal, Apply, Taken;
    assert [e][..0] == [];
    PlayNothing(slots);
    assert !Overwrites(slots, [e][..0]) && Tidy(slots, [e][..0]);
  }

  lemma TwoSlots(slots: seq<Slot>)
    requires |slots| == 2
    ensures TakenAll(slots) == TakenBy(slots[0]) + TakenBy(slots[1])
  {
    assert slots[..1][..0] == [];
    assert Total(slots[..1], TakenBy) == multiset{} + TakenBy(slots[0]);
  }

  /** The second setter of Write. */
  lemma WriteArmsBoth(e1: Event, due: Arming)
    requires e1.Arms? && e1.i == 1 && e1.a.ArmMessage? && due.ArmInitialMetadata?
    requires Play(WRITE_SET, [e1]) == Some(Apply(Start(WRITE_SET), e1)) && !Overwrites(WRITE_SET, [e1]) && Tidy(WRITE_SET, [e1])
    ensures var es := [e1] + [Arms(0, due)];
            var l := Play(WRITE_SET, es);
            l.Some? && l.value.flying == [] && |l.value.slots| == 2 && !Overwrites(WRITE_SET, es) && Tidy(WRITE_SET, es)
  {
    var l1, e2 := Apply(Start(WRITE_SET), e1), Arms(0, due);
    assert l1.slots[0] == WRITE_SET[0] && |l1.slots| == 2 && l1.flying == [];
    assert Taken(l1.slots[0]) == [] && Legal(l1, e2);
    hide Play, Taken, Arm, Fits, Brought, Overwrites, Tidy;
    PlayOneMore(WRITE_SET, [e1], e2);
    OverwritesMore(WRITE_SET, [e1], e2);
    TidyMore(WRITE_SET, [e1], e2);
  }

  lemma OverwritesMore(slots: seq<Slot>, events: seq<Event>, e: Event)
    requires Play(slots, events).Some? && Play(slots, events + [e]).Some?
    ensures Overwrites(slots, events + [e]) <==>
            Overwrites(slots, events) || (e.Arms? && e.i < |Play(slots, events).value.slots| && Taken(Play(slots, events).value.slots[e.i]) != [])
  {
    hide Taken, Apply;
    assert (events + [e])[..|events|] == events;
  }

  lemma TidyPlays(slots: seq<Slot>, events: seq<Event>)
    requires Tidy(slots, events)
    ensures Play(slots, events).Some?
  {
  }

  lemma TidyMore(slots: seq<Slot>, events: seq<Event>, e: Event)
    requires Tidy(slots, events) && Play(slots, events + [e]).Some?
    requires e.Completes? || Play(slots, events).value.flying == []
    ensures Tidy(slots, events + [e])
  {
    hide Play;
    assert (events + [e])[..|events|] == events;
  }

  /** Filling and completing after any arming. */
  lemma FillAndComplete(slots: seq<Slot>, armed: seq<Event>, done: Event)
    requires Disarmed(slots) && Tidy(slots, armed) && Play(slots, armed).value.flying == [] && !Overwrites(slots, armed)
    requires done.Completes? && done.k == 0 && |done.ds| == |Play(slots, armed).value.slots|
    ensures var l := Play(slots, armed + [Fills] + [done]);
            l.Some? && l.value.acquired == l.value.freed + l.value.given
  {
    hide Disarmed, Play, Overwrites, Batch, AfterFill, Finalize, ArrivedAll, FlowAll, Taken;
    TidyPlays(slots, armed);
    hide Tidy;
    PlayOneMore(slots, armed, Fills);
    FilledSet(Play(slots, armed).value.slots);
    PlayOneMore(slots, armed + [Fills], done);
    OverwritesMore(slots, armed, Fills);
    OverwritesMore(slots, armed + [Fills], done);
    TidyMore(slots, armed, Fills);
    TidyMore(slots, armed + [Fills], done);
    var events := armed + [Fills] + [done];
    assert events[|events| - 1] == done;
    RoundsReleaseExactlyOnce(slots, events);
  }

  lemma FilledSet(slots: seq<Slot>)
    ensures |AfterFill(slots)| == |slots|
  {
  }

  lemma WriteGoesOn(due: Option<Arming>, e1: Event, core: Answer)
    requires e1.Arms? && e1.i == 1 && e1.a.ArmMessage?
    requires |core.ds| == 2 && (due.Some? ==> due.value.ArmInitialMetadata?)
    requires Play(WRITE_SET, [e1]) == Some(Apply(Start(WRITE_SET), e1)) && !Overwrites(WRITE_SET, [e1]) && Disarmed(WRITE_SET)
    requires Tidy(WRITE_SET, [e1]) && Apply(Start(WRITE_SET), e1).flying == [] && |Apply(Start(WRITE_SET), e1).slots| == 2
    ensures var es := (if due.Some? then [e1] + [Arms(0, due.value)] else [e1]) + [Fills] + [Completes(0, core.ds, core.ok, core.parses)];
            var l := Play(WRITE_SET, es);
            l.Some? && l.value.acquired == l.value.freed + l.value.given
  {
    hide Play, Overwrites, Apply, Disarmed, Tidy;
    var done := Completes(0, core.ds, core.ok, core.parses);
    if due.Some? {
      WriteArmsBoth(e1, due.value);
      FillAndComplete(WRITE_SET, [e1] + [Arms(0, due.value)], done);
    } else {
      FillAndComplete(WRITE_SET, [e1], done);
    }
  }

  // ---------- Whose flags a message carries ----------

  type Letter = (Message, nat)  // a message and its flags

  /** The messages of some ops, in order. */
  function Letters(ops: seq<Op>): seq<Letter> {
    if ops == [] then [] else
      var op := ops[|ops| - 1];
      Letters(ops[..|ops| - 1]) + if op.SendMessageOp? then [(op.message, op.flags)] else []
  }

  /** The message a slot is armed with, if it has a buffer to send. */
  function LetterOf(slot: Slot): seq<Letter> {
    if slot.SendMessage? && slot.buf.Some? then [(slot.message, slot.flags)] else []
  }

  function Bag(slot: Slot): multiset<Letter> {
    multiset(LetterOf(slot))
  }

  /** The message that a setter brings along; an empty ByteBuffer is none. */
  function ArmedLetter(a: Arming): seq<Letter> {
    if a.ArmMessage? && (a.ser.Created? || a.ser.buffer.Some?) then [(a.message, a.flags)] else []
  }

  function ArmedLetters(events: seq<Event>): multiset<Letter> {
    if events == [] then multiset{} else
      var e := events[|events| - 1];
      ArmedLetters(events[..|events| - 1]) + if e.Arms? then multiset(ArmedLetter(e.a)) else multiset{}
  }

  /** The messages that were armed and then replaced by another before they went out. */
  function Replaced(slots: seq<Slot>, events: seq<Event>): multiset<Letter>
    requires Play(slots, events).Some?
  {
    if events == [] then multiset{} else
      var before, e := events[..|events| - 1], events[|events| - 1];
      Replaced(slots, before) + if e.Arms? then Bag(Play(slots, before).value.slots[e.i]) else multiset{}
  }

  lemma {:induction false} LettersConcat(a: seq<Op>, b: seq<Op>)
    ensures Letters(a + b) == Letters(a) + Letters(b)
  {
    if b == [] {
      assert a + b == a;
    } else {
      assert (a + b)[..|a + b| - 1] == a + b[..|b| - 1];
      LettersConcat(a, b[..|b| - 1]);
    }
  }

  lemma SlotLetters(slot: Slot)
    ensures Letters(AddedOp(slot)) == LetterOf(slot)
  {
    var ops := AddedOp(slot);
    if ops != [] {
      assert ops[..0] == [];
    }
  }

  lemma {:induction false} BatchLetters(slots: seq<Slot>)
    ensures multiset(Letters(Batch(slots))) == Total(slots, Bag)
  {
    if slots != [] {
      var n := |slots| - 1;
      BatchLetters(slots[..n]);
      hide AddedOp, LetterOf, Letters;
      LettersConcat(Batch(slots[..n]), AddedOp(slots[n]));
      SlotLetters(slots[n]);
      assert Bag(slots[n]) == multiset(LetterOf(slots[n]));
    } else {
      assert multiset(Letters(Batch(slots))) == multiset{};
    }
  }

  lemma FlatMore(trace: seq<seq<Op>>, batch: seq<Op>)
    ensures Letters(Flat(trace + [batch])) == Letters(Flat(trace)) + Letters(batch)
  {
    assert (trace + [batch])[..|trace|] == trace;
    LettersConcat(Flat(trace), batch);
  }

  /** Every armed message is sent once with its own flags, waiting to be, or was replaced. */
  ghost predicate LettersKept(l: Ledger, armed: multiset<Letter>, replaced: multiset<Letter>) {
    armed == multiset(Letters(Flat(l.batches))) + (if l.flying == [] then Total(l.slots, Bag) else multiset{}) + replaced
  }

  lemma ArmedBag(slot: Slot, a: Arming)
    requires Fits(slot, a)
    ensures Bag(Arm(slot, a)) == multiset(ArmedLetter(a))
  {
  }

  lemma ArmKeepsLetters(l: Ledger, i: nat, a: Arming, armed: multiset<Letter>, replaced: multiset<Letter>)
    requires LettersKept(l, armed, replaced) && Legal(l, Arms(i, a)) && l.flying == []
    ensures LettersKept(Apply(l, Arms(i, a)), armed + multiset(ArmedLetter(a)), replaced + Bag(l.slots[i]))
  {
    ArmedBag(l.slots[i], a);
    hide Arm, Fits, Letters, ArmedLetter, Bag, Brought, Taken;
    var slot := Arm(l.slots[i], a);
    TotalUpdate(l.slots, i, slot, Bag);
    hide Total;
    var sent := multiset(Letters(Flat(l.batches)));
    Swapped(sent, Total(l.slots, Bag), Bag(slot), Total(l.slots[i := slot], Bag), Bag(l.slots[i]), replaced);
  }

  lemma Swapped(sent: multiset<Letter>, waiting: multiset<Letter>, more: multiset<Letter>, waiting': multiset<Letter>,
                gone: multiset<Letter>, replaced: multiset<Letter>)
    requires waiting' + gone == waiting + more
    ensures sent + waiting + replaced + more == sent + waiting' + (replaced + gone)
  {
    assert sent + waiting + replaced + more == sent + (waiting + more) + replaced;
  }

  lemma FillKeepsLetters(l: Ledger, armed: multiset<Letter>, replaced: multiset<Letter>)
    requires LettersKept(l, armed, replaced) && l.flying == []
    ensures LettersKept(Apply(l, Fills), armed, replaced)
  {
    hide Letters, Flat, Total, Batch, AfterFill;
    BatchLetters(l.slots);
    FlatMore(l.batches, Batch(l.slots));
    var a, b := Letters(Flat(l.batches)), Letters(Batch(l.slots));
    assert multiset(a + b) == multiset(a) + multiset(b);
  }

  lemma CompletionKeepsLetters(l: Ledger, e: Event, armed: multiset<Letter>, replaced: multiset<Letter>)
    requires e.Completes? && Balanced(l) && Legal(l, e) && LettersKept(l, armed, replaced)
    ensures LettersKept(Apply(l, e), armed, replaced)
  {
    ApplyKeepsBalance(l, e);
    var slots := Apply(l, e).slots;
    hide Letters, Flat, Balanced, Finalize, ArrivedAll, FlowAll;
    forall i | 0 <= i < |slots| ensures Bag(slots[i]) == multiset{} {
      assert !Armed(slots[i]);
    }
    TotalNothing(slots, Bag);
  }

  /** The flags of one message never reach another: with their flags, the messages sent, those waiting
      in the slots and those replaced before they went out are exactly the messages armed. */
  lemma {:induction false} FlagsArePerMessage(slots: seq<Slot>, events: seq<Event>)
    requires Disarmed(slots) && Tidy(slots, events)
    ensures var l := Play(slots, events).value;
            ArmedLetters(events) ==
            multiset(Letters(Flat(l.batches))) + (if l.flying == [] then Total(l.slots, Bag) else multiset{}) + Replaced(slots, events)
  {
    if events == [] {
      NoLetters(slots);
    } else {
      var before, e := events[..|events| - 1], events[|events| - 1];
      FlagsArePerMessage(slots, before);
      PlayBalanced(slots, before);
      var l := Play(slots, before).value;
      hide Apply, Legal, Letters, Flat, Total, Bag, ArmedLetter, Balanced, Disarmed, Overwrites;
      match e {
        case Arms(i, a) => ArmKeepsLetters(l, i, a, ArmedLetters(before), Replaced(slots, before));
        case Fills => FillKeepsLetters(l, ArmedLetters(before), Replaced(slots, before));
        case Completes(_, _, _, _) => CompletionKeepsLetters(l, e, ArmedLetters(before), Replaced(slots, before));
      }
      assert LettersKept(Apply(l, e), ArmedLetters(events), Replaced(slots, events));
    }
  }

  lemma NoLetters(slots: seq<Slot>)
    requires Disarmed(slots)
    ensures Total(slots, Bag) == multiset{} && multiset(Letters(Flat([]))) == multiset{}
  {
    forall i | 0 <= i < |slots| ensures Bag(slots[i]) == multiset{} {
      assert !Armed(slots[i]);
    }
    TotalNothing(slots, Bag);
  }

  /** Why the batch in flight must be left alone: filling it a second time sends the message again, without its flags. */
  lemma RefillingSendsAgain(mem: Mem, flags: nat)
    ensures var l := Play([SendMessage(None, false, 0, "")], [Arms(0, ArmMessage("a", flags, Created(mem, true))), Fills, Fills]);
            l.Some? && Letters(Flat(l.value.batches)) == [("a", flags), ("a", 0)]
  {
    hide Play, Batch, Letters, Flat;
    var slots := [SendMessage(None, false, 0, "")];
    var e := Arms(0, ArmMessage("a", flags, Created(mem, true)));
    assert [e, Fills, Fills] == [] + [e] + [Fills] + [Fills];
    PlayNothing(slots);
    PlayOneMore(slots, [], e);
    PlayOneMore(slots, [] + [e], Fills);
    PlayOneMore(slots, [] + [e] + [Fills], Fills);
    var s1, s2 := [SendMessage(Some(mem), true, flags, "a")], [SendMessage(Some(mem), true, 0, "a")];
    assert slots[0 := s1[0]] == s1 && AfterFill(s1) == s2;
    NoLetters([]);
    OneLetter(s1, 0);
    OneLetter(s2, 0);
    FlatMore([], Batch(s1));
    FlatMore([] + [Batch(s1)], Batch(s2));
  }

  // ---------- In order, for a set with one send slot ----------

  predicate OnlySender(slots: seq<Slot>, k: nat) {
    k < |slots| && forall i :: 0 <= i < |slots| ==> (slots[i].SendMessage? <==> i == k)
  }

  /** The reference: a box that holds the last message put into it, until it is emptied. */
  datatype Box = Box(posted: seq<Letter>, waiting: seq<Letter>)

  function Posting(events: seq<Event>): Box {
    if events == [] then Box([], []) else
      var box := Posting(events[..|events| - 1]);
      match events[|events| - 1]
      case Arms(_, a) => if a.ArmMessage? then box.(waiting := ArmedLetter(a)) else box
      case Fills => Box(box.posted + box.waiting, [])
      case Completes(_, _, _, _) => box
  }

  lemma SenderStays(slot: Slot, a: Arming, d: Delivery, ok: bool, parses: bool)
    ensures Fits(slot, a) ==> (Arm(slot, a).SendMessage? <==> slot.SendMessage?)
    ensures Fits(slot, a) && a.ArmMessage? ==> LetterOf(Arm(slot, a)) == ArmedLetter(a)
    ensures Fits(slot, a) && slot.SendMessage? ==> a.ArmMessage?
    ensures Fits(slot, a) && a.ArmMessage? ==> slot.SendMessage?
    ensures AfterAddOp(slot).SendMessage? <==> slot.SendMessage?
    ensures forall issued :: FinishOp(Arrived(slot, issued, d), ok, parses).slot.SendMessage? <==> slot.SendMessage?
  {
  }

  lemma {:induction false} OneLetter(slots: seq<Slot>, k: nat)
    requires forall i :: 0 <= i < |slots| ==> (slots[i].SendMessage? <==> i == k)
    ensures Letters(Batch(slots)) == if k < |slots| then LetterOf(slots[k]) else []
  {
    if slots != [] {
      var n := |slots| - 1;
      OneLetter(slots[..n], k);
      hide AddedOp, Letters;
      LettersConcat(Batch(slots[..n]), AddedOp(slots[n]));
      SlotLetters(slots[n]);
    }
  }

  lemma {:induction false} FinalizeKeepsSenders(slots: seq<Slot>, batch: seq<Slot>, ds: seq<Delivery>, ok: bool, parses: bool)
    requires |ds| == |slots|
    ensures var r := Finalize(ArrivedAll(slots, batch, ds), ok, parses);
            |r.slots| == |slots| && forall i :: 0 <= i < |slots| ==> (r.slots[i].SendMessage? <==> slots[i].SendMessage?)
  {
    hide FinishOp, Arrived, Armed;
    if slots != [] {
      var n := |slots| - 1;
      FinalizeKeepsSenders(slots[..n], batch, ds[..n], ok, parses);
      assert ArrivedAll(slots, batch, ds)[..n] == ArrivedAll(slots[..n], batch, ds[..n]);
      SenderStays(slots[n], ArmClose, ds[n], Finalize(ArrivedAll(slots[..n], batch, ds[..n]), ok, parses).ok, parses);
    }
  }

  /** The set and the box agree. */
  predicate InStep(l: Ledger, k: nat, box: Box) {
    && OnlySender(l.slots, k) && Letters(Flat(l.batches)) == box.posted
    && box.waiting == if l.flying == [] then LetterOf(l.slots[k]) else []
  }

  lemma ArmInStep(l: Ledger, k: nat, box: Box, i: nat, a: Arming)
    requires InStep(l, k, box) && Legal(l, Arms(i, a)) && l.flying == []
    ensures InStep(Apply(l, Arms(i, a)), k, if a.ArmMessage? then box.(waiting := ArmedLetter(a)) else box)
  {
    SenderStays(l.slots[i], a, Delivery(None, None), true, true);
    hide Arm, Fits, Letters, LetterOf, ArmedLetter, Brought, Taken;
  }

  lemma FillInStep(l: Ledger, k: nat, box: Box)
    requires InStep(l, k, box) && l.flying == []
    ensures InStep(Apply(l, Fills), k, Box(box.posted + box.waiting, []))
  {
    hide Letters, Flat, Batch, LetterOf, AfterAddOp;
    OneLetter(l.slots, k);
    FlatMore(l.batches, Batch(l.slots));
    forall i | 0 <= i < |l.slots| ensures AfterFill(l.slots)[i].SendMessage? <==> i == k {
      SenderStays(l.slots[i], ArmClose, Delivery(None, None), true, true);
    }
  }

  lemma CompletionInStep(l: Ledger, k: nat, box: Box, e: Event)
    requires e.Completes? && Balanced(l) && InStep(l, k, box) && Legal(l, e)
    ensures InStep(Apply(l, e), k, box)
  {
    ApplyKeepsBalance(l, e);
    FinalizeKeepsSenders(l.slots, l.flying[e.k], e.ds, e.ok, e.parses);
    var slots := Apply(l, e).slots;
    hide Letters, Flat, Balanced, Finalize, ArrivedAll, FlowAll;
    assert !Armed(slots[k]);
  }

  /** For a set with one send slot (every set of the library has at most one) the messages go out in the
      order in which they were armed, each with its own flags and once. */
  lemma {:induction false} MessagesInOrder(slots: seq<Slot>, k: nat, events: seq<Event>)
    requires Disarmed(slots) && OnlySender(slots, k) && Tidy(slots, events)
    ensures InStep(Play(slots, events).value, k, Posting(events))
  {
    if events == [] {
      assert !Armed(slots[k]);
    } else {
      var before, e := events[..|events| - 1], events[|events| - 1];
      MessagesInOrder(slots, k, before);
      PlayBalanced(slots, before);
      var l := Play(slots, before).value;
      hide Apply, Legal, InStep, Balanced, Disarmed, Overwrites, OnlySender;
      match e {
        case Arms(i, a) => ArmInStep(l, k, Posting(before), i, a);
        case Fills => FillInStep(l, k, Posting(before));
        case Completes(_, _, _, _) => CompletionInStep(l, k, Posting(before), e);
      }
    }
  }

  // ---------- The status the application sees ----------

  /** An awaited message came and, if it is a protobuf message, parses. */
  predicate SlotSucceeds(slot: Slot, parses: bool) {
    slot.RecvMessage? && !slot.target.NoTarget? ==> slot.buf.Some? && (slot.target.Proto? ==> parses)
  }

  /** Whether a delivered set counts as a success: the core said so, and each awaited message came
      and, if it is a protobuf message, parsed. */
  predicate Succeeds(slots: seq<Slot>, ok: bool, parses: bool) {
    ok && forall i :: 0 <= i < |slots| ==> SlotSucceeds(slots[i], parses)
  }

  lemma FinishStatus(slot: Slot, ok: bool, parses: bool)
    ensures var f := FinishOp(slot, ok, parses);
            && (f.ok <==> ok && SlotSucceeds(slot, parses))
            && (slot.RecvMessage? && !slot.target.NoTarget? ==> f.slot.RecvMessage? && (f.slot.got <==> ok && slot.buf.Some?))
  {
  }

  lemma SucceedsOneMore(slots: seq<Slot>, ok: bool, parses: bool)
    requires slots != []
    ensures var n := |slots| - 1;
            Succeeds(slots, ok, parses) <==> Succeeds(slots[..n], ok, parses) && SlotSucceeds(slots[n], parses)
  {
    hide SlotSucceeds;
    var n := |slots| - 1;
    assert forall i :: 0 <= i < n ==> slots[..n][i] == slots[i];
  }

  /** What FinalizeResult leaves in the got_message of slot i. */
  predicate GotIt(before: Slot, after: Slot, ok: bool) {
    before.RecvMessage? && !before.target.NoTarget? ==> after.RecvMessage? && (after.got <==> ok && before.buf.Some?)
  }

  /** FinalizeResult reports success exactly then, and got_message says that a buffer arrived and
      was handed to the parser. */
  lemma {:induction false} FinalStatus(slots: seq<Slot>, ok: bool, parses: bool)
    ensures var r := Finalize(slots, ok, parses);
            && |r.slots| == |slots|
            && (r.ok <==> Succeeds(slots, ok, parses))
            && (forall i :: 0 <= i < |slots| ==> GotIt(slots[i], r.slots[i], Succeeds(slots[..i], ok, parses)))
  {
    if slots != [] {
      var n := |slots| - 1;
      FinalStatus(slots[..n], ok, parses);
      SucceedsOneMore(slots, ok, parses);
      var b := Finalize(slots[..n], ok, parses);
      FinishStatus(slots[n], b.ok, parses);
      hide FinishOp, SlotSucceeds, Succeeds;
      var r := Finalize(slots, ok, parses);
      forall i | 0 <= i < |slots| ensures GotIt(slots[i], r.slots[i], Succeeds(slots[..i], ok, parses)) {
        if i < n {
          assert slots[..n][..i] == slots[..i] && r.slots[i] == b.slots[i];
          assert GotIt(slots[..n][i], b.slots[i], Succeeds(slots[..n][..i], ok, parses));
        }
      }
    }
  }
}
