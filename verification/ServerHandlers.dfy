/**
 The synchronous server side: the streams of include/grpc++/support/sync_stream.h and the five
 RunHandler wrappers of include/grpc++/impl/rpc_service_method.h.

 The application function is an arbitrary script of stream calls followed by an arbitrary status.
 A failed GPR_ASSERT aborts the process; it is the result `aborted`.
 */
module ServerHandlers {
  import opened Common
  import opened CallOps

  /** The parts of ServerContext that the wrappers read and write. */
  class ServerContext {
    var sentInitialMetadata: bool
    const initialMetadata: Metadata
    const trailingMetadata: Metadata

    constructor (initialMetadata: Metadata, trailingMetadata: Metadata)
      ensures !sentInitialMetadata
      ensures this.initialMetadata == initialMetadata && this.trailingMetadata == trailingMetadata
    {
      sentInitialMetadata := false;
      this.initialMetadata, this.trailingMetadata := initialMetadata, trailingMetadata;
    }
  }

  /** What the application does with its stream: any of the calls of ServerReader, ServerWriter and
      ServerReaderWriter. */
  datatype Action = Read | Write(message: Message, flags: nat, ser: Serialized) | SendMetadata

  /** The write got as far as issuing a batch. */
  predicate Issued(a: Action) {
    a.Write? && SerializeStatus(a.ser).Ok()
  }

  /** The message ops that an issued write contributes; an empty ByteBuffer contributes none. */
  function MessageOps(a: Action): seq<Op> {
    if !Issued(a) || (a.ser.Lent? && a.ser.buffer.None?) then [] else [SendMessageOp(a.message, a.flags)]
  }

  // ---------- Reference: what a script makes the server send ----------

  /** The messages written, in order. */
  function Messages(script: seq<Action>): seq<Op> {
    if script == [] then [] else Messages(script[..|script| - 1]) + MessageOps(script[|script| - 1])
  }

  /** The script has sent the initial metadata, by itself or with a write. */
  predicate Opened(script: seq<Action>) {
    exists i :: 0 <= i < |script| && (script[i].SendMetadata? || Issued(script[i]))
  }

  /** The script asks for the initial metadata when they are already sent. */
  predicate Aborts(script: seq<Action>) {
    exists i :: 0 <= i < |script| && script[i].SendMetadata? && Opened(script[..i])
  }

  /** The server-to-client direction of the abstract gRPC protocol: initial metadata, any number of
      messages, a status. */
  predicate Protocol(ops: seq<Op>) {
    && |ops| >= 2 && ops[0].SendInitialMetadataOp? && ops[|ops| - 1].SendStatusOp?
    && forall i :: 0 < i < |ops| - 1 ==> ops[i].SendMessageOp?
  }

  // ---------- The stream ----------

  /** ServerReader, ServerWriter and ServerReaderWriter share these three bodies. */
  class ServerStream {
    const call: Call
    const ctx: ServerContext

    constructor (call: Call, ctx: ServerContext)
      ensures this.call == call && this.ctx == ctx
    {
      this.call, this.ctx := call, ctx;
    }

    method SendInitialMetadata() returns (aborted: bool)
      modifies call, ctx
      ensures aborted == old(ctx.sentInitialMetadata) && ctx.sentInitialMetadata
      ensures call.trace == if aborted then old(call.trace)
                            else old(call.trace) + [[SendInitialMetadataOp(ctx.initialMetadata)]]
    {
      if ctx.sentInitialMetadata { return true; }
      var ops := new CallOpSet([Slot.SendInitialMetadata(false, [], None)]);
      var arr := *;
      ops.Set(0, ArmInitialMetadata(ctx.initialMetadata, arr));
      ctx.sentInitialMetadata := true;
      BatchOfOne(ops.slots[0]);
      assert ops.slots == [ops.slots[0]];
      hide Batch;
      IssueAndWait(call, ops);
      return false;
    }

    /** Read, for a batch that completes with `status` and the delivery d.  The result says whether the
        core succeeded with a buffer; whether that buffer parses does not count. */
    method ReadMessage(status: bool, d: Delivery, parses: bool) returns (ok: bool)
      modifies call
      ensures call.trace == old(call.trace) + [[RecvMessageOp]]
      ensures ok <==> ReadAnswer(status, d)
    {
      var ops := new CallOpSet([RecvMessage(NoTarget, None, false)]);
      ops.Set(0, ArmRecvMessage(Proto));
      assert ops.slots == [AWAITING] && AfterFill([AWAITING]) == [AWAITING];
      BatchOfOne(AWAITING);
      call.PerformOps(ops);
      DeliveredOne(d);
      FinalStatus([Delivered(AWAITING, d)], status, parses);
      hide Finalize, DeliveredAll;
      var plucked, _, _ := call.Pluck(ops, Answer(status, [d], parses));
      assert GotIt(Delivered(AWAITING, d), ops.slots[0], Succeeds([Delivered(AWAITING, d)][..0], status, parses));
      ok := plucked && ops.slots[0].got;
    }

    /** Write, for a batch that completes as `core` says; `ops` is its local set when it returns.  A
        message that does not serialize leaves its buffer in that set. */
    method WriteMessage(message: Message, flags: nat, ser: Serialized, core: Answer) returns (ok: bool, ops: CallOpSet)
      requires |core.ds| == 2
      modifies call, ctx
      ensures var a := Write(message, flags, ser);
              if !Issued(a)
              then !ok && call.trace == old(call.trace) && ctx.sentInitialMetadata == old(ctx.sentInitialMetadata)
              else ok == core.ok && ctx.sentInitialMetadata && call.trace == old(call.trace) +
                     [(if old(ctx.sentInitialMetadata) then [] else [SendInitialMetadataOp(ctx.initialMetadata)]) + MessageOps(a)]
      ensures TakenAll(ops.slots) == if Issued(Write(message, flags, ser)) then multiset{} else multiset{ser.mem}
    {
      ops := new CallOpSet(WRITE_SET);
      ops.Set(1, ArmMessage(message, flags, ser));
      if !SerializeStatus(ser).Ok() {
        TwoSlots(ops.slots);
        return false, ops;
      }
      if !ctx.sentInitialMetadata {
        var arr := *;
        ops.Set(0, ArmInitialMetadata(ctx.initialMetadata, arr));
        ctx.sentInitialMetadata := true;
      }
      ok := IssueWrite(ops, core);
    }

    /** The end of Write. */
    method IssueWrite(ops: CallOpSet, core: Answer) returns (ok: bool)
      requires |core.ds| == |ops.slots| == 2
      modifies call, ops
      ensures ok == core.ok
      ensures call.trace == old(call.trace) + [AddedOp(old(ops.slots[0])) + AddedOp(old(ops.slots[1]))]
      ensures TakenAll(ops.slots) == multiset{}
    {
      hide *;
      ghost var slots := ops.slots;
      assert slots == [slots[0], slots[1]];
      BatchOfTwo(slots[0], slots[1]);
      call.PerformOps(ops);
      FilledSize(slots);
      ArrivedForAll(AfterFill(slots), core.ds);
      FinalizeBalances(AfterFill(slots), AfterFill(slots), core.ds, core.ok, core.parses);
      var plucked, _, _ := call.Pluck(ops, core);
      IdleSet(ops.slots);
      ok := plucked;
    }

    /** One call of the application on its stream. */
    method Perform(a: Action) returns (aborted: bool)
      modifies call, ctx
      ensures aborted == (a.SendMetadata? && old(ctx.sentInitialMetadata))
      ensures !aborted ==> ctx.sentInitialMetadata == (old(ctx.sentInitialMetadata) || a.SendMetadata? || Issued(a))
      ensures !aborted ==> Sent(call.trace) == Sent(old(call.trace)) +
                           OpeningOps(ctx, old(ctx.sentInitialMetadata), ctx.sentInitialMetadata) + MessageOps(a)
    {
      hide Sent, Sends, MessageOps, Issued;
      ghost var before := call.trace;
      aborted := false;
      match a {
        case Read =>
          var core := AnyAnswer(1);
          var _ := ReadMessage(core.ok, core.ds[0], core.parses);
          SentAppend(before, [RecvMessageOp]);
          NoSends();
          ReadsSendNothing(a);
        case SendMetadata =>
          aborted := SendInitialMetadata();
          if !aborted {
            SentAppend(before, [SendInitialMetadataOp(ctx.initialMetadata)]);
            SendsOnly([SendInitialMetadataOp(ctx.initialMetadata)]);
            ReadsSendNothing(a);
          }
        case Write(message, flags, ser) =>
          var core := AnyAnswer(2);
          var _, _ := WriteMessage(message, flags, ser, core);
          if Issued(a) {
            var batch := call.trace[|before|];
            SentAppend(before, batch);
            assert forall op <- MessageOps(a) :: IsSend(op) by { MessagesAreSends(a); }
            SendsOnly(batch);
          } else {
            MessagesAreSends(a);
          }
      }
    }

    /** The application function: its calls one after the other, until one of them aborts. */
    method Run(script: seq<Action>) returns (aborted: bool)
      requires !ctx.sentInitialMetadata && call.trace == []
      modifies call, ctx
      ensures aborted <==> Aborts(script)
      ensures !aborted ==> ctx.sentInitialMetadata == Opened(script)
      ensures !aborted ==> Sent(call.trace) == OpeningOps(ctx, false, Opened(script)) + Messages(script)
      ensures !Opened(script) ==> Messages(script) == []
    {
      hide Sent, MessageOps, Issued, Messages, Opened, Aborts;
      EmptyScript();
      aborted := false;
      for i := 0 to |script|
        invariant ctx.sentInitialMetadata == Opened(script[..i]) && !Aborts(script[..i])
        invariant Sent(call.trace) == OpeningOps(ctx, false, Opened(script[..i])) + Messages(script[..i])
      {
        ScriptGrows(script, i);
        NotOpenedNoMessages(script[..i]);
        aborted := Perform(script[i]);
        if aborted {
          AbortsAt(script, i);
          break;
        }
      }
      NotOpenedNoMessages(script);
      assert script[..|script|] == script;
    }
  }

  /** The slot of a Read. */
  const AWAITING := RecvMessage(Proto, None, false)

  lemma DeliveredOne(d: Delivery)
    ensures DeliveredAll([AWAITING], [d]) == [Delivered(AWAITING, d)]
  {
  }

  lemma FilledSize(slots: seq<Slot>)
    ensures |AfterFill(slots)| == |slots|
  {
  }

  /** What Read answers. */
  predicate ReadAnswer(status: bool, d: Delivery) {
    status && d.block.Some?
  }

  /** The status that the set of a Read has in the end. */
  function ReadStatus(status: bool, d: Delivery, parses: bool): bool {
    Finalize(DeliveredAll([AWAITING], [d]), status, parses).ok
  }

  /** Read promises a message.  Its answer agrees with the final status of its batch if and only if a
      buffer that arrived also parses. */
  lemma ReadAgreesIff(status: bool, d: Delivery, parses: bool)
    ensures (ReadAnswer(status, d) <==> ReadStatus(status, d, parses)) <==> (status && d.block.Some? ==> parses)
  {
    DeliveredOne(d);
    FinalStatus([Delivered(AWAITING, d)], status, parses);
    hide Finalize, DeliveredAll;
    assert [Delivered(AWAITING, d)][0] == Delivered(AWAITING, d);
    assert Succeeds([Delivered(AWAITING, d)], status, parses) <==> status && SlotSucceeds(Delivered(AWAITING, d), parses);
  }

  /** The failing case: the core succeeds with a buffer that does not parse.  Read says true. */
  lemma ReadOfGarbage(mem: Mem)
    ensures ReadAnswer(true, Delivery(Some(mem), None)) && !ReadStatus(true, Delivery(Some(mem), None), false)
  {
    ReadAgreesIff(true, Delivery(Some(mem), None), false);
  }

  /** The initial metadata, if they went out between the two moments. */
  ghost function OpeningOps(ctx: ServerContext, before: bool, after: bool): seq<Op> {
    if after && !before then [SendInitialMetadataOp(ctx.initialMetadata)] else []
  }

  lemma {:induction false} NotOpenedNoMessages(script: seq<Action>)
    ensures !Opened(script) ==> Messages(script) == []
  {
    if script != [] {
      var n := |script| - 1;
      ScriptGrows(script, n);
      assert script[..n + 1] == script;
      NotOpenedNoMessages(script[..n]);
    }
  }

  lemma ReadsSendNothing(a: Action)
    requires !a.Write?
    ensures MessageOps(a) == [] && !Issued(a)
  {
  }

  lemma MessagesAreSends(a: Action)
    ensures forall op <- MessageOps(a) :: IsSend(op)
    ensures !Issued(a) ==> MessageOps(a) == []
  {
  }

  lemma NoSends()
    ensures Sends([RecvMessageOp]) == []
  {
    assert [RecvMessageOp][..0] == [];
  }

  lemma EmptyScript()
    ensures Messages([]) == [] && !Opened([]) && !Aborts([]) && Sent([]) == []
  {
  }

  lemma AbortsAt(script: seq<Action>, i: nat)
    requires i < |script| && script[i].SendMetadata? && Opened(script[..i])
    ensures Aborts(script)
  {
  }

  lemma ScriptGrows(script: seq<Action>, i: nat)
    requires i < |script|
    ensures Messages(script[..i + 1]) == Messages(script[..i]) + MessageOps(script[i])
    ensures Opened(script[..i + 1]) <==> Opened(script[..i]) || script[i].SendMetadata? || Issued(script[i])
    ensures Aborts(script[..i + 1]) <==> Aborts(script[..i]) || (script[i].SendMetadata? && Opened(script[..i]))
  {
    var s := script[..i + 1];
    assert s[..i] == script[..i] && s[i] == script[i];
    assert forall k :: 0 <= k <= i ==> s[..k] == script[..k] && script[..i][..k] == script[..k];
  }

  /** PerformOps and Pluck, when the outcome does not matter. */
  method IssueAndWait(call: Call, ops: CallOpSet)
    modifies call, ops
    ensures call.trace == old(call.trace) + [Batch(old(ops.slots))]
  {
    hide *;
    FilledSize(ops.slots);
    call.PerformOps(ops);
    var core := AnyAnswer(|ops.slots|);
    var _, _, _ := call.Pluck(ops, core);
  }

  // ---------- The tails of the handlers ----------

  /** The single batch of a unary or client-streaming reply. */
  function ReplyOps(initial: Metadata, trailing: Metadata, status: Status, rsp: Message, ser: Serialized): seq<Op> {
    [SendInitialMetadataOp(initial)]
    + (if status.Ok() && (ser.Created? || ser.buffer.Some?) then [SendMessageOp(rsp, 0)] else [])
    + [SendStatusOp(trailing, if status.Ok() then SerializeStatus(ser) else status)]
  }

  method SendReply(call: Call, ctx: ServerContext, status: Status, rsp: Message, ser: Serialized)
    modifies call
    ensures call.trace == old(call.trace) + [ReplyOps(ctx.initialMetadata, ctx.trailingMetadata, status, rsp, ser)]
  {
    var ops := new CallOpSet([Slot.SendInitialMetadata(false, [], None), SendMessage(None, false, 0, ""),
                              ServerSendStatus(false, [], None, OK)]);
    var arr, tail := *, *;
    ops.Set(0, ArmInitialMetadata(ctx.initialMetadata, arr));
    var st := status;
    if st.Ok() {
      ops.Set(1, ArmMessage(rsp, 0, ser));
      st := SerializeStatus(ser);
    }
    ops.Set(2, ArmStatus(ctx.trailingMetadata, tail, st));
    assert ops.slots == [ops.slots[0], ops.slots[1], ops.slots[2]];
    BatchOfThree(ops.slots[0], ops.slots[1], ops.slots[2]);
    hide Batch;
    IssueAndWait(call, ops);
  }

  /** The last batch of the streaming handlers. */
  method SendStatus(call: Call, ctx: ServerContext, status: Status)
    modifies call
    ensures call.trace == old(call.trace) +
            [OpeningOps(ctx, ctx.sentInitialMetadata, true) + [SendStatusOp(ctx.trailingMetadata, status)]]
  {
    var ops := new CallOpSet([Slot.SendInitialMetadata(false, [], None), ServerSendStatus(false, [], None, OK)]);
    var arr, tail := *, *;
    if !ctx.sentInitialMetadata {
      ops.Set(0, ArmInitialMetadata(ctx.initialMetadata, arr));
    }
    ops.Set(1, ArmStatus(ctx.trailingMetadata, tail, status));
    assert ops.slots == [ops.slots[0], ops.slots[1]];
    BatchOfTwo(ops.slots[0], ops.slots[1]);
    hide Batch;
    IssueAndWait(call, ops);
  }

  /** The run ended with its status, in the last batch and after everything else it sent. */
  ghost predicate Conforms(call: Call, initial: Metadata, messages: seq<Op>, trailing: Metadata, status: Status)
    reads call
  {
    && Sent(call.trace) == [SendInitialMetadataOp(initial)] + messages + [SendStatusOp(trailing, status)]
    && call.trace != [] && SendStatusOp(trailing, status) in call.trace[|call.trace| - 1]
  }

  // ---------- The handlers ----------

  /** RpcMethodHandler.  `request` is the outcome of deserializing the request, `user` what the
      application function returns. */
  method RunUnary(call: Call, ctx: ServerContext, request: Status, user: Status, rsp: Message, ser: Serialized)
    returns (aborted: bool)
    requires call.trace == []
    modifies call
    ensures aborted <==> ctx.sentInitialMetadata
    ensures !aborted ==>
              call.trace ==
              [ReplyOps(ctx.initialMetadata, ctx.trailingMetadata, if request.Ok() then user else request, rsp, ser)]
  {
    var status := request;
    if status.Ok() {
      status := user;
    }
    if ctx.sentInitialMetadata { return true; }
    SendReply(call, ctx, status, rsp, ser);
    return false;
  }

  /** ClientStreamingHandler: it cannot live with an application that sends the metadata itself. */
  method RunClientStreaming(call: Call, ctx: ServerContext, script: seq<Action>, user: Status, rsp: Message, ser: Serialized)
    returns (aborted: bool)
    requires call.trace == [] && !ctx.sentInitialMetadata && forall a <- script :: !a.Write?
    modifies call, ctx
    ensures aborted <==> SendMetadata in script
    ensures !aborted ==> Sent(call.trace) == ReplyOps(ctx.initialMetadata, ctx.trailingMetadata, user, rsp, ser)
    ensures !aborted ==> call.trace[|call.trace| - 1] == ReplyOps(ctx.initialMetadata, ctx.trailingMetadata, user, rsp, ser)
  {
    var reader := new ServerStream(call, ctx);
    aborted := reader.Run(script);
    if aborted || ctx.sentInitialMetadata {
      return true;
    }
    ghost var before := call.trace;
    SendReply(call, ctx, user, rsp, ser);
    ghost var reply := ReplyOps(ctx.initialMetadata, ctx.trailingMetadata, user, rsp, ser);
    SentAppend(before, reply);
    SendsOnly(reply);
  }

  /** ServerStreamingHandler. */
  method RunServerStreaming(call: Call, ctx: ServerContext, request: Status, script: seq<Action>, user: Status)
    returns (aborted: bool)
    requires call.trace == [] && !ctx.sentInitialMetadata
    modifies call, ctx
    ensures aborted <==> request.Ok() && Aborts(script)
    ensures !aborted ==> Conforms(call, ctx.initialMetadata, if request.Ok() then Messages(script) else [],
                                  ctx.trailingMetadata, if request.Ok() then user else request)
  {
    var status := request;
    if status.Ok() {
      var writer := new ServerStream(call, ctx);
      aborted := writer.Run(script);
      if aborted { return; }
      status := user;
    }
    FinishStream(call, ctx, status);
    aborted := false;
  }

  /** BidiStreamingHandler. */
  method RunBidiStreaming(call: Call, ctx: ServerContext, script: seq<Action>, user: Status) returns (aborted: bool)
    requires call.trace == [] && !ctx.sentInitialMetadata
    modifies call, ctx
    ensures aborted <==> Aborts(script)
    ensures !aborted ==> Conforms(call, ctx.initialMetadata, Messages(script), ctx.trailingMetadata, user)
  {
    var stream := new ServerStream(call, ctx);
    aborted := stream.Run(script);
    if aborted { return; }
    FinishStream(call, ctx, user);
  }

  /** UnknownMethodHandler: it also marks the metadata as sent. */
  method RunUnknown(call: Call, ctx: ServerContext)
    requires call.trace == [] && !ctx.sentInitialMetadata
    modifies call, ctx
    ensures Conforms(call, ctx.initialMetadata, [], ctx.trailingMetadata, Status(12, "")) && ctx.sentInitialMetadata
  {
    FinishStream(call, ctx, Status(12, ""));
    ctx.sentInitialMetadata := true;
  }

  method FinishStream(call: Call, ctx: ServerContext, status: Status)
    modifies call
    ensures Sent(call.trace) == Sent(old(call.trace)) + OpeningOps(ctx, ctx.sentInitialMetadata, true)
                                + [SendStatusOp(ctx.trailingMetadata, status)]
    ensures call.trace != [] && SendStatusOp(ctx.trailingMetadata, status) in call.trace[|call.trace| - 1]
  {
    ghost var before := call.trace;
    SendStatus(call, ctx, status);
    ghost var batch := OpeningOps(ctx, ctx.sentInitialMetadata, true) + [SendStatusOp(ctx.trailingMetadata, status)];
    SentAppend(before, batch);
    SendsOnly(batch);
  }

  // ---------- What the shapes mean ----------

  lemma {:induction false} MessagesOnly(script: seq<Action>)
    ensures forall op <- Messages(script) :: op.SendMessageOp?
  {
    if script != [] {
      MessagesOnly(script[..|script| - 1]);
    }
  }

  /** Every conforming run speaks the abstract protocol: initial metadata exactly once and first, the
      status exactly once and last, only messages in between. */
  lemma StreamsFollowProtocol(initial: Metadata, script: seq<Action>, trailing: Metadata, status: Status)
    ensures Protocol([SendInitialMetadataOp(initial)] + Messages(script) + [SendStatusOp(trailing, status)])
  {
    MessagesOnly(script);
    var ops := [SendInitialMetadataOp(initial)] + Messages(script) + [SendStatusOp(trailing, status)];
    forall i | 0 < i < |ops| - 1 ensures ops[i].SendMessageOp? {
      assert ops[i] == Messages(script)[i - 1];
    }
  }

  lemma RepliesFollowProtocol(initial: Metadata, trailing: Metadata, status: Status, rsp: Message, ser: Serialized)
    ensures Protocol(ReplyOps(initial, trailing, status, rsp, ser))
  {
  }

  /** A protobuf reply carries its message exactly when the application succeeded.  The status sent
      agrees with that unless the message fails to serialize: then the half-written buffer still
      goes out, under an error status. */
  lemma ReplyMessageIffOk(initial: Metadata, trailing: Metadata, status: Status, rsp: Message, ser: Serialized)
    requires ser.Created?
    ensures var ops := ReplyOps(initial, trailing, status, rsp, ser);
            var message := exists op <- ops :: op.SendMessageOp?;
            && (message <==> status.Ok())
            && ((message <==> ops[|ops| - 1].status.Ok()) <==> (status.Ok() ==> ser.fits))
  {
    var ops := ReplyOps(initial, trailing, status, rsp, ser);
    if status.Ok() {
      assert ops[1].SendMessageOp? && ops[1] in ops;
    }
  }

  /** The failing case, concretely. */
  lemma MessageUnderErrorStatus(mem: Mem)
    ensures ReplyOps([], [], OK, "half", Created(mem, false)) ==
            [SendInitialMetadataOp([]), SendMessageOp("half", 0), SendStatusOp([], SERIALIZATION_ERROR)]
  {
  }
}
