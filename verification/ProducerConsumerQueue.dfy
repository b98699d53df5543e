/**
 The bounded producer-consumer queue that include/grpc/support/sync.h gives as the reference
 use of gpr_mu and gpr_cv, for any capacity n > 0 and any number of threads.

 Every source statement is one step of one thread, so every interleaving the mutex allows is a
 run of `Next`.  Condition variables may wake spuriously, deadlines may expire at any moment and
 gpr_mu_trylock may fail even when the mutex is free, as the header allows.
 */
module ProducerConsumerQueue {
  import opened Common

  type Tid = nat

  datatype Op = Append(x: int) | TryAppend(x: int) | Remove

  /** What a call is about to return: 1 for Done and Got, 0 for Refused and Expired. */
  datatype Result = Done | Refused | Got(v: int) | Expired

  /** The next statement of a thread. */
  datatype Pc =
    | Idle
    | Lock(op: Op)                      // gpr_mu_lock / gpr_mu_trylock
    | Test(op: Op)                      // the condition of the wait loop
    | Asleep(op: Op, notified: bool)    // inside gpr_cv_wait, mutex released
    | Relock(op: Op, expired: bool)     // woken, about to reacquire the mutex
    | Check                             // queue_remove: if (q->length != 0)
    | Notify(op: Op)                    // the conditional broadcast
    | Store(op: Op)                     // q->elem[(q->head + q->length) % N] = x
    | Grow(op: Op)                      // q->length++
    | Read                              // *head = q->elem[q->head]
    | Advance(v: int)                   // q->head = (q->head + 1) % N
    | Shrink(v: int)                    // q->length--
    | Unlock(op: Op, result: Result)

  /** The externally visible effect of a call, logged at the statement where it takes effect. */
  datatype Event = Enq(t: Tid, x: int) | Deq(t: Tid, v: int) | SawFull(t: Tid) | SawEmpty(t: Tid)

  datatype State = State(elem: seq<int>, head: nat, length: nat,
                         owner: Option<Tid>, pc: map<Tid, Pc>, events: seq<Event>)

  /** What the scheduler and the outside world decide at a step. */
  datatype Choice = Go | Call(op: Op) | TrylockFails | Wake(expired: bool)

  ghost predicate Init(s: State, n: nat) {
    && n > 0 && |s.elem| == n && s.head == 0 && s.length == 0
    && s.owner == None && s.events == []
    && forall t <- s.pc :: s.pc[t] == Idle
  }

  predicate WaitsFor(pc: Pc, op: Op) {
    pc.Asleep? && (pc.op.Remove? <==> op.Remove?)
  }

  /** gpr_cv_broadcast: wake all threads waiting on the same variable as `op`. */
  function Broadcast(pc: map<Tid, Pc>, op: Op): map<Tid, Pc> {
    map t <- pc :: if WaitsFor(pc[t], op) then Asleep(pc[t].op, true) else pc[t]
  }

  function Goto(s: State, t: Tid, pc: Pc): State {
    s.(pc := s.pc[t := pc])
  }

  /** One step of thread t, or None when t cannot take that step now. */
  function Next(s: State, t: Tid, c: Choice): Option<State>
    requires |s.elem| > 0 && t in s.pc
  {
    var n := |s.elem|;
    match s.pc[t]
    case Idle => if c.Call? then Some(Goto(s, t, Lock(c.op))) else None
    case Lock(op) =>
      if c.Go? && s.owner.None? then Some(Goto(s, t, Test(op)).(owner := Some(t)))
      else if c.TrylockFails? && op.TryAppend? then Some(Goto(s, t, Idle))
      else None
    case Asleep(op, _) =>
      if c.Wake? && (c.expired ==> op.Remove?) then Some(Goto(s, t, Relock(op, c.expired))) else None
    case Relock(op, expired) =>
      if c.Go? && s.owner.None?
      then Some(Goto(s, t, if expired then Check else Test(op)).(owner := Some(t)))
      else None
    case _ => if c.Go? then Some(Run(s, t)) else None
  }

  /** A step of the thread that holds the mutex. */
  function Run(s: State, t: Tid): State
    requires |s.elem| > 0 && t in s.pc
  {
    var n := |s.elem|;
    match s.pc[t]
    case Test(Append(x)) =>
      if s.length == n then Goto(s, t, Asleep(Append(x), false)).(owner := None)
      else Goto(s, t, Notify(Append(x)))
    case Test(TryAppend(x)) =>
      if s.length != n then Goto(s, t, Notify(TryAppend(x)))
      else Goto(s, t, Unlock(TryAppend(x), Refused)).(events := s.events + [SawFull(t)])
    case Test(Remove) =>
      if s.length == 0 then Goto(s, t, Asleep(Remove, false)).(owner := None)
      else Goto(s, t, Check)
    case Check =>
      if s.length != 0 then Goto(s, t, Notify(Remove))
      else Goto(s, t, Unlock(Remove, Expired)).(events := s.events + [SawEmpty(t)])
    case Notify(Remove) =>
      Goto(if s.length == n then s.(pc := Broadcast(s.pc, Append(0))) else s, t, Read)
    case Notify(op) =>
      Goto(if s.length == 0 then s.(pc := Broadcast(s.pc, Remove)) else s, t, Store(op))
    case Store(op) =>
      Goto(s, t, Grow(op)).(elem := s.elem[Slot(s.head, s.length, n) := Arg(op)])
    case Grow(op) =>
      Goto(s, t, Unlock(op, Done)).(length := s.length + 1, events := s.events + [Enq(t, Arg(op))])
    case Read => Goto(s, t, Advance(s.elem[Slot(s.head, 0, n)]))
    case Advance(v) => Goto(s, t, Shrink(v)).(head := Slot(s.head, 1, n))
    case Shrink(v) =>
      Goto(s, t, Unlock(Remove, Got(v))).(length := if s.length == 0 then 0 else s.length - 1,
                                          events := s.events + [Deq(t, v)])
    case Unlock(_, _) => Goto(s, t, Idle).(owner := None)
    case _ => s
  }

  function Arg(op: Op): int {
    if op.Remove? then 0 else op.x
  }

  ghost predicate Steps(s: State, s': State) {
    exists t, c :: StepBy(s, t, c, s')
  }

  ghost predicate StepBy(s: State, t: Tid, c: Choice, s': State) {
    |s.elem| > 0 && t in s.pc && Next(s, t, c) == Some(s')
  }

  /** A run: any finite interleaving from an initial state with capacity n. */
  ghost predicate IsRun(run: seq<State>, n: nat) {
    && |run| > 0 && Init(run[0], n)
    && forall i :: 0 <= i < |run| - 1 ==> Steps(run[i], run[i + 1])
  }

  // ---------- The reference: a bounded FIFO that executes each event atomically ----------

  /** The contents after the events, or None if some event was not legal for a FIFO of capacity n. */
  function Replay(events: seq<Event>, n: nat): Option<seq<int>> {
    if events == [] then Some([]) else
      match Replay(events[..|events| - 1], n)
      case None => None
      case Some(q) =>
        match events[|events| - 1]
        case Enq(_, x) => if |q| < n then Some(q + [x]) else None
        case Deq(_, v) => if q != [] && q[0] == v then Some(q[1..]) else None
        case SawFull(_) => if |q| == n then Some(q) else None
        case SawEmpty(_) => if q == [] then Some(q) else None
  }

  function Enqueued(events: seq<Event>): seq<int> {
    if events == [] then [] else
      var e := events[|events| - 1];
      Enqueued(events[..|events| - 1]) + if e.Enq? then [e.x] else []
  }

  function Dequeued(events: seq<Event>): seq<int> {
    if events == [] then [] else
      var e := events[|events| - 1];
      Dequeued(events[..|events| - 1]) + if e.Deq? then [e.v] else []
  }

  lemma {:induction false} ReplayConserves(events: seq<Event>, n: nat)
    requires Replay(events, n).Some?
    ensures Enqueued(events) == Dequeued(events) + Replay(events, n).value
    ensures |Replay(events, n).value| <= n
  {
    if events != [] {
      ReplayConserves(events[..|events| - 1], n);
    }
  }

  lemma ReplayExtends(events: seq<Event>, e: Event, n: nat)
    ensures Replay(events + [e], n) ==
            match Replay(events, n)
            case None => None
            case Some(q) =>
              match e
              case Enq(_, x) => if |q| < n then Some(q + [x]) else None
              case Deq(_, v) => if q != [] && q[0] == v then Some(q[1..]) else None
              case SawFull(_) => if |q| == n then Some(q) else None
              case SawEmpty(_) => if q == [] then Some(q) else None
  {
    assert (events + [e])[..|events + [e]| - 1] == events;
  }

  // ---------- The ring ----------

  /** The array index of the i-th element after head. */
  function Slot(head: nat, i: nat, n: nat): (k: nat)
    requires n > 0
    ensures k < n
    ensures head < n && i < n ==> k == if head + i < n then head + i else head + i - n
  {
    ModSmall(head, i, n);
    (head + i) % n
  }

  lemma ModSmall(head: nat, i: nat, n: nat)
    requires n > 0
    ensures head < n && i < n ==> (head + i) % n == if head + i < n then head + i else head + i - n
  {
    if head < n && i < n && head + i >= n {
      assert head + i == 1 * n + (head + i - n);
    }
  }

  /** elem[head .. head + length) taken modulo the capacity. */
  function Window(elem: seq<int>, head: nat, length: nat): (w: seq<int>)
    requires |elem| > 0
    ensures |w| == length
  {
    seq(length, i requires 0 <= i => elem[Slot(head, i, |elem|)])
  }

  /** Writing the slot after the window leaves the window alone. */
  lemma WindowKept(elem: seq<int>, head: nat, length: nat, x: int)
    requires head < |elem| && length < |elem|
    ensures Window(elem[Slot(head, length, |elem|) := x], head, length) == Window(elem, head, length)
  {
  }

  lemma WindowExtends(elem: seq<int>, head: nat, length: nat)
    requires |elem| > 0
    ensures Window(elem, head, length + 1) == Window(elem, head, length) + [elem[Slot(head, length, |elem|)]]
  {
  }

  /** Moving head past the first element drops exactly that element. */
  lemma WindowShrinks(elem: seq<int>, head: nat, length: nat)
    requires head < |elem| && 0 < length <= |elem|
    ensures Window(elem, head, length) == [elem[head]] + Window(elem, Slot(head, 1, |elem|), length - 1)
  {
    var w := Window(elem, head, length);
    var v := [elem[head]] + Window(elem, Slot(head, 1, |elem|), length - 1);
    forall i | 0 <= i < length ensures w[i] == v[i] {
      if i > 0 && |elem| > 1 {
        assert Slot(Slot(head, 1, |elem|), i - 1, |elem|) == Slot(head, i, |elem|);
      }
    }
  }

  /**
   The queue proper on a heap array: the two critical-section bodies as the source writes them.
   */
  class Ring {
    const elem: array<int>
    var head: nat
    var length: nat

    ghost predicate Valid() reads this {
      elem.Length > 0 && head < elem.Length && length <= elem.Length
    }

    ghost function Contents(): seq<int>
      requires Valid()
      reads this, elem
    {
      Window(elem[..], head, length)
    }

    /** queue_init. */
    constructor (n: nat)
      requires n > 0
      ensures Valid() && fresh(elem) && elem.Length == n && Contents() == []
    {
      elem := new int[n];
      head, length := 0, 0;
    }

    /** The locked part of queue_append and queue_try_append. */
    method Put(x: int)
      requires Valid() && length < elem.Length
      modifies this, elem
      ensures Valid() && Contents() == old(Contents()) + [x]
    {
      ghost var before := elem[..];
      WindowKept(before, head, length, x);
      elem[Slot(head, length, elem.Length)] := x;
      assert elem[..] == before[Slot(head, length, elem.Length) := x];
      WindowExtends(elem[..], head, length);
      length := length + 1;
    }

    /** The locked part of queue_remove. */
    method Take() returns (v: int)
      requires Valid() && length != 0
      modifies this
      ensures Valid() && [v] + Contents() == old(Contents())
    {
      WindowShrinks(elem[..], head, length);
      v := elem[head];
      head := Slot(head, 1, elem.Length);
      length := length - 1;
    }
  }

  // ---------- The invariant ----------

  predicate HoldsMutex(pc: Pc) {
    pc.Test? || pc.Check? || pc.Notify? || pc.Store? || pc.Grow? || pc.Read? || pc.Advance? ||
    pc.Shrink? || pc.Unlock?
  }

  /** The queue the callers see: mid-removal the value already read still counts. */
  ghost function Contents(s: State): seq<int>
    requires |s.elem| > 0
  {
    if OwnerPc(s).Shrink? && s.length > 0
    then [OwnerPc(s).v] + Window(s.elem, s.head, s.length - 1)
    else Window(s.elem, s.head, s.length)
  }

  ghost function OwnerPc(s: State): Pc {
    if s.owner.Some? && s.owner.value in s.pc then s.pc[s.owner.value] else Idle
  }

  ghost predicate MutexInv(s: State) {
    && (s.owner.Some? ==> s.owner.value in s.pc && HoldsMutex(s.pc[s.owner.value]))
    && (forall t <- s.pc :: HoldsMutex(s.pc[t]) ==> s.owner == Some(t))
    && (forall t <- s.pc :: s.pc[t].Asleep? ==> !s.pc[t].op.TryAppend?)
    && (forall t <- s.pc :: s.pc[t].Relock? ==> !s.pc[t].op.TryAppend? && (s.pc[t].expired ==> s.pc[t].op.Remove?))
  }

  /** What the holder of the mutex knows at each of its statements. */
  ghost predicate OwnerInv(s: State)
    requires |s.elem| > 0
  {
    var n := |s.elem|;
    match OwnerPc(s)
    case Notify(Remove) => s.length > 0
    case Notify(_) => s.length < n
    case Store(op) => !op.Remove? && s.length < n
    case Grow(op) => !op.Remove? && s.length < n && s.elem[Slot(s.head, s.length, n)] == op.x
    case Read => s.length > 0
    case Advance(v) => s.length > 0 && v == s.elem[Slot(s.head, 0, n)]
    case Shrink(_) => s.length > 0
    case Unlock(op, r) => s.events != [] && Returns(op, r, s.owner.value, s.events[|s.events| - 1])
    case _ => true
  }

  /** Result r is the right answer for a call of op by t whose effect was e. */
  predicate Returns(op: Op, r: Result, t: Tid, e: Event) {
    match r
    case Done => !op.Remove? && e == Enq(t, op.x)
    case Refused => op.TryAppend? && e == SawFull(t)
    case Got(v) => op.Remove? && e == Deq(t, v)
    case Expired => op.Remove? && e == SawEmpty(t)
  }

  /** No lost wake-up, in the form that is inductive: the queue is still in the sleeper's way, and
      no holder is between its broadcast decision and the change of length. */
  ghost predicate SleepersInv(s: State) {
    forall t <- s.pc :: s.pc[t].Asleep? && !s.pc[t].notified ==>
                          if s.pc[t].op.Remove?
                          then s.length == 0 && !OwnerPc(s).Store? && !OwnerPc(s).Grow?
                          else s.length == |s.elem| && !OwnerPc(s).Read? && !OwnerPc(s).Advance? && !OwnerPc(s).Shrink?
  }

  ghost predicate Inv(s: State, n: nat) {
    && n > 0 && |s.elem| == n && s.head < n && s.length <= n
    && MutexInv(s) && OwnerInv(s) && SleepersInv(s)
    && Replay(s.events, n) == Some(Contents(s))
  }

  lemma InitInv(s: State, n: nat)
    requires Init(s, n)
    ensures Inv(s, n)
  {
  }

  /** Steps outside the mutex touch neither the queue nor the holder's statement. */
  lemma OutsideStep(s: State, t: Tid, c: Choice, s': State, n: nat)
    requires Inv(s, n) && StepBy(s, t, c, s') && !HoldsMutex(s.pc[t])
    ensures s' == s.(owner := s'.owner, pc := s'.pc)
    ensures MutexInv(s') && SleepersInv(s')
    ensures OwnerPc(s') == OwnerPc(s) || (OwnerPc(s).Idle? && (OwnerPc(s').Test? || OwnerPc(s').Check?))
  {
    hide Replay, Contents, OwnerInv, Window;
  }

  lemma NextKeepsInv(s: State, t: Tid, c: Choice, s': State, n: nat)
    requires Inv(s, n) && StepBy(s, t, c, s')
    ensures Inv(s', n)
  {
    if HoldsMutex(s.pc[t]) {
      RunKeepsMutex(s, t, n);
      RunKeepsSleepers(s, t, n);
      RunKeepsHistory(s, t, n);
      RunKeepsOwner(s, t, n);
    } else {
      OutsideStep(s, t, c, s', n);
      assert OwnerInv(s');
      assert Contents(s') == Contents(s);
    }
  }

  lemma RunKeepsMutex(s: State, t: Tid, n: nat)
    requires Inv(s, n) && t in s.pc && HoldsMutex(s.pc[t])
    ensures var s' := Run(s, t); MutexInv(s') && (s'.owner.Some? ==> s'.owner == Some(t))
  {
    hide Replay, Contents, SleepersInv, OwnerInv, Window;
    assert s.owner == Some(t);
  }

  lemma RunKeepsSleepers(s: State, t: Tid, n: nat)
    requires Inv(s, n) && t in s.pc && HoldsMutex(s.pc[t])
    ensures SleepersInv(Run(s, t))
  {
    hide Replay, Contents, Window;
    assert OwnerPc(s) == s.pc[t];
  }

  lemma RunKeepsOwner(s: State, t: Tid, n: nat)
    requires Inv(s, n) && t in s.pc && HoldsMutex(s.pc[t])
    ensures var s' := Run(s, t); |s'.elem| == n && s'.head < n && s'.length <= n && OwnerInv(s')
  {
    hide Replay, Contents, Window, SleepersInv;
    assert OwnerPc(s) == s.pc[t];
    RunKeepsMutex(s, t, n);
    var s' := Run(s, t);
    assert s'.owner.Some? ==> OwnerPc(s') == s'.pc[t];
    match s.pc[t]
    case Test(op) =>
    case Check =>
    case Notify(op) =>
    case Store(op) =>
    case _ =>
  }

  /** After a step the holder, if there is one, is still the thread that moved. */
  lemma HolderMoves(s: State, t: Tid, n: nat)
    requires Inv(s, n) && t in s.pc && HoldsMutex(s.pc[t])
    ensures OwnerPc(s) == s.pc[t] && |Run(s, t).elem| == n
    ensures OwnerPc(Run(s, t)) == if Run(s, t).owner.Some? then Run(s, t).pc[t] else Idle
  {
    hide Replay, Window, SleepersInv;
    assert s.owner == Some(t);
  }

  lemma MovingHistory(s: State, t: Tid, n: nat)
    requires Inv(s, n) && t in s.pc && HoldsMutex(s.pc[t])
    requires s.pc[t].Store? || s.pc[t].Grow? || s.pc[t].Advance? || s.pc[t].Shrink?
    ensures var s' := Run(s, t); |s'.elem| == n && Replay(s'.events, n) == Some(Contents(s'))
  {
    hide Replay, Window, SleepersInv, MutexInv;
    HolderMoves(s, t, n);
    match s.pc[t]
    case Store(op) => WindowKept(s.elem, s.head, s.length, op.x);
    case Grow(op) =>
      WindowExtends(s.elem, s.head, s.length);
      ReplayExtends(s.events, Enq(t, op.x), n);
    case Advance(v) => WindowShrinks(s.elem, s.head, s.length);
    case Shrink(v) =>
      WindowSize(s.elem, s.head, s.length - 1);
      ReplayExtends(s.events, Deq(t, v), n);
  }

  lemma WindowSize(elem: seq<int>, head: nat, length: nat)
    requires |elem| > 0
    ensures |Window(elem, head, length)| == length
  {
  }

  lemma RunKeepsHistory(s: State, t: Tid, n: nat)
    requires Inv(s, n) && t in s.pc && HoldsMutex(s.pc[t])
    ensures var s' := Run(s, t); |s'.elem| == n && Replay(s'.events, n) == Some(Contents(s'))
  {
    hide Replay, Window, SleepersInv, MutexInv;
    HolderMoves(s, t, n);
    if s.pc[t].Store? || s.pc[t].Grow? || s.pc[t].Advance? || s.pc[t].Shrink? {
      MovingHistory(s, t, n);
    } else {
      WindowSize(s.elem, s.head, s.length);
      ReplayExtends(s.events, SawFull(t), n);
      ReplayExtends(s.events, SawEmpty(t), n);
    }
  }

  lemma {:induction false} RunInv(run: seq<State>, n: nat, i: nat)
    requires IsRun(run, n) && i < |run|
    ensures Inv(run[i], n)
  {
    if i == 0 {
      InitInv(run[0], n);
    } else {
      RunInv(run, n, i - 1);
      assert Steps(run[i - 1], run[i - 1 + 1]);
      var t, c :| StepBy(run[i - 1], t, c, run[i]);
      NextKeepsInv(run[i - 1], t, c, run[i], n);
    }
  }

  // ---------- Main results, over every run ----------

  /** Refinement: every interleaving is a legal history of an atomic bounded FIFO, and the values
      removed so far followed by the ring contents are the values appended, in order. */
  lemma BoundedFifo(run: seq<State>, n: nat, i: nat)
    requires IsRun(run, n) && i < |run|
    ensures var s := run[i];
            && |s.elem| == n && s.length <= n
            && Replay(s.events, n) == Some(Contents(s))
            && Enqueued(s.events) == Dequeued(s.events) + Contents(s)
            && (s.owner.None? ==> Enqueued(s.events) == Dequeued(s.events) + Window(s.elem, s.head, s.length))
  {
    RunInv(run, n, i);
    ReplayConserves(run[i].events, n);
  }

  /** No lost wake-up: a thread asleep and not notified has nothing to wake up for. */
  lemma NoLostWakeup(run: seq<State>, n: nat, i: nat, t: Tid)
    requires IsRun(run, n) && i < |run| && t in run[i].pc
    requires run[i].pc[t].Asleep? && !run[i].pc[t].notified
    ensures |run[i].elem| == n > 0
    ensures run[i].pc[t].op.Remove? ==> run[i].length == 0 && Contents(run[i]) == []
    ensures run[i].pc[t].op.Append? ==> run[i].length == n && |Contents(run[i])| == n
    ensures !run[i].pc[t].op.TryAppend?
  {
    RunInv(run, n, i);
  }

  /** The value a call is about to return is the effect that call had on the FIFO. */
  lemma ResultsAreTruthful(run: seq<State>, n: nat, i: nat, t: Tid)
    requires IsRun(run, n) && i < |run| && t in run[i].pc && run[i].pc[t].Unlock?
    ensures run[i].events != []
    ensures Returns(run[i].pc[t].op, run[i].pc[t].result, t, run[i].events[|run[i].events| - 1])
  {
    RunInv(run, n, i);
    assert OwnerPc(run[i]) == run[i].pc[t];
  }

  predicate Stuck(pc: Pc) {
    pc.Idle? || (pc.Asleep? && !pc.notified)
  }

  /** Deadlock freedom: unless every thread is idle or legitimately waiting, some thread can move
      without a new call, a deadline or a spurious wake; and appenders and removers never wait at
      the same time. */
  lemma NoDeadlock(run: seq<State>, n: nat, i: nat)
    requires IsRun(run, n) && i < |run|
    ensures |run[i].elem| > 0
    ensures (exists t <- run[i].pc :: !Stuck(run[i].pc[t])) ==>
              exists t <- run[i].pc, c :: Next(run[i], t, c).Some? && !Stuck(run[i].pc[t]) && (c.Go? || c == Wake(false))
    ensures forall t, u :: t in run[i].pc && u in run[i].pc && run[i].pc[t].Asleep? && run[i].pc[u].Asleep?
                           && !run[i].pc[t].notified && !run[i].pc[u].notified ==>
                           (run[i].pc[t].op.Remove? <==> run[i].pc[u].op.Remove?)
  {
    RunInv(run, n, i);
    var s := run[i];
    if t :| t in s.pc && !Stuck(s.pc[t]) {
      if s.owner.Some? {
        var o := s.owner.value;
        assert Next(s, o, Go).Some? && !Stuck(s.pc[o]);
      } else if s.pc[t].Asleep? {
        assert Next(s, t, Wake(false)).Some?;
      } else {
        assert !HoldsMutex(s.pc[t]);
        assert Next(s, t, Go).Some?;
      }
    }
  }
}
