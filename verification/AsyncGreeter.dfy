/**
 The asynchronous greeter of examples/cpp/helloworld/greeter_async_server.cc: CallData objects that
 request a call, spawn their own successor, answer, and delete themselves.

 The heap of CallData objects that exist is `live`, and `outstanding` holds the tags that the runtime
 will hand back through the completion queue.  Which of them comes next, whether the event is ok, and
 what a client asks for are the events of a run, and a run may be any sequence of them.
 */
module AsyncGreeter {

  datatype CallStatus = CREATE | PROCESS | FINISH

  /** What cq_->Next delivers: one of the outstanding tags, ok or not; and the name in the request, if
      the tag is that of the instance that waits for one. */
  datatype Event = Event(pick: nat, ok: bool, name: string)

  // ---------- The reference ----------

  /** Only the number of outstanding tags matters, and which of them belongs to the instance that waits
      for a request; all others are on their way out. */
  datatype Server = Server(tags: nat, waiting: nat, replies: seq<string>) {
    predicate Ok() { waiting < tags }
  }

  function Handle(s: Server, e: Event): (s': Server)
    requires s.Ok()
    ensures s'.Ok()
  {
    var i := e.pick % s.tags;
    if i == s.waiting then Server(s.tags + 1, s.tags - 1, s.replies + ["Hello " + e.name])
    else Server(s.tags - 1, if i < s.waiting then s.waiting - 1 else s.waiting, s.replies)
  }

  function HandleAll(events: seq<Event>): (s: Server)
    ensures s.Ok()
  {
    if events == [] then Server(1, 0, []) else Handle(HandleAll(events[..|events| - 1]), events[|events| - 1])
  }

  /** Each event brings a request, which is answered and leaves one instance more, or takes one away. */
  lemma {:induction false} EventsBalance(events: seq<Event>)
    ensures HandleAll(events).tags + |events| == 1 + 2 * |HandleAll(events).replies|
  {
    if events != [] {
      EventsBalance(events[..|events| - 1]);
    }
  }

  // ---------- The objects ----------

  class CallData {
    var status: CallStatus
    var requestName: string

    constructor ()
      ensures status == CREATE
    {
      status := CREATE;
      requestName := "";
    }
  }

  class ServerImpl {
    var live: set<CallData>
    var outstanding: seq<CallData>
    var replies: seq<string>

    /** Each live instance but `current` has exactly one outstanding tag and nothing else has any; the
        one at position `waiting`, if any, waits for a request, and the others are finishing. */
    ghost predicate Consistent(current: CallData?, waiting: int)
      reads this, live, outstanding
    {
      && -1 <= waiting < |outstanding| && (current != null ==> current in live)
      && (forall i, k :: 0 <= i < k < |outstanding| ==> outstanding[i] != outstanding[k])
      && (forall i :: 0 <= i < |outstanding| ==> outstanding[i] in live && outstanding[i] != current)
      && (forall d <- live :: d == current || d in outstanding)
      && (forall i :: 0 <= i < |outstanding| ==> outstanding[i].status == if i == waiting then PROCESS else FINISH)
    }

    /** The objects are those of the reference. */
    ghost predicate Is(s: Server)
      reads this, live, outstanding
    {
      Consistent(null, s.waiting) && |outstanding| == s.tags && replies == s.replies
    }

    constructor ()
      ensures Consistent(null, -1) && live == {} && outstanding == [] && replies == []
    {
      live, outstanding, replies := {}, [], [];
    }

    /** new CallData(&service_, cq_.get()): the constructor runs Proceed at once, which requests a call
        with the new object as tag. */
    method Spawn(ghost current: CallData?)
      requires Consistent(current, -1)
      modifies this`live, this`outstanding
      ensures Consistent(current, |outstanding| - 1) && |outstanding| == |old(outstanding)| + 1
      ensures outstanding[..|old(outstanding)|] == old(outstanding) && fresh(outstanding[|old(outstanding)|])
      ensures live == old(live) + {outstanding[|old(outstanding)|]}
    {
      var data := new CallData();
      live := live + {data};
      outstanding := outstanding + [data];
      data.status := PROCESS;
    }

    /** The tag at position i leaves the queue. */
    method TakeTag(i: nat, ghost waiting: nat) returns (data: CallData)
      requires Consistent(null, waiting) && i < |outstanding|
      modifies this`outstanding
      ensures data == old(outstanding)[i] && outstanding == old(outstanding)[..i] + old(outstanding)[i + 1..]
      ensures Consistent(data, if i == waiting then -1 else if i < waiting then waiting - 1 else waiting)
    {
      data := outstanding[i];
      ghost var tags := outstanding;
      outstanding := outstanding[..i] + outstanding[i + 1..];
      assert forall k :: 0 <= k < |outstanding| ==> outstanding[k] == tags[if k < i then k else k + 1];
      forall d <- live ensures d == data || d in outstanding {
        if d != data {
          var k :| 0 <= k < |tags| && tags[k] == d;
          assert outstanding[if k < i then k else k - 1] == d;
        }
      }
    }

    /** CallData::Proceed for an event of the completion queue. */
    method Proceed(e: Event, ghost s: Server)
      requires s.Ok() && Is(s)
      modifies this, live
      ensures Is(Handle(s, e))
      ensures forall d <- live :: d in old(live) || fresh(d)
    {
      var i := e.pick % |outstanding|;
      var data := TakeTag(i, s.waiting);
      if data.status == PROCESS {
        data.requestName := e.name;
        Spawn(data);
        Reply(data);
      } else {
        // delete this
        live := live - {data};
      }
    }

    /** reply_.set_message("Hello " + request_.name()); responder_.Finish(reply_, Status::OK, this). */
    method Reply(data: CallData)
      requires |outstanding| > 0 && Consistent(data, |outstanding| - 1)
      modifies this`outstanding, this`replies, data`status
      ensures Consistent(null, |old(outstanding)| - 1) && outstanding == old(outstanding) + [data]
      ensures replies == old(replies) + ["Hello " + data.requestName]
    {
      replies := replies + ["Hello " + data.requestName];
      outstanding := outstanding + [data];
      data.status := FINISH;
      assert outstanding[|outstanding| - 1] == data;
    }

    /** HandleRpcs for any sequence of events: it goes on until an event is not ok, and what it has done
        by then is what the reference does with the events before. */
    method HandleRpcs(events: seq<Event>) returns (aborted: bool, handled: nat)
      requires Consistent(null, -1) && live == {} && outstanding == [] && replies == []
      modifies this
      ensures handled <= |events| && (forall i :: 0 <= i < handled ==> events[i].ok)
      ensures aborted <==> exists e <- events :: !e.ok
      ensures aborted <==> handled < |events| && !events[handled].ok
      ensures !aborted ==> handled == |events|
      ensures Is(HandleAll(events[..handled]))
    {
      aborted, handled := false, 0;
      Spawn(null);
      while handled < |events|
        invariant handled <= |events| && !aborted && fresh(live)
        invariant forall i :: 0 <= i < handled ==> events[i].ok
        invariant Is(HandleAll(events[..handled]))
      {
        if !events[handled].ok {
          assert events[handled] in events;
          return true, handled;
        }
        assert events[..handled + 1][..handled] == events[..handled];
        Proceed(events[handled], HandleAll(events[..handled]));
        handled := handled + 1;
      }
    }
  }
}
