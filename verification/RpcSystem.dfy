/** Both ends of a connection and the network between them, as a system of atomic steps. The
    client's event loop runs the reply handler, the write listeners and the two sweeps over
    the table, one at a time; a sweep takes one step an entry, and other threads go on
    sending between any two steps. */
module RpcSystem {
  import opened Wrappers
  import opened Transport

  /** What the client's event loop is doing. A sweep has `todo` entries still to fail; after
      exceptionCaught's it closes the channel, after channelInactive's it is done for good. */
  datatype Loop =
    | Idle
    | Sweeping(todo: set<Id>, cause: string, thenClose: bool)
    | Closing

  datatype System = System(
    client: Endpoint,
    loop: Loop,
    inactive: bool,                   // channelInactive has been handled
    checked: nat,                     // threads in sendRpc past isAction
    registered: map<Id, Callback>,    // every request ever put into the table
    sending: set<Id>,                 // registered, not yet written
    writing: set<Id>,                 // written, the write not finished
    written: set<Id>,                 // the write succeeded
    failed: set<Id>,                  // the write failed
    received: set<Id>,                // the server has begun to process the request
    produced: set<(Id, Reply)>,       // what the server replied while processing it
    inFlight: multiset<(Id, Reply)>)  // replies on their way back

  const START := System(Endpoint(map[], [], true, false, []), Idle, false, 0, map[], {}, {}, {}, {}, {}, {}, multiset{})

  datatype Event =
    | Check
    | Register(id: Id, callback: Callback, seen: bool)
    | Write(id: Id, body: string)
    | WriteDone(id: Id, success: bool, cause: string)
    | Deliver(id: Id)
    | ServerReplies(id: Id, reply: Reply)
    | ClientReceives(id: Id, reply: Reply)
    | ExceptionCaught(cause: string)
    | ChannelInactive(cause: string)
    | SweepOne(id: Id)
    | SweepEnd
    | CloseAfterSweep
    | Close
    | TimeOut

  predicate Enabled(s: System, e: Event)
  {
    match e
    case Check => s.client.IsAction()
    case Register(id, _, _) => s.checked > 0 && id !in s.registered
    case Write(id, _) => id in s.sending
    case WriteDone(id, success, _) =>
      s.loop == Idle && id in s.writing && id in s.registered && (success ==> s.client.open)
    case Deliver(id) => id in s.written
    case ServerReplies(id, _) => id in s.received
    case ClientReceives(id, reply) => s.loop == Idle && (id, reply) in s.inFlight
    case ExceptionCaught(_) => s.loop == Idle
    case ChannelInactive(_) => s.loop == Idle && !s.client.open && !s.inactive
    case SweepOne(id) => s.loop.Sweeping? && id in s.loop.todo
    case SweepEnd => s.loop.Sweeping? && s.loop.todo == {}
    case CloseAfterSweep => s.loop == Closing
    case Close => s.loop == Idle
    case TimeOut => s.loop == Idle
  }

  /** An entry put into the table while it is walked may or may not be met by the walk. */
  function WithSeen(loop: Loop, id: Id, seen: bool): Loop
  {
    if loop.Sweeping? && seen then loop.(todo := loop.todo + {id}) else loop
  }

  function Next(s: System, e: Event): System
    requires Enabled(s, e)
  {
    match e
    case Check => s.(checked := s.checked + 1)
    case Register(id, callback, seen) =>
      s.(client := s.client.AddRequest(id, callback), loop := WithSeen(s.loop, id, seen), checked := s.checked - 1,
         registered := s.registered[id := callback], sending := s.sending + {id})
    case Write(id, body) =>
      s.(client := s.client.Write(RpcRequest(id, body)), sending := s.sending - {id}, writing := s.writing + {id})
    case WriteDone(id, success, cause) =>
      if success then s.(writing := s.writing - {id}, written := s.written + {id})
      else s.(client := s.client.WriteFailed(id, s.registered[id], cause), writing := s.writing - {id},
              failed := s.failed + {id})
    case Deliver(id) => s.(received := s.received + {id})
    case ServerReplies(id, reply) =>
      s.(produced := s.produced + {(id, reply)}, inFlight := s.inFlight + multiset{(id, reply)})
    case ClientReceives(id, reply) =>
      s.(client := s.client.Receive(id, reply), inFlight := s.inFlight - multiset{(id, reply)})
    case ExceptionCaught(cause) =>
      if s.client.outstanding == map[] then s.(loop := Closing)
      else s.(loop := Sweeping(s.client.outstanding.Keys, cause, true))
    case ChannelInactive(cause) =>
      if s.client.outstanding == map[] then s.(inactive := true)
      else s.(loop := Sweeping(s.client.outstanding.Keys, cause, false))
    case SweepOne(id) =>
      s.(client := s.client.FailEntry(id, s.loop.cause), loop := s.loop.(todo := s.loop.todo - {id}))
    case SweepEnd =>
      var s' := s.(client := s.client.Clear());
      if s.loop.thenClose then s'.(loop := Closing) else s'.(loop := Idle, inactive := true)
    case CloseAfterSweep => s.(client := s.client.Close(), loop := Idle)
    case Close => s.(client := s.client.Close())
    case TimeOut => s.(client := s.client.(timedOut := true).Close())
  }

  /** A run: events each of which is enabled when it happens. */
  predicate IsRun(s: System, es: seq<Event>)
    decreases |es|
  {
    es == [] || (Enabled(s, es[0]) && IsRun(Next(s, es[0]), es[1..]))
  }

  function After(s: System, es: seq<Event>): System
    requires IsRun(s, es)
    decreases |es|
  {
    if es == [] then s else After(Next(s, es[0]), es[1..])
  }

  // ---- what has been called ---------------------------------------------------------------

  function Count(calls: seq<Invocation>, id: Id, via: Via): nat
  {
    if calls == [] then 0
    else (if calls[0].id == id && calls[0].via == via then 1 else 0) + Count(calls[1..], id, via)
  }

  lemma {:induction false} CountAppend(calls: seq<Invocation>, c: Invocation, id: Id, via: Via)
    ensures Count(calls + [c], id, via) == Count(calls, id, via) + if c.id == id && c.via == via then 1 else 0
  {
    if calls == [] {
      assert ([] + [c])[1..] == [];
    } else {
      assert (calls + [c])[1..] == calls[1..] + [c];
      CountAppend(calls[1..], c, id, via);
    }
  }

  predicate Called(s: System, id: Id)
  {
    Count(s.client.calls, id, FromTable) + Count(s.client.calls, id, FromWriteListener) > 0
  }

  // ---- the invariant ------------------------------------------------------------------------

  /** Where a request's write stands; each request is in exactly one of four places. */
  ghost predicate Placed(s: System, id: Id)
  {
    && Stands(s, id)
    && (id in s.client.outstanding ==> id in s.registered && s.client.outstanding[id] == s.registered[id])
  }

  ghost predicate Stands(s: System, id: Id)
  {
    && (id in s.registered <==> id in s.sending || id in s.writing || id in s.written || id in s.failed)
    && !(id in s.sending && (id in s.writing || id in s.written || id in s.failed))
    && !(id in s.writing && (id in s.written || id in s.failed))
    && !(id in s.written && id in s.failed)
    && (id in s.received ==> id in s.written)
  }

  /** No request is lost: it is still in the table, or its callback has run, or its write is
      unfinished; and in the last case alone, the write can no longer succeed. */
  ghost predicate NotLost(s: System, id: Id)
  {
    var unfinished := id in s.sending || id in s.writing;
    id in s.registered ==>
      && (id in s.client.outstanding || Called(s, id) || (unfinished && (!s.client.open || s.loop == Closing)))
      && (s.loop.Sweeping? && id in s.client.outstanding ==> id in s.loop.todo || Called(s, id) || unfinished)
      && (s.inactive ==> Called(s, id) || unfinished)
  }

  /** How often the table and the write listener have called a request's callback. */
  ghost predicate Multiplicity(s: System, id: Id)
  {
    TableCallsOnce(s, id) && ListenerCallsFailed(s, id)
  }

  ghost predicate ListenerCallsFailed(s: System, id: Id)
  {
    Count(s.client.calls, id, FromWriteListener) == if id in s.failed then 1 else 0
  }

  ghost predicate TableCallsOnce(s: System, id: Id)
  {
    && Count(s.client.calls, id, FromTable) <= 1
    && (Count(s.client.calls, id, FromTable) == 1 ==> id in s.registered)
    && (id in s.client.outstanding && Count(s.client.calls, id, FromTable) == 1 ==>
          s.loop.Sweeping? && id !in s.loop.todo)
    && (s.loop.Sweeping? && id in s.loop.todo ==> id in s.client.outstanding)
  }

  /** Sweeps close, or find the channel closed. */
  ghost predicate LoopOk(s: System)
  {
    && (s.loop.Sweeping? && !s.loop.thenClose ==> !s.client.open)
    && (s.inactive ==> !s.client.open)
  }

  /** Every callback that ran is the one its request registered; every answer it was given was
      produced by the server for that request, whose write succeeded. */
  ghost predicate Correlated(s: System, c: Invocation)
  {
    && c.id in s.registered && c.callback == s.registered[c.id]
    && (c.reply.Answer? ==> (c.id, c.reply) in s.produced && c.id in s.received && c.via == FromTable)
  }

  ghost predicate RequestInv(s: System, id: Id)
  {
    Placed(s, id) && NotLost(s, id) && Multiplicity(s, id)
  }

  /** Replies on their way were produced by the server, for requests it has received. */
  ghost predicate MessagesOk(s: System)
  {
    && (forall m :: m in s.inFlight ==> m in s.produced)
    && (forall m :: m in s.produced ==> m.0 in s.received)
  }

  ghost predicate Inv(s: System)
  {
    && LoopOk(s) && MessagesOk(s)
    && (forall id :: RequestInv(s, id))
    && (forall i :: 0 <= i < |s.client.calls| ==> Correlated(s, s.client.calls[i]))
  }

  lemma StartInv()
    ensures Inv(START)
  {
  }

  /** The invocation a step makes, if it makes one. */
  function Invoked(s: System, e: Event): Option<Invocation>
    requires Enabled(s, e)
  {
    match e
    case WriteDone(id, success, cause) =>
      if success then None else Some(Invocation(id, s.registered[id], Failure(cause), FromWriteListener))
    case ClientReceives(id, reply) =>
      if id in s.client.outstanding then Some(Invocation(id, s.client.outstanding[id], reply, FromTable)) else None
    case SweepOne(id) =>
      if id in s.client.outstanding
      then Some(Invocation(id, s.client.outstanding[id], Failure(s.loop.cause), FromTable)) else None
    case _ => None
  }

  lemma StepCalls(s: System, e: Event, id: Id, via: Via)
    requires Enabled(s, e)
    ensures Next(s, e).client.calls == s.client.calls + (if Invoked(s, e).Some? then [Invoked(s, e).value] else [])
    ensures Count(Next(s, e).client.calls, id, via)
         == Count(s.client.calls, id, via)
            + if Invoked(s, e).Some? && Invoked(s, e).value.id == id && Invoked(s, e).value.via == via then 1 else 0
  {
    if Invoked(s, e).Some? {
      CountAppend(s.client.calls, Invoked(s, e).value, id, via);
    } else {
      assert s.client.calls + [] == s.client.calls;
    }
  }

  /** The request that an event is about. */
  function About(e: Event, id: Id): Id
  {
    match e
    case Register(id', _, _) => id'
    case WriteDone(id', _, _) => id'
    case ClientReceives(id', _) => id'
    case SweepOne(id') => id'
    case _ => id
  }

  lemma StepPlaced(s: System, e: Event, id: Id)
    requires Enabled(s, e) && Placed(s, id)
    ensures Placed(Next(s, e), id)
  {
    StepStands(s, e, id);
  }

  lemma StepStands(s: System, e: Event, id: Id)
    requires Enabled(s, e) && Stands(s, id)
    ensures Stands(Next(s, e), id)
  {
  }

  lemma StepNotLost(s: System, e: Event, id: Id)
    requires Enabled(s, e) && LoopOk(s) && RequestInv(s, id) && RequestInv(s, About(e, id))
    ensures NotLost(Next(s, e), id)
  {
    StepCalls(s, e, id, FromTable);
    StepCalls(s, e, id, FromWriteListener);
  }

  lemma StepMultiplicity(s: System, e: Event, id: Id)
    requires Enabled(s, e) && RequestInv(s, id) && RequestInv(s, About(e, id))
    ensures Multiplicity(Next(s, e), id)
  {
    StepTableCalls(s, e, id);
    StepListenerCalls(s, e, id);
  }

  lemma StepTableCalls(s: System, e: Event, id: Id)
    requires Enabled(s, e) && Placed(s, id) && Multiplicity(s, id) && Multiplicity(s, About(e, id))
    ensures TableCallsOnce(Next(s, e), id)
  {
    StepCalls(s, e, id, FromTable);
  }

  lemma StepListenerCalls(s: System, e: Event, id: Id)
    requires Enabled(s, e) && Placed(s, id) && Multiplicity(s, id) && Placed(s, About(e, id))
    ensures ListenerCallsFailed(Next(s, e), id)
  {
    StepCalls(s, e, id, FromWriteListener);
  }

  lemma StepRequest(s: System, e: Event, id: Id)
    requires Inv(s) && Enabled(s, e)
    ensures RequestInv(Next(s, e), id)
  {
    assert RequestInv(s, id) && RequestInv(s, About(e, id));
    StepPlaced(s, e, id);
    StepNotLost(s, e, id);
    StepMultiplicity(s, e, id);
  }

  lemma StaysCorrelated(s: System, e: Event, c: Invocation)
    requires Enabled(s, e) && Correlated(s, c)
    ensures Correlated(Next(s, e), c)
  {
  }

  lemma NewIsCorrelated(s: System, e: Event)
    requires Enabled(s, e) && Invoked(s, e).Some? && RequestInv(s, Invoked(s, e).value.id)
    requires e.ClientReceives? ==> (e.id, e.reply) in s.produced && e.id in s.received
    ensures Correlated(Next(s, e), Invoked(s, e).value)
  {
  }

  lemma StepCorrelated(s: System, e: Event, i: nat)
    requires Inv(s) && Enabled(s, e) && i < |Next(s, e).client.calls|
    ensures Correlated(Next(s, e), Next(s, e).client.calls[i])
  {
    StepCalls(s, e, 0, FromTable);
    if i < |s.client.calls| {
      StaysCorrelated(s, e, s.client.calls[i]);
    } else {
      assert RequestInv(s, Invoked(s, e).value.id);
      assert e.ClientReceives? ==> (e.id, e.reply) in s.inFlight;
      NewIsCorrelated(s, e);
    }
  }

  lemma StepLoop(s: System, e: Event)
    requires LoopOk(s) && Enabled(s, e)
    ensures LoopOk(Next(s, e))
  {
  }

  lemma StepMessages(s: System, e: Event)
    requires Enabled(s, e) && MessagesOk(s)
    ensures MessagesOk(Next(s, e))
  {
  }

  lemma StepInv(s: System, e: Event)
    requires Inv(s) && Enabled(s, e)
    ensures Inv(Next(s, e))
  {
    StepLoop(s, e);
    StepMessages(s, e);
    forall id ensures RequestInv(Next(s, e), id) {
      StepRequest(s, e, id);
    }
    forall i | 0 <= i < |Next(s, e).client.calls| ensures Correlated(Next(s, e), Next(s, e).client.calls[i]) {
      StepCorrelated(s, e, i);
    }
  }

  lemma {:induction false} RunInv(s: System, es: seq<Event>)
    requires Inv(s) && IsRun(s, es)
    ensures Inv(After(s, es))
    decreases |es|
  {
    if es != [] {
      StepInv(s, es[0]);
      RunInv(Next(s, es[0]), es[1..]);
    }
  }

  // ---- what holds after every run --------------------------------------------------------------

  /** No request is lost: at every moment it is outstanding, its callback has run, or its write is
      unfinished. Once the channel is closed, its closing has been handled and all writes are
      finished, every callback has run. */
  lemma NoRequestIsLost(es: seq<Event>, id: Id)
    requires IsRun(START, es) && id in After(START, es).registered
    ensures var s := After(START, es);
            id in s.client.outstanding || Called(s, id) || id in s.sending || id in s.writing
    ensures var s := After(START, es);
            s.inactive && s.sending == {} && s.writing == {} ==> !s.client.open && Called(s, id)
  {
    StartInv();
    RunInv(START, es);
    assert RequestInv(After(START, es), id);
  }

  /** The replies a request's callback was run with, in order. */
  function RepliesTo(calls: seq<Invocation>, id: Id): (r: seq<Reply>)
  {
    if calls == [] then []
    else (if calls[0].id == id then [calls[0].reply] else []) + RepliesTo(calls[1..], id)
  }

  lemma {:induction false} RepliesAreCounted(calls: seq<Invocation>, id: Id)
    ensures |RepliesTo(calls, id)| == Count(calls, id, FromTable) + Count(calls, id, FromWriteListener)
  {
    if calls != [] {
      RepliesAreCounted(calls[1..], id);
    }
  }

  lemma {:induction false} RepliesAreCalls(calls: seq<Invocation>, id: Id, k: nat) returns (i: nat)
    requires k < |RepliesTo(calls, id)|
    ensures i < |calls| && calls[i].id == id && calls[i].reply == RepliesTo(calls, id)[k]
  {
    if calls[0].id == id && k == 0 {
      i := 0;
    } else {
      i := RepliesAreCalls(calls[1..], id, if calls[0].id == id then k - 1 else k);
      i := i + 1;
    }
  }

  lemma RunMultiplicity(s: System, es: seq<Event>, id: Id)
    requires Inv(s) && IsRun(s, es)
    ensures var end := After(s, es);
            var replies := RepliesTo(end.client.calls, id);
            && (id in end.written ==> |replies| <= 1)
            && (id in end.failed ==> 1 <= |replies| <= 2 && forall k :: 0 <= k < |replies| ==> replies[k].Failure?)
  {
    RunInv(s, es);
    var end := After(s, es);
    assert RequestInv(end, id);
    var replies := RepliesTo(end.client.calls, id);
    RepliesAreCounted(end.client.calls, id);
    if id in end.failed {
      forall k | 0 <= k < |replies| ensures replies[k].Failure? {
        var i := RepliesAreCalls(end.client.calls, id, k);
        assert Correlated(end, end.client.calls[i]);
      }
    }
  }

  /** A request whose write succeeded has its callback run at most once, however many replies the
      server sends for it. One whose write failed has it run once or twice, with failures only. */
  lemma CallbackMultiplicity(es: seq<Event>, id: Id)
    requires IsRun(START, es)
    ensures var s := After(START, es);
            var replies := RepliesTo(s.client.calls, id);
            && (id in s.written ==> |replies| <= 1)
            && (id in s.failed ==> 1 <= |replies| <= 2 && forall k :: 0 <= k < |replies| ==> replies[k].Failure?)
  {
    StartInv();
    RunMultiplicity(START, es, id);
  }

  /** In the end, a request whose write succeeded has had its callback run exactly once. */
  lemma ExactlyOnceInTheEnd(es: seq<Event>, id: Id)
    requires IsRun(START, es) && id in After(START, es).written
    requires var s := After(START, es); s.inactive && s.sending == {} && s.writing == {}
    ensures |RepliesTo(After(START, es).client.calls, id)| == 1
  {
    StartInv();
    RunInv(START, es);
    assert RequestInv(After(START, es), id);
    NoRequestIsLost(es, id);
    CallbackMultiplicity(es, id);
    RepliesAreCounted(After(START, es).client.calls, id);
  }

  lemma FirstSettles(replies: seq<Reply>)
    requires replies != []
    ensures Settled(replies) == Some(replies[0]) && (|replies| <= 1 ==> replies == [replies[0]])
  {
  }

  lemma {:induction false} RepliesAppend(calls: seq<Invocation>, more: seq<Invocation>, id: Id)
    ensures RepliesTo(calls + more, id) == RepliesTo(calls, id) + RepliesTo(more, id)
  {
    if calls == [] {
      assert calls + more == more;
    } else {
      assert (calls + more)[1..] == calls[1..] + more && (calls + more)[0] == calls[0];
      RepliesAppend(calls[1..], more, id);
      Regroup(if calls[0].id == id then [calls[0].reply] else [], RepliesTo(calls[1..], id), RepliesTo(more, id));
    }
  }

  lemma Regroup(a: seq<Reply>, b: seq<Reply>, c: seq<Reply>)
    ensures a + b + c == a + (b + c)
  {
  }

  lemma {:induction false} RepliesOnlyGrow(s: System, es: seq<Event>, id: Id)
    requires IsRun(s, es)
    ensures RepliesTo(s.client.calls, id) <= RepliesTo(After(s, es).client.calls, id)
    decreases |es|
  {
    if es != [] {
      StepCalls(s, es[0], id, FromTable);
      RepliesAppend(s.client.calls, if Invoked(s, es[0]).Some? then [Invoked(s, es[0]).value] else [], id);
      RepliesOnlyGrow(Next(s, es[0]), es[1..], id);
    }
  }

  /** A synchronous caller waits until a deadline, the end of `before`. It times out if and only if
      its callback has not run by then; otherwise it is given the outcome of the first invocation,
      whatever happens later: a failure for a failed write, the only outcome there ever is for a
      successful one. */
  lemma SynchronousOutcome(before: seq<Event>, after: seq<Event>, id: Id)
    requires IsRun(START, before) && IsRun(After(START, before), after)
    ensures var s, end := After(START, before), After(After(START, before), after);
            var outcome, replies := Settled(RepliesTo(s.client.calls, id)), RepliesTo(end.client.calls, id);
            && (outcome.None? <==> !Called(s, id))
            && (outcome.Some? ==>
                  && replies != [] && outcome.value == replies[0]
                  && (id in end.failed ==> outcome.value.Failure?)
                  && (id in end.written ==> replies == [outcome.value]))
  {
    var s := After(START, before);
    var replies := RepliesTo(After(s, after).client.calls, id);
    RepliesAreCounted(s.client.calls, id);
    RepliesOnlyGrow(s, after, id);
    if Called(s, id) {
      FirstSettles(RepliesTo(s.client.calls, id));
      FirstSettles(replies);
      StartInv();
      RunInv(START, before);
      RunMultiplicity(s, after, id);
    }
  }

  /** End to end: a success value for a request is an answer that the server produced while
      processing that very request, and it goes to the callback that the request registered. */
  lemma AnswersBelongToTheirRequests(es: seq<Event>, i: nat)
    requires IsRun(START, es) && i < |After(START, es).client.calls|
    ensures var s := After(START, es);
            var c := s.client.calls[i];
            && c.id in s.registered && c.callback == s.registered[c.id]
            && (c.reply.Answer? ==> c.id in s.received && (c.id, c.reply) in s.produced)
  {
    StartInv();
    RunInv(START, es);
    assert Correlated(After(START, es), After(START, es).client.calls[i]);
  }

  // ---- a write that fails --------------------------------------------------------------------------

  /** The table has called, or will still call, a request whose write has failed. */
  ghost predicate Due(s: System, id: Id)
  {
    && id in s.failed
    && (Count(s.client.calls, id, FromTable) == 1
        || (id in s.client.outstanding && !s.inactive && (s.loop.Sweeping? ==> id in s.loop.todo)))
  }

  /** The table has not called the request and does not have it any more. */
  ghost predicate Missed(s: System, id: Id)
  {
    id in s.failed && id !in s.client.outstanding && Count(s.client.calls, id, FromTable) == 0
  }

  lemma StepStaysDue(s: System, e: Event, id: Id)
    requires Inv(s) && Enabled(s, e) && Due(s, id)
    ensures Due(Next(s, e), id)
  {
    assert RequestInv(s, id);
    StepRequest(s, e, id);
    StepCalls(s, e, id, FromTable);
    if e.ClientReceives? {
      assert (e.id, e.reply) in s.produced;
    }
  }

  lemma StepStaysMissed(s: System, e: Event, id: Id)
    requires Inv(s) && Enabled(s, e) && Missed(s, id)
    ensures Missed(Next(s, e), id)
  {
    assert RequestInv(s, id);
    StepCalls(s, e, id, FromTable);
  }

  lemma {:induction false} RunStays(s: System, es: seq<Event>, id: Id)
    requires Inv(s) && IsRun(s, es)
    ensures Due(s, id) ==> Due(After(s, es), id)
    ensures Missed(s, id) ==> Missed(After(s, es), id)
    ensures Inv(After(s, es))
    decreases |es|
  {
    if es != [] {
      var s' := Next(s, es[0]);
      StepInv(s, es[0]);
      if Due(s, id) {
        StepStaysDue(s, es[0], id);
      }
      if Missed(s, id) {
        StepStaysMissed(s, es[0], id);
      }
      RunStays(s', es[1..], id);
    }
  }

  lemma FailureIsDueOrMissed(s: System, id: Id, cause: string)
    requires Inv(s) && Enabled(s, WriteDone(id, false, cause)) && !s.inactive
    ensures var s' := Next(s, WriteDone(id, false, cause));
            if id in s.client.outstanding || Count(s.client.calls, id, FromTable) == 1 then Due(s', id)
            else Missed(s', id)
  {
    assert RequestInv(s, id);
    StepCalls(s, WriteDone(id, false, cause), id, FromTable);
  }

  /** The closing of the channel has been handled, and the entry of a request whose write failed is in
      the table all the same. */
  ghost predicate LeftBehind(s: System, id: Id)
  {
    && id in s.failed && id in s.client.outstanding && Count(s.client.calls, id, FromTable) == 0
    && s.inactive && !s.loop.Sweeping?
  }

  /** A sweep has failed the entry, or is still to fail it. */
  ghost predicate CaughtUp(s: System, id: Id)
  {
    && id in s.failed
    && (Count(s.client.calls, id, FromTable) == 1
        || (id in s.client.outstanding && s.loop.Sweeping? && id in s.loop.todo))
  }

  lemma StepStaysLeftBehind(s: System, e: Event, id: Id)
    requires Inv(s) && Enabled(s, e) && LeftBehind(s, id)
    ensures if e.ExceptionCaught? then CaughtUp(Next(s, e), id) else LeftBehind(Next(s, e), id)
  {
    assert RequestInv(s, id);
    StepCalls(s, e, id, FromTable);
    if e.ClientReceives? {
      assert (e.id, e.reply) in s.produced;
    }
  }

  lemma StepStaysCaughtUp(s: System, e: Event, id: Id)
    requires Inv(s) && Enabled(s, e) && CaughtUp(s, id)
    ensures CaughtUp(Next(s, e), id)
  {
    assert RequestInv(s, id);
    StepRequest(s, e, id);
    StepCalls(s, e, id, FromTable);
  }

  lemma {:induction false} RunStaysCaughtUp(s: System, es: seq<Event>, id: Id)
    requires Inv(s) && IsRun(s, es) && CaughtUp(s, id)
    ensures CaughtUp(After(s, es), id)
    decreases |es|
  {
    if es != [] {
      StepInv(s, es[0]);
      StepStaysCaughtUp(s, es[0], id);
      RunStaysCaughtUp(Next(s, es[0]), es[1..], id);
    }
  }

  predicate HasException(es: seq<Event>)
  {
    es != [] && (es[0].ExceptionCaught? || HasException(es[1..]))
  }

  lemma {:induction false} RunCatchesUp(s: System, es: seq<Event>, id: Id)
    requires Inv(s) && IsRun(s, es) && LeftBehind(s, id)
    ensures if HasException(es) then CaughtUp(After(s, es), id) else LeftBehind(After(s, es), id)
    decreases |es|
  {
    if es != [] {
      StepInv(s, es[0]);
      StepStaysLeftBehind(s, es[0], id);
      if es[0].ExceptionCaught? {
        RunStaysCaughtUp(Next(s, es[0]), es[1..], id);
      } else {
        RunCatchesUp(Next(s, es[0]), es[1..], id);
      }
    }
  }

  lemma LateFailure(s: System, id: Id, cause: string)
    requires Inv(s) && Enabled(s, WriteDone(id, false, cause)) && s.inactive
    ensures var s' := Next(s, WriteDone(id, false, cause));
            if Count(s.client.calls, id, FromTable) == 1 then CaughtUp(s', id)
            else if id in s.client.outstanding then LeftBehind(s', id) else Missed(s', id)
  {
    assert RequestInv(s, id);
    StepCalls(s, WriteDone(id, false, cause), id, FromTable);
  }

  /** The table calls a request whose write fails in state `s`, before or after, if it has done so already,
      or has the entry still and a sweep is to come: the one that handles the closing of the channel if that
      is not handled yet, else that of an exception caught later. */
  ghost predicate TableCalls(s: System, id: Id, after: seq<Event>)
  {
    || Count(s.client.calls, id, FromTable) == 1
    || (id in s.client.outstanding && (!s.inactive || HasException(after)))
  }

  lemma TableCallsIn(s: System, id: Id, cause: string, after: seq<Event>)
    requires Inv(s) && Enabled(s, WriteDone(id, false, cause)) && IsRun(Next(s, WriteDone(id, false, cause)), after)
    requires var end := After(Next(s, WriteDone(id, false, cause)), after);
             end.inactive && (s.inactive ==> !end.loop.Sweeping?)
    ensures var end := After(Next(s, WriteDone(id, false, cause)), after);
            id in end.failed && (Count(end.client.calls, id, FromTable) == 1 <==> TableCalls(s, id, after))
  {
    var s' := Next(s, WriteDone(id, false, cause));
    StepInv(s, WriteDone(id, false, cause));
    RunStays(s', after, id);
    if !s.inactive {
      FailureIsDueOrMissed(s, id, cause);
    } else {
      LateFailure(s, id, cause);
      if CaughtUp(s', id) {
        RunStaysCaughtUp(s', after, id);
      } else if LeftBehind(s', id) {
        RunCatchesUp(s', after, id);
      }
    }
  }

  /** When a write that fails calls back twice. In every run that goes on until the closing of the
      channel has been handled (and, if it had been handled when the write failed, does not stop in
      the middle of a sweep), the callback has run twice if the table calls it too, and else once. */
  lemma FailedWriteCallsTwiceExactlyWhen(before: seq<Event>, id: Id, cause: string, after: seq<Event>)
    requires IsRun(START, before) && Enabled(After(START, before), WriteDone(id, false, cause))
    requires IsRun(Next(After(START, before), WriteDone(id, false, cause)), after)
    requires var s := After(START, before);
             var end := After(Next(s, WriteDone(id, false, cause)), after);
             end.inactive && (s.inactive ==> !end.loop.Sweeping?)
    ensures var s := After(START, before);
            var replies := RepliesTo(After(Next(s, WriteDone(id, false, cause)), after).client.calls, id);
            |replies| == if TableCalls(s, id, after) then 2 else 1
  {
    var s := After(START, before);
    StartInv();
    RunInv(START, before);
    TableCallsIn(s, id, cause, after);
    var s' := Next(s, WriteDone(id, false, cause));
    StepInv(s, WriteDone(id, false, cause));
    RunInv(s', after);
    var end := After(s', after);
    assert RequestInv(end, id);
    RepliesAreCounted(end.client.calls, id);
  }

  lemma RunCons(s: System, e: Event, es: seq<Event>) returns (all: seq<Event>)
    requires Enabled(s, e) && IsRun(Next(s, e), es)
    ensures all == [e] + es && IsRun(s, all) && After(s, all) == After(Next(s, e), es)
  {
    all := [e] + es;
    assert all[1..] == es;
  }

  // ---- a sweep that nobody interferes with ---------------------------------------------------------

  function SweepSteps(order: seq<Id>, thenClose: bool): seq<Event>
  {
    if order != [] then [SweepOne(order[0])] + SweepSteps(order[1..], thenClose)
    else if thenClose then [SweepEnd, CloseAfterSweep] else [SweepEnd]
  }

  /** The client after a sweep, with the channel closed if that comes after it. */
  function Swept(client: Endpoint, order: seq<Id>, cause: string, thenClose: bool): Endpoint
  {
    var cleared := client.FailEntries(order, cause).Clear();
    if thenClose then cleared.Close() else cleared
  }

  /** Taken without interruption, the steps of a sweep do what the handler's method does. */
  lemma {:induction false} UninterruptedSweep(s: System, order: seq<Id>)
    requires s.loop.Sweeping?
    requires forall id :: id in s.loop.todo <==> id in order
    requires forall i, j :: 0 <= i < j < |order| ==> order[i] != order[j]
    ensures var thenClose := s.loop.thenClose;
            && IsRun(s, SweepSteps(order, thenClose))
            && var end := After(s, SweepSteps(order, thenClose));
               && end.client == Swept(s.client, order, s.loop.cause, thenClose)
               && end.loop == Idle && end.inactive == (s.inactive || !thenClose)
    decreases |order|
  {
    var steps := SweepSteps(order, s.loop.thenClose);
    if order == [] {
      var s' := Next(s, SweepEnd);
      var last := [];
      if s.loop.thenClose {
        last := RunCons(s', CloseAfterSweep, last);
      }
      last := RunCons(s, SweepEnd, last);
      assert steps == last;
    } else {
      var s' := Next(s, SweepOne(order[0]));
      TodoShrinks(s.loop.todo, order);
      UninterruptedSweep(s', order[1..]);
      assert steps[1..] == SweepSteps(order[1..], s.loop.thenClose);
    }
  }

  lemma TodoShrinks(todo: set<Id>, order: seq<Id>)
    requires order != [] && forall id :: id in todo <==> id in order
    requires forall i, j :: 0 <= i < j < |order| ==> order[i] != order[j]
    ensures forall id :: id in todo - {order[0]} <==> id in order[1..]
    ensures forall i, j :: 0 <= i < j < |order[1..]| ==> order[1..][i] != order[1..][j]
  {
    forall id ensures id in todo - {order[0]} <==> id in order[1..] {
      if id in order[1..] {
        var k :| 0 <= k < |order[1..]| && order[1..][k] == id;
        assert order[k + 1] == id && order[0] != order[k + 1];
      }
    }
    forall i, j | 0 <= i < j < |order[1..]| ensures order[1..][i] != order[1..][j] {
      assert order[1..][i] == order[i + 1] && order[1..][j] == order[j + 1];
    }
  }

  /** exceptionCaught: the steps of the sweep, or with an empty table the closing of the channel alone,
      taken without interruption are the handler's method. */
  lemma ExceptionCaughtAtOnce(s: System, order: seq<Id>, cause: string)
    requires s.loop == Idle && Lists(order, s.client.outstanding)
    ensures var steps := [ExceptionCaught(cause)] + if order == [] then [CloseAfterSweep] else SweepSteps(order, true);
            && IsRun(s, steps) && After(s, steps).loop == Idle
            && After(s, steps).client == s.client.FailEntries(order, cause).Clear().Close()
  {
    var s' := Next(s, ExceptionCaught(cause));
    var rest := if order == [] then [CloseAfterSweep] else SweepSteps(order, true);
    if order == [] {
      assert s.client.outstanding == map[];
      rest := RunCons(s', CloseAfterSweep, []);
    } else {
      assert order[0] in s.client.outstanding;
      UninterruptedSweep(s', order);
    }
    rest := RunCons(s, ExceptionCaught(cause), rest);
  }

  /** channelInactive, which is handled once, likewise. */
  lemma ChannelInactiveAtOnce(s: System, order: seq<Id>, cause: string)
    requires s.loop == Idle && !s.client.open && !s.inactive && Lists(order, s.client.outstanding)
    ensures var steps := [ChannelInactive(cause)] + if order == [] then [] else SweepSteps(order, false);
            && IsRun(s, steps) && After(s, steps).loop == Idle && After(s, steps).inactive
            && After(s, steps).client == s.client.FailEntries(order, cause).Clear()
  {
    var s' := Next(s, ChannelInactive(cause));
    var rest := if order == [] then [] else SweepSteps(order, false);
    if order == [] {
      assert s.client.outstanding == map[];
    } else {
      assert order[0] in s.client.outstanding;
      UninterruptedSweep(s', order);
    }
    rest := RunCons(s, ChannelInactive(cause), rest);
  }

  // ---- the server's handler ---------------------------------------------------------------------------

  /** The replies are produced and put in flight, and nothing else happens. */
  ghost predicate PutsInFlight(s: System, r: System, id: Id, replies: seq<Reply>)
  {
    && r == s.(produced := r.produced, inFlight := r.inFlight)
    && (forall m :: m in r.produced <==> m in s.produced || (m.0 == id && m.1 in replies))
    && (forall m :: r.inFlight[m] == s.inFlight[m] + if m.0 == id then multiset(replies)[m.1] else 0)
  }

  /** The events are those of the messages: each message is put in flight as a reply of the server to the
      request it names. */
  ghost predicate AreEventsOf(events: seq<Event>, sent: seq<Message>)
  {
    && |events| == |sent|
    && forall k :: 0 <= k < |sent| ==> sent[k].RpcReply? && events[k] == ServerReplies(sent[k].id, sent[k].reply)
  }

  function ReplyEvents(id: Id, replies: seq<Reply>): (events: seq<Event>)
    ensures |events| == |replies|
  {
    if replies == [] then [] else [ServerReplies(id, replies[0])] + ReplyEvents(id, replies[1..])
  }

  lemma {:induction false} ReplyEventsAre(id: Id, replies: seq<Reply>, k: nat)
    requires k < |replies|
    ensures ReplyEvents(id, replies)[k] == ServerReplies(id, replies[k])
  {
    if k > 0 {
      ReplyEventsAre(id, replies[1..], k - 1);
    }
  }

  lemma {:induction false} RepliesAreRun(s: System, id: Id, replies: seq<Reply>)
    requires id in s.received
    ensures IsRun(s, ReplyEvents(id, replies)) && PutsInFlight(s, After(s, ReplyEvents(id, replies)), id, replies)
    decreases |replies|
  {
    if replies != [] {
      var s' := Next(s, ServerReplies(id, replies[0]));
      RepliesAreRun(s', id, replies[1..]);
      FirstInFlight(s, After(s', ReplyEvents(id, replies[1..])), id, replies[0], replies[1..]);
      assert [replies[0]] + replies[1..] == replies;
      assert ReplyEvents(id, replies)[1..] == ReplyEvents(id, replies[1..]);
    }
  }

  lemma FirstInFlight(s: System, r: System, id: Id, reply: Reply, replies: seq<Reply>)
    requires id in s.received && PutsInFlight(Next(s, ServerReplies(id, reply)), r, id, replies)
    ensures PutsInFlight(s, r, id, [reply] + replies)
  {
    assert forall x :: x in [reply] + replies <==> x == reply || x in replies;
    assert multiset([reply] + replies) == multiset{reply} + multiset(replies);
  }

  /** A server processes a request it has received: each message that the handler sends is one that the
      server's reply to this request puts in flight, in order, and there is no other. */
  method Serve(handler: TransportRequestHandler, id: Id, replies: seq<Reply>, thrown: Option<string>, ghost s: System)
    returns (ghost events: seq<Event>)
    requires id in s.received
    modifies handler.channel
    ensures |handler.channel.outbound| >= |old(handler.channel.outbound)|
    ensures handler.channel.outbound[..|old(handler.channel.outbound)|] == old(handler.channel.outbound)
    ensures AreEventsOf(events, handler.channel.outbound[|old(handler.channel.outbound)|..]) && IsRun(s, events)
    ensures var all := replies + if thrown.Some? then [Failure(thrown.value)] else [];
            PutsInFlight(s, After(s, events), id, all)
  {
    handler.ProcessRpcRequest(id, replies, thrown);
    ghost var all := replies + if thrown.Some? then [Failure(thrown.value)] else [];
    ghost var was, now := old(handler.channel.outbound), handler.channel.outbound;
    events := ReplyEvents(id, all);
    RepliesAreRun(s, id, all);
    forall k | 0 <= k < |all|
      ensures now[|was|..][k] == RpcReply(id, all[k]) && events[k] == ServerReplies(id, all[k])
    {
      assert now[|was|..][k] == now[|was| + k];
      ReplyEventsAre(id, all, k);
    }
  }

  // ---- a client that is not usable ----------------------------------------------------------------------

  lemma StepStaysClosed(s: System, e: Event)
    requires Enabled(s, e) && (s.client.timedOut || !s.client.open)
    ensures var s' := Next(s, e);
            && (s'.client.timedOut || !s'.client.open)
            && |s'.registered| + s'.checked <= |s.registered| + s.checked
  {
  }

  /** A client that has timed out or whose channel is closed takes no further request: from then on only the
      threads register one that had found it usable before. And it takes one in any other state. */
  lemma {:induction false} UnusableTakesNoRequest(s: System, es: seq<Event>)
    requires IsRun(s, es)
    ensures Enabled(s, Check) <==> !s.client.timedOut && s.client.open
    ensures s.client.timedOut || !s.client.open ==>
              |After(s, es).registered| + After(s, es).checked <= |s.registered| + s.checked
    decreases |es|
  {
    if es != [] && (s.client.timedOut || !s.client.open) {
      StepStaysClosed(s, es[0]);
      UnusableTakesNoRequest(Next(s, es[0]), es[1..]);
    }
  }

  // ---- what is conserved ----------------------------------------------------------------------------------

  /** How many messages are a request with this id. */
  function RequestsSent(sent: seq<Message>, id: Id): nat
  {
    if sent == [] then 0
    else
      var last := sent[|sent| - 1];
      RequestsSent(sent[..|sent| - 1], id) + if last.RpcRequest? && last.id == id then 1 else 0
  }

  ghost predicate WrittenOnce(s: System, id: Id)
  {
    RequestsSent(s.client.outbound, id) == if WriteBegun(s, id) then 1 else 0
  }

  lemma StepWritesOnce(s: System, e: Event, id: Id)
    requires Enabled(s, e) && Stands(s, id) && WrittenOnce(s, id)
    ensures WrittenOnce(Next(s, e), id)
  {
    StepSends(s, e);
    if e.Write? {
      var sent, m := s.client.outbound, RpcRequest(e.id, e.body);
      assert (sent + [m])[..|sent + [m]| - 1] == sent;
    }
    StepWritten(s, e, id);
  }

  lemma StepSends(s: System, e: Event)
    requires Enabled(s, e)
    ensures Next(s, e).client.outbound == s.client.outbound + if e.Write? then [RpcRequest(e.id, e.body)] else []
  {
    assert s.client.outbound + [] == s.client.outbound;
  }

  ghost predicate WriteBegun(s: System, id: Id) { id in s.writing || id in s.written || id in s.failed }

  lemma StepWritten(s: System, e: Event, id: Id)
    requires Enabled(s, e) && Stands(s, id)
    ensures WriteBegun(Next(s, e), id) <==> WriteBegun(s, id) || (e.Write? && e.id == id)
    ensures e.Write? && e.id == id ==> !WriteBegun(s, id)
  {
  }

  lemma {:induction false} RunWritesOnce(s: System, es: seq<Event>, id: Id)
    requires Inv(s) && IsRun(s, es) && WrittenOnce(s, id)
    ensures WrittenOnce(After(s, es), id)
    decreases |es|
  {
    if es != [] {
      assert RequestInv(s, id);
      StepInv(s, es[0]);
      StepWritesOnce(s, es[0], id);
      RunWritesOnce(Next(s, es[0]), es[1..], id);
    }
  }

  /** In every run the client has sent exactly one request message for each request whose write has begun, and
      none for any other. */
  lemma EachRequestIsSentOnce(es: seq<Event>, id: Id)
    requires IsRun(START, es)
    ensures var s := After(START, es);
            RequestsSent(s.client.outbound, id) == if id in s.writing || id in s.written || id in s.failed then 1 else 0
  {
    StartInv();
    RunWritesOnce(START, es, id);
  }

  /** How often the server has put a reply in flight, and how often the client has received it. */
  function Replied(es: seq<Event>, m: (Id, Reply)): nat
  {
    if es == [] then 0
    else (if es[0].ServerReplies? && (es[0].id, es[0].reply) == m then 1 else 0) + Replied(es[1..], m)
  }

  function Received(es: seq<Event>, m: (Id, Reply)): nat
  {
    if es == [] then 0
    else (if es[0].ClientReceives? && (es[0].id, es[0].reply) == m then 1 else 0) + Received(es[1..], m)
  }

  lemma {:induction false} RunConservesReplies(s: System, es: seq<Event>, m: (Id, Reply))
    requires IsRun(s, es)
    ensures s.inFlight[m] + Replied(es, m) == Received(es, m) + After(s, es).inFlight[m]
    decreases |es|
  {
    if es != [] {
      RunConservesReplies(Next(s, es[0]), es[1..], m);
    }
  }

  /** No reply is made up or doubled on the way: in every run each reply has been received as often as the server
      gave it, less those still in flight. */
  lemma RepliesAreConserved(es: seq<Event>, m: (Id, Reply))
    requires IsRun(START, es)
    ensures Replied(es, m) == Received(es, m) + After(START, es).inFlight[m]
  {
    RunConservesReplies(START, es, m);
  }

  function Checks(es: seq<Event>): nat
  {
    if es == [] then 0 else (if es[0].Check? then 1 else 0) + Checks(es[1..])
  }

  lemma {:induction false} RunConservesCalls(s: System, es: seq<Event>)
    requires IsRun(s, es)
    ensures |After(s, es).registered| + After(s, es).checked == |s.registered| + s.checked + Checks(es)
    decreases |es|
  {
    if es != [] {
      RunConservesCalls(Next(s, es[0]), es[1..]);
    }
  }

  /** Each call of sendRpc that found the client usable registers one request, or is still to register it. */
  lemma EachCallRegistersOnce(es: seq<Event>)
    requires IsRun(START, es)
    ensures |After(START, es).registered| + After(START, es).checked == Checks(es)
  {
    RunConservesCalls(START, es);
  }

  /** When the event loop is idle, each handler's method is a step of the system: closing, timing out, the end of
      a write, and a reply that has arrived. */
  lemma HandlersAreSteps(s: System, id: Id, reply: Reply, cause: string)
    requires Inv(s) && s.loop == Idle
    ensures Enabled(s, Close) && Next(s, Close) == s.(client := s.client.Close())
    ensures Enabled(s, TimeOut) && Next(s, TimeOut) == s.(client := s.client.(timedOut := true).Close())
    ensures (id, reply) in s.inFlight ==>
              && Enabled(s, ClientReceives(id, reply))
              && Next(s, ClientReceives(id, reply)).client == s.client.Receive(id, reply)
    ensures id in s.writing ==>
              && Enabled(s, WriteDone(id, false, cause))
              && Next(s, WriteDone(id, false, cause)).client == s.client.WriteFailed(id, s.registered[id], cause)
              && (s.client.open ==>
                    Enabled(s, WriteDone(id, true, cause)) && Next(s, WriteDone(id, true, cause)).client == s.client)
  {
    assert RequestInv(s, id);
  }

  /** A request that a thread puts into the table while it is being swept may or may not be met by the sweep. */
  lemma SweepMayMeetNewEntry(s: System, id: Id, callback: Callback, seen: bool)
    requires Inv(s) && s.loop.Sweeping? && s.checked > 0 && id !in s.registered
    ensures Enabled(s, Register(id, callback, seen))
    ensures Enabled(Next(s, Register(id, callback, seen)), SweepOne(id)) <==> seen
  {
    assert RequestInv(s, id);
  }
}
