/** One end of an RPC connection: the table of outstanding requests, the client that sends
    them, and the handlers that run on the channel's event loop. */
module Transport {
  import opened Wrappers

  type Id = nat
  type Callback = nat

  /** How a request ends: the answer's body, or a failure. */
  datatype Reply = Answer(body: string) | Failure(cause: string)

  datatype Message =
    | RpcRequest(id: Id, body: string)
    | OneWay(body: string)
    | RpcReply(id: Id, reply: Reply)

  /** A callback that ran, for which request, and who called it. */
  datatype Via = FromTable | FromWriteListener
  datatype Invocation = Invocation(id: Id, callback: Callback, reply: Reply, via: Via)

  // ---- what each operation does to an end ------------------------------------------------

  datatype Endpoint = Endpoint(outstanding: map<Id, Callback>, calls: seq<Invocation>,
                               open: bool, timedOut: bool, outbound: seq<Message>)
  {
    predicate IsAction() { !timedOut && open }

    function AddRequest(id: Id, callback: Callback): Endpoint {
      this.(outstanding := outstanding[id := callback])
    }

    function Write(m: Message): Endpoint { this.(outbound := outbound + [m]) }

    function Close(): Endpoint { this.(open := false) }

    /** A reply for an outstanding request removes it and runs its callback; any other is ignored. */
    function Receive(id: Id, reply: Reply): Endpoint {
      if id in outstanding
      then this.(outstanding := outstanding - {id},
                 calls := calls + [Invocation(id, outstanding[id], reply, FromTable)])
      else this
    }

    /** One step of failOutstandingRequests: the entry stays in the table. */
    function FailEntry(id: Id, cause: string): Endpoint {
      if id in outstanding then this.(calls := calls + [Invocation(id, outstanding[id], Failure(cause), FromTable)])
      else this
    }

    function FailEntries(ids: seq<Id>, cause: string): Endpoint
      decreases |ids|
    {
      if ids == [] then this else FailEntry(ids[0], cause).FailEntries(ids[1..], cause)
    }

    function Clear(): Endpoint { this.(outstanding := map[]) }

    /** The write listener on failure: it closes the channel and runs the callback, but leaves
        the entry in the table. */
    function WriteFailed(id: Id, callback: Callback, cause: string): Endpoint {
      Close().(calls := calls + [Invocation(id, callback, Failure(cause), FromWriteListener)])
    }
  }

  /** `ids` lists the keys of the table, each once. */
  ghost predicate Lists(ids: seq<Id>, table: map<Id, Callback>)
  {
    && (forall i :: 0 <= i < |ids| ==> ids[i] in table)
    && (forall id :: id in table ==> id in ids)
    && (forall i, j :: 0 <= i < j < |ids| ==> ids[i] != ids[j])
  }

  lemma {:induction false} FailEntriesAppend(e: Endpoint, ids: seq<Id>, id: Id, cause: string)
    ensures e.FailEntries(ids + [id], cause) == e.FailEntries(ids, cause).FailEntry(id, cause)
    decreases |ids|
  {
    if ids == [] {
      assert ([] + [id])[1..] == [];
    } else {
      assert (ids + [id])[1..] == ids[1..] + [id];
      FailEntriesAppend(e.FailEntry(ids[0], cause), ids[1..], id, cause);
    }
  }

  lemma {:induction false} FailEntriesKeep(e: Endpoint, ids: seq<Id>, cause: string)
    ensures e.FailEntries(ids, cause).outstanding == e.outstanding
    ensures e.FailEntries(ids, cause) == e.(calls := e.FailEntries(ids, cause).calls)
    decreases |ids|
  {
    if ids != [] {
      FailEntriesKeep(e.FailEntry(ids[0], cause), ids[1..], cause);
    }
  }

  // ---- the classes ----------------------------------------------------------------------

  class Channel {
    var open: bool
    var outbound: seq<Message>

    constructor ()
      ensures open && outbound == []
    {
      open, outbound := true, [];
    }

    method WriteAndFlush(m: Message)
      modifies this
      ensures open == old(open) && outbound == old(outbound) + [m]
    {
      outbound := outbound + [m];
    }

    method Close()
      modifies this
      ensures !open && outbound == old(outbound)
    {
      open := false;
    }
  }

  /** The callbacks that have run. */
  class Journal {
    var calls: seq<Invocation>

    constructor ()
      ensures calls == []
    {
      calls := [];
    }

    method Run(id: Id, callback: Callback, reply: Reply, via: Via)
      modifies this
      ensures calls == old(calls) + [Invocation(id, callback, reply, via)]
    {
      calls := calls + [Invocation(id, callback, reply, via)];
    }
  }

  class TransportResponseHandler {
    const journal: Journal
    var outstandingRpcs: map<Id, Callback>
    var timeOfLastRequestNs: int

    constructor (journal: Journal)
      ensures this.journal == journal && outstandingRpcs == map[] && timeOfLastRequestNs == 0
    {
      this.journal, outstandingRpcs, timeOfLastRequestNs := journal, map[], 0;
    }

    /** The part of an end that this handler keeps. */
    ghost function Over(e: Endpoint): Endpoint
      reads this, journal
    {
      e.(outstanding := outstandingRpcs, calls := journal.calls)
    }

    method Handle(id: Id, reply: Reply)
      modifies this`outstandingRpcs, journal
      ensures forall e :: Over(e) == old(Over(e)).Receive(id, reply)
      ensures id in old(outstandingRpcs) ==>
                && outstandingRpcs == old(outstandingRpcs) - {id}
                && journal.calls == old(journal.calls) + [Invocation(id, old(outstandingRpcs)[id], reply, FromTable)]
      ensures id !in old(outstandingRpcs) ==>
                outstandingRpcs == old(outstandingRpcs) && journal.calls == old(journal.calls)
    {
      if id in outstandingRpcs {
        var listener := outstandingRpcs[id];
        outstandingRpcs := outstandingRpcs - {id};
        journal.Run(id, listener, reply, FromTable);
      }
    }

    method NumOutstandingRequests() returns (n: nat)
      ensures n == |outstandingRpcs|
    {
      n := |outstandingRpcs|;
    }

    method ExceptionCaught(cause: string) returns (ghost order: seq<Id>)
      modifies this`outstandingRpcs, journal
      ensures Lists(order, old(outstandingRpcs))
      ensures forall e :: Over(e) == old(Over(e)).FailEntries(order, cause).Clear()
    {
      order := [];
      var n := NumOutstandingRequests();
      if n > 0 {
        order := FailOutstandingRequests(cause);
      } else {
        assert outstandingRpcs == map[];
      }
    }

    /** Every entry's callback is told of the failure, in whatever order the table is walked;
        then the table is cleared. */
    method FailOutstandingRequests(cause: string) returns (ghost order: seq<Id>)
      modifies this`outstandingRpcs, journal
      ensures Lists(order, old(outstandingRpcs))
      ensures forall e :: Over(e) == old(Over(e)).FailEntries(order, cause).Clear()
      ensures outstandingRpcs == map[] && |journal.calls| == |old(journal.calls)| + |order|
      ensures forall k :: 0 <= k < |order| ==>
                journal.calls[|old(journal.calls)| + k]
                == Invocation(order[k], old(outstandingRpcs)[order[k]], Failure(cause), FromTable)
    {
      order := [];
      var todo := outstandingRpcs.Keys;
      while todo != {}
        invariant outstandingRpcs == old(outstandingRpcs) && todo <= outstandingRpcs.Keys
        invariant forall i :: 0 <= i < |order| ==> order[i] in outstandingRpcs && order[i] !in todo
        invariant forall id :: id in outstandingRpcs ==> id in todo || id in order
        invariant forall i, j :: 0 <= i < j < |order| ==> order[i] != order[j]
        invariant forall e :: Over(e) == old(Over(e)).FailEntries(order, cause)
        invariant |journal.calls| == |old(journal.calls)| + |order|
        invariant forall k :: 0 <= k < |order| ==>
                    journal.calls[|old(journal.calls)| + k]
                    == Invocation(order[k], outstandingRpcs[order[k]], Failure(cause), FromTable)
        decreases todo
      {
        var id :| id in todo;
        forall e ensures old(Over(e)).FailEntries(order + [id], cause) == Over(e).FailEntry(id, cause) {
          FailEntriesAppend(old(Over(e)), order, id, cause);
        }
        journal.Run(id, outstandingRpcs[id], Failure(cause), FromTable);
        order := order + [id];
        todo := todo - {id};
      }
      outstandingRpcs := map[];
    }

    method AddRpcRequest(id: Id, callback: Callback, nanoTime: int)
      modifies this
      ensures forall e :: Over(e) == old(Over(e)).AddRequest(id, callback)
      ensures outstandingRpcs == old(outstandingRpcs)[id := callback] && timeOfLastRequestNs == nanoTime
    {
      timeOfLastRequestNs := nanoTime;
      outstandingRpcs := outstandingRpcs[id := callback];
    }
  }

  class TransportClient {
    const channel: Channel
    const handler: TransportResponseHandler
    var timedOut: bool

    constructor (channel: Channel, handler: TransportResponseHandler)
      ensures this.channel == channel && this.handler == handler && !timedOut
    {
      this.channel, this.handler, timedOut := channel, handler, false;
    }

    /** This end of the connection. */
    ghost function End(): Endpoint
      reads this, channel, handler, handler.journal
    {
      handler.Over(Endpoint(map[], [], channel.open, timedOut, channel.outbound))
    }

    method IsAction() returns (b: bool)
      ensures b == (!timedOut && channel.open) == End().IsAction()
    {
      b := !timedOut && channel.open;
    }

    /** sendRpc: refused when the connection is not usable; otherwise the callback is registered
        before the request is written. `requestId` is the random identifier it draws. */
    method SendRpc(message: string, callback: Callback, requestId: Id, nanoTime: int) returns (sent: bool)
      modifies handler, channel
      ensures sent == (!old(timedOut) && old(channel.open))
      ensures End()
           == if sent then old(End()).AddRequest(requestId, callback).Write(RpcRequest(requestId, message))
              else old(End())
      ensures sent ==>
                && handler.outstandingRpcs == old(handler.outstandingRpcs)[requestId := callback]
                && channel.outbound == old(channel.outbound) + [RpcRequest(requestId, message)]
    {
      sent := IsAction();
      if !sent {
        return;
      }
      handler.AddRpcRequest(requestId, callback, nanoTime);
      assert handler.Over(End()) == old(handler.Over(End())).AddRequest(requestId, callback);
      channel.WriteAndFlush(RpcRequest(requestId, message));
    }

    /** The listener on that write. */
    method WriteFinished(requestId: Id, callback: Callback, success: bool, cause: string)
      modifies channel, handler.journal
      ensures End() == if success then old(End()) else old(End()).WriteFailed(requestId, callback, cause)
      ensures handler.outstandingRpcs == old(handler.outstandingRpcs)
      ensures channel.open == (old(channel.open) && success)
      ensures handler.journal.calls
           == old(handler.journal.calls)
              + if success then [] else [Invocation(requestId, callback, Failure(cause), FromWriteListener)]
    {
      if !success {
        channel.Close();
        handler.journal.Run(requestId, callback, Failure(cause), FromWriteListener);
      }
    }

    method Send(message: string)
      modifies channel
      ensures End() == old(End()).Write(OneWay(message))
      ensures channel.outbound == old(channel.outbound) + [OneWay(message)]
    {
      channel.WriteAndFlush(OneWay(message));
    }

    method TimeOut()
      modifies this
      ensures End() == old(End()).(timedOut := true)
    {
      timedOut := true;
    }

    method Close()
      modifies channel
      ensures End() == old(End()).Close() && !channel.open
    {
      channel.Close();
    }
  }

  /** The future a synchronous request waits on: only the first outcome is kept. */
  class SettableFuture {
    var value: Option<Reply>

    constructor ()
      ensures value == None
    {
      value := None;
    }

    method Set(reply: Reply) returns (isFirst: bool)
      modifies this
      ensures isFirst == (old(value) == None) && value == (if isFirst then Some(reply) else old(value))
    {
      isFirst := value == None;
      if isFirst {
        value := Some(reply);
      }
    }
  }

  /** What a future holds once its callback has been run with these replies. */
  function Settled(replies: seq<Reply>): (r: Option<Reply>)
    ensures r == if replies == [] then None else Some(replies[0])
  {
    if replies == [] then None
    else
      var before := Settled(replies[..|replies| - 1]);
      if before == None then Some(replies[|replies| - 1]) else before
  }

  /** sendRpcSync's callback, run with each of the replies the request gets: the caller is given
      the outcome of the first. */
  method SettleWith(future: SettableFuture, replies: seq<Reply>)
    requires future.value == None
    modifies future
    ensures future.value == Settled(replies)
  {
    var i := 0;
    while i < |replies|
      invariant 0 <= i <= |replies|
      invariant future.value == Settled(replies[..i])
    {
      var _ := future.Set(replies[i]);
      i := i + 1;
    }
    assert replies[..|replies|] == replies;
  }

  /** sendRpcSync: the replies that come before the deadline settle the future, and the caller is
      given what it holds then; None is the timeout. */
  method Await(replies: seq<Reply>, inTime: nat) returns (outcome: Option<Reply>)
    requires inTime <= |replies|
    ensures outcome == Settled(replies[..inTime])
    ensures outcome == if inTime == 0 then None else Some(replies[0])
  {
    var future := new SettableFuture();
    SettleWith(future, replies[..inTime]);
    outcome := future.value;
  }

  class TransportRequestHandler {
    const channel: Channel

    constructor (channel: Channel)
      ensures this.channel == channel
    {
      this.channel := channel;
    }

    method Respond(m: Message)
      modifies channel
      ensures channel.outbound == old(channel.outbound) + [m] && channel.open == old(channel.open)
    {
      channel.WriteAndFlush(m);
    }

    method RespondFinished(success: bool)
      modifies channel
      ensures channel.open == (old(channel.open) && success) && channel.outbound == old(channel.outbound)
    {
      if !success {
        channel.Close();
      }
    }

    /** processRpcRequest: the application answers with `replies` while it receives the request,
        and may then throw; every reply it gave is still sent, and so is the exception. */
    method ProcessRpcRequest(id: Id, replies: seq<Reply>, thrown: Option<string>)
      modifies channel
      ensures channel.open == old(channel.open)
      ensures var all := replies + if thrown.Some? then [Failure(thrown.value)] else [];
              AnswersFollow(channel.outbound, old(channel.outbound), id, all)
    {
      var i := 0;
      while i < |replies|
        invariant 0 <= i <= |replies| && channel.open == old(channel.open)
        invariant AnswersFollow(channel.outbound, old(channel.outbound), id, replies[..i])
      {
        Respond(RpcReply(id, replies[i]));
        i := i + 1;
      }
      assert replies[..|replies|] == replies;
      if thrown.Some? {
        Respond(RpcReply(id, Failure(thrown.value)));
      }
    }
  }

  /** `now` is `before` and then one reply message for each of the replies, in order, under this id. */
  ghost predicate AnswersFollow(now: seq<Message>, before: seq<Message>, id: Id, replies: seq<Reply>)
  {
    && |now| == |before| + |replies| && now[..|before|] == before
    && forall k :: 0 <= k < |replies| ==> now[|before| + k] == RpcReply(id, replies[k])
  }

  const REQUEST_TIMEOUT_NS := 120 * 1000 * 1000

  class TransportChannelHandler {
    const client: TransportClient
    const requestHandler: TransportRequestHandler
    const closeIdleConnections: bool

    constructor (client: TransportClient, requestHandler: TransportRequestHandler, closeIdleConnections: bool)
      ensures this.client == client && this.requestHandler == requestHandler
      ensures this.closeIdleConnections == closeIdleConnections
    {
      this.client, this.requestHandler, this.closeIdleConnections := client, requestHandler, closeIdleConnections;
    }

    /** channelRead of a response. */
    method ResponseRead(id: Id, reply: Reply)
      modifies client.handler`outstandingRpcs, client.handler.journal
      ensures client.End() == old(client.End()).Receive(id, reply)
    {
      client.handler.Handle(id, reply);
      assert client.handler.Over(client.End()) == old(client.handler.Over(client.End())).Receive(id, reply);
    }

    /** exceptionCaught: all outstanding requests fail, then the channel is closed. */
    method ExceptionCaught(cause: string) returns (ghost order: seq<Id>)
      modifies client.handler`outstandingRpcs, client.handler.journal, client.channel
      ensures Lists(order, old(client.End()).outstanding)
      ensures client.End() == old(client.End()).FailEntries(order, cause).Clear().Close()
    {
      order := client.handler.ExceptionCaught(cause);
      FailEntriesKeep(old(client.End()), order, cause);
      assert client.handler.Over(client.End())
          == old(client.handler.Over(client.End())).FailEntries(order, cause).Clear();
      client.channel.Close();
    }

    method ChannelInactive(cause: string) returns (ghost order: seq<Id>)
      modifies client.handler`outstandingRpcs, client.handler.journal
      ensures Lists(order, old(client.End()).outstanding)
      ensures client.End() == old(client.End()).FailEntries(order, cause).Clear()
    {
      order := client.handler.ExceptionCaught(cause);
      assert client.handler.Over(client.End())
          == old(client.handler.Over(client.End())).FailEntries(order, cause).Clear();
    }

    /** userEventTriggered: a connection quiet for too long is given up when requests are
        outstanding on it, or when idle connections are to be closed. */
    method UserEventTriggered(allIdle: bool, nanoTime: int)
      modifies client, client.channel
      ensures var quiet := allIdle && nanoTime - client.handler.timeOfLastRequestNs > REQUEST_TIMEOUT_NS;
              client.End() == if quiet && (client.handler.outstandingRpcs != map[] || closeIdleConnections)
                              then old(client.End()).(timedOut := true).Close() else old(client.End())
    {
      var isActuallyOverdue := nanoTime - client.handler.timeOfLastRequestNs > REQUEST_TIMEOUT_NS;
      if allIdle && isActuallyOverdue {
        var n := client.handler.NumOutstandingRequests();
        assert n == 0 ==> client.handler.outstandingRpcs == map[];
        if n > 0 {
          client.TimeOut();
          client.channel.Close();
        } else if closeIdleConnections {
          client.TimeOut();
          client.channel.Close();
        }
      }
    }
  }
}
