/** TimeReelHistory: how often a key was visited lately. A node does not keep all visits of its key,
    only a base time and the visits after it, and prunes them when the base is overdue. */
module TimeReel {
  import opened Wrappers

  /** A node's fields. */
  datatype Node = Node(lastValidTime: int, queue: seq<int>, removed: bool)

  function NewNode(now: int): Node { Node(now, [], false) }

  /** A node while it is polled, and whether the loop goes on. */
  datatype Polling = Polling(node: Node, goesOn: bool)

  /** One round of the loop of getEffectiveTime. When the base is not overdue it does nothing and goes
      on; otherwise it polls a visit, and stops when there is none or when the visit is live, which
      then becomes the base. */
  function Round(node: Node, now: int, validTime: int): Polling
  {
    if now - node.lastValidTime > validTime then
      if node.queue == [] then Polling(node, false)
      else
        var time, rest := node.queue[0], node.queue[1..];
        if now - time < validTime then Polling(node.(lastValidTime := time, queue := rest), false)
        else Polling(node.(queue := rest), true)
    else Polling(node, true)
  }

  /** The loop, for at most so many rounds. */
  function Poll(node: Node, now: int, validTime: int, rounds: nat): Polling
    decreases rounds
  {
    if rounds == 0 then Polling(node, true)
    else
      var r := Round(node, now, validTime);
      if r.goesOn then Poll(r.node, now, validTime, rounds - 1) else r
  }

  /** What the loop makes of a node whose base is overdue. */
  function Prune(node: Node, now: int, validTime: int): (r: Node)
    ensures r.removed == node.removed
    decreases |node.queue|
  {
    if node.queue == [] then node
    else
      var time, rest := node.queue[0], node.queue[1..];
      if now - time < validTime then node.(lastValidTime := time, queue := rest)
      else Prune(node.(queue := rest), now, validTime)
  }

  lemma {:induction false} PollPrunes(node: Node, now: int, validTime: int, rounds: nat)
    requires now - node.lastValidTime > validTime && rounds > |node.queue|
    ensures Poll(node, now, validTime, rounds) == Polling(Prune(node, now, validTime), false)
    decreases |node.queue|
  {
    var r := Round(node, now, validTime);
    if r.goesOn {
      PollPrunes(r.node, now, validTime, rounds - 1);
    }
  }

  lemma {:induction false} PollSpins(node: Node, now: int, validTime: int, rounds: nat)
    requires now - node.lastValidTime <= validTime
    ensures Poll(node, now, validTime, rounds) == Polling(node, true)
  {
    if rounds > 0 {
      PollSpins(node, now, validTime, rounds - 1);
    }
  }

  /** The loop ends, within one round more than the queue is long and with the node pruned, if and
      only if the base is overdue when it is entered; otherwise it goes round for ever and changes
      nothing. */
  lemma PollEndsExactlyWhenOverdue(node: Node, now: int, validTime: int)
    ensures (exists rounds: nat :: !Poll(node, now, validTime, rounds).goesOn) <==> now - node.lastValidTime > validTime
    ensures now - node.lastValidTime > validTime ==>
              Poll(node, now, validTime, |node.queue| + 1) == Polling(Prune(node, now, validTime), false)
    ensures now - node.lastValidTime <= validTime ==>
              forall rounds: nat :: Poll(node, now, validTime, rounds) == Polling(node, true)
  {
    if now - node.lastValidTime > validTime {
      PollPrunes(node, now, validTime, |node.queue| + 1);
    } else {
      forall rounds: nat ensures Poll(node, now, validTime, rounds) == Polling(node, true) {
        PollSpins(node, now, validTime, rounds);
      }
    }
  }

  /** A visit: None is the exception thrown by a removed node. */
  function Visit(node: Node, now: int, validTime: int): (r: (Node, Option<nat>))
    ensures r.0.removed == node.removed && (r.1.None? <==> node.removed)
  {
    if node.removed then (node, None)
    else
      var added := node.(queue := node.queue + [now]);
      var r := if now - node.lastValidTime > validTime then Prune(added, now, validTime) else added;
      (r, Some(|r.queue|))
  }

  /** What getEffectiveTime comes to: an exception, a time, or nothing yet. */
  datatype Effective = Removed | Time(time: int) | Spinning

  class NodeObject {
    var lastValidTime: int
    var visitTimeQueue: seq<int>
    var removed: bool

    ghost function Now(): Node
      reads this
    {
      Node(lastValidTime, visitTimeQueue, removed)
    }

    constructor (now: int)
      ensures Now() == NewNode(now)
    {
      lastValidTime, visitTimeQueue, removed := now, [], false;
    }

    method Remove()
      modifies this
      ensures Now() == old(Now()).(removed := true)
    {
      removed := true;
    }

    /** The loop, for at most so many rounds. */
    method GetEffectiveTime(newTime: int, validTime: int, rounds: nat) returns (time: Effective)
      modifies this
      ensures old(removed) ==> time == Removed && Now() == old(Now())
      ensures !old(removed) ==>
                var r := Poll(old(Now()), newTime, validTime, rounds);
                Now() == r.node && time == if r.goesOn then Spinning else Time(lastValidTime)
    {
      if removed {
        return Removed;
      }
      var left := rounds;
      while left > 0
        invariant !removed
        invariant Poll(Now(), newTime, validTime, left) == Poll(old(Now()), newTime, validTime, rounds)
      {
        left := left - 1;
        if newTime - lastValidTime > validTime {
          if visitTimeQueue == [] {
            return Time(lastValidTime);
          }
          var polled := visitTimeQueue[0];
          visitTimeQueue := visitTimeQueue[1..];
          if newTime - polled < validTime {
            lastValidTime := polled;
            return Time(lastValidTime);
          }
        }
      }
      return Spinning;
    }

    method AddAndGetCount(newTime: int, validTime: int) returns (count: Option<nat>)
      modifies this
      ensures Now() == Visit(old(Now()), newTime, validTime).0 && count == Visit(old(Now()), newTime, validTime).1
    {
      if removed {
        return None;
      }
      visitTimeQueue := visitTimeQueue + [newTime];
      if newTime - lastValidTime > validTime {
        PollPrunes(Now(), newTime, validTime, |visitTimeQueue| + 1);
        var _ := GetEffectiveTime(newTime, validTime, |visitTimeQueue| + 1);
      }
      return Some(|visitTimeQueue|);
    }

    method PutAndIsCache(newTime: int, validTime: int, hitNum: int) returns (hit: Option<bool>)
      modifies this
      ensures Now() == Visit(old(Now()), newTime, validTime).0
      ensures var count := Visit(old(Now()), newTime, validTime).1;
              hit == if count.None? then None else Some(count.value > hitNum)
    {
      if removed {
        return None;
      }
      visitTimeQueue := visitTimeQueue + [newTime];
      if newTime - lastValidTime > validTime {
        PollPrunes(Now(), newTime, validTime, |visitTimeQueue| + 1);
        var _ := GetEffectiveTime(newTime, validTime, |visitTimeQueue| + 1);
      }
      return Some(|visitTimeQueue| > hitNum);
    }
  }

  // ---- what pruning removes -----------------------------------------------------------------

  /** Pruning removes the visits before the first live one, and that one, which becomes the base; if
      none is live, it removes them all and leaves the base. */
  lemma {:induction false} PruneRemovesExpired(node: Node, now: int, validTime: int) returns (k: nat)
    ensures k <= |node.queue|
    ensures forall i :: 0 <= i < k ==> now - node.queue[i] >= validTime
    ensures k == |node.queue| ==> Prune(node, now, validTime) == node.(queue := [])
    ensures k < |node.queue| ==>
              && now - node.queue[k] < validTime
              && Prune(node, now, validTime) == node.(lastValidTime := node.queue[k], queue := node.queue[k + 1..])
    decreases |node.queue|
  {
    if node.queue == [] || now - node.queue[0] < validTime {
      k := 0;
    } else {
      var rest := node.queue[1..];
      var j := PruneRemovesExpired(node.(queue := rest), now, validTime);
      k := j + 1;
      assert forall i :: 0 <= i < |rest| ==> rest[i] == node.queue[i + 1];
      assert j < |rest| ==> rest[j + 1..] == node.queue[k + 1..];
    }
  }

  // ---- all visits ------------------------------------------------------------------------------

  /** How many of these visits are younger than `age`. */
  ghost function Younger(log: seq<int>, now: int, age: int): nat
  {
    if log == [] then 0 else (if now - log[0] < age then 1 else 0) + Younger(log[1..], now, age)
  }

  ghost predicate Sorted(log: seq<int>)
  {
    forall i, j :: 0 <= i < j < |log| ==> log[i] <= log[j]
  }

  /** The node of a key created at `created` and visited at all these times: its queue is the end of
      the log, from `from` on; its base is the visit before it, or the creation; what came before
      the base was expired at the last visit at the latest. */
  ghost predicate RemembersFrom(node: Node, created: int, log: seq<int>, validTime: int, from: nat)
  {
    && !node.removed && from <= |log| && node.queue == log[from..]
    && Sorted(log) && (forall i :: 0 <= i < |log| ==> created <= log[i])
    && node.lastValidTime == (if from == 0 then created else log[from - 1])
    && (forall i :: 0 <= i < from - 1 ==> log[|log| - 1] - log[i] >= validTime)
  }

  ghost predicate Remembers(node: Node, created: int, log: seq<int>, validTime: int)
  {
    |node.queue| <= |log| && RemembersFrom(node, created, log, validTime, |log| - |node.queue|)
  }

  lemma VisitKeeps(node: Node, created: int, log: seq<int>, now: int, validTime: int, from: nat)
    requires RemembersFrom(node, created, log, validTime, from)
    requires created <= now && forall i :: 0 <= i < |log| ==> log[i] <= now
    ensures RemembersFrom(node.(queue := node.queue + [now]), created, log + [now], validTime, from)
  {
    var log' := log + [now];
    assert node.queue + [now] == log'[from..];
    forall i | 0 <= i < from - 1 ensures log'[|log|] - log'[i] >= validTime {
      assert log[|log| - 1] <= now;
    }
  }

  lemma PruneKeeps(node: Node, created: int, log: seq<int>, validTime: int, from: nat, k: nat)
    requires RemembersFrom(node, created, log, validTime, from) && k < |node.queue|
    requires log[|log| - 1] - node.lastValidTime >= validTime
    requires forall i :: 0 <= i < k ==> log[|log| - 1] - node.queue[i] >= validTime
    ensures RemembersFrom(node.(lastValidTime := node.queue[k], queue := node.queue[k + 1..]), created, log,
                          validTime, from + k + 1)
  {
    assert node.queue[k + 1..] == log[from + k + 1..];
    forall i | 0 <= i < from + k ensures log[|log| - 1] - log[i] >= validTime {
      if i >= from {
        assert node.queue[i - from] == log[i];
      } else {
        assert log[i] <= log[from - 1];
      }
    }
  }

  lemma OverdueVisit(node: Node, created: int, log: seq<int>, now: int, validTime: int, from: nat)
    requires validTime > 0 && RemembersFrom(node, created, log, validTime, from) && node.queue != []
    requires log[|log| - 1] == now && now - node.lastValidTime > validTime
    ensures var r := Prune(node, now, validTime);
            Remembers(r, created, log, validTime) && now - r.lastValidTime < validTime
  {
    var k := PruneRemovesExpired(node, now, validTime);
    assert k < |node.queue| by {
      assert node.queue[|node.queue| - 1] == log[|log| - 1];
    }
    PruneKeeps(node, created, log, validTime, from, k);
  }

  /** A visit is remembered, and leaves a base that is not overdue. */
  lemma VisitRemembers(node: Node, created: int, log: seq<int>, now: int, validTime: int)
    requires validTime > 0 && Remembers(node, created, log, validTime)
    requires created <= now && forall i :: 0 <= i < |log| ==> log[i] <= now
    ensures var (r, count) := Visit(node, now, validTime);
            && Remembers(r, created, log + [now], validTime)
            && count == Some(|r.queue|) && now - r.lastValidTime <= validTime
  {
    var from := |log| - |node.queue|;
    VisitKeeps(node, created, log, now, validTime, from);
    if now - node.lastValidTime > validTime {
      OverdueVisit(node.(queue := node.queue + [now]), created, log + [now], now, validTime, from);
    }
  }

  lemma {:induction false} YoungerConcat(a: seq<int>, b: seq<int>, now: int, age: int)
    ensures Younger(a + b, now, age) == Younger(a, now, age) + Younger(b, now, age)
  {
    if a == [] {
      assert a + b == b;
    } else {
      assert (a + b)[1..] == a[1..] + b;
      YoungerConcat(a[1..], b, now, age);
    }
  }

  lemma {:induction false} YoungerExtremes(log: seq<int>, now: int, age: int)
    ensures Younger(log, now, age) <= |log|
    ensures Younger(log, now, age) == |log| <==> forall i :: 0 <= i < |log| ==> now - log[i] < age
    ensures (forall i :: 0 <= i < |log| ==> now - log[i] >= age) ==> Younger(log, now, age) == 0
  {
    if log != [] {
      var rest := log[1..];
      YoungerExtremes(rest, now, age);
      assert forall i :: 0 <= i < |rest| ==> rest[i] == log[i + 1];
      assert forall i :: 0 < i < |log| ==> log[i] == rest[i - 1];
    }
  }

  /** The base is a visit that is still live. */
  ghost predicate BaseIsLive(node: Node, log: seq<int>, now: int, validTime: int)
  {
    |node.queue| < |log| && now - node.lastValidTime < validTime
  }

  /** The base is no live visit, and no visit in the queue is exactly as old as `validTime`. */
  ghost predicate IsExact(node: Node, log: seq<int>, now: int, validTime: int)
  {
    !BaseIsLive(node, log, now, validTime) && forall i :: 0 <= i < |node.queue| ==> now - node.queue[i] != validTime
  }

  /** The visits up to the base: only the base itself can be live. */
  lemma YoungerBefore(past: seq<int>, now: int, validTime: int)
    requires past != [] && forall i :: 0 <= i < |past| - 1 ==> now - past[i] >= validTime
    ensures Younger(past, now, validTime) == if now - past[|past| - 1] < validTime then 1 else 0
  {
    var gone, base := past[..|past| - 1], [past[|past| - 1]];
    assert past == gone + base;
    YoungerConcat(gone, base, now, validTime);
    YoungerExtremes(gone, now, validTime);
    assert base[1..] == [];
  }

  lemma QueueIsAfterBase(node: Node, created: int, log: seq<int>, validTime: int, from: nat)
    requires RemembersFrom(node, created, log, validTime, from)
    ensures forall i :: 0 <= i < |node.queue| ==> node.lastValidTime <= node.queue[i]
  {
    forall i | 0 <= i < |node.queue| ensures node.lastValidTime <= node.queue[i] {
      assert node.queue[i] == log[from + i];
    }
  }

  lemma SplitAtBase(node: Node, created: int, log: seq<int>, now: int, validTime: int, from: nat)
    requires log != [] && log[|log| - 1] == now && RemembersFrom(node, created, log, validTime, from)
    ensures Younger(log, now, validTime)
         == Younger(node.queue, now, validTime) + if BaseIsLive(node, log, now, validTime) then 1 else 0
    ensures Younger(log, now, validTime + 1) >= Younger(node.queue, now, validTime + 1)
  {
    assert log == log[..from] + node.queue;
    YoungerConcat(log[..from], node.queue, now, validTime);
    YoungerConcat(log[..from], node.queue, now, validTime + 1);
    if from > 0 {
      YoungerBefore(log[..from], now, validTime);
    }
  }

  lemma CountIsBounded(node: Node, created: int, log: seq<int>, now: int, validTime: int, from: nat)
    requires log != [] && log[|log| - 1] == now
    requires RemembersFrom(node, created, log, validTime, from) && now - node.lastValidTime <= validTime
    ensures Younger(log, now, validTime) - 1 <= |node.queue| <= Younger(log, now, validTime + 1)
  {
    SplitAtBase(node, created, log, now, validTime, from);
    QueueIsAfterBase(node, created, log, validTime, from);
    YoungerExtremes(node.queue, now, validTime);
    YoungerExtremes(node.queue, now, validTime + 1);
  }

  lemma CountIsExactWhen(node: Node, created: int, log: seq<int>, now: int, validTime: int, from: nat)
    requires log != [] && log[|log| - 1] == now
    requires RemembersFrom(node, created, log, validTime, from) && now - node.lastValidTime <= validTime
    ensures |node.queue| == Younger(log, now, validTime) <==> IsExact(node, log, now, validTime)
  {
    SplitAtBase(node, created, log, now, validTime, from);
    QueueIsAfterBase(node, created, log, validTime, from);
    YoungerExtremes(node.queue, now, validTime);
  }

  /** Of all visits, those counted are the queue; the base may be missed and nothing else that is
      live, and what is counted without being live is exactly as old as `validTime`. */
  lemma CountIsClose(node: Node, created: int, log: seq<int>, now: int, validTime: int)
    requires log != [] && log[|log| - 1] == now
    requires Remembers(node, created, log, validTime) && now - node.lastValidTime <= validTime
    ensures Younger(log, now, validTime) - 1 <= |node.queue| <= Younger(log, now, validTime + 1)
    ensures |node.queue| == Younger(log, now, validTime) <==> IsExact(node, log, now, validTime)
  {
    CountIsBounded(node, created, log, now, validTime, |log| - |node.queue|);
    CountIsExactWhen(node, created, log, now, validTime, |log| - |node.queue|);
  }

  // ---- the whole history -----------------------------------------------------------------------

  /** getNode: a key seen for the first time gets a node, created at the clock reading `created`. */
  function GetNode<K>(table: map<K, Node>, key: K, created: int): Node
  {
    if key in table then table[key] else NewNode(created)
  }

  datatype Op<K> = Put(key: K, created: int, now: int) | Clear

  function Do<K>(table: map<K, Node>, op: Op<K>, validTime: int): map<K, Node>
  {
    match op
    case Put(key, created, now) => table[key := Visit(GetNode(table, key, created), now, validTime).0]
    case Clear => map[]
  }

  function DoAll<K>(table: map<K, Node>, ops: seq<Op<K>>, validTime: int): map<K, Node>
    decreases |ops|
  {
    if ops == [] then table else DoAll(Do(table, ops[0], validTime), ops[1..], validTime)
  }

  /** What is told to the caller of putAndCount. */
  function Count<K>(table: map<K, Node>, key: K, created: int, now: int, validTime: int): Option<nat>
  {
    Visit(GetNode(table, key, created), now, validTime).1
  }

  /** The clock never goes back, and stands at `clock` before and at most at `later` after. */
  ghost predicate Clocked<K>(ops: seq<Op<K>>, clock: int, later: int)
    decreases |ops|
  {
    if ops == [] then clock <= later
    else if ops[0].Clear? then Clocked(ops[1..], clock, later)
    else clock <= ops[0].created <= ops[0].now && Clocked(ops[1..], ops[0].now, later)
  }

  /** All visits of a key since the history was last cleared. */
  ghost function Visits<K>(log: seq<int>, key: K, ops: seq<Op<K>>): seq<int>
    decreases |ops|
  {
    if ops == [] then log
    else if ops[0].Clear? then Visits([], key, ops[1..])
    else Visits(if ops[0].key == key then log + [ops[0].now] else log, key, ops[1..])
  }

  /** The node of a key, if it has one, remembers these visits. */
  ghost predicate Tracks<K>(table: map<K, Node>, key: K, log: seq<int>, created: int, clock: int, validTime: int)
  {
    && (forall i :: 0 <= i < |log| ==> log[i] <= clock)
    && (if key in table then created <= clock && Remembers(table[key], created, log, validTime) else log == [])
  }

  lemma StepStores<K>(table: map<K, Node>, key: K, log: seq<int>, since: int, validTime: int, op: Op<K>, node: Node)
    requires op.Put? && op.key == key && since <= op.now && forall i :: 0 <= i < |log| ==> log[i] <= op.now
    requires node == Visit(GetNode(table, key, op.created), op.now, validTime).0
    requires Remembers(node, since, log + [op.now], validTime)
    ensures Tracks(Do(table, op, validTime), key, log + [op.now], since, op.now, validTime)
  {
    assert Do(table, op, validTime) == table[key := node];
  }

  lemma StepTracks<K>(table: map<K, Node>, key: K, log: seq<int>, created: int, clock: int, validTime: int, op: Op<K>)
    requires validTime > 0 && op.Put? && op.key == key && clock <= op.created <= op.now
    requires Tracks(table, key, log, created, clock, validTime)
    ensures Tracks(Do(table, op, validTime), key, log + [op.now], if key in table then created else op.created,
                   op.now, validTime)
  {
    var since, node := if key in table then created else op.created, GetNode(table, key, op.created);
    assert Remembers(node, since, log, validTime);
    VisitRemembers(node, since, log, op.now, validTime);
    StepStores(table, key, log, since, validTime, op, Visit(node, op.now, validTime).0);
  }

  lemma {:induction false} RunTracks<K>(table: map<K, Node>, key: K, log: seq<int>, created: int, clock: int,
                                        validTime: int, ops: seq<Op<K>>, later: int)
    returns (since: int)
    requires validTime > 0 && Clocked(ops, clock, later) && Tracks(table, key, log, created, clock, validTime)
    ensures Tracks(DoAll(table, ops, validTime), key, Visits(log, key, ops), since, later, validTime)
    decreases |ops|
  {
    if ops == [] {
      since := created;
    } else if ops[0].Clear? {
      since := RunTracks(map[], key, [], created, clock, validTime, ops[1..], later);
    } else if ops[0].key == key {
      StepTracks(table, key, log, created, clock, validTime, ops[0]);
      since := RunTracks(Do(table, ops[0], validTime), key, log + [ops[0].now],
                         if key in table then created else ops[0].created,
                         ops[0].now, validTime, ops[1..], later);
    } else {
      since := RunTracks(Do(table, ops[0], validTime), key, log, created, ops[0].now, validTime, ops[1..], later);
    }
  }

  /** What is told for a visit, given all visits with this one, is close to the truth. */
  ghost predicate IsClose(count: nat, node: Node, visits: seq<int>, now: int, validTime: int)
  {
    && Younger(visits, now, validTime) - 1 <= count <= Younger(visits, now, validTime + 1)
    && (count == Younger(visits, now, validTime) <==> IsExact(node, visits, now, validTime))
  }

  lemma NodeCounts(node: Node, created: int, log: seq<int>, now: int, validTime: int)
    requires validTime > 0 && Remembers(node, created, log, validTime)
    requires created <= now && forall i :: 0 <= i < |log| ==> log[i] <= now
    ensures var (r, count) := Visit(node, now, validTime);
            count.Some? && IsClose(count.value, r, log + [now], now, validTime)
  {
    VisitRemembers(node, created, log, now, validTime);
    CountIsClose(Visit(node, now, validTime).0, created, log + [now], now, validTime);
  }

  /** The sliding window, over every run of visits to any keys and of clearings, under a clock that
      never goes back: the count told for a visit is at least the number of the key's visits since
      the last clearing that are younger than `validTime`, less one, and at most the number of those
      not older than it. It is exactly the number of live visits if and only if the node's base is
      no live visit and no visit in its queue is exactly as old as `validTime`. */
  lemma CountsAreClose<K>(ops: seq<Op<K>>, clock: int, key: K, created: int, now: int, validTime: int)
    requires validTime > 0 && Clocked(ops, clock, created) && created <= now
    ensures var table := DoAll<K>(map[], ops, validTime);
            var (node, count) := Visit(GetNode(table, key, created), now, validTime);
            count.Some? && IsClose(count.value, node, Visits([], key, ops) + [now], now, validTime)
  {
    var table := DoAll<K>(map[], ops, validTime);
    var log := Visits([], key, ops);
    var since := RunTracks(map[], key, [], clock, clock, validTime, ops, created);
    var node, from := GetNode(table, key, created), if key in table then since else created;
    assert Remembers(node, from, log, validTime);
    NodeCounts(node, from, log, now, validTime);
  }

  /** A key is a hit only with more than `hitNum` visits not older than `validTime`, and always with
      more than `hitNum` + 1 live ones. */
  lemma HitsAreClose<K>(ops: seq<Op<K>>, clock: int, key: K, created: int, now: int, validTime: int, hitNum: int)
    requires validTime > 0 && Clocked(ops, clock, created) && created <= now
    ensures var count := Count(DoAll<K>(map[], ops, validTime), key, created, now, validTime);
            var visits := Visits([], key, ops) + [now];
            && count.Some?
            && (count.value > hitNum ==> Younger(visits, now, validTime + 1) > hitNum)
            && (Younger(visits, now, validTime) > hitNum + 1 ==> count.value > hitNum)
  {
    CountsAreClose(ops, clock, key, created, now, validTime);
  }

  /** Both bounds are reached: a node may count one live visit less, and may count a visit that is
      just not live. */
  lemma BoundsAreReached()
    ensures Visit(Visit(NewNode(0), 5, 10).0, 11, 10).1 == Some(1) && Younger([5, 11], 11, 10) == 2
    ensures Visit(Visit(NewNode(5), 5, 10).0, 15, 10).1 == Some(2) && Younger([5, 15], 15, 10) == 1
  {
    var once := Visit(NewNode(0), 5, 10).0;
    assert once.queue == [5];
    assert (once.queue + [11])[1..] == [11];
    assert [5, 11][1..] == [11] && [5, 15][1..] == [15];
    assert Younger([11], 11, 10) == 1 && Younger([15], 15, 10) == 1;
  }

  class TimeReelHistory<K(==)> {
    const validTime: int
    const hitNum: int
    var hashMap: map<K, NodeObject>

    ghost function Table(): map<K, Node>
      reads this, hashMap.Values
    {
      map key | key in hashMap :: hashMap[key].Now()
    }

    /** Each key has a node of its own, and no node in the table has been removed. */
    ghost predicate Ok()
      reads this, hashMap.Values
    {
      && (forall k, l :: k in hashMap && l in hashMap && k != l ==> hashMap[k] != hashMap[l])
      && (forall k :: k in hashMap ==> !hashMap[k].removed)
    }

    constructor (validTime: int, hitNum: int)
      ensures Ok() && Table() == map[] && this.validTime == validTime && this.hitNum == hitNum
    {
      this.validTime, this.hitNum := validTime, hitNum;
      hashMap := map[];
    }

    method NodeOf(key: K, created: int) returns (node: NodeObject)
      requires Ok()
      modifies this
      ensures Ok() && key in hashMap && hashMap[key] == node && (node in old(hashMap.Values) || fresh(node))
      ensures hashMap.Keys == old(hashMap.Keys) + {key}
      ensures forall k :: k in old(hashMap) ==> hashMap[k] == old(hashMap[k])
      ensures Table() == old(Table())[key := GetNode(old(Table()), key, created)]
    {
      if key in hashMap {
        node := hashMap[key];
      } else {
        node := new NodeObject(created);
        hashMap := hashMap[key := node];
      }
    }

    method PutAndCount(key: K, created: int, now: int) returns (count: nat)
      requires Ok()
      modifies this, hashMap.Values
      ensures Ok() && Table() == Do(old(Table()), Put(key, created, now), validTime)
      ensures Some(count) == Count(old(Table()), key, created, now, validTime)
    {
      var node := NodeOf(key, created);
      assert Table()[key] == node.Now();
      var result := node.AddAndGetCount(now, validTime);
      count := result.value;
    }

    method PutAndIsCache(key: K, created: int, now: int) returns (hit: bool)
      requires Ok()
      modifies this, hashMap.Values
      ensures Ok() && Table() == Do(old(Table()), Put(key, created, now), validTime)
      ensures hit == (Count(old(Table()), key, created, now, validTime).value > hitNum)
    {
      var node := NodeOf(key, created);
      assert Table()[key] == node.Now();
      var result := node.PutAndIsCache(now, validTime, hitNum);
      hit := result.value;
    }

    method ClearAll()
      requires Ok()
      modifies this
      ensures Ok() && Table() == Do(old(Table()), Clear, validTime)
    {
      hashMap := map[];
    }
  }
}