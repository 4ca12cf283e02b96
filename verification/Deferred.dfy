/** jQuery.Deferred: two lists of callbacks that fire once and remember, a list of progress
    callbacks, and a state. The functions that change the state, disable the other list and lock
    the progress list stand first on the two lists. */
module Deferreds {
  import opened Wrappers
  import opened Callbacks
  import opened CallbackRuns

  datatype Side = Done | Fail

  datatype Status = Pending | Resolved | Rejected

  /** What can stand on a list: the functions of the deferred itself, and those of its users. */
  datatype Fn<U> = SetState(side: Side) | DisableOther(side: Side) | LockProgress | User(fn: U)

  datatype Deferred<U> = Deferred(status: Status, done: State<Fn<U>>, fail: State<Fn<U>>, progress: State<Fn<U>>)

  const ONCE_MEMORY := Options(true, true, false, false)
  const MEMORY := Options(false, true, false, false)

  function Other(side: Side): Side { if side == Done then Fail else Done }

  /** The state a deferred is in once this side has been fired. */
  function Final(side: Side): Status { if side == Done then Resolved else Rejected }

  function Of<U>(d: Deferred<U>, side: Side): State<Fn<U>> { if side == Done then d.done else d.fail }

  function With<U>(d: Deferred<U>, side: Side, s: State<Fn<U>>): Deferred<U>
  {
    if side == Done then d.(done := s) else d.(fail := s)
  }

  function BuiltIns<U>(side: Side): seq<Fn<U>> { [SetState(side), DisableOther(side), LockProgress] }

  function Users<U>(fns: seq<U>): (r: seq<Fn<U>>)
    ensures |r| == |fns|
  {
    seq(|fns|, i requires 0 <= i < |fns| => User(fns[i]))
  }

  function NewDeferred<U(==)>(): Deferred<U>
  {
    Deferred(Pending, Add(New(ONCE_MEMORY), BuiltIns<U>(Done)), Add(New(ONCE_MEMORY), BuiltIns<U>(Fail)), New(MEMORY))
  }

  predicate Proper<U>(d: Deferred<U>)
  {
    Valid(d.done) && Valid(d.fail) && Valid(d.progress) && d.done.stack.None? && d.fail.stack.None?
  }

  function Left<F>(s: State<F>): nat
  {
    if !s.firing then 0 else if s.firingIndex < s.firingLength then 1 + s.firingLength - s.firingIndex else 1
  }

  lemma ReturnLeavesLess<F>(s: State<F>)
    requires Valid(s) && s.firing && s.stack.None?
    ensures Left(Return(s, true)) < Left(s)
  {
    var s' := s.(firingIndex := s.firingIndex + 1);
    assert !EndPass(s').firing;
    assert Return(s, true) == Loop(s');
  }

  function BuiltInEffect<U>(d: Deferred<U>, fn: Fn<U>): (r: Deferred<U>)
    requires Proper(d) && !fn.User?
    ensures Proper(r)
    ensures forall side :: Left(Of(r, side)) == Left(Of(d, side)) && Of(r, side).firing == Of(d, side).firing
  {
    match fn
    case SetState(side) => d.(status := Final(side))
    case DisableOther(side) => With(d, Other(side), Disable(Of(d, Other(side))))
    case LockProgress => d.(progress := Lock(d.progress))
  }

  /** Carries out the deferred's own functions, as long as the function being called is one. */
  function RunBuiltIns<U>(d: Deferred<U>, side: Side): (r: Deferred<U>)
    requires Proper(d)
    ensures Proper(r)
    decreases Left(Of(d, side))
  {
    var current := Current(Of(d, side));
    if current.None? || current.value.User? then d
    else
      var d' := BuiltInEffect(d, current.value);
      ReturnLeavesLess(Of(d', side));
      RunBuiltIns(With(d', side, Return(Of(d', side), true)), side)
  }

  // ---- operations --------------------------------------------------------------------------

  datatype Op<U> =
    | Settle(side: Side, args: Args)
    | AddTo(side: Side, fns: seq<U>)
    | ReturnFrom(side: Side, value: bool)
    | Notify(args: Args)
    | AddProgress(fns: seq<U>)
    | ReturnProgress(value: bool)

  predicate CanDo<U>(d: Deferred<U>, op: Op<U>)
  {
    && (op.ReturnFrom? ==> Of(d, op.side).firing)
    && (op.ReturnProgress? ==> d.progress.firing)
  }

  function DoOn<U(==)>(d: Deferred<U>, op: Op<U>): (r: Deferred<U>)
    requires Proper(d) && CanDo(d, op)
    ensures Proper(r)
  {
    match op
    case Settle(side, args) => RunBuiltIns(With(d, side, FireWith(Of(d, side), args)), side)
    case AddTo(side, fns) => RunBuiltIns(With(d, side, Add(Of(d, side), Users(fns))), side)
    case ReturnFrom(side, value) => RunBuiltIns(With(d, side, Return(Of(d, side), value)), side)
    case Notify(args) => d.(progress := FireWith(d.progress, args))
    case AddProgress(fns) => d.(progress := Add(d.progress, Users(fns)))
    case ReturnProgress(value) => d.(progress := Return(d.progress, value))
  }

  predicate IsHistory<U(==)>(d: Deferred<U>, ops: seq<Op<U>>)
    requires Proper(d)
    decreases |ops|
  {
    ops == [] || (CanDo(d, ops[0]) && IsHistory(DoOn(d, ops[0]), ops[1..]))
  }

  function Outcome<U(==)>(d: Deferred<U>, ops: seq<Op<U>>): (r: Deferred<U>)
    requires Proper(d) && IsHistory(d, ops)
    ensures Proper(r)
    decreases |ops|
  {
    if ops == [] then d else Outcome(DoOn(d, ops[0]), ops[1..])
  }

  // ---- one side ------------------------------------------------------------------------------

  function Entries<F>(fns: seq<F>, serial: nat): (r: seq<Entry<F>>)
    ensures |r| == |fns|
  {
    seq(|fns|, i requires 0 <= i < |fns| => Entry(fns[i], serial + i))
  }

  /** These functions, called in this order with these arguments. */
  function CallsOf<F>(fns: seq<F>, args: Args): (r: seq<Call<F>>)
    ensures |r| == |fns|
  {
    seq(|fns|, i requires 0 <= i < |fns| => Call(Entry(fns[i], i), args))
  }

  lemma {:induction false} PushAppends<F>(list: seq<Entry<F>>, fns: seq<F>, serial: nat)
    ensures Push(list, fns, false, serial) == list + Entries(fns, serial)
    decreases |fns|
  {
    if fns == [] {
      assert list + Entries(fns, serial) == list;
    } else {
      PushAppends(list + [Entry(fns[0], serial)], fns[1..], serial + 1);
      assert list + [Entry(fns[0], serial)] + Entries(fns[1..], serial + 1) == list + Entries(fns, serial);
    }
  }

  /** Not fired yet, with these functions added. */
  ghost predicate Waiting<F>(s: State<F>, added: seq<F>)
  {
    && s.options == ONCE_MEMORY && s.stack.None? && s.memory.None? && !s.fired && !s.firing && s.calls == []
    && s.list == Some(Entries(added, 0)) && s.nextSerial == |added|
  }

  /** Fired: the first `n` of the functions added have been called, and the others are on the list;
      when the list rests, all have been called. */
  ghost predicate Serving<F>(s: State<F>, added: seq<F>, args: Args, n: nat)
  {
    && s.options == ONCE_MEMORY && s.stack.None? && s.memory == Some(args) && s.fired
    && s.nextSerial == |added| && n <= |added| && s.calls == CallsOf(added[..n], args)
    && (if s.firing then
          && s.pass.args == args && n > 0 && s.list.Some? && s.firingLength == |s.list.value|
          && |added| - n == s.firingLength - s.firingIndex - 1 && 0 <= s.firingIndex && s.firingLength <= |added|
          && s.list.value == Entries(added[|added| - s.firingLength..], |added| - s.firingLength)
        else
          s.list == Some([]) && n == |added|)
  }

  lemma AddWaits<F>(s: State<F>, added: seq<F>, fns: seq<F>)
    requires Waiting(s, added)
    ensures Waiting(Add(s, fns), added + fns)
  {
    PushAppends(s.list.value, fns, s.nextSerial);
    assert Entries(added, 0) + Entries(fns, |added|) == Entries(added + fns, 0);
  }

  /** Calling the next function: the pass is at position `k`. */
  lemma CallNext<F>(s: State<F>, added: seq<F>, args: Args, n: nat)
    requires s.options == ONCE_MEMORY && s.stack.None? && s.memory == Some(args) && s.fired && s.firing
    requires s.pass.args == args
    requires s.nextSerial == |added| && n < |added| && s.calls == CallsOf(added[..n], args)
    requires s.list.Some? && s.firingLength == |s.list.value| <= |added| && 0 <= s.firingIndex
    requires |added| - n == s.firingLength - s.firingIndex
    requires s.list.value == Entries(added[|added| - s.firingLength..], |added| - s.firingLength)
    ensures Serving(Loop(s), added, args, n + 1) && Loop(s).firing
  {
    assert s.list.value[s.firingIndex] == Entry(added[n], n);
    assert CallsOf(added[..n], args) + [Call(Entry(added[n], n), args)] == CallsOf(added[..n + 1], args);
  }

  lemma FireServes<F>(s: State<F>, added: seq<F>, args: Args)
    requires Waiting(s, added) && added != []
    ensures Serving(FireWith(s, args), added, args, 1) && FireWith(s, args).firing
  {
    assert added[0..] == added && CallsOf(added[..0], args) == [];
    var s' := s.(accepted := s.accepted + [args], begun := s.begun + [args], memory := Some(args), fired := true,
                 firing := true, firingIndex := 0, firingLength := |s.list.value|,
                 pass := Pass(args, s.list.value[0].serial, 0));
    assert FireWith(s, args) == Loop(s');
    CallNext(s', added, args, 0);
  }

  lemma ReturnServes<F>(s: State<F>, added: seq<F>, args: Args, n: nat, value: bool)
    requires Serving(s, added, args, n) && s.firing && Valid(s)
    ensures n < |added| ==> Serving(Return(s, value), added, args, n + 1) && Return(s, value).firing
    ensures n == |added| ==> Serving(Return(s, value), added, args, n) && !Return(s, value).firing
  {
    var s' := s.(firingIndex := s.firingIndex + 1);
    assert Return(s, value) == Loop(s');
    if n < |added| {
      CallNext(s', added, args, n);
    } else {
      assert Loop(s') == EndPass(s');
    }
  }

  /** Functions added during a pass are called in it. */
  lemma AddDuring<F>(s: State<F>, added: seq<F>, args: Args, n: nat, fns: seq<F>)
    requires Serving(s, added, args, n) && s.firing && Valid(s)
    ensures Serving(Add(s, fns), added + fns, args, n) && Add(s, fns).firing
  {
    var all := added + fns;
    var base := |added| - s.firingLength;
    PushAppends(s.list.value, fns, s.nextSerial);
    assert all[..n] == added[..n];
    assert Entries(added[base..], base) + Entries(fns, |added|) == Entries(all[base..], base);
  }

  /** The pass over functions added to a resting list. */
  lemma PassOverAdded<F>(s: State<F>, added: seq<F>, args: Args, fns: seq<F>, s': State<F>)
    requires Serving(s, added, args, |added|) && !s.firing
    requires s' == s.(list := Some(Entries(fns, |added|)), nextSerial := |added| + |fns|, firingIndex := 0,
                      firingLength := |fns|, firing := true, pass := s'.pass)
    requires s'.pass.args == args
    ensures if fns == [] then Serving(Loop(s'), added + fns, args, |added|) && !Loop(s').firing
            else Serving(Loop(s'), added + fns, args, |added| + 1) && Loop(s').firing
  {
    var all := added + fns;
    assert all[..|added|] == added[..|added|];
    assert all[|added|..] == fns;
    if fns == [] {
      assert all == added;
      assert Loop(s') == EndPass(s');
    } else {
      CallNext(s', all, args, |added|);
    }
  }

  /** Functions added to a resting list that has been fired are called at once. */
  lemma AddAfter<F>(s: State<F>, added: seq<F>, args: Args, fns: seq<F>)
    requires Serving(s, added, args, |added|) && !s.firing && Valid(s)
    ensures if fns == [] then Serving(Add(s, fns), added + fns, args, |added|) && !Add(s, fns).firing
            else Serving(Add(s, fns), added + fns, args, |added| + 1) && Add(s, fns).firing
  {
    var list := Entries(fns, |added|);
    PushAppends(s.list.value, fns, s.nextSerial);
    assert [] + list == list;
    var from := if 0 < |list| then list[0].serial else |added| + |fns|;
    var s' := s.(list := Some(list), nextSerial := |added| + |fns|, memory := Some(args), fired := true,
                 firingIndex := 0, firingLength := |list|, firing := true, pass := Pass(args, from, |s.calls|));
    assert Add(s, fns) == Loop(s');
    PassOverAdded(s, added, args, fns, s');
  }

  /** Disabled before it was fired. */
  ghost predicate Dead<F>(s: State<F>)
  {
    s.list.None? && s.stack.None? && !s.firing && s.calls == []
  }

  // ---- the deferred --------------------------------------------------------------------------

  function AllOn<U>(side: Side, fns: seq<U>): (r: seq<Fn<U>>)
    ensures |r| == 3 + |fns|
  {
    BuiltIns(side) + Users(fns)
  }

  lemma AddOn<U>(side: Side, fns: seq<U>, more: seq<U>)
    ensures AllOn(side, fns) + Users(more) == AllOn(side, fns + more)
  {
  }

  /** Nothing has been fired; these are the functions added to either side. */
  ghost predicate IsPending<U>(d: Deferred<U>, done: seq<U>, fail: seq<U>)
  {
    d.status == Pending && Waiting(d.done, AllOn(Done, done)) && Waiting(d.fail, AllOn(Fail, fail))
  }

  /** Settled on this side with these arguments; of the functions added to it, `called` have been
      called. The other side is dead. */
  ghost predicate IsSettled<U>(d: Deferred<U>, side: Side, args: Args, fns: seq<U>, called: nat)
  {
    && d.status == Final(side)
    && Serving(Of(d, side), AllOn(side, fns), args, 3 + called)
    && (called == 0 ==> !Of(d, side).firing)
    && Dead(Of(d, Other(side)))
  }

  lemma ServingCurrent<F>(s: State<F>, added: seq<F>, args: Args, n: nat)
    requires Serving(s, added, args, n) && s.firing
    ensures Current(s) == Some(added[n - 1])
  {
    assert s.calls[n - 1] == CallsOf(added[..n], args)[n - 1];
  }

  /** One function of the deferred itself is carried out, and the next function is called. */
  lemma RunOne<U>(d: Deferred<U>, side: Side, added: seq<Fn<U>>, args: Args, n: nat, d': Deferred<U>)
    requires Proper(d) && Serving(Of(d, side), added, args, n) && Of(d, side).firing && !added[n - 1].User?
    requires d' == BuiltInEffect(d, added[n - 1]) && Of(d', side) == Of(d, side)
    ensures var s := Return(Of(d', side), true);
            && RunBuiltIns(d, side) == RunBuiltIns(With(d', side, s), side)
            && (if n < |added| then Serving(s, added, args, n + 1) && s.firing
                else Serving(s, added, args, n) && !s.firing)
  {
    ServingCurrent(Of(d, side), added, args, n);
    ReturnServes(Of(d, side), added, args, n, true);
  }

  lemma RunNone<U>(d: Deferred<U>, side: Side, added: seq<Fn<U>>, args: Args, n: nat)
    requires Proper(d) && Serving(Of(d, side), added, args, n)
    requires Of(d, side).firing ==> added[n - 1].User?
    ensures RunBuiltIns(d, side) == d
  {
    if Of(d, side).firing {
      ServingCurrent(Of(d, side), added, args, n);
    }
  }

  /** What settling comes to. */
  ghost predicate Settles<U>(r: Deferred<U>, d: Deferred<U>, side: Side, args: Args, fns: seq<U>)
    requires Valid(d.progress)
  {
    IsSettled(r, side, args, fns, if fns == [] then 0 else 1) && r.progress == Lock(d.progress)
  }

  lemma LocksProgress<U>(d: Deferred<U>, side: Side, args: Args, fns: seq<U>)
    requires Proper(d) && d.status == Final(side) && Dead(Of(d, Other(side)))
    requires Serving(Of(d, side), AllOn(side, fns), args, 3) && Of(d, side).firing
    ensures Settles(RunBuiltIns(d, side), d, side, args, fns)
  {
    var d' := d.(progress := Lock(d.progress));
    RunOne(d, side, AllOn(side, fns), args, 3, d');
    RunNone(With(d', side, Return(Of(d', side), true)), side, AllOn(side, fns), args, if fns == [] then 3 else 4);
  }

  lemma DisablesOther<U>(d: Deferred<U>, side: Side, args: Args, fns: seq<U>)
    requires Proper(d) && d.status == Final(side) && Dead(Disable(Of(d, Other(side))))
    requires Serving(Of(d, side), AllOn(side, fns), args, 2) && Of(d, side).firing
    ensures Settles(RunBuiltIns(d, side), d, side, args, fns)
  {
    var d' := With(d, Other(side), Disable(Of(d, Other(side))));
    RunOne(d, side, AllOn(side, fns), args, 2, d');
    LocksProgress(With(d', side, Return(Of(d', side), true)), side, args, fns);
  }

  /** The three functions at the head of the list do their work before any other is called. */
  lemma SettlesAtOnce<U>(d: Deferred<U>, side: Side, args: Args, fns: seq<U>)
    requires Proper(d) && d.status == Pending && Dead(Disable(Of(d, Other(side))))
    requires Serving(Of(d, side), AllOn(side, fns), args, 1) && Of(d, side).firing
    ensures Settles(RunBuiltIns(d, side), d, side, args, fns)
  {
    var d' := d.(status := Final(side));
    RunOne(d, side, AllOn(side, fns), args, 1, d');
    var next := With(d', side, Return(Of(d', side), true));
    assert next.progress == d.progress && next.status == Final(side) && Of(next, Other(side)) == Of(d, Other(side));
    DisablesOther(next, side, args, fns);
  }

  lemma FirstSettle<U>(d: Deferred<U>, side: Side, args: Args, fns: seq<U>)
    requires Proper(d) && d.status == Pending
    requires Waiting(Of(d, side), AllOn(side, fns)) && Dead(Disable(Of(d, Other(side))))
    ensures Settles(DoOn(d, Settle(side, args)), d, side, args, fns)
  {
    var s := FireWith(Of(d, side), args);
    assert Serving(s, AllOn(side, fns), args, 1) && s.firing by {
      FireServes(Of(d, side), AllOn(side, fns), args);
    }
    SettlesAtOnce(With(d, side, s), side, args, fns);
  }

  // ---- progress --------------------------------------------------------------------------------

  /** A locked progress list: whatever is notified now is ignored. */
  ghost predicate Closed<F>(s: State<F>, fires: seq<Args>)
  {
    s.accepted == fires && s.stack.None? && (s.list.None? || s.fired)
  }

  ghost predicate ProgressIs<U>(s: State<Fn<U>>, open: bool, fires: seq<Args>)
  {
    if open then Serves(s, fires) else Closed(s, fires)
  }

  lemma LockCloses<F>(s: State<F>, fires: seq<Args>)
    requires Valid(s) && Serves(s, fires)
    ensures Closed(Lock(s), fires)
  {
  }

  lemma ClosedLoop<F>(s: State<F>)
    requires s.fired && s.firing && 0 <= s.firingIndex && (s.list.Some? ==> s.firingLength == |s.list.value|)
    requires s.stack.None?
    ensures Closed(Loop(s), s.accepted)
  {
    assert Closed(EndPass(s), s.accepted);
  }

  lemma ClosedFire<F>(s: State<F>, data: Args, start: nat)
    requires s.list.Some? && s.stack.None?
    ensures Closed(Fire(s, data, start), s.accepted)
  {
    var from := if start < |s.list.value| then s.list.value[start].serial else s.nextSerial;
    ClosedLoop(s.(memory := if s.options.memory then Some(data) else None, fired := true,
                  firingIndex := start, firingLength := |s.list.value|, firing := true,
                  pass := Pass(data, from, |s.calls|)));
  }

  lemma ClosedAdd<F>(s: State<F>, fns: seq<F>, fires: seq<Args>)
    requires Valid(s) && Closed(s, fires)
    ensures Closed(Add(s, fns), fires)
  {
    if s.list.Some? && !s.firing && s.memory.Some? {
      var list := Push(s.list.value, fns, s.options.unique, s.nextSerial);
      ClosedFire(s.(list := Some(list), nextSerial := s.nextSerial + |fns|), s.memory.value, |s.list.value|);
    }
  }

  lemma ClosedReturn<F>(s: State<F>, value: bool, fires: seq<Args>)
    requires Valid(s) && Closed(s, fires) && s.firing
    ensures Closed(Return(s, value), fires)
  {
    if !value && s.options.stopOnFalse {
      assert Closed(EndPass(s.(memory := None)), fires);
    } else {
      ClosedLoop(s.(firingIndex := s.firingIndex + 1));
    }
  }

  // ---- what was asked for ------------------------------------------------------------------------

  /** The simple account of a deferred: the first settlement asked for, the functions added to
      either side, and what was notified before the settlement. */
  datatype Ledger<U> = Ledger(first: Option<(Side, Args)>, done: seq<U>, fail: seq<U>, notified: seq<Args>)

  function Record<U>(l: Ledger<U>, op: Op<U>): Ledger<U>
  {
    match op
    case Settle(side, args) => if l.first.None? then l.(first := Some((side, args))) else l
    case AddTo(side, fns) => if side == Done then l.(done := l.done + fns) else l.(fail := l.fail + fns)
    case Notify(args) => if l.first.None? then l.(notified := l.notified + [args]) else l
    case _ => l
  }

  function RecordAll<U>(l: Ledger<U>, ops: seq<Op<U>>): Ledger<U>
    decreases |ops|
  {
    if ops == [] then l else RecordAll(Record(l, ops[0]), ops[1..])
  }

  function Added<U>(l: Ledger<U>, side: Side): seq<U> { if side == Done then l.done else l.fail }

  ghost predicate Keeps<U>(d: Deferred<U>, l: Ledger<U>)
  {
    && Proper(d) && ProgressIs(d.progress, l.first.None?, l.notified)
    && (l.first.None? ==> IsPending(d, l.done, l.fail))
    && (l.first.Some? ==>
          var (side, args) := l.first.value;
          |Of(d, side).calls| >= 3 && IsSettled(d, side, args, Added(l, side), |Of(d, side).calls| - 3))
  }

  lemma SettleKeeps<U>(d: Deferred<U>, l: Ledger<U>, side: Side, args: Args)
    requires Keeps(d, l)
    ensures Keeps(DoOn(d, Settle(side, args)), Record(l, Settle(side, args)))
  {
    if l.first.None? {
      FirstSettle(d, side, args, Added(l, side));
      LockCloses(d.progress, l.notified);
    } else {
      SettleAgain(d, l, side, args);
    }
  }

  lemma SettleAgain<U>(d: Deferred<U>, l: Ledger<U>, side: Side, args: Args)
    requires Keeps(d, l) && l.first.Some?
    ensures DoOn(d, Settle(side, args)) == d
  {
    var settled := l.first.value.0;
    assert With(d, side, FireWith(Of(d, side), args)) == d;
    if side == settled {
      RunNone(d, side, AllOn(side, Added(l, side)), l.first.value.1, |Of(d, side).calls|);
    }
  }

  lemma AddKeepsPending<U>(d: Deferred<U>, l: Ledger<U>, side: Side, fns: seq<U>)
    requires Keeps(d, l) && l.first.None?
    ensures Keeps(DoOn(d, AddTo(side, fns)), Record(l, AddTo(side, fns)))
  {
    AddOn(side, Added(l, side), fns);
    AddWaits(Of(d, side), AllOn(side, Added(l, side)), Users(fns));
  }

  lemma AddToOther<U>(d: Deferred<U>, side: Side, fns: seq<U>)
    requires Proper(d) && Dead(Of(d, side))
    ensures DoOn(d, AddTo(side, fns)) == d
  {
    assert With(d, side, Add(Of(d, side), Users(fns))) == d;
  }

  lemma AddToFiring<U>(d: Deferred<U>, side: Side, args: Args, fns: seq<U>, called: nat, more: seq<U>)
    requires Proper(d) && IsSettled(d, side, args, fns, called) && Of(d, side).firing
    ensures var r := DoOn(d, AddTo(side, more));
            r.progress == d.progress && IsSettled(r, side, args, fns + more, called)
  {
    var added := AllOn(side, fns);
    AddOn(side, fns, more);
    AddDuring(Of(d, side), added, args, 3 + called, Users(more));
    RunNone(With(d, side, Add(Of(d, side), Users(more))), side, added + Users(more), args, 3 + called);
  }

  lemma AddToResting<U>(d: Deferred<U>, side: Side, args: Args, fns: seq<U>, called: nat, more: seq<U>)
    requires Proper(d) && IsSettled(d, side, args, fns, called) && !Of(d, side).firing
    ensures var r := DoOn(d, AddTo(side, more));
            r.progress == d.progress && IsSettled(r, side, args, fns + more, if more == [] then called else called + 1)
  {
    var added := AllOn(side, fns);
    AddOn(side, fns, more);
    AddAfter(Of(d, side), added, args, Users(more));
    var d' := With(d, side, Add(Of(d, side), Users(more)));
    RunNone(d', side, added + Users(more), args, if more == [] then 3 + called else 4 + called);
  }

  lemma SettledKeeps<U>(d: Deferred<U>, l: Ledger<U>, side: Side, args: Args, called: nat)
    requires Proper(d) && l.first == Some((side, args)) && ProgressIs(d.progress, false, l.notified)
    requires IsSettled(d, side, args, Added(l, side), called)
    ensures Keeps(d, l)
  {
    assert |Of(d, side).calls| == 3 + called;
  }

  lemma AddKeepsSettled<U>(d: Deferred<U>, l: Ledger<U>, side: Side, fns: seq<U>)
    requires Keeps(d, l) && l.first.Some?
    ensures Keeps(DoOn(d, AddTo(side, fns)), Record(l, AddTo(side, fns)))
  {
    var (settled, args) := l.first.value;
    var called := |Of(d, settled).calls| - 3;
    if side != settled {
      AddToOther(d, side, fns);
    } else if Of(d, side).firing {
      AddToFiring(d, side, args, Added(l, side), called, fns);
    } else {
      AddToResting(d, side, args, Added(l, side), called, fns);
      called := if fns == [] then called else called + 1;
    }
    SettledKeeps(DoOn(d, AddTo(side, fns)), Record(l, AddTo(side, fns)), settled, args, called);
  }

  lemma ReturnKeeps<U>(d: Deferred<U>, l: Ledger<U>, side: Side, value: bool)
    requires Keeps(d, l) && Of(d, side).firing
    ensures Keeps(DoOn(d, ReturnFrom(side, value)), l)
  {
    assert l.first.Some? && l.first.value.0 == side;
    ReturnSettles(d, side, l.first.value.1, Added(l, side), value);
  }

  lemma ReturnSettles<U>(d: Deferred<U>, side: Side, args: Args, fns: seq<U>, value: bool)
    requires Proper(d) && |Of(d, side).calls| >= 3 && Of(d, side).firing
    requires IsSettled(d, side, args, fns, |Of(d, side).calls| - 3)
    ensures var d' := DoOn(d, ReturnFrom(side, value));
            && Proper(d') && d'.progress == d.progress
            && |Of(d', side).calls| >= 3 && IsSettled(d', side, args, fns, |Of(d', side).calls| - 3)
  {
    var s, added := Of(d, side), AllOn(side, fns);
    var n := |s.calls|;
    ReturnServes(s, added, args, n, value);
    RunNone(With(d, side, Return(s, value)), side, added, args, if n < |added| then n + 1 else n);
  }

  lemma ProgressKeeps<U>(s: State<Fn<U>>, op: CallbackRuns.Op<Fn<U>>, open: bool, fires: seq<Args>)
    requires Valid(s) && Enabled(s, op) && ProgressIs(s, open, fires) && (op.OpAdd? || op.OpFire? || op.OpReturn?)
    ensures ProgressIs(Do(s, op), open, fires + if open && op.OpFire? then [op.args] else [])
  {
    if open {
      StepServes(s, op, fires);
    } else {
      assert fires + [] == fires;
      match op
      case OpAdd(fns) => ClosedAdd(s, fns, fires);
      case OpReturn(value) => ClosedReturn(s, value, fires);
      case OpFire(_) =>
    }
  }

  lemma StepKeeps<U>(d: Deferred<U>, l: Ledger<U>, op: Op<U>)
    requires Keeps(d, l) && CanDo(d, op)
    ensures Keeps(DoOn(d, op), Record(l, op))
  {
    assert l.notified + [] == l.notified;
    match op
    case Settle(side, args) => SettleKeeps(d, l, side, args);
    case AddTo(side, fns) =>
      if l.first.None? { AddKeepsPending(d, l, side, fns); } else { AddKeepsSettled(d, l, side, fns); }
    case ReturnFrom(side, value) => ReturnKeeps(d, l, side, value);
    case Notify(args) => ProgressKeeps(d.progress, OpFire(args), l.first.None?, l.notified);
    case AddProgress(fns) => ProgressKeeps(d.progress, OpAdd(Users(fns)), l.first.None?, l.notified);
    case ReturnProgress(value) => ProgressKeeps(d.progress, OpReturn(value), l.first.None?, l.notified);
  }

  lemma {:induction false} RunKeeps<U>(d: Deferred<U>, l: Ledger<U>, ops: seq<Op<U>>)
    requires Keeps(d, l) && IsHistory(d, ops)
    ensures Keeps(Outcome(d, ops), RecordAll(l, ops))
    decreases |ops|
  {
    if ops != [] {
      StepKeeps(d, l, ops[0]);
      RunKeeps(DoOn(d, ops[0]), Record(l, ops[0]), ops[1..]);
    }
  }

  lemma NewKeeps<U>()
    ensures Keeps(NewDeferred<U>(), Ledger(None, [], [], []))
  {
    assert Waiting(New<Fn<U>>(ONCE_MEMORY), []);
    AddWaits(New(ONCE_MEMORY), [], BuiltIns<U>(Done));
    AddWaits(New(ONCE_MEMORY), [], BuiltIns<U>(Fail));
    assert [] + BuiltIns<U>(Done) == AllOn(Done, []) && [] + BuiltIns<U>(Fail) == AllOn(Fail, []);
  }

  /** These functions, all with these arguments, are what the users of this side have seen called. */
  ghost predicate Seen<U>(s: State<Fn<U>>, fns: seq<U>, args: Args)
  {
    |s.calls| == 3 + |fns| && forall i :: 0 <= i < |fns| ==>
        s.calls[3 + i].entry.fn == User(fns[i]) && s.calls[3 + i].args == args
  }

  lemma SettledIsSeen<U>(d: Deferred<U>, side: Side, args: Args, fns: seq<U>, called: nat)
    requires IsSettled(d, side, args, fns, called)
    ensures called <= |fns| && Seen(Of(d, side), fns[..called], args)
    ensures !Of(d, side).firing ==> Seen(Of(d, side), fns, args)
  {
    var s, all := Of(d, side), AllOn(side, fns);
    forall i | 0 <= i < called ensures s.calls[3 + i].entry.fn == User(fns[i]) && s.calls[3 + i].args == args {
      assert s.calls[3 + i] == CallsOf(all[..3 + called], args)[3 + i];
      assert all[3 + i] == User(fns[i]);
    }
  }

  /** What a deferred and its functions have seen of the settlements and additions in the ledger. */
  ghost predicate HasSettledOnce<U>(d: Deferred<U>, l: Ledger<U>)
  {
    && d.progress.accepted == l.notified
    && (l.first.None? ==> d.status == Pending && d.done.calls == [] && d.fail.calls == [])
    && (l.first.Some? ==>
          var (side, args) := l.first.value;
          var fns, s := Added(l, side), Of(d, side);
          && d.status == Final(side) && Of(d, Other(side)).calls == []
          && 3 <= |s.calls| <= 3 + |fns| && Seen(s, fns[..|s.calls| - 3], args)
          && (!s.firing ==> Seen(s, fns, args)))
  }

  /** A deferred settles once, also when the functions called settle it again, add functions or
      notify. In every run: as long as nothing has settled it, it is pending and has called nobody;
      from then on its state is that of the first settlement, the functions called are the first
      ones added to that side, before or after, each once, in the order of addition and with the
      arguments of that settlement, all of them as soon as the list rests; nobody on the other side
      is called; and notifications count only before. */
  lemma SettlesOnce<U>(ops: seq<Op<U>>)
    requires IsHistory(NewDeferred<U>(), ops)
    ensures HasSettledOnce(Outcome(NewDeferred<U>(), ops), RecordAll(Ledger(None, [], [], []), ops))
  {
    NewKeeps<U>();
    var l0: Ledger<U> := Ledger(None, [], [], []);
    RunKeeps(NewDeferred<U>(), l0, ops);
    KeptHasSettledOnce(Outcome(NewDeferred<U>(), ops), RecordAll(l0, ops));
  }

  lemma KeptHasSettledOnce<U>(d: Deferred<U>, l: Ledger<U>)
    requires Keeps(d, l)
    ensures HasSettledOnce(d, l)
  {
    if l.first.Some? {
      var (side, args) := l.first.value;
      SettledIsSeen(d, side, args, Added(l, side), |Of(d, side).calls| - 3);
    }
  }

  lemma {:induction false} FirstStays<U>(l: Ledger<U>, ops: seq<Op<U>>)
    requires l.first.Some?
    ensures RecordAll(l, ops).first == l.first
    decreases |ops|
  {
    if ops != [] {
      FirstStays(Record(l, ops[0]), ops[1..]);
    }
  }

  /** Once a deferred has left the pending state, no operation changes its state. */
  lemma StateIsPermanent<U>(ops: seq<Op<U>>, more: seq<Op<U>>)
    requires IsHistory(NewDeferred<U>(), ops) && Outcome(NewDeferred<U>(), ops).status != Pending
    requires IsHistory(Outcome(NewDeferred<U>(), ops), more)
    ensures Outcome(Outcome(NewDeferred<U>(), ops), more).status == Outcome(NewDeferred<U>(), ops).status
  {
    NewKeeps<U>();
    var l0: Ledger<U> := Ledger(None, [], [], []);
    RunKeeps(NewDeferred<U>(), l0, ops);
    RunKeeps(Outcome(NewDeferred<U>(), ops), RecordAll(l0, ops), more);
    FirstStays(RecordAll(l0, ops), more);
  }

  // ---- the object --------------------------------------------------------------------------

  class DeferredObject<U(==)> {
    var status: Status
    const done: CallbackList<Fn<U>>
    const fail: CallbackList<Fn<U>>
    const progress: CallbackList<Fn<U>>

    ghost function Now(): Deferred<U>
      reads this, done, fail, progress
    {
      Deferred(status, done.Now(), fail.Now(), progress.Now())
    }

    ghost predicate Ok()
      reads this, done, fail, progress
    {
      && done != fail && fail != progress && done != progress
      && done.Ok() && fail.Ok() && progress.Ok() && Proper(Now())
    }

    constructor ()
      ensures Ok() && Now() == NewDeferred<U>()
      ensures fresh(done) && fresh(fail) && fresh(progress)
    {
      status := Pending;
      done := new CallbackList<Fn<U>>(ONCE_MEMORY);
      fail := new CallbackList<Fn<U>>(ONCE_MEMORY);
      progress := new CallbackList<Fn<U>>(MEMORY);
      new;
      done.AddAll(BuiltIns<U>(Done));
      fail.AddAll(BuiltIns<U>(Fail));
    }

    function ListOf(side: Side): CallbackList<Fn<U>> { if side == Done then done else fail }

    method CallBuiltIn(fn: Fn<U>)
      requires Ok() && !fn.User?
      modifies this, done, fail, progress
      ensures Ok() && Now() == BuiltInEffect(old(Now()), fn)
    {
      match fn {
        case SetState(side) => status := Final(side);
        case DisableOther(side) => ListOf(Other(side)).DisableList();
        case LockProgress => progress.LockList();
      }
    }

    method ReturnOn(side: Side, value: bool)
      requires Ok() && Of(Now(), side).firing
      modifies done, fail
      ensures Ok() && Now() == With(old(Now()), side, Return(Of(old(Now()), side), value))
    {
      ListOf(side).Returned(value);
    }

    /** Calls the deferred's own functions, up to the first call of a user's function. */
    method CallBuiltIns(side: Side)
      requires Ok()
      modifies this, done, fail, progress
      ensures Ok() && Now() == RunBuiltIns(old(Now()), side)
    {
      while ListOf(side).current.Some? && !ListOf(side).current.value.User?
        invariant Ok() && RunBuiltIns(old(Now()), side) == RunBuiltIns(Now(), side)
        decreases Left(Of(Now(), side))
      {
        ghost var d := Now();
        CallBuiltIn(ListOf(side).current.value);
        ReturnLeavesLess(Of(Now(), side));
        ReturnOn(side, true);
        assert RunBuiltIns(d, side) == RunBuiltIns(Now(), side);
      }
    }

    method SettleWith(side: Side, args: Args)
      requires Ok()
      modifies this, done, fail, progress
      ensures Ok() && Now() == DoOn(old(Now()), Settle(side, args))
    {
      ListOf(side).FireAll(args);
      CallBuiltIns(side);
    }

    method AddCallbacks(side: Side, fns: seq<U>)
      requires Ok()
      modifies this, done, fail, progress
      ensures Ok() && Now() == DoOn(old(Now()), AddTo(side, fns))
    {
      ListOf(side).AddAll(Users(fns));
      CallBuiltIns(side);
    }

    /** The user's function being called returns. */
    method CallbackReturns(side: Side, value: bool)
      requires Ok() && Of(Now(), side).firing
      modifies this, done, fail, progress
      ensures Ok() && Now() == DoOn(old(Now()), ReturnFrom(side, value))
    {
      ReturnOn(side, value);
      CallBuiltIns(side);
    }

    method NotifyWith(args: Args)
      requires Ok()
      modifies progress
      ensures Ok() && Now() == DoOn(old(Now()), Notify(args))
    {
      progress.FireAll(args);
    }
  }
}
