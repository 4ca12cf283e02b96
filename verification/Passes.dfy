/** When a pass over a callback list ends, and what emptying, disabling and locking a list stop. */
module Passes {
  import opened Wrappers
  import opened Callbacks
  import opened CallbackRuns

  // ---- the end of a pass ------------------------------------------------------------------

  /** The list has come to rest, or another fire has begun. */
  ghost predicate Leaves<F>(s: State<F>, s': State<F>) { !s'.firing || s'.begun != s.begun }

  /** Each entry on the list that the pass covers has been called in it. */
  ghost predicate AllCalled<F>(s: State<F>)
    requires s.list.Some?
  {
    forall i :: 0 <= i < |s.list.value| && s.list.value[i].serial >= s.pass.from ==> CalledIn(Made(s), s.list.value[i])
  }

  lemma {:induction false} FireBegins<F>(s: State<F>, data: Args, start: nat)
    requires s.list.Some?
    ensures |Fire(s, data, start).begun| >= |s.begun|
    decreases |Queue(s)|, 1
  {
    if start >= |s.list.value| {
      EndLeaves(s.(memory := if s.options.memory then Some(data) else None, fired := true,
                   firingIndex := start, firingLength := |s.list.value|, firing := true,
                   pass := Pass(data, s.nextSerial, |s.calls|)));
    }
  }

  lemma {:induction false} EndLeaves<F>(s: State<F>)
    ensures Leaves(s, EndPass(s)) && |EndPass(s).begun| >= |s.begun|
    decreases |Queue(s)|, 0
  {
    if s.list.Some? && s.stack.Some? && s.stack.value != [] {
      FireBegins(s.(firing := false, stack := Some(s.stack.value[1..]), begun := s.begun + [s.stack.value[0]]),
                 s.stack.value[0], 0);
    }
  }

  /** A list that is being fired has not been disabled. */
  ghost predicate Sound<F>(s: State<F>) { PassInv(s) && (s.firing ==> s.list.Some?) }

  lemma {:induction false} FireKeepsList<F>(s: State<F>, data: Args, start: nat)
    requires s.list.Some?
    ensures Fire(s, data, start).firing ==> Fire(s, data, start).list.Some?
    ensures Fire(s, data, start).options == s.options
    decreases |Queue(s)|, 1
  {
    if start >= |s.list.value| {
      EndKeepsList(s.(memory := if s.options.memory then Some(data) else None, fired := true,
                      firingIndex := start, firingLength := |s.list.value|, firing := true,
                      pass := Pass(data, s.nextSerial, |s.calls|)));
    }
  }

  lemma {:induction false} EndKeepsList<F>(s: State<F>)
    ensures EndPass(s).firing ==> EndPass(s).list.Some?
    ensures EndPass(s).options == s.options
    decreases |Queue(s)|, 0
  {
    if s.list.Some? && s.stack.Some? && s.stack.value != [] {
      FireKeepsList(s.(firing := false, stack := Some(s.stack.value[1..]), begun := s.begun + [s.stack.value[0]]),
                    s.stack.value[0], 0);
    }
  }

  lemma ReturnKeepsList<F>(s: State<F>, value: bool)
    requires Valid(s) && s.firing
    ensures Return(s, value).firing ==> Return(s, value).list.Some?
    ensures Return(s, value).options == s.options
  {
    if !value && s.options.stopOnFalse {
      EndKeepsList(s.(memory := None));
    } else if !(s.list.Some? && s.firingIndex + 1 < s.firingLength) {
      EndKeepsList(s.(firingIndex := s.firingIndex + 1));
    }
  }

  lemma StepKeepsList<F>(s: State<F>, op: Op<F>)
    requires Valid(s) && Enabled(s, op) && Sound(s) && Gentle(s, op)
    ensures Do(s, op).firing ==> Do(s, op).list.Some?
    ensures Do(s, op).options == s.options
  {
    match op
    case OpAdd(fns) =>
      if s.list.Some? && !s.firing && s.memory.Some? {
        var list := Push(s.list.value, fns, s.options.unique, s.nextSerial);
        FireKeepsList(s.(list := Some(list), nextSerial := s.nextSerial + |fns|), s.memory.value, |s.list.value|);
      }
    case OpRemove(fns) => RemoveKeepsRest(s, fns);
    case OpFire(args) =>
      if s.list.Some? && !s.firing {
        FireKeepsList(s.(accepted := s.accepted + [args], begun := s.begun + [args]), args, 0);
      }
    case OpReturn(value) => ReturnKeepsList(s, value);
    case OpEmpty =>
    case OpDisable =>
    case OpLock =>
  }

  lemma {:induction false} RunIsSound<F>(s: State<F>, ops: seq<Op<F>>)
    requires Valid(s) && IsRun(s, ops) && Sound(s) && GentleRun(s, ops)
    ensures Sound(After(s, ops)) && After(s, ops).options == s.options
    decreases |ops|
  {
    if ops != [] {
      StepPassInv(s, ops[0]);
      StepKeepsList(s, ops[0]);
      RunIsSound(Do(s, ops[0]), ops[1..]);
    }
  }

  /** Of a pass in the middle of a list, everything it covers has been called exactly if nothing is
      ahead. */
  lemma CalledToTheEnd<F>(s: State<F>)
    requires Valid(s) && s.firing && s.list.Some? && PassInv(s)
    ensures AllCalled(s) <==> s.firingIndex + 1 == s.firingLength
  {
    var list, k := s.list.value, s.firingIndex + 1;
    if k < |list| {
      assert list[k].serial >= Reached(Made(s), s.pass.from);
      assert !CalledIn(Made(s), list[k]);
    }
  }

  /** The next entry of a list in the middle of a pass: the first that the pass covers and has not
      called. */
  ghost predicate IsNext<F>(s: State<F>, k: nat)
    requires s.list.Some?
  {
    && k < |s.list.value| && s.list.value[k].serial >= s.pass.from && !CalledIn(Made(s), s.list.value[k])
    && forall i :: 0 <= i < k && s.list.value[i].serial >= s.pass.from ==> CalledIn(Made(s), s.list.value[i])
  }

  /** When a pass ends. In every run in which the list is only added to and removed from while it is being
      fired, the function that returns is the last one of its pass if and only if it has returned false
      on a list that stops on false, or each entry on the list that the pass covers has been called;
      otherwise the first such entry that has not been called is called next, with the pass's
      arguments. */
  lemma PassEndsExactlyWhen<F>(options: Options, ops: seq<Op<F>>, value: bool) returns (next: nat)
    requires IsRun(New<F>(options), ops) && GentleRun(New<F>(options), ops) && After(New<F>(options), ops).firing
    ensures var s := After(New<F>(options), ops);
            var s' := Do(s, OpReturn(value));
            && s.list.Some?
            && (Leaves(s, s') <==> (!value && options.stopOnFalse) || AllCalled(s))
            && (!Leaves(s, s') ==>
                  && IsNext(s, next) && s'.list == s.list
                  && s'.calls == s.calls + [Call(s.list.value[next], s.pass.args)])
  {
    var s := After(New<F>(options), ops);
    RunIsSound(New<F>(options), ops);
    CalledToTheEnd(s);
    next := s.firingIndex + 1;
    if !value && options.stopOnFalse {
      EndLeaves(s.(memory := None));
    } else if next == s.firingLength {
      EndLeaves(s.(firingIndex := next));
    } else {
      assert s.list.value[next].serial >= Reached(Made(s), s.pass.from);
    }
  }

  /** Nothing else ends a pass, or calls anybody during one. */
  lemma OnlyReturnsEnd<F>(options: Options, ops: seq<Op<F>>, op: Op<F>)
    requires IsRun(New<F>(options), ops) && GentleRun(New<F>(options), ops) && After(New<F>(options), ops).firing
    requires Gentle(After(New<F>(options), ops), op) && !op.OpReturn?
    ensures var s := After(New<F>(options), ops);
            !Leaves(s, Do(s, op)) && Do(s, op).calls == s.calls && Do(s, op).pass == s.pass
  {
    var s := After(New<F>(options), ops);
    RunIsSound(New<F>(options), ops);
    if op.OpRemove? {
      RemoveKeepsRest(s, op.fns);
    }
  }

  /** A false that stops a list also keeps the functions added later from being called, until the list
      is fired again. */
  lemma StopForgets<F>(s: State<F>, fns: seq<F>)
    requires Valid(s) && s.firing && s.options.stopOnFalse && Queue(s) == []
    ensures var r := Return(s, false);
            !r.firing && r.calls == s.calls && Add(r, fns).calls == s.calls && !Add(r, fns).firing
  {
  }

  // ---- a whole fire -----------------------------------------------------------------------------

  function Returns<F>(values: seq<bool>): seq<Op<F>>
  {
    if values == [] then [] else [OpReturn(values[0])] + Returns(values[1..])
  }

  /** These are what the functions of a list return, one after the other, up to the first that stops it. */
  ghost predicate RunsThrough(values: seq<bool>, n: nat, stopOnFalse: bool)
  {
    && |values| <= n
    && (forall i :: 0 <= i < |values| - 1 ==> values[i] || !stopOnFalse)
    && (|values| == n || (values != [] && !values[|values| - 1] && stopOnFalse))
  }

  /** The calls of the first entries of a list, in order, with these arguments. */
  ghost predicate CallsFollow<F>(calls: seq<Call<F>>, was: seq<Call<F>>, list: seq<Entry<F>>, args: Args)
  {
    && |calls| == |was| + |list| && calls[..|was|] == was
    && forall i :: 0 <= i < |list| ==> calls[|was| + i] == Call(list[i], args)
  }

  lemma FollowOn<F>(calls: seq<Call<F>>, was: seq<Call<F>>, first: Entry<F>, list: seq<Entry<F>>, args: Args)
    requires CallsFollow(calls, was + [Call(first, args)], list, args)
    ensures CallsFollow(calls, was, [first] + list, args)
  {
    assert calls[..|was|] == calls[..|was| + 1][..|was|];
    forall i | 0 <= i < |list| + 1 ensures calls[|was| + i] == Call(([first] + list)[i], args) {
      if i == 0 {
        assert calls[|was|] == calls[..|was| + 1][|was|];
      } else {
        assert calls[|was| + i] == calls[|was| + 1 + (i - 1)];
      }
    }
  }

  lemma EndRests<F>(s: State<F>)
    requires Queue(s) == []
    ensures !EndPass(s).firing && EndPass(s).calls == s.calls
  {
  }

  /** The list is calling the entry at position `k`, and no fire is waiting. */
  ghost predicate Calling<F>(s: State<F>, k: nat, list: seq<Entry<F>>)
  {
    && s.firing && s.fired && s.list == Some(list) && s.firingLength == |list| && s.firingIndex == k < |list|
    && Queue(s) == []
  }

  /** The run calls these entries in turn, with these arguments, and then the list rests. */
  ghost predicate CallsInTurn<F>(s: State<F>, ops: seq<Op<F>>, list: seq<Entry<F>>, args: Args)
    requires Valid(s)
  {
    IsRun(s, ops) && !After(s, ops).firing && CallsFollow(After(s, ops).calls, s.calls, list, args)
  }

  lemma FirstInTurn<F>(s: State<F>, op: Op<F>, ops: seq<Op<F>>, first: Entry<F>, list: seq<Entry<F>>, args: Args)
    requires Valid(s) && Enabled(s, op) && Do(s, op).calls == s.calls + [Call(first, args)]
    requires CallsInTurn(Do(s, op), ops, list, args)
    ensures CallsInTurn(s, [op] + ops, [first] + list, args)
  {
    assert ([op] + ops)[1..] == ops;
    FollowOn(After(Do(s, op), ops).calls, s.calls, first, list, args);
  }

  lemma LastInTurn<F>(s: State<F>, op: Op<F>, args: Args)
    requires Valid(s) && Enabled(s, op) && Do(s, op).calls == s.calls && !Do(s, op).firing
    ensures CallsInTurn(s, [op], [], args)
  {
    assert [op][1..] == [] && IsRun(Do(s, op), []);
  }

  lemma {:induction false} RestIsCalled<F>(s: State<F>, k: nat, list: seq<Entry<F>>, values: seq<bool>, end: nat)
    requires Calling(s, k, list) && values != [] && RunsThrough(values, |list| - k, s.options.stopOnFalse)
    requires end == k + |values|
    ensures CallsInTurn(s, Returns<F>(values), list[k + 1..end], s.pass.args)
    decreases |values|
  {
    if |values| == 1 {
      LastIsCalled(s, k, list, values);
    } else {
      NextReturn(s, k, list, values[0]);
      RestRunsThrough(values, |list| - k, s.options.stopOnFalse);
      RestIsCalled(Do(s, OpReturn(values[0])), k + 1, list, values[1..], end);
      NextInTurn(s, values, list[k + 1], list[k + 2..end], list[k + 1..end]);
    }
  }

  lemma LastIsCalled<F>(s: State<F>, k: nat, list: seq<Entry<F>>, values: seq<bool>)
    requires Calling(s, k, list) && |values| == 1 && RunsThrough(values, |list| - k, s.options.stopOnFalse)
    ensures CallsInTurn(s, Returns<F>(values), list[k + 1..k + 1], s.pass.args)
  {
    LastReturn(s, k, list, values[0]);
    LastInTurn(s, OpReturn(values[0]), s.pass.args);
    assert Returns<F>(values) == [OpReturn(values[0])] && list[k + 1..k + 1] == [];
  }

  lemma NextInTurn<F>(s: State<F>, values: seq<bool>, first: Entry<F>, more: seq<Entry<F>>, all: seq<Entry<F>>)
    requires Valid(s) && s.firing && values != [] && all == [first] + more
    requires var s' := Do(s, OpReturn(values[0]));
             s'.calls == s.calls + [Call(first, s.pass.args)]
               && CallsInTurn(s', Returns<F>(values[1..]), more, s.pass.args)
    ensures CallsInTurn(s, Returns<F>(values), all, s.pass.args)
  {
    FirstInTurn(s, OpReturn(values[0]), Returns<F>(values[1..]), first, more, s.pass.args);
  }

  lemma RestRunsThrough(values: seq<bool>, n: nat, stopOnFalse: bool)
    requires RunsThrough(values, n, stopOnFalse) && |values| > 1
    ensures RunsThrough(values[1..], n - 1, stopOnFalse) && (values[0] || !stopOnFalse)
  {
    assert forall i :: 0 <= i < |values[1..]| ==> values[1..][i] == values[i + 1];
  }

  lemma NextReturn<F>(s: State<F>, k: nat, list: seq<Entry<F>>, value: bool)
    requires Calling(s, k, list) && k + 1 < |list| && (value || !s.options.stopOnFalse)
    ensures var s' := Do(s, OpReturn(value));
            && Calling(s', k + 1, list) && s'.calls == s.calls + [Call(list[k + 1], s.pass.args)]
            && s'.pass == s.pass && s'.options == s.options
  {
  }

  lemma LastReturn<F>(s: State<F>, k: nat, list: seq<Entry<F>>, value: bool)
    requires Calling(s, k, list) && (k + 1 == |list| || (!value && s.options.stopOnFalse))
    ensures !Return(s, value).firing && Return(s, value).calls == s.calls
  {
    if !value && s.options.stopOnFalse {
      EndRests(s.(memory := None));
    } else {
      EndRests(s.(firingIndex := k + 1));
    }
  }

  /** `fire`, from a position on the list. */
  lemma FireStarts<F>(s: State<F>, data: Args, start: nat, list: seq<Entry<F>>)
    requires s.list == Some(list) && start < |list| && Queue(s) == []
    ensures var r := Fire(s, data, start);
            && Calling(r, start, list) && r.calls == s.calls + [Call(list[start], data)]
            && r.pass.args == data && r.options == s.options
  {
    var s' := s.(memory := if s.options.memory then Some(data) else None, fired := true, firingIndex := start,
                 firingLength := |list|, firing := true, pass := Pass(data, list[start].serial, |s.calls|));
    assert Fire(s, data, start) == Loop(s');
  }

  lemma FireBeyond<F>(s: State<F>, data: Args, list: seq<Entry<F>>)
    requires s.list == Some(list) && Queue(s) == []
    ensures Fire(s, data, |list|).calls == s.calls && !Fire(s, data, |list|).firing
  {
    var s' := s.(memory := if s.options.memory then Some(data) else None, fired := true, firingIndex := |list|,
                 firingLength := |list|, firing := true, pass := Pass(data, s.nextSerial, |s.calls|));
    assert Fire(s, data, |list|) == EndPass(s');
    EndRests(s');
  }

  /** A step that fires the list from a position on, and what the functions called return. */
  lemma FiredInTurn<F>(s: State<F>, op: Op<F>, s1: State<F>, data: Args, start: nat, list: seq<Entry<F>>,
                       values: seq<bool>)
    requires Valid(s) && Enabled(s, op) && s1.list == Some(list) && start <= |list|
    requires Do(s, op) == Fire(s1, data, start)
    requires s1.calls == s.calls && Queue(s1) == [] && RunsThrough(values, |list| - start, s1.options.stopOnFalse)
    ensures CallsInTurn(s, [op] + Returns<F>(values), list[start..][..|values|], data)
  {
    if start == |list| {
      FireBeyond(s1, data, list);
      LastInTurn(s, op, data);
      assert [op] + Returns<F>(values) == [op] && list[start..][..|values|] == [];
    } else {
      FireStarts(s1, data, start, list);
      var end := start + |values|;
      RestIsCalled(Do(s, op), start, list, values, end);
      FirstInTurn(s, op, Returns<F>(values), list[start], list[start + 1..end], data);
      assert [list[start]] + list[start + 1..end] == list[start..][..|values|];
    }
  }

  /** What a fire does, if the functions called leave the list alone: each function on the list is called
      once, in order, with the arguments of the fire, up to the first that returns false on a list that
      stops on false; and then the list rests. */
  lemma FireCallsEachOnce<F>(s: State<F>, args: Args, values: seq<bool>)
    requires Valid(s) && !s.firing && s.list.Some? && (!s.fired || s.stack.Some?) && Queue(s) == []
    requires RunsThrough(values, |s.list.value|, s.options.stopOnFalse)
    ensures CallsInTurn(s, [OpFire(args)] + Returns<F>(values), s.list.value[..|values|], args)
  {
    FiredInTurn(s, OpFire(args), s.(accepted := s.accepted + [args], begun := s.begun + [args]), args, 0,
                s.list.value, values);
    assert s.list.value[0..] == s.list.value;
  }

  /** What adding to a resting list does that remembers a fire: the functions that it puts on the list, and
      only these, are called in the same way, with the arguments remembered. */
  lemma AddCallsEachOnce<F>(s: State<F>, fns: seq<F>, list: seq<Entry<F>>, values: seq<bool>)
    requires Valid(s) && !s.firing && s.list.Some? && s.memory.Some? && Queue(s) == []
    requires s.list.value + list == Push(s.list.value, fns, s.options.unique, s.nextSerial)
    requires RunsThrough(values, |list|, s.options.stopOnFalse)
    ensures CallsInTurn(s, [OpAdd(fns)] + Returns<F>(values), list[..|values|], s.memory.value)
  {
    var all := Push(s.list.value, fns, s.options.unique, s.nextSerial);
    var longer := s.(list := Some(all), nextSerial := s.nextSerial + |fns|);
    FiredInTurn(s, OpAdd(fns), longer, s.memory.value, |s.list.value|, all, values);
    assert all[|s.list.value|..] == list;
  }

  // ---- functions on a list --------------------------------------------------------------------------

  /** No function stands twice on the list. */
  ghost predicate HoldsOnce<F>(list: seq<Entry<F>>)
  {
    forall i, j :: 0 <= i < j < |list| ==> list[i].fn != list[j].fn
  }

  ghost predicate AllOnce<F>(s: State<F>) { s.list.Some? ==> HoldsOnce(s.list.value) }

  lemma {:induction false} PushHoldsOnce<F>(list: seq<Entry<F>>, fns: seq<F>, serial: nat)
    requires HoldsOnce(list)
    ensures HoldsOnce(Push(list, fns, true, serial))
    decreases |fns|
  {
    if fns != [] {
      if Has(list, fns[0]) {
        PushHoldsOnce(list, fns[1..], serial);
      } else {
        PushHoldsOnce(list + [Entry(fns[0], serial)], fns[1..], serial + 1);
      }
    }
  }

  lemma {:induction false} KeptHoldsOnce<F>(list: seq<Entry<F>>, fn: F)
    requires HoldsOnce(list)
    ensures HoldsOnce(Kept(list, fn))
  {
    if list != [] {
      var rest := list[1..];
      assert forall i :: 0 <= i < |rest| ==> rest[i] == list[i + 1];
      KeptHoldsOnce(rest, fn);
      forall i | 0 <= i < |Kept(rest, fn)| ensures list[0].fn != Kept(rest, fn)[i].fn {
        var j := KeptComesFrom(rest, fn, i);
        assert rest[j] == list[j + 1];
      }
    }
  }

  lemma {:induction false} RemoveHoldsOnce<F>(s: State<F>, fns: seq<F>)
    requires Valid(s) && AllOnce(s)
    ensures AllOnce(Remove(s, fns)) && Remove(s, fns).options == s.options
    decreases |fns|
  {
    if fns != [] {
      if s.list.Some? {
        KeptHoldsOnce(s.list.value, fns[0]);
      }
      RemoveHoldsOnce(RemoveOne(s, fns[0]), fns[1..]);
    }
  }

  /** Firing leaves the list as it is, empties it or gives it up. */
  ghost predicate ListStays<F>(s: State<F>, r: State<F>)
  {
    r.options == s.options && (r.list == s.list || r.list == Some([]) || r.list == None)
  }

  lemma {:induction false} FireLeavesList<F>(s: State<F>, data: Args, start: nat)
    requires s.list.Some?
    ensures ListStays(s, Fire(s, data, start))
    decreases |Queue(s)|, 1
  {
    if start >= |s.list.value| {
      EndLeavesList(s.(memory := if s.options.memory then Some(data) else None, fired := true,
                       firingIndex := start, firingLength := |s.list.value|, firing := true,
                       pass := Pass(data, s.nextSerial, |s.calls|)));
    }
  }

  lemma {:induction false} EndLeavesList<F>(s: State<F>)
    ensures ListStays(s, EndPass(s))
    decreases |Queue(s)|, 0
  {
    if s.list.Some? && s.stack.Some? && s.stack.value != [] {
      FireLeavesList(s.(firing := false, stack := Some(s.stack.value[1..]), begun := s.begun + [s.stack.value[0]]),
                     s.stack.value[0], 0);
    }
  }

  lemma StepHoldsOnce<F>(s: State<F>, op: Op<F>)
    requires Valid(s) && Enabled(s, op) && s.options.unique && AllOnce(s)
    ensures AllOnce(Do(s, op)) && Do(s, op).options == s.options
  {
    match op
    case OpAdd(fns) =>
      if s.list.Some? {
        PushHoldsOnce(s.list.value, fns, s.nextSerial);
        var list := Push(s.list.value, fns, true, s.nextSerial);
        if !s.firing && s.memory.Some? {
          FireLeavesList(s.(list := Some(list), nextSerial := s.nextSerial + |fns|), s.memory.value, |s.list.value|);
        }
      }
    case OpRemove(fns) => RemoveHoldsOnce(s, fns);
    case OpFire(args) =>
      if s.list.Some? && !s.firing {
        FireLeavesList(s.(accepted := s.accepted + [args], begun := s.begun + [args]), args, 0);
      }
    case OpReturn(value) =>
      if !value && s.options.stopOnFalse {
        EndLeavesList(s.(memory := None));
      } else if !(s.list.Some? && s.firingIndex + 1 < s.firingLength) {
        EndLeavesList(s.(firingIndex := s.firingIndex + 1));
      }
    case OpEmpty =>
    case OpDisable =>
    case OpLock =>
  }

  lemma {:induction false} RunHoldsOnce<F>(s: State<F>, ops: seq<Op<F>>)
    requires Valid(s) && IsRun(s, ops) && s.options.unique && AllOnce(s)
    ensures AllOnce(After(s, ops))
    decreases |ops|
  {
    if ops != [] {
      StepHoldsOnce(s, ops[0]);
      RunHoldsOnce(Do(s, ops[0]), ops[1..]);
    }
  }

  /** With `unique`, no function is ever twice on the list, in any run. */
  lemma UniqueHoldsOnce<F>(options: Options, ops: seq<Op<F>>)
    requires options.unique && IsRun(New<F>(options), ops)
    ensures var s := After(New<F>(options), ops); s.list.Some? ==> HoldsOnce(s.list.value)
  {
    RunHoldsOnce(New<F>(options), ops);
  }

  ghost function Functions<F>(list: seq<Entry<F>>): seq<F> { seq(|list|, i requires 0 <= i < |list| => list[i].fn) }

  /** The functions that are new to a list, each where it comes first. */
  ghost function NewOnes<F>(was: seq<F>, fns: seq<F>): seq<F>
  {
    if fns == [] then []
    else
      var earlier, last := fns[..|fns| - 1], fns[|fns| - 1];
      NewOnes(was, earlier) + if last in was || last in earlier then [] else [last]
  }

  lemma {:induction false} NewOnesFrom<F>(was: seq<F>, first: F, fns: seq<F>)
    ensures NewOnes(was, [first] + fns)
         == if first in was then NewOnes(was, fns) else [first] + NewOnes(was + [first], fns)
  {
    var all := [first] + fns;
    if fns == [] {
      assert all[..0] == [] && all[0] == first;
      assert NewOnes(was, []) == [];
    } else {
      var earlier, last := fns[..|fns| - 1], fns[|fns| - 1];
      assert all[..|all| - 1] == [first] + earlier && all[|all| - 1] == last;
      NewOnesFrom(was, first, earlier);
      if first !in was {
        var newest := if last in was || last in [first] + earlier then [] else [last];
        Regroup([first], NewOnes(was + [first], earlier), newest);
      }
    }
  }

  lemma Regroup<F>(a: seq<F>, b: seq<F>, c: seq<F>)
    ensures a + b + c == a + (b + c)
  {
  }

  /** What adding does to the functions on a list. They all go behind those on it, in order; with
      `unique`, only those that are new. */
  lemma {:induction false} PushAdds<F>(list: seq<Entry<F>>, fns: seq<F>, unique: bool, serial: nat)
    ensures Functions(Push(list, fns, unique, serial))
         == Functions(list) + if unique then NewOnes(Functions(list), fns) else fns
    decreases |fns|
  {
    if fns != [] {
      var first, more := fns[0], fns[1..];
      assert [first] + more == fns;
      HasFunction(list, first);
      NewOnesFrom(Functions(list), first, more);
      if unique && Has(list, first) {
        PushAdds(list, more, unique, serial);
      } else {
        var longer := list + [Entry(first, serial)];
        assert Functions(longer) == Functions(list) + [first];
        PushAdds(longer, more, unique, serial + 1);
        Regroup(Functions(list), [first], if unique then NewOnes(Functions(longer), more) else more);
      }
    }
  }

  lemma HasFunction<F>(list: seq<Entry<F>>, fn: F)
    ensures Has(list, fn) <==> fn in Functions(list)
  {
    if Has(list, fn) {
      var i :| 0 <= i < |list| && list[i].fn == fn;
      assert Functions(list)[i] == fn;
    }
  }

  /** add, on a list that is being fired or remembers nothing: nobody is called, and the functions go behind
      those on the list; with `unique`, each that is not on it yet, once. */
  lemma AddPutsBehind<F>(s: State<F>, fns: seq<F>)
    requires Valid(s) && s.list.Some? && (s.firing || s.memory.None?)
    ensures var r, was := Add(s, fns), Functions(s.list.value);
            && r.list.Some? && r.calls == s.calls
            && Functions(r.list.value) == was + if s.options.unique then NewOnes(was, fns) else fns
  {
    PushAdds(s.list.value, fns, s.options.unique, s.nextSerial);
  }

  // ---- lists that call nobody ---------------------------------------------------------------------

  ghost predicate Without<F>(ops: seq<Op<F>>, excluded: Op<F> -> bool)
  {
    forall i :: 0 <= i < |ops| ==> !excluded(ops[i])
  }

  ghost predicate NoneListed<F>(s: State<F>) { s.list.Some? ==> s.list.value == [] }

  lemma {:induction false} FireCallsNobody<F>(s: State<F>, data: Args, start: nat)
    requires s.list == Some([])
    ensures Fire(s, data, start).calls == s.calls && NoneListed(Fire(s, data, start))
    decreases |Queue(s)|, 1
  {
    EndCallsNobody(s.(memory := if s.options.memory then Some(data) else None, fired := true,
                      firingIndex := start, firingLength := 0, firing := true,
                      pass := Pass(data, s.nextSerial, |s.calls|)));
  }

  lemma {:induction false} EndCallsNobody<F>(s: State<F>)
    requires NoneListed(s)
    ensures EndPass(s).calls == s.calls && NoneListed(EndPass(s))
    decreases |Queue(s)|, 0
  {
    if s.list.Some? && s.stack.Some? && s.stack.value != [] {
      FireCallsNobody(s.(firing := false, stack := Some(s.stack.value[1..]), begun := s.begun + [s.stack.value[0]]),
                      s.stack.value[0], 0);
    }
  }

  lemma {:induction false} RemoveFromNobody<F>(s: State<F>, fns: seq<F>)
    requires Valid(s) && NoneListed(s)
    ensures NoneListed(Remove(s, fns)) && Remove(s, fns).calls == s.calls
    decreases |fns|
  {
    if fns != [] {
      RemoveFromNobody(RemoveOne(s, fns[0]), fns[1..]);
    }
  }

  lemma StepCallsNobody<F>(s: State<F>, op: Op<F>)
    requires Valid(s) && Enabled(s, op) && NoneListed(s) && !op.OpAdd?
    ensures NoneListed(Do(s, op)) && Do(s, op).calls == s.calls
  {
    match op
    case OpRemove(fns) => RemoveFromNobody(s, fns);
    case OpFire(args) =>
      if s.list.Some? && !s.firing && (!s.fired || s.stack.Some?) {
        FireCallsNobody(s.(accepted := s.accepted + [args], begun := s.begun + [args]), args, 0);
      }
    case OpReturn(value) =>
      if !value && s.options.stopOnFalse {
        EndCallsNobody(s.(memory := None));
      } else {
        EndCallsNobody(s.(firingIndex := s.firingIndex + 1));
      }
    case OpEmpty =>
    case OpDisable =>
    case OpLock =>
  }

  lemma {:induction false} RunCallsNobody<F>(s: State<F>, ops: seq<Op<F>>)
    requires Valid(s) && IsRun(s, ops) && NoneListed(s) && Without(ops, (op: Op<F>) => op.OpAdd?)
    ensures After(s, ops).calls == s.calls
    decreases |ops|
  {
    if ops != [] {
      StepCallsNobody(s, ops[0]);
      assert forall i :: 0 <= i < |ops[1..]| ==> ops[1..][i] == ops[i + 1];
      RunCallsNobody(Do(s, ops[0]), ops[1..]);
    }
  }

  /** After `empty`, also during a pass, nobody is called until a function is added. */
  lemma EmptyCallsNobody<F>(s: State<F>, ops: seq<Op<F>>)
    requires Valid(s) && IsRun(Do(s, OpEmpty), ops) && Without(ops, (op: Op<F>) => op.OpAdd?)
    ensures After(Do(s, OpEmpty), ops).calls == s.calls
  {
    RunCallsNobody(Do(s, OpEmpty), ops);
  }

  /** Nothing more is called or accepted. */
  ghost predicate Silent<F>(s: State<F>, r: State<F>)
  {
    r.list.None? && r.calls == s.calls && r.accepted == s.accepted
  }

  lemma StepStaysDisabled<F>(s: State<F>, op: Op<F>)
    requires Valid(s) && Enabled(s, op) && s.list.None? && !op.OpEmpty?
    ensures Silent(s, Do(s, op))
  {
    match op
    case OpRemove(fns) => RemoveKeepsRest(s, fns); RemoveFromNobody(s, fns);
    case OpReturn(value) =>
      if value || !s.options.stopOnFalse {
        var s' := s.(firingIndex := s.firingIndex + 1);
        assert Return(s, value) == EndPass(s');
      }
    case _ =>
  }

  lemma {:induction false} DisabledStays<F>(s: State<F>, ops: seq<Op<F>>)
    requires Valid(s) && IsRun(s, ops) && s.list.None? && Without(ops, (op: Op<F>) => op.OpEmpty?)
    ensures Silent(s, After(s, ops))
    decreases |ops|
  {
    if ops != [] {
      StepStaysDisabled(s, ops[0]);
      assert forall i :: 0 <= i < |ops[1..]| ==> ops[1..][i] == ops[i + 1];
      DisabledStays(Do(s, ops[0]), ops[1..]);
    }
  }

  /** After `disable`, also during a pass, nobody is called, whatever is added or fired; only `empty` makes
      a list of it again. */
  lemma DisableCallsNobody<F>(s: State<F>, ops: seq<Op<F>>)
    requires Valid(s) && IsRun(Do(s, OpDisable), ops) && Without(ops, (op: Op<F>) => op.OpEmpty?)
    ensures Silent(s, After(Do(s, OpDisable), ops))
  {
    DisabledStays(Do(s, OpDisable), ops);
  }

  /** No fire is accepted any more, and none is waiting. */
  ghost predicate Locked<F>(s: State<F>) { s.stack.None? && (s.list.None? || s.fired) }

  ghost predicate BeginsNone<F>(s: State<F>, r: State<F>)
  {
    Locked(r) && r.accepted == s.accepted && r.begun == s.begun
  }

  lemma EndStaysLocked<F>(s: State<F>)
    requires Locked(s)
    ensures BeginsNone(s, EndPass(s))
  {
  }

  lemma LoopStaysLocked<F>(s: State<F>)
    requires Locked(s) && s.fired && s.firing && 0 <= s.firingIndex
    requires s.list.Some? ==> s.firingLength == |s.list.value|
    ensures BeginsNone(s, Loop(s))
  {
    if !(s.list.Some? && s.firingIndex < s.firingLength) {
      EndStaysLocked(s);
    }
  }

  lemma AddStaysLocked<F>(s: State<F>, fns: seq<F>)
    requires Valid(s) && Locked(s)
    ensures BeginsNone(s, Add(s, fns))
  {
    if s.list.Some? && !s.firing && s.memory.Some? {
      var start, data := |s.list.value|, s.memory.value;
      var list := Push(s.list.value, fns, s.options.unique, s.nextSerial);
      var s1 := s.(list := Some(list), nextSerial := s.nextSerial + |fns|);
      var from := if start < |list| then list[start].serial else s1.nextSerial;
      var s2 := s1.(memory := if s.options.memory then Some(data) else None, fired := true, firingIndex := start,
                    firingLength := |list|, firing := true, pass := Pass(data, from, |s.calls|));
      assert Fire(s1, data, start) == Loop(s2);
      LoopStaysLocked(s2);
    }
  }

  lemma StepStaysLocked<F>(s: State<F>, op: Op<F>)
    requires Valid(s) && Enabled(s, op) && Locked(s) && !op.OpEmpty?
    ensures BeginsNone(s, Do(s, op))
  {
    match op
    case OpAdd(fns) => AddStaysLocked(s, fns);
    case OpRemove(fns) => RemoveKeepsRest(s, fns);
    case OpReturn(value) =>
      if !value && s.options.stopOnFalse {
        EndStaysLocked(s.(memory := None));
      } else {
        LoopStaysLocked(s.(firingIndex := s.firingIndex + 1));
      }
    case _ =>
  }

  lemma {:induction false} RunStaysLocked<F>(s: State<F>, ops: seq<Op<F>>)
    requires Valid(s) && IsRun(s, ops) && Locked(s) && Without(ops, (op: Op<F>) => op.OpEmpty?)
    ensures After(s, ops).accepted == s.accepted && After(s, ops).begun == s.begun
    decreases |ops|
  {
    if ops != [] {
      StepStaysLocked(s, ops[0]);
      assert forall i :: 0 <= i < |ops[1..]| ==> ops[1..][i] == ops[i + 1];
      RunStaysLocked(Do(s, ops[0]), ops[1..]);
    }
  }

  /** After `lock` no fire is accepted and those waiting never begin; only what has begun goes on, and
      functions added are called with what a list with a memory remembers. */
  lemma LockIgnoresFires<F>(options: Options, before: seq<Op<F>>, ops: seq<Op<F>>)
    requires IsRun(New<F>(options), before)
    requires IsRun(Do(After(New<F>(options), before), OpLock), ops) && Without(ops, (op: Op<F>) => op.OpEmpty?)
    ensures var s := After(New<F>(options), before);
            var r := After(Do(s, OpLock), ops);
            r.accepted == s.accepted && r.begun == s.begun
  {
    FiresAreServedInOrder(New<F>(options), before);
    RunStaysLocked(Do(After(New<F>(options), before), OpLock), ops);
  }
}
