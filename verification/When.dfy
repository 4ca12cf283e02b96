/** jQuery.when: waits for several inputs, of which some are promises, and settles a master
    deferred. */
module Joining {
  import opened Wrappers
  import opened Callbacks
  import opened Deferreds

  /** The variables of the closure. `answered` are the promises whose callbacks have run. */
  datatype When<U> = When(
    inputs: seq<Value>,
    next: nat,
    remaining: int,
    values: seq<Value>,
    master: Deferred<U>,
    finished: bool,
    answered: set<nat>)

  /** The call: with no input, or one that is no promise, there is nothing to register. A single
      promise is used as the master itself and is not part of this model. */
  function Start<U(==)>(inputs: seq<Value>): When<U>
    requires |inputs| != 1 || !inputs[0].Promise?
  {
    var next := if |inputs| > 1 then 0 else |inputs|;
    var remaining := if |inputs| != 1 then |inputs| else 0;
    When(inputs, next, remaining, inputs, NewDeferred(), false, {})
  }

  /** What a callback stores: its argument, or all of them when there are several. */
  function Collapse(args: Args): Value
  {
    if |args.values| > 1 then Many(args.values) else if |args.values| == 1 then args.values[0] else Undefined
  }

  datatype Step<U> =
    | Register                        // the next round of the loop over the inputs
    | Finish                          // the test after the loop
    | Resolve(i: nat, args: Args)     // promise `i` calls its done callback
    | Reject(i: nat, args: Args)      // promise `i` calls its fail callback
    | OnMaster(op: Op<U>)             // anything but settling is done with the promise returned

  /** A promise calls one of its two callbacks, once, and not before they are added. */
  predicate MayAnswer<U>(w: When<U>, i: nat) { i < w.next <= |w.inputs| && w.inputs[i].Promise? && i !in w.answered }

  predicate May<U>(w: When<U>, step: Step<U>)
  {
    match step
    case Register => w.next < |w.inputs|
    case Finish => w.next == |w.inputs| && !w.finished
    case Resolve(i, _) => MayAnswer(w, i)
    case Reject(i, _) => MayAnswer(w, i)
    case OnMaster(op) => CanDo(w.master, op) && !op.Settle?
  }

  predicate Shaped<U>(w: When<U>) { Proper(w.master) && |w.values| == |w.inputs| && w.next <= |w.inputs| }

  function SettleMaster<U(==)>(w: When<U>, side: Side, args: Args): (r: When<U>)
    requires Shaped(w)
    ensures Shaped(r)
  {
    w.(master := DoOn(w.master, Settle(side, args)))
  }

  function TakeStep<U(==)>(w: When<U>, step: Step<U>): (r: When<U>)
    requires Shaped(w) && May(w, step)
    ensures Shaped(r)
  {
    match step
    case Register =>
      w.(next := w.next + 1, remaining := if w.inputs[w.next].Promise? then w.remaining else w.remaining - 1)
    case Finish =>
      var w' := w.(finished := true);
      if w.remaining == 0 then SettleMaster(w', Done, Args(w.values)) else w'
    case Resolve(i, args) =>
      var w' := w.(values := w.values[i := Collapse(args)], remaining := w.remaining - 1, answered := w.answered + {i});
      if w'.remaining == 0 then SettleMaster(w', Done, Args(w'.values)) else w'
    case Reject(i, args) => SettleMaster(w.(answered := w.answered + {i}), Fail, args)
    case OnMaster(op) => w.(master := DoOn(w.master, op))
  }

  predicate IsWhenRun<U(==)>(w: When<U>, steps: seq<Step<U>>)
    requires Shaped(w)
    decreases |steps|
  {
    steps == [] || (May(w, steps[0]) && IsWhenRun(TakeStep(w, steps[0]), steps[1..]))
  }

  function Reaches<U(==)>(w: When<U>, steps: seq<Step<U>>): (r: When<U>)
    requires Shaped(w) && IsWhenRun(w, steps)
    ensures Shaped(r)
    decreases |steps|
  {
    if steps == [] then w else Reaches(TakeStep(w, steps[0]), steps[1..])
  }

  // ---- what the promises answered ----------------------------------------------------------

  /** What the promises have answered: the arguments each was resolved with, and those of the first
      rejection. */
  datatype Answers = Answers(resolved: map<nat, Args>, rejected: Option<Args>, refused: set<nat>)

  const NO_ANSWERS := Answers(map[], None, {})

  function Note<U>(a: Answers, step: Step<U>): Answers
  {
    match step
    case Resolve(i, args) => a.(resolved := a.resolved[i := args])
    case Reject(i, args) =>
      a.(rejected := if a.rejected.None? then Some(args) else a.rejected, refused := a.refused + {i})
    case _ => a
  }

  function NoteAll<U>(a: Answers, steps: seq<Step<U>>): Answers
    decreases |steps|
  {
    if steps == [] then a else NoteAll(Note(a, steps[0]), steps[1..])
  }

  /** The promises among the first `n` inputs that have not been resolved. */
  ghost function Unresolved(inputs: seq<Value>, n: nat, resolved: set<nat>): set<nat>
  {
    set i: nat | i < n && i < |inputs| && inputs[i].Promise? && i !in resolved
  }

  /** What each input comes to: itself, or what its promise was resolved with. */
  ghost function Answer(inputs: seq<Value>, resolved: map<nat, Args>, i: nat): Value
    requires i < |inputs|
  {
    if i in resolved then Collapse(resolved[i]) else inputs[i]
  }

  ghost predicate Stored(inputs: seq<Value>, values: seq<Value>, resolved: map<nat, Args>)
  {
    |values| == |inputs| && forall i :: 0 <= i < |values| ==> values[i] == Answer(inputs, resolved, i)
  }

  ghost predicate Tallied(inputs: seq<Value>, next: nat, remaining: int, resolved: set<nat>)
  {
    remaining == |inputs| - next + |Unresolved(inputs, next, resolved)|
  }

  ghost predicate Noted(inputs: seq<Value>, next: nat, answered: set<nat>, resolved: set<nat>, refused: set<nat>)
  {
    && answered == resolved + refused
    && refused <= Unresolved(inputs, next, resolved)
    && (forall i :: i in resolved ==> i < next && i < |inputs| && inputs[i].Promise?)
  }

  ghost predicate Counted<U>(w: When<U>, a: Answers)
  {
    && Shaped(w) && Stored(w.inputs, w.values, a.resolved) && Tallied(w.inputs, w.next, w.remaining, a.resolved.Keys)
    && Noted(w.inputs, w.next, w.answered, a.resolved.Keys, a.refused) && (a.rejected.Some? <==> a.refused != {})
  }

  /** What has settled the master, given what the promises answered. */
  ghost predicate SettledAs<U>(w: When<U>, a: Answers, l: Ledger<U>)
  {
    && Keeps(w.master, l)
    && (a.rejected.Some? ==> l.first == Some((Fail, a.rejected.value)))
    && (a.rejected.None? && l.first.Some? ==> w.remaining == 0 && l.first.value == (Done, Args(w.values)))
    && (w.finished ==> w.next == |w.inputs| && (w.remaining == 0 ==> l.first.Some?))
  }

  lemma StartIsCounted<U>(inputs: seq<Value>)
    requires |inputs| != 1 || !inputs[0].Promise?
    ensures Counted(Start<U>(inputs), NO_ANSWERS)
  {
    assert Unresolved(inputs, Start<U>(inputs).next, {}) == {};
  }

  lemma OneMoreInput(inputs: seq<Value>, n: nat, resolved: set<nat>)
    requires n < |inputs| && n !in resolved
    ensures |Unresolved(inputs, n + 1, resolved)|
         == |Unresolved(inputs, n, resolved)| + if inputs[n].Promise? then 1 else 0
    ensures Unresolved(inputs, n, resolved) <= Unresolved(inputs, n + 1, resolved)
  {
    var before, after := Unresolved(inputs, n, resolved), Unresolved(inputs, n + 1, resolved);
    assert n !in before;
    assert after == before + if inputs[n].Promise? then {n} else {};
  }

  lemma OneMoreAnswer(inputs: seq<Value>, n: nat, resolved: set<nat>, i: nat)
    requires i in Unresolved(inputs, n, resolved)
    ensures |Unresolved(inputs, n, resolved + {i})| == |Unresolved(inputs, n, resolved)| - 1
    ensures Unresolved(inputs, n, resolved + {i}) == Unresolved(inputs, n, resolved) - {i}
  {
    assert Unresolved(inputs, n, resolved + {i}) == Unresolved(inputs, n, resolved) - {i};
  }

  lemma RegisterCounts<U>(w: When<U>, a: Answers)
    requires Counted(w, a) && w.next < |w.inputs|
    ensures Counted(TakeStep(w, Register), a)
  {
    OneMoreInput(w.inputs, w.next, a.resolved.Keys);
  }

  lemma ResolveStores(inputs: seq<Value>, values: seq<Value>, resolved: map<nat, Args>, i: nat, args: Args)
    requires Stored(inputs, values, resolved) && i < |inputs|
    ensures Stored(inputs, values[i := Collapse(args)], resolved[i := args])
  {
  }

  lemma ResolveNotes(inputs: seq<Value>, next: nat, answered: set<nat>, resolved: set<nat>, refused: set<nat>, i: nat)
    requires Noted(inputs, next, answered, resolved, refused) && i in Unresolved(inputs, next, resolved)
    requires i !in refused
    ensures Noted(inputs, next, answered + {i}, resolved + {i}, refused)
  {
    OneMoreAnswer(inputs, next, resolved, i);
  }

  /** The count, the values and the notes after a promise was resolved. */
  lemma ResolveTallies(inputs: seq<Value>, next: nat, remaining: int, resolved: set<nat>, i: nat)
    requires Tallied(inputs, next, remaining, resolved) && i in Unresolved(inputs, next, resolved)
    ensures Tallied(inputs, next, remaining - 1, resolved + {i})
  {
    OneMoreAnswer(inputs, next, resolved, i);
  }

  lemma KeysOf(resolved: map<nat, Args>, i: nat, args: Args)
    ensures resolved[i := args].Keys == resolved.Keys + {i}
  {
  }

  lemma ResolveCounts<U>(w: When<U>, a: Answers, i: nat, args: Args)
    requires Counted(w, a) && MayAnswer(w, i)
    ensures Counted(TakeStep(w, Resolve(i, args)), a.(resolved := a.resolved[i := args]))
  {
    KeysOf(a.resolved, i, args);
    ResolveTallies(w.inputs, w.next, w.remaining, a.resolved.Keys, i);
    ResolveStores(w.inputs, w.values, a.resolved, i, args);
    ResolveNotes(w.inputs, w.next, w.answered, a.resolved.Keys, a.refused, i);
  }

  lemma RejectCounts<U>(w: When<U>, a: Answers, i: nat, args: Args)
    requires Counted(w, a) && MayAnswer(w, i)
    ensures Counted(TakeStep(w, Reject(i, args)), Note<U>(a, Reject(i, args)))
  {
  }

  lemma StepCounts<U>(w: When<U>, a: Answers, step: Step<U>)
    requires Counted(w, a) && May(w, step)
    ensures Counted(TakeStep(w, step), Note(a, step))
  {
    match step
    case Register => RegisterCounts(w, a);
    case Resolve(i, args) => ResolveCounts(w, a, i, args);
    case Reject(i, args) => RejectCounts(w, a, i, args);
    case Finish =>
    case OnMaster(op) =>
  }

  // ---- what settles the master -----------------------------------------------------------------

  /** The account of what is done with the master. */
  function MasterNote<U>(w: When<U>, l: Ledger<U>, step: Step<U>): Ledger<U>
    requires Shaped(w) && May(w, step)
  {
    match step
    case Register => l
    case Finish => if w.remaining == 0 then Record(l, Settle(Done, Args(w.values))) else l
    case Resolve(i, args) =>
      if w.remaining == 1 then Record(l, Settle(Done, Args(w.values[i := Collapse(args)]))) else l
    case Reject(_, args) => Record(l, Settle(Fail, args))
    case OnMaster(op) => Record(l, op)
  }

  lemma OpenPromise<U>(w: When<U>, a: Answers, i: nat)
    requires Counted(w, a) && MayAnswer(w, i)
    ensures w.remaining >= 1
  {
    assert i in Unresolved(w.inputs, w.next, a.resolved.Keys);
  }

  lemma Refused<U>(w: When<U>, a: Answers)
    requires Counted(w, a) && a.rejected.Some?
    ensures w.remaining >= 1
  {
    var i :| i in a.refused;
    assert i in Unresolved(w.inputs, w.next, a.resolved.Keys);
  }

  lemma FinishSettles<U>(w: When<U>, a: Answers, l: Ledger<U>)
    requires Counted(w, a) && SettledAs(w, a, l) && May(w, Finish)
    ensures SettledAs(TakeStep(w, Finish), a, MasterNote(w, l, Finish))
  {
    if a.rejected.Some? {
      Refused(w, a);
    }
    if w.remaining == 0 {
      SettleKeeps(w.master, l, Done, Args(w.values));
    }
  }

  lemma ResolveSettles<U>(w: When<U>, a: Answers, l: Ledger<U>, i: nat, args: Args)
    requires Counted(w, a) && SettledAs(w, a, l) && MayAnswer(w, i)
    requires a.rejected.Some? ==> w.remaining > 1
    ensures SettledAs(TakeStep(w, Resolve(i, args)), a.(resolved := a.resolved[i := args]),
                      MasterNote(w, l, Resolve(i, args)))
  {
    OpenPromise(w, a, i);
    if w.remaining == 1 {
      SettleKeeps(w.master, l, Done, Args(w.values[i := Collapse(args)]));
    }
  }

  lemma ResolvedSettles<U>(w: When<U>, a: Answers, l: Ledger<U>, i: nat, args: Args)
    requires Counted(w, a) && SettledAs(w, a, l) && MayAnswer(w, i)
    requires Counted(TakeStep(w, Resolve(i, args)), Note<U>(a, Resolve(i, args)))
    ensures SettledAs(TakeStep(w, Resolve(i, args)), Note<U>(a, Resolve(i, args)), MasterNote(w, l, Resolve(i, args)))
  {
    if a.rejected.Some? {
      Refused(TakeStep(w, Resolve(i, args)), Note<U>(a, Resolve(i, args)));
    }
    ResolveSettles(w, a, l, i, args);
  }

  lemma RejectSettles<U>(w: When<U>, a: Answers, l: Ledger<U>, i: nat, args: Args)
    requires Counted(w, a) && SettledAs(w, a, l) && MayAnswer(w, i)
    ensures SettledAs(TakeStep(w, Reject(i, args)), Note<U>(a, Reject(i, args)), MasterNote(w, l, Reject(i, args)))
  {
    OpenPromise(w, a, i);
    SettleKeeps(w.master, l, Fail, args);
  }

  lemma StepSettles<U>(w: When<U>, a: Answers, l: Ledger<U>, step: Step<U>)
    requires Counted(w, a) && SettledAs(w, a, l) && May(w, step) && Counted(TakeStep(w, step), Note(a, step))
    ensures SettledAs(TakeStep(w, step), Note(a, step), MasterNote(w, l, step))
  {
    match step
    case Register =>
    case Finish => FinishSettles(w, a, l);
    case Resolve(i, args) => ResolvedSettles(w, a, l, i, args);
    case Reject(i, args) => RejectSettles(w, a, l, i, args);
    case OnMaster(op) => StepKeeps(w.master, l, op);
  }

  ghost predicate Tracks<U>(w: When<U>, a: Answers, l: Ledger<U>)
  {
    Counted(w, a) && SettledAs(w, a, l)
  }

  lemma StepTracks<U>(w: When<U>, a: Answers, l: Ledger<U>, step: Step<U>)
    requires Tracks(w, a, l) && May(w, step)
    ensures Tracks(TakeStep(w, step), Note(a, step), MasterNote(w, l, step)) && TakeStep(w, step).inputs == w.inputs
  {
    StepCounts(w, a, step);
    StepSettles(w, a, l, step);
    InputsStay(w, step);
  }

  lemma InputsStay<U>(w: When<U>, step: Step<U>)
    requires Shaped(w) && May(w, step)
    ensures TakeStep(w, step).inputs == w.inputs
  {
  }

  lemma {:induction false} RunSettles<U>(w: When<U>, a: Answers, l: Ledger<U>, steps: seq<Step<U>>)
    returns (l': Ledger<U>)
    requires Tracks(w, a, l) && IsWhenRun(w, steps)
    ensures Tracks(Reaches(w, steps), NoteAll(a, steps), l') && Reaches(w, steps).inputs == w.inputs
    decreases |steps|
  {
    if steps == [] {
      l' := l;
    } else {
      StepTracks(w, a, l, steps[0]);
      l' := RunSettles(TakeStep(w, steps[0]), Note(a, steps[0]), MasterNote(w, l, steps[0]), steps[1..]);
    }
  }

  /** What the master's callbacks have seen: nothing on this side, or these arguments only. */
  ghost predicate CalledOnlyWith<U>(s: State<Fn<U>>, args: Args)
  {
    forall k :: 0 <= k < |s.calls| ==> s.calls[k].args == args
  }

  /** The value is the argument that a promise was resolved with, or the list of them if there are several, or
      nothing if there is none. */
  ghost predicate HoldsAnswer(value: Value, args: Args)
  {
    && (|args.values| == 0 ==> value == Undefined)
    && (|args.values| == 1 ==> value == args.values[0])
    && (|args.values| > 1 ==> value == Many(args.values))
  }

  /** The counter is conserved, and the master settles as the inputs do. In every run, however the
      answers of the promises interleave with the registration: once all inputs are registered,
      `remaining` is the number of promises not resolved. Once the call is over, the master is
      rejected exactly if some promise was, with the arguments of the first rejection; it is
      resolved exactly if all promises were, with the value of each input at its place; and it
      never calls a callback with anything else. */
  lemma WhenSettlesWithItsInputs<U>(inputs: seq<Value>, steps: seq<Step<U>>)
    requires |inputs| != 1 || !inputs[0].Promise?
    requires IsWhenRun(Start<U>(inputs), steps)
    ensures var w, a := Reaches(Start<U>(inputs), steps), NoteAll(NO_ANSWERS, steps);
            && w.inputs == inputs
            && (w.next == |w.inputs| ==> w.remaining == |Unresolved(w.inputs, |w.inputs|, a.resolved.Keys)|)
            && (a.rejected.Some? ==>
                  && w.master.status == Rejected && w.master.done.calls == []
                  && CalledOnlyWith(w.master.fail, a.rejected.value))
            && (w.master.status == Rejected ==> a.rejected.Some?)
            && (w.master.status == Resolved ==>
                  && w.next == |w.inputs| && Unresolved(w.inputs, |w.inputs|, a.resolved.Keys) == {}
                  && w.master.fail.calls == [] && CalledOnlyWith(w.master.done, Args(w.values))
                  && |w.values| == |w.inputs|
                  && (forall i :: 0 <= i < |w.inputs| ==>
                        if w.inputs[i].Promise? then i in a.resolved && HoldsAnswer(w.values[i], a.resolved[i])
                        else w.values[i] == w.inputs[i]))
            && (w.finished && Unresolved(w.inputs, |w.inputs|, a.resolved.Keys) == {} ==> w.master.status == Resolved)
  {
    StartIsCounted<U>(inputs);
    NewKeeps<U>();
    var l := RunSettles(Start<U>(inputs), NO_ANSWERS, Ledger(None, [], [], []), steps);
    var w, a := Reaches(Start<U>(inputs), steps), NoteAll(NO_ANSWERS, steps);
    Conclude(w, a, l);
  }

  lemma Conclude<U>(w: When<U>, a: Answers, l: Ledger<U>)
    requires Counted(w, a) && SettledAs(w, a, l)
    ensures w.next == |w.inputs| ==> w.remaining == |Unresolved(w.inputs, |w.inputs|, a.resolved.Keys)|
    ensures a.rejected.Some? ==>
              && w.master.status == Rejected && w.master.done.calls == []
              && CalledOnlyWith(w.master.fail, a.rejected.value)
    ensures w.master.status == Rejected ==> a.rejected.Some?
    ensures w.master.status == Resolved ==>
              && w.next == |w.inputs| && Unresolved(w.inputs, |w.inputs|, a.resolved.Keys) == {}
              && w.master.fail.calls == [] && CalledOnlyWith(w.master.done, Args(w.values))
              && |w.values| == |w.inputs|
              && (forall i :: 0 <= i < |w.inputs| ==>
                    if w.inputs[i].Promise? then i in a.resolved && HoldsAnswer(w.values[i], a.resolved[i])
                    else w.values[i] == w.inputs[i])
    ensures w.finished && Unresolved(w.inputs, |w.inputs|, a.resolved.Keys) == {} ==> w.master.status == Resolved
  {
    if a.rejected.Some? {
      Refused(w, a);
    }
    forall i | 0 <= i < |w.inputs| && w.next == |w.inputs| && Unresolved(w.inputs, |w.inputs|, a.resolved.Keys) == {}
      ensures if w.inputs[i].Promise? then i in a.resolved && HoldsAnswer(w.values[i], a.resolved[i])
              else w.values[i] == w.inputs[i]
    {
      assert i in a.resolved || i !in Unresolved(w.inputs, |w.inputs|, a.resolved.Keys);
      assert w.values[i] == Answer(w.inputs, a.resolved, i);
    }
  }

  // ---- the account of the answers -----------------------------------------------------------------

  /** How many inputs a run registers. */
  ghost function Registered<U>(steps: seq<Step<U>>): nat
  {
    if steps == [] then 0 else (if steps[0].Register? then 1 else 0) + Registered(steps[1..])
  }

  lemma {:induction false} RunRegisters<U>(w: When<U>, steps: seq<Step<U>>)
    requires Shaped(w) && IsWhenRun(w, steps)
    ensures Reaches(w, steps).next == w.next + Registered(steps)
    ensures Reaches(w, steps).finished <==> w.finished || exists k :: 0 <= k < |steps| && steps[k].Finish?
    decreases |steps|
  {
    if steps != [] {
      var first, more := steps[0], steps[1..];
      assert forall k :: 0 <= k < |more| ==> more[k] == steps[k + 1];
      assert forall k :: 0 < k < |steps| ==> steps[k] == more[k - 1];
      RunRegisters(TakeStep(w, first), more);
    }
  }

  /** The call goes through the inputs one by one, and is over with the test after them. */
  lemma CallGoesThroughInputs<U>(inputs: seq<Value>, steps: seq<Step<U>>)
    requires |inputs| != 1 || !inputs[0].Promise?
    requires IsWhenRun(Start<U>(inputs), steps)
    ensures var w := Reaches(Start<U>(inputs), steps);
            && w.next == (if |inputs| > 1 then 0 else |inputs|) + Registered(steps) <= |inputs|
            && (w.finished <==> exists k :: 0 <= k < |steps| && steps[k].Finish?)
  {
    RunRegisters(Start<U>(inputs), steps);
    InputsStayInRun(Start<U>(inputs), steps);
  }

  lemma {:induction false} InputsStayInRun<U>(w: When<U>, steps: seq<Step<U>>)
    requires Shaped(w) && IsWhenRun(w, steps)
    ensures Reaches(w, steps).inputs == w.inputs
    decreases |steps|
  {
    if steps != [] {
      InputsStay(w, steps[0]);
      InputsStayInRun(TakeStep(w, steps[0]), steps[1..]);
    }
  }

  ghost predicate Resolves<U>(steps: seq<Step<U>>, i: nat, args: Args)
  {
    exists k :: 0 <= k < |steps| && steps[k] == Resolve(i, args)
  }

  /** The first step that rejects is the one that rejects with these arguments. */
  ghost predicate FirstRejects<U>(steps: seq<Step<U>>, args: Args)
  {
    exists k :: 0 <= k < |steps| && RejectsFirst(steps, args, k)
  }

  ghost predicate RejectsFirst<U>(steps: seq<Step<U>>, args: Args, k: nat)
    requires k < |steps|
  {
    steps[k].Reject? && steps[k].args == args && forall j :: 0 <= j < k ==> !steps[j].Reject?
  }

  lemma ResolvesLater<U>(first: Step<U>, steps: seq<Step<U>>, i: nat, args: Args)
    ensures Resolves([first] + steps, i, args) <==> first == Resolve(i, args) || Resolves(steps, i, args)
  {
    if Resolves(steps, i, args) {
      var k :| 0 <= k < |steps| && steps[k] == Resolve(i, args);
      assert ([first] + steps)[k + 1] == Resolve(i, args);
    }
    if first == Resolve(i, args) {
      assert ([first] + steps)[0] == first;
    }
  }

  lemma FirstRejectsLater<U>(first: Step<U>, steps: seq<Step<U>>, args: Args)
    requires !first.Reject? && FirstRejects(steps, args)
    ensures FirstRejects([first] + steps, args)
  {
    var k :| 0 <= k < |steps| && RejectsFirst(steps, args, k);
    assert ([first] + steps)[k + 1] == steps[k];
    assert RejectsFirst([first] + steps, args, k + 1);
  }

  /** The account is that of the steps: a promise is down as resolved exactly if a step resolves it, with the
      arguments of such a step; a rejection is down exactly if a step rejects, with those of the first. */
  lemma {:induction false} NotesAreAnswers<U>(steps: seq<Step<U>>)
    ensures var a := NoteAll(NO_ANSWERS, steps);
            && (forall i :: i in a.resolved <==> exists args :: Resolves(steps, i, args))
            && (forall i :: i in a.resolved ==> Resolves(steps, i, a.resolved[i]))
            && (a.rejected.Some? ==> FirstRejects(steps, a.rejected.value))
            && (a.rejected.None? ==> forall k :: 0 <= k < |steps| ==> !steps[k].Reject?)
  {
    forall i ensures i in NoteAll(NO_ANSWERS, steps).resolved <==> exists args :: Resolves(steps, i, args) {
      NotesResolved(NO_ANSWERS, steps, i);
    }
    var a := NoteAll(NO_ANSWERS, steps);
    forall i | i in a.resolved ensures Resolves(steps, i, a.resolved[i]) {
      NotesResolved(NO_ANSWERS, steps, i);
    }
    NotesRejected(NO_ANSWERS, steps);
  }

  lemma {:induction false} NotesResolved<U>(a: Answers, steps: seq<Step<U>>, i: nat)
    ensures var r := NoteAll(a, steps).resolved;
            && (i in r ==> Resolves(steps, i, r[i]) || (i in a.resolved && r[i] == a.resolved[i]))
            && (forall args :: Resolves(steps, i, args) ==> i in r)
            && (i in a.resolved ==> i in r)
    decreases |steps|
  {
    if steps != [] {
      var first, more := steps[0], steps[1..];
      assert [first] + more == steps;
      NotesResolved(Note(a, first), more, i);
      forall args ensures Resolves(steps, i, args) <==> first == Resolve(i, args) || Resolves(more, i, args) {
        ResolvesLater(first, more, i, args);
      }
    }
  }

  lemma {:induction false} NotesRejected<U>(a: Answers, steps: seq<Step<U>>)
    ensures var r := NoteAll(a, steps).rejected;
            && (a.rejected.Some? ==> r == a.rejected)
            && (a.rejected.None? && r.Some? ==> FirstRejects(steps, r.value))
            && (r.None? ==> forall k :: 0 <= k < |steps| ==> !steps[k].Reject?)
    decreases |steps|
  {
    if steps != [] {
      var first, more := steps[0], steps[1..];
      assert [first] + more == steps;
      NotesRejected(Note(a, first), more);
      var r := NoteAll(a, steps).rejected;
      if a.rejected.None? && r.Some? {
        if first.Reject? {
          assert RejectsFirst(steps, r.value, 0);
        } else {
          FirstRejectsLater(first, more, r.value);
        }
      }
    }
  }

  // ---- the call ----------------------------------------------------------------------------------

  predicate Fresh<U>(w: When<U>)
  {
    Shaped(w) && !w.finished && forall i :: i in w.answered ==> i < w.next
  }

  /** One round of the loop: a promise that is settled already answers when its callbacks are added. */
  function Round<U(==)>(w: When<U>, answer: Option<(Side, Args)>): (r: When<U>)
    requires Fresh(w) && w.next < |w.inputs|
    ensures Fresh(r) && r.inputs == w.inputs && r.next == w.next + 1
  {
    var r := TakeStep(w, Register);
    if !w.inputs[w.next].Promise? || answer.None? then r
    else if answer.value.0 == Done then TakeStep(r, Resolve(w.next, answer.value.1))
    else TakeStep(r, Reject(w.next, answer.value.1))
  }

  /** The rest of the loop, and the test after it. `answers` says which inputs are settled already. */
  function Rounds<U(==)>(w: When<U>, answers: seq<Option<(Side, Args)>>): When<U>
    requires Fresh(w) && |answers| == |w.inputs|
    decreases |w.inputs| - w.next
  {
    if w.next == |w.inputs| then TakeStep(w, Finish) else Rounds(Round(w, answers[w.next]), answers)
  }

  lemma RoundIsRun<U>(w: When<U>, answer: Option<(Side, Args)>, rest: seq<Step<U>>) returns (steps: seq<Step<U>>)
    requires Fresh(w) && w.next < |w.inputs| && IsWhenRun(Round(w, answer), rest)
    ensures IsWhenRun(w, steps) && Reaches(w, steps) == Reaches(Round(w, answer), rest)
  {
    if !w.inputs[w.next].Promise? || answer.None? {
      steps := [Register] + rest;
    } else {
      var next := if answer.value.0 == Done then Resolve(w.next, answer.value.1) else Reject(w.next, answer.value.1);
      steps := [Register] + ([next] + rest);
      assert steps[1..] == [next] + rest && steps[1..][1..] == rest;
      assert IsWhenRun(TakeStep(w, Register), [next] + rest);
    }
    assert steps[0] == Register;
  }

  /** The call is one of the runs. */
  lemma {:induction false} CallIsRun<U>(w: When<U>, answers: seq<Option<(Side, Args)>>) returns (steps: seq<Step<U>>)
    requires Fresh(w) && |answers| == |w.inputs|
    ensures IsWhenRun(w, steps) && Reaches(w, steps) == Rounds(w, answers)
    decreases |w.inputs| - w.next
  {
    if w.next == |w.inputs| {
      steps := [Finish];
      assert IsWhenRun(TakeStep(w, Finish), steps[1..]);
    } else {
      var rest := CallIsRun(Round(w, answers[w.next]), answers);
      steps := RoundIsRun(w, answers[w.next], rest);
    }
  }

  class Join<U(==)> {
    const inputs: seq<Value>
    var remaining: int
    const values: array<Value>
    const master: DeferredObject<U>
    ghost var next: nat
    ghost var finished: bool
    ghost var answered: set<nat>

    ghost function Now(): When<U>
      reads this, values, master, master.done, master.fail, master.progress
    {
      When(inputs, next, remaining, values[..], master.Now(), finished, answered)
    }

    ghost predicate Ok()
      reads this, values, master, master.done, master.fail, master.progress
    {
      master.Ok() && Shaped(Now())
    }

    constructor (inputs: seq<Value>)
      requires |inputs| != 1 || !inputs[0].Promise?
      ensures Ok() && Now() == Start(inputs) && this.inputs == inputs
      ensures fresh(values) && fresh(master) && fresh(master.done) && fresh(master.fail) && fresh(master.progress)
    {
      this.inputs := inputs;
      remaining := if |inputs| != 1 then |inputs| else 0;
      values := new Value[|inputs|](i requires 0 <= i < |inputs| => inputs[i]);
      master := new DeferredObject<U>();
      next, finished, answered := if |inputs| > 1 then 0 else |inputs|, false, {};
      new;
      assert values[..] == inputs;
    }

    /** The function made by updateFunc for a resolved input. */
    method Update(i: nat, args: Args)
      requires Ok() && MayAnswer(Now(), i)
      modifies this, values, master, master.done, master.fail, master.progress
      ensures Ok() && Now() == TakeStep(old(Now()), Resolve(i, args))
      ensures remaining == old(remaining) - 1 && HoldsAnswer(values[i], args)
      ensures forall j :: 0 <= j < |inputs| && j != i ==> values[j] == old(values[j])
    {
      values[i] := if |args.values| > 1 then Many(args.values)
                   else if |args.values| == 1 then args.values[0] else Undefined;
      remaining := remaining - 1;
      answered := answered + {i};
      assert values[..] == old(values[..])[i := Collapse(args)];
      if remaining == 0 {
        master.SettleWith(Done, Args(values[..]));
      }
    }

    method Refuse(i: nat, args: Args)
      requires Ok() && MayAnswer(Now(), i)
      modifies this, master, master.done, master.fail, master.progress
      ensures Ok() && Now() == TakeStep(old(Now()), Reject(i, args))
    {
      answered := answered + {i};
      master.SettleWith(Fail, args);
    }

    /** The loop over the inputs and the test after it. */
    method RegisterAll(answers: seq<Option<(Side, Args)>>)
      requires Ok() && Fresh(Now()) && |answers| == |inputs| && next == (if |inputs| > 1 then 0 else |inputs|)
      modifies this, values, master, master.done, master.fail, master.progress
      ensures Ok() && Now() == Rounds(old(Now()), answers)
    {
      if |inputs| > 1 {
        var i := 0;
        while i < |inputs|
          invariant i == next <= |inputs| && Ok() && Fresh(Now())
          invariant Rounds(old(Now()), answers) == Rounds(Now(), answers)
        {
          ghost var w := Now();
          RegisterOne(i, answers[i]);
          assert Now() == Round(w, answers[i]);
          i := i + 1;
        }
      }
      finished := true;
      if remaining == 0 {
        master.SettleWith(Done, Args(values[..]));
      }
    }

    method RegisterOne(i: nat, answer: Option<(Side, Args)>)
      requires Ok() && Fresh(Now()) && i == next < |inputs|
      modifies this, values, master, master.done, master.fail, master.progress
      ensures Ok() && Now() == Round(old(Now()), answer)
    {
      next := next + 1;
      if inputs[i].Promise? {
        if answer.Some? {
          if answer.value.0 == Done {
            Update(i, answer.value.1);
          } else {
            Refuse(i, answer.value.1);
          }
        }
      } else {
        remaining := remaining - 1;
      }
    }
  }
}
