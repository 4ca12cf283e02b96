/** What every run of a callback list keeps, whatever the functions on it do while they are called. */
module CallbackRuns {
  import opened Wrappers
  import opened Callbacks

  datatype Op<F> =
    | OpAdd(fns: seq<F>) | OpRemove(fns: seq<F>) | OpEmpty | OpDisable | OpLock
    | OpFire(args: Args) | OpReturn(value: bool)

  /** A function returns only while one is being called. */
  predicate Enabled<F>(s: State<F>, op: Op<F>) { op.OpReturn? ==> s.firing }

  function Do<F(==)>(s: State<F>, op: Op<F>): (r: State<F>)
    requires Valid(s) && Enabled(s, op)
    ensures Valid(r)
  {
    match op
    case OpAdd(fns) => Add(s, fns)
    case OpRemove(fns) => Remove(s, fns)
    case OpEmpty => Empty(s)
    case OpDisable => Disable(s)
    case OpLock => Lock(s)
    case OpFire(args) => FireWith(s, args)
    case OpReturn(value) => Return(s, value)
  }

  predicate IsRun<F(==)>(s: State<F>, ops: seq<Op<F>>)
    requires Valid(s)
    decreases |ops|
  {
    ops == [] || (Enabled(s, ops[0]) && IsRun(Do(s, ops[0]), ops[1..]))
  }

  function After<F(==)>(s: State<F>, ops: seq<Op<F>>): (r: State<F>)
    requires Valid(s) && IsRun(s, ops)
    ensures Valid(r)
    decreases |ops|
  {
    if ops == [] then s else After(Do(s, ops[0]), ops[1..])
  }

  // ---- fires are served in order ------------------------------------------------------------

  ghost function Queue<F>(s: State<F>): seq<Args> { if s.stack.Some? then s.stack.value else [] }

  /** The fire that began last is the one with these arguments. */
  ghost predicate Latest<F>(s: State<F>, args: Args)
  {
    s.begun != [] && s.begun[|s.begun| - 1] == args
  }

  /** The fires begun are the first ones accepted; those waiting are the others, in order; the
      pass being made and the memory are those of the fire that began last. */
  ghost predicate InOrder<F>(s: State<F>)
  {
    && (s.stack.Some? ==> s.accepted == s.begun + s.stack.value)
    && (s.stack.Some? && !s.firing ==> s.stack.value == [])
    && (s.stack.None? ==> s.begun <= s.accepted)
    && (!s.fired ==> s.accepted == [] && s.begun == [] && Queue(s) == [])
    && (s.list.None? ==> s.stack.None?)
    && (s.options.once ==> s.stack.None? && |s.accepted| <= 1)
    && (s.firing ==> Latest(s, s.pass.args))
    && (s.memory.Some? ==> Latest(s, s.memory.value))
  }

  lemma {:induction false} FireInOrder<F>(s: State<F>, data: Args, start: nat)
    requires s.list.Some? && (s.stack.Some? ==> s.accepted == s.begun + s.stack.value)
    requires s.stack.None? ==> s.begun <= s.accepted
    requires (s.options.once ==> s.stack.None? && |s.accepted| <= 1) && Latest(s, data)
    ensures InOrder(Fire(s, data, start))
    ensures Fire(s, data, start).accepted == s.accepted
    decreases |Queue(s)|, 1
  {
    var from := if start < |s.list.value| then s.list.value[start].serial else s.nextSerial;
    var s' := s.(memory := if s.options.memory then Some(data) else None, fired := true,
                 firingIndex := start, firingLength := |s.list.value|, firing := true,
                 pass := Pass(data, from, |s.calls|));
    if start >= |s.list.value| {
      EndInOrder(s');
    }
  }

  lemma {:induction false} EndInOrder<F>(s: State<F>)
    requires s.fired && (s.stack.Some? ==> s.accepted == s.begun + s.stack.value)
    requires s.stack.None? ==> s.begun <= s.accepted
    requires (s.list.None? ==> s.stack.None?) && (s.options.once ==> s.stack.None? && |s.accepted| <= 1)
    requires s.memory.Some? ==> Latest(s, s.memory.value)
    ensures InOrder(EndPass(s)) && EndPass(s).accepted == s.accepted
    decreases |Queue(s)|, 0
  {
    if s.list.Some? && s.stack.Some? && s.stack.value != [] {
      var s' := s.(firing := false, stack := Some(s.stack.value[1..]), begun := s.begun + [s.stack.value[0]]);
      assert s.begun + s.stack.value == s'.begun + s'.stack.value;
      FireInOrder(s', s.stack.value[0], 0);
    }
  }

  lemma {:induction false} RemoveKeepsRest<F>(s: State<F>, fns: seq<F>)
    requires Valid(s)
    ensures var r := Remove(s, fns);
            && r == s.(list := r.list, firingLength := r.firingLength, firingIndex := r.firingIndex)
            && (r.list.None? <==> s.list.None?)
    decreases |fns|
  {
    if fns != [] {
      RemoveKeepsRest(RemoveOne(s, fns[0]), fns[1..]);
    }
  }

  lemma AddInOrder<F>(s: State<F>, fns: seq<F>)
    requires Valid(s) && InOrder(s)
    ensures InOrder(Add(s, fns)) && Add(s, fns).accepted == s.accepted
  {
    if s.list.Some? && !s.firing && s.memory.Some? {
      var list := Push(s.list.value, fns, s.options.unique, s.nextSerial);
      FireInOrder(s.(list := Some(list), nextSerial := s.nextSerial + |fns|), s.memory.value, |s.list.value|);
    }
  }

  lemma FireWithInOrder<F>(s: State<F>, args: Args)
    requires Valid(s) && InOrder(s)
    ensures InOrder(FireWith(s, args))
    ensures FireWith(s, args).accepted == s.accepted || FireWith(s, args).accepted == s.accepted + [args]
  {
    if s.list.Some? && (!s.fired || s.stack.Some?) {
      if s.firing {
        assert s.begun + (s.stack.value + [args]) == s.accepted + [args];
      } else {
        FireInOrder(s.(accepted := s.accepted + [args], begun := s.begun + [args]), args, 0);
      }
    }
  }

  lemma ReturnInOrder<F>(s: State<F>, value: bool)
    requires Valid(s) && InOrder(s) && s.firing
    ensures InOrder(Return(s, value)) && Return(s, value).accepted == s.accepted
  {
    if !value && s.options.stopOnFalse {
      EndInOrder(s.(memory := None));
    } else if !(s.list.Some? && s.firingIndex + 1 < s.firingLength) {
      EndInOrder(s.(firingIndex := s.firingIndex + 1));
    }
  }

  lemma StepInOrder<F>(s: State<F>, op: Op<F>)
    requires Valid(s) && Enabled(s, op) && InOrder(s)
    ensures InOrder(Do(s, op))
    ensures Do(s, op).accepted == s.accepted || (op.OpFire? && Do(s, op).accepted == s.accepted + [op.args])
  {
    match op
    case OpAdd(fns) => AddInOrder(s, fns);
    case OpRemove(fns) => RemoveKeepsRest(s, fns);
    case OpFire(args) => FireWithInOrder(s, args);
    case OpReturn(value) => ReturnInOrder(s, value);
    case OpEmpty =>
    case OpDisable =>
    case OpLock =>
  }

  /** In every run, fires begin in the order in which they were accepted, each at most once, and
      unless the list is locked or disabled those that have not begun are exactly those waiting;
      the functions called, also those added later, get the arguments of the fire that began last. */
  lemma {:induction false} FiresAreServedInOrder<F>(s: State<F>, ops: seq<Op<F>>)
    requires Valid(s) && InOrder(s) && IsRun(s, ops)
    ensures InOrder(After(s, ops))
    decreases |ops|
  {
    if ops != [] {
      StepInOrder(s, ops[0]);
      FiresAreServedInOrder(Do(s, ops[0]), ops[1..]);
    }
  }

  /** The arguments of the fires among some operations. */
  ghost function Fires<F>(ops: seq<Op<F>>): seq<Args>
    decreases |ops|
  {
    if ops == [] then [] else (if ops[0].OpFire? then [ops[0].args] else []) + Fires(ops[1..])
  }

  /** Neither locked nor disabled. */
  ghost predicate Open<F>(s: State<F>) { s.list.Some? && s.stack.Some? }

  ghost predicate KeptOpen<F>(ops: seq<Op<F>>)
  {
    forall i :: 0 <= i < |ops| ==> !ops[i].OpDisable? && !ops[i].OpLock?
  }

  lemma {:induction false} FireStaysOpen<F>(s: State<F>, data: Args, start: nat)
    requires Open(s)
    ensures Open(Fire(s, data, start))
    decreases |Queue(s)|, 1
  {
    if start >= |s.list.value| {
      var from := s.nextSerial;
      EndStaysOpen(s.(memory := if s.options.memory then Some(data) else None, fired := true,
                      firingIndex := start, firingLength := |s.list.value|, firing := true,
                      pass := Pass(data, from, |s.calls|)));
    }
  }

  lemma {:induction false} EndStaysOpen<F>(s: State<F>)
    requires Open(s)
    ensures Open(EndPass(s))
    decreases |Queue(s)|, 0
  {
    if s.stack.value != [] {
      FireStaysOpen(s.(firing := false, stack := Some(s.stack.value[1..]), begun := s.begun + [s.stack.value[0]]),
                    s.stack.value[0], 0);
    }
  }

  lemma ReturnStaysOpen<F>(s: State<F>, value: bool)
    requires Valid(s) && Open(s) && s.firing
    ensures Open(Return(s, value))
  {
    if !value && s.options.stopOnFalse {
      EndStaysOpen(s.(memory := None));
    } else if s.firingIndex + 1 >= s.firingLength {
      EndStaysOpen(s.(firingIndex := s.firingIndex + 1));
    }
  }

  lemma FireWithStaysOpen<F>(s: State<F>, args: Args)
    requires Valid(s) && Open(s) && InOrder(s)
    ensures Open(FireWith(s, args)) && FireWith(s, args).accepted == s.accepted + [args]
  {
    if !s.firing {
      var s' := s.(accepted := s.accepted + [args], begun := s.begun + [args]);
      FireStaysOpen(s', args, 0);
      FireInOrder(s', args, 0);
    }
  }

  lemma AddStaysOpen<F>(s: State<F>, fns: seq<F>)
    requires Valid(s) && Open(s)
    ensures Open(Add(s, fns))
  {
    if !s.firing && s.memory.Some? {
      var list := Push(s.list.value, fns, s.options.unique, s.nextSerial);
      FireStaysOpen(s.(list := Some(list), nextSerial := s.nextSerial + |fns|), s.memory.value, |s.list.value|);
    }
  }

  /** Open, with these fires accepted. */
  ghost predicate Serves<F>(s: State<F>, fires: seq<Args>)
  {
    Open(s) && InOrder(s) && s.accepted == fires
  }

  lemma StepServes<F>(s: State<F>, op: Op<F>, fires: seq<Args>)
    requires Valid(s) && Enabled(s, op) && Serves(s, fires) && !op.OpDisable? && !op.OpLock?
    ensures Serves(Do(s, op), fires + if op.OpFire? then [op.args] else [])
  {
    StepInOrder(s, op);
    assert fires + [] == fires;
    match op
    case OpAdd(fns) => AddStaysOpen(s, fns); AddInOrder(s, fns);
    case OpRemove(fns) => RemoveKeepsRest(s, fns);
    case OpFire(args) => FireWithStaysOpen(s, args);
    case OpReturn(value) => ReturnStaysOpen(s, value); ReturnInOrder(s, value);
    case OpEmpty =>
  }

  lemma Regroup(a: seq<Args>, b: seq<Args>, c: seq<Args>)
    ensures a + b + c == a + (b + c)
  {
  }

  lemma {:induction false} RunServes<F>(s: State<F>, ops: seq<Op<F>>, fires: seq<Args>)
    requires Valid(s) && IsRun(s, ops) && Serves(s, fires) && KeptOpen(ops)
    ensures Serves(After(s, ops), fires + Fires(ops))
    decreases |ops|
  {
    if ops == [] {
      assert fires + Fires(ops) == fires;
    } else {
      var first := if ops[0].OpFire? then [ops[0].args] else [];
      StepServes(s, ops[0], fires);
      RunServes(Do(s, ops[0]), ops[1..], fires + first);
      Regroup(fires, first, Fires(ops[1..]));
    }
  }

  /** No fire is dropped or reordered: as long as a list that can fire more than once is neither
      locked nor disabled, the fires begun and then those waiting are exactly the fires asked for,
      also those asked for by functions being called; once the list rests, all have begun. */
  lemma EveryFireIsServed<F>(options: Options, ops: seq<Op<F>>)
    requires !options.once && IsRun(New<F>(options), ops) && KeptOpen(ops)
    ensures var s := After(New<F>(options), ops);
            s.begun + Queue(s) == Fires(ops) && (!s.firing ==> s.begun == Fires(ops))
  {
    RunServes(New<F>(options), ops, []);
    var s := After(New<F>(options), ops);
    assert [] + Fires(ops) == Fires(ops);
    assert !s.firing ==> s.begun + [] == s.begun;
  }

  // ---- passes ---------------------------------------------------------------------------------

  ghost predicate Sorted<F>(list: seq<Entry<F>>)
  {
    forall i, j :: 0 <= i < j < |list| ==> list[i].serial < list[j].serial
  }

  /** Serials grow along the list, and new entries get serials never used before. */
  ghost predicate Numbered<F>(s: State<F>)
  {
    && (s.list.Some? ==> Sorted(s.list.value) && forall i :: 0 <= i < |s.list.value| ==>
          s.list.value[i].serial < s.nextSerial)
    && (forall k :: 0 <= k < |s.calls| ==> s.calls[k].entry.serial < s.nextSerial)
  }

  /** The calls of the pass being made. */
  ghost function Made<F>(s: State<F>): seq<Call<F>>
  {
    if s.pass.at <= |s.calls| then s.calls[s.pass.at..] else []
  }

  ghost predicate CalledIn<F>(made: seq<Call<F>>, e: Entry<F>)
  {
    exists k :: 0 <= k < |made| && made[k].entry == e
  }

  /** The first serial that a pass has not reached. */
  ghost function Reached<F>(made: seq<Call<F>>, from: nat): nat
  {
    if made == [] then from else made[|made| - 1].entry.serial + 1
  }

  /** The calls of a pass: with its arguments, of entries it covers, in the order of serials. */
  ghost predicate InPass<F>(made: seq<Call<F>>, pass: Pass)
  {
    && (forall i :: 0 <= i < |made| ==>
          made[i].args == pass.args && pass.from <= made[i].entry.serial < Reached(made, pass.from))
    && (forall i, j :: 0 <= i < j < |made| ==> made[i].entry.serial < made[j].entry.serial)
  }

  /** Of the entries a pass covers, those before position `k` have been called in it and the others
      are still to come, beyond everything called so far. */
  ghost predicate Halfway<F>(list: seq<Entry<F>>, made: seq<Call<F>>, from: nat, k: int)
  {
    && 0 <= k <= |list|
    && (forall i :: 0 <= i < k && list[i].serial >= from ==> CalledIn(made, list[i]))
    && (forall i :: k <= i < |list| ==> list[i].serial >= Reached(made, from))
  }

  ghost predicate PassAt<F>(s: State<F>, k: int)
    requires s.list.Some?
  {
    && s.pass.at <= |s.calls| && InPass(Made(s), s.pass) && Halfway(s.list.value, Made(s), s.pass.from, k)
    && s.pass.from <= Reached(Made(s), s.pass.from) <= s.nextSerial
  }

  ghost predicate PassInv<F>(s: State<F>)
  {
    Numbered(s) && (s.firing && s.list.Some? ==> PassAt(s, s.firingIndex + 1))
  }

  lemma CalledStays<F>(made: seq<Call<F>>, c: Call<F>, e: Entry<F>)
    ensures CalledIn(made + [c], e) <==> CalledIn(made, e) || e == c.entry
  {
    if CalledIn(made, e) {
      var j :| 0 <= j < |made| && made[j].entry == e;
      assert (made + [c])[j].entry == e;
    }
    if e == c.entry {
      assert (made + [c])[|made|].entry == e;
    }
  }

  lemma CallHalfway<F>(list: seq<Entry<F>>, made: seq<Call<F>>, from: nat, k: nat, args: Args)
    requires k < |list| && Sorted(list) && Halfway(list, made, from, k)
    ensures Halfway(list, made + [Call(list[k], args)], from, k + 1)
  {
    var c := Call(list[k], args);
    forall i | 0 <= i < k + 1 && list[i].serial >= from ensures CalledIn(made + [c], list[i]) {
      CalledStays(made, c, list[i]);
    }
  }

  lemma CallInPass<F>(made: seq<Call<F>>, pass: Pass, c: Call<F>)
    requires InPass(made, pass) && pass.from <= Reached(made, pass.from) <= c.entry.serial && c.args == pass.args
    ensures InPass(made + [c], pass) && Reached(made + [c], pass.from) == c.entry.serial + 1
  {
  }

  lemma CallNumbered<F>(s: State<F>, c: Call<F>)
    requires Numbered(s) && c.entry.serial < s.nextSerial
    ensures Numbered(s.(calls := s.calls + [c]))
  {
  }

  /** Calling the entry at position `k` leaves the pass at position `k + 1`. */
  lemma CallAdvances<F>(s: State<F>, k: nat, list: seq<Entry<F>>)
    requires s.list == Some(list) && Numbered(s) && PassAt(s, k) && k < |list|
    ensures var s' := s.(calls := s.calls + [Call(list[k], s.pass.args)]);
            Numbered(s') && PassAt(s', k + 1)
  {
    var c := Call(list[k], s.pass.args);
    assert Made(s.(calls := s.calls + [c])) == Made(s) + [c];
    CallNumbered(s, c);
    CallInPass(Made(s), s.pass, c);
    CallHalfway(list, Made(s), s.pass.from, k, s.pass.args);
  }

  lemma {:induction false} FirePassInv<F>(s: State<F>, data: Args, start: nat)
    requires s.list.Some? && Numbered(s) && start <= |s.list.value|
    ensures PassInv(Fire(s, data, start))
    decreases |Queue(s)|, 1
  {
    var from := if start < |s.list.value| then s.list.value[start].serial else s.nextSerial;
    var s' := s.(memory := if s.options.memory then Some(data) else None, fired := true,
                 firingIndex := start, firingLength := |s.list.value|, firing := true,
                 pass := Pass(data, from, |s.calls|));
    assert Made(s') == [];
    assert PassAt(s', start);
    if start < |s.list.value| {
      CallAdvances(s', start, s.list.value);
    } else {
      EndPassInv(s');
    }
  }

  lemma {:induction false} EndPassInv<F>(s: State<F>)
    requires Numbered(s)
    ensures PassInv(EndPass(s))
    decreases |Queue(s)|, 0
  {
    if s.list.Some? && s.stack.Some? && s.stack.value != [] {
      FirePassInv(s.(firing := false, stack := Some(s.stack.value[1..]), begun := s.begun + [s.stack.value[0]]),
                  s.stack.value[0], 0);
    }
  }

  lemma {:induction false} PushNumbers<F>(list: seq<Entry<F>>, fns: seq<F>, unique: bool, serial: nat)
    requires Sorted(list) && forall i :: 0 <= i < |list| ==> list[i].serial < serial
    ensures var r := Push(list, fns, unique, serial);
            && list <= r && Sorted(r)
            && (forall i :: 0 <= i < |r| ==> r[i].serial < serial + |fns|)
            && (forall i :: |list| <= i < |r| ==> r[i].serial >= serial)
    decreases |fns|
  {
    if fns != [] {
      if unique && Has(list, fns[0]) {
        PushNumbers(list, fns[1..], unique, serial);
      } else {
        PushNumbers(list + [Entry(fns[0], serial)], fns[1..], unique, serial + 1);
      }
    }
  }

  lemma AddPassInv<F>(s: State<F>, fns: seq<F>)
    requires Valid(s) && PassInv(s)
    ensures PassInv(Add(s, fns))
  {
    if s.list.Some? {
      var list := Push(s.list.value, fns, s.options.unique, s.nextSerial);
      PushNumbers(s.list.value, fns, s.options.unique, s.nextSerial);
      var s' := s.(list := Some(list), nextSerial := s.nextSerial + |fns|);
      if s.firing {
        assert Made(s'.(firingLength := |list|)) == Made(s);
      } else if s.memory.Some? {
        FirePassInv(s', s.memory.value, |s.list.value|);
      }
    }
  }

  /** What is kept was there. */
  lemma {:induction false} KeptComesFrom<F>(list: seq<Entry<F>>, fn: F, i: nat) returns (j: nat)
    requires i < |Kept(list, fn)|
    ensures j < |list| && list[j] == Kept(list, fn)[i]
  {
    if list[0].fn == fn {
      var k := KeptComesFrom(list[1..], fn, i);
      j := k + 1;
    } else if i == 0 {
      j := 0;
    } else {
      var k := KeptComesFrom(list[1..], fn, i - 1);
      j := k + 1;
    }
  }

  lemma SortedParts<F>(list: seq<Entry<F>>, k: nat)
    requires Sorted(list) && k <= |list|
    ensures Sorted(list[..k]) && Sorted(list[k..])
  {
  }

  lemma {:induction false} KeptSorted<F>(list: seq<Entry<F>>, fn: F)
    requires Sorted(list)
    ensures Sorted(Kept(list, fn))
  {
    if list != [] {
      var rest := list[1..];
      assert Sorted(rest) by {
        SortedParts(list, 1);
      }
      KeptSorted(rest, fn);
      forall i | 0 <= i < |Kept(rest, fn)| ensures list[0].serial < Kept(rest, fn)[i].serial {
        var j := KeptComesFrom(rest, fn, i);
        assert list[j + 1] == rest[j];
      }
    }
  }

  lemma RemoveOneNumbered<F>(s: State<F>, fn: F)
    requires Valid(s) && Numbered(s)
    ensures Numbered(RemoveOne(s, fn))
  {
    if s.list.Some? {
      var list := s.list.value;
      KeptSorted(list, fn);
      forall i | 0 <= i < |Kept(list, fn)| ensures Kept(list, fn)[i].serial < s.nextSerial {
        var j := KeptComesFrom(list, fn, i);
      }
    }
  }

  /** Of what stands before the firing position, what is kept has been called. */
  lemma KeptWereCalled<F>(made: seq<Call<F>>, before: seq<Entry<F>>, from: nat, fn: F)
    requires forall i :: 0 <= i < |before| && before[i].serial >= from ==> CalledIn(made, before[i])
    ensures forall i :: 0 <= i < |Kept(before, fn)| && Kept(before, fn)[i].serial >= from ==>
        CalledIn(made, Kept(before, fn)[i])
  {
    forall i | 0 <= i < |Kept(before, fn)| && Kept(before, fn)[i].serial >= from
      ensures CalledIn(made, Kept(before, fn)[i])
    {
      var j := KeptComesFrom(before, fn, i);
      assert CalledIn(made, before[j]);
    }
  }

  lemma KeptAreAhead<F>(after: seq<Entry<F>>, reached: nat, fn: F)
    requires forall i :: 0 <= i < |after| ==> after[i].serial >= reached
    ensures forall i :: 0 <= i < |Kept(after, fn)| ==> Kept(after, fn)[i].serial >= reached
  {
    forall i | 0 <= i < |Kept(after, fn)| ensures Kept(after, fn)[i].serial >= reached {
      var j := KeptComesFrom(after, fn, i);
    }
  }

  /** A list made of the two parts is in the middle of its pass at their border. */
  lemma PassAtBorder<F>(before: seq<Entry<F>>, after: seq<Entry<F>>, made: seq<Call<F>>, from: nat)
    requires forall i :: 0 <= i < |before| && before[i].serial >= from ==> CalledIn(made, before[i])
    requires forall i :: 0 <= i < |after| ==> after[i].serial >= Reached(made, from)
    ensures Halfway(before + after, made, from, |before|)
  {
  }

  lemma RemoveOnePassAt<F>(s: State<F>, fn: F, list: seq<Entry<F>>, k: nat)
    requires Valid(s) && s.firing && s.list == Some(list) && k == s.firingIndex + 1 && Sorted(list) && PassAt(s, k)
    ensures PassAt(RemoveOne(s, fn), RemoveOne(s, fn).firingIndex + 1)
  {
    var before, after := list[..k], list[k..];
    var s' := RemoveOne(s, fn);
    assert before + after == list;
    KeptConcat(before, after, fn);
    assert s'.firingIndex + 1 == |Kept(before, fn)|;
    KeptWereCalled(Made(s), before, s.pass.from, fn);
    KeptAreAhead(after, Reached(Made(s), s.pass.from), fn);
    PassAtBorder(Kept(before, fn), Kept(after, fn), Made(s), s.pass.from);
    assert Made(s') == Made(s);
  }

  lemma RemoveOnePassInv<F>(s: State<F>, fn: F)
    requires Valid(s) && PassInv(s)
    ensures PassInv(RemoveOne(s, fn))
  {
    RemoveOneNumbered(s, fn);
    if s.firing && s.list.Some? {
      RemoveOnePassAt(s, fn, s.list.value, s.firingIndex + 1);
    }
  }

  lemma {:induction false} RemovePassInv<F>(s: State<F>, fns: seq<F>)
    requires Valid(s) && PassInv(s)
    ensures PassInv(Remove(s, fns))
    decreases |fns|
  {
    if fns != [] {
      RemoveOnePassInv(s, fns[0]);
      RemovePassInv(RemoveOne(s, fns[0]), fns[1..]);
    }
  }

  /** While a pass is made the list is changed only by adding and removing, and is not locked. */
  ghost predicate Gentle<F>(s: State<F>, op: Op<F>)
  {
    s.firing ==> !op.OpEmpty? && !op.OpDisable? && !op.OpLock?
  }

  lemma FirePassKept<F>(s: State<F>, args: Args)
    requires Valid(s) && PassInv(s)
    ensures PassInv(FireWith(s, args))
  {
    if s.list.Some? && (!s.fired || s.stack.Some?) {
      if s.firing {
        assert Made(FireWith(s, args)) == Made(s);
      } else {
        FirePassInv(s.(accepted := s.accepted + [args], begun := s.begun + [args]), args, 0);
      }
    }
  }

  lemma NextPassInv<F>(s: State<F>, k: nat)
    requires Valid(s) && PassInv(s) && s.firing && k == s.firingIndex + 1
    ensures PassInv(Loop(s.(firingIndex := k)))
  {
    var s' := s.(firingIndex := k);
    if s.list.Some? && k < s.firingLength {
      assert Made(s') == Made(s);
      CallAdvances(s', k, s.list.value);
    } else {
      EndPassInv(s');
    }
  }

  lemma ReturnPassInv<F>(s: State<F>, value: bool)
    requires Valid(s) && PassInv(s) && s.firing
    ensures PassInv(Return(s, value))
  {
    if !value && s.options.stopOnFalse {
      EndPassInv(s.(memory := None));
    } else {
      NextPassInv(s, s.firingIndex + 1);
    }
  }

  lemma StepPassInv<F>(s: State<F>, op: Op<F>)
    requires Valid(s) && Enabled(s, op) && PassInv(s) && Gentle(s, op)
    ensures PassInv(Do(s, op))
  {
    match op
    case OpAdd(fns) => AddPassInv(s, fns);
    case OpRemove(fns) => RemovePassInv(s, fns);
    case OpFire(args) => FirePassKept(s, args);
    case OpReturn(value) => ReturnPassInv(s, value);
    case OpEmpty =>
    case OpDisable =>
    case OpLock =>
  }

  ghost predicate GentleRun<F>(s: State<F>, ops: seq<Op<F>>)
    requires Valid(s) && IsRun(s, ops)
    decreases |ops|
  {
    ops == [] || (Gentle(s, ops[0]) && GentleRun(Do(s, ops[0]), ops[1..]))
  }

  lemma {:induction false} RunPassInv<F>(s: State<F>, ops: seq<Op<F>>)
    requires Valid(s) && IsRun(s, ops) && PassInv(s) && GentleRun(s, ops)
    ensures PassInv(After(s, ops))
    decreases |ops|
  {
    if ops != [] {
      StepPassInv(s, ops[0]);
      RunPassInv(Do(s, ops[0]), ops[1..]);
    }
  }

  /** Removing and adding while a list is fired neither skips nor repeats a function. In every run
      in which the list is only added to and removed from while it is being fired: the firing
      length is the list's; what a pass has called is called in list order, each entry at most
      once, with the pass's arguments; the entries behind the firing index that the pass covers
      have been called and those ahead have not; and when no entry is ahead any more, each entry
      the pass covers that is still on the list has been called exactly once. */
  lemma PassCallsEachOnce<F>(options: Options, ops: seq<Op<F>>)
    requires IsRun(New<F>(options), ops) && GentleRun(New<F>(options), ops)
    ensures var s := After(New<F>(options), ops);
            s.firing && s.list.Some? ==>
              var list, made := s.list.value, Made(s);
              && s.firingLength == |list| && -1 <= s.firingIndex < |list|
              && (forall i, j :: 0 <= i < j < |made| ==> made[i].entry.serial < made[j].entry.serial)
              && (forall i :: 0 <= i < |made| ==> made[i].args == s.pass.args)
              && (forall i :: 0 <= i <= s.firingIndex && list[i].serial >= s.pass.from ==> CalledIn(made, list[i]))
              && (forall i :: s.firingIndex < i < |list| ==> !CalledIn(made, list[i]))
              && (s.firingIndex + 1 == s.firingLength ==>
                    forall i :: 0 <= i < |list| && list[i].serial >= s.pass.from ==> CalledIn(made, list[i]))
  {
    RunPassInv(New<F>(options), ops);
  }
}
