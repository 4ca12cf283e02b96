/** jQuery.Callbacks: a list of functions that can be changed, fired, locked and disabled while
    it is being fired. A function that is called may do anything to the list, any number of
    times, before it returns: the state machine stops at each call and goes on with `Return`. */
module Callbacks {
  import opened Wrappers

  /** A value of the program; only promises and lists of arguments matter here. */
  datatype Value = Undefined | Item(id: nat) | Promise(id: nat) | Many(values: seq<Value>)

  /** The arguments of a fire. */
  datatype Args = Args(values: seq<Value>)

  const NO_ARGS := Args([])

  /** A function on the list. `serial` tells apart two additions of one function; the code
      compares functions only. */
  datatype Entry<F> = Entry(fn: F, serial: nat)

  datatype Options = Options(once: bool, memory: bool, unique: bool, stopOnFalse: bool)

  datatype Call<F> = Call(entry: Entry<F>, args: Args)

  /** The pass being made: its arguments, the first serial it covers, and how many calls had been
      made before it. */
  datatype Pass = Pass(args: Args, from: nat, at: nat)

  /** The variables of the closure, and what has happened so far: the calls made, the fires
      accepted and those begun. */
  datatype State<F> = State(
    options: Options,
    list: Option<seq<Entry<F>>>,
    stack: Option<seq<Args>>,
    memory: Option<Args>,
    fired: bool,
    firing: bool,
    firingLength: int,
    firingIndex: int,
    nextSerial: nat,
    calls: seq<Call<F>>,
    accepted: seq<Args>,
    begun: seq<Args>,
    pass: Pass)

  function New<F>(options: Options): State<F>
  {
    var stack := if options.once then None else Some([]);
    State(options, Some([]), stack, None, false, false, 0, 0, 0, [], [], [], Pass(NO_ARGS, 0, 0))
  }

  /** While firing, `firingLength` is the length of the list. */
  predicate Valid<F>(s: State<F>)
  {
    s.firing ==> s.fired && -1 <= s.firingIndex && (s.list.Some? ==> s.firingLength == |s.list.value|)
  }

  /** The function being called: the one called last, as long as the list is firing. */
  function Current<F>(s: State<F>): Option<F>
  {
    if s.firing && s.calls != [] then Some(s.calls[|s.calls| - 1].entry.fn) else None
  }

  // ---- firing ------------------------------------------------------------------------------

  function Fire<F>(s: State<F>, data: Args, start: nat): (r: State<F>)
    requires s.list.Some?
    ensures Valid(r) && (s.stack.None? ==> r.stack.None?)
    decreases if s.stack.Some? then |s.stack.value| else 0, 2
  {
    var from := if start < |s.list.value| then s.list.value[start].serial else s.nextSerial;
    Loop(s.(memory := if s.options.memory then Some(data) else None, fired := true,
            firingIndex := start, firingLength := |s.list.value|, firing := true,
            pass := Pass(data, from, |s.calls|)))
  }

  /** The loop of `fire` up to its next call, or to the end of the pass. */
  function Loop<F>(s: State<F>): (r: State<F>)
    requires s.fired && s.firing && 0 <= s.firingIndex && (s.list.Some? ==> s.firingLength == |s.list.value|)
    ensures Valid(r) && (s.stack.None? ==> r.stack.None?)
    decreases if s.stack.Some? then |s.stack.value| else 0, 1
  {
    if s.list.Some? && s.firingIndex < s.firingLength
    then s.(calls := s.calls + [Call(s.list.value[s.firingIndex], s.pass.args)])
    else EndPass(s)
  }

  function EndPass<F>(s: State<F>): (r: State<F>)
    ensures Valid(r) && (s.stack.None? ==> r.stack.None?)
    decreases if s.stack.Some? then |s.stack.value| else 0, 0
  {
    var s' := s.(firing := false);
    if s.list == None then s'
    else if s.stack.Some? then
      if s.stack.value == [] then s'
      else Fire(s'.(stack := Some(s.stack.value[1..]), begun := s.begun + [s.stack.value[0]]), s.stack.value[0], 0)
    else if s.memory.Some? then s'.(list := Some([]))
    else Disable(s')
  }

  /** The function being called returns. */
  function Return<F>(s: State<F>, value: bool): (r: State<F>)
    requires Valid(s) && s.firing
    ensures Valid(r) && (s.stack.None? ==> r.stack.None?)
  {
    if !value && s.options.stopOnFalse then EndPass(s.(memory := None))
    else Loop(s.(firingIndex := s.firingIndex + 1))
  }

  function FireWith<F>(s: State<F>, args: Args): (r: State<F>)
    requires Valid(s)
    ensures Valid(r) && (s.stack.None? ==> r.stack.None?)
  {
    if s.list.Some? && (!s.fired || s.stack.Some?) then
      var s' := s.(accepted := s.accepted + [args]);
      if s.firing then s'.(stack := Some(s.stack.value + [args]))
      else Fire(s'.(begun := s.begun + [args]), args, 0)
    else s
  }

  // ---- changing the list -----------------------------------------------------------------------

  predicate Has<F(==)>(list: seq<Entry<F>>, fn: F)
  {
    exists i :: 0 <= i < |list| && list[i].fn == fn
  }

  /** The functions pushed, in order; with `unique`, only those not on the list yet. */
  function Push<F(==)>(list: seq<Entry<F>>, fns: seq<F>, unique: bool, serial: nat): seq<Entry<F>>
    decreases |fns|
  {
    if fns == [] then list
    else if unique && Has(list, fns[0]) then Push(list, fns[1..], unique, serial)
    else Push(list + [Entry(fns[0], serial)], fns[1..], unique, serial + 1)
  }

  function Add<F(==)>(s: State<F>, fns: seq<F>): (r: State<F>)
    requires Valid(s)
    ensures Valid(r) && (s.stack.None? ==> r.stack.None?)
  {
    if s.list == None then s
    else
      var start := |s.list.value|;
      var list := Push(s.list.value, fns, s.options.unique, s.nextSerial);
      var s' := s.(list := Some(list), nextSerial := s.nextSerial + |fns|);
      if s.firing then s'.(firingLength := |list|)
      else if s.memory.Some? then Fire(s', s.memory.value, start)
      else s'
  }

  /** The entries of other functions. */
  function Kept<F(==)>(list: seq<Entry<F>>, fn: F): (r: seq<Entry<F>>)
    ensures |r| <= |list|
  {
    if list == [] then [] else (if list[0].fn == fn then [] else [list[0]]) + Kept(list[1..], fn)
  }

  /** How many entries of `fn` there are among the first `n`. */
  function GoneTo<F(==)>(list: seq<Entry<F>>, fn: F, n: int): (gone: nat)
    ensures gone <= if n < 0 then 0 else n
  {
    if list == [] || n <= 0 then 0 else (if list[0].fn == fn then 1 else 0) + GoneTo(list[1..], fn, n - 1)
  }

  /** inArray: where a function stands first at or after an index. */
  function Search<F(==)>(list: seq<Entry<F>>, fn: F, start: nat): (index: int)
    requires start <= |list|
    ensures index == -1 || start <= index < |list|
    decreases |list| - start
  {
    if start == |list| then -1 else if list[start].fn == fn then start else Search(list, fn, start + 1)
  }

  /** Every entry of a function goes; while firing, the length and the index follow, the index
      by as many entries as go at or before it. */
  function RemoveOne<F(==)>(s: State<F>, fn: F): (r: State<F>)
    requires Valid(s)
    ensures Valid(r)
  {
    if s.list == None then s
    else
      var list := s.list.value;
      var s' := s.(list := Some(Kept(list, fn)));
      if s.firing then
        s'.(firingLength := |Kept(list, fn)|, firingIndex := s.firingIndex - GoneTo(list, fn, s.firingIndex + 1))
      else s'
  }

  function Remove<F(==)>(s: State<F>, fns: seq<F>): (r: State<F>)
    requires Valid(s)
    ensures Valid(r)
    decreases |fns|
  {
    if fns == [] then s else Remove(RemoveOne(s, fns[0]), fns[1..])
  }

  /** empty: also a disabled list becomes an empty one. */
  function Empty<F>(s: State<F>): (r: State<F>)
    requires Valid(s)
    ensures Valid(r)
  {
    s.(list := Some([]), firingLength := 0)
  }

  function Disable<F>(s: State<F>): (r: State<F>)
    ensures Valid(s) ==> Valid(r)
  {
    s.(list := None, stack := None, memory := None)
  }

  function Lock<F>(s: State<F>): (r: State<F>)
    requires Valid(s)
    ensures Valid(r)
  {
    var s' := s.(stack := None);
    if s.memory == None then Disable(s') else s'
  }

  // ---- the object -----------------------------------------------------------------------------

  class CallbackList<F(==)> {
    const options: Options
    var list: Option<seq<Entry<F>>>
    var stack: Option<seq<Args>>
    var memory: Option<Args>
    var fired: bool
    var firing: bool
    var firingLength: int
    var firingIndex: int
    var firingStart: int
    var nextSerial: nat
    ghost var calls: seq<Call<F>>
    ghost var accepted: seq<Args>
    ghost var begun: seq<Args>
    ghost var pass: Pass
    var current: Option<F>

    ghost function Now(): State<F>
      reads this
    {
      State(options, list, stack, memory, fired, firing, firingLength, firingIndex, nextSerial, calls, accepted,
            begun, pass)
    }

    /** `current` is the function being called. */
    ghost predicate Ok()
      reads this
    {
      Valid(Now()) && firingStart == 0 && current == Current(Now())
    }

    constructor (options: Options)
      ensures Ok() && Now() == New(options)
    {
      this.options := options;
      list, stack, memory, fired, firing := Some([]), if options.once then None else Some([]), None, false, false;
      firingLength, firingIndex, firingStart, nextSerial := 0, 0, 0, 0;
      calls, accepted, begun, pass, current := [], [], [], Pass(NO_ARGS, 0, 0), None;
    }

    method FireNow(data: Args)
      requires list.Some? && firingStart >= 0
      modifies this
      ensures Ok() && Now() == Fire(old(Now()), data, old(firingStart))
      decreases if stack.Some? then |stack.value| else 0, 2
    {
      ghost var from := if firingStart < |list.value| then list.value[firingStart].serial else nextSerial;
      pass := Pass(data, from, |calls|);
      memory := if options.memory then Some(data) else None;
      fired := true;
      firingIndex := firingStart;
      firingStart := 0;
      firingLength := |list.value|;
      firing := true;
      assert Now() == old(Now()).(memory := memory, fired := true, firingIndex := old(firingStart),
                                  firingLength := |old(list).value|, firing := true,
                                  pass := Pass(data, from, |old(calls)|));
      Proceed();
    }

    /** The loop of `fire`, up to the next call it makes. */
    method Proceed()
      requires fired && firing && 0 <= firingIndex && firingStart == 0 && (list.Some? ==> firingLength == |list.value|)
      modifies this
      ensures Ok() && Now() == Loop(old(Now()))
      decreases if stack.Some? then |stack.value| else 0, 1
    {
      if list.Some? && firingIndex < firingLength {
        current := Some(list.value[firingIndex].fn);
        calls := calls + [Call(list.value[firingIndex], pass.args)];
      } else {
        Finish();
      }
    }

    method Finish()
      requires firingStart == 0
      modifies this
      ensures Ok() && Now() == EndPass(old(Now()))
      decreases if stack.Some? then |stack.value| else 0, 0
    {
      firing := false;
      current := None;
      if list.Some? {
        if stack.Some? {
          if |stack.value| > 0 {
            var data := stack.value[0];
            stack := Some(stack.value[1..]);
            begun := begun + [data];
            FireNow(data);
          }
        } else if memory.Some? {
          list := Some([]);
        } else {
          DisableList();
        }
      }
    }

    method Returned(value: bool)
      requires Ok() && firing
      modifies this
      ensures Ok() && Now() == Return(old(Now()), value)
    {
      if !value && options.stopOnFalse {
        memory := None;
        Finish();
      } else {
        firingIndex := firingIndex + 1;
        Proceed();
      }
    }

    method AddAll(fns: seq<F>)
      requires Ok()
      modifies this
      ensures Ok() && Now() == Add(old(Now()), fns)
    {
      if list.Some? {
        var start := |list.value|;
        var pushed := list.value;
        var serial := nextSerial;
        var i := 0;
        while i < |fns|
          invariant 0 <= i <= |fns|
          invariant Push(list.value, fns, options.unique, nextSerial) == Push(pushed, fns[i..], options.unique, serial)
        {
          assert fns[i..][1..] == fns[i + 1..];
          if !options.unique || !Has(pushed, fns[i]) {
            pushed := pushed + [Entry(fns[i], serial)];
            serial := serial + 1;
          }
          i := i + 1;
        }
        list := Some(pushed);
        nextSerial := nextSerial + |fns|;
        if firing {
          firingLength := |pushed|;
        } else if memory.Some? {
          firingStart := start;
          FireNow(memory.value);
        }
      }
    }

    method RemoveAll(fns: seq<F>)
      requires Ok()
      modifies this
      ensures Ok() && Now() == Remove(old(Now()), fns)
    {
      if list.Some? {
        var i := 0;
        while i < |fns|
          invariant 0 <= i <= |fns| && Ok() && list.Some?
          invariant Remove(old(Now()), fns) == Remove(Now(), fns[i..])
        {
          assert fns[i..][1..] == fns[i + 1..];
          RemoveEvery(fns[i]);
          i := i + 1;
        }
      } else {
        RemoveFromNone(Now(), fns);
      }
    }

    method RemoveEvery(fn: F)
      requires Ok() && list.Some?
      modifies this`list, this`firingLength, this`firingIndex
      ensures Ok() && list.Some? && Now() == RemoveOne(old(Now()), fn)
    {
      var kept, length, index := Splice(fn, list.value, firing, firingLength, firingIndex);
      list, firingLength, firingIndex := Some(kept), length, index;
    }

    /** Finds the function again and again, from where it was found last, and splices it out;
        while firing, the firing length and index are adjusted at each splice. */
    method Splice(fn: F, was: seq<Entry<F>>, isFiring: bool, length: int, last: int)
      returns (entries: seq<Entry<F>>, newLength: int, newLast: int)
      requires isFiring ==> length == |was|
      ensures entries == Kept(was, fn)
      ensures isFiring ==> newLength == |entries| && newLast == last - GoneTo(was, fn, last + 1)
      ensures !isFiring ==> newLength == length && newLast == last
    {
      entries, newLength, newLast := was, length, last;
      var index := 0;
      while true
        invariant 0 <= index <= |entries|
        invariant SpliceAll(fn, was, isFiring, 0, length, last)
               == SpliceAll(fn, entries, isFiring, index, newLength, newLast)
        decreases |entries|
      {
        var found := InArray(fn, entries, index);
        if found == -1 {
          break;
        }
        index := found;
        entries := entries[..index] + entries[index + 1..];
        if isFiring {
          if index <= newLength {
            newLength := newLength - 1;
          }
          if index <= newLast {
            newLast := newLast - 1;
          }
        }
      }
      SpliceRemoves(fn, was, isFiring, length, last);
    }

    method InArray(fn: F, entries: seq<Entry<F>>, start: nat) returns (index: int)
      requires start <= |entries|
      ensures index == Search(entries, fn, start)
    {
      index := start;
      while index < |entries|
        invariant start <= index <= |entries|
        invariant Search(entries, fn, start) == Search(entries, fn, index)
      {
        if entries[index].fn == fn {
          return;
        }
        index := index + 1;
      }
      index := -1;
    }

    method EmptyList()
      requires Ok()
      modifies this
      ensures Ok() && Now() == Empty(old(Now()))
    {
      list := Some([]);
      firingLength := 0;
    }

    method DisableList()
      requires firingStart == 0
      modifies this`list, this`stack, this`memory
      ensures Now() == Disable(old(Now()))
    {
      list, stack, memory := None, None, None;
    }

    method LockList()
      requires Ok()
      modifies this
      ensures Ok() && Now() == Lock(old(Now()))
    {
      stack := None;
      if memory == None {
        DisableList();
      }
    }

    method FireAll(args: Args)
      requires Ok()
      modifies this
      ensures Ok() && Now() == FireWith(old(Now()), args)
    {
      if list.Some? && (!fired || stack.Some?) {
        accepted := accepted + [args];
        if firing {
          stack := Some(stack.value + [args]);
        } else {
          begun := begun + [args];
          FireNow(args);
        }
      }
    }
  }

  datatype Spliced<F> = Spliced(entries: seq<Entry<F>>, length: int, last: int)

  /** The splicing loop, from `index` on. */
  function SpliceAll<F(==)>(fn: F, entries: seq<Entry<F>>, isFiring: bool, index: nat, length: int, last: int)
    : Spliced<F>
    requires index <= |entries|
    decreases |entries|
  {
    var found := Search(entries, fn, index);
    if found == -1 then Spliced(entries, length, last)
    else
      SpliceAll(fn, entries[..found] + entries[found + 1..], isFiring, found,
                if isFiring && found <= length then length - 1 else length,
                if isFiring && found <= last then last - 1 else last)
  }

  lemma SpliceRemoves<F>(fn: F, was: seq<Entry<F>>, isFiring: bool, length: int, last: int)
    requires isFiring ==> length == |was|
    ensures var r := SpliceAll(fn, was, isFiring, 0, length, last);
            && r.entries == Kept(was, fn)
            && (isFiring ==> r.length == |r.entries| && r.last == last - GoneTo(was, fn, last + 1))
            && (!isFiring ==> r.length == length && r.last == last)
  {
    assert [] + was == was && [] + Kept(was, fn) == Kept(was, fn);
    SpliceFrom(fn, [], was, was, isFiring, length, last);
  }

  lemma SpliceHit<F>(fn: F, entries: seq<Entry<F>>, isFiring: bool, index: nat, length: int, last: int)
    requires index < |entries| && entries[index].fn == fn
    ensures SpliceAll(fn, entries, isFiring, index, length, last)
         == SpliceAll(fn, entries[..index] + entries[index + 1..], isFiring, index,
                      if isFiring && index <= length then length - 1 else length,
                      if isFiring && index <= last then last - 1 else last)
  {
  }

  lemma SpliceMiss<F>(fn: F, entries: seq<Entry<F>>, isFiring: bool, index: nat, length: int, last: int)
    requires index < |entries| && entries[index].fn != fn
    ensures SpliceAll(fn, entries, isFiring, index, length, last)
         == SpliceAll(fn, entries, isFiring, index + 1, length, last)
  {
  }

  /** `r` is what splicing leaves of the entries `after`, found behind the entries `before`. */
  ghost predicate SplicedBehind<F>(r: Spliced<F>, fn: F, before: seq<Entry<F>>, after: seq<Entry<F>>, isFiring: bool,
                                   length: int, last: int)
  {
    && r.entries == before + Kept(after, fn)
    && (isFiring ==> r.length == |r.entries| && r.last == last - GoneTo(after, fn, last + 1 - |before|))
    && (!isFiring ==> r.length == length && r.last == last)
  }

  /** Splicing these entries from the ones `after` on leaves what it should. */
  ghost predicate SplicesFrom<F>(fn: F, before: seq<Entry<F>>, after: seq<Entry<F>>, entries: seq<Entry<F>>,
                                 isFiring: bool, length: int, last: int)
  {
    && entries == before + after
    && var r := SpliceAll(fn, entries, isFiring, |before|, length, last);
       SplicedBehind(r, fn, before, after, isFiring, length, last)
  }

  lemma {:induction false} SpliceFrom<F>(fn: F, before: seq<Entry<F>>, after: seq<Entry<F>>, entries: seq<Entry<F>>,
                                         isFiring: bool, length: int, last: int)
    requires entries == before + after && (isFiring ==> length == |entries|)
    ensures SplicesFrom(fn, before, after, entries, isFiring, length, last)
    decreases |after|
  {
    if after == [] {
      assert entries == before && before + Kept(after, fn) == before;
    } else if after[0].fn == fn {
      var length' := if isFiring then length - 1 else length;
      var last' := if isFiring && |before| <= last then last - 1 else last;
      SpliceFrom(fn, before, after[1..], before + after[1..], isFiring, length', last');
      HitFrom(fn, before, after, entries, isFiring, length, last);
    } else {
      assert entries == before + [after[0]] + after[1..];
      SpliceFrom(fn, before + [after[0]], after[1..], entries, isFiring, length, last);
      MissFrom(fn, before, after, entries, isFiring, length, last);
    }
  }

  lemma HitFrom<F>(fn: F, before: seq<Entry<F>>, after: seq<Entry<F>>, entries: seq<Entry<F>>, isFiring: bool,
                   length: int, last: int)
    requires entries == before + after && (isFiring ==> length == |entries|) && after != [] && after[0].fn == fn
    requires SplicesFrom(fn, before, after[1..], before + after[1..], isFiring, if isFiring then length - 1 else length,
                         if isFiring && |before| <= last then last - 1 else last)
    ensures SplicesFrom(fn, before, after, entries, isFiring, length, last)
  {
    assert entries[..|before|] + entries[|before| + 1..] == before + after[1..];
    SpliceHit(fn, entries, isFiring, |before|, length, last);
    SplicedHit(SpliceAll(fn, entries, isFiring, |before|, length, last), fn, before, after, isFiring, length, last);
  }

  lemma MissFrom<F>(fn: F, before: seq<Entry<F>>, after: seq<Entry<F>>, entries: seq<Entry<F>>, isFiring: bool,
                    length: int, last: int)
    requires entries == before + after && after != [] && after[0].fn != fn
    requires SplicesFrom(fn, before + [after[0]], after[1..], entries, isFiring, length, last)
    ensures SplicesFrom(fn, before, after, entries, isFiring, length, last)
  {
    SpliceMiss(fn, entries, isFiring, |before|, length, last);
    SplicedMiss(SpliceAll(fn, entries, isFiring, |before|, length, last), fn, before, after, isFiring, length, last);
  }

  lemma SplicedHit<F>(r: Spliced<F>, fn: F, before: seq<Entry<F>>, after: seq<Entry<F>>, isFiring: bool, length: int,
                      last: int)
    requires after != [] && after[0].fn == fn
    requires SplicedBehind(r, fn, before, after[1..], isFiring, if isFiring then length - 1 else length,
                           if isFiring && |before| <= last then last - 1 else last)
    ensures SplicedBehind(r, fn, before, after, isFiring, length, last)
  {
  }

  lemma SplicedMiss<F>(r: Spliced<F>, fn: F, before: seq<Entry<F>>, after: seq<Entry<F>>, isFiring: bool, length: int,
                       last: int)
    requires after != [] && after[0].fn != fn
    requires SplicedBehind(r, fn, before + [after[0]], after[1..], isFiring, length, last)
    ensures SplicedBehind(r, fn, before, after, isFiring, length, last)
  {
    assert before + [after[0]] + Kept(after[1..], fn) == before + Kept(after, fn);
  }

  lemma RemoveFromNone<F>(s: State<F>, fns: seq<F>)
    requires Valid(s) && s.list == None
    ensures Remove(s, fns) == s
    decreases |fns|
  {
    if fns != [] {
      RemoveFromNone(s, fns[1..]);
    }
  }

  // ---- what removal keeps ------------------------------------------------------------------------

  lemma {:induction false} KeptConcat<F>(a: seq<Entry<F>>, b: seq<Entry<F>>, fn: F)
    ensures Kept(a + b, fn) == Kept(a, fn) + Kept(b, fn)
    ensures |Kept(a, fn)| == |a| - GoneTo(a + b, fn, |a|)
  {
    if a == [] {
      assert a + b == b;
    } else {
      assert (a + b)[1..] == a[1..] + b;
      KeptConcat(a[1..], b, fn);
    }
  }
}
