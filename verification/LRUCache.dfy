/** LRULinkedHashMap and LRUCache: a linked hash map in access order, which drops its eldest entry
    when it has grown over its capacity, and the cache of nodes that expire built on it. */
module Lru {
  import opened Wrappers

  /** An access-ordered map: its entries, the least recently used one first. */
  datatype Linked<K, V> = Linked(entries: seq<(K, V)>, maxCapacity: int)

  function Drop<K(==), V>(entries: seq<(K, V)>, key: K): (r: seq<(K, V)>)
    ensures |r| <= |entries|
  {
    if entries == [] then [] else (if entries[0].0 == key then [] else [entries[0]]) + Drop(entries[1..], key)
  }

  function Lookup<K(==), V>(entries: seq<(K, V)>, key: K): Option<V>
  {
    if entries == [] then None else if entries[0].0 == key then Some(entries[0].1) else Lookup(entries[1..], key)
  }

  /** get: an entry that is found becomes the youngest. */
  function Get<K(==), V>(m: Linked<K, V>, key: K): (Linked<K, V>, Option<V>)
  {
    var found := Lookup(m.entries, key);
    if found.None? then (m, None) else (m.(entries := Drop(m.entries, key) + [(key, found.value)]), found)
  }

  function RemoveEldestEntry<K, V>(m: Linked<K, V>): bool { |m.entries| > m.maxCapacity }

  /** put: only a new entry can make the eldest one go, and at most one goes. */
  function Put<K(==), V>(m: Linked<K, V>, key: K, value: V): Linked<K, V>
  {
    var m' := m.(entries := Drop(m.entries, key) + [(key, value)]);
    if Lookup(m.entries, key).Some? || !RemoveEldestEntry(m') then m' else m'.(entries := m'.entries[1..])
  }

  function Remove<K(==), V>(m: Linked<K, V>, key: K): Linked<K, V> { m.(entries := Drop(m.entries, key)) }

  class LRULinkedHashMap<K(==), V> {
    var entries: seq<(K, V)>
    var maxCapacity: int

    ghost function Now(): Linked<K, V>
      reads this
    {
      Linked(entries, maxCapacity)
    }

    /** The map it extends refuses a negative capacity. */
    constructor (maxCapacity: nat)
      ensures Now() == Linked([], maxCapacity)
    {
      entries, this.maxCapacity := [], maxCapacity;
    }

    method Access(key: K) returns (value: Option<V>)
      modifies this`entries
      ensures (Now(), value) == Get(old(Now()), key)
    {
      value := Lookup(entries, key);
      if value.Some? {
        entries := Drop(entries, key) + [(key, value.value)];
      }
    }

    method Insert(key: K, value: V)
      modifies this`entries
      ensures Now() == Put(old(Now()), key, value)
    {
      var isNew := Lookup(entries, key).None?;
      entries := Drop(entries, key) + [(key, value)];
      if isNew {
        var evict := IsOverfull();
        if evict {
          entries := entries[1..];
        }
      }
    }

    /** removeEldestEntry */
    method IsOverfull() returns (evict: bool)
      ensures evict == RemoveEldestEntry(Now())
    {
      evict := |entries| > maxCapacity;
    }

    method Delete(key: K)
      modifies this`entries
      ensures Now() == Remove(old(Now()), key)
    {
      entries := Drop(entries, key);
    }

    method SetCapacity(size: int)
      modifies this`maxCapacity
      ensures Now() == old(Now()).(maxCapacity := size)
    {
      maxCapacity := size;
    }
  }

  // ---- the cache -------------------------------------------------------------------------------

  datatype Error = NullKey | NullNode | StackOverflow

  datatype Result = Ok | Failed(error: Error)

  /** The clock readings of one round of `get`: when a node is made, and when its age is taken. */
  datatype Reading = Reading(created: int, now: int)

  /** getNode: the node of a key, made if there is none. There is none even then if the map dropped
      the new entry at once. The value of an entry is the time its node was made. */
  function GetNode<K(==)>(m: Linked<K, int>, key: K, created: int): (Linked<K, int>, Option<int>)
  {
    var (found, node) := Get(m, key);
    if node.Some? then (found, node) else Get(Put(found, key, created), key)
  }

  /** get: a node that has expired is removed and got again. One round for each reading; a call
      that needs more rounds than the stack allows fails. A null key is None. */
  function GetKey<K(==)>(m: Linked<K, int>, key: Option<K>, timeout: int, readings: seq<Reading>)
    : (Linked<K, int>, Result)
    decreases |readings|
  {
    if key.None? then (m, Failed(NullKey))
    else if readings == [] then (m, Failed(StackOverflow))
    else
      var (m', node) := GetNode(Get(m, key.value).0, key.value, readings[0].created);
      if node.None? then (m', Failed(NullNode))
      else if readings[0].now - node.value > timeout then GetKey(Remove(m', key.value), key, timeout, readings[1..])
      else (m', Ok)
  }

  class LRUCache<K(==)> {
    const lru: LRULinkedHashMap<K, int>
    var timeout: int

    constructor (maxCapacity: nat)
      ensures fresh(lru) && lru.Now() == Linked([], maxCapacity) && timeout == 500
    {
      lru := new LRULinkedHashMap(maxCapacity);
      timeout := 500;
    }

    method NodeOf(key: K, created: int) returns (node: Option<int>)
      modifies lru
      ensures (lru.Now(), node) == GetNode(old(lru.Now()), key, created)
    {
      node := lru.Access(key);
      if node.None? {
        lru.Insert(key, created);
        node := lru.Access(key);
      }
    }

    method Find(key: Option<K>, readings: seq<Reading>) returns (result: Result)
      modifies lru
      ensures (lru.Now(), result) == GetKey(old(lru.Now()), key, timeout, readings)
      decreases |readings|
    {
      if key.None? {
        return Failed(NullKey);
      }
      if readings == [] {
        return Failed(StackOverflow);
      }
      var _ := lru.Access(key.value);
      var node := NodeOf(key.value, readings[0].created);
      if node.None? {
        return Failed(NullNode);
      }
      if readings[0].now - node.value > timeout {
        lru.Delete(key.value);
        result := Find(key, readings[1..]);
      } else {
        result := Ok;
      }
    }

    method SetCapacity(size: int)
      modifies lru
      ensures lru.Now() == old(lru.Now()).(maxCapacity := size)
    {
      lru.SetCapacity(size);
    }

    method SetTimeout(timeout: int)
      modifies this
      ensures this.timeout == timeout
    {
      this.timeout := timeout;
    }
  }

  // ---- the keys ------------------------------------------------------------------------------------

  ghost function Keys<K, V>(entries: seq<(K, V)>): (keys: seq<K>)
    ensures |keys| == |entries|
  {
    if entries == [] then [] else [entries[0].0] + Keys(entries[1..])
  }

  ghost function Without<K>(keys: seq<K>, key: K): seq<K>
  {
    if keys == [] then [] else (if keys[0] == key then [] else [keys[0]]) + Without(keys[1..], key)
  }

  ghost predicate Distinct<K>(keys: seq<K>)
  {
    forall i, j :: 0 <= i < j < |keys| ==> keys[i] != keys[j]
  }

  /** A use of a key: it becomes the youngest; if it is new and there are too many, the eldest goes. */
  ghost function Touch<K>(keys: seq<K>, key: K, capacity: int): seq<K>
  {
    var used := Without(keys, key) + [key];
    if key !in keys && |used| > capacity then used[1..] else used
  }

  lemma {:induction false} DropKeys<K, V>(entries: seq<(K, V)>, key: K)
    ensures Keys(Drop(entries, key)) == Without(Keys(entries), key)
    ensures Lookup(entries, key).Some? <==> key in Keys(entries)
  {
    if entries != [] {
      DropKeys(entries[1..], key);
      assert Keys(entries)[1..] == Keys(entries[1..]);
      assert key in Keys(entries) <==> key == entries[0].0 || key in Keys(entries[1..]);
      var rest := Drop(entries[1..], key);
      assert ([entries[0]] + rest)[1..] == rest && [] + rest == rest;
    }
  }

  lemma {:induction false} KeysAppend<K, V>(entries: seq<(K, V)>, entry: (K, V))
    ensures Keys(entries + [entry]) == Keys(entries) + [entry.0]
  {
    if entries != [] {
      assert (entries + [entry])[1..] == entries[1..] + [entry];
      KeysAppend(entries[1..], entry);
    }
  }

  lemma {:induction false} WithoutConcat<K>(a: seq<K>, b: seq<K>, key: K)
    ensures Without(a + b, key) == Without(a, key) + Without(b, key)
  {
    if a == [] {
      assert a + b == b;
    } else {
      assert (a + b)[1..] == a[1..] + b;
      WithoutConcat(a[1..], b, key);
    }
  }

  lemma {:induction false} WithoutAbsent<K>(keys: seq<K>, key: K)
    requires key !in keys
    ensures Without(keys, key) == keys
  {
    if keys != [] {
      WithoutAbsent(keys[1..], key);
    }
  }

  lemma {:induction false} WithoutMembers<K>(keys: seq<K>, key: K, k: K)
    ensures k in Without(keys, key) <==> k in keys && k != key
  {
    if keys != [] {
      assert keys == [keys[0]] + keys[1..];
      WithoutMembers(keys[1..], key, k);
    }
  }

  lemma {:induction false} WithoutDistinct<K>(keys: seq<K>, key: K)
    requires Distinct(keys)
    ensures Distinct(Without(keys, key))
    ensures |Without(keys, key)| == |keys| - if key in keys then 1 else 0
  {
    if keys != [] {
      var rest := keys[1..];
      assert keys == [keys[0]] + rest;
      WithoutDistinct(rest, key);
      WithoutMembers(rest, key, keys[0]);
      if keys[0] == key {
        assert key !in rest;
      }
    }
  }

  lemma TouchIs<K>(keys: seq<K>, key: K, capacity: int)
    requires Distinct(keys) && |keys| <= capacity && capacity >= 1
    ensures var r := Touch(keys, key, capacity);
            r != [] && r[|r| - 1] == key && Distinct(r) && |r| <= capacity && key !in r[..|r| - 1]
  {
    WithoutMembers(keys, key, key);
    WithoutDistinct(keys, key);
  }

  /** Using the youngest key changes nothing. */
  lemma TouchYoungest<K>(older: seq<K>, key: K, capacity: int)
    requires key !in older
    ensures Touch(older + [key], key, capacity) == older + [key]
  {
    WithoutConcat(older, [key], key);
    WithoutAbsent(older, key);
    assert [key][1..] == [];
    assert older + [] == older;
  }

  lemma GetTouches<K, V>(m: Linked<K, V>, key: K)
    requires key in Keys(m.entries)
    ensures Keys(Get(m, key).0.entries) == Without(Keys(m.entries), key) + [key] && Get(m, key).1.Some?
    ensures Get(m, key).0.maxCapacity == m.maxCapacity
  {
    DropKeys(m.entries, key);
    KeysAppend(Drop(m.entries, key), (key, Lookup(m.entries, key).value));
  }

  lemma PutTouches<K, V>(m: Linked<K, V>, key: K, value: V)
    ensures Keys(Put(m, key, value).entries) == Touch(Keys(m.entries), key, m.maxCapacity)
    ensures Put(m, key, value).maxCapacity == m.maxCapacity
  {
    DropKeys(m.entries, key);
    KeysAppend(Drop(m.entries, key), (key, value));
    var entries := Drop(m.entries, key) + [(key, value)];
    assert Keys(entries[1..]) == Keys(entries)[1..];
  }

  // ---- one get ---------------------------------------------------------------------------------

  lemma NodeTouches<K>(m: Linked<K, int>, key: K, created: int)
    requires Distinct(Keys(m.entries)) && |m.entries| <= m.maxCapacity && m.maxCapacity >= 1
    ensures var (r, node) := GetNode(m, key, created);
            && node.Some? && Keys(r.entries) == Touch(Keys(m.entries), key, m.maxCapacity)
            && r.maxCapacity == m.maxCapacity
  {
    var keys := Keys(m.entries);
    DropKeys(m.entries, key);
    if key in keys {
      GetTouches(m, key);
    } else {
      var put := Put(m, key, created);
      PutTouches(m, key, created);
      TouchIs(keys, key, m.maxCapacity);
      var r := Keys(put.entries);
      var older := r[..|r| - 1];
      assert r == older + [key];
      GetTouches(put, key);
      TouchYoungest(older, key, m.maxCapacity);
    }
  }

  lemma AccessTouches<K>(m: Linked<K, int>, key: K)
    requires Distinct(Keys(m.entries)) && |m.entries| <= m.maxCapacity && m.maxCapacity >= 1
    ensures var r := Get(m, key).0;
            && r.maxCapacity == m.maxCapacity && Distinct(Keys(r.entries)) && |r.entries| == |m.entries|
            && Touch(Keys(r.entries), key, m.maxCapacity) == Touch(Keys(m.entries), key, m.maxCapacity)
  {
    var keys := Keys(m.entries);
    DropKeys(m.entries, key);
    if key in keys {
      GetTouches(m, key);
      WithoutMembers(keys, key, key);
      WithoutDistinct(keys, key);
      TouchYoungest(Without(keys, key), key, m.maxCapacity);
    }
  }

  /** Removing the youngest key and using it again makes no difference. */
  lemma RemoveAndTouch<K>(m: Linked<K, int>, key: K, keys: seq<K>)
    requires Distinct(keys) && |keys| <= m.maxCapacity && m.maxCapacity >= 1
    requires Keys(m.entries) == Touch(keys, key, m.maxCapacity)
    ensures var r := Remove(m, key);
            && r.maxCapacity == m.maxCapacity && Distinct(Keys(r.entries)) && |r.entries| <= m.maxCapacity
            && Touch(Keys(r.entries), key, m.maxCapacity) == Keys(m.entries)
  {
    TouchIs(keys, key, m.maxCapacity);
    var now := Keys(m.entries);
    var older := now[..|now| - 1];
    assert now == older + [key];
    DropKeys(m.entries, key);
    WithoutConcat(older, [key], key);
    WithoutAbsent(older, key);
    assert [key][1..] == [];
    assert older + [] == older;
  }

  /** A get that succeeds uses its key, however often the node expires on the way. */
  lemma {:induction false} GetKeyTouches<K>(m: Linked<K, int>, key: K, timeout: int, readings: seq<Reading>)
    requires Distinct(Keys(m.entries)) && |m.entries| <= m.maxCapacity && m.maxCapacity >= 1
    requires GetKey(m, Some(key), timeout, readings).1 == Ok
    ensures var r := GetKey(m, Some(key), timeout, readings).0;
            Keys(r.entries) == Touch(Keys(m.entries), key, m.maxCapacity) && r.maxCapacity == m.maxCapacity
    decreases |readings|
  {
    var accessed := Get(m, key).0;
    AccessTouches(m, key);
    NodeTouches(accessed, key, readings[0].created);
    var (m', node) := GetNode(accessed, key, readings[0].created);
    if readings[0].now - node.value > timeout {
      RemoveAndTouch(m', key, Keys(m.entries));
      GetKeyTouches(Remove(m', key), key, timeout, readings[1..]);
    }
  }

  // ---- runs ----------------------------------------------------------------------------------------

  datatype Op<K> =
    | Request(key: Option<K>, timeout: int, readings: seq<Reading>) | Resize(size: int) | Delete(key: Option<K>) | Clear

  function Do<K(==)>(m: Linked<K, int>, op: Op<K>): (Linked<K, int>, Result)
  {
    match op
    case Request(key, timeout, readings) => GetKey(m, key, timeout, readings)
    case Resize(size) => (m.(maxCapacity := size), Ok)
    case Delete(key) => (if key.Some? then Remove(m, key.value) else m, Ok)
    case Clear => (m.(entries := []), Ok)
  }

  function DoAll<K(==)>(m: Linked<K, int>, ops: seq<Op<K>>): Linked<K, int>
    decreases |ops|
  {
    if ops == [] then m else DoAll(Do(m, ops[0]).0, ops[1..])
  }

  /** Only gets, all of which succeed. */
  ghost predicate AllFound<K>(m: Linked<K, int>, ops: seq<Op<K>>)
    decreases |ops|
  {
    ops == [] || (ops[0].Request? && Do(m, ops[0]).1 == Ok && AllFound(Do(m, ops[0]).0, ops[1..]))
  }

  /** The keys requested, in order. */
  ghost function Requested<K>(ops: seq<Op<K>>): seq<K>
  {
    if ops == [] then []
    else (if ops[0].Request? && ops[0].key.Some? then [ops[0].key.value] else []) + Requested(ops[1..])
  }

  /** The distinct keys of some requests, the one requested last at the end. */
  ghost function ByRecency<K>(requests: seq<K>): seq<K>
  {
    if requests == [] then []
    else Without(ByRecency(requests[..|requests| - 1]), requests[|requests| - 1]) + [requests[|requests| - 1]]
  }

  ghost function Last<K>(keys: seq<K>, n: nat): seq<K>
  {
    if |keys| <= n then keys else keys[|keys| - n..]
  }

  lemma {:induction false} ByRecencyIs<K>(requests: seq<K>)
    ensures Distinct(ByRecency(requests))
    ensures forall k :: k in ByRecency(requests) <==> k in requests
  {
    if requests != [] {
      var before, last := requests[..|requests| - 1], requests[|requests| - 1];
      ByRecencyIs(before);
      WithoutDistinct(ByRecency(before), last);
      forall k ensures k in Without(ByRecency(before), last) <==> k in before && k != last {
        WithoutMembers(ByRecency(before), last, k);
      }
      assert requests == before + [last];
    }
  }

  /** The place of the last request of a key. */
  ghost function LastRequest<K>(requests: seq<K>, key: K): (at: nat)
    requires key in requests
    ensures at < |requests| && requests[at] == key
  {
    if requests[|requests| - 1] == key then |requests| - 1 else LastRequest(requests[..|requests| - 1], key)
  }

  lemma {:induction false} WithoutOrder<K>(keys: seq<K>, key: K, i: nat, j: nat) returns (i': nat, j': nat)
    requires i < j < |Without(keys, key)|
    ensures i' < j' < |keys| && keys[i'] == Without(keys, key)[i] && keys[j'] == Without(keys, key)[j]
  {
    var rest := keys[1..];
    if keys[0] == key {
      i', j' := WithoutOrder(rest, key, i, j);
      i', j' := i' + 1, j' + 1;
    } else if i == 0 {
      i' := 0;
      assert Without(rest, key)[j - 1] in Without(rest, key);
      WithoutMembers(rest, key, Without(keys, key)[j]);
      j' :| 0 <= j' < |rest| && rest[j'] == Without(keys, key)[j];
      j' := j' + 1;
    } else {
      i', j' := WithoutOrder(rest, key, i - 1, j - 1);
      i', j' := i' + 1, j' + 1;
    }
  }

  /** Keys stand in the order of their last requests. */
  lemma {:induction false} ByRecencyOrder<K>(requests: seq<K>, i: nat, j: nat)
    requires i < j < |ByRecency(requests)| && ByRecency(requests)[i] in requests && ByRecency(requests)[j] in requests
    ensures LastRequest(requests, ByRecency(requests)[i]) < LastRequest(requests, ByRecency(requests)[j])
  {
    var before, last := requests[..|requests| - 1], requests[|requests| - 1];
    var keys := Without(ByRecency(before), last);
    assert keys[i] in keys;
    WithoutMembers(ByRecency(before), last, keys[i]);
    ByRecencyIs(before);
    if j < |keys| {
      assert keys[j] in keys;
      WithoutMembers(ByRecency(before), last, keys[j]);
      var i', j' := WithoutOrder(ByRecency(before), last, i, j);
      ByRecencyOrder(before, i', j');
    }
  }

  lemma LastOfConcat<K>(gone: seq<K>, kept: seq<K>, n: nat)
    requires n <= |kept|
    ensures Last(gone + kept, n) == kept[|kept| - n..]
  {
  }

  /** Using a key that is among the last ones. */
  lemma TouchKept<K>(gone: seq<K>, kept: seq<K>, key: K)
    requires Distinct(gone + kept) && key in kept
    ensures Last(Without(gone + kept, key) + [key], |kept|) == Touch(kept, key, |kept|)
  {
    var j :| 0 <= j < |kept| && kept[j] == key;
    forall i | 0 <= i < |gone| ensures gone[i] != key {
      assert (gone + kept)[i] == gone[i] && (gone + kept)[|gone| + j] == key;
    }
    assert Distinct(kept) by {
      assert forall i :: 0 <= i < |kept| ==> kept[i] == (gone + kept)[|gone| + i];
    }
    WithoutConcat(gone, kept, key);
    WithoutAbsent(gone, key);
    WithoutDistinct(kept, key);
    Regroup(gone, Without(kept, key), [key]);
    LastOfConcat(gone, Without(kept, key) + [key], |kept|);
  }

  /** Using a key that is not among the last ones. */
  lemma TouchGone<K>(gone: seq<K>, kept: seq<K>, key: K)
    requires key !in kept && kept != []
    ensures Last(Without(gone + kept, key) + [key], |kept|) == Touch(kept, key, |kept|)
  {
    WithoutConcat(gone, kept, key);
    WithoutAbsent(kept, key);
    Regroup(Without(gone, key), kept, [key]);
    LastOfConcat(Without(gone, key), kept + [key], |kept|);
  }

  lemma Regroup<K>(a: seq<K>, b: seq<K>, c: seq<K>)
    ensures a + b + c == a + (b + c)
  {
  }

  /** Using a key commutes with keeping the last keys only. */
  lemma TouchLast<K>(recent: seq<K>, key: K, capacity: nat)
    requires Distinct(recent) && capacity >= 1
    ensures Touch(Last(recent, capacity), key, capacity) == Last(Without(recent, key) + [key], capacity)
  {
    if |recent| <= capacity {
      WithoutDistinct(recent, key);
    } else {
      var gone, kept := recent[..|recent| - capacity], recent[|recent| - capacity..];
      assert recent == gone + kept;
      if key in kept {
        TouchKept(gone, kept, key);
      } else {
        TouchGone(gone, kept, key);
      }
    }
  }

  lemma {:induction false} ByRecencyAppend<K>(requests: seq<K>, key: K)
    ensures ByRecency(requests + [key]) == Without(ByRecency(requests), key) + [key]
  {
    assert (requests + [key])[..|requests|] == requests;
  }

  /** The keys are the last distinct ones of these requests. */
  ghost predicate HoldsLast<K>(m: Linked<K, int>, requests: seq<K>, capacity: nat)
  {
    m.maxCapacity == capacity >= 1 && Keys(m.entries) == Last(ByRecency(requests), capacity)
  }

  lemma StepKeepsLast<K>(m: Linked<K, int>, requests: seq<K>, capacity: nat, key: K, timeout: int,
                         readings: seq<Reading>)
    requires HoldsLast(m, requests, capacity) && GetKey(m, Some(key), timeout, readings).1 == Ok
    ensures HoldsLast(GetKey(m, Some(key), timeout, readings).0, requests + [key], capacity)
  {
    ByRecencyIs(requests);
    GetKeyTouches(m, key, timeout, readings);
    TouchLast(ByRecency(requests), key, capacity);
    ByRecencyAppend(requests, key);
  }

  lemma {:induction false} RunKeepsLast<K>(m: Linked<K, int>, requests: seq<K>, capacity: nat, ops: seq<Op<K>>)
    requires HoldsLast(m, requests, capacity) && AllFound(m, ops)
    ensures HoldsLast(DoAll(m, ops), requests + Requested(ops), capacity)
    decreases |ops|
  {
    if ops == [] {
      assert requests + Requested(ops) == requests;
    } else {
      var key := ops[0].key.value;
      StepKeepsLast(m, requests, capacity, key, ops[0].timeout, ops[0].readings);
      RunKeepsLast(Do(m, ops[0]).0, requests + [key], capacity, ops[1..]);
      Regroup(requests, [key], Requested(ops[1..]));
    }
  }

  /** Least recently used goes first: after any run of gets that succeed, with or without nodes that
      expire, the cache holds exactly the `capacity` most recently requested distinct keys, in the
      order of their last requests. */
  lemma HoldsMostRecentKeys<K>(capacity: nat, ops: seq<Op<K>>)
    requires capacity >= 1 && AllFound(Linked([], capacity), ops)
    ensures Keys(DoAll(Linked([], capacity), ops).entries) == Last(ByRecency(Requested(ops)), capacity)
  {
    RunKeepsLast(Linked([], capacity), [], capacity, ops);
    assert [] + Requested(ops) == Requested(ops);
  }

  // ---- the capacity ----------------------------------------------------------------------------------

  /** The largest capacity that has been in force. */
  ghost function Largest<K>(capacity: int, ops: seq<Op<K>>): int
    decreases |ops|
  {
    if ops == [] then capacity
    else Largest(if ops[0].Resize? && ops[0].size > capacity then ops[0].size else capacity, ops[1..])
  }

  lemma {:induction false} LookupCounts<K, V>(entries: seq<(K, V)>, key: K)
    requires Lookup(entries, key).Some?
    ensures |Drop(entries, key)| < |entries|
  {
    if entries[0].0 != key {
      LookupCounts(entries[1..], key);
    }
  }

  lemma AccessFits<K, V>(m: Linked<K, V>, key: K)
    ensures |Get(m, key).0.entries| <= |m.entries|
  {
    if Lookup(m.entries, key).Some? {
      LookupCounts(m.entries, key);
    }
  }

  lemma NodeFits<K>(m: Linked<K, int>, key: K, created: int, bound: int)
    requires |m.entries| <= bound && m.maxCapacity <= bound
    ensures |GetNode(m, key, created).0.entries| <= bound && GetNode(m, key, created).0.maxCapacity == m.maxCapacity
  {
    AccessFits(m, key);
    if Lookup(m.entries, key).None? {
      AccessFits(Put(m, key, created), key);
    }
  }

  lemma {:induction false} GetKeyFits<K>(m: Linked<K, int>, key: Option<K>, timeout: int, readings: seq<Reading>,
                                         bound: int)
    requires |m.entries| <= bound && m.maxCapacity <= bound
    ensures var r := GetKey(m, key, timeout, readings).0; |r.entries| <= bound && r.maxCapacity == m.maxCapacity
    decreases |readings|
  {
    if key.Some? && readings != [] {
      var accessed := Get(m, key.value).0;
      AccessFits(m, key.value);
      NodeFits(accessed, key.value, readings[0].created, bound);
      var (m', node) := GetNode(accessed, key.value, readings[0].created);
      if node.Some? && readings[0].now - node.value > timeout {
        GetKeyFits(Remove(m', key.value), key, timeout, readings[1..], bound);
      }
    }
  }

  /** With the capacity changed at will, also to less than the cache holds, and gets that may fail,
      the size never exceeds the largest capacity that has been in force. */
  lemma {:induction false} SizeNeverExceedsLargest<K>(m: Linked<K, int>, ops: seq<Op<K>>, bound: int)
    requires |m.entries| <= bound && m.maxCapacity <= bound
    ensures |DoAll(m, ops).entries| <= Largest(bound, ops)
    decreases |ops|
  {
    if ops != [] {
      if ops[0].Request? {
        GetKeyFits(m, ops[0].key, ops[0].timeout, ops[0].readings, bound);
      }
      SizeNeverExceedsLargest(Do(m, ops[0]).0, ops[1..],
                              if ops[0].Resize? && ops[0].size > bound then ops[0].size else bound);
    }
  }

  /** A smaller capacity does not shrink a cache that holds more: a put takes out at most what it
      brings in, so the size stays as it is. */
  lemma OverfullStays<K, V>(m: Linked<K, V>, key: K, value: V)
    requires Distinct(Keys(m.entries)) && |m.entries| > m.maxCapacity
    ensures |Put(m, key, value).entries| == |m.entries|
  {
    DropKeys(m.entries, key);
    WithoutDistinct(Keys(m.entries), key);
  }

  /** The key of a get is cached, or made, unless the map drops it at once: this is so exactly if
      nothing is cached and the capacity is not positive. */
  lemma NodeIsMissingExactlyWhen<K>(m: Linked<K, int>, key: K, created: int)
    ensures GetNode(m, key, created).1.None? <==> m.entries == [] && m.maxCapacity <= 0
  {
    DropKeys(m.entries, key);
    if Lookup(m.entries, key).None? {
      DropAbsent(m.entries, key);
      var put := Put(m, key, created);
      DropKeys(put.entries, key);
      PutTouches(m, key, created);
      var keys := Keys(m.entries);
      WithoutAbsent(keys, key);
      assert keys + [key] != [] && (keys + [key])[|keys|] == key;
      assert |keys| > 0 ==> (keys + [key])[1..][|keys| - 1] == key;
    }
  }

  lemma {:induction false} DropAbsent<K, V>(entries: seq<(K, V)>, key: K)
    requires Lookup(entries, key).None?
    ensures Drop(entries, key) == entries
  {
    if entries != [] {
      DropAbsent(entries[1..], key);
    }
  }
}