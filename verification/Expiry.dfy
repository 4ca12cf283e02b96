/** How old a node may be that the cache gives out, and what becomes of the others. */
module Expiry {
  import opened Wrappers
  import opened Lru

  lemma {:induction false} LookupAfterDrop<K, V>(entries: seq<(K, V)>, key: K, k: K)
    ensures Lookup(Drop(entries, key), k) == if k == key then None else Lookup(entries, k)
  {
    if entries != [] {
      LookupAfterDrop(entries[1..], key, k);
      var rest := Drop(entries[1..], key);
      assert ([entries[0]] + rest)[1..] == rest && [] + rest == rest;
    }
  }

  lemma {:induction false} LookupAfterAppend<K, V>(entries: seq<(K, V)>, entry: (K, V), k: K)
    ensures Lookup(entries + [entry], k)
         == if Lookup(entries, k).Some? then Lookup(entries, k) else if k == entry.0 then Some(entry.1) else None
  {
    if entries == [] {
      assert [entry][1..] == [];
    } else {
      assert (entries + [entry])[1..] == entries[1..] + [entry] && (entries + [entry])[0] == entries[0];
      LookupAfterAppend(entries[1..], entry, k);
    }
  }

  lemma GetLeavesNodes<K, V>(m: Linked<K, V>, key: K, k: K)
    ensures Get(m, key).1 == Lookup(m.entries, key)
    ensures Lookup(Get(m, key).0.entries, k) == Lookup(m.entries, k)
  {
    var found := Lookup(m.entries, key);
    if found.Some? {
      LookupAfterDrop(m.entries, key, k);
      LookupAfterAppend(Drop(m.entries, key), (key, found.value), k);
    }
  }

  /** A node is not made again: it is there as it was, or not at all. */
  ghost predicate Unmade<K, V>(now: seq<(K, V)>, was: seq<(K, V)>, k: K)
  {
    Lookup(now, k) == Lookup(was, k) || Lookup(now, k) == None
  }

  lemma {:induction false} LookupOfRest<K, V>(entries: seq<(K, V)>, k: K)
    requires entries != [] && Distinct(Keys(entries))
    ensures Lookup(entries[1..], k) == if k == entries[0].0 then None else Lookup(entries, k)
  {
    if k == entries[0].0 {
      DropKeys(entries[1..], k);
      assert Keys(entries)[0] == k && Keys(entries)[1..] == Keys(entries[1..]);
    }
  }

  lemma PutMakesNode<K, V>(m: Linked<K, V>, key: K, value: V, k: K)
    requires m.maxCapacity >= 1 && Distinct(Keys(m.entries)) && Lookup(m.entries, key) == None
    ensures Lookup(Put(m, key, value).entries, key) == Some(value)
    ensures k != key ==> Unmade(Put(m, key, value).entries, m.entries, k)
  {
    var entries := Drop(m.entries, key) + [(key, value)];
    DropKeys(m.entries, key);
    WithoutAbsent(Keys(m.entries), key);
    KeysAppend(Drop(m.entries, key), (key, value));
    LookupAfterDrop(m.entries, key, k);
    LookupAfterDrop(m.entries, key, key);
    LookupAfterAppend(Drop(m.entries, key), (key, value), k);
    LookupAfterAppend(Drop(m.entries, key), (key, value), key);
    LookupOfRest(entries, k);
    LookupOfRest(entries, key);
  }

  /** getNode gives the node that is there, or makes one of this time; it makes no other. */
  lemma NodeIsThere<K>(m: Linked<K, int>, key: K, created: int, k: K)
    requires m.maxCapacity >= 1 && Distinct(Keys(m.entries))
    ensures var (r, node) := GetNode(m, key, created);
            var made := if Lookup(m.entries, key).Some? then Lookup(m.entries, key).value else created;
            && node == Some(made) && Lookup(r.entries, key) == Some(made)
            && (k != key ==> Unmade(r.entries, m.entries, k))
  {
    var found := Get(m, key).0;
    GetLeavesNodes(m, key, k);
    GetLeavesNodes(m, key, key);
    if Lookup(m.entries, key) == None {
      var put := Put(found, key, created);
      PutMakesNode(found, key, created, k);
      GetLeavesNodes(put, key, k);
      GetLeavesNodes(put, key, key);
    }
  }

  /** When the node was made that a round of `get` looks at: in the first round the node may be there
      already. */
  ghost function MadeAt<K>(m: Linked<K, int>, key: K, readings: seq<Reading>, i: nat): int
    requires i < |readings|
  {
    if i == 0 && Lookup(m.entries, key).Some? then Lookup(m.entries, key).value else readings[i].created
  }

  ghost predicate Expired<K>(m: Linked<K, int>, key: K, timeout: int, readings: seq<Reading>, i: nat)
    requires i < |readings|
  {
    readings[i].now - MadeAt(m, key, readings, i) > timeout
  }

  /** A get leaves a node under its key exactly as old as it may be. It goes on as long as the node it finds
      or makes is older than the timeout; the first that is not is left in the cache, and if there is none
      the call fails. Nodes of other keys are not made again. */
  lemma {:induction false} GetGivesUnexpired<K>(m: Linked<K, int>, key: K, timeout: int, readings: seq<Reading>, j: nat,
                                                k: K)
    requires m.maxCapacity >= 1 && Distinct(Keys(m.entries)) && |m.entries| <= m.maxCapacity
    requires j <= |readings| && forall i :: 0 <= i < j ==> Expired(m, key, timeout, readings, i)
    requires j < |readings| ==> !Expired(m, key, timeout, readings, j)
    ensures var (r, result) := GetKey(m, Some(key), timeout, readings);
            && (j < |readings| ==> result == Ok && Lookup(r.entries, key) == Some(MadeAt(m, key, readings, j)))
            && (j == |readings| ==> result == Failed(StackOverflow))
            && (k != key ==> Unmade(r.entries, m.entries, k))
    decreases |readings|
  {
    if readings != [] {
      var accessed := Get(m, key).0;
      AccessTouches(m, key);
      GetLeavesNodes(m, key, key);
      GetLeavesNodes(m, key, k);
      NodeIsThere(accessed, key, readings[0].created, k);
      NodeTouches(accessed, key, readings[0].created);
      var m' := GetNode(accessed, key, readings[0].created).0;
      if j > 0 {
        assert Expired(m, key, timeout, readings, 0);
        RemoveAndTouch(m', key, Keys(m.entries));
        LookupAfterDrop(m'.entries, key, key);
        LookupAfterDrop(m'.entries, key, k);
        RestExpired(m, Remove(m', key), key, timeout, readings, j);
        GetGivesUnexpired(Remove(m', key), key, timeout, readings[1..], j - 1, k);
      }
    }
  }

  lemma RestExpired<K>(m: Linked<K, int>, m': Linked<K, int>, key: K, timeout: int, readings: seq<Reading>, j: nat)
    requires Lookup(m'.entries, key) == None && 0 < j <= |readings|
    ensures forall i :: 0 <= i < |readings| - 1 ==> MadeAt(m', key, readings[1..], i) == MadeAt(m, key, readings, i + 1)
    ensures (forall i :: 0 <= i < j ==> Expired(m, key, timeout, readings, i)) ==>
              forall i :: 0 <= i < j - 1 ==> Expired(m', key, timeout, readings[1..], i)
    ensures j < |readings| ==>
              (Expired(m, key, timeout, readings, j) <==> Expired(m', key, timeout, readings[1..], j - 1))
  {
    forall i | 0 <= i < |readings| - 1
      ensures MadeAt(m', key, readings[1..], i) == MadeAt(m, key, readings, i + 1)
      ensures Expired(m', key, timeout, readings[1..], i) <==> Expired(m, key, timeout, readings, i + 1)
    {
      assert readings[1..][i] == readings[i + 1];
    }
  }
}
