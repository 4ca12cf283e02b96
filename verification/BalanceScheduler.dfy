/** BalanceScheduler: hands out the addresses of some servers in rotation. */
module Balancing {
  import opened Wrappers

  datatype Error = NullPointer | IndexOutOfBounds

  datatype Result<+T> = Ok(value: T) | Failed(error: Error)

  datatype State<A> = State(address: Option<seq<A>>, length: nat, rotation: int)

  function New<A>(address: Option<seq<A>>): State<A>
  {
    State(address, if address.Some? then |address.value| else 0, 1)
  }

  /** getServerAddress: the rotation moves on before the address is looked up. */
  function Next<A>(s: State<A>): (State<A>, Result<A>)
  {
    (s.(rotation := if s.rotation + 1 > s.length then 1 else s.rotation + 1),
     if s.address.None? then Failed(NullPointer)
     else if 0 <= s.rotation - 1 < |s.address.value| then Ok(s.address.value[s.rotation - 1])
     else Failed(IndexOutOfBounds))
  }

  /** setServerAddress: a null list is stored, and then the method fails. */
  function Set<A>(s: State<A>, address: Option<seq<A>>): (State<A>, Option<Error>)
  {
    if address.None? then (s.(address := None), Some(NullPointer))
    else (s.(address := address, length := |address.value|), None)
  }

  class BalanceScheduler<A> {
    var address: Option<seq<A>>
    var length: nat
    var rotation: int

    ghost function Now(): State<A>
      reads this
    {
      State(address, length, rotation)
    }

    constructor ()
      ensures Now() == New(None)
    {
      address, length, rotation := None, 0, 1;
    }

    constructor From(address: seq<A>)
      ensures Now() == New(Some(address))
    {
      this.address, length, rotation := Some(address), |address|, 1;
    }

    method GetServerAddress() returns (server: Result<A>)
      modifies this`rotation
      ensures (Now(), server) == Next(old(Now()))
    {
      var rotationNum := rotation;
      if rotation + 1 > length {
        rotation := 1;
      } else {
        rotation := rotation + 1;
      }
      if address.None? {
        return Failed(NullPointer);
      }
      if 0 <= rotationNum - 1 < |address.value| {
        return Ok(address.value[rotationNum - 1]);
      }
      return Failed(IndexOutOfBounds);
    }

    method SetServerAddress(address: Option<seq<A>>) returns (error: Option<Error>)
      modifies this`address, this`length
      ensures (Now(), error) == Set(old(Now()), address)
      ensures this.address == address && rotation == old(rotation)
      ensures address.None? ==> error == Some(NullPointer) && length == old(length)
      ensures address.Some? ==> error == None && length == |address.value|
    {
      this.address := address;
      if address.None? {
        return Some(NullPointer);
      }
      length := |address.value|;
      return None;
    }
  }

  // ---- many calls -------------------------------------------------------------------------------

  function AfterCalls<A>(s: State<A>, n: nat): State<A>
  {
    if n == 0 then s else Next(AfterCalls(s, n - 1)).0
  }

  /** What call number `k`, counted from 0, returns. */
  function CallAt<A>(s: State<A>, k: nat): Result<A>
  {
    Next(AfterCalls(s, k)).1
  }

  /** A list of servers is in use, and the rotation points at one of them. */
  ghost predicate Turning<A>(s: State<A>)
  {
    s.address.Some? && s.length == |s.address.value| > 0 && 1 <= s.rotation <= s.length
  }

  lemma {:induction false} MoreByOne(a: nat, b: nat, n: nat)
    ensures a > b ==> a * n >= b * n + n
  {
    if a > b {
      assert a * n == (a - 1) * n + n;
      MoreByOne(a - 1, b, n);
    }
  }

  lemma DivMod(q: nat, r: nat, n: nat)
    requires r < n
    ensures (q * n + r) / n == q && (q * n + r) % n == r
  {
    var x := q * n + r;
    assert x == x / n * n + x % n;
    MoreByOne(q, x / n, n);
    MoreByOne(x / n, q, n);
  }

  lemma NextOf(x: nat, n: nat)
    requires n > 0
    ensures (x + 1) % n == if x % n + 1 == n then 0 else x % n + 1
  {
    var q, r := x / n, x % n;
    assert x == q * n + r;
    if r + 1 == n {
      assert x + 1 == (q + 1) * n;
      DivMod(q + 1, 0, n);
    } else {
      DivMod(q, r + 1, n);
    }
  }

  lemma {:induction false} RotationAfter<A>(s: State<A>, k: nat)
    requires Turning(s)
    ensures AfterCalls(s, k) == s.(rotation := (s.rotation - 1 + k) % s.length + 1)
    ensures Turning(AfterCalls(s, k))
    decreases k
  {
    if k == 0 {
      DivMod(0, s.rotation - 1, s.length);
    } else {
      RotationAfter(s, k - 1);
      NextOf(s.rotation - 1 + k - 1, s.length);
    }
  }

  /** Round robin: the rotation stays within the list, and each call returns the next address, the
      first one again after the last. */
  lemma CallsGoRound<A>(address: seq<A>, k: nat)
    requires address != []
    ensures 1 <= AfterCalls(New(Some(address)), k).rotation <= |address|
    ensures CallAt(New(Some(address)), k) == Ok(address[k % |address|])
  {
    RotationAfter(New(Some(address)), k);
  }

  // ---- fairness ---------------------------------------------------------------------------------

  /** How often slot `i` is used in `m` calls. */
  ghost function Uses<A>(s: State<A>, m: nat, i: nat): nat
  {
    if m == 0 then 0 else Uses(s, m - 1, i) + if AfterCalls(s, m - 1).rotation - 1 == i then 1 else 0
  }

  /** How many calls before slot `i` comes. */
  ghost function Ahead<A>(s: State<A>, i: nat): int
  {
    if i >= s.rotation - 1 then i - (s.rotation - 1) else i - (s.rotation - 1) + s.length
  }

  /** After `q` full rounds and `t` calls more. */
  lemma {:induction false} UsesAre<A>(s: State<A>, m: nat) returns (q: nat, t: nat)
    requires Turning(s)
    ensures t < s.length && m == q * s.length + t
    ensures AfterCalls(s, m)
         == s.(rotation := if s.rotation + t > s.length then s.rotation + t - s.length else s.rotation + t)
    ensures forall i: nat :: i < s.length ==> Uses(s, m, i) == q + if Ahead(s, i) < t then 1 else 0
    decreases m
  {
    if m == 0 {
      q, t := 0, 0;
    } else {
      q, t := UsesAre(s, m - 1);
      forall i: nat | i < s.length ensures Uses(s, m, i) == q + if Ahead(s, i) < t + 1 then 1 else 0 {
        assert AfterCalls(s, m - 1).rotation - 1 == i <==> Ahead(s, i) == t;
      }
      if t + 1 == s.length {
        assert (q + 1) * s.length == q * s.length + s.length;
        q, t := q + 1, 0;
      } else {
        t := t + 1;
      }
    }
  }

  /** Fairness: in any window of `m` consecutive calls, wherever it starts, each of the `n` slots is
      used either `m / n` times, rounded down, or once more; no two slots differ by more than one. */
  lemma WindowsAreFair<A>(address: seq<A>, start: nat, m: nat, i: nat, j: nat)
    requires i < |address| && j < |address|
    ensures var s := AfterCalls(New(Some(address)), start);
            && m / |address| <= Uses(s, m, i) <= m / |address| + 1
            && -1 <= Uses(s, m, i) - Uses(s, m, j) <= 1
  {
    RotationAfter(New(Some(address)), start);
    var q, t := UsesAre(AfterCalls(New(Some(address)), start), m);
    DivMod(q, t, |address|);
  }

  // ---- changing the list --------------------------------------------------------------------------

  /** Changing to a non-empty list is safe, in that all later calls succeed, exactly if the list is
      at least as long as the rotation is far. Otherwise exactly the next call fails. */
  lemma ChangeIsSafeExactlyWhen<A>(s: State<A>, address: seq<A>)
    requires s.rotation >= 1 && address != []
    ensures var r := Set(s, Some(address)).0;
            && ((forall k: nat :: CallAt(r, k).Ok?) <==> s.rotation <= |address|)
            && (forall k: nat :: k > 0 ==> CallAt(r, k).Ok?)
  {
    var r := Set(s, Some(address)).0;
    if s.rotation <= |address| {
      forall k: nat ensures CallAt(r, k).Ok? {
        RotationAfter(r, k);
      }
    } else {
      assert !CallAt(r, 0).Ok?;
      var healed := Next(r).0;
      forall k: nat | k > 0 ensures CallAt(r, k).Ok? {
        CallsCompose(r, k - 1);
        RotationAfter(healed, k - 1);
      }
    }
  }

  lemma {:induction false} CallsCompose<A>(s: State<A>, n: nat)
    ensures AfterCalls(s, n + 1) == AfterCalls(Next(s).0, n)
  {
    if n > 0 {
      CallsCompose(s, n - 1);
    }
  }

  /** Without servers every call fails: with a null list, also one that was set, and with an empty
      one. */
  lemma {:induction false} NoServersNoAddress<A>(s: State<A>, k: nat)
    requires s.rotation >= 1 && (s.address.None? || s.address.value == [])
    ensures CallAt(s, k) == Failed(if s.address.None? then NullPointer else IndexOutOfBounds)
    ensures AfterCalls(s, k).address == s.address && AfterCalls(s, k).rotation >= 1
    decreases k
  {
    if k > 0 {
      NoServersNoAddress(s, k - 1);
    }
  }
}
