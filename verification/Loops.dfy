/** What the loops of the interpreter guarantee. */
module LoopFacts {
  import opened Wrappers
  import opened Text
  import opened Syntax
  import opened Substitution
  import opened Analyizing

  // ---- rows and parameters ---------------------------------------------------------------

  /** Column `j` of so many is the last one that goes to its parameter. */
  ghost predicate IsLast<T>(params: seq<T>, columns: nat, j: nat)
    requires j < |params|
  {
    j < columns && forall k :: j < k < |params| && k < columns ==> params[k] != params[j]
  }

  /** A row is accepted exactly when it has at most as many columns as there are parameters;
      accepted or not, each parameter that a column comes for holds the last such column, and no
      other changes. */
  lemma {:induction false} BindRowExactly<T>(st: State<T>, params: seq<T>, columns: seq<Column>)
    requires forall i :: 0 <= i < |params| ==> params[i] in st.store
    ensures var r := BindRow(st, params, columns);
            && (r.outcome == Done <==> |columns| <= |params|) && (r.outcome == Done || r.outcome == Broken)
            && r.state.log == st.log && r.state.store.Keys == st.store.Keys
            && (forall j :: 0 <= j < |params| && IsLast(params, |columns|, j) ==>
                  r.state.store[params[j]] == st.store[params[j]].(value := columns[j].value))
            && (forall p :: p in st.store && (forall j :: 0 <= j < |params| && j < |columns| ==> p != params[j]) ==>
                  r.state.store[p] == st.store[p])
    decreases |columns|
  {
    if columns != [] && params != [] {
      var st' := Assign(st, params[0], columns[0].value);
      var more := params[1..];
      BindRowExactly(st', more, columns[1..]);
      var r := BindRow(st', more, columns[1..]);
      forall j | 0 <= j < |params| && IsLast(params, |columns|, j)
        ensures r.state.store[params[j]] == st.store[params[j]].(value := columns[j].value)
      {
        assert forall k :: 0 <= k < |more| ==> more[k] == params[k + 1];
        if j > 0 {
          assert IsLast(more, |columns[1..]|, j - 1);
        }
      }
      forall p | p in st.store && (forall j :: 0 <= j < |params| && j < |columns| ==> p != params[j])
        ensures r.state.store[p] == st.store[p]
      {
        assert p != params[0];
        assert forall j :: 0 <= j < |more| && j < |columns[1..]| ==> more[j] == params[j + 1];
      }
    }
  }

  // ---- no Param comes or goes -------------------------------------------------------------

  lemma {:induction false} BindRowKeepsKeys<T>(st: State<T>, params: seq<T>, columns: seq<Column>)
    ensures BindRow(st, params, columns).state.store.Keys == st.store.Keys
    decreases |columns|
  {
    if columns != [] && params != [] {
      BindRowKeepsKeys(Assign(st, params[0], columns[0].value), params[1..], columns[1..]);
    }
  }

  lemma {:induction false} RunKeepsKeys<T, C>(m: Machine<T, C>, a: Action<T, C>, st: State<T>, fuel: nat)
    ensures Run(m, a, st, fuel).state.store.Keys == st.store.Keys
    decreases fuel, a, 0
  {
    match a
    case If(cond, thn, els) =>
      RunAllKeepsKeys(m, thn, st, fuel);
      RunAllKeepsKeys(m, els, st, fuel);
    case While(cond, body) =>
      if m.lang.test(View(m, st), cond) == Some(true) && fuel > 0 {
        RunAllKeepsKeys(m, body, st, fuel - 1);
        RunKeepsKeys(m, a, RunAll(m, body, st, fuel - 1).state, fuel - 1);
      }
    case Foreach(table, params, body) =>
      if table in st.store && st.store[table].value.Table? {
        RunRowsKeepKeys(m, params, body, st.store[table].value.rows, st, fuel);
      }
    case Query(conn, target, text) => QueryKeepsKeys(m, conn, target, text, st, fuel);
    case Assignment(_, _) =>
  }

  lemma QueryKeepsKeys<T, C>(m: Machine<T, C>, conn: C, target: Option<T>, text: seq<string>, st: State<T>, fuel: nat)
    ensures RunQuery(m, conn, target, text, st, fuel).state.store.Keys == st.store.Keys
  {
  }

  lemma {:induction false} RunAllKeepsKeys<T, C>(m: Machine<T, C>, actions: seq<Action<T, C>>, st: State<T>, fuel: nat)
    ensures RunAll(m, actions, st, fuel).state.store.Keys == st.store.Keys
    decreases fuel, actions, 0
  {
    if actions != [] {
      RunKeepsKeys(m, actions[0], st, fuel);
      RunAllKeepsKeys(m, actions[1..], Run(m, actions[0], st, fuel).state, fuel);
    }
  }

  lemma {:induction false} RunRowsKeepKeys<T, C>(m: Machine<T, C>, params: seq<T>, body: seq<Action<T, C>>,
                                                 rows: seq<Row>, st: State<T>, fuel: nat)
    ensures RunRows(m, params, body, rows, st, fuel).state.store.Keys == st.store.Keys
    decreases fuel, body, 1, |rows|
  {
    if rows != [] {
      var bound := BindRow(st, params, rows[0].columns);
      BindRowKeepsKeys(st, params, rows[0].columns);
      RunAllKeepsKeys(m, body, bound.state, fuel);
      RunRowsKeepKeys(m, params, body, rows[1..], RunAll(m, body, bound.state, fuel).state, fuel);
    }
  }

  // ---- laws of the statements ----------------------------------------------------------------

  /** Running one list of actions after another is running them as one list. */
  lemma {:induction false} RunAllConcat<T, C>(m: Machine<T, C>, a: seq<Action<T, C>>, b: seq<Action<T, C>>,
                                              st: State<T>, fuel: nat)
    ensures var r := RunAll(m, a, st, fuel);
            RunAll(m, a + b, st, fuel) == if r.outcome == Done then RunAll(m, b, r.state, fuel) else r
    decreases |a|
  {
    if a == [] {
      assert a + b == b;
    } else {
      assert (a + b)[1..] == a[1..] + b;
      RunAllConcat(m, a[1..], b, Run(m, a[0], st, fuel).state, fuel);
    }
  }

  /** A WHILE is an IF around its body and itself. */
  lemma WhileUnfolds<T, C>(m: Machine<T, C>, cond: string, body: seq<Action<T, C>>, st: State<T>, fuel: nat)
    ensures Run(m, While(cond, body), st, fuel + 1) == Run(m, If(cond, body + [While(cond, body)], []), st, fuel)
  {
    var loop := While(cond, body);
    RunAllConcat(m, body, [loop], st, fuel);
    var r := RunAll(m, body, st, fuel);
    if r.outcome == Done {
      var last := Run(m, loop, r.state, fuel);
      assert [loop][1..] == [];
      assert RunAll(m, [loop], r.state, fuel) == last;
    }
  }

  // ---- FOREACH -------------------------------------------------------------------------------

  /** The columns of a row, in order, are the values of the parameters; where a parameter is listed
      more than once, its last column is. */
  ghost predicate Holds<T>(st: State<T>, params: seq<T>, row: Row)
  {
    |row.columns| <= |params| &&
    forall j :: 0 <= j < |params| && IsLast(params, |row.columns|, j) ==>
      params[j] in st.store && st.store[params[j]].value == row.columns[j].value
  }

  /** The state before the body has been started for the k-th time and its row is bound: the first
      one, or that in which the body ended the time before. */
  function Between<S>(after: S -> S, st: S, starts: seq<S>, k: nat): S
    requires k <= |starts|
  {
    if k == 0 then st else after(starts[k - 1])
  }

  /** There is one start a row, in row order: each fits its row and the state before it, which is where
      the time before ended; after the last time the state is `end`. */
  ghost predicate Chained<S, R>(fits: (R, S, S) -> bool, after: S -> S, rows: seq<R>, st: S, starts: seq<S>, end: S)
  {
    && |starts| == |rows|
    && (forall k :: 0 <= k < |rows| ==> fits(rows[k], Between(after, st, starts, k), starts[k]))
    && end == Between(after, st, starts, |rows|)
  }

  /** What the body makes of the state that it starts in. */
  function AfterBody<T, C>(m: Machine<T, C>, body: seq<Action<T, C>>, fuel: nat): State<T> -> State<T>
  {
    start => RunAll(m, body, start, fuel).state
  }

  /** The body is run for a row from `start`, the state `before` with the row's columns bound, and ends
      well. */
  ghost function RunsFor<T, C>(m: Machine<T, C>, params: seq<T>, body: seq<Action<T, C>>, fuel: nat)
    : (Row, State<T>, State<T>) -> bool
  {
    (row: Row, before: State<T>, start: State<T>) =>
      && start == BindRow(before, params, row.columns).state && Holds(start, params, row)
      && RunAll(m, body, start, fuel).outcome == Done
  }

  /** The body is run once for each row, in row order: each time it starts where it ended before, with
      the columns of the row bound, and ends well; after the last time the state is `end`. */
  ghost predicate OncePerRow<T, C>(m: Machine<T, C>, params: seq<T>, body: seq<Action<T, C>>, rows: seq<Row>,
                                   st: State<T>, fuel: nat, starts: seq<State<T>>, end: State<T>)
  {
    Chained(RunsFor(m, params, body, fuel), AfterBody(m, body, fuel), rows, st, starts, end)
  }

  /** A FOREACH that ends has run its body exactly once for each row that the table had when
      the loop began, in row order and whatever the body did to the table meanwhile, each time
      with that row's columns in the parameters, and the state it leaves is that of the last time. */
  lemma {:induction false} ForeachRunsOncePerRow<T, C>(m: Machine<T, C>, table: T, params: seq<T>,
                                                       body: seq<Action<T, C>>, st: State<T>, fuel: nat)
    returns (starts: seq<State<T>>)
    requires forall i :: 0 <= i < |params| ==> params[i] in st.store
    requires Run(m, Foreach(table, params, body), st, fuel).outcome == Done
    ensures table in st.store && st.store[table].value.Table?
    ensures OncePerRow(m, params, body, st.store[table].value.rows, st, fuel, starts,
                       Run(m, Foreach(table, params, body), st, fuel).state)
  {
    starts := RowsRunOnceEach(m, params, body, st.store[table].value.rows, st, fuel);
  }

  lemma RowHolds<T>(st: State<T>, params: seq<T>, row: Row)
    requires forall i :: 0 <= i < |params| ==> params[i] in st.store
    requires BindRow(st, params, row.columns).outcome == Done
    ensures Holds(BindRow(st, params, row.columns).state, params, row)
    ensures BindRow(st, params, row.columns).state.store.Keys == st.store.Keys
  {
    BindRowExactly(st, params, row.columns);
  }

  lemma ChainGrows<S, R>(fits: (R, S, S) -> bool, after: S -> S, row: R, rows: seq<R>, st: S, start: S, starts: seq<S>,
                         end: S)
    requires fits(row, st, start)
    requires Chained(fits, after, rows, after(start), starts, end)
    ensures Chained(fits, after, [row] + rows, st, [start] + starts, end)
  {
    var all, allRows := [start] + starts, [row] + rows;
    forall k | 0 <= k < |allRows|
      ensures fits(allRows[k], Between(after, st, all, k), all[k])
    {
      if k > 0 {
        BetweenShifts(after, st, start, starts, k - 1);
        assert all[k] == starts[k - 1] && allRows[k] == rows[k - 1];
      }
    }
    BetweenShifts(after, st, start, starts, |rows|);
  }

  lemma BetweenShifts<S>(after: S -> S, st: S, start: S, starts: seq<S>, k: nat)
    requires k <= |starts|
    ensures Between(after, st, [start] + starts, k + 1) == Between(after, after(start), starts, k)
  {
  }

  lemma FirstRow<T, C>(m: Machine<T, C>, params: seq<T>, body: seq<Action<T, C>>, row: Row, rows: seq<Row>,
                       st: State<T>, fuel: nat)
    returns (start: State<T>, after: State<T>)
    requires forall i :: 0 <= i < |params| ==> params[i] in st.store
    requires RunRows(m, params, body, [row] + rows, st, fuel).outcome == Done
    ensures RunsFor(m, params, body, fuel)(row, st, start)
    ensures after == AfterBody(m, body, fuel)(start) && after.store.Keys == st.store.Keys
    ensures RunRows(m, params, body, [row] + rows, st, fuel) == RunRows(m, params, body, rows, after, fuel)
  {
    assert ([row] + rows)[1..] == rows;
    RowHolds(st, params, row);
    start := BindRow(st, params, row.columns).state;
    RunAllKeepsKeys(m, body, start, fuel);
    after := RunAll(m, body, start, fuel).state;
  }

  lemma {:induction false} RowsRunOnceEach<T, C>(m: Machine<T, C>, params: seq<T>, body: seq<Action<T, C>>,
                                                 rows: seq<Row>, st: State<T>, fuel: nat)
    returns (starts: seq<State<T>>)
    requires forall i :: 0 <= i < |params| ==> params[i] in st.store
    requires RunRows(m, params, body, rows, st, fuel).outcome == Done
    ensures OncePerRow(m, params, body, rows, st, fuel, starts, RunRows(m, params, body, rows, st, fuel).state)
    decreases |rows|
  {
    if rows == [] {
      starts := [];
    } else {
      assert [rows[0]] + rows[1..] == rows;
      var start, after := FirstRow(m, params, body, rows[0], rows[1..], st, fuel);
      starts := RowsRunOnceEach(m, params, body, rows[1..], after, fuel);
      ChainGrows(RunsFor(m, params, body, fuel), AfterBody(m, body, fuel),
                 rows[0], rows[1..], st, start, starts, RunRows(m, params, body, rows, st, fuel).state);
      starts := [start] + starts;
    }
  }

  // ---- termination and bounds -------------------------------------------------------------------

  predicate WhileFree<T, C>(a: Action<T, C>)
    decreases a
  {
    match a
    case If(_, thn, els) => AllWhileFree(thn) && AllWhileFree(els)
    case While(_, _) => false
    case Foreach(_, _, body) => AllWhileFree(body)
    case Query(_, _, _) => true
    case Assignment(_, _) => true
  }

  predicate AllWhileFree<T, C>(actions: seq<Action<T, C>>)
    decreases actions
  {
    actions == [] || (WhileFree(actions[0]) && AllWhileFree(actions[1..]))
  }

  /** A round does not depend on how many are left: the loop stops, or goes on with some text. */
  ghost predicate SameRound(loop: (string, nat) -> Rewritten, text: string, fuel: nat, more: nat)
  {
    if fuel == 0 || more == 0 then loop(text, 0) != Looping ==> loop(text, fuel) == loop(text, more) == loop(text, 0)
    else
      || loop(text, fuel) == loop(text, more)
      || exists next :: GoesOn(loop, text, fuel, next) && GoesOn(loop, text, more, next)
  }

  lemma RoundIsSame(env: Env, issql: bool, text: string, fuel: nat, more: nat)
    ensures SameRound(Rewriting(env, issql), text, fuel, more)
  {
    OneRound(env, issql, text, 0);
    if fuel > 0 && more > 0 && '@' in text && Known(env, issql, NameAt(text)) {
      RoundGoesOn(env, issql, text, fuel);
      RoundGoesOn(env, issql, text, more);
    } else {
      OneRound(env, issql, text, fuel);
      OneRound(env, issql, text, more);
    }
  }

  lemma {:induction false} SettlesByRounds(loop: (string, nat) -> Rewritten, text: string, fuel: nat, more: nat)
    requires forall t, n: nat, m: nat :: SameRound(loop, t, n, m)
    requires fuel <= more && loop(text, fuel) != Looping
    ensures loop(text, more) == loop(text, fuel)
    decreases fuel
  {
    assert SameRound(loop, text, fuel, more);
    if fuel > 0 && loop(text, fuel) != loop(text, more) {
      var next :| GoesOn(loop, text, fuel, next) && GoesOn(loop, text, more, next);
      SettlesByRounds(loop, next, fuel - 1, more - 1);
    }
  }

  lemma RewriteBound(env: Env, issql: bool, text: string, fuel: nat, more: nat)
    requires fuel <= more && Rewrite(env, issql, text, fuel) != Looping
    ensures Rewrite(env, issql, text, more) == Rewrite(env, issql, text, fuel)
  {
    var loop := Rewriting(env, issql);
    forall t, n: nat, m: nat ensures SameRound(loop, t, n, m) {
      RoundIsSame(env, issql, t, n, m);
    }
    SettlesByRounds(loop, text, fuel, more);
  }

  ghost predicate Ended(o: Outcome) { o == Done || o == Broken }

  ghost predicate SqlSettles(lang: Language, env: Env, text: seq<string>, fuel: nat, more: nat)
  {
    fuel <= more && lang.sql(env, text, fuel) != Looping ==> lang.sql(env, text, more) == lang.sql(env, text, fuel)
  }

  ghost predicate EvalSettles(lang: Language, world: World, env: Env, text: string, fuel: nat, more: nat)
  {
    fuel <= more && lang.eval(world, env, text, fuel) != Loops ==>
      lang.eval(world, env, text, more) == lang.eval(world, env, text, fuel)
  }

  /** Inside a line, the bound on rounds only cuts rewriting short. */
  ghost predicate Settles(lang: Language)
  {
    && (forall env, text, fuel, more :: SqlSettles(lang, env, text, fuel, more))
    && (forall world, env, text, fuel, more :: EvalSettles(lang, world, env, text, fuel, more))
  }

  lemma LqlSettles()
    ensures Settles(LQL)
  {
    forall env, text, fuel, more ensures SqlSettles(LQL, env, text, fuel, more) {
      if fuel <= more && LQL.sql(env, text, fuel) != Looping {
        RewriteBound(env, true, SqlText(text), fuel, more);
      }
    }
    forall world, env, text, fuel, more ensures EvalSettles(LQL, world, env, text, fuel, more) {
      var call := InvocationOf(text);
      if fuel <= more && call.Invocation? && LQL.eval(world, env, text, fuel) != Loops {
        RewriteBound(env, false, call.args, fuel, more);
      }
    }
  }

  /** The bound on rounds only cuts runs short: a run that ends within a bound ends the same way
      within every larger one. */
  lemma BoundIsImmaterial<T, C>(m: Machine<T, C>, a: Action<T, C>, st: State<T>, fuel: nat, more: nat)
    requires m.lang == LQL && fuel <= more && Ended(Run(m, a, st, fuel).outcome)
    ensures Run(m, a, st, more) == Run(m, a, st, fuel)
  {
    LqlSettles();
    RunSettles(m, a, st, fuel, more);
  }

  lemma {:induction false} RunSettles<T, C>(m: Machine<T, C>, a: Action<T, C>, st: State<T>, fuel: nat, more: nat)
    requires Settles(m.lang) && fuel <= more && Ended(Run(m, a, st, fuel).outcome)
    ensures Run(m, a, st, more) == Run(m, a, st, fuel)
    decreases fuel, a, 1
  {
    match a
    case If(cond, thn, els) =>
      var b := m.lang.test(View(m, st), cond);
      if b == Some(true) {
        RunAllSettles(m, thn, st, fuel, more);
      } else if b == Some(false) {
        RunAllSettles(m, els, st, fuel, more);
      }
    case While(_, _) => WhileSettles(m, a, st, fuel, more);
    case Foreach(table, params, body) =>
      if table in st.store && st.store[table].value.Table? {
        RunRowsSettles(m, params, body, st.store[table].value.rows, st, fuel, more);
      }
    case Query(_, _, text) => assert SqlSettles(m.lang, View(m, st), text, fuel, more);
    case Assignment(_, value) => assert EvalSettles(m.lang, m.world, View(m, st), value, fuel, more);
  }

  lemma {:induction false} WhileSettles<T, C>(m: Machine<T, C>, a: Action<T, C>, st: State<T>, fuel: nat, more: nat)
    requires Settles(m.lang) && fuel <= more && Ended(Run(m, a, st, fuel).outcome) && a.While?
    ensures Run(m, a, st, more) == Run(m, a, st, fuel)
    decreases fuel, a, 0
  {
    if m.lang.test(View(m, st), a.cond) == Some(true) {
      var r := RunAll(m, a.body, st, fuel - 1);
      RunAllSettles(m, a.body, st, fuel - 1, more - 1);
      if r.outcome == Done {
        WhileRound(m, a, st, fuel);
        WhileRound(m, a, st, more);
        WhileSettles(m, a, r.state, fuel - 1, more - 1);
      }
    }
  }

  lemma {:induction false} RunAllSettles<T, C>(m: Machine<T, C>, actions: seq<Action<T, C>>, st: State<T>, fuel: nat,
                                               more: nat)
    requires Settles(m.lang) && fuel <= more && Ended(RunAll(m, actions, st, fuel).outcome)
    ensures RunAll(m, actions, st, more) == RunAll(m, actions, st, fuel)
    decreases fuel, actions, 1
  {
    if actions != [] {
      RunSettles(m, actions[0], st, fuel, more);
      var r := Run(m, actions[0], st, fuel);
      if r.outcome == Done {
        RunAllSettles(m, actions[1..], r.state, fuel, more);
      }
    }
  }

  lemma {:induction false} RunRowsSettles<T, C>(m: Machine<T, C>, params: seq<T>, body: seq<Action<T, C>>,
                                                rows: seq<Row>, st: State<T>, fuel: nat, more: nat)
    requires Settles(m.lang) && fuel <= more && Ended(RunRows(m, params, body, rows, st, fuel).outcome)
    ensures RunRows(m, params, body, rows, st, more) == RunRows(m, params, body, rows, st, fuel)
    decreases fuel, body, 2, |rows|
  {
    if rows != [] {
      var bound := BindRow(st, params, rows[0].columns);
      if bound.outcome == Done {
        RunAllSettles(m, body, bound.state, fuel, more);
        var r := RunAll(m, body, bound.state, fuel);
        if r.outcome == Done {
          RunRowsSettles(m, params, body, rows[1..], r.state, fuel, more);
        }
      }
    }
  }
}
