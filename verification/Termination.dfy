/** Programs without WHILE end: their loops are over rows, and their texts are rewritten in at most as
    many rounds as the one with the most '@' has, as long as no value contains one. */
module Termination {
  import opened Wrappers
  import opened Text
  import opened Syntax
  import opened Substitution
  import opened Analyizing
  import opened LoopFacts

  // ---- values without '@' ---------------------------------------------------------------

  ghost predicate PlainValue(v: Value) { '@' !in TextOf(v) }

  ghost predicate PlainEnv(env: Env) { forall n :: n in env ==> PlainValue(env[n].value) }

  ghost predicate PlainStore<T>(st: State<T>) { forall p :: p in st.store ==> PlainValue(st.store[p].value) }

  ghost predicate PlainRow(row: Row) { forall j :: 0 <= j < |row.columns| ==> PlainValue(row.columns[j].value) }

  ghost predicate PlainAnswer(answer: Answer) { answer.Rows? ==> PlainValue(Table(answer.rows)) }

  ghost predicate PlainResult(result: Option<Value>) { result.Some? ==> PlainValue(result.value) }

  /** Neither the database nor a function gives out a value with an '@'. */
  ghost predicate PlainWorld(world: World)
  {
    && (forall log, call :: PlainAnswer(world.query(log, call)))
    && (forall name, args :: PlainResult(world.function_(name, args)))
  }

  lemma {:induction false} ColumnsArePlain(columns: seq<Column>)
    requires '@' !in ColumnTexts(columns)
    ensures forall j :: 0 <= j < |columns| ==> PlainValue(columns[j].value)
  {
    if columns != [] {
      ColumnsArePlain(columns[1..]);
      assert forall j :: 0 < j < |columns| ==> columns[j] == columns[1..][j - 1];
    }
  }

  lemma {:induction false} RowsArePlain(rows: seq<Row>)
    requires '@' !in RowTexts(rows)
    ensures forall k :: 0 <= k < |rows| ==> PlainRow(rows[k])
  {
    if rows != [] {
      ColumnsArePlain(rows[0].columns);
      RowsArePlain(rows[1..]);
      assert forall k :: 0 < k < |rows| ==> rows[k] == rows[1..][k - 1];
    }
  }

  lemma TableRowsArePlain(rows: seq<Row>)
    requires PlainValue(Table(rows))
    ensures forall k :: 0 <= k < |rows| ==> PlainRow(rows[k])
  {
    RowsArePlain(rows);
  }

  lemma {:induction false} ColumnIsPlain(columns: seq<Column>, name: string)
    requires forall j :: 0 <= j < |columns| ==> PlainValue(columns[j].value)
    ensures PlainValue(ColumnOf(columns, name))
  {
    if columns != [] && columns[0].name != name {
      ColumnIsPlain(columns[1..], name);
    }
  }

  // ---- texts that can be rewritten ----------------------------------------------------------

  /** A right-hand side that is no literal with an '@' in it. */
  predicate PlainRhs(text: string)
  {
    InvocationOf(text).NotACall? ==> StartsWith(text, "@") || '.' in text || '@' !in text
  }

  function AtsOfRhs(text: string): nat
  {
    var call := InvocationOf(text);
    if call.Invocation? then CountAt(call.args) else 0
  }

  predicate PlainAction<T, C>(a: Action<T, C>)
    decreases a
  {
    match a
    case If(_, thn, els) => AllPlain(thn) && AllPlain(els)
    case While(_, body) => AllPlain(body)
    case Foreach(_, _, body) => AllPlain(body)
    case Query(_, _, _) => true
    case Assignment(_, value) => PlainRhs(value)
  }

  predicate AllPlain<T, C>(actions: seq<Action<T, C>>)
    decreases actions
  {
    actions == [] || (PlainAction(actions[0]) && AllPlain(actions[1..]))
  }

  /** The largest number of '@' in a text that is rewritten. */
  function MostAts<T, C>(a: Action<T, C>): nat
    decreases a
  {
    match a
    case If(_, thn, els) => Larger(MostAtsOfAll(thn), MostAtsOfAll(els))
    case While(_, body) => MostAtsOfAll(body)
    case Foreach(_, _, body) => MostAtsOfAll(body)
    case Query(_, _, text) => CountAt(SqlText(text))
    case Assignment(_, value) => AtsOfRhs(value)
  }

  function MostAtsOfAll<T, C>(actions: seq<Action<T, C>>): nat
    decreases actions
  {
    if actions == [] then 0 else Larger(MostAts(actions[0]), MostAtsOfAll(actions[1..]))
  }

  function Larger(a: nat, b: nat): nat { if a < b then b else a }

  // ---- inside a line ---------------------------------------------------------------------------

  /** In a plain environment a query text is rewritten in time. */
  ghost predicate SqlEnds(lang: Language, env: Env, text: seq<string>, fuel: nat)
  {
    PlainEnv(env) && CountAt(SqlText(text)) <= fuel ==> lang.sql(env, text, fuel) != Looping
  }

  /** In a plain environment a right-hand side is evaluated in time, to a plain value. */
  ghost predicate EvalEnds(lang: Language, world: World, env: Env, text: string, fuel: nat)
  {
    PlainEnv(env) && PlainRhs(text) && AtsOfRhs(text) <= fuel ==>
      var v := lang.eval(world, env, text, fuel);
      v != Loops && (v.Val? ==> PlainValue(v.value))
  }

  ghost predicate LinesEnd(lang: Language, world: World)
  {
    && (forall env, text, fuel :: SqlEnds(lang, env, text, fuel))
    && (forall env, text, fuel :: EvalEnds(lang, world, env, text, fuel))
  }

  lemma PlainEnvIsPlain(env: Env, issql: bool)
    requires PlainEnv(env)
    ensures Plain(env, issql)
  {
  }

  /** Each round takes an '@' away from any text. */
  lemma {:induction false} TextEnds(env: Env, issql: bool, text: string, fuel: nat)
    requires PlainEnv(env) && CountAt(text) <= fuel
    ensures Rewrite(env, issql, text, fuel) != Looping
    decreases fuel
  {
    OneRound(env, issql, text, fuel);
    if '@' in text {
      CountsAt(text);
      if Known(env, issql, NameAt(text)) {
        PlainEnvIsPlain(env, issql);
        RoundTakesAnAt(env, issql, text);
        TextEnds(env, issql, Replaced(env, issql, text), fuel - 1);
      }
    }
  }

  lemma ParamValueIsPlain(env: Env, text: string)
    requires PlainEnv(env) && (StartsWith(text, "@") || '.' in text || '@' !in text)
    ensures ParamValue(env, text).Some? ==> PlainValue(ParamValue(env, text).value)
  {
    if StartsWith(text, "@") || '.' in text {
      var ps := JavaSplit(text, ".");
      if ps != [] && ps[0] in env && env[ps[0]].value.Table? && env[ps[0]].value.rows != [] && |ps| >= 2 {
        var rows := env[ps[0]].value.rows;
        TableRowsArePlain(rows);
        assert PlainRow(rows[0]);
        ColumnIsPlain(rows[0].columns, ps[1]);
      }
    }
  }

  lemma RhsEnds(world: World, env: Env, text: string, fuel: nat)
    requires PlainWorld(world)
    ensures EvalEnds(LQL, world, env, text, fuel)
  {
    if PlainEnv(env) && PlainRhs(text) && AtsOfRhs(text) <= fuel {
      match InvocationOf(text)
      case BadCall =>
      case NotACall => ParamValueIsPlain(env, text);
      case Invocation(name, args) =>
        TextEnds(env, false, args, fuel);
        var r := Rewrite(env, false, args, fuel);
        if r.Finished? {
          assert PlainResult(world.function_(name, JavaSplit(r.text, ",")));
        }
    }
  }

  lemma LqlLinesEnd(world: World)
    requires PlainWorld(world)
    ensures LinesEnd(LQL, world)
  {
    forall env, text, fuel ensures SqlEnds(LQL, env, text, fuel) {
      if PlainEnv(env) && CountAt(SqlText(text)) <= fuel {
        TextEnds(env, true, SqlText(text), fuel);
      }
    }
    forall env, text, fuel ensures EvalEnds(LQL, world, env, text, fuel) {
      RhsEnds(world, env, text, fuel);
    }
  }

  // ---- runs ----------------------------------------------------------------------------------------

  /** The run has ended, and has left values without '@'. */
  ghost predicate EndsPlainly<T>(r: Result<T>) { Ended(r.outcome) && PlainStore(r.state) }

  ghost predicate Harmless<T, C>(m: Machine<T, C>) { LinesEnd(m.lang, m.world) && PlainWorld(m.world) }

  lemma ViewIsPlain<T, C>(m: Machine<T, C>, st: State<T>)
    requires PlainStore(st)
    ensures PlainEnv(View(m, st))
  {
  }

  lemma {:induction false} BindRowIsPlain<T>(st: State<T>, params: seq<T>, columns: seq<Column>)
    requires PlainStore(st) && forall j :: 0 <= j < |columns| ==> PlainValue(columns[j].value)
    ensures EndsPlainly(BindRow(st, params, columns))
    decreases |columns|
  {
    if columns != [] && params != [] {
      BindRowIsPlain(Assign(st, params[0], columns[0].value), params[1..], columns[1..]);
    }
  }

  lemma QueryEnds<T, C>(m: Machine<T, C>, conn: C, target: Option<T>, text: seq<string>, st: State<T>, fuel: nat)
    requires Harmless(m) && PlainStore(st) && CountAt(SqlText(text)) <= fuel
    ensures EndsPlainly(RunQuery(m, conn, target, text, st, fuel))
  {
    ViewIsPlain(m, st);
    assert SqlEnds(m.lang, View(m, st), text, fuel);
    var sql := m.lang.sql(View(m, st), text, fuel);
    if sql.Finished? && m.link(conn).Some? {
      assert PlainAnswer(m.world.query(st.log, Call(m.link(conn).value, sql.text)));
    }
  }

  lemma AssignmentEnds<T, C>(m: Machine<T, C>, param: T, text: string, st: State<T>, fuel: nat)
    requires Harmless(m) && PlainStore(st) && PlainRhs(text) && AtsOfRhs(text) <= fuel
    ensures EndsPlainly(Run(m, Assignment(param, text), st, fuel))
  {
    ViewIsPlain(m, st);
    assert EvalEnds(m.lang, m.world, View(m, st), text, fuel);
  }

  lemma {:induction false} RunEnds<T, C>(m: Machine<T, C>, a: Action<T, C>, st: State<T>, fuel: nat)
    requires Harmless(m) && PlainStore(st) && WhileFree(a) && PlainAction(a) && MostAts(a) <= fuel
    ensures EndsPlainly(Run(m, a, st, fuel))
    decreases a, 0
  {
    match a
    case If(_, thn, els) =>
      RunAllEnds(m, thn, st, fuel);
      RunAllEnds(m, els, st, fuel);
    case Foreach(table, params, body) =>
      if table in st.store && st.store[table].value.Table? {
        var rows := st.store[table].value.rows;
        TableRowsArePlain(rows);
        RowsEnd(m, params, body, rows, st, fuel);
      }
    case Query(conn, target, text) => QueryEnds(m, conn, target, text, st, fuel);
    case Assignment(param, value) => AssignmentEnds(m, param, value, st, fuel);
  }

  lemma {:induction false} RunAllEnds<T, C>(m: Machine<T, C>, actions: seq<Action<T, C>>, st: State<T>, fuel: nat)
    requires Harmless(m) && PlainStore(st) && AllWhileFree(actions) && AllPlain(actions)
    requires MostAtsOfAll(actions) <= fuel
    ensures EndsPlainly(RunAll(m, actions, st, fuel))
    decreases actions, 0
  {
    if actions != [] {
      RunEnds(m, actions[0], st, fuel);
      RunAllEnds(m, actions[1..], Run(m, actions[0], st, fuel).state, fuel);
    }
  }

  lemma {:induction false} RowsEnd<T, C>(m: Machine<T, C>, params: seq<T>, body: seq<Action<T, C>>, rows: seq<Row>,
                                         st: State<T>, fuel: nat)
    requires Harmless(m) && PlainStore(st) && AllWhileFree(body) && AllPlain(body) && MostAtsOfAll(body) <= fuel
    requires forall k :: 0 <= k < |rows| ==> PlainRow(rows[k])
    ensures EndsPlainly(RunRows(m, params, body, rows, st, fuel))
    decreases body, 1, |rows|
  {
    if rows != [] {
      assert PlainRow(rows[0]);
      var bound := BindRow(st, params, rows[0].columns);
      BindRowIsPlain(st, params, rows[0].columns);
      RunAllEnds(m, body, bound.state, fuel);
      RowsEnd(m, params, body, rows[1..], RunAll(m, body, bound.state, fuel).state, fuel);
    }
  }

  /** A program without WHILE ends: if no value in the store, in an answer of the database or in a result
      of a function has an '@' in its text, nor any literal that is assigned, every run with a bound of at
      least as many rewriting rounds as the text with the most '@' has '@' ends, done or failed, and
      leaves no value with an '@'. */
  lemma WhileFreeTerminates<T, C>(m: Machine<T, C>, a: Action<T, C>, st: State<T>, fuel: nat)
    requires m.lang == LQL && PlainWorld(m.world) && PlainStore(st) && WhileFree(a) && PlainAction(a)
    requires fuel >= MostAts(a)
    ensures Ended(Run(m, a, st, fuel).outcome) && PlainStore(Run(m, a, st, fuel).state)
  {
    LqlLinesEnd(m.world);
    RunEnds(m, a, st, fuel);
  }

  /** Whole programs. */
  lemma WhileFreeProgramsTerminate<T, C>(m: Machine<T, C>, actions: seq<Action<T, C>>, st: State<T>, fuel: nat)
    requires m.lang == LQL && PlainWorld(m.world) && PlainStore(st)
    requires AllWhileFree(actions) && AllPlain(actions) && fuel >= MostAtsOfAll(actions)
    ensures Ended(RunAll(m, actions, st, fuel).outcome) && PlainStore(RunAll(m, actions, st, fuel).state)
  {
    LqlLinesEnd(m.world);
    RunAllEnds(m, actions, st, fuel);
  }
}
