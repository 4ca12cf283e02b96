/** What a compiled program means: running it on Param objects resolved at compile time is
    running its source text with every name looked up when it is used. */
module Meaning {
  import opened Wrappers
  import opened Text
  import opened Syntax
  import opened Substitution
  import opened Analyizing
  import opened Grammar

  type Names = map<string, Ref>

  /** The compiled program's machine: parameters are Params, connections are resolved. */
  ghost function Objects(f: Scope, lang: Language, world: World): Machine<Ref, Option<Conn>>
  {
    Machine(f.paramMap, Itself, lang, world)
  }

  /** A source tree whose connections, which are no state of a run, are looked up where it stands;
      parameters are names still. */
  type Linked = Action<string, Option<Conn>>

  function Link(s: Source, conns: map<string, Conn>): Linked
    decreases s
  {
    match s
    case If(cond, thn, els) => If(cond, LinkAll(thn, conns), LinkAll(els, conns))
    case While(cond, body) => While(cond, LinkAll(body, conns))
    case Foreach(table, params, body) => Foreach(table, params, LinkAll(body, conns))
    case Query(conn, target, text) => Query(if conn in conns then Some(conns[conn]) else None, target, text)
    case Assignment(param, value) => Assignment(param, value)
  }

  function LinkAll(ss: seq<Source>, conns: map<string, Conn>): (r: seq<Linked>)
    ensures |r| == |ss|
    decreases ss
  {
    if ss == [] then [] else [Link(ss[0], conns)] + LinkAll(ss[1..], conns)
  }

  /** The source program's machine: parameters are names. */
  ghost function Named(f: Scope, lang: Language, world: World): Machine<string, Option<Conn>>
  {
    Machine(map n | n in f.paramMap :: n, Itself, lang, world)
  }

  /** The state as seen by name. */
  ghost function ByName(f: Scope, st: State<Ref>): State<string>
  {
    State(map n | n in f.paramMap && f.paramMap[n] in st.store :: st.store[f.paramMap[n]], st.log)
  }

  ghost function ResultByName(f: Scope, r: Result<Ref>): Result<string>
  {
    Result(ByName(f, r.state), r.outcome)
  }

  /** Names denote different Params, all of them in the store. */
  ghost predicate Sound(f: Scope, st: State<Ref>)
  {
    && (forall n :: n in f.paramMap ==> f.paramMap[n] in st.store)
    && (forall n, n' :: n in f.paramMap && n' in f.paramMap && f.paramMap[n] == f.paramMap[n'] ==> n == n')
  }

  // ---- trees that name what the code refers to ------------------------------------------

  ghost predicate Denotes(f: Scope, n: string, r: Ref) { f.Lookup(n) == Some(r) }

  ghost predicate DenoteAll(f: Scope, ns: seq<string>, rs: seq<Ref>)
  {
    |ns| == |rs| && (ns == [] || (Denotes(f, ns[0], rs[0]) && DenoteAll(f, ns[1..], rs[1..])))
  }

  /** `code` is `s` with each parameter's name replaced by what it denotes in `f`. */
  ghost predicate Tied(f: Scope, s: Linked, code: Code)
    decreases s
  {
    match (s, code)
    case (If(c, thn, els), If(c', thn', els')) => c == c' && TiedAll(f, thn, thn') && TiedAll(f, els, els')
    case (While(c, body), While(c', body')) => c == c' && TiedAll(f, body, body')
    case (Foreach(t, ps, body), Foreach(t', ps', body')) =>
      Denotes(f, t, t') && DenoteAll(f, ps, ps') && TiedAll(f, body, body')
    case (Query(conn, target, text), Query(conn', target', text')) =>
      && conn == conn' && text == text'
      && (target.Some? <==> target'.Some?) && (target.Some? ==> Denotes(f, target.value, target'.value))
    case (Assignment(p, v), Assignment(p', v')) => Denotes(f, p, p') && v == v'
    case _ => false
  }

  ghost predicate TiedAll(f: Scope, ss: seq<Linked>, codes: seq<Code>)
    decreases ss
  {
    |ss| == |codes| && (ss == [] || (Tied(f, ss[0], codes[0]) && TiedAll(f, ss[1..], codes[1..])))
  }

  // ---- one step at a time -----------------------------------------------------------------

  lemma ViewsAgree(f: Scope, lang: Language, world: World, st: State<Ref>)
    ensures View(Named(f, lang, world), ByName(f, st)) == View(Objects(f, lang, world), st)
  {
  }

  lemma AssignByName(f: Scope, st: State<Ref>, n: string, r: Ref, v: Value)
    requires Sound(f, st) && Denotes(f, n, r)
    ensures ByName(f, Assign(st, r, v)) == Assign(ByName(f, st), n, v)
    ensures Sound(f, Assign(st, r, v))
  {
    assert ByName(f, Assign(st, r, v)).store == Assign(ByName(f, st), n, v).store;
  }

  lemma {:induction false} BindRowByName(f: Scope, st: State<Ref>, ns: seq<string>, rs: seq<Ref>, columns: seq<Column>)
    requires Sound(f, st) && DenoteAll(f, ns, rs)
    ensures ResultByName(f, BindRow(st, rs, columns)) == BindRow(ByName(f, st), ns, columns)
    ensures Sound(f, BindRow(st, rs, columns).state)
    decreases |columns|
  {
    if columns != [] && rs != [] {
      AssignByName(f, st, ns[0], rs[0], columns[0].value);
      BindRowByName(f, Assign(st, rs[0], columns[0].value), ns[1..], rs[1..], columns[1..]);
    }
  }

  lemma QueryByName(f: Scope, lang: Language, world: World, st: State<Ref>, conn: Option<Conn>, target: Option<string>,
                    r: Option<Ref>, text: seq<string>, fuel: nat)
    requires Sound(f, st) && (target.Some? <==> r.Some?) && (target.Some? ==> Denotes(f, target.value, r.value))
    ensures ResultByName(f, RunQuery(Objects(f, lang, world), conn, r, text, st, fuel))
         == RunQuery(Named(f, lang, world), conn, target, text, ByName(f, st), fuel)
    ensures Sound(f, RunQuery(Objects(f, lang, world), conn, r, text, st, fuel).state)
  {
    ViewsAgree(f, lang, world, st);
    var sql := lang.sql(View(Objects(f, lang, world), st), text, fuel);
    if sql.Finished? && conn.Some? {
      var call := Call(conn.value, sql.text);
      var st' := st.(log := st.log + [call]);
      assert ByName(f, st') == ByName(f, st).(log := st.log + [call]);
      var answer := world.query(st.log, call);
      if target.Some? {
        AssignByName(f, st', target.value, r.value, Null);
        if answer.Rows? {
          AssignByName(f, st', target.value, r.value, Table(answer.rows));
        }
      }
    }
  }

  // ---- compilation preserves meaning --------------------------------------------------------

  /** Running tied code gives, by name, exactly what running its source gives: the same values,
      the same queries in the same order, the same ending, for every bound on the loops. */
  lemma {:induction false} RunByName(f: Scope, lang: Language, world: World, s: Linked, code: Code, st: State<Ref>,
                                     fuel: nat)
    requires Sound(f, st) && Tied(f, s, code)
    ensures ResultByName(f, Run(Objects(f, lang, world), code, st, fuel))
         == Run(Named(f, lang, world), s, ByName(f, st), fuel)
    ensures Sound(f, Run(Objects(f, lang, world), code, st, fuel).state)
    decreases fuel, s, 1
  {
    match (s, code)
    case (If(_, _, _), If(_, _, _)) => IfByName(f, lang, world, s, code, st, fuel);
    case (While(_, _), While(_, _)) => WhileByName(f, lang, world, s, code, st, fuel);
    case (Foreach(t, ps, body), Foreach(t', ps', body')) =>
      if st.store[t'].value.Table? {
        RunRowsByName(f, lang, world, ps, ps', body, body', st.store[t'].value.rows, st, fuel);
      }
    case (Query(conn, target, text), Query(_, target', _)) =>
      QueryByName(f, lang, world, st, conn, target, target', text, fuel);
    case (Assignment(p, v), Assignment(p', _)) =>
      ViewsAgree(f, lang, world, st);
      var value := lang.eval(world, View(Objects(f, lang, world), st), v, fuel);
      if value.Val? {
        AssignByName(f, st, p, p', value.value);
      }
  }

  lemma {:induction false} IfByName(f: Scope, lang: Language, world: World, s: Linked, code: Code, st: State<Ref>,
                                    fuel: nat)
    requires Sound(f, st) && Tied(f, s, code) && s.If?
    ensures ResultByName(f, Run(Objects(f, lang, world), code, st, fuel))
         == Run(Named(f, lang, world), s, ByName(f, st), fuel)
    ensures Sound(f, Run(Objects(f, lang, world), code, st, fuel).state)
    decreases fuel, s, 0
  {
    ViewsAgree(f, lang, world, st);
    if lang.test(View(Objects(f, lang, world), st), s.cond) == Some(true) {
      RunAllByName(f, lang, world, s.thn, code.thn, st, fuel);
    } else {
      RunAllByName(f, lang, world, s.els, code.els, st, fuel);
    }
  }

  lemma {:induction false} WhileByName(f: Scope, lang: Language, world: World, s: Linked, code: Code, st: State<Ref>,
                                       fuel: nat)
    requires Sound(f, st) && Tied(f, s, code) && s.While?
    ensures ResultByName(f, Run(Objects(f, lang, world), code, st, fuel))
         == Run(Named(f, lang, world), s, ByName(f, st), fuel)
    ensures Sound(f, Run(Objects(f, lang, world), code, st, fuel).state)
    decreases fuel, s, 0
  {
    ViewsAgree(f, lang, world, st);
    if lang.test(View(Objects(f, lang, world), st), s.cond) == Some(true) && fuel > 0 {
      RunAllByName(f, lang, world, s.body, code.body, st, fuel - 1);
      var r := RunAll(Objects(f, lang, world), code.body, st, fuel - 1);
      if r.outcome == Done {
        WhileRound(Objects(f, lang, world), code, st, fuel);
        WhileRound(Named(f, lang, world), s, ByName(f, st), fuel);
        RunByName(f, lang, world, s, code, r.state, fuel - 1);
      }
    }
  }

  lemma {:induction false} RunAllByName(f: Scope, lang: Language, world: World, ss: seq<Linked>, codes: seq<Code>,
                                        st: State<Ref>, fuel: nat)
    requires Sound(f, st) && TiedAll(f, ss, codes)
    ensures ResultByName(f, RunAll(Objects(f, lang, world), codes, st, fuel))
         == RunAll(Named(f, lang, world), ss, ByName(f, st), fuel)
    ensures Sound(f, RunAll(Objects(f, lang, world), codes, st, fuel).state)
    decreases fuel, ss, 0
  {
    if ss != [] {
      RunByName(f, lang, world, ss[0], codes[0], st, fuel);
      RunAllByName(f, lang, world, ss[1..], codes[1..], Run(Objects(f, lang, world), codes[0], st, fuel).state, fuel);
    }
  }

  lemma {:induction false} RunRowsByName(f: Scope, lang: Language, world: World, ps: seq<string>, ps': seq<Ref>,
                                         body: seq<Linked>, body': seq<Code>, rows: seq<Row>, st: State<Ref>, fuel: nat)
    requires Sound(f, st) && DenoteAll(f, ps, ps') && TiedAll(f, body, body')
    ensures ResultByName(f, RunRows(Objects(f, lang, world), ps', body', rows, st, fuel))
         == RunRows(Named(f, lang, world), ps, body, rows, ByName(f, st), fuel)
    ensures Sound(f, RunRows(Objects(f, lang, world), ps', body', rows, st, fuel).state)
    decreases fuel, body, 1, |rows|
  {
    if rows != [] {
      BindRowByName(f, st, ps, ps', rows[0].columns);
      var bound := BindRow(st, ps', rows[0].columns);
      if bound.outcome == Done {
        RunAllByName(f, lang, world, body, body', bound.state, fuel);
        var r := RunAll(Objects(f, lang, world), body', bound.state, fuel);
        RunRowsByName(f, lang, world, ps, ps', body, body', rows[1..], r.state, fuel);
      }
    }
  }
}
