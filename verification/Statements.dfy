/** What the statements of a program do, as they are written: queries, assignments, conditions and calls. */
module Statements {
  import opened Wrappers
  import opened Text
  import opened Syntax
  import opened Substitution
  import opened References
  import opened Quoting
  import opened Numbers
  import opened Analyizing
  import opened Operands
  import opened LoopFacts

  // ---- queries ------------------------------------------------------------------------------

  lemma {:induction false} SqlTextConcat(a: seq<string>, b: seq<string>)
    ensures SqlText(a + b) == SqlText(a) + SqlText(b)
  {
    if a == [] {
      assert a + b == b;
    } else {
      assert (a + b)[1..] == a[1..] + b;
      SqlTextConcat(a[1..], b);
    }
  }

  /** The text a query sends has its lines in order, each with a space before and after it. */
  lemma SqlTextOfLine(before: seq<string>, line: string, after: seq<string>)
    ensures SqlText(before + [line] + after) == SqlText(before) + (" " + line + " ") + SqlText(after)
    ensures SqlText([]) == ""
  {
    SqlTextConcat(before + [line], after);
    SqlTextConcat(before, [line]);
    assert [line][1..] == [];
    assert " " + line + " " + "" == " " + line + " ";
  }

  /** A QUERY that can be sent: the log grows by the one call, whose text is that of its lines with the names
      rewritten as in SQL. If the database answers with rows, they are the target's value; if it has no
      result, that is null; nothing else changes, and nothing at all without a target or when the
      database fails, which breaks the run. */
  lemma QueryStoresItsAnswer<T, C>(m: Machine<T, C>, conn: C, target: Option<T>, lines: seq<string>, st: State<T>,
                                   fuel: nat, sql: string, c: Conn)
    requires m.lang == LQL && m.link(conn) == Some(c)
    requires Rewrite(View(m, st), true, SqlText(lines), fuel) == Finished(sql)
    ensures var r := Run(m, Query(conn, target, lines), st, fuel);
            var answer := m.world.query(st.log, Call(c, sql));
            && r.state.log == st.log + [Call(c, sql)] && r.state.store.Keys == st.store.Keys
            && (answer.Fails? ==> r.outcome == Broken && r.state.store == st.store)
            && (!answer.Fails? ==> r.outcome == Done)
            && (forall p :: p in st.store && target != Some(p) ==> r.state.store[p] == st.store[p])
            && (!answer.Fails? && target.Some? && target.value in st.store ==>
                  && r.state.store[target.value].dataType == st.store[target.value].dataType
                  && (answer.Rows? ==> r.state.store[target.value].value == Table(answer.rows))
                  && (answer.NoResult? ==> r.state.store[target.value].value == Null))
  {
  }

  /** A QUERY that cannot be sent, for a name that cannot be rewritten or for want of a connection, breaks the
      run and changes nothing; no text is sent. */
  lemma UnsentQueryChangesNothing<T, C>(m: Machine<T, C>, conn: C, target: Option<T>, lines: seq<string>, st: State<T>,
                                        fuel: nat)
    requires m.lang == LQL
    requires var sql := Rewrite(View(m, st), true, SqlText(lines), fuel);
             sql.Failed? || (sql.Finished? && m.link(conn) == None)
    ensures Run(m, Query(conn, target, lines), st, fuel) == Result(st, Broken)
  {
  }

  lemma RunsInSequence<T, C>(m: Machine<T, C>, first: Action<T, C>, second: Action<T, C>, st: State<T>, fuel: nat)
    requires Run(m, first, st, fuel).outcome == Done
    ensures RunAll(m, [first, second], st, fuel) == Run(m, second, Run(m, first, st, fuel).state, fuel)
  {
    var st' := Run(m, first, st, fuel).state;
    assert [first, second][1..] == [second] && [second][1..] == [];
    var r := Run(m, second, st', fuel);
    assert RunAll(m, [second], st', fuel) == r;
  }

  /** A FOREACH over the target of a QUERY before it runs its body once for each row that the database has
      answered, in order. */
  lemma QueryThenForeach<T, C>(m: Machine<T, C>, conn: C, target: T, lines: seq<string>, params: seq<T>,
                               body: seq<Action<T, C>>, st: State<T>, fuel: nat, sql: string, c: Conn, rows: seq<Row>)
    returns (starts: seq<State<T>>, answered: State<T>)
    requires m.lang == LQL && m.link(conn) == Some(c) && target in st.store
    requires forall i :: 0 <= i < |params| ==> params[i] in st.store
    requires Rewrite(View(m, st), true, SqlText(lines), fuel) == Finished(sql)
    requires m.world.query(st.log, Call(c, sql)) == Rows(rows)
    requires RunAll(m, [Query(conn, Some(target), lines), Foreach(target, params, body)], st, fuel).outcome == Done
    ensures answered.log == st.log + [Call(c, sql)]
    ensures answered.store == st.store[target := st.store[target].(value := Table(rows))]
    ensures OncePerRow(m, params, body, rows, answered, fuel, starts,
                       RunAll(m, [Query(conn, Some(target), lines), Foreach(target, params, body)], st, fuel).state)
  {
    answered := QueryAnswers(m, conn, target, lines, st, fuel, sql, c, rows);
    RunsInSequence(m, Query(conn, Some(target), lines), Foreach(target, params, body), st, fuel);
    starts := ForeachRunsOncePerRow(m, target, params, body, answered, fuel);
  }

  lemma QueryAnswers<T, C>(m: Machine<T, C>, conn: C, target: T, lines: seq<string>, st: State<T>, fuel: nat,
                           sql: string, c: Conn, rows: seq<Row>)
    returns (answered: State<T>)
    requires m.lang == LQL && m.link(conn) == Some(c) && target in st.store
    requires Rewrite(View(m, st), true, SqlText(lines), fuel) == Finished(sql)
    requires m.world.query(st.log, Call(c, sql)) == Rows(rows)
    ensures Run(m, Query(conn, Some(target), lines), st, fuel) == Result(answered, Done)
    ensures answered.log == st.log + [Call(c, sql)]
    ensures answered.store == st.store[target := st.store[target].(value := Table(rows))]
  {
    answered := Run(m, Query(conn, Some(target), lines), st, fuel).state;
  }

  // ---- values and calls -----------------------------------------------------------------------

  /** A text without a dot is a literal, unless it starts with '@': then it is the value of the parameter of
      that name, which has to be declared and must not be a table. */
  lemma ValueIsRead(env: Env, text: string)
    requires '.' !in text
    ensures (text == "" || text[0] != '@') ==> ParamValue(env, text) == Some(Str(text))
    ensures text != "" && text[0] == '@' ==>
              ParamValue(env, text)
              == if text in env && env[text].dataType != TableType then Some(env[text].value) else None
  {
    WholePiece(text, '.');
  }

  lemma {:induction false} JoinIsSplit(words: seq<string>, sep: char)
    requires words != [] && forall i :: 0 <= i < |words| ==> sep !in words[i]
    ensures Pieces(Join(words, [sep]), [sep]) == words
  {
    if |words| == 1 {
      WholePiece(words[0], sep);
    } else {
      var more := Join(words[1..], [sep]);
      assert forall i :: 0 <= i < |words[1..]| ==> words[1..][i] == words[i + 1];
      JoinIsSplit(words[1..], sep);
      ClearWithout(words[0], sep, more);
      PiecesCut(words[0], [sep], more);
      assert [words[0]] + words[1..] == words;
    }
  }

  /** A call on the right-hand side of an assignment: the function of that name is given the arguments that
      the text between the parentheses comes to, rewritten without quotes and cut at its commas; the value
      is what it gives, and it fails if the function does. */
  lemma CallPassesItsArguments(world: World, env: Env, name: string, text: string, args: seq<string>, fuel: nat)
    requires '(' !in name && '(' !in text && Rewrite(env, false, text, fuel) == Finished(Join(args, ","))
    requires args != [] && args[|args| - 1] != "" && forall i :: 0 <= i < |args| ==> ',' !in args[i]
    ensures LQL.eval(world, env, name + "(" + text + ")", fuel)
         == var result := world.function_(name, args); if result == None then Fail else Val(result.value)
  {
    CallIsRead(name, text);
    JoinIsSplit(args, ',');
  }

  /** Splitting drops the empty pieces at the end, unless there is nothing to split at. */
  lemma {:induction false} TrailingEmptyIsDropped(ps: seq<string>)
    ensures var r := DropTrailingEmpty(ps);
            r <= ps && (r == [] || r[|r| - 1] != "") && forall i :: |r| <= i < |ps| ==> ps[i] == ""
  {
    if ps != [] && ps[|ps| - 1] == "" {
      TrailingEmptyIsDropped(ps[..|ps| - 1]);
    }
  }

  /** A call without anything between its parentheses passes one argument, the empty text. */
  lemma EmptyCallPassesEmptyText(world: World, env: Env, name: string, fuel: nat)
    requires '(' !in name
    ensures LQL.eval(world, env, name + "()", fuel)
         == var result := world.function_(name, [""]); if result == None then Fail else Val(result.value)
  {
    CallIsRead(name, "");
    assert name + "(" + "" + ")" == name + "()";
  }

  /** Empty words at the end are not passed: a comma too many is ignored. */
  lemma TrailingCommaIsIgnored(world: World, env: Env, name: string, word: string, fuel: nat)
    requires '(' !in name && '(' !in word && ',' !in word && '@' !in word && word != ""
    ensures LQL.eval(world, env, name + "(" + (word + ",") + ")", fuel)
         == var result := world.function_(name, [word]); if result == None then Fail else Val(result.value)
  {
    var text := word + ",";
    CallIsRead(name, text);
    SplitsInTwo(word, ',', "");
    assert word + "," + "" == text;
    assert [word, ""][..1] == [word];
    assert DropTrailingEmpty([word]) == [word];
    OneRound(env, false, text, fuel);
  }

  /** A parameter as the argument: its bare text is passed, also for a string, and null fails. */
  lemma CallPassesParameter(world: World, env: Env, name: string, param: string, text: string, fuel: nat)
    requires '(' !in name && IsName(param) && '(' !in param && param in env && env[param].value != Null && fuel > 0
    requires text == JavaText(env[param].value) && text != "" && ',' !in text && '@' !in text
    ensures LQL.eval(world, env, name + "(" + param + ")", fuel)
         == var result := world.function_(name, [text]); if result == None then Fail else Val(result.value)
  {
    PlainNameIsWritten(env, false, "", param, "", Some(text), fuel);
    assert "" + param + "" == param && "" + text + "" == text;
    CallPassesItsArguments(world, env, name, param, [text], fuel);
  }

  /** An assignment: the parameter holds the value of the right-hand side and keeps its type, and nothing else
      changes; without a value the run is broken and nothing changes. */
  lemma AssignmentStoresItsValue<T, C>(m: Machine<T, C>, param: T, text: string, st: State<T>, fuel: nat, e: Eval)
    requires m.lang == LQL && param in st.store && e == LQL.eval(m.world, View(m, st), text, fuel)
    ensures var r := Run(m, Assignment(param, text), st, fuel);
            && r.state.log == st.log && r.state.store.Keys == st.store.Keys
            && (e.Val? ==>
                  && r.outcome == Done && r.state.store[param].value == e.value
                  && r.state.store[param].dataType == st.store[param].dataType
                  && forall p :: p in st.store && p != param ==> r.state.store[p] == st.store[p])
            && (!e.Val? ==> r.state == st && r.outcome == if e.Fail? then Broken else OutOfRewriting)
  {
  }

  // ---- conditions -----------------------------------------------------------------------------

  /** A parameter that is no table, as the word of a condition. */
  ghost predicate ReadsAs<T, C>(m: Machine<T, C>, st: State<T>, name: string, value: Value)
  {
    && IsOperand(name) && name[0] == '@' && '.' !in name
    && name in m.paramMap && m.paramMap[name] in st.store
    && st.store[m.paramMap[name]].dataType != TableType && st.store[m.paramMap[name]].value == value
  }

  predicate IsLiteral(word: string) { IsOperand(word) && word[0] != '@' && '.' !in word }

  lemma OperandsAreRead<T, C>(m: Machine<T, C>, st: State<T>, name: string, value: Value, word: string)
    requires ReadsAs(m, st, name, value) && IsLiteral(word)
    ensures ParamValue(View(m, st), name) == Some(value) && ParamValue(View(m, st), word) == Some(Str(word))
  {
    ValueIsRead(View(m, st), name);
    ValueIsRead(View(m, st), word);
  }

  /** IF with a string parameter and a literal: the then branch is run exactly if the parameter is, for `==`, or
      is not, for `!=`, that literal; otherwise the else branch is. */
  lemma IfComparesStrings<T, C>(m: Machine<T, C>, st: State<T>, name: string, text: string, word: string,
                                thn: seq<Action<T, C>>, els: seq<Action<T, C>>, fuel: nat)
    requires m.lang == LQL && ReadsAs(m, st, name, Str(text)) && IsLiteral(word)
    ensures Run(m, If(Test(name, "==", word), thn, els), st, fuel)
         == RunAll(m, if text == word then thn else els, st, fuel)
    ensures Run(m, If(Test(name, "!=", word), thn, els), st, fuel)
         == RunAll(m, if text != word then thn else els, st, fuel)
  {
    OperandsAreRead(m, st, name, Str(text), word);
    EqualTest(View(m, st), name, word);
    DifferentTest(View(m, st), name, word);
  }

  /** IF with a number in a parameter, a string or any scalar whose text is that number, and a number: the then
      branch is run exactly if the first is greater. */
  lemma IfComparesNumbers<T, C>(m: Machine<T, C>, st: State<T>, name: string, value: Value, i: int, j: int,
                                thn: seq<Action<T, C>>, els: seq<Action<T, C>>, fuel: nat)
    requires m.lang == LQL && ReadsAs(m, st, name, value) && value != Null && JavaText(value) == Written(i)
    requires -0x8000_0000 <= i < 0x8000_0000 && -0x8000_0000 <= j < 0x8000_0000
    ensures Run(m, If(Test(name, ">", Written(j)), thn, els), st, fuel)
         == RunAll(m, if i > j then thn else els, st, fuel)
  {
    WrittenIsLiteral(j);
    OperandsAreRead(m, st, name, value, Written(j));
    TextIsJavaText(value);
    ParseIntReadsWritten(i);
    ParseIntReadsWritten(j);
    GreaterTest(View(m, st), name, Written(j));
  }

  lemma WrittenIsLiteral(n: int)
    ensures IsLiteral(Written(n))
  {
    var digits := Decimal(if n < 0 then -n else n);
    assert forall k :: 0 <= k < |digits| ==> digits[k] in digits && IsDigit(digits[k]);
  }

  /** An IF or WHILE whose condition starts with a parameter that is not declared, or is null, breaks the run and
      changes nothing. */
  lemma UnreadableConditionBreaks<T, C>(m: Machine<T, C>, st: State<T>, name: string, op: string, word: string,
                                        a: Action<T, C>, fuel: nat)
    requires m.lang == LQL && IsOperand(name) && name[0] == '@' && '.' !in name
    requires name !in View(m, st) || ReadsAs(m, st, name, Null)
    requires op in {"==", "!=", ">"} && IsLiteral(word)
    requires (a.If? || a.While?) && a.cond == Test(name, op, word)
    ensures Run(m, a, st, fuel) == Result(st, Broken)
  {
    ValueIsRead(View(m, st), name);
    TestIsSplit(name, op, word);
  }
}
