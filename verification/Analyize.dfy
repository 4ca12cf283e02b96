/** The LQL interpreter: conditions, assignments, queries and loops over an action tree. */
module Analyizing {
  import opened Wrappers
  import opened Text
  import opened Syntax
  import opened Substitution

  // ---- the outside world -------------------------------------------------------------

  datatype Call = Call(conn: Conn, sql: string)
  datatype Answer = Fails | NoResult | Rows(rows: seq<Row>)

  /** What is outside: the database, which may answer according to all queries so far, and the
      functions that assignments can call. */
  datatype World = World(query: (seq<Call>, Call) -> Answer, function_: (string, seq<string>) -> Option<Value>)

  // ---- reading --------------------------------------------------------------------------

  datatype Eval = Val(value: Value) | Fail | Loops

  /** getParamValue: a literal, a parameter's value, or a column of the first row of a table. */
  function ParamValue(env: Env, text: string): Option<Value>
  {
    if !StartsWith(text, "@") && '.' !in text then Some(Str(text))
    else
      var ps := JavaSplit(text, ".");
      if ps == [] || ps[0] !in env then None
      else
        var p := env[ps[0]];
        if p.dataType != TableType then Some(p.value)
        else if !p.value.Table? || p.value.rows == [] || |ps| < 2 then None
        else Some(ColumnOf(p.value.rows[0].columns, ps[1]))
  }

  function ColumnOf(columns: seq<Column>, name: string): Value
  {
    if columns == [] then Null
    else if columns[0].name == name then columns[0].value
    else ColumnOf(columns[1..], name)
  }

  /** toString, which a null does not have. */
  function ToText(v: Option<Value>): Option<string>
  {
    if v == None || v == Some(Null) then None else Some(TextOf(v.value))
  }

  /** _if_Analyize: `==` compares the left text with the right value, so only a string can
      equal it; `!=` compares the values; `>` compares numbers; all else fails. */
  function Condition(env: Env, cond: string): Option<bool>
  {
    var parts := TrimSplit(cond, " ");
    if |parts| < 3 then None
    else
      var left := ParamValue(env, parts[0]);
      if parts[1] == "==" then
        match (ToText(left), ParamValue(env, parts[2]))
        case (Some(l), Some(r)) => Some(r == Str(l))
        case _ => None
      else if parts[1] == ">" then
        match (ToText(left), ToText(ParamValue(env, parts[2])))
        case (Some(l), Some(r)) =>
          (match (ParseInt(l), ParseInt(r))
           case (Some(a), Some(b)) => Some(a > b)
           case _ => None)
        case _ => None
      else if parts[1] == "!=" then
        match (left, ParamValue(env, parts[2]))
        case (Some(l), Some(r)) => if l == Null then None else Some(l != r)
        case _ => None
      else None
  }

  datatype Invocation = NotACall | BadCall | Invocation(name: string, args: string)

  /** A function call in an assignment: the name before the first `(`, and what stands between
      it and the next `(` or the end, less its last character. */
  function InvocationOf(text: string): Invocation
  {
    if !('(' in text && text[|text| - 1] == ')') then NotACall
    else
      var parts := JavaSplit(text, "(");
      if |parts| < 2 || parts[1] == "" then BadCall else Invocation(parts[0], parts[1][..|parts[1]| - 1])
  }

  /** assignmentAnalyize: a function call over a rewritten argument list, or a value. */
  function AssignedValue(world: World, env: Env, text: string, fuel: nat): Eval
  {
    match InvocationOf(text)
    case BadCall => Fail
    case Invocation(name, args) =>
      (match Rewrite(env, false, args, fuel)
       case Failed => Fail
       case Looping => Loops
       case Finished(s) =>
         match world.function_(name, JavaSplit(s, ","))
         case None => Fail
         case Some(v) => Val(v))
    case NotACall =>
      match ParamValue(env, text)
      case None => Fail
      case Some(v) => Val(v)
  }

  /** The text a QUERY sends, before its names are rewritten. */
  function SqlText(lines: seq<string>): string
  {
    if lines == [] then "" else " " + lines[0] + " " + SqlText(lines[1..])
  }

  function RewriteSql(env: Env, lines: seq<string>, fuel: nat): Rewritten
  {
    Rewrite(env, true, SqlText(lines), fuel)
  }

  /** The parts of LQL inside a line: what conditions, right-hand sides and query texts mean. */
  datatype Language = Language(test: (Env, string) -> Option<bool>,
                               eval: (World, Env, string, nat) -> Eval,
                               sql: (Env, seq<string>, nat) -> Rewritten)

  const LQL := Language(Condition, AssignedValue, RewriteSql)

  // ---- running ---------------------------------------------------------------------------

  /** A run ends done, failed (an exception), out of loop rounds, or out of rewriting rounds. */
  datatype Outcome = Done | Broken | OutOfRounds | OutOfRewriting

  /** `T` is what an action tree denotes parameters by; `store` holds them. */
  datatype State<T> = State(store: map<T, Param>, log: seq<Call>)
  datatype Result<T> = Result(state: State<T>, outcome: Outcome)

  /** How a tree is run: what each name denotes, what a tree's connections are, what its lines
      mean and what is outside. */
  datatype Machine<T, !C> = Machine(paramMap: map<string, T>, link: C -> Option<Conn>, lang: Language, world: World)

  /** Compiled trees hold their connections. */
  function Itself(c: Option<Conn>): Option<Conn> { c }

  /** The parameters as they are read, by name. */
  function View<T, C>(m: Machine<T, C>, st: State<T>): Env
  {
    map n | n in m.paramMap && m.paramMap[n] in st.store :: st.store[m.paramMap[n]]
  }

  function Assign<T>(st: State<T>, p: T, v: Value): State<T>
  {
    if p in st.store then st.(store := st.store[p := st.store[p].(value := v)]) else st
  }

  /** The columns of a row go to the parameters in order; a column too many is an error after
      all parameters have been assigned. */
  function BindRow<T>(st: State<T>, params: seq<T>, columns: seq<Column>): Result<T>
    decreases |columns|
  {
    if columns == [] then Result(st, Done)
    else if params == [] then Result(st, Broken)
    else BindRow(Assign(st, params[0], columns[0].value), params[1..], columns[1..])
  }

  function RunQuery<T, C>(m: Machine<T, C>, conn: C, target: Option<T>, text: seq<string>, st: State<T>,
                          fuel: nat): Result<T>
  {
    match m.lang.sql(View(m, st), text, fuel)
    case Failed => Result(st, Broken)
    case Looping => Result(st, OutOfRewriting)
    case Finished(sql) =>
      match m.link(conn)
      case None => Result(st, Broken)
      case Some(c) =>
        var call := Call(c, sql);
        var st' := st.(log := st.log + [call]);
        match m.world.query(st.log, call)
        case Fails => Result(st', Broken)
        case NoResult => Result(if target.Some? then Assign(st', target.value, Null) else st', Done)
        case Rows(rows) => Result(if target.Some? then Assign(st', target.value, Table(rows)) else st', Done)
  }

  /** doAnalyize, for at most `fuel` rounds of each loop. */
  function Run<T, C>(m: Machine<T, C>, a: Action<T, C>, st: State<T>, fuel: nat): Result<T>
    decreases fuel, a, 0
  {
    match a
    case If(cond, thn, els) =>
      (match m.lang.test(View(m, st), cond)
       case None => Result(st, Broken)
       case Some(b) => RunAll(m, if b then thn else els, st, fuel))
    case While(cond, body) =>
      (match m.lang.test(View(m, st), cond)
       case None => Result(st, Broken)
       case Some(b) =>
         if !b then Result(st, Done)
         else if fuel == 0 then Result(st, OutOfRounds)
         else
           var r := RunAll(m, body, st, fuel - 1);
           if r.outcome != Done then r else Run(m, a, r.state, fuel - 1))
    case Assignment(param, value) =>
      (match m.lang.eval(m.world, View(m, st), value, fuel)
       case Fail => Result(st, Broken)
       case Loops => Result(st, OutOfRewriting)
       case Val(v) => Result(Assign(st, param, v), Done))
    case Query(conn, target, text) => RunQuery(m, conn, target, text, st, fuel)
    case Foreach(table, params, body) =>
      if table in st.store && st.store[table].value.Table?
      then RunRows(m, params, body, st.store[table].value.rows, st, fuel)
      else Result(st, Broken)
  }

  function RunAll<T, C>(m: Machine<T, C>, actions: seq<Action<T, C>>, st: State<T>, fuel: nat): Result<T>
    decreases fuel, actions, 0
  {
    if actions == [] then Result(st, Done)
    else
      var r := Run(m, actions[0], st, fuel);
      if r.outcome != Done then r else RunAll(m, actions[1..], r.state, fuel)
  }

  function RunRows<T, C>(m: Machine<T, C>, params: seq<T>, body: seq<Action<T, C>>, rows: seq<Row>, st: State<T>,
                         fuel: nat): Result<T>
    decreases fuel, body, 1, |rows|
  {
    if rows == [] then Result(st, Done)
    else
      var bound := BindRow(st, params, rows[0].columns);
      if bound.outcome != Done then bound
      else
        var r := RunAll(m, body, bound.state, fuel);
        if r.outcome != Done then r else RunRows(m, params, body, rows[1..], r.state, fuel)
  }

  /** One round of a WHILE. */
  lemma WhileRound<T, C>(m: Machine<T, C>, a: Action<T, C>, st: State<T>, fuel: nat)
    requires a.While?
    ensures var b := m.lang.test(View(m, st), a.cond);
            && (b == None ==> Run(m, a, st, fuel) == Result(st, Broken))
            && (b == Some(false) ==> Run(m, a, st, fuel) == Result(st, Done))
            && (b == Some(true) && fuel == 0 ==> Run(m, a, st, fuel) == Result(st, OutOfRounds))
            && (b == Some(true) && fuel > 0 ==>
                  var r := RunAll(m, a.body, st, fuel - 1);
                  Run(m, a, st, fuel) == if r.outcome != Done then r else Run(m, a, r.state, fuel - 1))
  {
  }
}
