/** The interpreter as the code runs it: in place, on the Params of a compiled file. */
module Interpreting {
  import opened Wrappers
  import opened Text
  import opened Syntax
  import opened Substitution
  import opened Analyizing
  import Compiling

  class Analyize {
    const exe: Compiling.Exe
    const world: World
    var log: seq<Call>

    constructor (exe: Compiling.Exe, world: World)
      ensures this.exe == exe && this.world == world && log == []
    {
      this.exe, this.world, log := exe, world, [];
    }

    function Here(): State<Ref>
      reads this, exe
    {
      State(exe.cells, log)
    }

    function AsMachine(): Machine<Ref, Option<Conn>>
      reads exe
    {
      Machine(exe.paramMap, Itself, LQL, world)
    }

    method AnalyizeExe(fuel: nat) returns (outcome: Outcome)
      modifies this, exe`cells
      ensures Result(Here(), outcome) == RunAll(AsMachine(), exe.actions, old(Here()), fuel)
    {
      outcome := RunActions(exe.actions, fuel);
    }

    method DoAnalyize(action: Code, fuel: nat) returns (outcome: Outcome)
      modifies this, exe`cells
      ensures Result(Here(), outcome) == Run(AsMachine(), action, old(Here()), fuel)
      decreases fuel, action, 0
    {
      match action
      case If(cond, thn, els) =>
        var b := IfAnalyize(cond);
        if b == None {
          return Broken;
        }
        outcome := RunActions(if b.value then thn else els, fuel);
      case While(_, _) =>
        outcome := RunWhile(action, fuel);
      case Assignment(param, value) =>
        var v := AssignmentAnalyize(value, fuel);
        if v.Val? {
          exe.cells := Assign(Here(), param, v.value).store;
        }
        outcome := match v case Fail => Broken case Loops => OutOfRewriting case Val(_) => Done;
      case Query(conn, target, text) =>
        outcome := RunSql(conn, target, text, fuel);
      case Foreach(table, params, body) =>
        if table !in exe.cells || !exe.cells[table].value.Table? {
          return Broken;
        }
        outcome := RunTable(exe.cells[table].value.rows, params, body, fuel);
    }

    /** A WHILE tests its condition before every round. */
    method RunWhile(action: Code, fuel: nat) returns (outcome: Outcome)
      requires action.While?
      modifies this, exe`cells
      ensures Result(Here(), outcome) == Run(AsMachine(), action, old(Here()), fuel)
      decreases fuel, action.body, 2
    {
      ghost var goal := Run(AsMachine(), action, Here(), fuel);
      var left: nat := fuel;
      while true
        invariant left <= fuel
        invariant goal == Run(AsMachine(), action, Here(), left)
        decreases left
      {
        ghost var st := Here();
        var b := IfAnalyize(action.cond);
        WhileRound(AsMachine(), action, st, left);
        if b == None {
          return Broken;
        } else if !b.value {
          return Done;
        } else if left == 0 {
          return OutOfRounds;
        }
        left := left - 1;
        var o := RunActions(action.body, left);
        if o != Done {
          return o;
        }
      }
    }

    method IfAnalyize(condition: string) returns (b: Option<bool>)
      ensures b == AsMachine().lang.test(View(AsMachine(), Here()), condition)
    {
      b := Condition(View(AsMachine(), Here()), condition);
    }

    method AssignmentAnalyize(v: string, fuel: nat) returns (e: Eval)
      ensures e == AsMachine().lang.eval(world, View(AsMachine(), Here()), v, fuel)
    {
      var call := InvocationOf(v);
      match call
      case BadCall => e := Fail;
      case Invocation(name, args) =>
        var s := ParamChage(args, false, fuel);
        match s {
          case Failed => e := Fail;
          case Looping => e := Loops;
          case Finished(text) =>
            var result := world.function_(name, JavaSplit(text, ","));
            e := if result.Some? then Val(result.value) else Fail;
        }
      case NotACall =>
        var value := ParamValue(View(AsMachine(), Here()), v);
        e := if value.Some? then Val(value.value) else Fail;
    }

    method RunActions(actions: seq<Code>, fuel: nat) returns (outcome: Outcome)
      modifies this, exe`cells
      ensures Result(Here(), outcome) == RunAll(AsMachine(), actions, old(Here()), fuel)
      decreases fuel, actions, 1
    {
      var i := 0;
      while i < |actions|
        invariant 0 <= i <= |actions|
        invariant RunAll(AsMachine(), actions, old(Here()), fuel) == RunAll(AsMachine(), actions[i..], Here(), fuel)
      {
        assert actions[i..][0] == actions[i] && actions[i..][1..] == actions[i + 1..];
        var o := DoAnalyize(actions[i], fuel);
        if o != Done {
          return o;
        }
        i := i + 1;
      }
      outcome := Done;
    }

    /** The rows are those of the table when the loop starts. */
    method RunTable(rows: seq<Row>, params: seq<Ref>, body: seq<Code>, fuel: nat) returns (outcome: Outcome)
      modifies this, exe`cells
      ensures Result(Here(), outcome) == RunRows(AsMachine(), params, body, rows, old(Here()), fuel)
      decreases fuel, body, 2
    {
      var k := 0;
      while k < |rows|
        invariant 0 <= k <= |rows|
        invariant RunRows(AsMachine(), params, body, rows, old(Here()), fuel)
               == RunRows(AsMachine(), params, body, rows[k..], Here(), fuel)
      {
        assert rows[k..][1..] == rows[k + 1..];
        var o := BindColumns(rows[k].columns, params);
        if o != Done {
          return o;
        }
        o := RunActions(body, fuel);
        if o != Done {
          return o;
        }
        k := k + 1;
      }
      outcome := Done;
    }

    /** The guard lets `i == |params|` through, where the array access then fails. */
    method BindColumns(columns: seq<Column>, params: seq<Ref>) returns (outcome: Outcome)
      modifies exe`cells
      ensures Result(Here(), outcome) == BindRow(old(Here()), params, columns)
    {
      var i := 0;
      while i < |columns|
        invariant 0 <= i <= |columns| && i <= |params|
        invariant BindRow(old(Here()), params, columns) == BindRow(Here(), params[i..], columns[i..])
      {
        assert columns[i..][1..] == columns[i + 1..];
        if i > |params| {
          break;
        }
        if i == |params| {
          return Broken;
        }
        assert params[i..][1..] == params[i + 1..];
        exe.cells := Assign(Here(), params[i], columns[i].value).store;
        i := i + 1;
      }
      outcome := Done;
    }

    method RunSql(conn: Option<Conn>, target: Option<Ref>, text: seq<string>, fuel: nat) returns (outcome: Outcome)
      modifies this, exe`cells
      ensures Result(Here(), outcome) == RunQuery(AsMachine(), conn, target, text, old(Here()), fuel)
    {
      var sql := ParamChage(SqlText(text), true, fuel);
      match sql
      case Failed => return Broken;
      case Looping => return OutOfRewriting;
      case Finished(s) =>
        if conn == None {
          return Broken;
        }
        var call := Call(conn.value, s);
        var answer := world.query(log, call);
        log := log + [call];
        if answer == Fails {
          return Broken;
        }
        if target.Some? {
          exe.cells := Assign(Here(), target.value, if answer.Rows? then Table(answer.rows) else Null).store;
        }
        outcome := Done;
    }

    /** paramChage: while there is an '@', its name is replaced throughout the text. */
    method ParamChage(v: string, issql: bool, fuel: nat) returns (r: Rewritten)
      ensures r == Rewrite(View(AsMachine(), Here()), issql, v, fuel)
    {
      ghost var env := View(AsMachine(), Here());
      ghost var goal := Rewrite(env, issql, v, fuel);
      var chage := v;
      var left: nat := fuel;
      var startIndex := IndexOf(chage, '@', 0);
      while startIndex != -1
        invariant startIndex == IndexOf(chage, '@', 0) && left <= fuel
        invariant goal == Rewrite(env, issql, chage, left)
        decreases left
      {
        var paramName := NameFrom(chage, startIndex);
        RoundAt(env, issql, chage, startIndex, paramName, left);
        if left == 0 {
          return Looping;
        }
        var shown := ShownParam(paramName, issql);
        if shown == None || paramName == "" {
          return Failed;
        }
        chage := Replace(chage, paramName, shown.value);
        left := left - 1;
        startIndex := IndexOf(chage, '@', 0);
      }
      r := Finished(chage);
    }

    /** The text of the parameter of that name, or None if it cannot be shown. */
    method ShownParam(name: string, issql: bool) returns (r: Option<string>)
      ensures var env := View(AsMachine(), Here());
              r == if name in env then Shown(env[name], issql) else None
    {
      if name !in exe.paramMap || exe.paramMap[name] !in exe.cells {
        return None;
      }
      r := Shown(exe.cells[exe.paramMap[name]], issql);
    }

    /** The name that starts at an index, up to the nearest delimiter. */
    method NameFrom(text: string, startIndex: nat) returns (paramName: string)
      requires startIndex < |text|
      ensures paramName == Token(text[startIndex..])
    {
      var endIndex := GetEndIndex(text, startIndex);
      EndOfToken(text, startIndex, endIndex);
      paramName := if endIndex == -1 then text[startIndex..] else text[startIndex..endIndex];
    }

    /** getEndIndex: the nearest delimiter at or after `startIndex`, or -1. */
    method GetEndIndex(sql: string, startIndex: nat) returns (end: int)
      ensures end == -1 <==> forall i :: startIndex <= i < |sql| ==> !IsDelimiter(sql[i])
      ensures end != -1 ==> startIndex <= end < |sql| && IsDelimiter(sql[end])
                            && forall i :: startIndex <= i < end ==> !IsDelimiter(sql[i])
      ensures end != -1 ==> sql[end] == ' ' || sql[end] == ',' || sql[end] == ')'
      ensures forall i :: startIndex <= i < |sql| && (end == -1 || i < end) ==>
                sql[i] != ' ' && sql[i] != ',' && sql[i] != ')'
    {
      var end1, end2, end3 := IndexOf(sql, ' ', startIndex), IndexOf(sql, ',', startIndex),
        IndexOf(sql, ')', startIndex);
      var found := {end1, end2, end3} - {-1};
      if found == {} {
        assert end1 !in found && end2 !in found && end3 !in found;
        return -1;
      }
      end :| end in found;
      var others := found - {end};
      while others != {}
        invariant others <= found && end in found
        invariant forall i :: i in found ==> i in others || end <= i
        decreases others
      {
        var i :| i in others;
        if i < end {
          end := i;
        }
        others := others - {i};
      }
      assert (end1 == -1 || end1 in found) && (end2 == -1 || end2 in found) && (end3 == -1 || end3 in found);
      assert end == end1 || end == end2 || end == end3;
    }
  }

  /** The text from an index up to the nearest delimiter is the token there. */
  lemma EndOfToken(s: string, start: nat, end: int)
    requires start <= |s|
    requires end == -1 <==> forall i :: start <= i < |s| ==> !IsDelimiter(s[i])
    requires end != -1 ==>
               start <= end < |s| && IsDelimiter(s[end]) && forall i :: start <= i < end ==> !IsDelimiter(s[i])
    ensures Token(s[start..]) == if end == -1 then s[start..] else s[start..end]
    decreases |s| - start
  {
    if start < |s| && !IsDelimiter(s[start]) {
      EndOfToken(s, start + 1, end);
      assert s[start..][1..] == s[start + 1..];
      assert [s[start]] + s[start + 1..] == s[start..];
      if end != -1 {
        assert [s[start]] + s[start + 1..end] == s[start..end];
      }
    }
  }
  /** One round of rewriting, for the name at the index of the first '@'. */
  lemma RoundAt(env: Env, issql: bool, text: string, at: int, name: string, fuel: nat)
    requires at == IndexOf(text, '@', 0) && at != -1 && name == Token(text[at..])
    ensures name != ""
    ensures Rewrite(env, issql, text, fuel)
         == if fuel == 0 then Looping
            else if name !in env || Shown(env[name], issql) == None then Failed
            else Rewrite(env, issql, Replace(text, name, Shown(env[name], issql).value), fuel - 1)
  {
    assert text[at] == '@';
    NameIsHeaded(text);
    OneRound(env, issql, text, fuel);
  }
}
