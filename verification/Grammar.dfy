/** The LQL grammar, given independently of the parser: concrete trees that keep their
    source lines, the action tree each stands for, and the resolution of its names. */
module Grammar {
  import opened Wrappers
  import opened Text
  import opened Syntax
  import opened Compiling

  /** In an IF, `elseLines[i]` is the ELSE line standing right before `body[i]`, if any. */
  datatype Tree =
    | TIf(head: string, body: seq<Tree>, elseLines: seq<Option<string>>, close: string)
    | TWhile(head: string, body: seq<Tree>, close: string)
    | TForeach(head: string, body: seq<Tree>, close: string)
    | TQuery(head: string, text: seq<string>, close: string)
    | TAssign(head: string)

  /** The meaningful lines of a tree. */
  function Lines(t: Tree): (ls: seq<string>)
    ensures ls != [] && ls[0] == t.head
    decreases t
  {
    match t
    case TIf(head, body, elseLines, close) => [head] + BranchLines(elseLines, body) + [close]
    case TWhile(head, body, close) => [head] + BodyLines(body) + [close]
    case TForeach(head, body, close) => [head] + BodyLines(body) + [close]
    case TQuery(head, text, close) => [head] + text + [close]
    case TAssign(head) => [head]
  }

  function BodyLines(ts: seq<Tree>): seq<string>
    decreases ts
  {
    if ts == [] then [] else Lines(ts[0]) + BodyLines(ts[1..])
  }

  function BranchLines(elseLines: seq<Option<string>>, ts: seq<Tree>): seq<string>
    decreases ts
  {
    if ts == [] then []
    else if elseLines != [] then
      OptionalLine(elseLines[0]) + Lines(ts[0]) + BranchLines(elseLines[1..], ts[1..])
    else Lines(ts[0]) + BranchLines([], ts[1..])
  }

  function OptionalLine(line: Option<string>): seq<string>
  {
    if line.Some? then [line.value] else []
  }

  /** Every block opens with the keyword its kind is named after and closes with its own
      END keyword; nothing in between closes it early. */
  predicate WellNested(t: Tree)
    decreases t
  {
    match t
    case TIf(head, body, elseLines, close) =>
      && ReadHead(head).HeadIf? && AllWellNested(body) && StartsWith(close, "ENDIF")
      && |elseLines| == |body| && ElseLines(elseLines)
    case TWhile(head, body, close) => ReadHead(head).HeadWhile? && AllWellNested(body) && StartsWith(close, "ENDWHILE")
    case TForeach(head, body, close) =>
      ReadHead(head).HeadForeach? && AllWellNested(body) && StartsWith(close, "ENDFOREACH")
    case TQuery(head, text, close) => ReadHead(head).HeadQuery? && NoEndQuery(text) && StartsWith(close, "ENDQUERY")
    case TAssign(head) => ReadHead(head).HeadAssign?
  }

  predicate AllWellNested(ts: seq<Tree>)
    decreases ts
  {
    ts == [] || (WellNested(ts[0]) && AllWellNested(ts[1..]))
  }

  predicate ElseLines(elseLines: seq<Option<string>>)
  {
    elseLines == [] || ((elseLines[0].Some? ==> StartsWith(elseLines[0].value, "ELSE")) && ElseLines(elseLines[1..]))
  }

  predicate NoEndQuery(text: seq<string>)
  {
    text == [] || (!StartsWith(text[0], "ENDQUERY") && NoEndQuery(text[1..]))
  }

  /** The number of actions before the first ELSE. */
  function ThenCount(elseLines: seq<Option<string>>): (n: nat)
    ensures n <= |elseLines|
  {
    if elseLines == [] || elseLines[0].Some? then 0 else 1 + ThenCount(elseLines[1..])
  }

  /** The action tree, with parameters and connections still denoted by their names. Of the
      ELSE lines of an IF only the first one matters. */
  function Abstract(t: Tree): Source
    requires WellNested(t)
    decreases t
  {
    match t
    case TIf(head, body, elseLines, _) =>
      var n := ThenCount(elseLines);
      If(ReadHead(head).cond, AbstractAll(body)[..n], AbstractAll(body)[n..])
    case TWhile(head, body, _) => While(ReadHead(head).cond, AbstractAll(body))
    case TForeach(head, body, _) => Foreach(ReadHead(head).table, ReadHead(head).params, AbstractAll(body))
    case TQuery(head, text, _) => Query(ReadHead(head).conn, ReadHead(head).target, text)
    case TAssign(head) => Assignment(ReadHead(head).param, ReadHead(head).value)
  }

  function AbstractAll(ts: seq<Tree>): (r: seq<Source>)
    requires AllWellNested(ts)
    ensures |r| == |ts|
    decreases ts
  {
    if ts == [] then [] else [Abstract(ts[0])] + AbstractAll(ts[1..])
  }

  // ---- name resolution -----------------------------------------------------------

  datatype Bound<+A> = Bound(value: A, scope: Scope) | Unbound

  /** The code a source tree becomes: what is assigned to is looked up where it stands, in
      text order, and a named query result is a new table from its QUERY line on. */
  function Bind(s: Source, sc: Scope): Bound<Code>
    decreases s, 0
  {
    match s
    case If(cond, thn, els) =>
      (match BindAll(thn, sc)
       case Unbound => Unbound
       case Bound(thn', sc') =>
         match BindAll(els, sc')
         case Unbound => Unbound
         case Bound(els', sc'') => Bound(If(cond, thn', els'), sc''))
    case While(cond, body) =>
      (match BindAll(body, sc) case Unbound => Unbound case Bound(body', sc') => Bound(While(cond, body'), sc'))
    case Foreach(table, params, body) =>
      (match (sc.Lookup(table), sc.LookupAll(params))
       case (Some(t), Some(ps)) =>
         (match BindAll(body, sc) case Unbound => Unbound case Bound(body', sc') => Bound(Foreach(t, ps, body'), sc'))
       case _ => Unbound)
    case Query(conn, target, text) =>
      var sc' := if target.Some? then sc.Declare(target.value, TableType) else sc;
      Bound(Query(sc.Connection(conn), if target.Some? then sc'.Lookup(Trim(target.value)) else None, text), sc')
    case Assignment(param, value) =>
      (match sc.Lookup(param) case None => Unbound case Some(p) => Bound(Assignment(p, value), sc))
  }

  function BindAll(ss: seq<Source>, sc: Scope): (r: Bound<seq<Code>>)
    ensures r.Bound? ==> |r.value| == |ss|
    decreases ss, 1
  {
    if ss == [] then Bound([], sc)
    else match Bind(ss[0], sc)
      case Unbound => Unbound
      case Bound(a, sc') =>
        match BindAll(ss[1..], sc')
        case Unbound => Unbound
        case Bound(as_, sc'') => Bound([a] + as_, sc'')
  }

  /** The branches of an IF bound in one pass, with the parser's branch switch. */
  function BindBranches(wrench: bool, elseLines: seq<Option<string>>, ss: seq<Source>, sc: Scope): Bound<Branches>
    requires |elseLines| == |ss|
  {
    if ss == [] then Bound(Branches([], []), sc)
    else
      var wrench' := wrench && elseLines[0].None?;
      match Bind(ss[0], sc)
      case Unbound => Unbound
      case Bound(a, sc') =>
        match BindBranches(wrench', elseLines[1..], ss[1..], sc')
        case Unbound => Unbound
        case Bound(b, sc'') =>
          Bound(if wrench' then Branches([a] + b.thn, b.els) else Branches(b.thn, [a] + b.els), sc'')
  }

  /** One pass binds what binding the two branches one after the other binds. */
  lemma {:induction false} BindBranchesSplits(wrench: bool, elseLines: seq<Option<string>>, ss: seq<Source>, sc: Scope)
    requires |elseLines| == |ss|
    ensures var n := if wrench then ThenCount(elseLines) else 0;
            BindBranches(wrench, elseLines, ss, sc) ==
            match BindAll(ss[..n], sc)
            case Unbound => Unbound
            case Bound(thn, sc') =>
              match BindAll(ss[n..], sc')
              case Unbound => Unbound
              case Bound(els, sc'') => Bound(Branches(thn, els), sc'')
  {
    var n := if wrench then ThenCount(elseLines) else 0;
    if ss != [] {
      var wrench' := wrench && elseLines[0].None?;
      if wrench' {
        assert ss[..n][1..] == ss[1..][..n - 1] && ss[n..] == ss[1..][n - 1..];
      } else {
        assert ss[..0] == [] && ss[0..] == ss && ss[1..][..0] == [] && ss[1..][0..] == ss[1..];
      }
      if Bind(ss[0], sc).Bound? {
        BindBranchesSplits(wrench', elseLines[1..], ss[1..], Bind(ss[0], sc).scope);
      }
    }
  }

  // ---- every accepted text is well nested ------------------------------------------

  /** What the parser makes of a first line and the lines after it is a well-nested tree
      over exactly the lines consumed, with its names resolved. */
  lemma {:induction false} ParsedIsWellNested(line: string, ls: seq<string>, sc: Scope) returns (t: Tree)
    requires CompileAction(Some(line), ls, sc).Ok?
    ensures IsTreeOf(t, line, ls, sc, CompileAction(Some(line), ls, sc))
    decreases |ls|, 2
  {
    match ReadHead(line)
    case HeadIf(_) => t := ParsedIf(line, ls, sc);
    case HeadWhile(_) => t := ParsedWhile(line, ls, sc);
    case HeadForeach(_, _) => t := ParsedForeach(line, ls, sc);
    case HeadQuery(_, _) => t := ParsedQuery(line, ls, sc);
    case HeadAssign(_, _) => t := TAssign(line);
  }

  /** `t` is a tree for `line` and the lines `ls`, up to what the parse `r` leaves, and means `r`. */
  ghost predicate IsTreeOf(t: Tree, line: string, ls: seq<string>, sc: Scope, r: Parsed<Code>)
  {
    && r.Ok? && WellNested(t)
    && Lines(t) + r.rest == [line] + ls && Bind(Abstract(t), sc) == Bound(r.value, r.scope)
  }

  /** `ts` and the line `close` are the lines `ls`, up to what the parse `r` leaves, and mean `r`. */
  ghost predicate IsBodyOf(end: string, ts: seq<Tree>, close: string, ls: seq<string>, sc: Scope, r: Parsed<seq<Code>>)
  {
    && r.Ok? && AllWellNested(ts) && StartsWith(close, end)
    && BodyLines(ts) + [close] + r.rest == ls && BindAll(AbstractAll(ts), sc) == Bound(r.value, r.scope)
  }

  /** The same for the body of an IF, read while the branch switch is `wrench`. */
  ghost predicate AreBranchesOf(wrench: bool, elseLines: seq<Option<string>>, body: seq<Tree>, close: string,
                                ls: seq<string>, sc: Scope, r: Parsed<Branches>)
  {
    && r.Ok? && AllWellNested(body) && |elseLines| == |body| && ElseLines(elseLines) && StartsWith(close, "ENDIF")
    && BranchLines(elseLines, body) + [close] + r.rest == ls
    && BindBranches(wrench, elseLines, AbstractAll(body), sc) == Bound(r.value, r.scope)
  }

  lemma {:induction false} ParsedIf(line: string, ls: seq<string>, sc: Scope) returns (t: Tree)
    requires CompileAction(Some(line), ls, sc).Ok? && ReadHead(line).HeadIf?
    ensures IsTreeOf(t, line, ls, sc, CompileAction(Some(line), ls, sc))
    decreases |ls|, 1
  {
    var body, elseLines, close := ParsedBranches(true, ls, sc);
    t := TIf(line, body, elseLines, close);
    IfTree(line, ReadHead(line).cond, elseLines, body, close, ls, sc, CompileBranches(true, ls, sc));
  }

  lemma IfTree(line: string, cond: string, elseLines: seq<Option<string>>, body: seq<Tree>, close: string,
               ls: seq<string>, sc: Scope, b: Parsed<Branches>)
    requires ReadHead(line) == HeadIf(cond) && AreBranchesOf(true, elseLines, body, close, ls, sc, b)
    ensures IsTreeOf(TIf(line, body, elseLines, close), line, ls, sc,
                     Ok(If(cond, b.value.thn, b.value.els), b.rest, b.scope))
  {
    BindBranchesSplits(true, elseLines, AbstractAll(body), sc);
    Enclose(line, BranchLines(elseLines, body), close, b.rest, ls);
  }

  lemma Enclose(line: string, more: seq<string>, close: string, rest: seq<string>, ls: seq<string>)
    requires more + [close] + rest == ls
    ensures [line] + more + [close] + rest == [line] + ls
  {
  }

  lemma {:induction false} ParsedWhile(line: string, ls: seq<string>, sc: Scope) returns (t: Tree)
    requires CompileAction(Some(line), ls, sc).Ok? && ReadHead(line).HeadWhile?
    ensures IsTreeOf(t, line, ls, sc, CompileAction(Some(line), ls, sc))
    decreases |ls|, 1
  {
    var body, close := ParsedBody("ENDWHILE", ls, sc);
    t := TWhile(line, body, close);
    WhileTree(line, ReadHead(line).cond, body, close, ls, sc, CompileBlock("ENDWHILE", ls, sc));
  }

  lemma WhileTree(line: string, cond: string, body: seq<Tree>, close: string, ls: seq<string>, sc: Scope,
                  b: Parsed<seq<Code>>)
    requires ReadHead(line) == HeadWhile(cond) && IsBodyOf("ENDWHILE", body, close, ls, sc, b)
    ensures IsTreeOf(TWhile(line, body, close), line, ls, sc, Ok(While(cond, b.value), b.rest, b.scope))
  {
    Enclose(line, BodyLines(body), close, b.rest, ls);
  }

  lemma {:induction false} ParsedForeach(line: string, ls: seq<string>, sc: Scope) returns (t: Tree)
    requires CompileAction(Some(line), ls, sc).Ok? && ReadHead(line).HeadForeach?
    ensures IsTreeOf(t, line, ls, sc, CompileAction(Some(line), ls, sc))
    decreases |ls|, 1
  {
    var table, params := ReadHead(line).table, ReadHead(line).params;
    var b := CompileBlock("ENDFOREACH", ls, sc);
    ForeachUnfolds(line, table, params, ls, sc);
    var body, close := ParsedBody("ENDFOREACH", ls, sc);
    t := TForeach(line, body, close);
    ForeachTree(line, table, params, body, close, ls, sc, b);
  }

  lemma ForeachUnfolds(line: string, table: string, params: seq<string>, ls: seq<string>, sc: Scope)
    requires CompileAction(Some(line), ls, sc).Ok? && ReadHead(line) == HeadForeach(table, params)
    ensures var b := CompileBlock("ENDFOREACH", ls, sc);
            && b.Ok? && sc.Lookup(table).Some? && sc.LookupAll(params).Some?
            && CompileAction(Some(line), ls, sc)
            == Ok(Foreach(sc.Lookup(table).value, sc.LookupAll(params).value, b.value), b.rest, b.scope)
  {
  }

  lemma ForeachTree(line: string, table: string, params: seq<string>, body: seq<Tree>, close: string,
                    ls: seq<string>, sc: Scope, b: Parsed<seq<Code>>)
    requires ReadHead(line) == HeadForeach(table, params) && IsBodyOf("ENDFOREACH", body, close, ls, sc, b)
    requires sc.Lookup(table).Some? && sc.LookupAll(params).Some?
    ensures IsTreeOf(TForeach(line, body, close), line, ls, sc,
                     Ok(Foreach(sc.Lookup(table).value, sc.LookupAll(params).value, b.value), b.rest, b.scope))
  {
    Enclose(line, BodyLines(body), close, b.rest, ls);
  }

  lemma ParsedQuery(line: string, ls: seq<string>, sc: Scope) returns (t: Tree)
    requires CompileAction(Some(line), ls, sc).Ok? && ReadHead(line).HeadQuery?
    ensures IsTreeOf(t, line, ls, sc, CompileAction(Some(line), ls, sc))
  {
    var r := CompileAction(Some(line), ls, sc);
    QueryUnfolds(line, ls, sc, r);
    var text := QueryText(ls).value;
    t := TQuery(line, text, ls[|text|]);
    QueryTextEnds(ls);
    assert text + [ls[|text|]] + ls[|text| + 1..] == ls;
    QueryTree(line, text, ls[|text|], ls, sc, r);
  }

  lemma QueryUnfolds(line: string, ls: seq<string>, sc: Scope, r: Parsed<Code>)
    requires r == CompileAction(Some(line), ls, sc) && r.Ok? && ReadHead(line).HeadQuery?
    ensures QueryText(ls).Some? && r.rest == ls[|QueryText(ls).value| + 1..]
    ensures Bind(Query(ReadHead(line).conn, ReadHead(line).target, QueryText(ls).value), sc) == Bound(r.value, r.scope)
  {
  }

  lemma QueryTree(line: string, text: seq<string>, close: string, ls: seq<string>, sc: Scope, r: Parsed<Code>)
    requires ReadHead(line).HeadQuery? && NoEndQuery(text) && StartsWith(close, "ENDQUERY")
    requires r.Ok? && text + [close] + r.rest == ls
    requires Bind(Query(ReadHead(line).conn, ReadHead(line).target, text), sc) == Bound(r.value, r.scope)
    ensures IsTreeOf(TQuery(line, text, close), line, ls, sc, r)
  {
    Enclose(line, text, close, r.rest, ls);
  }

  lemma {:induction false} ParsedBody(end: string, ls: seq<string>, sc: Scope) returns (ts: seq<Tree>, close: string)
    requires CompileBlock(end, ls, sc).Ok?
    ensures IsBodyOf(end, ts, close, ls, sc, CompileBlock(end, ls, sc))
    decreases |ls|, 0
  {
    if StartsWith(ls[0], end) {
      ts, close := [], ls[0];
    } else {
      var a := CompileAction(Some(ls[0]), ls[1..], sc);
      var t := ParsedIsWellNested(ls[0], ls[1..], sc);
      ts, close := ParsedBody(end, a.rest, a.scope);
      BodyCons(end, t, ts, close, ls, sc, a, CompileBlock(end, a.rest, a.scope));
      ts := [t] + ts;
    }
  }

  lemma TreesCons(t: Tree, ts: seq<Tree>)
    requires WellNested(t) && AllWellNested(ts)
    ensures AllWellNested([t] + ts)
    ensures BodyLines([t] + ts) == Lines(t) + BodyLines(ts)
    ensures AbstractAll([t] + ts) == [Abstract(t)] + AbstractAll(ts)
  {
    assert ([t] + ts)[1..] == ts;
  }

  lemma BodyCons(end: string, t: Tree, ts: seq<Tree>, close: string, ls: seq<string>, sc: Scope, a: Parsed<Code>,
                 b: Parsed<seq<Code>>)
    requires ls != [] && IsTreeOf(t, ls[0], ls[1..], sc, a) && IsBodyOf(end, ts, close, a.rest, a.scope, b)
    ensures IsBodyOf(end, [t] + ts, close, ls, sc, Before(a.value, b))
  {
    TreesCons(t, ts);
    assert [ls[0]] + ls[1..] == ls;
    Regroup([], Lines(t), BodyLines(ts), [close], b.rest, a.rest, ls, ls);
    BindCons(Abstract(t), AbstractAll(ts), sc, a.value, a.scope, b.value, b.scope);
  }

  lemma BindCons(s: Source, ss: seq<Source>, sc: Scope, a: Code, sc': Scope, as_: seq<Code>, sc'': Scope)
    requires Bind(s, sc) == Bound(a, sc') && BindAll(ss, sc') == Bound(as_, sc'')
    ensures BindAll([s] + ss, sc) == Bound([a] + as_, sc'')
  {
    assert ([s] + ss)[1..] == ss;
  }

  function ElseLineOf(ls: seq<string>): Option<string>
    requires ls != []
  {
    if StartsWith(ls[0], "ELSE") then Some(ls[0]) else None
  }

  /** One action of an IF: the ELSE line before it, the action, and what comes after. */
  lemma BranchesStep(wrench: bool, ls: seq<string>, sc: Scope)
    requires CompileBranches(wrench, ls, sc).Ok? && (StartsWith(ls[0], "ELSE") || !StartsWith(ls[0], "ENDIF"))
    ensures var tail := if ElseLineOf(ls).Some? then ls[1..] else ls;
            && tail != [] && OptionalLine(ElseLineOf(ls)) + tail == ls
            && var a := CompileAction(Some(tail[0]), tail[1..], sc);
            && a.Ok?
            && var wrench' := wrench && ElseLineOf(ls).None?;
            CompileBranches(wrench, ls, sc) == Into(wrench', a.value, CompileBranches(wrench', a.rest, a.scope))
  {
    if StartsWith(ls[0], "ELSE") {
      assert ls[1..][1..] == ls[2..];
    }
  }

  lemma {:induction false} ParsedBranches(wrench: bool, ls: seq<string>, sc: Scope)
    returns (body: seq<Tree>, elseLines: seq<Option<string>>, close: string)
    requires CompileBranches(wrench, ls, sc).Ok?
    ensures AreBranchesOf(wrench, elseLines, body, close, ls, sc, CompileBranches(wrench, ls, sc))
    decreases |ls|, 0
  {
    if !StartsWith(ls[0], "ELSE") && StartsWith(ls[0], "ENDIF") {
      body, elseLines, close := [], [], ls[0];
    } else {
      BranchesStep(wrench, ls, sc);
      var elseLine := ElseLineOf(ls);
      var tail := if elseLine.Some? then ls[1..] else ls;
      var wrench' := wrench && elseLine.None?;
      var a := CompileAction(Some(tail[0]), tail[1..], sc);
      var t := ParsedIsWellNested(tail[0], tail[1..], sc);
      body, elseLines, close := ParsedBranches(wrench', a.rest, a.scope);
      BranchCons(wrench, elseLine, t, elseLines, body, close, tail, ls, sc, a,
                 CompileBranches(wrench', a.rest, a.scope));
      body, elseLines := [t] + body, [elseLine] + elseLines;
    }
  }

  lemma Regroup(a: seq<string>, b: seq<string>, c: seq<string>, d: seq<string>, e: seq<string>,
                after: seq<string>, tail: seq<string>, ls: seq<string>)
    requires c + d + e == after && b + after == tail && a + tail == ls
    ensures a + b + c + d + e == ls
    ensures a == [] ==> b + c + d + e == ls
  {
  }

  lemma BranchLinesCons(elseLine: Option<string>, t: Tree, elseLines: seq<Option<string>>, body: seq<Tree>)
    ensures BranchLines([elseLine] + elseLines, [t] + body)
         == OptionalLine(elseLine) + Lines(t) + BranchLines(elseLines, body)
  {
    assert ([t] + body)[1..] == body && ([elseLine] + elseLines)[1..] == elseLines;
  }

  lemma ElseLinesCons(elseLine: Option<string>, elseLines: seq<Option<string>>)
    requires (elseLine.Some? ==> StartsWith(elseLine.value, "ELSE")) && ElseLines(elseLines)
    ensures ElseLines([elseLine] + elseLines)
  {
    assert ([elseLine] + elseLines)[1..] == elseLines;
  }

  lemma BindBranchesCons(wrench: bool, elseLine: Option<string>, s: Source, elseLines: seq<Option<string>>,
                         ss: seq<Source>, sc: Scope, a: Code, sc': Scope, b: Parsed<Branches>)
    requires |elseLines| == |ss| && b.Ok? && Bind(s, sc) == Bound(a, sc')
    requires BindBranches(wrench && elseLine.None?, elseLines, ss, sc') == Bound(b.value, b.scope)
    ensures var r := Into(wrench && elseLine.None?, a, b);
            BindBranches(wrench, [elseLine] + elseLines, [s] + ss, sc) == Bound(r.value, r.scope)
  {
    assert ([s] + ss)[1..] == ss && ([elseLine] + elseLines)[1..] == elseLines;
  }

  lemma BranchCons(wrench: bool, elseLine: Option<string>, t: Tree, elseLines: seq<Option<string>>, body: seq<Tree>,
                   close: string, tail: seq<string>, ls: seq<string>, sc: Scope, a: Parsed<Code>, b: Parsed<Branches>)
    requires elseLine.Some? ==> StartsWith(elseLine.value, "ELSE")
    requires tail != [] && OptionalLine(elseLine) + tail == ls && IsTreeOf(t, tail[0], tail[1..], sc, a)
    requires AreBranchesOf(wrench && elseLine.None?, elseLines, body, close, a.rest, a.scope, b)
    ensures AreBranchesOf(wrench, [elseLine] + elseLines, [t] + body, close, ls, sc,
                          Into(wrench && elseLine.None?, a.value, b))
  {
    TreesCons(t, body);
    ElseLinesCons(elseLine, elseLines);
    BranchLinesCons(elseLine, t, elseLines, body);
    assert [tail[0]] + tail[1..] == tail;
    Regroup(OptionalLine(elseLine), Lines(t), BranchLines(elseLines, body), [close], b.rest, a.rest, tail, ls);
    BindBranchesCons(wrench, elseLine, Abstract(t), elseLines, AbstractAll(body), sc, a.value, a.scope, b);
  }

  lemma QueryTextEnds(ls: seq<string>)
    requires QueryText(ls).Some?
    ensures var text := QueryText(ls).value;
            text == ls[..|text|] && NoEndQuery(text) && StartsWith(ls[|text|], "ENDQUERY")
  {
    if !StartsWith(ls[0], "ENDQUERY") {
      QueryTextEnds(ls[1..]);
      var text := QueryText(ls).value;
      assert text[1..] == QueryText(ls[1..]).value;
    }
  }

  // ---- every well-nested text is accepted -------------------------------------------

  /** A line that starts an action starts neither an END line nor an ELSE line. */
  lemma HeadsAreNotEnds(line: string)
    requires !ReadHead(line).HeadBad?
    ensures line != "" && line[0] != 'E'
  {
  }

  lemma {:induction false} WellNestedIsParsed(t: Tree, rest: seq<string>, sc: Scope)
    requires WellNested(t) && Bind(Abstract(t), sc).Bound?
    ensures var b := Bind(Abstract(t), sc);
            CompileAction(Some(t.head), Lines(t)[1..] + rest, sc) == Ok(b.value, rest, b.scope)
    decreases t
  {
    match t
    case TIf(head, body, elseLines, close) =>
      DropHead(head, BranchLines(elseLines, body), close, rest);
      BindBranchesSplits(true, elseLines, AbstractAll(body), sc);
      BranchesAreParsed(true, elseLines, body, close, rest, sc);
    case TWhile(head, body, close) =>
      DropHead(head, BodyLines(body), close, rest);
      BodyIsParsed("ENDWHILE", body, close, rest, sc);
    case TForeach(head, body, close) =>
      DropHead(head, BodyLines(body), close, rest);
      BodyIsParsed("ENDFOREACH", body, close, rest, sc);
    case TQuery(head, text, close) =>
      QueryIsParsed(t, rest, sc);
    case TAssign(head) =>
      assert Lines(t)[1..] + rest == rest;
  }

  lemma DropHead(head: string, more: seq<string>, close: string, rest: seq<string>)
    ensures ([head] + more + [close])[1..] + rest == more + [close] + rest
  {
  }

  lemma QueryIsParsed(t: Tree, rest: seq<string>, sc: Scope)
    requires t.TQuery? && WellNested(t)
    ensures var b := Bind(Abstract(t), sc);
            CompileAction(Some(t.head), Lines(t)[1..] + rest, sc) == Ok(b.value, rest, b.scope)
  {
    DropHead(t.head, t.text, t.close, rest);
    TextIsParsed(t.text, t.close, rest);
    assert (t.text + [t.close] + rest)[|t.text| + 1..] == rest;
  }

  lemma {:induction false} TextIsParsed(text: seq<string>, close: string, rest: seq<string>)
    requires NoEndQuery(text) && StartsWith(close, "ENDQUERY")
    ensures QueryText(text + [close] + rest) == Some(text)
  {
    if text != [] {
      assert (text + [close] + rest)[1..] == text[1..] + [close] + rest;
      TextIsParsed(text[1..], close, rest);
      assert [text[0]] + text[1..] == text;
    }
  }

  lemma {:induction false} BodyIsParsed(end: string, ts: seq<Tree>, close: string, rest: seq<string>, sc: Scope)
    requires AllWellNested(ts) && BindAll(AbstractAll(ts), sc).Bound?
    requires end != "" && end[0] == 'E' && StartsWith(close, end)
    ensures var b := BindAll(AbstractAll(ts), sc);
            CompileBlock(end, BodyLines(ts) + [close] + rest, sc) == Ok(b.value, rest, b.scope)
    decreases ts
  {
    var ls := BodyLines(ts) + [close] + rest;
    if ts == [] {
      assert ls == [close] + rest;
    } else {
      var t := ts[0];
      var a := Bind(Abstract(t), sc);
      assert AbstractAll(ts)[1..] == AbstractAll(ts[1..]);
      BodyIsParsed(end, ts[1..], close, rest, a.scope);
      var after := BodyLines(ts[1..]) + [close] + rest;
      WellNestedIsParsed(t, after, sc);
      assert ls[0] == t.head && t.head[0] != 'E' && ls[1..] == Lines(t)[1..] + after by {
        HeadsAreNotEnds(t.head);
        CutFirst(Lines(t), BodyLines(ts[1..]), close, rest);
      }
    }
  }

  lemma CutFirst(first: seq<string>, more: seq<string>, close: string, rest: seq<string>)
    requires first != []
    ensures (first + more + [close] + rest)[0] == first[0]
    ensures (first + more + [close] + rest)[1..] == first[1..] + (more + [close] + rest)
  {
  }

  /** One action of an IF, before text of which the parse is known. */
  lemma BranchIsParsed(wrench: bool, elseLine: Option<string>, t: Tree, after: seq<string>, sc: Scope, a: Parsed<Code>)
    requires elseLine.Some? ==> StartsWith(elseLine.value, "ELSE")
    requires WellNested(t) && a.Ok? && CompileAction(Some(t.head), Lines(t)[1..] + after, sc) == a
    ensures CompileBranches(wrench, OptionalLine(elseLine) + Lines(t) + after, sc)
         == Into(wrench && elseLine.None?, a.value, CompileBranches(wrench && elseLine.None?, a.rest, a.scope))
  {
    if elseLine.Some? {
      FirstTwoLines(elseLine.value, Lines(t), after);
      ElseStep(wrench, [elseLine.value] + Lines(t) + after, sc, a);
    } else {
      HeadsAreNotEnds(t.head);
      FirstLine(Lines(t), after);
      PlainStep(wrench, [] + Lines(t) + after, sc, a);
    }
  }

  lemma FirstTwoLines(line: string, lines: seq<string>, after: seq<string>)
    requires lines != []
    ensures var ls := [line] + lines + after; ls[0] == line && ls[1] == lines[0] && ls[2..] == lines[1..] + after
  {
  }

  lemma FirstLine(lines: seq<string>, after: seq<string>)
    requires lines != []
    ensures var ls := [] + lines + after; ls[0] == lines[0] && ls[1..] == lines[1..] + after
  {
    assert [] + lines == lines;
  }

  lemma ElseStep(wrench: bool, ls: seq<string>, sc: Scope, a: Parsed<Code>)
    requires |ls| > 1 && StartsWith(ls[0], "ELSE") && a.Ok? && CompileAction(Some(ls[1]), ls[2..], sc) == a
    ensures CompileBranches(wrench, ls, sc) == Into(false, a.value, CompileBranches(false, a.rest, a.scope))
  {
    assert ls[0][1] == 'L';
  }

  lemma PlainStep(wrench: bool, ls: seq<string>, sc: Scope, a: Parsed<Code>)
    requires ls != [] && !StartsWith(ls[0], "ENDIF") && !StartsWith(ls[0], "ELSE")
    requires a.Ok? && CompileAction(Some(ls[0]), ls[1..], sc) == a
    ensures CompileBranches(wrench, ls, sc) == Into(wrench, a.value, CompileBranches(wrench, a.rest, a.scope))
  {
  }

  lemma {:induction false} BranchesAreParsed(wrench: bool, elseLines: seq<Option<string>>, body: seq<Tree>,
                                             close: string, rest: seq<string>, sc: Scope)
    requires AllWellNested(body) && |elseLines| == |body| && ElseLines(elseLines) && StartsWith(close, "ENDIF")
    requires BindBranches(wrench, elseLines, AbstractAll(body), sc).Bound?
    ensures var b := BindBranches(wrench, elseLines, AbstractAll(body), sc);
            CompileBranches(wrench, BranchLines(elseLines, body) + [close] + rest, sc) == Ok(b.value, rest, b.scope)
    decreases body
  {
    var ls := BranchLines(elseLines, body) + [close] + rest;
    if body == [] {
      assert ls[0] == close && close[1] == 'N' && ls[1..] == rest by {
        assert ls == [close] + rest;
      }
    } else {
      var t := body[0];
      var wrench' := wrench && elseLines[0].None?;
      var a := Bind(Abstract(t), sc);
      var more := BranchLines(elseLines[1..], body[1..]);
      var after := more + [close] + rest;
      assert AbstractAll(body)[1..] == AbstractAll(body[1..]);
      BranchesAreParsed(wrench', elseLines[1..], body[1..], close, rest, a.scope);
      WellNestedIsParsed(t, after, sc);
      BranchIsParsed(wrench, elseLines[0], t, after, sc, Ok(a.value, after, a.scope));
      assert ls == OptionalLine(elseLines[0]) + Lines(t) + after by {
        AfterThree(OptionalLine(elseLines[0]), Lines(t), more, [close], rest);
      }
    }
  }

  lemma AfterThree(a: seq<string>, b: seq<string>, c: seq<string>, d: seq<string>, e: seq<string>)
    ensures a + b + c + d + e == a + b + (c + d + e)
  {
  }

  ghost predicate IsTreeFor(t: Tree, line: string, ls: seq<string>, sc: Scope, code: Code, rest: seq<string>,
                            sc': Scope)
  {
    WellNested(t) && Lines(t) + rest == [line] + ls && Bind(Abstract(t), sc) == Bound(code, sc')
  }

  lemma TreeIsAccepted(t: Tree, line: string, ls: seq<string>, sc: Scope, code: Code, rest: seq<string>, sc': Scope)
    requires IsTreeFor(t, line, ls, sc, code, rest, sc')
    ensures CompileAction(Some(line), ls, sc) == Ok(code, rest, sc')
  {
    assert ([line] + ls)[0] == line && ([line] + ls)[1..] == ls;
    assert (Lines(t) + rest)[0] == t.head && (Lines(t) + rest)[1..] == Lines(t)[1..] + rest;
    WellNestedIsParsed(t, rest, sc);
  }

  lemma AcceptedHasTree(line: string, ls: seq<string>, sc: Scope, r: Parsed<Code>)
    requires CompileAction(Some(line), ls, sc) == r && r.Ok?
    ensures exists t :: IsTreeFor(t, line, ls, sc, r.value, r.rest, r.scope)
  {
    var t := ParsedIsWellNested(line, ls, sc);
    assert IsTreeFor(t, line, ls, sc, r.value, r.rest, r.scope);
  }

  /** The parser accepts exactly the well-nested texts, and yields exactly their bound trees:
      each accepted block is closed by its own END line, only ELSE lines after the first are
      dropped, and the lines that follow are left unread. */
  lemma ParserAcceptsExactlyTheGrammar(line: string, ls: seq<string>, sc: Scope, code: Code, rest: seq<string>,
                                       sc': Scope)
    ensures CompileAction(Some(line), ls, sc) == Ok(code, rest, sc') <==>
            exists t :: IsTreeFor(t, line, ls, sc, code, rest, sc')
  {
    if CompileAction(Some(line), ls, sc) == Ok(code, rest, sc') {
      AcceptedHasTree(line, ls, sc, Ok(code, rest, sc'));
    }
    if t :| IsTreeFor(t, line, ls, sc, code, rest, sc') {
      TreeIsAccepted(t, line, ls, sc, code, rest, sc');
    }
  }
}
