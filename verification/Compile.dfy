/** The LQL compiler: a recursive-descent parser over meaningful lines that resolves the
    names it assigns to while it parses. */
module Compiling {
  import opened Wrappers
  import opened Text
  import opened Syntax
  import opened Reading

  // ---- what one call of the parser consumes and yields -------------------------

  datatype Parsed<+A> = Ok(value: A, rest: seq<string>, scope: Scope) | Err(error: CompileError)

  /** The two branches of an IF, as far as they are read. */
  datatype Branches = Branches(thn: seq<Code>, els: seq<Code>)

  /** putAction: `line` is the action's first line, `ls` the meaningful lines after it. */
  function CompileAction(line: Option<string>, ls: seq<string>, sc: Scope): (r: Parsed<Code>)
    ensures r.Ok? ==> |r.rest| <= |ls|
    decreases |ls|, 1
  {
    match line
    case None => Err(EndOfInput)
    case Some(text) =>
      match ReadHead(text)
      case HeadIf(cond) =>
        (match CompileBranches(true, ls, sc)
         case Ok(b, rest, sc') => Ok(If(cond, b.thn, b.els), rest, sc')
         case Err(e) => Err(e))
      case HeadWhile(cond) =>
        (match CompileBlock("ENDWHILE", ls, sc)
         case Ok(body, rest, sc') => Ok(While(cond, body), rest, sc')
         case Err(e) => Err(e))
      case HeadForeach(table, params) =>
        (match (sc.Lookup(table), sc.LookupAll(params))
         case (Some(t), Some(ps)) =>
           (match CompileBlock("ENDFOREACH", ls, sc)
            case Ok(body, rest, sc') => Ok(Foreach(t, ps, body), rest, sc')
            case Err(e) => Err(e))
         case _ => Err(FirstUndefined([table] + params, sc)))
      case HeadQuery(conn, target) =>
        var sc' := if target.Some? then sc.Declare(target.value, TableType) else sc;
        (match QueryText(ls)
         case None => Err(NotClosed("ENDQUERY"))
         case Some(text) =>
           Ok(Query(sc.Connection(conn), if target.Some? then sc'.Lookup(Trim(target.value)) else None, text),
              ls[|text| + 1..], sc'))
      case HeadAssign(param, value) =>
        (match sc.Lookup(param)
         case None => Err(Undefined(param))
         case Some(p) => Ok(Assignment(p, value), ls, sc))
      case HeadBad(e) => Err(e)
  }

  function FirstUndefined(ns: seq<string>, sc: Scope): CompileError
  {
    if ns == [] then MissingOperand
    else if sc.Lookup(ns[0]) == None then Undefined(ns[0])
    else FirstUndefined(ns[1..], sc)
  }

  /** The lines of a query, up to the one that closes it. */
  function QueryText(ls: seq<string>): (r: Option<seq<string>>)
    ensures r.Some? ==> |r.value| < |ls|
  {
    if ls == [] then None
    else if StartsWith(ls[0], "ENDQUERY") then Some([])
    else match QueryText(ls[1..])
      case None => None
      case Some(text) => Some([ls[0]] + text)
  }

  /** The body of a WHILE or FOREACH and the line that closes it. */
  function CompileBlock(end: string, ls: seq<string>, sc: Scope): (r: Parsed<seq<Code>>)
    ensures r.Ok? ==> |r.rest| <= |ls|
    decreases |ls|, 0
  {
    if ls == [] then Err(NotClosed(end))
    else if StartsWith(ls[0], end) then Ok([], ls[1..], sc)
    else match CompileAction(Some(ls[0]), ls[1..], sc)
      case Err(e) => Err(e)
      case Ok(a, rest, sc') => Before(a, CompileBlock(end, rest, sc'))
  }

  function Before(a: Code, r: Parsed<seq<Code>>): Parsed<seq<Code>>
  {
    match r case Ok(as_, rest, sc) => Ok([a] + as_, rest, sc) case Err(_) => r
  }

  /** The body of an IF: an ELSE line sends what follows to the else branch, and the line
      after it is taken for an action whatever it is. */
  function CompileBranches(wrench: bool, ls: seq<string>, sc: Scope): (r: Parsed<Branches>)
    ensures r.Ok? ==> |r.rest| <= |ls|
    decreases |ls|, 0
  {
    if ls == [] then Err(NotClosed("ENDIF"))
    else if StartsWith(ls[0], "ELSE") then
      if |ls| == 1 then Err(EndOfInput)
      else match CompileAction(Some(ls[1]), ls[2..], sc)
        case Err(e) => Err(e)
        case Ok(a, rest, sc') => Into(false, a, CompileBranches(false, rest, sc'))
    else if StartsWith(ls[0], "ENDIF") then Ok(Branches([], []), ls[1..], sc)
    else match CompileAction(Some(ls[0]), ls[1..], sc)
      case Err(e) => Err(e)
      case Ok(a, rest, sc') => Into(wrench, a, CompileBranches(wrench, rest, sc'))
  }

  function Into(wrench: bool, a: Code, r: Parsed<Branches>): Parsed<Branches>
  {
    match r
    case Ok(b, rest, sc) => Ok(if wrench then Branches([a] + b.thn, b.els) else Branches(b.thn, [a] + b.els), rest, sc)
    case Err(_) => r
  }

  // ---- a whole file ------------------------------------------------------------

  datatype Model = Unset | DataSourceModel | ParamModel | ActionModel

  /** modelTransform: the section a header line opens. */
  function SectionOf(line: string): Option<Model>
  {
    if StartsWith(line, "[DATASOURCE]") then Some(DataSourceModel)
    else if StartsWith(line, "[PARAM]") then Some(ParamModel)
    else if StartsWith(line, "[ACTION]") then Some(ActionModel)
    else None
  }

  function DeclareLine(line: string, sc: Scope): Parsed<()>
  {
    if !StartsWith(Trim(line), "@") then Err(NotAParam)
    else
      var parts := TrimSplit(line, "TYPEAS");
      if |parts| < 2 then Err(MissingOperand)
      else match ParseType(parts[1])
        case None => Err(UnknownType)
        case Some(t) => Ok((), [], sc.Declare(parts[0], t))
  }

  /** putDataSource: `opens` says which connections the driver manager will open. */
  function ConnectLine(opens: Conn -> bool, line: string, sc: Scope): Parsed<()>
  {
    var parts := TrimSplit(line, " ");
    if |parts| < 3 then Err(MissingOperand)
    else
      var conn := Conn(Trim(parts[1]), Trim(parts[2]));
      if opens(conn) then Ok((), [], sc.(conns := sc.conns[Trim(parts[0]) := conn])) else Err(NoConnection)
  }

  datatype Program = Program(scope: Scope, actions: seq<Code>)

  function CompileLines(opens: Conn -> bool, model: Model, ls: seq<string>, p: Program): Parsed<seq<Code>>
    decreases |ls|
  {
    if ls == [] then Ok(p.actions, [], p.scope)
    else match SectionOf(ls[0])
      case Some(m) => CompileLines(opens, m, ls[1..], p)
      case None =>
        match model
        case Unset => CompileLines(opens, model, ls[1..], p)
        case DataSourceModel =>
          (match ConnectLine(opens, ls[0], p.scope)
           case Err(e) => Err(e)
           case Ok(_, _, sc) => CompileLines(opens, model, ls[1..], p.(scope := sc)))
        case ParamModel =>
          (match DeclareLine(ls[0], p.scope)
           case Err(e) => Err(e)
           case Ok(_, _, sc) => CompileLines(opens, model, ls[1..], p.(scope := sc)))
        case ActionModel =>
          (match CompileAction(Some(ls[0]), ls[1..], p.scope)
           case Err(e) => Err(e)
           case Ok(a, rest, sc) => CompileLines(opens, model, rest, Program(sc, p.actions + [a])))
  }

  /** compile(): the program a file of physical lines stands for. */
  function CompileFile(opens: Conn -> bool, file: seq<string>): Parsed<seq<Code>>
  {
    CompileLines(opens, Unset, Meaningful(file), Program(EMPTY_SCOPE, []))
  }

  /** Blank lines and comments, wherever they stand, do not change what a file compiles to. */
  lemma CompilationIgnoresLayout(opens: Conn -> bool, a: seq<string>, layout: seq<string>, b: seq<string>)
    requires forall i :: 0 <= i < |layout| ==> IsLayout(layout[i])
    ensures CompileFile(opens, a + layout + b) == CompileFile(opens, a + b)
  {
    LayoutIsInvisible(a, layout, b);
  }

  // ---- the compiler itself -------------------------------------------------------

  datatype Result<+A> = Success(value: A) | Failure(error: CompileError)

  /** The symbol tables and action list of a compiled file. */
  class Exe {
    var paramMap: map<string, Ref>
    var names: seq<string>
    var cells: map<Ref, Param>
    var connectionMap: map<string, Conn>
    var actions: seq<Code>

    ghost function Tables(): Scope
      reads this
    {
      Scope(paramMap, names, cells, connectionMap)
    }

    constructor ()
      ensures Tables() == EMPTY_SCOPE && actions == []
    {
      paramMap, names, cells, connectionMap, actions := map[], [], map[], map[], [];
    }

    method GetParam(name: string) returns (r: Result<Ref>)
      ensures r == match Tables().Lookup(name) case Some(p) => Success(p) case None => Failure(Undefined(name))
    {
      if name in paramMap {
        r := Success(paramMap[name]);
      } else {
        r := Failure(Undefined(name));
      }
    }

    /** getParam(String...): one Param a name, or the first name that has none. */
    method GetParams(ns: seq<string>) returns (r: Result<seq<Ref>>)
      ensures match Tables().LookupAll(ns)
              case Some(ps) => r == Success(ps)
              case None => r == Failure(FirstUndefined(ns, Tables()))
    {
      var params := [];
      var i := 0;
      AfterNoRefs(Tables().LookupAll(ns));
      while i < |ns|
        invariant 0 <= i <= |ns|
        invariant Tables().LookupAll(ns) == AfterRefs(params, Tables().LookupAll(ns[i..]))
        invariant FirstUndefined(ns, Tables()) == FirstUndefined(ns[i..], Tables())
      {
        assert ns[i..][1..] == ns[i + 1..];
        var p := GetParam(ns[i]);
        if p.Failure? {
          return Failure(p.error);
        }
        AfterOneRef(params, p.value, Tables().LookupAll(ns[i + 1..]));
        params := params + [p.value];
        i := i + 1;
      }
      assert params + [] == params;
      r := Success(params);
    }

    method GetConnection(name: string) returns (c: Option<Conn>)
      ensures c == Tables().Connection(name)
    {
      c := if name in connectionMap then Some(connectionMap[name]) else None;
    }

    method PutParam(name: string, dataType: DataType)
      modifies this
      ensures Tables() == old(Tables()).Declare(name, dataType) && actions == old(actions)
    {
      var param: Ref := |names|;
      cells := cells[param := Param(dataType, Null)];
      paramMap := paramMap[Trim(name) := param];
      names := names + [Trim(name)];
    }

    method PutDataBase(name: string, conn: Conn)
      modifies this
      ensures Tables() == old(Tables()).(conns := old(connectionMap)[Trim(name) := conn]) && actions == old(actions)
    {
      connectionMap := connectionMap[Trim(name) := conn];
    }

    method PutAction(action: Code)
      modifies this
      ensures Tables() == old(Tables()) && actions == old(actions) + [action]
    {
      actions := actions + [action];
    }
  }

  class Compile {
    const readFile: ReadFile
    const exe: Exe
    const opens: Conn -> bool
    var model: Model

    ghost predicate Valid()
      reads readFile
    {
      readFile.Valid()
    }

    /** The meaningful lines still to come. */
    ghost function Ahead(): seq<string>
      reads readFile
    {
      Meaningful(readFile.rest)
    }

    constructor (readFile: ReadFile, opens: Conn -> bool)
      requires readFile.Valid()
      ensures Valid() && this.readFile == readFile && this.opens == opens && fresh(exe)
      ensures model == Unset && exe.Tables() == EMPTY_SCOPE && exe.actions == []
    {
      this.readFile, this.opens, model := readFile, opens, Unset;
      exe := new Exe();
    }

    /** What a parsing method has done when the specification says `spec`. */
    ghost predicate Did<A>(spec: Parsed<A>, r: Result<A>)
      reads readFile, exe
    {
      match spec
      case Ok(value, rest, sc) => r == Success(value) && Ahead() == rest && exe.Tables() == sc
      case Err(e) => r == Failure(e)
    }

    method CompileAll() returns (r: Result<Exe>)
      requires Valid() && exe.actions == [] && exe.Tables() == EMPTY_SCOPE && model == Unset
      modifies this, readFile, exe
      ensures Valid()
      ensures match CompileLines(opens, Unset, old(Ahead()), Program(EMPTY_SCOPE, []))
              case Ok(actions, _, sc) => r == Success(exe) && exe.Tables() == sc && exe.actions == actions
              case Err(e) => r == Failure(e)
    {
      while true
        invariant Valid()
        invariant CompileLines(opens, Unset, old(Ahead()), Program(EMPTY_SCOPE, []))
               == CompileLines(opens, model, Ahead(), Program(exe.Tables(), exe.actions))
        decreases |readFile.rest|
      {
        var line := readFile.ReadLien();
        if line == None {
          return Success(exe);
        }
        var isHeader := ModelTransform(line.value);
        if isHeader {
          continue;
        }
        if model == DataSourceModel {
          var e := PutDataSource(line.value);
          if e.Some? {
            return Failure(e.value);
          }
        } else if model == ParamModel {
          var e := PutParam(line.value);
          if e.Some? {
            return Failure(e.value);
          }
        } else if model == ActionModel {
          var a := PutAction(line);
          if a.Failure? {
            return Failure(a.error);
          }
          exe.PutAction(a.value);
        }
      }
    }

    method ModelTransform(line: string) returns (isHeader: bool)
      modifies this
      ensures isHeader <==> SectionOf(line).Some?
      ensures model == match SectionOf(line) case Some(m) => m case None => old(model)
    {
      if StartsWith(line, "[DATASOURCE]") {
        model := DataSourceModel;
        return true;
      } else if StartsWith(line, "[PARAM]") {
        model := ParamModel;
        return true;
      } else if StartsWith(line, "[ACTION]") {
        model := ActionModel;
        return true;
      }
      return false;
    }

    method PutParam(line: string) returns (e: Option<CompileError>)
      requires Valid()
      modifies exe
      ensures Valid() && exe.actions == old(exe.actions)
      ensures match DeclareLine(line, old(exe.Tables()))
              case Ok(_, _, sc) => e == None && exe.Tables() == sc
              case Err(error) => e == Some(error)
    {
      if !StartsWith(Trim(line), "@") {
        return Some(NotAParam);
      }
      var param := TrimSplit(line, "TYPEAS");
      if |param| < 2 {
        return Some(MissingOperand);
      }
      var dataType := ParseType(param[1]);
      if dataType == None {
        return Some(UnknownType);
      }
      exe.PutParam(param[0], dataType.value);
      e := None;
    }

    method PutDataSource(line: string) returns (e: Option<CompileError>)
      requires Valid()
      modifies exe
      ensures Valid() && exe.actions == old(exe.actions)
      ensures match ConnectLine(opens, line, old(exe.Tables()))
              case Ok(_, _, sc) => e == None && exe.Tables() == sc
              case Err(error) => e == Some(error)
    {
      var param := TrimSplit(line, " ");
      if |param| < 3 {
        return Some(MissingOperand);
      }
      var conn := Conn(Trim(param[1]), Trim(param[2]));
      if !opens(conn) {
        return Some(NoConnection);
      }
      exe.PutDataBase(param[0], conn);
      e := None;
    }

    /** putAction: reads the rest of the action that starts with `line`. */
    method PutAction(line: Option<string>) returns (r: Result<Code>)
      requires Valid()
      modifies readFile, exe
      ensures Valid() && exe.actions == old(exe.actions) && |readFile.rest| <= |old(readFile.rest)|
      ensures Did(CompileAction(line, old(Ahead()), old(exe.Tables())), r)
      decreases |readFile.rest|, 1
    {
      if line == None {
        return Failure(EndOfInput);
      }
      match ReadHead(line.value)
      case HeadIf(cond) =>
        var b := PutBranches();
        r := if b.Success? then Success(If(cond, b.value.thn, b.value.els)) else Failure(b.error);
      case HeadWhile(cond) =>
        var b := PutBlock("ENDWHILE");
        r := if b.Success? then Success(While(cond, b.value)) else Failure(b.error);
      case HeadForeach(table, params) =>
        var t := exe.GetParam(table);
        if t.Failure? {
          return Failure(t.error);
        }
        var ps := exe.GetParams(params);
        assert ([table] + params)[1..] == params;
        if ps.Failure? {
          return Failure(ps.error);
        }
        var b := PutBlock("ENDFOREACH");
        r := if b.Success? then Success(Foreach(t.value, ps.value, b.value)) else Failure(b.error);
      case HeadQuery(name, target) =>
        var conn := exe.GetConnection(name);
        var param: Option<Ref> := None;
        if target.Some? {
          exe.PutParam(target.value, TableType);
          var p := exe.GetParam(Trim(target.value));
          param := Some(p.value);
        }
        var text := PutQuery();
        r := if text.Success? then Success(Query(conn, param, text.value)) else Failure(text.error);
      case HeadAssign(name, value) =>
        var p := exe.GetParam(name);
        r := if p.Success? then Success(Assignment(p.value, value)) else Failure(p.error);
      case HeadBad(e) =>
        r := Failure(e);
    }

    method PutBranches() returns (r: Result<Branches>)
      requires Valid()
      modifies readFile, exe
      ensures Valid() && exe.actions == old(exe.actions) && |readFile.rest| <= |old(readFile.rest)|
      ensures Did(CompileBranches(true, old(Ahead()), old(exe.Tables())), r)
      decreases |readFile.rest|, 0
    {
      ghost var spec := CompileBranches(true, old(Ahead()), old(exe.Tables()));
      AfterNothing(spec, Err(EndOfInput));
      var thn, els, wrench := [], [], true;
      while true
        invariant Valid() && exe.actions == old(exe.actions) && |readFile.rest| <= |old(readFile.rest)|
        invariant spec == After(thn, els, CompileBranches(wrench, Ahead(), exe.Tables()))
        decreases |readFile.rest|
      {
        var next := readFile.ReadLien();
        if next == None {
          return Failure(NotClosed("ENDIF"));
        }
        if StartsWith(next.value, "ELSE") {
          wrench := false;
          next := readFile.ReadLien();
        } else if StartsWith(next.value, "ENDIF") {
          assert thn + [] == thn && els + [] == els;
          return Success(Branches(thn, els));
        }
        var a := PutAction(next);
        if a.Failure? {
          return Failure(a.error);
        }
        AfterInto(thn, els, wrench, a.value, CompileBranches(wrench, Ahead(), exe.Tables()));
        if wrench {
          thn := thn + [a.value];
        } else {
          els := els + [a.value];
        }
      }
    }

    method PutBlock(end: string) returns (r: Result<seq<Code>>)
      requires Valid()
      modifies readFile, exe
      ensures Valid() && exe.actions == old(exe.actions) && |readFile.rest| <= |old(readFile.rest)|
      ensures Did(CompileBlock(end, old(Ahead()), old(exe.Tables())), r)
      decreases |readFile.rest|, 0
    {
      ghost var spec := CompileBlock(end, old(Ahead()), old(exe.Tables()));
      AfterNothing(Err(EndOfInput), spec);
      var actions := [];
      while true
        invariant Valid() && exe.actions == old(exe.actions) && |readFile.rest| <= |old(readFile.rest)|
        invariant spec == AfterAll(actions, CompileBlock(end, Ahead(), exe.Tables()))
        decreases |readFile.rest|
      {
        var next := readFile.ReadLien();
        if next == None {
          return Failure(NotClosed(end));
        }
        if StartsWith(next.value, end) {
          assert actions + [] == actions;
          return Success(actions);
        }
        var a := PutAction(next);
        if a.Failure? {
          return Failure(a.error);
        }
        AfterBefore(actions, a.value, CompileBlock(end, Ahead(), exe.Tables()));
        actions := actions + [a.value];
      }
    }

    method PutQuery() returns (r: Result<seq<string>>)
      requires Valid()
      modifies readFile
      ensures Valid() && |readFile.rest| <= |old(readFile.rest)|
      ensures match QueryText(old(Ahead()))
              case Some(text) => r == Success(text) && Ahead() == old(Ahead())[|text| + 1..]
              case None => r == Failure(NotClosed("ENDQUERY"))
    {
      var text := [];
      ghost var spec := QueryText(old(Ahead()));
      AfterNoLines(spec);
      while true
        invariant Valid() && |readFile.rest| <= |old(readFile.rest)|
        invariant |text| + |Ahead()| == |old(Ahead())| && Ahead() == old(Ahead())[|text|..]
        invariant spec == AfterLines(text, QueryText(Ahead()))
        decreases |readFile.rest|
      {
        var next := readFile.ReadLien();
        if next == None {
          return Failure(NotClosed("ENDQUERY"));
        }
        if StartsWith(next.value, "ENDQUERY") {
          assert text + [] == text;
          return Success(text);
        }
        AfterOneLine(text, next.value, QueryText(Ahead()));
        text := text + [next.value];
      }
    }
  }

  // ---- what the loops have accumulated -------------------------------------------

  ghost function After(thn: seq<Code>, els: seq<Code>, r: Parsed<Branches>): Parsed<Branches>
  {
    match r case Ok(b, rest, sc) => Ok(Branches(thn + b.thn, els + b.els), rest, sc) case Err(_) => r
  }

  ghost function AfterAll(done: seq<Code>, r: Parsed<seq<Code>>): Parsed<seq<Code>>
  {
    match r case Ok(as_, rest, sc) => Ok(done + as_, rest, sc) case Err(_) => r
  }

  ghost function AfterRefs(done: seq<Ref>, r: Option<seq<Ref>>): Option<seq<Ref>>
  {
    match r case Some(rest) => Some(done + rest) case None => None
  }

  ghost function AfterLines(done: seq<string>, r: Option<seq<string>>): Option<seq<string>>
  {
    match r case Some(rest) => Some(done + rest) case None => None
  }

  lemma AfterNoLines(r: Option<seq<string>>)
    ensures AfterLines([], r) == r
  {
    if r.Some? { assert [] + r.value == r.value; }
  }

  lemma AfterOneLine(done: seq<string>, line: string, r: Option<seq<string>>)
    ensures AfterLines(done, AfterLines([line], r)) == AfterLines(done + [line], r)
  {
    if r.Some? { assert done + ([line] + r.value) == done + [line] + r.value; }
  }

  lemma AfterNoRefs(r: Option<seq<Ref>>)
    ensures AfterRefs([], r) == r
  {
    if r.Some? { assert [] + r.value == r.value; }
  }

  lemma AfterOneRef(done: seq<Ref>, p: Ref, r: Option<seq<Ref>>)
    ensures AfterRefs(done, AfterRefs([p], r)) == AfterRefs(done + [p], r)
  {
    if r.Some? { assert done + ([p] + r.value) == done + [p] + r.value; }
  }

  lemma AfterNothing(r: Parsed<Branches>, b: Parsed<seq<Code>>)
    ensures After([], [], r) == r && AfterAll([], b) == b
  {
    if r.Ok? { assert [] + r.value.thn == r.value.thn && [] + r.value.els == r.value.els; }
    if b.Ok? { assert [] + b.value == b.value; }
  }

  lemma AfterInto(thn: seq<Code>, els: seq<Code>, wrench: bool, a: Code, r: Parsed<Branches>)
    ensures After(thn, els, Into(wrench, a, r))
         == if wrench then After(thn + [a], els, r) else After(thn, els + [a], r)
  {
    if r.Ok? {
      assert thn + ([a] + r.value.thn) == thn + [a] + r.value.thn;
      assert els + ([a] + r.value.els) == els + [a] + r.value.els;
    }
  }

  lemma AfterBefore(done: seq<Code>, a: Code, r: Parsed<seq<Code>>)
    ensures AfterAll(done, Before(a, r)) == AfterAll(done + [a], r)
  {
    if r.Ok? {
      assert done + ([a] + r.value) == done + [a] + r.value;
    }
  }
}
