/** A file that declares a name again after an action on it: what it compiles to and what its source
    means are different. */
module Redeclaration {
  import opened Wrappers
  import opened Text
  import opened Reading
  import opened Syntax
  import opened Substitution
  import opened Analyizing
  import opened Compiling
  import opened Grammar
  import opened Printing
  import opened PrintedFile
  import opened Meaning
  import opened WholeFile
  import Declarations

  /** A parameter's name and a literal, as they can stand in a file. */
  predicate IsNameAndLiteral(name: string, text: string)
  {
    && IsWord(name, "TYPEAS") && IsWord(name, "=") && name[0] == '@'
    && IsWord(text, "=") && text[0] != '@' && '.' !in text && '(' !in text
  }

  function DeclareText(name: string): string { name + " TYPEAS string" }

  function AssignText(name: string, text: string): string { name + " = " + text }

  function TwiceDeclared(name: string, text: string): seq<string>
  {
    ["[PARAM]", DeclareText(name), "[ACTION]", AssignText(name, text), "[PARAM]", DeclareText(name)]
  }

  lemma DeclarationIsTrimmed(name: string)
    requires Trimmed(name) && name[0] == '@'
    ensures Readable([DeclareText(name)]) && SectionOf(DeclareText(name)) == None
    ensures StartsWith(Trim(DeclareText(name)), "@")
  {
    var line := DeclareText(name);
    assert line[|line| - 1] == 'g' && line[0] == '@';
    TrimWhole(line);
  }

  lemma StringIsWord()
    ensures IsWord("string", "TYPEAS")
  {
    forall i | 0 <= i < 6 ensures !("TYPEAS" <= "string"[i..]) {
      assert i == 0 ==> "string"[i..][0] == 's';
    }
  }

  lemma DeclarationIsRead(name: string, sc: Scope)
    requires IsWord(name, "TYPEAS") && name[0] == '@'
    ensures DeclareLine(DeclareText(name), sc) == Ok((), [], sc.Declare(name, StringType))
    ensures Readable([DeclareText(name)]) && SectionOf(DeclareText(name)) == None
  {
    DeclarationIsTrimmed(name);
    StringIsWord();
    Declarations.DeclarationIsRead(name, "string", StringType, sc);
    assert name + " TYPEAS " + "string" == DeclareText(name);
  }

  lemma AssignmentIsRead(name: string, text: string)
    requires IsNameAndLiteral(name, text)
    ensures ReadHead(AssignText(name, text)) == HeadAssign(name, text)
    ensures Readable([AssignText(name, text)]) && SectionOf(AssignText(name, text)) == None
  {
    ReadsAssign(name, text, AssignText(name, text));
    var line := AssignText(name, text);
    assert line[|line| - 1] == text[|text| - 1] && line[0] == '@';
  }

  lemma LiteralMeansItself(world: World, env: Env, text: string, fuel: nat)
    requires text != "" && text[0] != '@' && '.' !in text && '(' !in text
    ensures LQL.eval(world, env, text, fuel) == Val(Str(text))
  {
  }

  lemma FileIsReadable(name: string, text: string)
    requires IsNameAndLiteral(name, text)
    ensures Meaningful(TwiceDeclared(name, text)) == TwiceDeclared(name, text)
  {
    DeclarationIsRead(name, EMPTY_SCOPE);
    AssignmentIsRead(name, text);
    assert Readable(["[PARAM]"]) && Readable(["[ACTION]"]);
    SixAreReadable("[PARAM]", DeclareText(name), "[ACTION]", AssignText(name, text));
    ReadableIsRead(TwiceDeclared(name, text));
  }

  lemma SixAreReadable(a: string, b: string, c: string, d: string)
    requires Readable([a]) && Readable([b]) && Readable([c]) && Readable([d])
    ensures Readable([a, b, c, d, a, b])
  {
    assert [a][0] == a && [b][0] == b && [c][0] == c && [d][0] == d;
  }

  function Once(name: string): Scope { EMPTY_SCOPE.Declare(name, StringType) }

  function Twice(name: string): Scope { Once(name).Declare(name, StringType) }

  lemma HeadersAreSections()
    ensures SectionOf("[PARAM]") == Some(ParamModel) && SectionOf("[ACTION]") == Some(ActionModel)
  {
    assert "[PARAM]"[1] == 'P' && "[ACTION]"[1] == 'A';
  }

  lemma HeaderCompiles(opens: Conn -> bool, model: Model, ls: seq<string>, p: Program, m: Model, rest: seq<string>)
    requires ls != [] && SectionOf(ls[0]) == Some(m) && rest == ls[1..]
    ensures CompileLines(opens, model, ls, p) == CompileLines(opens, m, rest, p)
  {
  }

  lemma DeclarationCompiles(opens: Conn -> bool, name: string, ls: seq<string>, p: Program, rest: seq<string>)
    requires IsWord(name, "TYPEAS") && name[0] == '@' && ls != [] && ls[0] == DeclareText(name) && rest == ls[1..]
    ensures CompileLines(opens, ParamModel, ls, p)
         == CompileLines(opens, ParamModel, rest, p.(scope := p.scope.Declare(name, StringType)))
  {
    DeclarationIsRead(name, p.scope);
  }

  lemma LastLines(opens: Conn -> bool, name: string, code: Code)
    requires IsWord(name, "TYPEAS") && name[0] == '@'
    ensures CompileLines(opens, ActionModel, ["[PARAM]", DeclareText(name)], Program(Once(name), [code]))
         == Ok([code], [], Twice(name))
  {
    HeadersAreSections();
    HeaderCompiles(opens, ActionModel, ["[PARAM]", DeclareText(name)], Program(Once(name), [code]), ParamModel,
                   [DeclareText(name)]);
    DeclarationCompiles(opens, name, [DeclareText(name)], Program(Once(name), [code]), []);
  }

  lemma AssignmentCompiles(name: string, text: string, rest: seq<string>)
    requires IsNameAndLiteral(name, text)
    ensures CompileAction(Some(AssignText(name, text)), rest, Once(name)) == Ok(Assignment(0, text), rest, Once(name))
  {
    AssignmentIsRead(name, text);
    TrimWhole(name);
  }

  lemma MiddleLines(opens: Conn -> bool, name: string, text: string)
    requires IsNameAndLiteral(name, text)
    ensures CompileLines(opens, ActionModel, [AssignText(name, text), "[PARAM]", DeclareText(name)],
                         Program(Once(name), []))
         == Ok([Assignment(0, text)], [], Twice(name))
  {
    var ls, rest := [AssignText(name, text), "[PARAM]", DeclareText(name)], ["[PARAM]", DeclareText(name)];
    var code: Code := Assignment(0, text);
    AssignmentIsRead(name, text);
    assert ls[1..] == rest;
    AssignmentCompiles(name, text, rest);
    ActionLineCompiles(opens, ls, Program(Once(name), []), Ok(code, rest, Once(name)));
    LastLines(opens, name, code);
    assert [] + [code] == [code];
  }

  lemma FileCompiles(opens: Conn -> bool, name: string, text: string)
    requires IsNameAndLiteral(name, text)
    ensures CompileFile(opens, TwiceDeclared(name, text)) == Ok([Assignment(0, text)], [], Twice(name))
  {
    var ls := TwiceDeclared(name, text);
    var start := Program(EMPTY_SCOPE, []);
    FileIsReadable(name, text);
    HeadersAreSections();
    HeaderCompiles(opens, Unset, ls, start, ParamModel, ls[1..]);
    DeclarationCompiles(opens, name, ls[1..], start, ls[2..]);
    HeaderCompiles(opens, ParamModel, ls[2..], start.(scope := Once(name)), ActionModel, ls[3..]);
    MiddleLines(opens, name, text);
    assert ls[3..] == [AssignText(name, text), "[PARAM]", DeclareText(name)];
  }

  // ---- the source --------------------------------------------------------------------------

  function Parts(name: string, text: string): seq<Part>
  {
    var declaring := Declaring(DeclareText(name));
    [declaring, Acting(TAssign(AssignText(name, text)), Assignment(name, text)), declaring]
  }

  lemma HeaderHasNoPart(model: Model, ls: seq<string>, m: Model, rest: seq<string>, parts: seq<Part>)
    requires ls != [] && SectionOf(ls[0]) == Some(m) && rest == ls[1..] && FileParts(m, rest, parts)
    ensures FileParts(model, ls, parts)
  {
  }

  lemma PartsAre(name: string, text: string)
    requires IsNameAndLiteral(name, text)
    ensures FileParts(Unset, TwiceDeclared(name, text), Parts(name, text))
  {
    var ls, parts := TwiceDeclared(name, text), Parts(name, text);
    HeadersAreSections();
    DeclarationIsTrimmed(name);
    AssignmentIsRead(name, text);
    assert FileParts(ParamModel, [], []);
    FirstPart(ParamModel, ls[5..], parts[2], [], []);
    assert [parts[2]] + [] == parts[2..];
    HeaderHasNoPart(ActionModel, ls[4..], ParamModel, ls[5..], parts[2..]);
    FirstPart(ActionModel, ls[3..], parts[1], parts[2..], ls[4..]);
    assert [parts[1]] + parts[2..] == parts[1..];
    HeaderHasNoPart(ParamModel, ls[2..], ActionModel, ls[3..], parts[1..]);
    FirstPart(ParamModel, ls[1..], parts[0], parts[1..], ls[2..]);
    assert [parts[0]] + parts[1..] == parts;
    HeaderHasNoPart(Unset, ls, ParamModel, ls[1..], parts);
  }

  lemma SourceIs(opens: Conn -> bool, name: string, text: string)
    ensures FileSource(opens, Parts(name, text), map[]) == [Assignment(name, text)]
  {
    var parts := Parts(name, text);
    assert parts[1..][1..] == parts[2..] && parts[2..][1..] == [];
    assert FileSource(opens, [], map[]) == [] && FileSource(opens, parts[2..], map[]) == [];
    var source: seq<Linked> := [Assignment(name, text)];
    assert source + [] == source;
    assert FileSource(opens, parts[1..], map[]) == source;
  }

  /** The target of the assignment is declared again after it. */
  lemma TargetIsLost(name: string, text: string)
    ensures !FileKeepsTargets(Parts(name, text), [name, name], 0)
  {
    var parts, names := Parts(name, text), [name, name];
    assert DeclaredAgain(name, names, 1) by {
      assert names[..1][0] == name && names[1..][0] == name;
    }
    assert !FileKeepsTargets(parts[1..], names, 1);
  }

  // ---- the two runs ---------------------------------------------------------------------------

  lemma Scopes(name: string)
    requires Trimmed(name)
    ensures var f := Twice(name);
            && f.paramMap == map[name := 1] && f.names == [name, name]
            && f.cells == map[0 := Param(StringType, Null), 1 := Param(StringType, Null)]
  {
    TrimWhole(name);
  }

  /** The compiled action assigns to the Param that the name denoted first, which nobody reads. */
  lemma CompiledRun(name: string, text: string, world: World, fuel: nat)
    requires IsNameAndLiteral(name, text)
    ensures var f := Twice(name);
            var code: Code := Assignment(0, text);
            var r := RunAll(Objects(f, LQL, world), [code], State(f.cells, []), fuel);
            r.outcome == Done && name in ByName(f, r.state).store && ByName(f, r.state).store[name].value == Null
  {
    var f := Twice(name);
    var code: Code := Assignment(0, text);
    Scopes(name);
    LiteralMeansItself(world, View(Objects(f, LQL, world), State(f.cells, [])), text, fuel);
    assert [code][1..] == [];
  }

  /** The source assigns to the name. */
  lemma SourceRun(name: string, text: string, world: World, fuel: nat)
    requires IsNameAndLiteral(name, text)
    ensures var f := Twice(name);
            var source: Linked := Assignment(name, text);
            var r := RunAll(Named(f, LQL, world), [source], ByName(f, State(f.cells, [])), fuel);
            r.outcome == Done && name in r.state.store && r.state.store[name].value == Str(text)
  {
    var f := Twice(name);
    var source: Linked := Assignment(name, text);
    Scopes(name);
    var start := ByName(f, State(f.cells, []));
    assert name in start.store;
    LiteralMeansItself(world, View(Named(f, LQL, world), start), text, fuel);
    assert [source][1..] == [];
  }

  /** A file that declares a name again after assigning to it compiles, but does not run as its source
      means: the source leaves the literal under the name, the compiled file leaves null. */
  lemma RedeclaredNameGoesStale(opens: Conn -> bool, name: string, text: string, world: World, fuel: nat)
    requires IsNameAndLiteral(name, text)
    ensures var file, parts := TwiceDeclared(name, text), Parts(name, text);
            var r := CompileFile(opens, file);
            && r.Ok? && FileParts(Unset, Meaningful(file), parts)
            && !FileKeepsTargets(parts, r.scope.names, 0)
            && var start := State(r.scope.cells, []);
            var compiled := ByName(r.scope, RunAll(Objects(r.scope, LQL, world), r.value, start, fuel).state);
            var meant := RunAll(Named(r.scope, LQL, world), FileSource(opens, parts, map[]), ByName(r.scope, start),
                                fuel).state;
            && name in compiled.store && name in meant.store
            && compiled.store[name].value == Null && meant.store[name].value == Str(text)
  {
    FileIsReadable(name, text);
    FileCompiles(opens, name, text);
    PartsAre(name, text);
    SourceIs(opens, name, text);
    Scopes(name);
    TargetIsLost(name, text);
    CompiledRun(name, text, world, fuel);
    SourceRun(name, text, world, fuel);
  }
}
