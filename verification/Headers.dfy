/** Section headers inside actions: they never switch the section, and stand only in query texts. */
module Headers {
  import opened Wrappers
  import opened Text
  import opened Syntax
  import opened Compiling
  import opened Grammar

  /** The header lines among some lines. */
  function HeadersOf(ls: seq<string>): seq<string>
  {
    if ls == [] then [] else (if SectionOf(ls[0]).Some? then [ls[0]] else []) + HeadersOf(ls[1..])
  }

  /** The lines of all query texts in a tree. */
  function QueryLines(t: Tree): seq<string>
    decreases t
  {
    match t
    case TIf(_, body, _, _) => AllQueryLines(body)
    case TWhile(_, body, _) => AllQueryLines(body)
    case TForeach(_, body, _) => AllQueryLines(body)
    case TQuery(_, text, _) => text
    case TAssign(_) => []
  }

  function AllQueryLines(ts: seq<Tree>): seq<string>
    decreases ts
  {
    if ts == [] then [] else QueryLines(ts[0]) + AllQueryLines(ts[1..])
  }

  lemma {:induction false} HeadersConcat(a: seq<string>, b: seq<string>)
    ensures HeadersOf(a + b) == HeadersOf(a) + HeadersOf(b)
  {
    if a == [] {
      assert a + b == b;
    } else {
      assert (a + b)[1..] == a[1..] + b;
      HeadersConcat(a[1..], b);
    }
  }

  lemma NoHeader(line: string)
    requires line != "" && line[0] != '['
    ensures HeadersOf([line]) == []
  {
    assert [line][1..] == [];
  }

  lemma HeadIsNoHeader(line: string)
    requires !ReadHead(line).HeadBad?
    ensures HeadersOf([line]) == []
  {
    assert line != "" && line[0] != '[';
    NoHeader(line);
  }

  lemma EnclosedHeaders(head: string, more: seq<string>, close: string)
    requires HeadersOf([head]) == [] && HeadersOf([close]) == []
    ensures HeadersOf([head] + more + [close]) == HeadersOf(more)
  {
    HeadersConcat([head] + more, [close]);
    HeadersConcat([head], more);
  }

  lemma {:induction false} BranchHeaders(elseLines: seq<Option<string>>, ts: seq<Tree>)
    requires |elseLines| == |ts| && ElseLines(elseLines)
    ensures HeadersOf(BranchLines(elseLines, ts)) == HeadersOf(BodyLines(ts))
  {
    if ts != [] {
      var optional := OptionalLine(elseLines[0]);
      BranchHeaders(elseLines[1..], ts[1..]);
      HeadersConcat(optional + Lines(ts[0]), BranchLines(elseLines[1..], ts[1..]));
      HeadersConcat(optional, Lines(ts[0]));
      HeadersConcat(Lines(ts[0]), BodyLines(ts[1..]));
      if elseLines[0].Some? {
        NoHeader(elseLines[0].value);
      }
    }
  }

  /** Of all lines of a well-nested tree, the header lines are those in the texts of its queries. */
  lemma {:induction false} HeadersStandInQueries(t: Tree)
    requires WellNested(t)
    ensures HeadersOf(Lines(t)) == HeadersOf(QueryLines(t))
    decreases t
  {
    HeadIsNoHeader(t.head);
    match t
    case TIf(head, body, elseLines, close) =>
      NoHeader(close);
      EnclosedHeaders(head, BranchLines(elseLines, body), close);
      BranchHeaders(elseLines, body);
      BodyHeaders(body);
    case TWhile(head, body, close) =>
      NoHeader(close);
      EnclosedHeaders(head, BodyLines(body), close);
      BodyHeaders(body);
    case TForeach(head, body, close) =>
      NoHeader(close);
      EnclosedHeaders(head, BodyLines(body), close);
      BodyHeaders(body);
    case TQuery(head, text, close) =>
      NoHeader(close);
      EnclosedHeaders(head, text, close);
    case TAssign(_) =>
  }

  lemma {:induction false} BodyHeaders(ts: seq<Tree>)
    requires AllWellNested(ts)
    ensures HeadersOf(BodyLines(ts)) == HeadersOf(AllQueryLines(ts))
    decreases ts
  {
    if ts != [] {
      HeadersStandInQueries(ts[0]);
      BodyHeaders(ts[1..]);
      HeadersConcat(Lines(ts[0]), BodyLines(ts[1..]));
      HeadersConcat(QueryLines(ts[0]), AllQueryLines(ts[1..]));
    }
  }

  /** `t` is the tree of an accepted action, and its header lines are query text. */
  ghost predicate KeepsHeaders(t: Tree, line: string, ls: seq<string>, sc: Scope, r: Parsed<Code>)
  {
    IsTreeOf(t, line, ls, sc, r) && HeadersOf(Lines(t)) == HeadersOf(QueryLines(t))
  }

  /** In the action section, an action that is accepted takes up all its lines in one piece: the
      section stays what it is, however many of them are header lines, and each of these is part of
      the text of a query. */
  lemma HeadersInBlocksSwitchNothing(opens: Conn -> bool, ls: seq<string>, p: Program)
    requires ls != [] && SectionOf(ls[0]) == None && CompileAction(Some(ls[0]), ls[1..], p.scope).Ok?
    ensures var a := CompileAction(Some(ls[0]), ls[1..], p.scope);
            && CompileLines(opens, ActionModel, ls, p)
            == CompileLines(opens, ActionModel, a.rest, Program(a.scope, p.actions + [a.value]))
            && exists t :: KeepsHeaders(t, ls[0], ls[1..], p.scope, a)
  {
    var t := ParsedIsWellNested(ls[0], ls[1..], p.scope);
    HeadersStandInQueries(t);
    assert KeepsHeaders(t, ls[0], ls[1..], p.scope, CompileAction(Some(ls[0]), ls[1..], p.scope));
  }
}
