/** With which error the parser refuses a text. */
module Refusals {
  import opened Wrappers
  import opened Text
  import opened Syntax
  import opened Compiling
  import opened Grammar

  // ---- blocks that are not closed -----------------------------------------------------------

  /** The keyword of the line that closes a block. */
  function EndOf(t: Tree): string
  {
    match t
    case TIf(_, _, _, _) => "ENDIF"
    case TWhile(_, _, _) => "ENDWHILE"
    case TForeach(_, _, _) => "ENDFOREACH"
    case TQuery(_, _, _) => "ENDQUERY"
    case TAssign(_) => ""
  }

  /** The lines of a block between its first and its last. */
  function Inner(t: Tree): seq<string>
  {
    match t
    case TIf(_, body, elseLines, _) => BranchLines(elseLines, body)
    case TWhile(_, body, _) => BodyLines(body)
    case TForeach(_, body, _) => BodyLines(body)
    case TQuery(_, text, _) => text
    case TAssign(_) => []
  }

  lemma {:induction false} TextIsUnclosed(text: seq<string>)
    requires NoEndQuery(text)
    ensures QueryText(text) == None
  {
    if text != [] {
      TextIsUnclosed(text[1..]);
    }
  }

  lemma {:induction false} BodyIsUnclosed(end: string, ts: seq<Tree>, sc: Scope)
    requires AllWellNested(ts) && BindAll(AbstractAll(ts), sc).Bound? && end != "" && end[0] == 'E'
    ensures CompileBlock(end, BodyLines(ts), sc) == Err(NotClosed(end))
    decreases |ts|
  {
    if ts != [] {
      var t, after := ts[0], BodyLines(ts[1..]);
      assert AbstractAll(ts)[1..] == AbstractAll(ts[1..]);
      var a := Bind(Abstract(t), sc);
      WellNestedIsParsed(t, after, sc);
      HeadsAreNotEnds(t.head);
      BodyIsUnclosed(end, ts[1..], a.scope);
      FirstThenRest(Lines(t), after);
      RestIsRefused(end, Lines(t) + after, after, sc, a, NotClosed(end));
    }
  }

  lemma FirstThenRest(first: seq<string>, after: seq<string>)
    requires first != []
    ensures (first + after)[0] == first[0] && (first + after)[1..] == first[1..] + after
  {
  }

  lemma RestIsRefused(end: string, ls: seq<string>, after: seq<string>, sc: Scope, a: Bound<Code>, e: CompileError)
    requires ls != [] && ls[0] != "" && ls[0][0] != 'E' && end != "" && end[0] == 'E' && a.Bound?
    requires CompileAction(Some(ls[0]), ls[1..], sc) == Ok(a.value, after, a.scope)
    requires CompileBlock(end, after, a.scope) == Err(e)
    ensures CompileBlock(end, ls, sc) == Err(e)
  {
  }

  lemma {:induction false} BranchesAreUnclosed(wrench: bool, elseLines: seq<Option<string>>, body: seq<Tree>, sc: Scope)
    requires AllWellNested(body) && |elseLines| == |body| && ElseLines(elseLines)
    requires BindBranches(wrench, elseLines, AbstractAll(body), sc).Bound?
    ensures CompileBranches(wrench, BranchLines(elseLines, body), sc) == Err(NotClosed("ENDIF"))
    decreases |body|
  {
    if body != [] {
      var t, after := body[0], BranchLines(elseLines[1..], body[1..]);
      var wrench' := wrench && elseLines[0].None?;
      var a := Bind(Abstract(t), sc);
      assert AbstractAll(body)[1..] == AbstractAll(body[1..]);
      BranchesAreUnclosed(wrench', elseLines[1..], body[1..], a.scope);
      WellNestedIsParsed(t, after, sc);
      BranchIsParsed(wrench, elseLines[0], t, after, sc, Ok(a.value, after, a.scope));
    }
  }

  /** A block without its last line, at the end of the input, is refused for want of its own END line. */
  lemma UnclosedIsRefused(t: Tree, sc: Scope)
    requires WellNested(t) && !t.TAssign? && Bind(Abstract(t), sc).Bound?
    ensures CompileAction(Some(t.head), Inner(t), sc) == Err(NotClosed(EndOf(t)))
  {
    match t
    case TIf(_, body, elseLines, _) =>
      BindBranchesSplits(true, elseLines, AbstractAll(body), sc);
      BranchesAreUnclosed(true, elseLines, body, sc);
    case TWhile(_, body, _) => BodyIsUnclosed("ENDWHILE", body, sc);
    case TForeach(_, body, _) => BodyIsUnclosed("ENDFOREACH", body, sc);
    case TQuery(_, text, _) => TextIsUnclosed(text);
  }

  // ---- names that are not declared --------------------------------------------------------------

  /** The first of the names that is not declared. */
  ghost predicate IsFirstUndeclared(ns: seq<string>, sc: Scope, k: nat)
  {
    k < |ns| && ns[k] !in sc.paramMap && forall i :: 0 <= i < k ==> ns[i] in sc.paramMap
  }

  lemma {:induction false} UndeclaredIsNamed(ns: seq<string>, sc: Scope, k: nat)
    requires IsFirstUndeclared(ns, sc, k)
    ensures FirstUndefined(ns, sc) == Undefined(ns[k]) && sc.LookupAll(ns) == None
    decreases k
  {
    if k > 0 {
      assert forall i :: 0 <= i < k - 1 ==> ns[1..][i] == ns[i + 1];
      UndeclaredIsNamed(ns[1..], sc, k - 1);
    }
  }

  /** Several names are looked up one by one: each gives what it denotes, in order, if all are declared. */
  lemma {:induction false} NamesAreLookedUp(ns: seq<string>, sc: Scope)
    ensures sc.LookupAll(ns).Some? <==> forall i :: 0 <= i < |ns| ==> ns[i] in sc.paramMap
    ensures sc.LookupAll(ns).Some? ==>
              && |sc.LookupAll(ns).value| == |ns|
              && forall i :: 0 <= i < |ns| ==> sc.LookupAll(ns).value[i] == sc.paramMap[ns[i]]
  {
    if ns != [] {
      var more := ns[1..];
      assert forall i :: 0 <= i < |more| ==> more[i] == ns[i + 1];
      assert forall i :: 0 < i < |ns| ==> ns[i] == more[i - 1];
      NamesAreLookedUp(more, sc);
    }
  }

  /** An assignment or a FOREACH to a name that is not declared is refused with the first such name. */
  lemma UndeclaredIsRefused(line: string, ls: seq<string>, sc: Scope, names: seq<string>, k: nat)
    requires match ReadHead(line)
             case HeadAssign(param, _) => names == [param]
             case HeadForeach(table, params) => names == [table] + params
             case _ => false
    requires IsFirstUndeclared(names, sc, k)
    ensures CompileAction(Some(line), ls, sc) == Err(Undefined(names[k]))
  {
    UndeclaredIsNamed(names, sc, k);
    if ReadHead(line).HeadForeach? {
      assert names[1..] == ReadHead(line).params;
    }
  }

  // ---- lines that start no action --------------------------------------------------------------------

  predicate StartsAction(line: string)
  {
    StartsWith(line, "IF") || StartsWith(line, "QUERY") || StartsWith(line, "WHILE") || StartsWith(line, "FOREACH")
    || StartsWith(line, "@")
  }

  /** A line that starts with none of the keywords and no '@' is refused as unknown, and so is nothing else. */
  lemma UnknownIsRefusedExactly(line: string, ls: seq<string>, sc: Scope)
    ensures ReadHead(line) == HeadBad(UnknownKeyword) <==> !StartsAction(line)
    ensures !StartsAction(line) ==> CompileAction(Some(line), ls, sc) == Err(UnknownKeyword)
  {
  }
}
