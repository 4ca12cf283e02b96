/** Whole printed files: reading and compiling one gives back the program it was printed from. */
module PrintedFile {
  import opened Wrappers
  import opened Text
  import opened Reading
  import opened Syntax
  import opened Compiling
  import opened Grammar
  import opened Printing

  // ---- printed lines survive the reader --------------------------------------------------

  /** Lines that the reader neither changes nor skips. */
  ghost predicate Readable(ls: seq<string>)
  {
    forall i :: 0 <= i < |ls| ==> Trimmed(ls[i]) && ls[i][0] != '#'
  }

  lemma {:induction false} ReadableIsRead(ls: seq<string>)
    requires Readable(ls)
    ensures Meaningful(ls) == ls
  {
    if ls != [] {
      TrimWhole(ls[0]);
      assert Readable(ls[1..]) by {
        assert forall i :: 0 <= i < |ls[1..]| ==> ls[1..][i] == ls[i + 1];
      }
      ReadableIsRead(ls[1..]);
    }
  }

  /** The head line of a tree starts like an action and ends like a word. */
  lemma HeadIsReadable(s: Source)
    requires Printable(s)
    ensures Readable([HeadLine(s)]) && HeadLine(s)[0] != '['
  {
    match s
    case Foreach(_, params, _) => ReadsParams(params);
    case _ =>
  }

  lemma {:induction false} TextIsReadable(text: seq<string>)
    requires IsQueryText(text)
    ensures Readable(text)
  {
    if text != [] {
      TextIsReadable(text[1..]);
      assert forall i :: 0 < i < |text| ==> text[i] == text[1..][i - 1];
    }
  }

  ghost predicate PlainMarks(marks: seq<Option<string>>)
  {
    forall i :: 0 <= i < |marks| && marks[i].Some? ==> marks[i].value == "ELSE"
  }

  lemma {:induction false} MarksArePlain(thn: nat, els: nat)
    ensures PlainMarks(ElseMarks(thn, els)) && PlainMarks(NoMarks(els))
    decreases thn + els
  {
    if thn > 0 {
      MarksArePlain(thn - 1, els);
    } else if els > 0 {
      MarksArePlain(0, els - 1);
    }
  }

  lemma ReadableConcat(a: seq<string>, b: seq<string>)
    ensures Readable(a + b) <==> Readable(a) && Readable(b)
  {
    if Readable(a + b) {
      assert forall i :: 0 <= i < |a| ==> a[i] == (a + b)[i];
      assert forall i :: 0 <= i < |b| ==> b[i] == (a + b)[|a| + i];
    }
  }

  lemma {:induction false} BranchesAreReadable(marks: seq<Option<string>>, ts: seq<Tree>)
    requires |marks| == |ts| && PlainMarks(marks) && Readable(BodyLines(ts))
    ensures Readable(BranchLines(marks, ts))
  {
    if ts != [] {
      ReadableConcat(Lines(ts[0]), BodyLines(ts[1..]));
      assert PlainMarks(marks[1..]) by {
        assert forall i :: 0 <= i < |marks[1..]| ==> marks[1..][i] == marks[i + 1];
      }
      BranchesAreReadable(marks[1..], ts[1..]);
      ReadableConcat(OptionalLine(marks[0]), Lines(ts[0]));
      ReadableConcat(OptionalLine(marks[0]) + Lines(ts[0]), BranchLines(marks[1..], ts[1..]));
    }
  }

  lemma {:induction false} BodyConcat(a: seq<Tree>, b: seq<Tree>)
    ensures BodyLines(a + b) == BodyLines(a) + BodyLines(b)
  {
    if a == [] {
      assert a + b == b;
    } else {
      assert (a + b)[1..] == a[1..] + b;
      BodyConcat(a[1..], b);
    }
  }

  lemma EnclosedIsReadable(head: string, more: seq<string>, close: string)
    requires Readable([head]) && Readable(more) && Trimmed(close) && close[0] != '#'
    ensures Readable([head] + more + [close])
  {
    ReadableConcat([head], more);
    ReadableConcat([head] + more, [close]);
  }

  lemma {:induction false} PrintedIsReadable(s: Source)
    requires Printable(s)
    ensures Readable(Lines(Print(s)))
    decreases s, 0
  {
    HeadIsReadable(s);
    match s
    case If(_, thn, els) =>
      PrintedAreReadable(thn);
      PrintedAreReadable(els);
      BodyConcat(PrintAll(thn), PrintAll(els));
      ReadableConcat(BodyLines(PrintAll(thn)), BodyLines(PrintAll(els)));
      MarksArePlain(|thn|, |els|);
      BranchesAreReadable(ElseMarks(|thn|, |els|), PrintAll(thn) + PrintAll(els));
      EnclosedIsReadable(HeadLine(s), BranchLines(ElseMarks(|thn|, |els|), PrintAll(thn) + PrintAll(els)), "ENDIF");
    case While(_, body) =>
      PrintedAreReadable(body);
      EnclosedIsReadable(HeadLine(s), BodyLines(PrintAll(body)), "ENDWHILE");
    case Foreach(_, _, body) =>
      PrintedAreReadable(body);
      EnclosedIsReadable(HeadLine(s), BodyLines(PrintAll(body)), "ENDFOREACH");
    case Query(_, _, text) =>
      TextIsReadable(text);
      EnclosedIsReadable(HeadLine(s), text, "ENDQUERY");
    case Assignment(_, _) =>
  }

  lemma {:induction false} PrintedAreReadable(ss: seq<Source>)
    requires AllPrintable(ss)
    ensures Readable(BodyLines(PrintAll(ss)))
    decreases ss, 1
  {
    if ss != [] {
      PrintedIsReadable(ss[0]);
      PrintedAreReadable(ss[1..]);
      assert PrintAll(ss)[1..] == PrintAll(ss[1..]);
      ReadableConcat(Lines(Print(ss[0])), BodyLines(PrintAll(ss[1..])));
    }
  }

  // ---- the action section ------------------------------------------------------------------

  lemma ActionLineCompiles(opens: Conn -> bool, ls: seq<string>, p: Program, a: Parsed<Code>)
    requires ls != [] && SectionOf(ls[0]) == None && CompileAction(Some(ls[0]), ls[1..], p.scope) == a && a.Ok?
    ensures CompileLines(opens, ActionModel, ls, p)
         == CompileLines(opens, ActionModel, a.rest, Program(a.scope, p.actions + [a.value]))
  {
  }

  lemma PrintedActionCompiles(opens: Conn -> bool, s: Source, rest: seq<string>, p: Program, b: Bound<Code>)
    requires Printable(s) && b == Bind(s, p.scope) && b.Bound?
    ensures CompileLines(opens, ActionModel, Lines(Print(s)) + rest, p)
         == CompileLines(opens, ActionModel, rest, Program(b.scope, p.actions + [b.value]))
  {
    ParserInvertsPrinter(s, rest, p.scope);
    HeadIsReadable(s);
    NoSection(HeadLine(s));
    ActionLineCompiles(opens, Lines(Print(s)) + rest, p, Ok(b.value, rest, b.scope));
  }

  lemma NoSection(line: string)
    requires line != "" && line[0] != '['
    ensures SectionOf(line) == None
  {
  }

  /** An action section of these lines ends with these actions and this scope. */
  ghost predicate CompilesTo(opens: Conn -> bool, ls: seq<string>, p: Program, actions: seq<Code>, sc: Scope)
  {
    CompileLines(opens, ActionModel, ls, p) == Ok(actions, [], sc)
  }

  lemma OneActionMore(opens: Conn -> bool, ss: seq<Source>, p: Program, p': Program, actions: seq<Code>, sc: Scope)
    requires ss != [] && Printable(ss[0]) && Bind(ss[0], p.scope).Bound?
    requires p' == Program(Bind(ss[0], p.scope).scope, p.actions + [Bind(ss[0], p.scope).value])
    requires CompilesTo(opens, BodyLines(PrintAll(ss[1..])), p', actions, sc)
    ensures CompilesTo(opens, BodyLines(PrintAll(ss)), p, actions, sc)
  {
    PrintedActionCompiles(opens, ss[0], BodyLines(PrintAll(ss[1..])), p, Bind(ss[0], p.scope));
    assert PrintAll(ss)[1..] == PrintAll(ss[1..]);
  }

  lemma {:induction false} PrintedActionsCompile(opens: Conn -> bool, ss: seq<Source>, p: Program)
    requires AllPrintable(ss) && BindAll(ss, p.scope).Bound?
    ensures CompilesTo(opens, BodyLines(PrintAll(ss)), p, p.actions + BindAll(ss, p.scope).value,
                       BindAll(ss, p.scope).scope)
    decreases |ss|
  {
    if ss == [] {
      assert p.actions + [] == p.actions;
    } else {
      var b := Bind(ss[0], p.scope);
      var p' := Program(b.scope, p.actions + [b.value]);
      var more := BindAll(ss[1..], b.scope);
      PrintedActionsCompile(opens, ss[1..], p');
      assert p'.actions + more.value == p.actions + ([b.value] + more.value);
      OneActionMore(opens, ss, p, p', p'.actions + more.value, more.scope);
    }
  }

  lemma {:induction false} ActionsOnlyGrow(opens: Conn -> bool, model: Model, ls: seq<string>, p: Program)
    requires CompileLines(opens, model, ls, p).Ok?
    ensures |CompileLines(opens, model, ls, p).value| >= |p.actions|
    decreases |ls|
  {
    if ls == [] {
    } else if SectionOf(ls[0]).Some? {
      ActionsOnlyGrow(opens, SectionOf(ls[0]).value, ls[1..], p);
    } else if model == Unset {
      ActionsOnlyGrow(opens, model, ls[1..], p);
    } else if model == DataSourceModel {
      ActionsOnlyGrow(opens, model, ls[1..], p.(scope := ConnectLine(opens, ls[0], p.scope).scope));
    } else if model == ParamModel {
      ActionsOnlyGrow(opens, model, ls[1..], p.(scope := DeclareLine(ls[0], p.scope).scope));
    } else {
      var a := CompileAction(Some(ls[0]), ls[1..], p.scope);
      ActionsOnlyGrow(opens, model, a.rest, Program(a.scope, p.actions + [a.value]));
    }
  }

  /** After declarations, and no actions, the action section starts with what they declared. */
  lemma {:induction false} SectionAfter(opens: Conn -> bool, model: Model, ls: seq<string>, more: seq<string>,
                                        p: Program)
    requires CompileLines(opens, model, ls, p).Ok? && |CompileLines(opens, model, ls, p).value| == |p.actions|
    ensures CompileLines(opens, model, ls + ["[ACTION]"] + more, p)
         == CompileLines(opens, ActionModel, more, p.(scope := CompileLines(opens, model, ls, p).scope))
    decreases |ls|
  {
    var all := ls + ["[ACTION]"] + more;
    if ls == [] {
      assert all == ["[ACTION]"] + more && all[1..] == more;
      assert SectionOf("[ACTION]") == Some(ActionModel) by {
        assert "[ACTION]"[1] == 'A';
      }
    } else {
      assert all[0] == ls[0] && all[1..] == ls[1..] + ["[ACTION]"] + more;
      if SectionOf(ls[0]).Some? {
        SectionAfter(opens, SectionOf(ls[0]).value, ls[1..], more, p);
      } else if model == Unset {
        SectionAfter(opens, model, ls[1..], more, p);
      } else if model == DataSourceModel {
        SectionAfter(opens, model, ls[1..], more, p.(scope := ConnectLine(opens, ls[0], p.scope).scope));
      } else if model == ParamModel {
        SectionAfter(opens, model, ls[1..], more, p.(scope := DeclareLine(ls[0], p.scope).scope));
      } else {
        var a := CompileAction(Some(ls[0]), ls[1..], p.scope);
        ActionsOnlyGrow(opens, model, a.rest, Program(a.scope, p.actions + [a.value]));
      }
    }
  }

  /** Printing a program into a file and compiling the file gives the program back: after any lines
      that only declare names and connections, the header of the action section and the printed
      actions, the compiled actions are exactly those printed, with their names resolved. */
  lemma CompilerInvertsPrinter(opens: Conn -> bool, declarations: seq<string>, ss: seq<Source>)
    requires CompileFile(opens, declarations).Ok? && CompileFile(opens, declarations).value == []
    requires AllPrintable(ss) && BindAll(ss, CompileFile(opens, declarations).scope).Bound?
    ensures var b := BindAll(ss, CompileFile(opens, declarations).scope);
            CompileFile(opens, declarations + ["[ACTION]"] + BodyLines(PrintAll(ss))) == Ok(b.value, [], b.scope)
  {
    var ls, more := Meaningful(declarations), BodyLines(PrintAll(ss));
    var sc := CompileFile(opens, declarations).scope;
    PrintedAreReadable(ss);
    ReadableIsRead(more);
    ReadableIsRead(["[ACTION]"]);
    MeaningfulConcat(declarations + ["[ACTION]"], more);
    MeaningfulConcat(declarations, ["[ACTION]"]);
    SectionAfter(opens, Unset, ls, more, Program(EMPTY_SCOPE, []));
    PrintedActionsCompile(opens, ss, Program(sc, []));
    assert [] + BindAll(ss, sc).value == BindAll(ss, sc).value;
  }
}
