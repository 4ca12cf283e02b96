/** A printer for source trees, and the proof that the compiler undoes it. */
module Printing {
  import opened Wrappers
  import opened Text
  import opened Reading
  import opened Syntax
  import opened Compiling
  import opened Grammar

  // ---- what can be written down --------------------------------------------------

  predicate IsCond(cond: string) { cond == "" || Trimmed(cond) }

  /** A word that splitting at `sep` leaves whole. */
  predicate IsWord(w: string, sep: string)
    requires sep != ""
  {
    Trimmed(w) && Clear(w, |w|, sep)
  }

  predicate IsParams(ps: seq<string>)
  {
    ps == [] || (IsWord(ps[0], " ") && IsWord(ps[0], ",") && IsParams(ps[1..]))
  }

  predicate IsQueryText(text: seq<string>)
  {
    text == [] || (Trimmed(text[0]) && text[0][0] != '#' && IsQueryText(text[1..]))
  }

  /** The trees the notation has words for. */
  predicate Printable(s: Source)
    decreases s
  {
    match s
    case If(cond, thn, els) => IsCond(cond) && AllPrintable(thn) && AllPrintable(els)
    case While(cond, body) => IsCond(cond) && AllPrintable(body)
    case Foreach(table, params, body) => IsWord(table, " ") && IsParams(params) && AllPrintable(body)
    case Query(conn, target, text) =>
      && IsWord(conn, "AS") && (target.Some? ==> IsWord(target.value, "AS"))
      && IsQueryText(text) && NoEndQuery(text)
    case Assignment(param, value) => IsWord(param, "=") && param[0] == '@' && IsWord(value, "=")
  }

  predicate AllPrintable(ss: seq<Source>)
    decreases ss
  {
    ss == [] || (Printable(ss[0]) && AllPrintable(ss[1..]))
  }

  // ---- the printer ---------------------------------------------------------------

  function Words(keyword: string, arg: string): string
  {
    if arg == "" then keyword else keyword + " " + arg
  }

  function ParamText(params: seq<string>): string
  {
    if params == [] then "," else Join(params, ",")
  }

  function HeadLine(s: Source): string
  {
    match s
    case If(cond, _, _) => Words("IF", cond)
    case While(cond, _) => Words("WHILE", cond)
    case Foreach(table, params, _) => "FOREACH " + table + " " + ParamText(params)
    case Query(conn, target, _) => "QUERY " + conn + (if target.Some? then " AS " + target.value else "")
    case Assignment(param, value) => param + " = " + value
  }

  /** ELSE is written only before a non-empty else branch. */
  function ElseMarks(thn: nat, els: nat): (marks: seq<Option<string>>)
    ensures |marks| == thn + els && ElseLines(marks)
    ensures els == 0 || thn <= |marks|
    decreases thn + els
  {
    if thn > 0 then [None] + ElseMarks(thn - 1, els)
    else if els > 0 then [Some("ELSE")] + NoMarks(els - 1)
    else []
  }

  function NoMarks(n: nat): (marks: seq<Option<string>>)
    ensures |marks| == n && ElseLines(marks)
  {
    if n == 0 then [] else [None] + NoMarks(n - 1)
  }

  function Print(s: Source): (t: Tree)
    ensures t.head == HeadLine(s)
    decreases s
  {
    match s
    case If(_, thn, els) => TIf(HeadLine(s), PrintAll(thn) + PrintAll(els), ElseMarks(|thn|, |els|), "ENDIF")
    case While(_, body) => TWhile(HeadLine(s), PrintAll(body), "ENDWHILE")
    case Foreach(_, _, body) => TForeach(HeadLine(s), PrintAll(body), "ENDFOREACH")
    case Query(_, _, text) => TQuery(HeadLine(s), text, "ENDQUERY")
    case Assignment(_, _) => TAssign(HeadLine(s))
  }

  function PrintAll(ss: seq<Source>): (ts: seq<Tree>)
    ensures |ts| == |ss|
    decreases ss
  {
    if ss == [] then [] else [Print(ss[0])] + PrintAll(ss[1..])
  }

  // ---- reading printed head lines ---------------------------------------------------

  lemma TrimWhole(s: string)
    requires Trimmed(s)
    ensures Trim(s) == s && Trim(" " + s) == s && Trim(s + " ") == s
  {
    TrimPadded("", s, "");
    TrimPadded(" ", s, "");
    TrimPadded("", s, " ");
    assert "" + s + "" == s && " " + s + "" == " " + s && "" + s + " " == s + " ";
  }

  lemma ReadsKeyword(keyword: string, cond: string)
    requires IsCond(cond) && keyword != ""
    ensures keyword <= Words(keyword, cond) && Words(keyword, cond)[0] == keyword[0]
    ensures Words(keyword, cond)[..|keyword|] == keyword && Trim(Words(keyword, cond)[|keyword|..]) == cond
  {
    if cond == "" {
    } else {
      assert Words(keyword, cond)[|keyword|..] == " " + cond;
      TrimWhole(cond);
    }
  }

  lemma {:induction false} JoinIsTrimmed(ps: seq<string>)
    requires ps != [] && IsParams(ps)
    ensures Trimmed(Join(ps, ","))
    ensures Clear(Join(ps, ","), |Join(ps, ",")|, " ")
    ensures Pieces(Join(ps, ","), ",") == ps
  {
    var s := Join(ps, ",");
    if |ps| == 1 {
      PiecesWhole(s, ",");
    } else {
      var more := Join(ps[1..], ",");
      JoinIsTrimmed(ps[1..]);
      assert s == ps[0] + "," + more;
      forall i | 0 <= i < |s| ensures !(" " <= s[i..]) {
        if i < |ps[0]| {
          assert !(" " <= ps[0][i..]);
        } else if i > |ps[0]| {
          assert s[i..] == more[i - |ps[0]| - 1..];
        }
      }
      forall i | 0 <= i < |ps[0]| ensures !("," <= s[i..]) {
        assert !("," <= ps[0][i..]);
      }
      PiecesCut(ps[0], ",", more);
    }
  }

  lemma {:induction false} TrimAllWhole(ps: seq<string>)
    requires forall i :: 0 <= i < |ps| ==> Trimmed(ps[i])
    ensures TrimAll(ps) == ps
  {
    if ps != [] {
      TrimWhole(ps[0]);
      TrimAllWhole(ps[1..]);
    }
  }

  lemma {:induction false} ParamsAreTrimmed(ps: seq<string>)
    requires IsParams(ps)
    ensures forall i :: 0 <= i < |ps| ==> Trimmed(ps[i])
  {
    if ps != [] {
      ParamsAreTrimmed(ps[1..]);
    }
  }

  lemma ReadsParams(params: seq<string>)
    requires IsParams(params)
    ensures IsWord(ParamText(params), " ") && TrimSplit(ParamText(params), ",") == params
  {
    var s := ParamText(params);
    if params == [] {
      TrimWhole(s);
      PiecesCut("", ",", "");
      assert "" + "," + "" == ",";
      TrimBlank("");
      assert TrimAll(["", ""]) == TrimAll([""]);
    } else {
      JoinIsTrimmed(params);
      TrimWhole(s);
      ParamsAreTrimmed(params);
      TrimAllWhole(params);
    }
  }

  /** No occurrence of the separator straddles the end of `u`. */
  lemma ClearUpToSeparator(u: string, sep: string, w: string)
    requires sep != "" && Clear(u, |u|, sep)
    requires |sep| == 1 || (u != "" && u[|u| - 1] !in sep)
    ensures Clear(u + sep + w, |u|, sep)
  {
    var s := u + sep + w;
    forall i | 0 <= i < |u| ensures !(sep <= s[i..]) {
      if i + |sep| <= |u| {
        var end := i + |sep|;
        assert s[..|u|] == u && s[i..end] == s[..|u|][i..end] == u[i..end];
        assert s[i..][..|sep|] == s[i..end] && u[i..][..|sep|] == u[i..end];
        assert !(sep <= u[i..]);
      } else {
        var k := |u| - 1 - i;
        assert s[i..][k] == s[i + k] == u[|u| - 1];
        assert 0 <= k < |sep| && sep[k] in sep;
        assert sep[k] != s[i..][k];
      }
    }
  }

  lemma ClearPadded(a: string, sep: string)
    requires sep != "" && ' ' !in sep && Clear(a, |a|, sep)
    ensures Clear(a + " ", |a| + 1, sep) && Clear(" " + a, |a| + 1, sep)
  {
    forall i | 0 <= i < |a| + 1 ensures !(sep <= (a + " ")[i..]) && !(sep <= (" " + a)[i..]) {
      var s, t := a + " ", " " + a;
      if i + |sep| <= |a| {
        assert s[i..][..|sep|] == a[i..][..|sep|];
        assert !(sep <= a[i..]);
      } else if i + |sep| == |a| + 1 {
        assert s[i..][|sep| - 1] == ' ' && sep[|sep| - 1] != ' ';
      }
      if i > 0 {
        assert t[i..] == a[i - 1..];
      } else {
        assert t[0..][0] == ' ';
      }
    }
  }

  /** Splitting finds two words again, `u` and `w` being the words with their margins. */
  lemma ReadsTwo(a: string, u: string, sep: string, b: string, w: string)
    requires sep != "" && Clear(u, |u|, sep) && Clear(w, |w|, sep)
    requires |sep| == 1 || (u != "" && u[|u| - 1] !in sep)
    requires Trimmed(a) && Trimmed(b) && a <= u && |u| <= |w| + |u| && w != "" && w[|w| - 1] == b[|b| - 1]
    requires Trim(u) == a && Trim(w) == b
    ensures TrimSplit(u + sep + w, sep) == [a, b]
  {
    var v := u + sep + w;
    assert v[0] == a[0] && v[|v| - 1] == b[|b| - 1];
    TrimWhole(v);
    ClearUpToSeparator(u, sep, w);
    PiecesCut(u, sep, w);
    PiecesWhole(w, sep);
    assert TrimAll([w]) == [b] by {
      assert [w][1..] == [];
    }
    assert ([u] + [w])[1..] == [w];
  }

  lemma ReadsOne(a: string, sep: string)
    requires sep != "" && IsWord(a, sep)
    ensures TrimSplit(a, sep) == [a]
  {
    TrimWhole(a);
    PiecesWhole(a, sep);
    TrimAllWhole([a]);
  }

  lemma ReadsPrintedHead(s: Source)
    requires Printable(s)
    ensures match s
            case If(cond, _, _) => ReadHead(HeadLine(s)) == HeadIf(cond)
            case While(cond, _) => ReadHead(HeadLine(s)) == HeadWhile(cond)
            case Foreach(table, params, _) => ReadHead(HeadLine(s)) == HeadForeach(table, params)
            case Query(conn, target, _) => ReadHead(HeadLine(s)) == HeadQuery(conn, target)
            case Assignment(param, value) => ReadHead(HeadLine(s)) == HeadAssign(param, value)
  {
    match s
    case If(cond, _, _) => ReadsKeyword("IF", cond);
    case While(cond, _) => ReadsKeyword("WHILE", cond);
    case Foreach(table, params, _) =>
      ReadsParams(params);
      ReadsForeach(table, params, ParamText(params), HeadLine(s));
    case Query(conn, target, _) => ReadsQuery(conn, target, HeadLine(s));
    case Assignment(param, value) => ReadsAssign(param, value, HeadLine(s));
  }

  lemma ReadsForeach(table: string, params: seq<string>, text: string, line: string)
    requires IsWord(table, " ") && IsWord(text, " ") && TrimSplit(text, ",") == params
    requires line == "FOREACH " + table + " " + text
    ensures ReadHead(line) == HeadForeach(table, params)
  {
    assert line[0] == 'F' && "FOREACH" <= line && line[7..] == " " + (table + " " + text);
    SplitsForeach(table, text);
    assert TrimSplit(Trim(line[7..]), " ") == [table, text];
  }

  lemma SplitsForeach(table: string, text: string)
    requires IsWord(table, " ") && IsWord(text, " ")
    ensures TrimSplit(Trim(" " + (table + " " + text)), " ") == [table, text]
  {
    TrimWhole(table);
    TrimWhole(text);
    ReadsTwo(table, table, " ", text, text);
    var v := table + " " + text;
    assert v[0] == table[0] && v[|v| - 1] == text[|text| - 1];
    TrimWhole(v);
  }

  lemma ReadsQuery(conn: string, target: Option<string>, line: string)
    requires IsWord(conn, "AS") && (target.Some? ==> IsWord(target.value, "AS"))
    requires line == "QUERY " + conn + (if target.Some? then " AS " + target.value else "")
    ensures ReadHead(line) == HeadQuery(conn, target)
  {
    if target == None {
      assert line == "QUERY " + conn;
      assert line[0] == 'Q' && "QUERY" <= line && line[5..] == " " + conn;
      TrimWhole(conn);
      ReadsOne(conn, "AS");
      assert TrimSplit(" " + conn, "AS") == TrimSplit(conn, "AS");
    } else {
      assert line[0] == 'Q' && "QUERY" <= line && line[5..] == " " + (conn + " AS " + target.value);
      SplitsQuery(conn, target.value);
      assert TrimSplit(line[5..], "AS") == [conn, target.value];
    }
  }

  lemma SplitsQuery(conn: string, name: string)
    requires IsWord(conn, "AS") && IsWord(name, "AS")
    ensures TrimSplit(" " + (conn + " AS " + name), "AS") == [conn, name]
  {
    TrimWhole(conn);
    TrimWhole(name);
    ClearPadded(conn, "AS");
    ClearPadded(name, "AS");
    ReadsTwo(conn, conn + " ", "AS", name, " " + name);
    var v := conn + " AS " + name;
    assert v == (conn + " ") + "AS" + (" " + name);
    assert v[0] == conn[0] && v[|v| - 1] == name[|name| - 1];
    TrimWhole(v);
  }

  lemma ReadsAssign(param: string, value: string, line: string)
    requires IsWord(param, "=") && param[0] == '@' && IsWord(value, "=") && line == param + " = " + value
    ensures ReadHead(line) == HeadAssign(param, value)
  {
    TrimWhole(param);
    TrimWhole(value);
    AssignSplits(param, value, line);
    assert line[0] == '@';
  }

  lemma AssignSplits(param: string, value: string, line: string)
    requires IsWord(param, "=") && IsWord(value, "=") && line == param + " = " + value
    ensures TrimSplit(line, "=") == [param, value]
  {
    TrimWhole(param);
    TrimWhole(value);
    ClearPadded(param, "=");
    ClearPadded(value, "=");
    assert line == (param + " ") + "=" + (" " + value);
    ReadsTwo(param, param + " ", "=", value, " " + value);
  }

  // ---- printing and compiling are inverse ---------------------------------------------

  lemma {:induction false} AllWellNestedConcat(ss: seq<Tree>, ts: seq<Tree>)
    requires AllWellNested(ss) && AllWellNested(ts)
    ensures AllWellNested(ss + ts) && AbstractAll(ss + ts) == AbstractAll(ss) + AbstractAll(ts)
  {
    if ss == [] {
      assert ss + ts == ts;
    } else {
      assert (ss + ts)[1..] == ss[1..] + ts;
      AllWellNestedConcat(ss[1..], ts);
    }
  }

  lemma {:induction false} ElseMarksSplit(thn: nat, els: nat)
    ensures ThenCount(ElseMarks(thn, els)) == thn
  {
    if thn > 0 {
      ElseMarksSplit(thn - 1, els);
    }
  }

  /** The printed text of a tree is well nested and stands for that very tree. */
  lemma {:induction false} PrintedIsWellNested(s: Source)
    requires Printable(s)
    ensures WellNested(Print(s)) && Abstract(Print(s)) == s
    decreases s
  {
    ReadsPrintedHead(s);
    match s
    case If(_, thn, els) =>
      PrintedAreWellNested(thn);
      PrintedAreWellNested(els);
      AllWellNestedConcat(PrintAll(thn), PrintAll(els));
      ElseMarksSplit(|thn|, |els|);
      assert (thn + els)[..|thn|] == thn && (thn + els)[|thn|..] == els;
    case While(_, body) => PrintedAreWellNested(body);
    case Foreach(_, _, body) => PrintedAreWellNested(body);
    case Query(_, _, _) =>
    case Assignment(_, _) =>
  }

  lemma {:induction false} PrintedAreWellNested(ss: seq<Source>)
    requires AllPrintable(ss)
    ensures AllWellNested(PrintAll(ss)) && AbstractAll(PrintAll(ss)) == ss
    decreases ss
  {
    if ss != [] {
      PrintedIsWellNested(ss[0]);
      PrintedAreWellNested(ss[1..]);
      assert PrintAll(ss)[1..] == PrintAll(ss[1..]);
    }
  }

  lemma TreeIsParsed(t: Tree, b: Bound<Code>, ls: seq<string>, rest: seq<string>, sc: Scope)
    requires WellNested(t) && b == Bind(Abstract(t), sc) && b.Bound? && ls == Lines(t) + rest && ls != []
    ensures CompileAction(Some(ls[0]), ls[1..], sc) == Ok(b.value, rest, b.scope)
  {
    assert [ls[0]] + ls[1..] == ls;
    TreeIsAccepted(t, ls[0], ls[1..], sc, b.value, rest, b.scope);
  }

  /** Compiling the printed lines of a tree, whatever lines follow, gives that tree with its
      names resolved and leaves exactly the following lines unread. */
  lemma ParserInvertsPrinter(s: Source, rest: seq<string>, sc: Scope)
    requires Printable(s) && Bind(s, sc).Bound?
    ensures var ls := Lines(Print(s)) + rest;
            CompileAction(Some(ls[0]), ls[1..], sc) == Ok(Bind(s, sc).value, rest, Bind(s, sc).scope)
  {
    PrintedIsWellNested(s);
    TreeIsParsed(Print(s), Bind(s, sc), Lines(Print(s)) + rest, rest, sc);
  }
}
