/** What the lines of the two declaration sections declare. */
module Declarations {
  import opened Wrappers
  import opened Text
  import opened Syntax
  import opened Compiling
  import opened Printing
  import opened Operands

  // ---- types ----------------------------------------------------------------------------------

  function NameOf(t: DataType): string
  {
    match t
    case StringType => "string"
    case TableType => "table"
    case IntType => "int"
    case LongType => "long"
    case DoubleType => "double"
  }

  /** Two characters that are the same, but for the case of a letter. */
  predicate SameLetter(c: char, lower: char)
  {
    c == lower || ('A' <= c <= 'Z' && c as int + ('a' as int - 'A' as int) == lower as int)
  }

  predicate SameLetters(s: string, lower: string)
  {
    |s| == |lower| && forall i :: 0 <= i < |s| ==> SameLetter(s[i], lower[i])
  }

  predicate IsLower(s: string) { forall i :: 0 <= i < |s| ==> 'a' <= s[i] <= 'z' }

  lemma {:induction false} LowerIsSame(s: string, lower: string)
    requires IsLower(lower)
    ensures ToLower(s) == lower <==> SameLetters(s, lower)
  {
    if s != "" && lower != "" {
      var rest, more := s[1..], lower[1..];
      LowerIsSame(rest, more);
      assert s == [s[0]] + rest && lower == [lower[0]] + more;
      assert SameLetters(s, lower) <==> SameLetter(s[0], lower[0]) && SameLetters(rest, more) by {
        if SameLetters(s, lower) {
          assert forall i :: 0 <= i < |rest| ==>
              rest[i] == s[i + 1] && more[i] == lower[i + 1] && SameLetter(s[i + 1], lower[i + 1]);
        }
        if SameLetter(s[0], lower[0]) && SameLetters(rest, more) {
          assert forall i :: 0 < i < |s| && |s| == |lower| ==> s[i] == rest[i - 1] && lower[i] == more[i - 1];
        }
      }
      assert (ToLower(s) == lower) <==> Lower(s[0]) == lower[0] && ToLower(rest) == more;
    }
  }

  /** A type is named by its name, in whatever case and with whatever margins, and by nothing else. */
  lemma TypeIsNamedExactly(name: string, t: DataType)
    ensures ParseType(name) == Some(t) <==> SameLetters(Trim(name), NameOf(t))
  {
    LowerIsSame(Trim(name), NameOf(t));
    NamesDiffer(t);
  }

  lemma NamesDiffer(t: DataType)
    ensures forall u: DataType :: NameOf(u) == NameOf(t) ==> u == t
  {
    assert "string"[0] == 's' && "table"[0] == 't' && "int"[0] == 'i' && "long"[0] == 'l' && "double"[0] == 'd';
  }

  // ---- names ------------------------------------------------------------------------------------

  lemma TwoWords(a: string, sep: string, b: string, w: string)
    requires sep != "" && ' ' !in sep && IsWord(a, sep)
    requires Trimmed(b) && Trim(w) == b && w != "" && w[|w| - 1] == b[|b| - 1] && Clear(w, |w|, sep)
    ensures TrimSplit(a + " " + sep + w, sep) == [a, b]
  {
    TrimWhole(a);
    ClearPadded(a, sep);
    ReadsTwo(a, a + " ", sep, b, w);
  }

  /** A new Param of this type stands under the name, whatever stood there, and nothing else has changed. */
  ghost predicate Declares(sc: Scope, name: string, t: DataType, r: Scope)
  {
    && name in r.paramMap && r.paramMap[name] !in sc.cells
    && r.cells == sc.cells[r.paramMap[name] := Param(t, Null)]
    && r.paramMap == sc.paramMap[name := r.paramMap[name]]
    && r.conns == sc.conns
  }

  /** A line of the parameter section declares its name, with the type named, and no value. */
  lemma DeclarationDeclares(name: string, typeName: string, t: DataType, sc: Scope)
    requires sc.Valid() && IsWord(name, "TYPEAS") && name[0] == '@' && IsWord(typeName, "TYPEAS")
    requires SameLetters(typeName, NameOf(t))
    ensures var r := DeclareLine(name + " TYPEAS " + typeName, sc); r.Ok? && Declares(sc, name, t, r.scope)
  {
    DeclarationIsRead(name, typeName, t, sc);
    TrimWhole(name);
  }

  lemma DeclarationIsRead(name: string, typeName: string, t: DataType, sc: Scope)
    requires IsWord(name, "TYPEAS") && name[0] == '@' && IsWord(typeName, "TYPEAS") && SameLetters(typeName, NameOf(t))
    ensures DeclareLine(name + " TYPEAS " + typeName, sc) == Ok((), [], sc.Declare(name, t))
    ensures Trim(name + " TYPEAS " + typeName) == name + " TYPEAS " + typeName
  {
    var line := name + " TYPEAS " + typeName;
    TrimWhole(typeName);
    ClearPadded(typeName, "TYPEAS");
    TwoWords(name, "TYPEAS", typeName, " " + typeName);
    assert name + " " + "TYPEAS" + (" " + typeName) == line;
    assert line[0] == '@' && line[|line| - 1] == typeName[|typeName| - 1];
    TrimWhole(line);
    TypeIsNamedExactly(typeName, t);
  }

  // ---- connections --------------------------------------------------------------------------------

  /** A line of the data source section puts a connection, with its address and then its driver, under the
      name, if it can be opened; otherwise the file is refused. */
  lemma ConnectionConnects(opens: Conn -> bool, name: string, url: string, driver: string, sc: Scope)
    requires IsOperand(name) && IsOperand(url) && IsOperand(driver)
    ensures ConnectLine(opens, name + " " + url + " " + driver, sc)
         == if opens(Conn(url, driver)) then Ok((), [], sc.(conns := sc.conns[name := Conn(url, driver)]))
            else Err(NoConnection)
  {
    TestIsSplit(name, url, driver);
    assert Test(name, url, driver) == name + " " + url + " " + driver;
    TrimWhole(name);
    TrimWhole(url);
    TrimWhole(driver);
  }

  // ---- sections -------------------------------------------------------------------------------------

  lemma HeadersAre()
    ensures SectionOf("[DATASOURCE]") == Some(DataSourceModel) && SectionOf("[PARAM]") == Some(ParamModel)
    ensures SectionOf("[ACTION]") == Some(ActionModel)
  {
    assert "[DATASOURCE]"[1] == 'D' && "[PARAM]"[1] == 'P' && "[ACTION]"[1] == 'A';
  }

  /** A line starts a section if and only if it starts with its header. */
  lemma SectionsAreHeaders(line: string)
    ensures SectionOf(line) == Some(DataSourceModel) <==> StartsWith(line, "[DATASOURCE]")
    ensures SectionOf(line) == Some(ParamModel) <==> StartsWith(line, "[PARAM]")
    ensures SectionOf(line) == Some(ActionModel) <==> StartsWith(line, "[ACTION]")
    ensures SectionOf(line) != Some(Unset)
  {
    assert "[DATASOURCE]"[1] == 'D' && "[PARAM]"[1] == 'P' && "[ACTION]"[1] == 'A';
  }

  /** In a data source section a line that names a connection, and in a parameter section a line that names a
      parameter, declare these for the lines that follow. */
  lemma SectionsDeclare(opens: Conn -> bool, model: Model, ls: seq<string>, p: Program,
                        name: string, url: string, driver: string, param: string, typeName: string, t: DataType)
    requires |ls| >= 4 && ls[0] == "[DATASOURCE]" && ls[1] == name + " " + url + " " + driver
    requires ls[2] == "[PARAM]" && ls[3] == param + " TYPEAS " + typeName
    requires IsOperand(name) && IsOperand(url) && IsOperand(driver) && name[0] != '[' && opens(Conn(url, driver))
    requires IsWord(param, "TYPEAS") && param[0] == '@' && IsWord(typeName, "TYPEAS")
    requires SameLetters(typeName, NameOf(t))
    ensures var sc := p.scope.(conns := p.scope.conns[name := Conn(url, driver)]).Declare(param, t);
            CompileLines(opens, model, ls, p) == CompileLines(opens, ParamModel, ls[4..], p.(scope := sc))
  {
    HeadersAre();
    var connected := p.(scope := p.scope.(conns := p.scope.conns[name := Conn(url, driver)]));
    ConnectionConnects(opens, name, url, driver, p.scope);
    DeclarationIsRead(param, typeName, t, connected.scope);
    assert ls[1][0] == name[0] && ls[3][0] == '@';
    LineByLine(opens, model, ls, DataSourceModel, DataSourceModel, ParamModel, ParamModel, p, p, connected, connected,
               connected.(scope := connected.scope.Declare(param, t)));
  }

  lemma LineByLine(opens: Conn -> bool, m0: Model, ls: seq<string>, m1: Model, m2: Model, m3: Model, m4: Model,
                   p0: Program, p1: Program, p2: Program, p3: Program, p4: Program)
    requires |ls| >= 4 && Leads(opens, m0, ls[0], p0, m1, p1) && Leads(opens, m1, ls[1], p1, m2, p2)
    requires Leads(opens, m2, ls[2], p2, m3, p3) && Leads(opens, m3, ls[3], p3, m4, p4)
    ensures CompileLines(opens, m0, ls, p0) == CompileLines(opens, m4, ls[4..], p4)
  {
    OneLine(opens, m0, ls, ls[1..], p0, m1, p1);
    OneLine(opens, m1, ls[1..], ls[2..], p1, m2, p2);
    OneLine(opens, m2, ls[2..], ls[3..], p2, m3, p3);
    OneLine(opens, m3, ls[3..], ls[4..], p3, m4, p4);
  }

  /** A line leads from one section and what is declared so far to another. */
  ghost predicate Leads(opens: Conn -> bool, model: Model, line: string, p: Program, model': Model, p': Program)
  {
    match SectionOf(line)
    case Some(m) => model' == m && p' == p
    case None =>
      && model' == model && p' == p.(scope := p'.scope)
      && match model
         case DataSourceModel => ConnectLine(opens, line, p.scope) == Ok((), [], p'.scope)
         case ParamModel => DeclareLine(line, p.scope) == Ok((), [], p'.scope)
         case _ => false
  }

  lemma OneLine(opens: Conn -> bool, model: Model, ls: seq<string>, rest: seq<string>, p: Program, model': Model,
                p': Program)
    requires ls != [] && rest == ls[1..] && Leads(opens, model, ls[0], p, model', p')
    ensures CompileLines(opens, model, ls, p) == CompileLines(opens, model', rest, p')
  {
  }
}
