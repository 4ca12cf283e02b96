/** Whole LQL files: what compiling and then running one does. */
module WholeFile {
  import opened Wrappers
  import opened Text
  import opened Reading
  import opened Syntax
  import opened Substitution
  import opened Analyizing
  import opened Grammar
  import opened Meaning
  import Compiling
  import Interpreting

  // ---- names that are declared again ------------------------------------------------------

  ghost predicate NoRedeclaration(names: seq<string>)
  {
    forall i, j :: 0 <= i < j < |names| ==> names[i] != names[j]
  }

  /** Of the names declared, in order, this one is among the first `k` and comes again after them. */
  ghost predicate DeclaredAgain(n: string, names: seq<string>, k: nat)
  {
    k <= |names| && n in names[..k] && n in names[k..]
  }

  ghost predicate NoneAgain(ns: seq<string>, names: seq<string>, k: nat)
  {
    ns == [] || (!DeclaredAgain(ns[0], names, k) && NoneAgain(ns[1..], names, k))
  }

  /** How many names an action declares: the targets of its queries. */
  function Declarations(s: Source): nat
    decreases s
  {
    match s
    case If(_, thn, els) => AllDeclarations(thn) + AllDeclarations(els)
    case While(_, body) => AllDeclarations(body)
    case Foreach(_, _, body) => AllDeclarations(body)
    case Query(_, target, _) => if target.Some? then 1 else 0
    case Assignment(_, _) => 0
  }

  function AllDeclarations(ss: seq<Source>): nat
    decreases ss
  {
    if ss == [] then 0 else Declarations(ss[0]) + AllDeclarations(ss[1..])
  }

  /** No name that the action assigns to or iterates over is declared again after it is used there; `k`
      of the names are declared before the action. */
  ghost predicate KeepsTargets(s: Source, names: seq<string>, k: nat)
    decreases s
  {
    match s
    case If(_, thn, els) => AllKeepTargets(thn, names, k) && AllKeepTargets(els, names, k + AllDeclarations(thn))
    case While(_, body) => AllKeepTargets(body, names, k)
    case Foreach(table, params, body) =>
      !DeclaredAgain(table, names, k) && NoneAgain(params, names, k) && AllKeepTargets(body, names, k)
    case Query(_, target, _) => target.Some? ==> !DeclaredAgain(target.value, names, k + 1)
    case Assignment(param, _) => !DeclaredAgain(param, names, k)
  }

  ghost predicate AllKeepTargets(ss: seq<Source>, names: seq<string>, k: nat)
    decreases ss
  {
    ss == [] || (KeepsTargets(ss[0], names, k) && AllKeepTargets(ss[1..], names, k + Declarations(ss[0])))
  }

  lemma NeverAgain(n: string, names: seq<string>, k: nat)
    requires NoRedeclaration(names)
    ensures !DeclaredAgain(n, names, k)
  {
  }

  lemma {:induction false} NoneEverAgain(ns: seq<string>, names: seq<string>, k: nat)
    requires NoRedeclaration(names)
    ensures NoneAgain(ns, names, k)
  {
    if ns != [] {
      NeverAgain(ns[0], names, k);
      NoneEverAgain(ns[1..], names, k);
    }
  }

  lemma {:induction false} DistinctKeepsTargets(s: Source, names: seq<string>, k: nat)
    requires NoRedeclaration(names)
    ensures KeepsTargets(s, names, k)
    decreases s
  {
    match s
    case If(_, thn, els) =>
      AllDistinctKeepTargets(thn, names, k);
      AllDistinctKeepTargets(els, names, k + AllDeclarations(thn));
    case While(_, body) => AllDistinctKeepTargets(body, names, k);
    case Foreach(table, params, body) =>
      NeverAgain(table, names, k);
      NoneEverAgain(params, names, k);
      AllDistinctKeepTargets(body, names, k);
    case Query(_, target, _) => if target.Some? { NeverAgain(target.value, names, k + 1); }
    case Assignment(param, _) => NeverAgain(param, names, k);
  }

  lemma {:induction false} AllDistinctKeepTargets(ss: seq<Source>, names: seq<string>, k: nat)
    requires NoRedeclaration(names)
    ensures AllKeepTargets(ss, names, k)
    decreases ss
  {
    if ss != [] {
      DistinctKeepsTargets(ss[0], names, k);
      AllDistinctKeepTargets(ss[1..], names, k + Declarations(ss[0]));
    }
  }

  /** `f` is reached from `sc` by further declarations. */
  ghost predicate Precedes(sc: Scope, f: Scope)
  {
    sc.Valid() && f.Valid() && sc.names <= f.names
  }

  /** What a name denotes where it stands is what it denotes in the end, exactly if it is not declared
      again. */
  lemma DenotesInTheEnd(sc: Scope, f: Scope, n: string)
    requires Precedes(sc, f) && sc.Lookup(n).Some?
    ensures f.Lookup(n) == sc.Lookup(n) <==> !DeclaredAgain(n, f.names, |sc.names|)
  {
    var k, r := |sc.names|, sc.paramMap[n];
    assert f.names[..k] == sc.names && f.names[r] == n;
    var r' := f.paramMap[n];
    assert r <= r' && f.names[r'] == n;
    if r' < k {
      assert sc.names[r'] == n;
    } else {
      assert f.names[k..][r' - k] == n;
    }
  }

  lemma {:induction false} AllDenoteInTheEnd(sc: Scope, f: Scope, ns: seq<string>)
    requires Precedes(sc, f) && sc.LookupAll(ns).Some?
    ensures DenoteAll(f, ns, sc.LookupAll(ns).value) <==> NoneAgain(ns, f.names, |sc.names|)
  {
    if ns != [] {
      DenotesInTheEnd(sc, f, ns[0]);
      AllDenoteInTheEnd(sc, f, ns[1..]);
      LookupLengths(sc, ns);
      assert sc.LookupAll(ns).value[1..] == sc.LookupAll(ns[1..]).value;
    }
  }

  lemma {:induction false} LookupLengths(sc: Scope, ns: seq<string>)
    requires sc.LookupAll(ns).Some?
    ensures |sc.LookupAll(ns).value| == |ns|
  {
    if ns != [] {
      LookupLengths(sc, ns[1..]);
    }
  }

  lemma DeclareKeeps(sc: Scope, name: string, t: DataType)
    requires sc.Valid()
    ensures var sc' := sc.Declare(name, t);
            && sc'.Valid() && sc.names <= sc'.names && |sc'.names| == |sc.names| + 1 && sc'.conns == sc.conns
            && sc'.Lookup(Trim(name)) == Some(|sc.names|)
  {
  }

  // ---- binding ties code to its source ---------------------------------------------------

  lemma {:induction false} BindKeeps(s: Source, sc: Scope)
    requires sc.Valid() && Bind(s, sc).Bound?
    ensures var sc' := Bind(s, sc).scope;
            sc'.Valid() && sc.names <= sc'.names && sc'.conns == sc.conns && |sc'.names| == |sc.names| + Declarations(s)
    decreases s, 0
  {
    match s
    case If(_, thn, els) =>
      BindAllKeeps(thn, sc);
      BindAllKeeps(els, BindAll(thn, sc).scope);
    case While(_, body) => BindAllKeeps(body, sc);
    case Foreach(_, _, body) => BindAllKeeps(body, sc);
    case Query(_, target, _) => if target.Some? { DeclareKeeps(sc, target.value, TableType); }
    case Assignment(_, _) =>
  }

  lemma {:induction false} BindAllKeeps(ss: seq<Source>, sc: Scope)
    requires sc.Valid() && BindAll(ss, sc).Bound?
    ensures var sc' := BindAll(ss, sc).scope;
            && sc'.Valid() && sc.names <= sc'.names && sc'.conns == sc.conns
            && |sc'.names| == |sc.names| + AllDeclarations(ss)
    decreases ss, 1
  {
    if ss != [] {
      BindKeeps(ss[0], sc);
      BindAllKeeps(ss[1..], Bind(ss[0], sc).scope);
    }
  }

  /** The QUERY targets of a parsed tree are written without margins. */
  ghost predicate TargetsTrimmed(s: Source)
    decreases s
  {
    match s
    case If(_, thn, els) => AllTargetsTrimmed(thn) && AllTargetsTrimmed(els)
    case While(_, body) => AllTargetsTrimmed(body)
    case Foreach(_, _, body) => AllTargetsTrimmed(body)
    case Query(_, target, _) => target.Some? ==> Trim(target.value) == target.value
    case Assignment(_, _) => true
  }

  ghost predicate AllTargetsTrimmed(ss: seq<Source>)
    decreases ss
  {
    ss == [] || (TargetsTrimmed(ss[0]) && AllTargetsTrimmed(ss[1..]))
  }

  /** Bound code refers to what its names denote in the end exactly if none of them is declared again. */
  lemma {:induction false} BindTies(s: Source, sc: Scope, f: Scope)
    requires sc.Valid() && Bind(s, sc).Bound? && TargetsTrimmed(s)
    requires Precedes(Bind(s, sc).scope, f)
    ensures Tied(f, Link(s, sc.conns), Bind(s, sc).value) <==> KeepsTargets(s, f.names, |sc.names|)
    decreases s, 1
  {
    BindKeeps(s, sc);
    assert Precedes(sc, f);
    match s
    case If(_, _, _) => BindIfTies(s, sc, f);
    case While(_, body) => BindAllTies(body, sc, f);
    case Foreach(table, params, body) =>
      DenotesInTheEnd(sc, f, table);
      AllDenoteInTheEnd(sc, f, params);
      BindAllTies(body, sc, f);
    case Query(_, _, _) => BindQueryTies(s, sc, f);
    case Assignment(param, _) => DenotesInTheEnd(sc, f, param);
  }

  lemma {:induction false} BindIfTies(s: Source, sc: Scope, f: Scope)
    requires s.If? && sc.Valid() && Bind(s, sc).Bound? && TargetsTrimmed(s) && Precedes(Bind(s, sc).scope, f)
    ensures Tied(f, Link(s, sc.conns), Bind(s, sc).value) <==> KeepsTargets(s, f.names, |sc.names|)
    decreases s, 0
  {
    var thn := BindAll(s.thn, sc);
    BindAllKeeps(s.thn, sc);
    BindAllKeeps(s.els, thn.scope);
    BindAllTies(s.thn, sc, f);
    BindAllTies(s.els, thn.scope, f);
  }

  lemma BindQueryTies(s: Source, sc: Scope, f: Scope)
    requires s.Query? && sc.Valid() && TargetsTrimmed(s) && Precedes(Bind(s, sc).scope, f)
    ensures Tied(f, Link(s, sc.conns), Bind(s, sc).value) <==> KeepsTargets(s, f.names, |sc.names|)
  {
    if s.target.Some? {
      var n := s.target.value;
      DeclaredDenotesInTheEnd(sc, f, n, TableType);
      QueryForms(s, n, sc);
      QueryTies(f, sc.Connection(s.conn), n, |sc.names|, s.text);
    }
  }

  lemma QueryForms(s: Source, n: string, sc: Scope)
    requires s.Query? && s.target == Some(n) && Trim(n) == n && sc.Declare(n, TableType).Lookup(n) == Some(|sc.names|)
    ensures Link(s, sc.conns) == Query(sc.Connection(s.conn), Some(n), s.text)
    ensures Bind(s, sc) == Bound(Query(sc.Connection(s.conn), Some(|sc.names|), s.text), sc.Declare(n, TableType))
  {
  }

  lemma QueryTies(f: Scope, conn: Option<Conn>, n: string, r: Ref, text: seq<string>)
    ensures Tied(f, Query(conn, Some(n), text), Query(conn, Some(r), text)) <==> Denotes(f, n, r)
  {
  }

  lemma DeclaredDenotesInTheEnd(sc: Scope, f: Scope, n: string, t: DataType)
    requires sc.Valid() && Trim(n) == n && Precedes(sc.Declare(n, t), f)
    ensures sc.Declare(n, t).Lookup(n) == Some(|sc.names|)
    ensures Denotes(f, n, |sc.names|) <==> !DeclaredAgain(n, f.names, |sc.names| + 1)
  {
    DeclareKeeps(sc, n, t);
    DenotesInTheEnd(sc.Declare(n, t), f, n);
  }

  lemma {:induction false} BindAllTies(ss: seq<Source>, sc: Scope, f: Scope)
    requires sc.Valid() && BindAll(ss, sc).Bound? && AllTargetsTrimmed(ss)
    requires Precedes(BindAll(ss, sc).scope, f)
    ensures TiesExactlyIf(AllKeepTargets(ss, f.names, |sc.names|), f, LinkAll(ss, sc.conns), BindAll(ss, sc).value)
    decreases ss, 2
  {
    if ss != [] {
      BindAllFirst(ss, sc);
      var b := Bind(ss[0], sc);
      var more := BindAll(ss[1..], b.scope);
      BindKeeps(ss[0], sc);
      BindAllKeeps(ss[1..], b.scope);
      BindTies(ss[0], sc, f);
      BindAllTies(ss[1..], b.scope, f);
      FirstTies(ss, sc, f, b, more);
    }
  }

  lemma BindAllFirst(ss: seq<Source>, sc: Scope)
    requires ss != [] && BindAll(ss, sc).Bound?
    ensures var b := Bind(ss[0], sc);
            && b.Bound? && BindAll(ss[1..], b.scope).Bound?
            && var more := BindAll(ss[1..], b.scope);
               BindAll(ss, sc) == Bound([b.value] + more.value, more.scope)
  {
  }

  lemma FirstTies(ss: seq<Source>, sc: Scope, f: Scope, b: Bound<Code>, more: Bound<seq<Code>>)
    requires ss != [] && b.Bound? && more.Bound? && |b.scope.names| == |sc.names| + Declarations(ss[0])
    requires Tied(f, Link(ss[0], sc.conns), b.value) <==> KeepsTargets(ss[0], f.names, |sc.names|)
    requires TiesExactlyIf(AllKeepTargets(ss[1..], f.names, |b.scope.names|), f, LinkAll(ss[1..], sc.conns), more.value)
    ensures TiesExactlyIf(AllKeepTargets(ss, f.names, |sc.names|), f, LinkAll(ss, sc.conns), [b.value] + more.value)
  {
    TiedFirst(f, KeepsTargets(ss[0], f.names, |sc.names|), AllKeepTargets(ss[1..], f.names, |b.scope.names|),
              Link(ss[0], sc.conns), LinkAll(ss[1..], sc.conns), b.value, more.value);
  }

  lemma TiedFirst(f: Scope, first: bool, kept: bool, s: Linked, ss: seq<Linked>, code: Code, codes: seq<Code>)
    requires (Tied(f, s, code) <==> first) && TiesExactlyIf(kept, f, ss, codes)
    ensures TiesExactlyIf(first && kept, f, [s] + ss, [code] + codes)
  {
    assert ([s] + ss)[1..] == ss && ([code] + codes)[1..] == codes;
  }

  lemma {:induction false} ParsedTargets(t: Tree)
    requires WellNested(t)
    ensures TargetsTrimmed(Abstract(t))
    decreases t
  {
    match t
    case TIf(_, body, elseLines, _) =>
      var n := ThenCount(elseLines);
      AllParsedTargets(body);
      SplitTargets(AbstractAll(body), n);
    case TWhile(_, body, _) => AllParsedTargets(body);
    case TForeach(_, body, _) => AllParsedTargets(body);
    case TQuery(head, _, _) => if ReadHead(head).target.Some? { QueryTargetTrimmed(head); }
    case TAssign(_) =>
  }

  lemma {:induction false} AllParsedTargets(ts: seq<Tree>)
    requires AllWellNested(ts)
    ensures AllTargetsTrimmed(AbstractAll(ts))
    decreases ts
  {
    if ts != [] {
      ParsedTargets(ts[0]);
      AllParsedTargets(ts[1..]);
      assert AbstractAll(ts)[1..] == AbstractAll(ts[1..]);
    }
  }

  lemma {:induction false} SplitTargets(ss: seq<Source>, n: nat)
    requires n <= |ss| && AllTargetsTrimmed(ss)
    ensures AllTargetsTrimmed(ss[..n]) && AllTargetsTrimmed(ss[n..])
  {
    if n == 0 {
      assert ss[0..] == ss;
    } else {
      SplitTargets(ss[1..], n - 1);
      assert ss[..n][1..] == ss[1..][..n - 1] && ss[n..] == ss[1..][n - 1..];
    }
  }

  lemma QueryTargetTrimmed(head: string)
    requires ReadHead(head).HeadQuery? && ReadHead(head).target.Some?
    ensures Trim(ReadHead(head).target.value) == ReadHead(head).target.value
  {
    var parts := TrimSplit(head[5..], "AS");
    TrimAllTrims(Pieces(Trim(head[5..]), "AS"));
    assert Trimmed(parts[1]);
    TrimPadded("", parts[1], "");
    assert "" + parts[1] + "" == parts[1];
  }

  // ---- the parts of a file --------------------------------------------------------------

  /** A meaningful line of one of the two declaration sections, or an action, as its lines and as its source. */
  datatype Part = Connecting(line: string) | Declaring(line: string) | Acting(tree: Tree, source: Source)

  function LinesOf(part: Part): seq<string>
  {
    match part
    case Connecting(line) => [line]
    case Declaring(line) => [line]
    case Acting(tree, _) => Lines(tree)
  }

  ghost predicate Fits(model: Compiling.Model, part: Part)
  {
    match model
    case Unset => false
    case DataSourceModel => part.Connecting?
    case ParamModel => part.Declaring?
    case ActionModel => part.Acting? && WellNested(part.tree) && part.source == Abstract(part.tree)
  }

  /** `parts` are what a file whose meaningful lines are `ls`, read in section `model`, consists of. */
  ghost predicate FileParts(model: Compiling.Model, ls: seq<string>, parts: seq<Part>)
    decreases |ls|
  {
    if ls == [] then parts == []
    else if Compiling.SectionOf(ls[0]).Some? then FileParts(Compiling.SectionOf(ls[0]).value, ls[1..], parts)
    else if model.Unset? then FileParts(model, ls[1..], parts)
    else
      && parts != [] && Fits(model, parts[0]) && LinesOf(parts[0]) <= ls
      && FileParts(model, ls[|LinesOf(parts[0])|..], parts[1..])
  }

  /** The connections after a line of the data source section. */
  function Connected(opens: Conn -> bool, line: string, conns: map<string, Conn>): map<string, Conn>
  {
    var r := Compiling.ConnectLine(opens, line, EMPTY_SCOPE.(conns := conns));
    if r.Ok? then r.scope.conns else conns
  }

  /** The source of a file: its actions, each with the connections declared before it. */
  ghost function FileSource(opens: Conn -> bool, parts: seq<Part>, conns: map<string, Conn>): seq<Linked>
  {
    if parts == [] then []
    else match parts[0]
      case Connecting(line) => FileSource(opens, parts[1..], Connected(opens, line, conns))
      case Declaring(_) => FileSource(opens, parts[1..], conns)
      case Acting(_, source) => [Link(source, conns)] + FileSource(opens, parts[1..], conns)
  }

  /** No action of the file has a target that is declared again after it; `names` are the names that the
      file declares, of which `k` are declared before these parts. */
  ghost predicate FileKeepsTargets(parts: seq<Part>, names: seq<string>, k: nat)
  {
    if parts == [] then true
    else match parts[0]
      case Connecting(_) => FileKeepsTargets(parts[1..], names, k)
      case Declaring(_) => FileKeepsTargets(parts[1..], names, k + 1)
      case Acting(_, source) =>
        KeepsTargets(source, names, k) && FileKeepsTargets(parts[1..], names, k + Declarations(source))
  }

  /** A file that declares no name twice keeps all its targets. */
  lemma {:induction false} DistinctFileKeepsTargets(parts: seq<Part>, names: seq<string>, k: nat)
    requires NoRedeclaration(names)
    ensures FileKeepsTargets(parts, names, k)
    decreases |parts|
  {
    if parts != [] {
      match parts[0]
      case Connecting(_) => DistinctFileKeepsTargets(parts[1..], names, k);
      case Declaring(_) => DistinctFileKeepsTargets(parts[1..], names, k + 1);
      case Acting(_, source) =>
        DistinctKeepsTargets(source, names, k);
        DistinctFileKeepsTargets(parts[1..], names, k + Declarations(source));
    }
  }

  lemma FirstPart(model: Compiling.Model, ls: seq<string>, part: Part, parts: seq<Part>, rest: seq<string>)
    requires ls != [] && Compiling.SectionOf(ls[0]) == None && LinesOf(part) + rest == ls
    requires Fits(model, part) && FileParts(model, rest, parts)
    ensures FileParts(model, ls, [part] + parts)
  {
    assert LinesOf(part) <= ls && ls[|LinesOf(part)|..] == rest;
    assert ([part] + parts)[0] == part && ([part] + parts)[1..] == parts;
  }

  lemma FirstSource(opens: Conn -> bool, part: Part, parts: seq<Part>, conns: map<string, Conn>)
    ensures FileSource(opens, [part] + parts, conns)
         == if part.Connecting? then FileSource(opens, parts, Connected(opens, part.line, conns))
            else if part.Declaring? then FileSource(opens, parts, conns)
            else [Link(part.source, conns)] + FileSource(opens, parts, conns)
  {
    assert ([part] + parts)[0] == part && ([part] + parts)[1..] == parts;
  }

  lemma FirstKeepsTargets(part: Part, parts: seq<Part>, names: seq<string>, k: nat)
    ensures FileKeepsTargets([part] + parts, names, k)
       <==> if part.Connecting? then FileKeepsTargets(parts, names, k)
            else if part.Declaring? then FileKeepsTargets(parts, names, k + 1)
            else KeepsTargets(part.source, names, k) && FileKeepsTargets(parts, names, k + Declarations(part.source))
  {
    assert ([part] + parts)[0] == part && ([part] + parts)[1..] == parts;
  }

  // ---- the code of a file -----------------------------------------------------------------

  ghost predicate TiesExactlyIf(kept: bool, f: Scope, source: seq<Linked>, codes: seq<Code>)
  {
    |source| == |codes| && (TiedAll(f, source, codes) <==> kept)
  }

  /** The code of these parts is tied to their source in `f` exactly if they keep their targets; `sc` is
      what is declared before them. */
  ghost predicate PartsTie(opens: Conn -> bool, f: Scope, sc: Scope, parts: seq<Part>, codes: seq<Code>)
  {
    && Precedes(sc, f)
    && TiesExactlyIf(FileKeepsTargets(parts, f.names, |sc.names|), f, FileSource(opens, parts, sc.conns), codes)
  }

  lemma NoParts(opens: Conn -> bool, f: Scope)
    requires f.Valid()
    ensures PartsTie(opens, f, f, [], [])
  {
  }

  lemma ConnectionTies(opens: Conn -> bool, f: Scope, sc: Scope, sc': Scope, line: string, parts: seq<Part>,
                       codes: seq<Code>)
    requires sc.Valid() && sc'.names == sc.names && sc'.conns == Connected(opens, line, sc.conns)
    requires PartsTie(opens, f, sc', parts, codes)
    ensures PartsTie(opens, f, sc, [Connecting(line)] + parts, codes)
  {
    FirstSource(opens, Connecting(line), parts, sc.conns);
    FirstKeepsTargets(Connecting(line), parts, f.names, |sc.names|);
  }

  lemma DeclarationTies(opens: Conn -> bool, f: Scope, sc: Scope, sc': Scope, line: string, parts: seq<Part>,
                        codes: seq<Code>)
    requires sc.Valid() && sc.names <= sc'.names && |sc'.names| == |sc.names| + 1 && sc'.conns == sc.conns
    requires PartsTie(opens, f, sc', parts, codes)
    ensures PartsTie(opens, f, sc, [Declaring(line)] + parts, codes)
  {
    FirstSource(opens, Declaring(line), parts, sc.conns);
    FirstKeepsTargets(Declaring(line), parts, f.names, |sc.names|);
  }

  lemma ActionTies(opens: Conn -> bool, f: Scope, sc: Scope, sc': Scope, t: Tree, s: Source, code: Code,
                   parts: seq<Part>, codes: seq<Code>)
    requires sc.Valid() && Bind(s, sc) == Bound(code, sc') && TargetsTrimmed(s)
    requires PartsTie(opens, f, sc', parts, codes)
    ensures PartsTie(opens, f, sc, [Acting(t, s)] + parts, [code] + codes)
  {
    BindKeeps(s, sc);
    FirstSource(opens, Acting(t, s), parts, sc.conns);
    FirstKeepsTargets(Acting(t, s), parts, f.names, |sc.names|);
    var kept, source := FileKeepsTargets(parts, f.names, |sc'.names|), FileSource(opens, parts, sc.conns);
    SourceTies(f, sc, sc', s, code, kept, source, codes);
    PartsTieIf(opens, f, sc, [Acting(t, s)] + parts, [code] + codes,
               KeepsTargets(s, f.names, |sc.names|) && kept, [Link(s, sc.conns)] + source);
  }

  lemma PartsTieIf(opens: Conn -> bool, f: Scope, sc: Scope, parts: seq<Part>, codes: seq<Code>, kept: bool,
                   source: seq<Linked>)
    requires Precedes(sc, f) && source == FileSource(opens, parts, sc.conns) && TiesExactlyIf(kept, f, source, codes)
    requires kept <==> FileKeepsTargets(parts, f.names, |sc.names|)
    ensures PartsTie(opens, f, sc, parts, codes)
  {
  }

  lemma SourceTies(f: Scope, sc: Scope, sc': Scope, s: Source, code: Code, kept: bool, source: seq<Linked>,
                   codes: seq<Code>)
    requires sc.Valid() && Bind(s, sc) == Bound(code, sc') && TargetsTrimmed(s) && Precedes(sc', f)
    requires TiesExactlyIf(kept, f, source, codes)
    ensures TiesExactlyIf(KeepsTargets(s, f.names, |sc.names|) && kept, f, [Link(s, sc.conns)] + source, [code] + codes)
  {
    BindTies(s, sc, f);
    TiedFirst(f, KeepsTargets(s, f.names, |sc.names|), kept, Link(s, sc.conns), source, code, codes);
  }

  /** `r`, made of the rest of a file, is the code of these parts. */
  ghost predicate Compiles(opens: Conn -> bool, r: Compiling.Parsed<seq<Code>>, model: Compiling.Model, ls: seq<string>,
                           p: Compiling.Program, parts: seq<Part>, codes: seq<Code>)
  {
    && r.Ok? && FileParts(model, ls, parts) && r.value == p.actions + codes
    && PartsTie(opens, r.scope, p.scope, parts, codes)
  }

  lemma {:induction false} FileIsTied(opens: Conn -> bool, model: Compiling.Model, ls: seq<string>,
                                      p: Compiling.Program)
    returns (parts: seq<Part>, codes: seq<Code>)
    requires p.scope.Valid() && Compiling.CompileLines(opens, model, ls, p).Ok?
    ensures Compiles(opens, Compiling.CompileLines(opens, model, ls, p), model, ls, p, parts, codes)
    decreases |ls|
  {
    var r := Compiling.CompileLines(opens, model, ls, p);
    if ls == [] {
      parts, codes := [], [];
      NoParts(opens, p.scope);
      assert p.actions + [] == p.actions;
    } else if Compiling.SectionOf(ls[0]).Some? {
      parts, codes := FileIsTied(opens, Compiling.SectionOf(ls[0]).value, ls[1..], p);
    } else {
      match model
      case Unset => parts, codes := FileIsTied(opens, model, ls[1..], p);
      case DataSourceModel =>
        var sc' := Compiling.ConnectLine(opens, ls[0], p.scope).scope;
        ConnectLineConnects(opens, ls[0], p.scope);
        parts, codes := FileIsTied(opens, model, ls[1..], p.(scope := sc'));
        ConnectionIsTied(opens, r, ls, p, sc', parts, codes);
        parts := [Connecting(ls[0])] + parts;
      case ParamModel =>
        var sc' := Compiling.DeclareLine(ls[0], p.scope).scope;
        ParamLineKeeps(ls[0], p.scope);
        parts, codes := FileIsTied(opens, model, ls[1..], p.(scope := sc'));
        DeclarationIsTied(opens, r, ls, p, sc', parts, codes);
        parts := [Declaring(ls[0])] + parts;
      case ActionModel =>
        var a := Compiling.CompileAction(Some(ls[0]), ls[1..], p.scope);
        var t := ParsedIsWellNested(ls[0], ls[1..], p.scope);
        BindKeeps(Abstract(t), p.scope);
        parts, codes := FileIsTied(opens, model, a.rest, Compiling.Program(a.scope, p.actions + [a.value]));
        ActionIsTied(opens, r, a, ls, p, t, parts, codes);
        parts, codes := [Acting(t, Abstract(t))] + parts, [a.value] + codes;
    }
  }

  lemma ConnectionIsTied(opens: Conn -> bool, r: Compiling.Parsed<seq<Code>>, ls: seq<string>, p: Compiling.Program,
                         sc': Scope, parts: seq<Part>, codes: seq<Code>)
    requires p.scope.Valid() && ls != [] && Compiling.SectionOf(ls[0]) == None
    requires sc'.names == p.scope.names && sc'.conns == Connected(opens, ls[0], p.scope.conns)
    requires Compiles(opens, r, Compiling.DataSourceModel, ls[1..], p.(scope := sc'), parts, codes)
    ensures Compiles(opens, r, Compiling.DataSourceModel, ls, p, [Connecting(ls[0])] + parts, codes)
  {
    ConnectionTies(opens, r.scope, p.scope, sc', ls[0], parts, codes);
    FirstPart(Compiling.DataSourceModel, ls, Connecting(ls[0]), parts, ls[1..]);
  }

  lemma DeclarationIsTied(opens: Conn -> bool, r: Compiling.Parsed<seq<Code>>, ls: seq<string>, p: Compiling.Program,
                          sc': Scope, parts: seq<Part>, codes: seq<Code>)
    requires p.scope.Valid() && ls != [] && Compiling.SectionOf(ls[0]) == None
    requires p.scope.names <= sc'.names && |sc'.names| == |p.scope.names| + 1 && sc'.conns == p.scope.conns
    requires Compiles(opens, r, Compiling.ParamModel, ls[1..], p.(scope := sc'), parts, codes)
    ensures Compiles(opens, r, Compiling.ParamModel, ls, p, [Declaring(ls[0])] + parts, codes)
  {
    DeclarationTies(opens, r.scope, p.scope, sc', ls[0], parts, codes);
    FirstPart(Compiling.ParamModel, ls, Declaring(ls[0]), parts, ls[1..]);
  }

  lemma ActionIsTied(opens: Conn -> bool, r: Compiling.Parsed<seq<Code>>, a: Compiling.Parsed<Code>, ls: seq<string>,
                     p: Compiling.Program, t: Tree, parts: seq<Part>, codes: seq<Code>)
    requires p.scope.Valid() && ls != [] && Compiling.SectionOf(ls[0]) == None
    requires IsTreeOf(t, ls[0], ls[1..], p.scope, a)
    requires Compiles(opens, r, Compiling.ActionModel, a.rest, Compiling.Program(a.scope, p.actions + [a.value]),
                      parts, codes)
    ensures Compiles(opens, r, Compiling.ActionModel, ls, p, [Acting(t, Abstract(t))] + parts, [a.value] + codes)
  {
    assert [ls[0]] + ls[1..] == ls;
    FirstPart(Compiling.ActionModel, ls, Acting(t, Abstract(t)), parts, a.rest);
    ParsedTargets(t);
    ActionTies(opens, r.scope, p.scope, a.scope, t, Abstract(t), a.value, parts, codes);
    Regroup(p.actions, a.value, codes);
  }

  lemma ConnectLineConnects(opens: Conn -> bool, line: string, sc: Scope)
    requires sc.Valid() && Compiling.ConnectLine(opens, line, sc).Ok?
    ensures var sc' := Compiling.ConnectLine(opens, line, sc).scope;
            sc'.Valid() && sc'.names == sc.names && sc'.conns == Connected(opens, line, sc.conns)
  {
  }

  lemma Regroup(codes: seq<Code>, code: Code, more: seq<Code>)
    ensures codes + [code] + more == codes + ([code] + more)
  {
  }

  lemma ParamLineKeeps(line: string, sc: Scope)
    requires sc.Valid() && Compiling.DeclareLine(line, sc).Ok?
    ensures var sc' := Compiling.DeclareLine(line, sc).scope;
            sc'.Valid() && sc.names <= sc'.names && sc'.conns == sc.conns && |sc'.names| == |sc.names| + 1
  {
    var parts := TrimSplit(line, "TYPEAS");
    DeclareKeeps(sc, parts[0], ParseType(parts[1]).value);
  }

  // ---- compiling and running --------------------------------------------------------------

  lemma CompiledStateIsSound(f: Scope)
    requires f.Valid()
    ensures Sound(f, State(f.cells, []))
  {
  }

  /** Compilation preserves meaning. For every file that compiles, running the compiled actions on Param
      objects gives, by name, the same values, the same sequence of queries and the same ending as running
      the source text of its actions with every parameter's name looked up when it is used, for every
      database and every bound on loops, if no name that an action assigns to or iterates over is
      declared again after that action; and it is exactly then that the code refers to what its names
      denote. Declaring no name twice is enough. */
  lemma CompilationPreservesMeaning(opens: Conn -> bool, file: seq<string>, world: World, fuel: nat)
    returns (parts: seq<Part>)
    requires Compiling.CompileFile(opens, file).Ok?
    ensures FileParts(Compiling.Unset, Meaningful(file), parts)
    ensures var r := Compiling.CompileFile(opens, file);
            var source := FileSource(opens, parts, map[]);
            var kept := FileKeepsTargets(parts, r.scope.names, 0);
            var start := State(r.scope.cells, []);
            && (kept ==>
                  ResultByName(r.scope, RunAll(Objects(r.scope, LQL, world), r.value, start, fuel))
                  == RunAll(Named(r.scope, LQL, world), source, ByName(r.scope, start), fuel))
            && (kept <==> TiedAll(r.scope, source, r.value))
            && (NoRedeclaration(r.scope.names) ==> kept)
  {
    var codes;
    parts, codes := FileIsTied(opens, Compiling.Unset, Meaningful(file), Compiling.Program(EMPTY_SCOPE, []));
    var r := Compiling.CompileFile(opens, file);
    assert r.value == codes by { assert [] + codes == codes; }
    if NoRedeclaration(r.scope.names) {
      DistinctFileKeepsTargets(parts, r.scope.names, 0);
    }
    var source := FileSource(opens, parts, map[]);
    if TiedAll(r.scope, source, codes) {
      CompiledStateIsSound(r.scope);
      RunAllByName(r.scope, LQL, world, source, codes, State(r.scope.cells, []), fuel);
    }
  }

  /** Start: compile a file, then run it. */
  method Start(file: seq<string>, opens: Conn -> bool, world: World, fuel: nat)
    returns (exe: Compiling.Result<Compiling.Exe>, outcome: Outcome, log: seq<Call>)
    ensures exe.Success? ==> fresh(exe.value)
    ensures match Compiling.CompileFile(opens, file)
            case Err(e) => exe == Compiling.Failure(e)
            case Ok(codes, _, f) =>
              && exe.Success? && exe.value.paramMap == f.paramMap
              && Result(State(exe.value.cells, log), outcome)
                 == RunAll(Objects(f, LQL, world), codes, State(f.cells, []), fuel)
  {
    var readFile := new ReadFile(file);
    var compile := new Compiling.Compile(readFile, opens);
    exe := compile.CompileAll();
    outcome, log := Done, [];
    if exe.Success? {
      var analyize := new Interpreting.Analyize(exe.value, world);
      assert analyize.AsMachine() == Objects(exe.value.Tables(), LQL, world);
      outcome := analyize.AnalyizeExe(fuel);
      log := analyize.log;
    }
  }

  // ---- assignments to names that are declared again ----------------------------------------------

  ghost predicate AssignsByName(f: Scope, st: State<Ref>, n: string, r: Ref, v: Value)
  {
    ByName(f, Assign(st, r, v)) == Assign(ByName(f, st), n, v)
  }

  /** An assignment compiled for Param `r` acts as an assignment to the name, whatever the
      value, exactly when the name still denotes `r` in the end. */
  lemma AssignmentMeansItsNameExactlyWhen(f: Scope, st: State<Ref>, n: string, r: Ref)
    requires Sound(f, st) && n in f.paramMap && r in st.store
    ensures (forall v :: AssignsByName(f, st, n, r, v)) <==> f.paramMap[n] == r
  {
    if f.paramMap[n] == r {
      forall v ensures AssignsByName(f, st, n, r, v) {
        AssignByName(f, st, n, r, v);
      }
    } else {
      var now := st.store[f.paramMap[n]].value;
      var other := if now == Null then Str("") else Null;
      assert ByName(f, Assign(st, r, other)).store[n].value == now;
      assert Assign(ByName(f, st), n, other).store[n].value == other;
      assert !AssignsByName(f, st, n, r, other);
    }
  }
}
