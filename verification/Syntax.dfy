/** LQL programs and the tables their names are kept in. */
module Syntax {
  import opened Wrappers
  import opened Text

  datatype DataType = StringType | TableType | IntType | LongType | DoubleType

  /** A Java object held by a parameter: null, a string, any other scalar (its class and
      its text), or a query result, whose rows keep the order of their columns. */
  datatype Value = Null | Str(text: string) | Scalar(cls: string, text: string) | Table(rows: seq<Row>)
  datatype Row = Row(columns: seq<Column>)
  datatype Column = Column(name: string, value: Value)

  /** A Param object; `Ref` is its identity. */
  datatype Param = Param(dataType: DataType, value: Value)
  type Ref = nat

  datatype Conn = Conn(url: string, driver: string)

  /** The action tree. `T` is what an assigned parameter is denoted by and `C` what a
      connection is: names in the source text, Param objects and connections once compiled. */
  datatype Action<T, C> =
    | If(cond: string, thn: seq<Action<T, C>>, els: seq<Action<T, C>>)
    | While(cond: string, body: seq<Action<T, C>>)
    | Foreach(table: T, params: seq<T>, body: seq<Action<T, C>>)
    | Query(conn: C, target: Option<T>, text: seq<string>)
    | Assignment(param: T, value: string)

  type Source = Action<string, string>
  type Code = Action<Ref, Option<Conn>>

  function ParseType(name: string): Option<DataType>
  {
    var t := ToLower(Trim(name));
    if t == "string" then Some(StringType)
    else if t == "double" then Some(DoubleType)
    else if t == "long" then Some(LongType)
    else if t == "int" then Some(IntType)
    else if t == "table" then Some(TableType)
    else None
  }

  /** The symbol tables: `paramMap` gives the Param a name denotes now, `cells` holds every
      Param ever made, and `names[r]` is the name that Param `r` was declared under. */
  datatype Scope = Scope(paramMap: map<string, Ref>, names: seq<string>,
                         cells: map<Ref, Param>, conns: map<string, Conn>)
  {
    ghost predicate Valid() {
      && (forall r: Ref :: r in cells <==> r < |names|)
      && (forall n :: n in paramMap ==> paramMap[n] < |names| && names[paramMap[n]] == n)
      && (forall r: Ref :: r < |names| ==> names[r] in paramMap && r <= paramMap[names[r]])
    }

    /** putParam: a new Param under the trimmed name, replacing what the name denoted. */
    function Declare(name: string, dataType: DataType): (sc: Scope)
      ensures Valid() ==> sc.Valid()
    {
      var n := Trim(name);
      var r: Ref := |names|;
      this.(paramMap := paramMap[n := r], names := names + [n], cells := cells[r := Param(dataType, Null)])
    }

    function Lookup(name: string): Option<Ref> {
      if name in paramMap then Some(paramMap[name]) else None
    }

    function LookupAll(ns: seq<string>): Option<seq<Ref>>
    {
      if ns == [] then Some([])
      else if Lookup(ns[0]) == None then None
      else match LookupAll(ns[1..])
        case Some(rest) => Some([paramMap[ns[0]]] + rest)
        case None => None
    }

    function Connection(name: string): Option<Conn> {
      if name in conns then Some(conns[name]) else None
    }
  }

  const EMPTY_SCOPE := Scope(map[], [], map[], map[])

  // ---- lines ----------------------------------------------------------------

  datatype CompileError =
    | EndOfInput | NotClosed(keyword: string) | UnknownKeyword | MissingOperand
    | NoDataSource | Undefined(name: string) | UnknownType | NotAParam | NoConnection

  /** What the first line of an action says. */
  datatype Head =
    | HeadIf(cond: string)
    | HeadQuery(conn: string, target: Option<string>)
    | HeadWhile(cond: string)
    | HeadForeach(table: string, params: seq<string>)
    | HeadAssign(param: string, value: string)
    | HeadBad(error: CompileError)

  function ReadHead(line: string): Head
  {
    if StartsWith(line, "IF") then HeadIf(Trim(line[2..]))
    else if StartsWith(line, "QUERY") then
      var parts := TrimSplit(line[5..], "AS");
      if |parts| < 1 then HeadBad(NoDataSource)
      else HeadQuery(parts[0], if |parts| == 2 then Some(parts[1]) else None)
    else if StartsWith(line, "WHILE") then HeadWhile(Trim(line[5..]))
    else if StartsWith(line, "FOREACH") then
      var parts := TrimSplit(Trim(line[7..]), " ");
      if |parts| < 2 then HeadBad(MissingOperand) else HeadForeach(parts[0], TrimSplit(parts[1], ","))
    else if StartsWith(line, "@") then
      var parts := TrimSplit(line, "=");
      if |parts| < 2 then HeadBad(MissingOperand) else HeadAssign(Trim(parts[0]), Trim(parts[1]))
    else HeadBad(UnknownKeyword)
  }
}
