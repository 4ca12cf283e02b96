/** What conditions and right-hand sides mean, written as a user writes them. */
module Operands {
  import opened Wrappers
  import opened Text
  import opened Syntax
  import opened Substitution
  import opened Analyizing
  import opened Printing

  // ---- splitting at a character ---------------------------------------------------------

  lemma ClearWithout(a: string, c: char, b: string)
    requires c !in a
    ensures Clear(a + [c] + b, |a|, [c])
  {
    forall i | 0 <= i < |a| ensures !([c] <= (a + [c] + b)[i..]) {
      assert (a + [c] + b)[i..][0] == a[i];
    }
  }

  lemma WholePiece(a: string, c: char)
    requires c !in a
    ensures Pieces(a, [c]) == [a]
  {
    forall i | 0 <= i < |a| ensures !([c] <= a[i..]) {
      assert a[i..][0] == a[i];
    }
    PiecesWhole(a, [c]);
  }

  lemma SplitsInTwo(a: string, c: char, b: string)
    requires c !in a && c !in b
    ensures Pieces(a + [c] + b, [c]) == [a, b]
    ensures b != "" ==> JavaSplit(a + [c] + b, [c]) == [a, b]
  {
    ClearWithout(a, c, b);
    PiecesCut(a, [c], b);
    WholePiece(b, c);
  }

  // ---- conditions ---------------------------------------------------------------------------

  /** A word of a condition: no blanks at its ends and no space in it. */
  predicate IsOperand(w: string) { Trimmed(w) && ' ' !in w }

  function Test(l: string, op: string, r: string): string { l + " " + op + " " + r }

  lemma TestIsSplit(l: string, op: string, r: string)
    requires IsOperand(l) && IsOperand(op) && IsOperand(r)
    ensures TrimSplit(Test(l, op, r), " ") == [l, op, r]
  {
    TestIsTrimmed(l, op, r);
    TestPieces(l, op, r);
    TrimAllWhole([l, op, r]);
  }

  lemma TestIsTrimmed(l: string, op: string, r: string)
    requires IsOperand(l) && IsOperand(r)
    ensures Trim(Test(l, op, r)) == Test(l, op, r)
  {
    var t := Test(l, op, r);
    assert t[0] == l[0] && t[|t| - 1] == r[|r| - 1];
    TrimWhole(t);
  }

  lemma TestPieces(l: string, op: string, r: string)
    requires IsOperand(l) && IsOperand(op) && IsOperand(r)
    ensures Pieces(Test(l, op, r), " ") == [l, op, r]
  {
    var more := op + " " + r;
    assert Test(l, op, r) == l + " " + more;
    ClearWithout(l, ' ', more);
    PiecesCut(l, " ", more);
    SplitsInTwo(op, ' ', r);
    assert [l] + [op, r] == [l, op, r];
  }

  lemma EqualTest(env: Env, l: string, r: string)
    requires IsOperand(l) && IsOperand(r)
    ensures Condition(env, Test(l, "==", r)) ==
            match (ToText(ParamValue(env, l)), ParamValue(env, r))
            case (Some(x), Some(y)) => Some(y == Str(x))
            case _ => None
  {
    TestIsSplit(l, "==", r);
  }

  lemma DifferentTest(env: Env, l: string, r: string)
    requires IsOperand(l) && IsOperand(r)
    ensures Condition(env, Test(l, "!=", r)) ==
            match (ParamValue(env, l), ParamValue(env, r))
            case (Some(x), Some(y)) => if x == Null then None else Some(x != y)
            case _ => None
  {
    TestIsSplit(l, "!=", r);
  }

  /** `==` is the negation of `!=` exactly when the left value is a string, or the right one is
      neither that value nor its text. For a number or a table it is not: compared with itself it
      is neither equal nor different, and with its own text it is both. */
  lemma EqualNegatesDifferentExactlyWhen(env: Env, l: string, r: string, x: Value, y: Value)
    requires IsOperand(l) && IsOperand(r)
    requires ParamValue(env, l) == Some(x) && ParamValue(env, r) == Some(y) && x != Null
    ensures Condition(env, Test(l, "==", r)).Some? && Condition(env, Test(l, "!=", r)).Some?
    ensures Condition(env, Test(l, "==", r)).value == !Condition(env, Test(l, "!=", r)).value
        <==> x.Str? || (y != x && y != Str(TextOf(x)))
  {
    EqualTest(env, l, r);
    DifferentTest(env, l, r);
  }

  lemma GreaterTest(env: Env, l: string, r: string)
    requires IsOperand(l) && IsOperand(r)
    ensures Condition(env, Test(l, ">", r)) ==
            match (ToText(ParamValue(env, l)), ToText(ParamValue(env, r)))
            case (Some(x), Some(y)) =>
              (match (ParseInt(x), ParseInt(y)) case (Some(i), Some(j)) => Some(i > j) case _ => None)
            case _ => None
  {
    TestIsSplit(l, ">", r);
  }

  lemma OtherTestFails(env: Env, l: string, op: string, r: string)
    requires IsOperand(l) && IsOperand(r) && op in {"<", "<=", ">="}
    ensures Condition(env, Test(l, op, r)) == None
  {
    TestIsSplit(l, op, r);
  }

  /** `>` compares 32-bit integers, and fails exactly if one of the texts is none. The other
      orderings always fail. */
  lemma OrderTests(env: Env, l: string, r: string)
    requires IsOperand(l) && IsOperand(r)
    ensures var x, y := ToText(ParamValue(env, l)), ToText(ParamValue(env, r));
            var greater := Condition(env, Test(l, ">", r));
            && (greater.Some? <==> x.Some? && y.Some? && ParseInt(x.value).Some? && ParseInt(y.value).Some?)
            && (greater.Some? ==> greater.value == (ParseInt(x.value).value > ParseInt(y.value).value))
    ensures Condition(env, Test(l, "<", r)) == None
    ensures Condition(env, Test(l, "<=", r)) == None && Condition(env, Test(l, ">=", r)) == None
  {
    GreaterTest(env, l, r);
    OtherTestFails(env, l, "<", r);
    OtherTestFails(env, l, "<=", r);
    OtherTestFails(env, l, ">=", r);
  }

  // ---- values ---------------------------------------------------------------------------------

  /** A text with one dot is a column of the first row of a table, or the value of another
      parameter, whatever the column; so a number with a dot is no literal. */
  lemma DottedTextIsRead(env: Env, name: string, column: string)
    requires '.' !in name && '.' !in column && column != ""
    ensures ParamValue(env, name + "." + column) ==
            if name !in env then None
            else if env[name].dataType != TableType then Some(env[name].value)
            else if env[name].value.Table? && env[name].value.rows != [] then
              Some(ColumnOf(env[name].value.rows[0].columns, column))
            else None
  {
    SplitsInTwo(name, '.', column);
    assert (name + "." + column)[|name|] == '.';
  }

  /** A column that the row has is found, if its name is not that of an earlier one; any other is
      null. */
  lemma {:induction false} ColumnIsFound(columns: seq<Column>, name: string, k: nat)
    requires k <= |columns| && forall i :: 0 <= i < k ==> columns[i].name != name
    requires k < |columns| ==> columns[k].name == name
    ensures ColumnOf(columns, name) == if k < |columns| then columns[k].value else Null
    decreases k
  {
    if k > 0 {
      ColumnIsFound(columns[1..], name, k - 1);
    }
  }

  // ---- calls ------------------------------------------------------------------------------------

  /** A call without a further parenthesis is read as its name and its arguments. */
  lemma CallIsRead(name: string, args: string)
    requires '(' !in name && '(' !in args
    ensures InvocationOf(name + "(" + args + ")") == Invocation(name, args)
  {
    var text := name + "(" + args + ")";
    assert text == name + "(" + (args + ")");
    SplitsInTwo(name, '(', args + ")");
    assert text[|name|] == '(' && text[|text| - 1] == ')';
    assert (args + ")")[..|args|] == args;
  }

  /** Of a call among the arguments only the name is left, less its last character. */
  lemma NestedCallIsCut(name: string, inner: string, args: string)
    requires '(' !in name && '(' !in inner && inner != "" && '(' !in args
    ensures InvocationOf(name + "(" + (inner + "(" + args + "))")) == Invocation(name, inner[..|inner| - 1])
  {
    var rest := inner + "(" + args + "))";
    var text := name + "(" + rest;
    assert rest == inner + "(" + (args + "))");
    SplitsInTwo(inner, '(', args + "))");
    ClearWithout(name, '(', rest);
    PiecesCut(name, "(", rest);
    assert Pieces(text, "(") == [name] + [inner, args + "))"];
    assert [name] + [inner, args + "))"] == [name, inner, args + "))"];
    assert text[|name|] == '(' && text[|text| - 1] == ')';
  }
}
