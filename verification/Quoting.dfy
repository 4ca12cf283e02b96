/** What a name is rewritten to: in a query text, the value of a string parameter in quotes; otherwise the
    bare text of the value. */
module Quoting {
  import opened Wrappers
  import opened Text
  import opened Syntax
  import opened Substitution
  import opened References

  // ---- texts of values ------------------------------------------------------------------------

  /** A value as Java writes it: lists in brackets, maps in braces, `null` for none. */
  ghost function JavaText(v: Value): string
    decreases v
  {
    match v
    case Null => "null"
    case Str(text) => text
    case Scalar(_, text) => text
    case Table(rows) => "[" + Join(RowsWritten(rows), ", ") + "]"
  }

  ghost function RowsWritten(rows: seq<Row>): seq<string>
    decreases rows
  {
    if rows == [] then [] else ["{" + Join(ColumnsWritten(rows[0].columns), ", ") + "}"] + RowsWritten(rows[1..])
  }

  ghost function ColumnsWritten(columns: seq<Column>): seq<string>
    decreases columns
  {
    if columns == [] then [] else [columns[0].name + "=" + JavaText(columns[0].value)] + ColumnsWritten(columns[1..])
  }

  lemma JoinFirst(first: string, more: seq<string>)
    ensures Join([first] + more, ", ") == first + (if more == [] then "" else ", ") + Join(more, ", ")
  {
    assert ([first] + more)[1..] == more;
    if more == [] {
      assert first + "" + "" == first;
    }
  }

  lemma {:induction false} TextIsJavaText(v: Value)
    ensures TextOf(v) == JavaText(v)
    decreases v
  {
    if v.Table? {
      RowsAreWritten(v.rows);
    }
  }

  lemma {:induction false} RowsAreWritten(rows: seq<Row>)
    ensures RowTexts(rows) == Join(RowsWritten(rows), ", ") && |RowsWritten(rows)| == |rows|
    decreases rows
  {
    if rows != [] {
      ColumnsAreWritten(rows[0].columns);
      RowsAreWritten(rows[1..]);
      JoinFirst("{" + Join(ColumnsWritten(rows[0].columns), ", ") + "}", RowsWritten(rows[1..]));
    }
  }

  lemma {:induction false} ColumnsAreWritten(columns: seq<Column>)
    ensures ColumnTexts(columns) == Join(ColumnsWritten(columns), ", ") && |ColumnsWritten(columns)| == |columns|
    decreases columns
  {
    if columns != [] {
      TextIsJavaText(columns[0].value);
      ColumnsAreWritten(columns[1..]);
      JoinFirst(columns[0].name + "=" + JavaText(columns[0].value), ColumnsWritten(columns[1..]));
    }
  }

  // ---- one name -----------------------------------------------------------------------------------

  /** What is written for a parameter: in SQL a string is quoted, so that null is written too; elsewhere, and
      for any other type, there is no quote and nothing to write for null. */
  ghost predicate WrittenAs(p: Param, issql: bool, text: Option<string>)
  {
    && (issql && p.dataType == StringType ==> text == Some("'" + JavaText(p.value) + "'"))
    && (!issql || p.dataType != StringType ==>
          && (p.value == Null ==> text == None)
          && (p.value != Null ==> text == Some(JavaText(p.value))))
  }

  /** A name as it stands in a text: an '@' and no other, and neither space, comma nor closing parenthesis. */
  predicate IsName(name: string)
  {
    && name != "" && name[0] == '@'
    && forall i :: 0 < i < |name| ==> name[i] != '@' && name[i] != ' ' && name[i] != ',' && name[i] != ')'
  }

  /** What can stand behind a name: nothing, or one of the three characters that end it. */
  predicate EndsName(after: string) { after == "" || after[0] == ' ' || after[0] == ',' || after[0] == ')' }

  lemma {:induction false} WholeToken(s: string)
    requires forall i :: 0 <= i < |s| ==> !IsDelimiter(s[i])
    ensures Token(s) == s
  {
    if s != "" {
      assert forall i :: 0 <= i < |s| - 1 ==> s[1..][i] == s[i + 1];
      WholeToken(s[1..]);
      assert [s[0]] + s[1..] == s;
    }
  }

  lemma NameIsToken(name: string)
    requires IsName(name)
    ensures IsToken(name)
  {
    assert forall i :: 0 <= i < |name| - 1 ==> name[1..][i] == name[i + 1];
    WholeToken(name);
  }

  lemma NameIsFound(before: string, name: string, after: string)
    requires '@' !in before && IsName(name) && EndsName(after)
    ensures '@' in before + name + after && NameAt(before + name + after) == name
  {
    var text := before + name + after;
    NameIsToken(name);
    assert text[|before|] == '@';
    assert forall i :: 0 <= i < |before| ==> text[i] == before[i];
    assert text[IndexOf(text, '@', 0)..] == name + after;
    TokenConcat(name, after);
  }

  lemma NameIsReplaced(before: string, name: string, after: string, val: string)
    requires '@' !in before && '@' !in after && IsName(name)
    ensures Replace(before + name + after, name, val) == before + val + after
  {
    assert before + name + after == before + (name + after);
    ReplaceSkips(before, name + after, name, val);
    assert (name + after)[|name|..] == after && name <= name + after;
    assert after + "" == after;
    ReplaceSkips(after, "", name, val);
    assert before + (val + after) == before + val + after;
  }

  /** One name in a text is replaced by what is written for its parameter, and then what was written is
      rewritten in turn; there is nothing to write, and rewriting fails, if the name is undeclared. */
  lemma NameIsWritten(env: Env, issql: bool, before: string, name: string, after: string, text: Option<string>,
                      fuel: nat)
    requires '@' !in before && '@' !in after && IsName(name) && EndsName(after) && fuel > 0
    requires if name in env then WrittenAs(env[name], issql, text) else text == None
    ensures Rewrite(env, issql, before + name + after, fuel)
         == if text == None then Failed else Rewrite(env, issql, before + text.value + after, fuel - 1)
  {
    NameIsFound(before, name, after);
    OneRound(env, issql, before + name + after, fuel);
    if name in env {
      TextIsJavaText(env[name].value);
      NameIsReplaced(before, name, after, Val(env, issql, name));
    }
  }

  /** A text without '@' is written for good. */
  lemma PlainNameIsWritten(env: Env, issql: bool, before: string, name: string, after: string, text: Option<string>,
                           fuel: nat)
    requires '@' !in before && '@' !in after && IsName(name) && EndsName(after) && fuel > 0
    requires if name in env then WrittenAs(env[name], issql, text) else text == None
    requires text.Some? ==> '@' !in text.value
    ensures Rewrite(env, issql, before + name + after, fuel)
         == if text == None then Failed else Finished(before + text.value + after)
  {
    NameIsWritten(env, issql, before, name, after, text, fuel);
    if text.Some? {
      OneRound(env, issql, before + text.value + after, fuel - 1);
    }
  }

  lemma NameLeads(env: Env, issql: bool, name: string, after: string, text: Option<string>)
    requires IsName(name) && EndsName(after)
    requires if name in env then WrittenAs(env[name], issql, text) else text == None
    ensures Substitute(env, issql, name + after)
         == if text == None then Failed else Prepend(text.value, Substitute(env, issql, after))
  {
    NameIsToken(name);
    TokenConcat(name, after);
    assert (name + after)[|name|..] == after && (name + after)[0] == '@';
    if name in env {
      TextIsJavaText(env[name].value);
    }
  }

  /** Simultaneous substitution writes the same for each name. */
  lemma {:induction false} SubstitutionWrites(env: Env, issql: bool, before: string, name: string, after: string,
                                              text: Option<string>)
    requires '@' !in before && IsName(name) && EndsName(after)
    requires if name in env then WrittenAs(env[name], issql, text) else text == None
    ensures Substitute(env, issql, before + name + after)
         == if text == None then Failed else Prepend(before + text.value, Substitute(env, issql, after))
    decreases |before|
  {
    var all := before + name + after;
    if before == "" {
      assert all == name + after;
      assert before + (if text.Some? then text.value else "") == if text.Some? then text.value else "";
      NameLeads(env, issql, name, after, text);
    } else {
      assert all[1..] == before[1..] + name + after && all[0] == before[0];
      SubstitutionWrites(env, issql, before[1..], name, after, text);
      if text.Some? {
        PrependTwice([before[0]], before[1..] + text.value, Substitute(env, issql, after));
        assert [before[0]] + (before[1..] + text.value) == before + text.value;
      }
    }
  }

  lemma PrependTwice(a: string, b: string, r: Rewritten)
    ensures Prepend(a, Prepend(b, r)) == Prepend(a + b, r)
  {
    if r.Finished? {
      assert a + (b + r.text) == a + b + r.text;
    }
  }
}
