/** How `@name` texts are rewritten: the loop that replaces one name at a time throughout the
    text, a one-pass account of what that loop does, and simultaneous substitution. */
module Substitution {
  import opened Wrappers
  import opened Text
  import opened Syntax

  type Env = map<string, Param>

  // ---- texts of values -------------------------------------------------------------

  /** String.valueOf, collections and maps written as Java writes them. */
  function TextOf(v: Value): string
    decreases v
  {
    match v
    case Null => "null"
    case Str(text) => text
    case Scalar(_, text) => text
    case Table(rows) => "[" + RowTexts(rows) + "]"
  }

  function RowTexts(rows: seq<Row>): string
    decreases rows
  {
    if rows == [] then ""
    else "{" + ColumnTexts(rows[0].columns) + "}" + (if |rows| > 1 then ", " else "") + RowTexts(rows[1..])
  }

  function ColumnTexts(columns: seq<Column>): string
    decreases columns
  {
    if columns == [] then ""
    else
      columns[0].name + "=" + TextOf(columns[0].value) + (if |columns| > 1 then ", " else "")
      + ColumnTexts(columns[1..])
  }

  /** What a name is replaced by: quoted exactly for a string parameter in SQL. A null value
      fails, except when it is quoted. */
  function Shown(p: Param, issql: bool): Option<string>
  {
    if issql && p.dataType == StringType then Some("'" + TextOf(p.value) + "'")
    else if p.value == Null then None
    else Some(TextOf(p.value))
  }

  // ---- tokens ------------------------------------------------------------------------

  predicate IsDelimiter(c: char) { c == ' ' || c == ',' || c == ')' }

  /** The characters up to the first delimiter. */
  function Token(s: string): (t: string)
    ensures t <= s
  {
    if s == "" || IsDelimiter(s[0]) then "" else [s[0]] + Token(s[1..])
  }

  predicate IsToken(t: string)
  {
    t != "" && t[0] == '@' && '@' !in t[1..] && Token(t) == t
  }

  /** No token has an '@' but at its head. */
  predicate CleanText(s: string)
  {
    s == "" || ((s[0] == '@' ==> '@' !in Token(s[1..])) && CleanText(s[1..]))
  }

  function CountAt(s: string): nat
  {
    if s == "" then 0 else (if s[0] == '@' then 1 else 0) + CountAt(s[1..])
  }

  // ---- the rewriting loop --------------------------------------------------------------

  datatype Rewritten = Finished(text: string) | Failed | Looping

  function NameAt(text: string): string
    requires '@' in text
  {
    Token(text[IndexOf(text, '@', 0)..])
  }

  /** paramChage, for at most `fuel` rounds. */
  function Rewrite(env: Env, issql: bool, text: string, fuel: nat): Rewritten
    decreases fuel, 1
  {
    if '@' !in text then Finished(text) else if fuel == 0 then Looping else RewriteName(env, issql, text, fuel)
  }

  /** One of its rounds. */
  function RewriteName(env: Env, issql: bool, text: string, fuel: nat): Rewritten
    requires '@' in text && fuel > 0
    decreases fuel, 0
  {
    var name := NameAt(text);
    if name !in env || Shown(env[name], issql) == None || name == "" then Failed
    else Rewrite(env, issql, Replace(text, name, Shown(env[name], issql).value), fuel - 1)
  }

  // ---- simultaneous substitution ---------------------------------------------------------

  ghost predicate Known(env: Env, issql: bool, name: string)
  {
    name in env && Shown(env[name], issql).Some?
  }

  ghost function Val(env: Env, issql: bool, name: string): string
  {
    if Known(env, issql, name) then Shown(env[name], issql).value else ""
  }

  ghost function Prepend(text: string, r: Rewritten): Rewritten
  {
    if r.Finished? then Finished(text + r.text) else r
  }

  /** Every token replaced by its own parameter's text, all at once. */
  ghost function Substitute(env: Env, issql: bool, s: string): Rewritten
    decreases |s|
  {
    if s == "" then Finished("")
    else if s[0] != '@' then Prepend([s[0]], Substitute(env, issql, s[1..]))
    else
      var name := Token(s);
      if !Known(env, issql, name) then Failed
      else Prepend(Val(env, issql, name), Substitute(env, issql, s[|name|..]))
  }

  // ---- the loop in one pass ----------------------------------------------------------------

  /** The first of the names that the text starts with. */
  function Leader(names: seq<string>, s: string): (r: Option<string>)
    ensures r.Some? ==> r.value != "" && r.value <= s && r.value in names
  {
    if names == [] then None
    else if names[0] != "" && names[0] <= s then Some(names[0])
    else Leader(names[1..], s)
  }

  /** One pass: a name once replaced also replaces the head of every later token it is a
      prefix of; the earliest such name wins. */
  ghost function OnePass(env: Env, issql: bool, names: seq<string>, s: string): Rewritten
    decreases |s|
  {
    if s == "" then Finished("")
    else if s[0] != '@' then Prepend([s[0]], OnePass(env, issql, names, s[1..]))
    else match Leader(names, s)
      case Some(name) => Prepend(Val(env, issql, name), OnePass(env, issql, names, s[|name|..]))
      case None =>
        var name := Token(s);
        if !Known(env, issql, name) then Failed
        else Prepend(Val(env, issql, name), OnePass(env, issql, names + [name], s[|name|..]))
  }

  /** The text with these names replaced, one after the other. */
  ghost function Sweep(env: Env, issql: bool, names: seq<string>, s: string): string
    decreases |s|
  {
    if s == "" then ""
    else if s[0] != '@' then [s[0]] + Sweep(env, issql, names, s[1..])
    else match Leader(names, s)
      case Some(name) => Val(env, issql, name) + Sweep(env, issql, names, s[|name|..])
      case None => [s[0]] + Sweep(env, issql, names, s[1..])
  }

  /** The token of the first '@' none of the names replaces. */
  function Next(names: seq<string>, s: string): Option<string>
    decreases |s|
  {
    if s == "" then None
    else if s[0] != '@' then Next(names, s[1..])
    else match Leader(names, s)
      case Some(name) => Next(names, s[|name|..])
      case None => Some(Token(s))
  }

  /** No value that could be written into the text contains an '@'. */
  ghost predicate Plain(env: Env, issql: bool)
  {
    forall name :: Known(env, issql, name) ==> '@' !in Val(env, issql, name)
  }

  lemma CleanSuffix(s: string, k: nat)
    requires CleanText(s) && k <= |s|
    ensures CleanText(s[k..])
  {
    if k > 0 {
      CleanSuffix(s[1..], k - 1);
      assert s[1..][k - 1..] == s[k..];
    } else {
      assert s[0..] == s;
    }
  }

  lemma TokenIsToken(s: string)
    requires s != "" && s[0] == '@' && '@' !in Token(s[1..])
    ensures IsToken(Token(s))
  {
    TokenOfToken(s);
    assert Token(s)[1..] == Token(s[1..]);
  }

  lemma TokenOfToken(s: string)
    ensures Token(Token(s)) == Token(s)
  {
    if s != "" && !IsDelimiter(s[0]) {
      TokenOfToken(s[1..]);
      assert Token(s)[1..] == Token(s[1..]);
    }
  }

  /** Sweeping leaves the text of a token that is not replaced as it is. */
  lemma {:induction false} SweepKeepsToken(env: Env, issql: bool, names: seq<string>, s: string)
    requires '@' !in Token(s)
    ensures Token(Sweep(env, issql, names, s)) == Token(s)
  {
    var t := Sweep(env, issql, names, s);
    if s != "" {
      if IsDelimiter(s[0]) {
        assert t[0] == s[0];
      } else {
        HeadIsNotAt(s);
        SweepKeepsToken(env, issql, names, s[1..]);
        assert t[1..] == Sweep(env, issql, names, s[1..]);
      }
    }
  }

  lemma HeadIsNotAt(s: string)
    requires s != "" && '@' !in Token(s) && !IsDelimiter(s[0])
    ensures s[0] != '@' && '@' !in Token(s[1..])
  {
    assert Token(s)[0] == s[0] && Token(s)[1..] == Token(s[1..]);
  }

  lemma {:induction false} SweepKeepsPrefix(env: Env, issql: bool, names: seq<string>, s: string, m: string)
    requires '@' !in Token(s) && Token(m) == m
    ensures m <= Sweep(env, issql, names, s) <==> m <= s
    ensures m <= s ==> Sweep(env, issql, names, s)[|m|..] == Sweep(env, issql, names, s[|m|..])
  {
    var t := Sweep(env, issql, names, s);
    if m == "" {
      assert t[0..] == t && s[0..] == s;
    } else if s != "" {
      if IsDelimiter(s[0]) {
        assert t[0] == s[0] && !IsDelimiter(m[0]);
      } else {
        HeadIsNotAt(s);
        SweepKeepsPrefix(env, issql, names, s[1..], m[1..]);
        assert t == [s[0]] + Sweep(env, issql, names, s[1..]);
        PrefixTail(m, s);
        PrefixTail(m, t);
      }
    }
  }

  lemma PrefixTail(m: string, s: string)
    requires m != "" && s != ""
    ensures m <= s <==> m[0] == s[0] && m[1..] <= s[1..]
    ensures m <= s ==> s[1..][|m| - 1..] == s[|m|..]
  {
    if m[0] == s[0] && m[1..] <= s[1..] {
      assert m == [m[0]] + m[1..] && s == [s[0]] + s[1..];
    }
  }

  /** Replacing one more name in a swept text sweeps with that name too. */
  lemma {:induction false} ReplaceSweeps(env: Env, issql: bool, names: seq<string>, name: string, s: string)
    requires Plain(env, issql) && CleanText(s) && IsToken(name)
    ensures Replace(Sweep(env, issql, names, s), name, Val(env, issql, name)) == Sweep(env, issql, names + [name], s)
    decreases |s|
  {
    var val := Val(env, issql, name);
    if s == "" {
    } else if s[0] != '@' {
      ReplaceSweeps(env, issql, names, name, s[1..]);
      ReplaceSkips([s[0]], Sweep(env, issql, names, s[1..]), name, val);
    } else {
      LeaderAppend(names, name, s);
      match Leader(names, s)
      case Some(lead) =>
        CleanSuffix(s, |lead|);
        ReplaceSweeps(env, issql, names, name, s[|lead|..]);
        ReplaceSkips(Val(env, issql, lead), Sweep(env, issql, names, s[|lead|..]), name, val);
      case None =>
        SweepUnled(env, issql, names, name, s);
        if name <= s {
          CleanSuffix(s, |name|);
          ReplaceSweeps(env, issql, names, name, s[|name|..]);
        } else {
          ReplaceSweeps(env, issql, names, name, s[1..]);
          assert Sweep(env, issql, names, s)[1..] == Sweep(env, issql, names, s[1..]);
        }
    }
  }

  /** A token that no name replaces is met by the next name just as in the original text. */
  lemma SweepUnled(env: Env, issql: bool, names: seq<string>, name: string, s: string)
    requires IsToken(name) && CleanText(s)
    requires s != "" && s[0] == '@' && Leader(names, s) == None
    ensures Sweep(env, issql, names, s) == ['@'] + Sweep(env, issql, names, s[1..])
    ensures name <= Sweep(env, issql, names, s) <==> name <= s
    ensures name <= s ==> Sweep(env, issql, names, s)[|name|..] == Sweep(env, issql, names, s[|name|..])
  {
    var t := Sweep(env, issql, names, s);
    assert Token(name[1..]) == name[1..] by {
      assert Token(name) == ['@'] + Token(name[1..]);
    }
    SweepKeepsPrefix(env, issql, names, s[1..], name[1..]);
    PrefixTail(name, s);
    PrefixTail(name, t);
    assert t[1..] == Sweep(env, issql, names, s[1..]);
    if name <= s {
      assert s[1..][|name| - 1..] == s[|name|..];
    }
  }

  lemma {:induction false} LeaderAppend(names: seq<string>, name: string, s: string)
    ensures Leader(names + [name], s)
         == if Leader(names, s).Some? then Leader(names, s) else if name != "" && name <= s then Some(name) else None
  {
    if names == [] {
      assert [] + [name] == [name];
    } else {
      assert (names + [name])[1..] == names[1..] + [name];
      LeaderAppend(names[1..], name, s);
    }
  }

  /** The loop, as a function of the text and the number of rounds. */
  ghost function Rewriting(env: Env, issql: bool): (string, nat) -> Rewritten
  {
    (s: string, fuel: nat) => Rewrite(env, issql, s, fuel)
  }

  // ---- one round ----------------------------------------------------------------------------

  lemma NameIsHeaded(text: string)
    requires '@' in text
    ensures NameAt(text) != "" && NameAt(text)[0] == '@'
  {
    var from := text[IndexOf(text, '@', 0)..];
    assert from[0] == '@';
  }

  /** The text after one round, in which the name at the first '@' is replaced throughout. */
  ghost function Replaced(env: Env, issql: bool, text: string): string
    requires '@' in text
  {
    NameIsHeaded(text);
    Replace(text, NameAt(text), Val(env, issql, NameAt(text)))
  }

  /** One round: a text without names is finished; otherwise the name at the first '@' is looked up,
      and replaced if it is known. */
  lemma OneRound(env: Env, issql: bool, text: string, fuel: nat)
    ensures '@' !in text ==> Rewrite(env, issql, text, fuel) == Finished(text)
    ensures '@' in text && fuel == 0 ==> Rewrite(env, issql, text, fuel) == Looping
    ensures '@' in text && fuel > 0 && !Known(env, issql, NameAt(text)) ==> Rewrite(env, issql, text, fuel) == Failed
    ensures '@' in text && fuel > 0 && Known(env, issql, NameAt(text)) ==>
              Rewrite(env, issql, text, fuel) == Rewrite(env, issql, Replaced(env, issql, text), fuel - 1)
  {
    if '@' in text {
      NameIsHeaded(text);
    }
  }

  ghost predicate GoesOn(loop: (string, nat) -> Rewritten, text: string, fuel: nat, next: string)
  {
    fuel > 0 && loop(text, fuel) == loop(next, fuel - 1)
  }

  lemma RoundGoesOn(env: Env, issql: bool, text: string, fuel: nat)
    requires '@' in text && Known(env, issql, NameAt(text)) && fuel > 0
    ensures GoesOn(Rewriting(env, issql), text, fuel, Replaced(env, issql, text))
  {
    OneRound(env, issql, text, fuel);
  }

  // ---- every round takes an '@' away -----------------------------------------------------

  /** The text from its first '@' on. */
  function FromAt(s: string): string
  {
    if s == "" || s[0] == '@' then s else FromAt(s[1..])
  }

  lemma IndexInTail(s: string)
    requires '@' in s && s[0] != '@'
    ensures '@' in s[1..] && IndexOf(s, '@', 0) == IndexOf(s[1..], '@', 0) + 1
  {
    var at := IndexOf(s, '@', 0);
    assert s[1..][at - 1] == '@';
    var k := IndexOf(s[1..], '@', 0);
    assert s[k + 1] == s[1..][k];
  }

  lemma {:induction false} FromAtIsIndex(s: string)
    requires '@' in s
    ensures FromAt(s) == s[IndexOf(s, '@', 0)..] && FromAt(s)[0] == '@'
  {
    if s[0] == '@' {
      assert s[0..] == s;
    } else {
      IndexInTail(s);
      FromAtIsIndex(s[1..]);
      var k := IndexOf(s[1..], '@', 0);
      assert s[1..][k..] == s[k + 1..];
    }
  }

  lemma {:induction false} FromAtSkips(a: string, s: string)
    requires '@' !in a
    ensures FromAt(a + s) == FromAt(s) && ('@' in a + s <==> '@' in s)
  {
    if a == "" {
      assert a + s == s;
    } else {
      assert (a + s)[1..] == a[1..] + s && (a + s)[0] == a[0];
      FromAtSkips(a[1..], s);
    }
  }

  lemma {:induction false} CountAtConcat(a: string, b: string)
    ensures CountAt(a + b) == CountAt(a) + CountAt(b)
    ensures '@' !in a ==> CountAt(a) == 0
  {
    if a == "" {
      assert a + b == b;
    } else {
      assert (a + b)[1..] == a[1..] + b;
      CountAtConcat(a[1..], b);
    }
  }

  lemma {:induction false} ReplaceTakesAts(s: string, name: string, val: string)
    requires name != "" && name[0] == '@' && '@' !in val
    ensures CountAt(Replace(s, name, val)) <= CountAt(s)
    ensures '@' in s && name <= FromAt(s) ==> CountAt(Replace(s, name, val)) < CountAt(s)
    decreases |s|
  {
    if s == "" {
    } else if name <= s {
      var rest := s[|name|..];
      assert s == name + rest;
      CountAtConcat(name, rest);
      CountAtConcat(val, Replace(rest, name, val));
      ReplaceTakesAts(rest, name, val);
      assert CountAt(name) >= 1;
    } else {
      ReplaceTakesAts(s[1..], name, val);
      var t := Replace(s, name, val);
      assert t[0] == s[0] && t[1..] == Replace(s[1..], name, val);
      if s[0] != '@' {
        assert s == [s[0]] + s[1..];
      }
    }
  }

  /** One round of the loop with plain values strictly lowers the number of '@' in any text, which
      bounds the number of rounds. */
  lemma RoundTakesAnAt(env: Env, issql: bool, text: string)
    requires Plain(env, issql) && '@' in text && Known(env, issql, NameAt(text))
    ensures CountAt(Replaced(env, issql, text)) < CountAt(text)
  {
    NameIsHeaded(text);
    FromAtIsIndex(text);
    ReplaceTakesAts(text, NameAt(text), Val(env, issql, NameAt(text)));
  }

  // ---- the loop is the one pass ------------------------------------------------------------

  lemma {:induction false} NextIsNameAt(env: Env, issql: bool, names: seq<string>, s: string)
    requires Plain(env, issql) && CleanText(s)
    ensures '@' in Sweep(env, issql, names, s) <==> Next(names, s).Some?
    ensures Next(names, s).Some? ==>
              IsToken(Next(names, s).value) && Token(FromAt(Sweep(env, issql, names, s))) == Next(names, s).value
    decreases |s|
  {
    var t := Sweep(env, issql, names, s);
    if s == "" {
    } else if s[0] != '@' {
      NextIsNameAt(env, issql, names, s[1..]);
      FromAtSkips([s[0]], Sweep(env, issql, names, s[1..]));
    } else {
      match Leader(names, s)
      case Some(lead) =>
        CleanSuffix(s, |lead|);
        NextIsNameAt(env, issql, names, s[|lead|..]);
        FromAtSkips(Val(env, issql, lead), Sweep(env, issql, names, s[|lead|..]));
      case None =>
        TokenIsToken(s);
        SweepKeepsToken(env, issql, names, s[1..]);
        assert t[0] == '@' && t[1..] == Sweep(env, issql, names, s[1..]);
    }
  }

  lemma {:induction false} OnePassNext(env: Env, issql: bool, names: seq<string>, s: string)
    requires CleanText(s)
    ensures Next(names, s) == None ==> OnePass(env, issql, names, s) == Finished(Sweep(env, issql, names, s))
    ensures Next(names, s).Some? && !Known(env, issql, Next(names, s).value) ==> OnePass(env, issql, names, s) == Failed
    ensures Next(names, s).Some? && Known(env, issql, Next(names, s).value) ==>
              OnePass(env, issql, names, s) == OnePass(env, issql, names + [Next(names, s).value], s)
    decreases |s|
  {
    if s == "" {
    } else if s[0] != '@' {
      OnePassNext(env, issql, names, s[1..]);
    } else {
      match Leader(names, s)
      case Some(lead) =>
        CleanSuffix(s, |lead|);
        OnePassNext(env, issql, names, s[|lead|..]);
        if Next(names, s).Some? {
          LeaderAppend(names, Next(names, s).value, s);
        }
      case None =>
        TokenIsToken(s);
        LeaderAppend(names, Token(s), s);
    }
  }

  /** Within so many rounds the loop on `t`, which is `s` with some names already replaced, can be
      compared with the pass over `s`. */
  ghost predicate IsSwept(env: Env, issql: bool, names: seq<string>, s: string, t: string, fuel: nat)
  {
    CleanText(s) && t == Sweep(env, issql, names, s) && CountAt(t) <= fuel
  }

  ghost predicate FinishesPass(env: Env, issql: bool, names: seq<string>, s: string, t: string, fuel: nat)
  {
    Rewrite(env, issql, t, fuel) == OnePass(env, issql, names, s)
  }

  /** Starting from a text with some names already replaced, the loop finishes what the pass
      over the original text does. */
  lemma {:induction false} RewriteFinishesPass(env: Env, issql: bool, names: seq<string>, s: string, t: string,
                                               fuel: nat)
    requires Plain(env, issql) && IsSwept(env, issql, names, s, t, fuel)
    ensures FinishesPass(env, issql, names, s, t, fuel)
    decreases fuel
  {
    if Next(names, s).Some? && Known(env, issql, Next(names, s).value) {
      var names', t' := PassRound(env, issql, names, s, t, fuel);
      RewriteFinishesPass(env, issql, names', s, t', fuel - 1);
    } else {
      RewriteEnds(env, issql, names, s, t, fuel);
    }
  }

  lemma PassRound(env: Env, issql: bool, names: seq<string>, s: string, t: string, fuel: nat)
    returns (names': seq<string>, t': string)
    requires Plain(env, issql) && IsSwept(env, issql, names, s, t, fuel)
    requires Next(names, s).Some? && Known(env, issql, Next(names, s).value)
    ensures fuel > 0 && IsSwept(env, issql, names', s, t', fuel - 1)
    ensures FinishesPass(env, issql, names', s, t', fuel - 1) ==> FinishesPass(env, issql, names, s, t, fuel)
  {
    var name := Next(names, s).value;
    NextIsNameAt(env, issql, names, s);
    PlainRound(env, issql, t, name, fuel);
    ReplaceSweeps(env, issql, names, name, s);
    OnePassNext(env, issql, names, s);
    names', t' := names + [name], Replace(t, name, Val(env, issql, name));
  }

  lemma RewriteEnds(env: Env, issql: bool, names: seq<string>, s: string, t: string, fuel: nat)
    requires Plain(env, issql) && IsSwept(env, issql, names, s, t, fuel)
    requires Next(names, s).Some? ==> !Known(env, issql, Next(names, s).value)
    ensures FinishesPass(env, issql, names, s, t, fuel)
  {
    NextIsNameAt(env, issql, names, s);
    OnePassNext(env, issql, names, s);
    if Next(names, s).Some? {
      PlainRound(env, issql, t, Next(names, s).value, fuel);
    }
  }

  lemma PlainRound(env: Env, issql: bool, text: string, name: string, fuel: nat)
    requires Plain(env, issql) && '@' in text && name == Token(FromAt(text)) && CountAt(text) <= fuel
    ensures name == NameAt(text)
    ensures !Known(env, issql, name) ==> Rewrite(env, issql, text, fuel) == Failed
    ensures Known(env, issql, name) ==>
              var text' := Replaced(env, issql, text);
              CountAt(text') < CountAt(text) && Rewrite(env, issql, text, fuel) == Rewrite(env, issql, text', fuel - 1)
  {
    FromAtIsIndex(text);
    CountsAt(text);
    OneRound(env, issql, text, fuel);
    if Known(env, issql, name) {
      RoundTakesAnAt(env, issql, text);
    }
  }

  lemma CountsAt(s: string)
    requires '@' in s
    ensures CountAt(s) > 0
  {
    if s[0] != '@' {
      assert s == [s[0]] + s[1..];
      CountsAt(s[1..]);
    }
  }

  /** Without replaced names there is nothing to sweep. */
  lemma {:induction false} SweepNothing(env: Env, issql: bool, s: string)
    ensures Sweep(env, issql, [], s) == s
    decreases |s|
  {
    if s != "" {
      SweepNothing(env, issql, s[1..]);
      assert [s[0]] + s[1..] == s;
    }
  }

  /** The rewriting loop terminates within as many rounds as the text has '@', and does
      exactly what the one pass does. */
  lemma RewriteIsOnePass(env: Env, issql: bool, text: string, fuel: nat)
    requires Plain(env, issql) && CleanText(text) && CountAt(text) <= fuel
    ensures Rewrite(env, issql, text, fuel) == OnePass(env, issql, [], text)
  {
    SweepNothing(env, issql, text);
    RewriteFinishesPass(env, issql, [], text, text, fuel);
  }

  // ---- when the loop is simultaneous substitution -------------------------------------------

  /** The distinct tokens of a text in the order of their first occurrences, after `names`. */
  function Names(names: seq<string>, s: string): (r: seq<string>)
    ensures names <= r
    decreases |s|
  {
    if s == "" then names
    else if s[0] != '@' then Names(names, s[1..])
    else
      var name := Token(s);
      Names(if name in names then names else names + [name], s[|name|..])
  }

  /** No token is met, before it first occurs itself, by a token that is a prefix of it. */
  predicate NoEarlierPrefix(names: seq<string>)
  {
    forall i, j :: 0 <= i < j < |names| ==> !(names[i] <= names[j])
  }

  ghost predicate AllTokens(names: seq<string>) { forall i :: 0 <= i < |names| ==> IsToken(names[i]) }

  /** A token the text starts with is a prefix of the token the text starts with. */
  lemma TokenPrefix(t: string, s: string)
    requires Token(t) == t && t <= s
    ensures t <= Token(s)
  {
    if t != "" {
      PrefixTail(t, s);
      assert Token(t)[1..] == Token(t[1..]);
      TokenPrefix(t[1..], s[1..]);
      PrefixTail(t, Token(s));
    }
  }

  lemma {:induction false} LeaderIs(names: seq<string>, s: string)
    requires AllTokens(names) && NoEarlierPrefix(names) && s != "" && s[0] == '@'
    ensures Token(s) in names ==> Leader(names, s) == Some(Token(s))
    ensures Token(s) !in names && Leader(names, s).Some? ==>
              Leader(names, s).value in names && Leader(names, s).value <= Token(s)
  {
    if names != [] {
      if names[0] <= s {
        TokenPrefix(names[0], s);
        forall j | 0 < j < |names| ensures names[j] != Token(s) {
          assert !(names[0] <= names[j]);
        }
      } else {
        assert forall i, j :: 0 <= i < j < |names[1..]| ==>
            names[1..][i] == names[i + 1] && names[1..][j] == names[j + 1];
        LeaderIs(names[1..], s);
        if Token(s) in names {
          assert names[0] != Token(s);
        }
      }
    }
  }

  lemma NoEarlierPrefixHolds(names: seq<string>, all: seq<string>)
    requires names <= all && NoEarlierPrefix(all)
    ensures NoEarlierPrefix(names)
  {
    forall i, j | 0 <= i < j < |names| ensures !(names[i] <= names[j]) {
      assert names[i] == all[i] && names[j] == all[j];
    }
  }

  /** The head token, when a name equal to it or no name at all leads it. */
  lemma HeadToken(env: Env, issql: bool, names: seq<string>, s: string)
    requires s != "" && s[0] == '@'
    ensures var name := Token(s);
            var rest, val := s[|name|..], Val(env, issql, name);
            && name != ""
            && Substitute(env, issql, s)
               == (if Known(env, issql, name) then Prepend(val, Substitute(env, issql, rest)) else Failed)
            && (Leader(names, s) == Some(name) ==>
                  OnePass(env, issql, names, s) == Prepend(val, OnePass(env, issql, names, rest)))
            && (Leader(names, s) == None ==>
                  OnePass(env, issql, names, s)
                  == if Known(env, issql, name) then Prepend(val, OnePass(env, issql, names + [name], rest))
                     else Failed)
  {
  }

  /** If no token has an earlier token as a prefix, replacing names one after the other is
      substituting all of them at once. */
  lemma {:induction false} PassSubstitutes(env: Env, issql: bool, names: seq<string>, s: string)
    requires CleanText(s) && AllTokens(names) && NoEarlierPrefix(Names(names, s))
    requires forall i :: 0 <= i < |names| ==> Known(env, issql, names[i])
    ensures OnePass(env, issql, names, s) == Substitute(env, issql, s)
    decreases |s|
  {
    if s == "" {
    } else if s[0] != '@' {
      PassSubstitutes(env, issql, names, s[1..]);
    } else {
      var name := Token(s);
      HeadToken(env, issql, names, s);
      TokenIsToken(s);
      CleanSuffix(s, |name|);
      if name in names {
        assert Leader(names, s) == Some(name) by {
          NoEarlierPrefixHolds(names, Names(names, s));
          LeaderIs(names, s);
        }
        PassSubstitutes(env, issql, names, s[|name|..]);
      } else {
        NewTokenIsUnled(names, name, s);
        if Known(env, issql, name) {
          PassSubstitutes(env, issql, names + [name], s[|name|..]);
        }
      }
    }
  }

  lemma NewTokenIsUnled(names: seq<string>, name: string, s: string)
    requires AllTokens(names) && s != "" && s[0] == '@' && name == Token(s) && name !in names
    requires NoEarlierPrefix(Names(names, s))
    ensures Leader(names, s) == None
  {
    var all := Names(names, s);
    assert names + [name] <= all;
    NoEarlierPrefixHolds(names, all);
    LeaderIs(names, s);
    forall i | 0 <= i < |names| ensures !(names[i] <= name) {
      assert all[i] == names[i] && all[|names|] == name;
    }
  }

  /** The documented meaning of a text with `@name`s, for every environment with plain values. */
  lemma RewriteSubstitutes(env: Env, issql: bool, text: string, fuel: nat)
    requires Plain(env, issql) && CleanText(text) && CountAt(text) <= fuel
    requires NoEarlierPrefix(Names([], text))
    ensures Rewrite(env, issql, text, fuel) == Substitute(env, issql, text)
  {
    RewriteIsOnePass(env, issql, text, fuel);
    PassSubstitutes(env, issql, [], text);
  }

  // ---- and when it is not ---------------------------------------------------------------------

  /** An environment in which every one of the names has the empty string. */
  ghost function Blank(names: seq<string>): Env
  {
    map name | name in names :: Param(IntType, Str(""))
  }

  ghost predicate CoversTokens(names: seq<string>, s: string)
    decreases |s|
  {
    s == "" || (if s[0] != '@' then CoversTokens(names, s[1..])
                else Token(s) in names && CoversTokens(names, s[|Token(s)|..]))
  }

  lemma {:induction false} NamesCover(names: seq<string>, s: string)
    ensures CoversTokens(Names(names, s), s)
    decreases |s|
  {
    if s == "" {
    } else if s[0] != '@' {
      NamesCover(names, s[1..]);
    } else {
      var name := Token(s);
      var names' := if name in names then names else names + [name];
      NamesCover(names', s[|name|..]);
      assert name in names';
    }
  }

  /** With empty values nothing but the tokens disappears, so the pass never yields less text
      than substitution. */
  lemma {:induction false} PassKeepsMore(all: seq<string>, names: seq<string>, s: string)
    requires CleanText(s) && CoversTokens(all, s) && AllTokens(names)
    ensures OnePass(Blank(all), false, names, s).Finished? && Substitute(Blank(all), false, s).Finished?
    ensures |Substitute(Blank(all), false, s).text| <= |OnePass(Blank(all), false, names, s).text|
    decreases |s|
  {
    if s == "" {
    } else if s[0] != '@' {
      PassKeepsMore(all, names, s[1..]);
    } else {
      var name := Token(s);
      TokenIsToken(s);
      CleanSuffix(s, |name|);
      match Leader(names, s)
      case None => PassKeepsMore(all, names + [name], s[|name|..]);
      case Some(lead) =>
        LedTokenIsCut(all, names, s);
        PassKeepsMore(all, names, s[|name|..]);
    }
  }

  /** What is left of a token that an earlier name replaces the head of. */
  lemma LedTokenIsCut(all: seq<string>, names: seq<string>, s: string)
    requires s != "" && s[0] == '@' && CleanText(s) && AllTokens(names) && CoversTokens(all, s)
    requires Leader(names, s).Some?
    ensures var name, lead := Token(s), Leader(names, s).value;
            && name != "" && lead <= name
            && OnePass(Blank(all), false, names, s)
               == Prepend(name[|lead|..], OnePass(Blank(all), false, names, s[|name|..]))
  {
    var name, lead := Token(s), Leader(names, s).value;
    TokenPrefix(lead, s);
    PassCopies(all, names, name[|lead|..], s[|name|..]);
    assert s[|lead|..] == name[|lead|..] + s[|name|..];
    var r := OnePass(Blank(all), false, names, s[|lead|..]);
    assert Val(Blank(all), false, lead) == "";
    if r.Finished? { assert "" + r.text == r.text; }
  }

  lemma {:induction false} PassCopies(all: seq<string>, names: seq<string>, a: string, s: string)
    requires '@' !in a
    ensures OnePass(Blank(all), false, names, a + s) == Prepend(a, OnePass(Blank(all), false, names, s))
  {
    var r := OnePass(Blank(all), false, names, s);
    if a == "" {
      assert a + s == s;
      if r.Finished? { assert "" + r.text == r.text; }
    } else {
      var t := a + s;
      assert t[1..] == a[1..] + s && t[0] == a[0];
      PassCopies(all, names, a[1..], s);
      if r.Finished? { assert [a[0]] + (a[1..] + r.text) == a + r.text; }
    }
  }

  /** The pass yields more text than substitution, both with empty values. */
  ghost predicate StrictlyMore(all: seq<string>, names: seq<string>, s: string)
  {
    var pass, all_ := OnePass(Blank(all), false, names, s), Substitute(Blank(all), false, s);
    pass.Finished? && all_.Finished? && |all_.text| < |pass.text|
  }

  lemma {:induction false} PassKeepsStrictlyMore(all: seq<string>, names: seq<string>, s: string)
    requires CleanText(s) && CoversTokens(all, s) && AllTokens(names) && NoEarlierPrefix(names)
    requires !NoEarlierPrefix(Names(names, s))
    ensures StrictlyMore(all, names, s)
    decreases |s|
  {
    if s == "" {
    } else if s[0] != '@' {
      PassKeepsStrictlyMore(all, names, s[1..]);
      assert StrictlyMore(all, names, s[1..]);
    } else {
      var name := Token(s);
      TokenIsToken(s);
      CleanSuffix(s, |name|);
      LeaderIs(names, s);
      if name in names {
        PassKeepsStrictlyMore(all, names, s[|name|..]);
        BlankTokens(all, names, s);
      } else if Leader(names, s) == None {
        NewTokenStaysFree(names, name, s);
        PassKeepsStrictlyMore(all, names + [name], s[|name|..]);
        BlankTokens(all, names, s);
      } else {
        CutTokenLeavesMore(all, names, s);
      }
    }
  }

  lemma CutTokenLeavesMore(all: seq<string>, names: seq<string>, s: string)
    requires s != "" && s[0] == '@' && CleanText(s) && CoversTokens(all, s) && AllTokens(names)
    requires Leader(names, s).Some? && Leader(names, s).value != Token(s)
    ensures StrictlyMore(all, names, s)
  {
    CleanSuffix(s, |Token(s)|);
    BlankTokens(all, names, s);
    LedTokenIsCut(all, names, s);
    PassKeepsMore(all, names, s[|Token(s)|..]);
    assert |Leader(names, s).value| != |Token(s)|;
  }

  /** With empty values a token disappears, from both, unless an earlier name leads it. */
  lemma BlankTokens(all: seq<string>, names: seq<string>, s: string)
    requires s != "" && s[0] == '@' && CleanText(s) && CoversTokens(all, s)
    ensures var name := Token(s);
            && name != "" && Substitute(Blank(all), false, s) == Substitute(Blank(all), false, s[|name|..])
            && (Leader(names, s) == Some(name) ==>
                  OnePass(Blank(all), false, names, s) == OnePass(Blank(all), false, names, s[|name|..]))
            && (Leader(names, s) == None ==>
                  OnePass(Blank(all), false, names, s) == OnePass(Blank(all), false, names + [name], s[|name|..]))
  {
    var name := Token(s);
    HeadToken(Blank(all), false, names, s);
    assert Val(Blank(all), false, name) == "";
    PrependNothing(Substitute(Blank(all), false, s[|name|..]));
    PrependNothing(OnePass(Blank(all), false, names, s[|name|..]));
    PrependNothing(OnePass(Blank(all), false, names + [name], s[|name|..]));
  }

  lemma PrependNothing(r: Rewritten)
    ensures Prepend("", r) == r
  {
    if r.Finished? { assert "" + r.text == r.text; }
  }

  lemma {:induction false} NewTokenStaysFree(names: seq<string>, name: string, s: string)
    requires AllTokens(names) && NoEarlierPrefix(names) && Leader(names, s) == None && name <= s
    ensures NoEarlierPrefix(names + [name])
  {
    forall i | 0 <= i < |names| ensures !(names[i] <= name) {
      UnledBy(names, s, i);
    }
  }

  lemma {:induction false} UnledBy(names: seq<string>, s: string, i: nat)
    requires i < |names| && AllTokens(names) && Leader(names, s) == None
    ensures !(names[i] <= s)
  {
    if i > 0 {
      UnledBy(names[1..], s, i - 1);
    }
  }

  ghost predicate MeansSubstitution(env: Env, issql: bool, text: string)
  {
    Plain(env, issql) ==> Rewrite(env, issql, text, CountAt(text)) == Substitute(env, issql, text)
  }

  /** The exact condition: a clean text means what substitution says, in every environment
      with plain values, if and only if none of its tokens first occurs after a token that is
      a prefix of it. */
  lemma RewriteSubstitutesExactlyWhen(text: string)
    requires CleanText(text)
    ensures (forall env, issql :: MeansSubstitution(env, issql, text)) <==> NoEarlierPrefix(Names([], text))
  {
    var names := Names([], text);
    if NoEarlierPrefix(names) {
      forall env, issql ensures MeansSubstitution(env, issql, text) {
        if Plain(env, issql) {
          RewriteSubstitutes(env, issql, text, CountAt(text));
        }
      }
    } else {
      var env := Blank(names);
      assert Plain(env, false);
      NamesCover([], text);
      PassKeepsStrictlyMore(names, [], text);
      RewriteIsOnePass(env, false, text, CountAt(text));
      assert !MeansSubstitution(env, false, text);
    }
  }
}
