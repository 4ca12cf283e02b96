/** When rewriting a text ends, for values that refer to other names: exactly when no name it reaches
    refers to itself, directly or through others; and what it comes to is then the full expansion. */
module References {
  import opened Wrappers
  import opened Text
  import opened Syntax
  import opened Substitution

  /** What each name that can be shown is replaced by. */
  ghost function Definitions(env: Env, issql: bool): map<string, string>
  {
    map name | name in env && Shown(env[name], issql).Some? :: Shown(env[name], issql).value
  }

  /** The tokens of a text. */
  ghost function Tokens(s: string): set<string>
    decreases |s|
  {
    if s == "" then {}
    else if s[0] != '@' then Tokens(s[1..])
    else {Token(s)} + Tokens(s[|Token(s)|..])
  }

  /** Names are tokens none of which is a prefix of another, and values refer to defined names. */
  ghost predicate Orderly(defs: map<string, string>)
  {
    && (forall n :: n in defs ==> IsToken(n) && Tokens(defs[n]) <= defs.Keys)
    && (forall n, m :: n in defs && m in defs && n <= m ==> n == m)
  }

  /** Each name ranks above the names that its value refers to, which all have a rank. */
  ghost predicate Ranked(defs: map<string, string>, rank: map<string, nat>)
  {
    forall n :: n in rank ==> RankedAt(defs, rank, n)
  }

  ghost predicate RankedAt(defs: map<string, string>, rank: map<string, nat>, n: string)
    requires n in rank
  {
    n in defs && forall m :: m in Tokens(defs[n]) ==> m in rank && rank[m] < rank[n]
  }

  // ---- texts as tokens --------------------------------------------------------------------

  /** A token cannot go on into this text. */
  predicate Boundary(s: string) { s == "" || IsDelimiter(s[0]) }

  lemma {:induction false} TokenEnds(s: string)
    ensures Boundary(s[|Token(s)|..])
  {
    if s != "" && !IsDelimiter(s[0]) {
      TokenEnds(s[1..]);
      assert s[1..][|Token(s[1..])|..] == s[|Token(s)|..];
    }
  }

  lemma {:induction false} TokenConcat(a: string, b: string)
    requires Boundary(b)
    ensures Token(a + b) == Token(a)
  {
    if a == "" {
      assert a + b == b;
    } else if !IsDelimiter(a[0]) {
      assert (a + b)[1..] == a[1..] + b;
      TokenConcat(a[1..], b);
    }
  }

  lemma TokenRest(a: string, b: string)
    requires Boundary(b)
    ensures (a + b)[|Token(a)|..] == a[|Token(a)|..] + b
  {
  }

  lemma {:induction false} TokensConcat(a: string, b: string)
    requires Boundary(b)
    ensures Tokens(a + b) == Tokens(a) + Tokens(b)
    decreases |a|
  {
    if a == "" {
      assert a + b == b;
    } else if a[0] != '@' {
      assert (a + b)[1..] == a[1..] + b;
      TokensConcat(a[1..], b);
    } else {
      TokenConcat(a, b);
      TokenRest(a, b);
      TokensConcat(a[|Token(a)|..], b);
    }
  }

  /** The tokens equal to a name replaced. */
  ghost function Subst(s: string, name: string, val: string): string
    decreases |s|
  {
    if s == "" then ""
    else if s[0] != '@' then [s[0]] + Subst(s[1..], name, val)
    else (if Token(s) == name then val else Token(s)) + Subst(s[|Token(s)|..], name, val)
  }

  lemma SubstBoundary(s: string, name: string, val: string)
    requires Boundary(s)
    ensures Boundary(Subst(s, name, val))
  {
  }

  lemma ReplaceAtHit(name: string, s: string, val: string, rest: string)
    requires name != "" && s == name + rest
    ensures Replace(s, name, val) == val + Replace(rest, name, val)
  {
    assert s[|name|..] == rest && name <= s;
  }

  lemma ReplaceAtMiss(name: string, head: string, s: string, val: string, rest: string)
    requires name != "" && name[0] == '@' && IsToken(head) && s == head + rest && !(name <= s)
    ensures Replace(s, name, val) == head + Replace(rest, name, val)
  {
    assert s[0] == head[0] && s[1..] == head[1..] + rest;
    ReplaceSkips(head[1..], rest, name, val);
    assert head == [head[0]] + head[1..];
    Regroup([head[0]], head[1..], Replace(rest, name, val));
  }

  /** Among tokens none of which is a prefix of another, replacing a name throughout a text is
      replacing the tokens equal to it. */
  lemma {:induction false} ReplaceIsSubst(defs: map<string, string>, s: string, name: string, val: string)
    requires Orderly(defs) && name in defs && Tokens(s) <= defs.Keys
    ensures Replace(s, name, val) == Subst(s, name, val)
    decreases |s|
  {
    if s == "" {
    } else if s[0] != '@' {
      assert name[0] == '@';
      ReplaceIsSubst(defs, s[1..], name, val);
    } else {
      var head, rest := Token(s), s[|Token(s)|..];
      assert s == head + rest;
      ReplaceIsSubst(defs, rest, name, val);
      if name <= s {
        TokenPrefix(name, s);
        ReplaceAtHit(name, s, val, rest);
      } else {
        ReplaceAtMiss(name, head, s, val, rest);
      }
    }
  }

  lemma {:induction false} SubstTokens(defs: map<string, string>, s: string, name: string)
    requires Orderly(defs) && name in defs && Tokens(s) <= defs.Keys
    ensures Tokens(Subst(s, name, defs[name]))
         == (Tokens(s) - {name}) + if name in Tokens(s) then Tokens(defs[name]) else {}
    decreases |s|
  {
    if s == "" {
    } else if s[0] != '@' {
      SubstTokens(defs, s[1..], name);
      var next := Subst(s, name, defs[name]);
      assert next[1..] == Subst(s[1..], name, defs[name]);
    } else {
      var head, rest := Token(s), s[|Token(s)|..];
      var rest' := Subst(rest, name, defs[name]);
      SubstTokens(defs, rest, name);
      TokenEnds(s);
      SubstBoundary(rest, name, defs[name]);
      TokensConcat(if head == name then defs[name] else head, rest');
      TokensOfToken(head);
    }
  }

  lemma TokensOfToken(name: string)
    requires IsToken(name)
    ensures Tokens(name) == {name}
  {
    assert name[|Token(name)|..] == "";
  }

  lemma {:induction false} SubstConcat(a: string, b: string, name: string, val: string)
    requires Boundary(b)
    ensures Subst(a + b, name, val) == Subst(a, name, val) + Subst(b, name, val)
    decreases |a|
  {
    if a == "" {
      assert a + b == b;
    } else if a[0] != '@' {
      assert (a + b)[1..] == a[1..] + b;
      SubstConcat(a[1..], b, name, val);
      Regroup([a[0]], Subst(a[1..], name, val), Subst(b, name, val));
    } else {
      TokenConcat(a, b);
      TokenRest(a, b);
      SubstConcat(a[|Token(a)|..], b, name, val);
      Regroup(if Token(a) == name then val else Token(a), Subst(a[|Token(a)|..], name, val), Subst(b, name, val));
    }
  }

  lemma Regroup(a: string, b: string, c: string)
    ensures a + b + c == a + (b + c)
  {
  }

  lemma {:induction false} SubstSkips(a: string, s: string, name: string, val: string)
    requires '@' !in a
    ensures Subst(a + s, name, val) == a + Subst(s, name, val)
  {
    if a == "" {
      assert a + s == s;
    } else {
      assert (a + s)[1..] == a[1..] + s && (a + s)[0] == a[0];
      SubstSkips(a[1..], s, name, val);
      Regroup([a[0]], a[1..], Subst(s, name, val));
      assert [a[0]] + a[1..] == a;
    }
  }

  // ---- rounds -----------------------------------------------------------------------------------

  lemma {:induction false} HasAt(s: string)
    ensures '@' in s <==> Tokens(s) != {}
    ensures '@' in s ==> FromAt(s) != "" && FromAt(s)[0] == '@' && Token(FromAt(s)) in Tokens(s)
    decreases |s|
  {
    if s != "" {
      assert s == [s[0]] + s[1..];
      if s[0] != '@' {
        HasAt(s[1..]);
      }
    }
  }

  /** The first token of a text that has one. */
  ghost function First(s: string): string { Token(FromAt(s)) }

  /** What a loop does with a text over defined names, in at most so many rounds: a round replaces the
      first token throughout. */
  ghost predicate GoesRound(loop: (string, nat) -> Rewritten, defs: map<string, string>, s: string, fuel: nat)
  {
    StopsAtPlain(loop, s, fuel) && ReplacesFirst(loop, defs, s, fuel)
  }

  ghost predicate StopsAtPlain(loop: (string, nat) -> Rewritten, s: string, fuel: nat)
  {
    if Tokens(s) == {} then loop(s, fuel) == Finished(s) else loop(s, 0) == Looping
  }

  ghost predicate ReplacesFirst(loop: (string, nat) -> Rewritten, defs: map<string, string>, s: string, fuel: nat)
  {
    Tokens(s) <= defs.Keys && Tokens(s) != {} ==>
      First(s) in Tokens(s) && (fuel > 0 ==> loop(s, fuel) == loop(Subst(s, First(s), defs[First(s)]), fuel - 1))
  }

  ghost predicate GoesRounds(loop: (string, nat) -> Rewritten, defs: map<string, string>)
  {
    forall s, fuel :: GoesRound(loop, defs, s, fuel)
  }

  lemma NameIsFirst(s: string)
    requires Tokens(s) != {}
    ensures '@' in s && NameAt(s) == First(s) && First(s) in Tokens(s)
  {
    HasAt(s);
    FromAtIsIndex(s);
  }

  lemma RewriteStops(env: Env, issql: bool, s: string, fuel: nat)
    ensures StopsAtPlain(Rewriting(env, issql), s, fuel)
  {
    HasAt(s);
  }

  lemma ReplacesByStep(loop: (string, nat) -> Rewritten, defs: map<string, string>, s: string, fuel: nat)
    requires Tokens(s) <= defs.Keys && Tokens(s) != {} ==> First(s) in Tokens(s)
    requires Tokens(s) <= defs.Keys && Tokens(s) != {} && fuel > 0 ==>
               loop(s, fuel) == loop(Subst(s, First(s), defs[First(s)]), fuel - 1)
    ensures ReplacesFirst(loop, defs, s, fuel)
  {
  }

  /** Each round of rewriting replaces the first token of the text. */
  lemma RewriteFirst(env: Env, issql: bool, defs: map<string, string>, s: string, fuel: nat, next: string)
    requires defs == Definitions(env, issql) && Orderly(defs) && Tokens(s) <= defs.Keys && Tokens(s) != {} && fuel > 0
    requires First(s) in Tokens(s) && next == Subst(s, First(s), defs[First(s)])
    ensures GoesOn(Rewriting(env, issql), s, fuel, next)
  {
    NameIsFirst(s);
    ReplaceIsSubst(defs, s, First(s), defs[First(s)]);
    RoundGoesOn(env, issql, s, fuel);
  }

  lemma RewriteReplaces(env: Env, issql: bool, defs: map<string, string>, s: string, fuel: nat)
    requires defs == Definitions(env, issql) && Orderly(defs)
    ensures ReplacesFirst(Rewriting(env, issql), defs, s, fuel)
  {
    if Tokens(s) != {} {
      NameIsFirst(s);
    }
    if Tokens(s) <= defs.Keys && Tokens(s) != {} && fuel > 0 {
      var next := Subst(s, First(s), defs[First(s)]);
      RewriteFirst(env, issql, defs, s, fuel, next);
    }
    ReplacesByStep(Rewriting(env, issql), defs, s, fuel);
  }

  lemma RewriteGoesRounds(env: Env, issql: bool)
    requires Orderly(Definitions(env, issql))
    ensures GoesRounds(Rewriting(env, issql), Definitions(env, issql))
  {
    forall s, fuel ensures GoesRound(Rewriting(env, issql), Definitions(env, issql), s, fuel) {
      RewriteStops(env, issql, s, fuel);
      RewriteReplaces(env, issql, Definitions(env, issql), s, fuel);
    }
  }

  // ---- a ranked text ends ------------------------------------------------------------------------

  /** How many replacements a text needs if each occurrence of a name is replaced by itself; only
      names that rank below `top` count. */
  ghost function Weight(defs: map<string, string>, rank: map<string, nat>, top: nat, s: string): nat
    decreases top, |s|
  {
    if s == "" then 0
    else if s[0] != '@' then Weight(defs, rank, top, s[1..])
    else
      var name := Token(s);
      (if name in rank && name in defs && rank[name] < top then 1 + Weight(defs, rank, rank[name], defs[name]) else 0)
      + Weight(defs, rank, top, s[|name|..])
  }

  /** Each name replaced by the full expansion of its value. */
  ghost function Expand(defs: map<string, string>, rank: map<string, nat>, top: nat, s: string): string
    decreases top, |s|
  {
    if s == "" then ""
    else if s[0] != '@' then [s[0]] + Expand(defs, rank, top, s[1..])
    else
      var name := Token(s);
      (if name in rank && name in defs && rank[name] < top then Expand(defs, rank, rank[name], defs[name]) else name)
      + Expand(defs, rank, top, s[|name|..])
  }

  /** All tokens of a text rank below `top`. */
  ghost predicate Below(rank: map<string, nat>, top: nat, s: string)
  {
    forall n :: n in Tokens(s) ==> n in rank && rank[n] < top
  }

  lemma {:induction false} TopIsImmaterial(defs: map<string, string>, rank: map<string, nat>, top: nat, top': nat,
                                           s: string)
    requires Below(rank, top, s) && Below(rank, top', s)
    ensures Weight(defs, rank, top, s) == Weight(defs, rank, top', s)
    ensures Expand(defs, rank, top, s) == Expand(defs, rank, top', s)
    decreases |s|
  {
    if s != "" {
      TopIsImmaterial(defs, rank, top, top', if s[0] != '@' then s[1..] else s[|Token(s)|..]);
    }
  }

  lemma {:induction false} ExpandConcat(defs: map<string, string>, rank: map<string, nat>, top: nat, a: string,
                                        b: string)
    requires Boundary(b)
    ensures Weight(defs, rank, top, a + b) == Weight(defs, rank, top, a) + Weight(defs, rank, top, b)
    ensures Expand(defs, rank, top, a + b) == Expand(defs, rank, top, a) + Expand(defs, rank, top, b)
    decreases |a|
  {
    if a == "" {
      assert a + b == b;
    } else if a[0] != '@' {
      assert (a + b)[1..] == a[1..] + b;
      ExpandConcat(defs, rank, top, a[1..], b);
      Regroup([a[0]], Expand(defs, rank, top, a[1..]), Expand(defs, rank, top, b));
    } else {
      var name := Token(a);
      TokenConcat(a, b);
      TokenRest(a, b);
      ExpandConcat(defs, rank, top, a[|name|..], b);
      var known := name in rank && name in defs && rank[name] < top;
      Regroup(if known then Expand(defs, rank, rank[name], defs[name]) else name,
              Expand(defs, rank, top, a[|name|..]), Expand(defs, rank, top, b));
    }
  }

  /** Replacing a token leaves the expansion as it is and takes at least one replacement off the
      weight. */
  lemma {:induction false} SubstLightens(defs: map<string, string>, rank: map<string, nat>, top: nat, s: string,
                                         name: string)
    requires Orderly(defs) && Ranked(defs, rank) && Below(rank, top, s) && name in rank
    ensures var next := Subst(s, name, defs[name]);
            && Expand(defs, rank, top, next) == Expand(defs, rank, top, s)
            && Weight(defs, rank, top, next) <= Weight(defs, rank, top, s)
            && (name in Tokens(s) ==> Weight(defs, rank, top, next) < Weight(defs, rank, top, s))
    decreases |s|
  {
    var next := Subst(s, name, defs[name]);
    if s == "" {
    } else if s[0] != '@' {
      SubstLightens(defs, rank, top, s[1..], name);
      assert next[1..] == Subst(s[1..], name, defs[name]);
    } else {
      var head, rest := Token(s), s[|Token(s)|..];
      var rest' := Subst(rest, name, defs[name]);
      SubstLightens(defs, rank, top, rest, name);
      TokenEnds(s);
      SubstBoundary(rest, name, defs[name]);
      ExpandConcat(defs, rank, top, if head == name then defs[name] else head, rest');
      if head == name {
        TopIsImmaterial(defs, rank, top, rank[name], defs[name]);
      } else {
        ExpandOfToken(defs, rank, top, head);
      }
    }
  }

  lemma ExpandOfToken(defs: map<string, string>, rank: map<string, nat>, top: nat, name: string)
    requires IsToken(name) && name in rank && name in defs && rank[name] < top
    ensures Weight(defs, rank, top, name) == 1 + Weight(defs, rank, rank[name], defs[name])
    ensures Expand(defs, rank, top, name) == Expand(defs, rank, rank[name], defs[name])
  {
    assert name[|Token(name)|..] == "";
    var whole := Expand(defs, rank, rank[name], defs[name]);
    assert whole + "" == whole;
  }

  lemma {:induction false} ExpandPlain(defs: map<string, string>, rank: map<string, nat>, top: nat, s: string)
    requires '@' !in s
    ensures Expand(defs, rank, top, s) == s
    decreases |s|
  {
    if s != "" {
      ExpandPlain(defs, rank, top, s[1..]);
      assert [s[0]] + s[1..] == s;
    }
  }

  /** The tokens of a text rank below `top`, and it weighs at most so much. */
  ghost predicate Weighs(defs: map<string, string>, rank: map<string, nat>, top: nat, s: string, fuel: nat)
  {
    Below(rank, top, s) && Weight(defs, rank, top, s) <= fuel
  }

  /** `next` is lighter than the text, with the same expansion, and a round leads to it. */
  ghost predicate LeadsTo(loop: (string, nat) -> Rewritten, defs: map<string, string>, rank: map<string, nat>, top: nat,
                          s: string, next: string, fuel: nat)
  {
    && fuel > 0 && loop(s, fuel) == loop(next, fuel - 1) && Weighs(defs, rank, top, next, fuel - 1)
    && Expand(defs, rank, top, next) == Expand(defs, rank, top, s)
  }

  lemma RoundLightens(loop: (string, nat) -> Rewritten, defs: map<string, string>, rank: map<string, nat>, top: nat,
                      s: string, fuel: nat)
    returns (next: string)
    requires GoesRounds(loop, defs) && Orderly(defs) && Ranked(defs, rank) && Weighs(defs, rank, top, s, fuel)
    requires Tokens(s) != {}
    ensures LeadsTo(loop, defs, rank, top, s, next, fuel)
  {
    assert Tokens(s) <= defs.Keys by {
      assert forall n :: n in rank ==> RankedAt(defs, rank, n);
    }
    assert GoesRound(loop, defs, s, fuel);
    var name := First(s);
    SubstLightens(defs, rank, top, s, name);
    SubstTokens(defs, s, name);
    assert RankedAt(defs, rank, name);
    next := Subst(s, name, defs[name]);
  }

  lemma PlainEnds(loop: (string, nat) -> Rewritten, defs: map<string, string>, rank: map<string, nat>, top: nat,
                  s: string, fuel: nat)
    requires GoesRounds(loop, defs) && Tokens(s) == {}
    ensures ComesTo(loop, defs, rank, top, s, fuel)
  {
    assert GoesRound(loop, defs, s, fuel);
    HasAt(s);
    ExpandPlain(defs, rank, top, s);
  }

  /** A text whose tokens rank below `top` is expanded, or a round leads to a lighter one. */
  ghost predicate Nears(loop: (string, nat) -> Rewritten, defs: map<string, string>, rank: map<string, nat>, top: nat,
                        s: string, fuel: nat)
  {
    Weighs(defs, rank, top, s, fuel) ==>
      ComesTo(loop, defs, rank, top, s, fuel) || exists next :: LeadsTo(loop, defs, rank, top, s, next, fuel)
  }

  lemma RankedNears(loop: (string, nat) -> Rewritten, defs: map<string, string>, rank: map<string, nat>, top: nat,
                    s: string, fuel: nat)
    requires GoesRounds(loop, defs) && Orderly(defs) && Ranked(defs, rank)
    ensures Nears(loop, defs, rank, top, s, fuel)
  {
    if Tokens(s) == {} {
      PlainEnds(loop, defs, rank, top, s, fuel);
    } else if Weighs(defs, rank, top, s, fuel) {
      var next := RoundLightens(loop, defs, rank, top, s, fuel);
    }
  }

  /** A text whose tokens rank below `top` comes to its full expansion within as many rounds as it
      weighs. */
  lemma RankedEnds(loop: (string, nat) -> Rewritten, defs: map<string, string>, rank: map<string, nat>, top: nat,
                   s: string, fuel: nat)
    requires GoesRounds(loop, defs) && Orderly(defs) && Ranked(defs, rank) && Weighs(defs, rank, top, s, fuel)
    ensures ComesTo(loop, defs, rank, top, s, fuel)
  {
    forall t, n: nat ensures Nears(loop, defs, rank, top, t, n) {
      RankedNears(loop, defs, rank, top, t, n);
    }
    NearingEnds(loop, defs, rank, top, s, fuel);
  }

  lemma {:induction false} NearingEnds(loop: (string, nat) -> Rewritten, defs: map<string, string>,
                                       rank: map<string, nat>, top: nat, s: string, fuel: nat)
    requires forall t, n: nat :: Nears(loop, defs, rank, top, t, n)
    requires Weighs(defs, rank, top, s, fuel)
    ensures ComesTo(loop, defs, rank, top, s, fuel)
    decreases fuel
  {
    assert Nears(loop, defs, rank, top, s, fuel);
    if !ComesTo(loop, defs, rank, top, s, fuel) {
      var next :| LeadsTo(loop, defs, rank, top, s, next, fuel);
      NearingEnds(loop, defs, rank, top, next, fuel - 1);
      ComesToo(loop, defs, rank, top, s, next, fuel);
    }
  }

  ghost predicate ComesTo(loop: (string, nat) -> Rewritten, defs: map<string, string>, rank: map<string, nat>, top: nat,
                          s: string, fuel: nat)
  {
    loop(s, fuel) == Finished(Expand(defs, rank, top, s))
  }

  lemma ComesToo(loop: (string, nat) -> Rewritten, defs: map<string, string>, rank: map<string, nat>, top: nat,
                 s: string, next: string, fuel: nat)
    requires LeadsTo(loop, defs, rank, top, s, next, fuel)
    requires ComesTo(loop, defs, rank, top, next, fuel - 1)
    ensures ComesTo(loop, defs, rank, top, s, fuel)
  {
  }

  // ---- a text that ends is ranked -------------------------------------------------------------------

  lemma {:induction false} FromAtSplits(s: string) returns (before: string)
    ensures s == before + FromAt(s) && '@' !in before
  {
    if s == "" || s[0] == '@' {
      before := "";
    } else {
      var more := FromAtSplits(s[1..]);
      before := [s[0]] + more;
      Regroup([s[0]], more, FromAt(s));
    }
  }

  lemma {:induction false} FromAtConcat(s: string, after: string)
    requires '@' in s
    ensures FromAt(s + after) == FromAt(s) + after
  {
    if s[0] != '@' {
      assert s == [s[0]] + s[1..] && (s + after)[1..] == s[1..] + after;
      FromAtConcat(s[1..], after);
    }
  }

  lemma SubstIn(before: string, s: string, after: string, name: string, val: string)
    requires '@' !in before && Boundary(after)
    ensures Subst(before + s + after, name, val) == before + Subst(s, name, val) + Subst(after, name, val)
    ensures Boundary(Subst(after, name, val))
  {
    Regroup(before, s, after);
    SubstSkips(before, s + after, name, val);
    SubstConcat(s, after, name, val);
    SubstBoundary(after, name, val);
    Regroup(before, Subst(s, name, val), Subst(after, name, val));
  }

  lemma FirstIn(before: string, s: string, after: string)
    requires '@' !in before && Boundary(after) && '@' in s
    ensures First(before + s + after) == First(s)
  {
    Regroup(before, s, after);
    FromAtSkips(before, s + after);
    FromAtConcat(s, after);
    TokenConcat(FromAt(s), after);
  }

  lemma {:induction false} TokensIn(before: string, s: string, after: string)
    requires '@' !in before && Boundary(after)
    ensures Tokens(before + s + after) == Tokens(s) + Tokens(after)
  {
    if before == "" {
      assert before + s + after == s + after;
      TokensConcat(s, after);
    } else {
      assert (before + s + after)[1..] == before[1..] + s + after && (before + s + after)[0] == before[0];
      TokensIn(before[1..], s, after);
    }
  }

  lemma SubstStaysOver(defs: map<string, string>, s: string, name: string)
    requires Orderly(defs) && name in defs && Tokens(s) <= defs.Keys
    ensures Tokens(Subst(s, name, defs[name])) <= defs.Keys
  {
    SubstTokens(defs, s, name);
  }

  /** A round on a text is one on its front, and replaces the same name behind it. */
  lemma FrontRound(loop: (string, nat) -> Rewritten, defs: map<string, string>, before: string, s: string,
                   after: string, fuel: nat)
    returns (s': string, after': string)
    requires GoesRounds(loop, defs) && Orderly(defs) && '@' !in before && Boundary(after)
    requires Tokens(s) <= defs.Keys && Tokens(after) <= defs.Keys && Tokens(s) != {} && fuel > 0
    ensures Tokens(s') <= defs.Keys && Tokens(after') <= defs.Keys && Boundary(after')
    ensures loop(s, fuel) == loop(s', fuel - 1)
    ensures loop(before + s + after, fuel) == loop(before + s' + after', fuel - 1)
  {
    var whole := before + s + after;
    assert GoesRound(loop, defs, s, fuel) && GoesRound(loop, defs, whole, fuel);
    HasAt(s);
    TokensIn(before, s, after);
    FirstIn(before, s, after);
    var name := First(s);
    SubstIn(before, s, after, name, defs[name]);
    SubstStaysOver(defs, s, name);
    SubstStaysOver(defs, after, name);
    s', after' := Subst(s, name, defs[name]), Subst(after, name, defs[name]);
  }

  lemma FrontWaits(loop: (string, nat) -> Rewritten, defs: map<string, string>, before: string, s: string,
                   after: string)
    requires GoesRounds(loop, defs) && '@' !in before && Boundary(after)
    requires Tokens(s) <= defs.Keys && Tokens(after) <= defs.Keys && Tokens(s) != {}
    ensures loop(before + s + after, 0) == Looping
  {
    TokensIn(before, s, after);
    assert GoesRound(loop, defs, before + s + after, 0);
  }

  /** The loop works on the front of a text as if the rest were not there. */
  lemma {:induction false} FrontEnds(loop: (string, nat) -> Rewritten, defs: map<string, string>, before: string,
                                     s: string, after: string, fuel: nat)
    requires GoesRounds(loop, defs) && Orderly(defs) && '@' !in before && Boundary(after)
    requires Tokens(s) <= defs.Keys && Tokens(after) <= defs.Keys
    requires loop(before + s + after, fuel) != Looping
    ensures loop(s, fuel) != Looping
    decreases fuel
  {
    if Tokens(s) == {} {
      assert GoesRound(loop, defs, s, fuel);
    } else {
      FrontWaits(loop, defs, before, s, after);
      var s', after' := FrontRound(loop, defs, before, s, after, fuel);
      FrontEnds(loop, defs, before, s', after', fuel - 1);
    }
  }

  /** A text around its first token. */
  lemma AroundFirst(s: string) returns (before: string, after: string)
    requires Tokens(s) != {}
    ensures s == before + First(s) + after && '@' !in before && Boundary(after) && First(s) in Tokens(s)
  {
    HasAt(s);
    before := FromAtSplits(s);
    after := FromAt(s)[|First(s)|..];
    assert FromAt(s) == First(s) + after;
    Regroup(before, First(s), after);
    TokenEnds(FromAt(s));
  }

  lemma FirstOfEnded(loop: (string, nat) -> Rewritten, defs: map<string, string>, s: string, name: string, fuel: nat)
    requires GoesRounds(loop, defs) && Orderly(defs) && Tokens(s) <= defs.Keys && Tokens(s) != {} && name == First(s)
    requires loop(s, fuel) != Looping
    ensures loop(name, fuel) != Looping
  {
    var before, after := AroundFirst(s);
    TokensOfToken(name);
    TokensIn(before, name, after);
    FrontEnds(loop, defs, before, name, after, fuel);
  }

  lemma OtherWaits(loop: (string, nat) -> Rewritten, defs: map<string, string>, s: string, name: string, fuel: nat)
    returns (next: string)
    requires GoesRounds(loop, defs) && Orderly(defs) && Tokens(s) <= defs.Keys && name in Tokens(s) && name != First(s)
    requires loop(s, fuel) != Looping
    ensures fuel > 0 && loop(next, fuel - 1) == loop(s, fuel) && Tokens(next) <= defs.Keys && name in Tokens(next)
  {
    assert GoesRound(loop, defs, s, fuel) && GoesRound(loop, defs, s, 0);
    SubstTokens(defs, s, First(s));
    next := Subst(s, First(s), defs[First(s)]);
  }

  /** If a text ends, each of its tokens ends, by itself, within no more rounds. */
  lemma {:induction false} TokenOfEnded(loop: (string, nat) -> Rewritten, defs: map<string, string>, s: string,
                                        name: string, fuel: nat)
    returns (rounds: nat)
    requires GoesRounds(loop, defs) && Orderly(defs) && Tokens(s) <= defs.Keys && name in Tokens(s)
    requires loop(s, fuel) != Looping
    ensures rounds <= fuel && loop(name, rounds) != Looping
    decreases fuel
  {
    if name == First(s) {
      FirstOfEnded(loop, defs, s, name, fuel);
      rounds := fuel;
    } else {
      var next := OtherWaits(loop, defs, s, name, fuel);
      rounds := TokenOfEnded(loop, defs, next, name, fuel - 1);
    }
  }

  ghost predicate Ends(loop: (string, nat) -> Rewritten, s: string)
  {
    exists fuel: nat :: loop(s, fuel) != Looping
  }

  /** The least number of rounds, at most `fuel`, within which a text ends. */
  ghost function Least(loop: (string, nat) -> Rewritten, s: string, fuel: nat): (rounds: nat)
    requires loop(s, fuel) != Looping
    ensures rounds <= fuel && loop(s, rounds) != Looping
    ensures forall k: nat :: loop(s, k) != Looping ==> rounds <= k
    decreases fuel
  {
    if k: nat :| k < fuel && loop(s, k) != Looping then Least(loop, s, k) else fuel
  }

  /** The names that end, each with the rounds it takes. */
  ghost function RoundsOf(loop: (string, nat) -> Rewritten, s: string): (rounds: nat)
    requires Ends(loop, s)
    ensures loop(s, rounds) != Looping && forall k: nat :: loop(s, k) != Looping ==> rounds <= k
  {
    var fuel: nat :| loop(s, fuel) != Looping;
    Least(loop, s, fuel)
  }

  ghost function RankByRounds(loop: (string, nat) -> Rewritten, defs: map<string, string>): map<string, nat>
  {
    map name | name in defs && Ends(loop, name) :: RoundsOf(loop, name)
  }

  /** A name takes one round to its value, and each name its value refers to takes fewer. */
  lemma ReferenceTakesFewer(loop: (string, nat) -> Rewritten, defs: map<string, string>, name: string, other: string)
    requires GoesRounds(loop, defs) && Orderly(defs) && name in defs && Ends(loop, name) && other in Tokens(defs[name])
    ensures Ends(loop, other) && RoundsOf(loop, other) < RoundsOf(loop, name)
  {
    var rounds := RoundsOf(loop, name);
    TokensOfToken(name);
    HasAt(name);
    assert GoesRound(loop, defs, name, rounds) && GoesRound(loop, defs, name, 0);
    assert Subst(name, name, defs[name]) == defs[name] by {
      assert name[|Token(name)|..] == "";
      assert defs[name] + "" == defs[name];
    }
    var fewer := TokenOfEnded(loop, defs, defs[name], other, rounds - 1);
  }

  lemma RoundsRankAt(loop: (string, nat) -> Rewritten, defs: map<string, string>, rank: map<string, nat>, n: string)
    requires GoesRounds(loop, defs) && Orderly(defs) && n in defs && Ends(loop, n) && n in rank
    requires rank[n] == RoundsOf(loop, n)
    requires forall m :: m in defs && Ends(loop, m) ==> m in rank && rank[m] == RoundsOf(loop, m)
    ensures RankedAt(defs, rank, n)
  {
    forall m | m in Tokens(defs[n]) ensures m in rank && rank[m] < rank[n] {
      ReferenceTakesFewer(loop, defs, n, m);
    }
  }

  lemma RoundsRank(loop: (string, nat) -> Rewritten, defs: map<string, string>)
    requires GoesRounds(loop, defs) && Orderly(defs)
    ensures Ranked(defs, RankByRounds(loop, defs))
  {
    var rank := RankByRounds(loop, defs);
    forall n | n in rank ensures RankedAt(defs, rank, n) {
      RoundsRankAt(loop, defs, rank, n);
    }
  }

  lemma EndedIsRanked(loop: (string, nat) -> Rewritten, defs: map<string, string>, s: string)
    requires GoesRounds(loop, defs) && Orderly(defs) && Tokens(s) <= defs.Keys && Ends(loop, s)
    ensures Tokens(s) <= RankByRounds(loop, defs).Keys
  {
    var fuel: nat :| loop(s, fuel) != Looping;
    forall name | name in Tokens(s) ensures Ends(loop, name) {
      var rounds := TokenOfEnded(loop, defs, s, name, fuel);
    }
  }

  // ---- exactly when ------------------------------------------------------------------------------

  ghost predicate RanksText(defs: map<string, string>, s: string, rank: map<string, nat>)
  {
    Ranked(defs, rank) && Tokens(s) <= rank.Keys
  }

  lemma {:induction false} RanksAreBounded(rank: map<string, nat>, names: set<string>) returns (top: nat)
    requires names <= rank.Keys
    ensures forall n :: n in names ==> rank[n] < top
    decreases |names|
  {
    if names == {} {
      top := 0;
    } else {
      var n :| n in names;
      top := RanksAreBounded(rank, names - {n});
      top := if rank[n] < top then top else rank[n] + 1;
    }
  }

  ghost predicate TextEnds(env: Env, issql: bool, s: string)
  {
    exists fuel: nat :: Rewrite(env, issql, s, fuel) != Looping
  }

  ghost predicate TextIsRanked(defs: map<string, string>, s: string)
  {
    exists rank :: RanksText(defs, s, rank)
  }

  lemma EndsIfRanked(env: Env, issql: bool, s: string, rank: map<string, nat>)
    requires Orderly(Definitions(env, issql)) && RanksText(Definitions(env, issql), s, rank)
    ensures TextEnds(env, issql, s)
  {
    var loop, defs := Rewriting(env, issql), Definitions(env, issql);
    RewriteGoesRounds(env, issql);
    var top := RanksAreBounded(rank, Tokens(s));
    var fuel := Weight(defs, rank, top, s);
    RankedEnds(loop, defs, rank, top, s, fuel);
    assert loop(s, fuel) == Rewrite(env, issql, s, fuel);
  }

  lemma RankedIfEnds(env: Env, issql: bool, s: string, fuel: nat)
    requires Orderly(Definitions(env, issql)) && Tokens(s) <= Definitions(env, issql).Keys
    requires Rewrite(env, issql, s, fuel) != Looping
    ensures TextIsRanked(Definitions(env, issql), s)
  {
    var loop, defs := Rewriting(env, issql), Definitions(env, issql);
    RewriteGoesRounds(env, issql);
    assert loop(s, fuel) != Looping;
    RoundsRank(loop, defs);
    EndedIsRanked(loop, defs, s);
    assert RanksText(defs, s, RankByRounds(loop, defs));
  }

  /** Rewriting ends, for an orderly environment and a text over its names, if and only if the names
      that the text reaches can be ranked, each above the names that its value refers to; that is, if
      none of them refers to itself, directly or through others. */
  lemma RewriteEndsExactlyWhen(env: Env, issql: bool, s: string)
    requires Orderly(Definitions(env, issql)) && Tokens(s) <= Definitions(env, issql).Keys
    ensures TextEnds(env, issql, s) <==> TextIsRanked(Definitions(env, issql), s)
  {
    if fuel: nat :| Rewrite(env, issql, s, fuel) != Looping {
      RankedIfEnds(env, issql, s, fuel);
    }
    if rank :| RanksText(Definitions(env, issql), s, rank) {
      EndsIfRanked(env, issql, s, rank);
    }
  }

  /** And it then comes to the full expansion, whatever the ranks that show that it ends. */
  lemma RewriteIsExpansion(env: Env, issql: bool, s: string, rank: map<string, nat>) returns (top: nat)
    requires Orderly(Definitions(env, issql)) && RanksText(Definitions(env, issql), s, rank)
    ensures Below(rank, top, s)
    ensures var defs := Definitions(env, issql);
            forall fuel: nat :: fuel >= Weight(defs, rank, top, s) ==>
              Rewrite(env, issql, s, fuel) == Finished(Expand(defs, rank, top, s))
  {
    var loop, defs := Rewriting(env, issql), Definitions(env, issql);
    RewriteGoesRounds(env, issql);
    top := RanksAreBounded(rank, Tokens(s));
    forall fuel: nat | fuel >= Weight(defs, rank, top, s)
      ensures Rewrite(env, issql, s, fuel) == Finished(Expand(defs, rank, top, s))
    {
      RankedEnds(loop, defs, rank, top, s, fuel);
      assert loop(s, fuel) == Rewrite(env, issql, s, fuel);
    }
  }

  ghost predicate RanksAll(defs: map<string, string>, rank: map<string, nat>)
  {
    Ranked(defs, rank) && rank.Keys == defs.Keys
  }

  /** In an orderly environment every text over its names ends if and only if all names can be ranked. */
  lemma AllTextsEndExactlyWhen(env: Env, issql: bool)
    requires Orderly(Definitions(env, issql))
    ensures (forall s :: Tokens(s) <= Definitions(env, issql).Keys ==> TextEnds(env, issql, s))
       <==> (exists rank :: RanksAll(Definitions(env, issql), rank))
  {
    var loop, defs := Rewriting(env, issql), Definitions(env, issql);
    if rank :| RanksAll(defs, rank) {
      forall s | Tokens(s) <= defs.Keys ensures TextEnds(env, issql, s) {
        EndsIfRanked(env, issql, s, rank);
      }
    }
    if forall s :: Tokens(s) <= defs.Keys ==> TextEnds(env, issql, s) {
      RewriteGoesRounds(env, issql);
      RoundsRank(loop, defs);
      forall n | n in defs ensures Ends(loop, n) {
        TokensOfToken(n);
        assert TextEnds(env, issql, n);
        var fuel: nat :| Rewrite(env, issql, n, fuel) != Looping;
        assert loop(n, fuel) != Looping;
      }
      assert RanksAll(defs, RankByRounds(loop, defs));
    }
  }

  /** Each name's value refers to the next one. */
  ghost predicate IsPath(defs: map<string, string>, names: seq<string>)
  {
    forall i :: 0 <= i < |names| - 1 ==> names[i] in defs && names[i + 1] in Tokens(defs[names[i]])
  }

  lemma {:induction false} RanksFall(defs: map<string, string>, rank: map<string, nat>, names: seq<string>, k: nat)
    requires Ranked(defs, rank) && IsPath(defs, names) && k < |names| && names[0] in rank
    ensures names[k] in rank && (k > 0 ==> rank[names[k]] < rank[names[0]])
  {
    if k > 0 {
      RanksFall(defs, rank, names, k - 1);
    }
  }

  /** A text with a name that refers to itself, directly or through others, is rewritten for ever. */
  lemma SelfReferenceNeverEnds(env: Env, issql: bool, names: seq<string>, s: string, fuel: nat)
    requires Orderly(Definitions(env, issql)) && Tokens(s) <= Definitions(env, issql).Keys
    requires |names| > 1 && IsPath(Definitions(env, issql), names) && names[0] == names[|names| - 1]
    requires names[0] in Tokens(s)
    ensures Rewrite(env, issql, s, fuel) == Looping
  {
    var defs := Definitions(env, issql);
    if Rewrite(env, issql, s, fuel) != Looping {
      RankedIfEnds(env, issql, s, fuel);
      var rank :| RanksText(defs, s, rank);
      RanksFall(defs, rank, names, |names| - 1);
      assert false;
    }
  }
}
