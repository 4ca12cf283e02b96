/** The string operations the LQL reader, compiler and interpreter are written with,
    as Java defines them for a fixed (literal) separator or pattern. */
module Text {
  import opened Wrappers

  // ---- trim -----------------------------------------------------------------

  /** String.trim drops every character up to and including the space. */
  predicate IsBlank(c: char) { c <= ' ' }

  function TrimLeft(s: string): string
  {
    if s != "" && IsBlank(s[0]) then TrimLeft(s[1..]) else s
  }

  function TrimRight(s: string): string
  {
    if s != "" && IsBlank(s[|s| - 1]) then TrimRight(s[..|s| - 1]) else s
  }

  function Trim(s: string): string
  {
    TrimRight(TrimLeft(s))
  }

  predicate Trimmed(s: string) { s != "" && !IsBlank(s[0]) && !IsBlank(s[|s| - 1]) }

  predicate AllBlank(s: string) { forall c :: c in s ==> IsBlank(c) }

  lemma TrimLeftDrops(s: string)
    ensures |TrimLeft(s)| <= |s| && TrimLeft(s) == s[|s| - |TrimLeft(s)|..]
    ensures TrimLeft(s) != "" ==> !IsBlank(TrimLeft(s)[0])
    ensures AllBlank(s[..|s| - |TrimLeft(s)|])
  {
    if s != "" && IsBlank(s[0]) {
      TrimLeftDrops(s[1..]);
    }
  }

  lemma TrimRightDrops(s: string)
    ensures TrimRight(s) <= s
    ensures TrimRight(s) != "" ==> !IsBlank(TrimRight(s)[|TrimRight(s)| - 1])
    ensures AllBlank(s[|TrimRight(s)|..])
  {
    if s != "" && IsBlank(s[|s| - 1]) {
      TrimRightDrops(s[..|s| - 1]);
    }
  }

  /** Trimming takes away blank margins and leaves none. */
  lemma TrimSplitsOff(s: string) returns (a: string, b: string)
    ensures s == a + Trim(s) + b && AllBlank(a) && AllBlank(b)
    ensures Trim(s) == "" || Trimmed(Trim(s))
  {
    TrimLeftDrops(s);
    var t := TrimLeft(s);
    TrimRightDrops(t);
    a, b := s[..|s| - |t|], t[|TrimRight(t)|..];
  }

  lemma TrimLeftSkips(a: string, s: string)
    requires AllBlank(a)
    ensures TrimLeft(a + s) == TrimLeft(s)
  {
    if a == "" {
      assert a + s == s;
    } else {
      assert (a + s)[1..] == a[1..] + s;
      TrimLeftSkips(a[1..], s);
    }
  }

  lemma TrimRightSkips(s: string, b: string)
    requires AllBlank(b)
    ensures TrimRight(s + b) == TrimRight(s)
  {
    if b == "" {
      assert s + b == s;
    } else {
      var n := |b| - 1;
      assert (s + b)[..|s + b| - 1] == s + b[..n];
      TrimRightSkips(s, b[..n]);
    }
  }

  /** Trimming removes exactly the blank margins around a trimmed core. */
  lemma TrimPadded(a: string, s: string, b: string)
    requires AllBlank(a) && AllBlank(b) && Trimmed(s)
    ensures Trim(a + s + b) == s
  {
    assert a + s + b == a + (s + b);
    TrimLeftSkips(a, s + b);
    TrimRightSkips(s, b);
  }

  lemma TrimBlank(s: string)
    requires AllBlank(s)
    ensures Trim(s) == ""
  {
    assert s + "" == s;
    TrimLeftSkips(s, "");
  }

  // ---- searching ------------------------------------------------------------

  predicate StartsWith(s: string, p: string) { p <= s }

  /** indexOf(c, from): the first position of `c` at or after `from`, or -1. */
  function IndexOf(s: string, c: char, from: nat): (r: int)
    ensures r == -1 <==> (forall i :: from <= i < |s| ==> s[i] != c)
    ensures r != -1 ==> from <= r < |s| && s[r] == c && forall i :: from <= i < r ==> s[i] != c
    decreases |s| - from
  {
    if from >= |s| then -1 else if s[from] == c then from else IndexOf(s, c, from + 1)
  }

  // ---- replace --------------------------------------------------------------

  /** String.replace(pat, val): every occurrence, left to right, without overlap. */
  function Replace(s: string, pat: string, val: string): string
    requires pat != ""
  {
    if s == "" then ""
    else if pat <= s then val + Replace(s[|pat|..], pat, val)
    else [s[0]] + Replace(s[1..], pat, val)
  }

  /** Where the pattern's first character does not occur, replacing changes nothing. */
  lemma ReplaceSkips(a: string, s: string, pat: string, val: string)
    requires pat != "" && pat[0] !in a
    ensures Replace(a + s, pat, val) == a + Replace(s, pat, val)
  {
    if a == "" {
      assert a + s == s;
      assert a + Replace(s, pat, val) == Replace(s, pat, val);
    } else {
      var t := a + s;
      assert t[0] == a[0] && t[0] != pat[0];
      assert t[1..] == a[1..] + s;
      ReplaceSkips(a[1..], s, pat, val);
      assert [a[0]] + (a[1..] + Replace(s, pat, val)) == a + Replace(s, pat, val);
    }
  }

  // ---- split ----------------------------------------------------------------

  /** The pieces between the occurrences of a literal separator, empty ones included. */
  function Pieces(s: string, sep: string): (ps: seq<string>)
    requires sep != ""
    ensures |ps| > 0
  {
    if s == "" then [""]
    else if sep <= s then [""] + Pieces(s[|sep|..], sep)
    else
      var rest := Pieces(s[1..], sep);
      [[s[0]] + rest[0]] + rest[1..]
  }

  function Join(ps: seq<string>, sep: string): string
  {
    if ps == [] then "" else if |ps| == 1 then ps[0] else ps[0] + sep + Join(ps[1..], sep)
  }

  lemma JoinExtendFirst(c: char, ps: seq<string>, sep: string)
    requires ps != []
    ensures Join([[c] + ps[0]] + ps[1..], sep) == [c] + Join(ps, sep)
  {
    var qs := [[c] + ps[0]] + ps[1..];
    assert qs[1..] == ps[1..];
    if |ps| > 1 {
      assert ([c] + ps[0]) + sep + Join(ps[1..], sep) == [c] + (ps[0] + sep + Join(ps[1..], sep));
    }
  }

  /** Nothing but separators is lost by splitting. */
  lemma {:induction false} JoinPieces(s: string, sep: string)
    requires sep != ""
    ensures Join(Pieces(s, sep), sep) == s
  {
    if s == "" {
    } else if sep <= s {
      JoinPieces(s[|sep|..], sep);
      assert Pieces(s, sep)[1..] == Pieces(s[|sep|..], sep);
      assert "" + sep + s[|sep|..] == s;
    } else {
      JoinPieces(s[1..], sep);
      JoinExtendFirst(s[0], Pieces(s[1..], sep), sep);
      assert [s[0]] + s[1..] == s;
    }
  }

  /** No occurrence of `sep` starts inside the first |a| characters of s. */
  predicate Clear(s: string, n: nat, sep: string)
    requires n <= |s|
  {
    forall i :: 0 <= i < n ==> !(sep <= s[i..])
  }

  /** Splitting cuts at the first occurrence. */
  lemma {:induction false} PiecesCut(a: string, sep: string, b: string)
    requires sep != "" && Clear(a + sep + b, |a|, sep)
    ensures Pieces(a + sep + b, sep) == [a] + Pieces(b, sep)
  {
    var s := a + sep + b;
    if a == "" {
      assert s == sep + b;
      assert s[|sep|..] == b;
    } else {
      assert s[0..] == s;
      assert s[1..] == a[1..] + sep + b;
      forall i | 0 <= i < |a| - 1 ensures !(sep <= s[1..][i..]) {
        assert s[1..][i..] == s[i + 1..];
      }
      PiecesCut(a[1..], sep, b);
      assert [a[0]] + a[1..] == a;
    }
  }

  lemma PiecesWhole(s: string, sep: string)
    requires sep != "" && Clear(s, |s|, sep)
    ensures Pieces(s, sep) == [s]
  {
    if s != "" {
      assert s[0..] == s;
      forall i | 0 <= i < |s| - 1 ensures !(sep <= s[1..][i..]) {
        assert s[1..][i..] == s[i + 1..];
      }
      PiecesWhole(s[1..], sep);
      assert [s[0]] + s[1..] == s;
    }
  }

  function TrimAll(ps: seq<string>): seq<string>
  {
    if ps == [] then []
    else if Trim(ps[0]) == "" then TrimAll(ps[1..])
    else [Trim(ps[0])] + TrimAll(ps[1..])
  }

  /** StringUtil.trimSplit: the trimmed pieces, blank ones dropped. */
  function TrimSplit(v: string, sep: string): seq<string>
    requires sep != ""
  {
    TrimAll(Pieces(Trim(v), sep))
  }

  lemma TrimAllTrims(ps: seq<string>)
    ensures forall i :: 0 <= i < |TrimAll(ps)| ==> Trimmed(TrimAll(ps)[i])
  {
    if ps != [] {
      var _, _ := TrimSplitsOff(ps[0]);
      TrimAllTrims(ps[1..]);
    }
  }

  function DropTrailingEmpty(ps: seq<string>): seq<string>
  {
    if ps != [] && ps[|ps| - 1] == "" then DropTrailingEmpty(ps[..|ps| - 1]) else ps
  }

  /** String.split(sep): trailing empty pieces are dropped, unless nothing was split. */
  function JavaSplit(v: string, sep: string): (r: seq<string>)
    requires sep != ""
  {
    var ps := Pieces(v, sep);
    if |ps| == 1 then ps else DropTrailingEmpty(ps)
  }

  // ---- numbers --------------------------------------------------------------

  predicate IsDigit(c: char) { '0' <= c <= '9' }

  function Digits(s: string): (r: Option<nat>)
    ensures r.Some? <==> forall c :: c in s ==> IsDigit(c)
  {
    if s == "" then Some(0)
    else
      var n := |s| - 1;
      assert s == s[..n] + [s[n]];
      if !IsDigit(s[n]) then None
      else match Digits(s[..n])
        case None => None
        case Some(v) => Some(10 * v + (s[n] as int - '0' as int))
  }

  /** Integer.parseInt: an optional sign, at least one digit, a value of 32 bits. */
  function ParseInt(s: string): (r: Option<int>)
    ensures r.Some? ==> -0x8000_0000 <= r.value <= 0x7fff_ffff
  {
    var negative := s != "" && s[0] == '-';
    var body := if s != "" && (s[0] == '-' || s[0] == '+') then s[1..] else s;
    if body == "" then None
    else match Digits(body)
      case None => None
      case Some(v) =>
        var n: int := if negative then -(v as int) else v;
        if -0x8000_0000 <= n <= 0x7fff_ffff then Some(n) else None
  }

  /** toLowerCase on the letters the type names are made of. */
  function Lower(c: char): char
  {
    if 'A' <= c <= 'Z' then ((c as int) + 32) as char else c
  }

  function ToLower(s: string): (r: string)
    ensures |r| == |s|
  {
    if s == "" then "" else [Lower(s[0])] + ToLower(s[1..])
  }
}
