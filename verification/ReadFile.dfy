/** The LQL source reader: trimmed lines, with blank and comment lines skipped. */
module Reading {
  import opened Wrappers
  import opened Text

  /** A line the reader skips. */
  predicate IsLayout(line: string) { StartsWith(Trim(line), "#") || Trim(line) == "" }

  /** A line that is blank, or starts with '#' after its margin, is skipped, and no other is. */
  lemma LayoutIsBlankOrComment(line: string)
    ensures IsLayout(line) <==> AllBlank(line) || exists i :: 0 <= i < |line| && line[i] == '#' && AllBlank(line[..i])
  {
    var a, b := TrimSplitsOff(line);
    var core := Trim(line);
    if core == "" {
      assert line == a + b;
    } else {
      assert line[|a|] == core[0] && line[..|a|] == a;
      forall i | 0 <= i < |line| && i != |a| ensures !(line[i] == '#' && AllBlank(line[..i])) {
        if i < |a| {
          assert line[i] == a[i] && IsBlank(a[i]);
        } else {
          assert line[..i][|a|] == line[|a|] && line[|a|] in line[..i];
        }
      }
      assert core[0] in line;
    }
  }

  /** The lines the compiler gets to see. */
  function Meaningful(lines: seq<string>): (r: seq<string>)
    ensures |r| <= |lines|
  {
    if lines == [] then []
    else if IsLayout(lines[0]) then Meaningful(lines[1..])
    else [Trim(lines[0])] + Meaningful(lines[1..])
  }

  lemma {:induction false} MeaningfulConcat(a: seq<string>, b: seq<string>)
    ensures Meaningful(a + b) == Meaningful(a) + Meaningful(b)
  {
    if a == [] {
      assert a + b == b;
    } else {
      assert (a + b)[1..] == a[1..] + b;
      MeaningfulConcat(a[1..], b);
    }
  }

  /** Blank and comment lines may be put anywhere, in any number, and taken away again. */
  lemma LayoutIsInvisible(a: seq<string>, layout: seq<string>, b: seq<string>)
    requires forall i :: 0 <= i < |layout| ==> IsLayout(layout[i])
    ensures Meaningful(a + layout + b) == Meaningful(a + b)
  {
    if layout == [] {
      assert a + layout + b == a + b;
    } else {
      var n := |layout| - 1;
      assert a + layout + b == (a + layout[..n]) + ([layout[n]] + b);
      MeaningfulConcat(a + layout[..n], [layout[n]] + b);
      assert ([layout[n]] + b)[1..] == b;
      MeaningfulConcat(a + layout[..n], b);
      LayoutIsInvisible(a, layout[..n], b);
    }
  }

  class ReadFile {
    /** What is still unread of the file, physical line by physical line. */
    var rest: seq<string>
    var count: nat
    ghost const file: seq<string>
    ghost var endReads: nat

    /** The counter is the number of physical reads, those at the end of the file included. */
    ghost predicate Valid()
      reads this
    {
      && |rest| <= |file|
      && count == |file| - |rest| + endReads
    }

    constructor (lines: seq<string>)
      ensures Valid() && rest == file == lines && count == 0
    {
      rest, count := lines, 0;
      file, endReads := lines, 0;
    }

    /** Returns the next meaningful line, trimmed, or None at the end of the file. */
    method ReadLien() returns (line: Option<string>)
      requires Valid()
      modifies this
      ensures Valid()
      ensures var ahead := Meaningful(old(rest));
              if ahead == [] then line == None && rest == [] && endReads == old(endReads) + 1
              else line == Some(ahead[0]) && Meaningful(rest) == ahead[1..] && endReads == old(endReads)
      ensures |rest| <= |old(rest)| && (line.Some? ==> |rest| < |old(rest)|)
      ensures line == None ==> Meaningful(rest) == []
      decreases |rest|
    {
      count := count + 1;
      if rest == [] {
        endReads := endReads + 1;
        return None;
      }
      var text := Trim(rest[0]);
      rest := rest[1..];
      if StartsWith(text, "#") || |text| == 0 {
        line := ReadLien();
      } else {
        line := Some(text);
      }
    }

    method GetLine() returns (n: nat)
      ensures n == count
    {
      n := count;
    }
  }
}
