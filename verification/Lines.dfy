/** Cutting a byte string at its newlines, as `buffer.split(b"\n")` followed by `lines.pop()` does. */
module Lines {

  const NL := '\n'

  /** The lines with a newline behind each. */
  function Unlines(lines: seq<string>): string {
    if lines == [] then "" else lines[0] + "\n" + Unlines(lines[1..])
  }

  predicate NoNewline(s: string) { forall i :: 0 <= i < |s| ==> s[i] != '\n' }

  predicate AreLines(lines: seq<string>) { forall i :: 0 <= i < |lines| ==> NoNewline(lines[i]) }

  datatype Split = Split(lines: seq<string>, rest: string)

  /** The complete lines of a text and what comes after its last newline. */
  function SplitLines(s: string): Split {
    if s == "" then Split([], "")
    else
      var r := SplitLines(s[1..]);
      if s[0] == '\n' then Split([""] + r.lines, r.rest)
      else if r.lines == [] then Split([], [s[0]] + r.rest)
      else Split([[s[0]] + r.lines[0]] + r.lines[1..], r.rest)
  }

  lemma {:induction false} SplitLinesCorrect(s: string)
    ensures Unlines(SplitLines(s).lines) + SplitLines(s).rest == s
    ensures AreLines(SplitLines(s).lines) && NoNewline(SplitLines(s).rest)
  {
    if s != "" {
      SplitLinesCorrect(s[1..]);
      var r := SplitLines(s[1..]);
      assert s == [s[0]] + s[1..];
      if s[0] == NL {
        assert ([""] + r.lines)[1..] == r.lines;
      } else if r.lines != [] {
        LongerFirstLine(s[0], r.lines, r.rest);
      }
    }
  }

  lemma Regroup(c: char, line: string, tail: string, rest: string)
    ensures ([c] + line) + [NL] + tail + rest == [c] + (line + [NL] + tail + rest)
  {
  }

  lemma LongerFirstLine(c: char, lines: seq<string>, rest: string)
    requires lines != []
    ensures Unlines([[c] + lines[0]] + lines[1..]) + rest == [c] + (Unlines(lines) + rest)
  {
    var longer := [[c] + lines[0]] + lines[1..];
    assert longer[0] == [c] + lines[0] && longer[1..] == lines[1..];
    Regroup(c, lines[0], Unlines(lines[1..]), rest);
  }

  lemma {:induction false} UnlinesAppend(a: seq<string>, b: seq<string>)
    ensures Unlines(a + b) == Unlines(a) + Unlines(b)
  {
    if a == [] {
      assert a + b == b;
    } else {
      assert (a + b)[1..] == a[1..] + b;
      UnlinesAppend(a[1..], b);
    }
  }

  /** There is only one way to cut a text into lines. */
  lemma {:induction false} SplitUnique(lines: seq<string>, rest: string)
    requires AreLines(lines) && NoNewline(rest)
    ensures SplitLines(Unlines(lines) + rest) == Split(lines, rest)
  {
    if lines == [] {
      assert Unlines(lines) + rest == rest;
      SplitNothing(rest);
    } else {
      SplitUnique(lines[1..], rest);
      var tail := Unlines(lines[1..]) + rest;
      assert Unlines(lines) + rest == lines[0] + ([NL] + tail);
      FirstLine(lines[0], tail);
      assert [lines[0]] + lines[1..] == lines;
    }
  }

  lemma {:induction false} SplitNothing(s: string)
    requires NoNewline(s)
    ensures SplitLines(s) == Split([], s)
  {
    if s != "" {
      SplitNothing(s[1..]);
      assert [s[0]] + s[1..] == s;
    }
  }

  lemma {:induction false} FirstLine(line: string, tail: string)
    requires NoNewline(line)
    ensures SplitLines(line + ([NL] + tail)) == Split([line] + SplitLines(tail).lines, SplitLines(tail).rest)
  {
    var s := line + ([NL] + tail);
    if line == "" {
      assert s[1..] == tail && s[0] == NL;
    } else {
      assert s[1..] == line[1..] + ([NL] + tail) && s[0] == line[0];
      FirstLine(line[1..], tail);
      assert [line[0]] + line[1..] == line;
    }
  }

  lemma {:induction false} NewlineMeansLine(s: string)
    ensures SplitLines(s).lines == [] <==> NoNewline(s)
  {
    if s != "" {
      NewlineMeansLine(s[1..]);
      assert s == [s[0]] + s[1..];
    }
  }

  lemma PushLine(lines: seq<string>, rest: string)
    ensures Unlines(lines + [rest]) + "" == Unlines(lines) + rest + [NL]
  {
    UnlinesAppend(lines, [rest]);
    assert Unlines([rest]) == rest + [NL];
  }

  /** The method behind `split` and `pop`. */
  method CutLines(s: string) returns (lines: seq<string>, rest: string)
    ensures Split(lines, rest) == SplitLines(s)
  {
    lines, rest := [], "";
    var i := 0;
    while i < |s|
      invariant 0 <= i <= |s|
      invariant Unlines(lines) + rest == s[..i]
      invariant AreLines(lines) && NoNewline(rest)
    {
      assert s[..i + 1] == s[..i] + [s[i]];
      if s[i] == NL {
        PushLine(lines, rest);
        lines, rest := lines + [rest], "";
      } else {
        rest := rest + [s[i]];
      }
      i := i + 1;
    }
    assert s[..i] == s;
    SplitUnique(lines, rest);
  }

  /** `sum(len(line) + 1 for line in lines)` */
  method Consumed(lines: seq<string>) returns (n: nat)
    ensures n == |Unlines(lines)|
  {
    n := 0;
    var i := 0;
    while i < |lines|
      invariant 0 <= i <= |lines|
      invariant n == |Unlines(lines[..i])|
    {
      assert lines[..i + 1] == lines[..i] + [lines[i]];
      UnlinesAppend(lines[..i], [lines[i]]);
      assert Unlines([lines[i]]) == lines[i] + [NL];
      n := n + |lines[i]| + 1;
      i := i + 1;
    }
    assert lines[..i] == lines;
  }
}
