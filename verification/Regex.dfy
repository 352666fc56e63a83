/**
 * The part of Python's `re` that the log patterns use: literals, alternatives, greedy runs
 * of one character class with a capture, and optional parts, matched by backtracking.
 */
module Regex {
  import opened Common

  datatype Class = NonSpace | Space | Digit | Letters | Address | NotColon | NotNewline

  /** `str.isspace`, which is what `\s` and `strip` go by. */
  predicate IsSpace(c: char) {
    || '\t' <= c <= '\r'
    || 28 as char <= c <= ' '
    || c == 0x85 as char
    || c == 0xA0 as char
    || c == 0x1680 as char
    || 0x2000 as char <= c <= 0x200A as char
    || c == 0x2028 as char
    || c == 0x2029 as char
    || c == 0x202F as char
    || c == 0x205F as char
    || c == 0x3000 as char
  }

  /** The characters that Python counts as white space. */
  lemma SpaceChars(c: char)
    ensures IsSpace(c) <==>
      c as int in {9, 10, 11, 12, 13, 28, 29, 30, 31, 32, 133, 160, 5760, 8192, 8193, 8194, 8195, 8196, 8197, 8198, 
                   8199, 8200, 8201, 8202, 8232, 8233, 8239, 8287, 12288}
  {
  }

  predicate IsLetter(c: char) { 'a' <= c <= 'z' || 'A' <= c <= 'Z' }

  predicate In(c: char, cls: Class) {
    match cls
    case NonSpace => !IsSpace(c)
    case Space => IsSpace(c)
    case Digit => IsDigit(c)
    case Letters => IsLetter(c) || IsDigit(c) || c == '_'
    case Address => IsDigit(c) || 'a' <= c <= 'f' || 'A' <= c <= 'F' || c == ':' || c == '.'
    case NotColon => c != ':'
    case NotNewline => c != '\n'
  }

  predicate AllIn(s: string, cls: Class) { forall i :: 0 <= i < |s| ==> In(s[i], cls) }

  /**
   * A pattern and what follows it. `Run` is `(?P<name>prefix[cls]{lo,hi})`; `Either(a, b)` is
   * tried as `a` first and as `b` when `a` fails, so that an optional part `(?:x)?` before `y`
   * is `Either(xy, y)`. `End` is `$` in a text without newlines.
   */
  datatype Re =
    | Accept
    | End
    | Lit(text: string, next: Re)
    | OneOf(name: string, options: seq<string>, next: Re)
    | Run(name: string, prefix: string, cls: Class, lo: nat, hi: Option<nat>, next: Re)
    | Either(first: Re, second: Re)

  type Captures = map<string, string>

  predicate StartsWith(s: string, t: string) { |t| <= |s| && s[..|t|] == t }

  /** How many characters of `s`, at most `hi`, are in the class without a gap. */
  function RunLength(s: string, cls: Class, hi: Option<nat>): (n: nat)
    ensures n <= |s|
    ensures hi.Some? ==> n <= hi.value
  {
    if s == "" || !In(s[0], cls) || hi == Some(0) then 0
    else 1 + RunLength(s[1..], cls, if hi.Some? then Some(hi.value - 1) else None)
  }

  /** The captures of the first way in which the pattern matches at the front of `s`. */
  function Match(re: Re, s: string, caps: Captures): Option<Captures>
    decreases re, 0, 0
  {
    match re
    case Accept => Some(caps)
    case End => if s == "" then Some(caps) else None
    case Lit(text, next) => if StartsWith(s, text) then Match(next, s[|text|..], caps) else None
    case OneOf(name, options, next) => MatchOneOf(re, s, caps, 0)
    case Run(name, prefix, cls, lo, hi, next) =>
      if StartsWith(s, prefix) then
        MatchRun(re, s, caps, RunLength(s[|prefix|..], cls, hi))
      else None
    case Either(first, second) =>
      var m := Match(first, s, caps);
      if m.Some? then m else Match(second, s, caps)
  }

  /** The alternatives from the `k`th on, in order. */
  function MatchOneOf(re: Re, s: string, caps: Captures, k: nat): Option<Captures>
    requires re.OneOf? && k <= |re.options|
    decreases re.next, 1, |re.options| - k
  {
    if k == |re.options| then None
    else
      var option := re.options[k];
      var m := if StartsWith(s, option) then Match(re.next, s[|option|..], caps[re.name := option]) else None;
      if m.Some? then m else MatchOneOf(re, s, caps, k + 1)
  }

  /** The run with `n` characters first, then shorter ones. */
  function MatchRun(re: Re, s: string, caps: Captures, n: nat): Option<Captures>
    requires re.Run? && |re.prefix| + n <= |s|
    decreases re.next, 1, n
  {
    if n < re.lo then None
    else
      var end := |re.prefix| + n;
      var m := Match(re.next, s[end..], caps[re.name := s[..end]]);
      if m.Some? || n == 0 then m else MatchRun(re, s, caps, n - 1)
  }

  /** `re.search`: the match at the leftmost position where there is one. */
  function Search(re: Re, s: string): Option<Captures> {
    var m := Match(re, s, map[]);
    if m.Some? || s == "" then m else Search(re, s[1..])
  }

  predicate MatchesSomewhere(re: Re, s: string) {
    exists i :: 0 <= i <= |s| && Match(re, s[i..], map[]).Some?
  }

  lemma {:induction false} SearchNone(re: Re, s: string)
    requires forall i :: 0 <= i <= |s| ==> Match(re, s[i..], map[]).None?
    ensures Search(re, s).None?
  {
    assert s[0..] == s;
    if s != "" {
      forall i | 0 <= i <= |s[1..]| ensures Match(re, s[1..][i..], map[]).None? {
        assert s[1..][i..] == s[i + 1..];
      }
      SearchNone(re, s[1..]);
    }
  }

  /** The pattern matches at `i`, and nowhere before. */
  predicate LeftmostAt(re: Re, s: string, i: nat) {
    && i <= |s| && Match(re, s[i..], map[]).Some?
    && forall j :: 0 <= j < i ==> Match(re, s[j..], map[]).None?
  }

  lemma {:induction false} SearchSome(re: Re, s: string) returns (i: nat)
    requires Search(re, s).Some?
    ensures LeftmostAt(re, s, i) && Search(re, s) == Match(re, s[i..], map[])
  {
    assert s[0..] == s;
    if Match(re, s, map[]).Some? {
      i := 0;
    } else {
      var k := SearchSome(re, s[1..]);
      i := k + 1;
      assert s[1..][k..] == s[i..];
      forall j | 0 <= j < i ensures Match(re, s[j..], map[]).None? {
        if j > 0 {
          assert s[1..][j - 1..] == s[j..];
        }
      }
    }
  }

  /** A search finds something exactly if the pattern matches somewhere, and then the first such match. */
  lemma SearchExact(re: Re, s: string)
    ensures Search(re, s).Some? <==> MatchesSomewhere(re, s)
    ensures Search(re, s).Some? ==> exists i: nat :: LeftmostAt(re, s, i) && Search(re, s) == Match(re, s[i..], map[])
  {
    if Search(re, s).Some? {
      var i := SearchSome(re, s);
    } else if MatchesSomewhere(re, s) {
      var i :| 0 <= i <= |s| && Match(re, s[i..], map[]).Some?;
      LaterMatch(re, s, i);
    }
  }

  lemma {:induction false} LaterMatch(re: Re, s: string, i: nat)
    requires i <= |s| && Match(re, s[i..], map[]).Some?
    ensures Search(re, s).Some?
  {
    if i == 0 {
      assert s[0..] == s;
    } else {
      assert s[1..][i - 1..] == s[i..];
      LaterMatch(re, s[1..], i - 1);
    }
  }

  // -- matching one step at a time --------------------------------------------

  lemma MatchLit(text: string, next: Re, rest: string, caps: Captures)
    ensures Match(Lit(text, next), text + rest, caps) == Match(next, rest, caps)
  {
    assert (text + rest)[|text|..] == rest;
    assert (text + rest)[..|text|] == text;
  }

  /** A run that is followed by a character outside its class, or by nothing, takes all of itself first. */
  lemma {:induction false} RunLengthExact(w: string, rest: string, cls: Class, hi: Option<nat>)
    requires AllIn(w, cls)
    requires rest == "" || !In(rest[0], cls) || hi == Some(|w|)
    requires hi.Some? ==> |w| <= hi.value
    ensures RunLength(w + rest, cls, hi) == |w|
    decreases |w|
  {
    if w == "" {
      assert w + rest == rest;
    } else {
      assert (w + rest)[1..] == w[1..] + rest;
      RunLengthExact(w[1..], rest, cls, if hi.Some? then Some(hi.value - 1) else None);
    }
  }

  lemma MatchRunGreedy(re: Re, w: string, rest: string, caps: Captures)
    requires re.Run? && AllIn(w, re.cls) && re.lo <= |w|
    requires rest == "" || !In(rest[0], re.cls) || re.hi == Some(|w|)
    requires re.hi.Some? ==> |w| <= re.hi.value
    requires Match(re.next, rest, caps[re.name := re.prefix + w]).Some?
    ensures Match(re, re.prefix + w + rest, caps) == Match(re.next, rest, caps[re.name := re.prefix + w])
  {
    var s := re.prefix + w + rest;
    assert s[..|re.prefix|] == re.prefix;
    assert s[|re.prefix|..] == w + rest;
    RunLengthExact(w, rest, re.cls, re.hi);
    var end := |re.prefix| + |w|;
    assert s[end..] == rest && s[..end] == re.prefix + w;
  }

  lemma MatchRunPlain(re: Re, w: string, rest: string, caps: Captures)
    requires re.Run? && re.prefix == "" && AllIn(w, re.cls) && re.lo <= |w|
    requires rest == "" || !In(rest[0], re.cls) || re.hi == Some(|w|)
    requires re.hi.Some? ==> |w| <= re.hi.value
    requires Match(re.next, rest, caps[re.name := w]).Some?
    ensures Match(re, w + rest, caps) == Match(re.next, rest, caps[re.name := w])
  {
    assert re.prefix + w == w;
    MatchRunGreedy(re, w, rest, caps);
  }

  lemma {:induction false} MatchOneOfAt(re: Re, k: nat, j: nat, rest: string, caps: Captures)
    requires re.OneOf? && j <= k < |re.options|
    requires forall i :: 0 <= i < |re.options| && i != k ==> !StartsWith(re.options[k] + rest, re.options[i])
    ensures MatchOneOf(re, re.options[k] + rest, caps, j) == Match(re.next, rest, caps[re.name := re.options[k]])
    decreases |re.options| - j
  {
    var s := re.options[k] + rest;
    assert s[..|re.options[k]|] == re.options[k] && s[|re.options[k]|..] == rest;
    if j < k {
      MatchOneOfAt(re, k, j + 1, rest, caps);
    } else {
      NoneLeft(re, s, caps, k + 1);
    }
  }

  lemma {:induction false} NoneLeft(re: Re, s: string, caps: Captures, k: nat)
    requires re.OneOf? && k <= |re.options|
    requires forall i :: k <= i < |re.options| ==> !StartsWith(s, re.options[i])
    ensures MatchOneOf(re, s, caps, k).None?
    decreases |re.options| - k
  {
    if k < |re.options| {
      NoneLeft(re, s, caps, k + 1);
    }
  }

  // -- what a match means ------------------------------------------------------

  lemma LitSplits(re: Re, s: string, caps: Captures) returns (rest: string)
    requires re.Lit? && Match(re, s, caps).Some?
    ensures s == re.text + rest && Match(re, s, caps) == Match(re.next, rest, caps)
  {
    rest := s[|re.text|..];
    assert s == s[..|re.text|] + s[|re.text|..];
  }

  lemma {:induction false} OneOfSplits(re: Re, s: string, caps: Captures, k: nat) returns (option: string, rest: string)
    requires re.OneOf? && k <= |re.options| && MatchOneOf(re, s, caps, k).Some?
    ensures option in re.options && s == option + rest
    ensures MatchOneOf(re, s, caps, k) == Match(re.next, rest, caps[re.name := option])
    decreases |re.options| - k
  {
    option := re.options[k];
    if StartsWith(s, option) && Match(re.next, s[|option|..], caps[re.name := option]).Some? {
      rest := s[|option|..];
      assert s == s[..|option|] + s[|option|..];
    } else {
      option, rest := OneOfSplits(re, s, caps, k + 1);
    }
  }

  lemma {:induction false} RunLengthIn(s: string, cls: Class, hi: Option<nat>)
    ensures AllIn(s[..RunLength(s, cls, hi)], cls)
  {
    if s != "" && In(s[0], cls) && hi != Some(0) {
      var hi' := if hi.Some? then Some(hi.value - 1) else None;
      RunLengthIn(s[1..], cls, hi');
      TakeOneMore(s, RunLength(s[1..], cls, hi'));
    }
  }

  lemma TakeOneMore(s: string, n: nat)
    requires n < |s|
    ensures s[..n + 1] == [s[0]] + s[1..][..n]
  {
    assert |s[1..]| == |s| - 1;
    forall i | 0 <= i < n + 1 ensures s[i] == ([s[0]] + s[1..][..n])[i] {
      assert i > 0 ==> s[1..][i - 1] == s[i];
    }
  }

  lemma {:induction false} MatchRunSplits(re: Re, s: string, caps: Captures, n: nat) returns (k: nat)
    requires re.Run? && |re.prefix| + n <= |s| && MatchRun(re, s, caps, n).Some?
    ensures re.lo <= k <= n
    ensures MatchRun(re, s, caps, n)
         == Match(re.next, s[|re.prefix| + k..], caps[re.name := s[..|re.prefix| + k]])
  {
    var end := |re.prefix| + n;
    if Match(re.next, s[end..], caps[re.name := s[..end]]).Some? || n == 0 {
      k := n;
    } else {
      k := MatchRunSplits(re, s, caps, n - 1);
    }
  }

  /** A run that matches has read its prefix and a text of its class, as long as it may be. */
  lemma RunSplits(re: Re, s: string, caps: Captures) returns (w: string, rest: string)
    requires re.Run? && Match(re, s, caps).Some?
    ensures s == re.prefix + (w + rest) && AllIn(w, re.cls) && re.lo <= |w| && (re.hi.Some? ==> |w| <= re.hi.value)
    ensures Match(re, s, caps) == Match(re.next, rest, caps[re.name := re.prefix + w])
  {
    var tail := s[|re.prefix|..];
    var n := RunLength(tail, re.cls, re.hi);
    var k := MatchRunSplits(re, s, caps, n);
    w, rest := tail[..k], tail[k..];
    RunLengthIn(tail, re.cls, re.hi);
    assert forall i :: 0 <= i < k ==> tail[..k][i] == tail[..n][i];
    Apart(s, re.prefix, k);
  }

  lemma Apart(s: string, prefix: string, k: nat)
    requires StartsWith(s, prefix) && |prefix| + k <= |s|
    ensures var tail := s[|prefix|..];
      && s == prefix + (tail[..k] + tail[k..])
      && s[|prefix| + k..] == tail[k..] && s[..|prefix| + k] == prefix + tail[..k]
  {
    assert s == s[..|prefix|] + s[|prefix|..];
  }

  // -- whether there is a match ------------------------------------------------

  /** What has been captured before does not decide whether a pattern matches. */
  lemma {:induction false} SameVerdict(re: Re, s: string, a: Captures, b: Captures)
    ensures Match(re, s, a).Some? <==> Match(re, s, b).Some?
    decreases re, 0, 0
  {
    match re
    case Accept =>
    case End =>
    case Lit(text, next) =>
      if StartsWith(s, text) {
        SameVerdict(next, s[|text|..], a, b);
      }
    case OneOf(_, _, _) => SameVerdictOneOf(re, s, a, b, 0);
    case Run(_, prefix, cls, _, hi, _) =>
      if StartsWith(s, prefix) {
        SameVerdictRun(re, s, a, b, RunLength(s[|prefix|..], cls, hi));
      }
    case Either(first, second) =>
      SameVerdict(first, s, a, b);
      SameVerdict(second, s, a, b);
  }

  lemma {:induction false} SameVerdictOneOf(re: Re, s: string, a: Captures, b: Captures, k: nat)
    requires re.OneOf? && k <= |re.options|
    ensures MatchOneOf(re, s, a, k).Some? <==> MatchOneOf(re, s, b, k).Some?
    decreases re.next, 1, |re.options| - k
  {
    if k < |re.options| {
      var option := re.options[k];
      if StartsWith(s, option) {
        SameVerdict(re.next, s[|option|..], a[re.name := option], b[re.name := option]);
      }
      SameVerdictOneOf(re, s, a, b, k + 1);
    }
  }

  lemma {:induction false} SameVerdictRun(re: Re, s: string, a: Captures, b: Captures, n: nat)
    requires re.Run? && |re.prefix| + n <= |s|
    ensures MatchRun(re, s, a, n).Some? <==> MatchRun(re, s, b, n).Some?
    decreases re.next, 1, n
  {
    if n >= re.lo {
      var end := |re.prefix| + n;
      SameVerdict(re.next, s[end..], a[re.name := s[..end]], b[re.name := s[..end]]);
      if n > 0 {
        SameVerdictRun(re, s, a, b, n - 1);
      }
    }
  }

  /** The pattern matches at the front of this text. */
  predicate Fits(re: Re, s: string) { Match(re, s, map[]).Some? }

  lemma FitsWith(re: Re, s: string, caps: Captures)
    ensures Fits(re, s) <==> Match(re, s, caps).Some?
  {
    SameVerdict(re, s, map[], caps);
  }

  lemma LitFits(text: string, next: Re, rest: string)
    ensures Fits(Lit(text, next), text + rest) <==> Fits(next, rest)
  {
    MatchLit(text, next, rest, map[]);
  }

  lemma {:induction false} OneOfFits(re: Re, option: string, rest: string, k: nat)
    requires re.OneOf? && k <= |re.options| && option in re.options[k..] && Fits(re.next, rest)
    ensures MatchOneOf(re, option + rest, map[], k).Some?
    decreases |re.options| - k
  {
    if re.options[k] == option {
      assert (option + rest)[|option|..] == rest && (option + rest)[..|option|] == option;
      FitsWith(re.next, rest, map[re.name := option]);
    } else {
      assert re.options[k..][1..] == re.options[k + 1..];
      OneOfFits(re, option, rest, k + 1);
    }
  }

  lemma {:induction false} RunLengthAtLeast(w: string, rest: string, cls: Class, hi: Option<nat>)
    requires AllIn(w, cls) && (hi.Some? ==> |w| <= hi.value)
    ensures RunLength(w + rest, cls, hi) >= |w|
    decreases |w|
  {
    if w != "" {
      assert (w + rest)[1..] == w[1..] + rest;
      RunLengthAtLeast(w[1..], rest, cls, if hi.Some? then Some(hi.value - 1) else None);
    }
  }

  lemma {:induction false} MatchRunFits(re: Re, s: string, n: nat, k: nat)
    requires re.Run? && |re.prefix| + n <= |s| && re.lo <= k <= n && Fits(re.next, s[|re.prefix| + k..])
    ensures MatchRun(re, s, map[], n).Some?
    decreases n
  {
    var end := |re.prefix| + n;
    if n == k {
      FitsWith(re.next, s[end..], map[re.name := s[..end]]);
    } else {
      MatchRunFits(re, s, n - 1, k);
    }
  }

  /** A run matches a text of its class, however it goes on, if the rest of the pattern matches behind it. */
  lemma RunFits(re: Re, w: string, rest: string)
    requires re.Run? && AllIn(w, re.cls) && re.lo <= |w| && (re.hi.Some? ==> |w| <= re.hi.value) && Fits(re.next, rest)
    ensures Fits(re, re.prefix + (w + rest))
  {
    var s := re.prefix + (w + rest);
    assert s[..|re.prefix|] == re.prefix && s[|re.prefix|..] == w + rest && s[|re.prefix| + |w|..] == rest;
    RunLengthAtLeast(w, rest, re.cls, re.hi);
    MatchRunFits(re, s, RunLength(w + rest, re.cls, re.hi), |w|);
  }
}
