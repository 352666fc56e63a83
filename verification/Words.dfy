/**
 * Texts that are words with one space between them, and what patterns written word by word
 * do on them.
 */
module Words {
  import opened Regex

  /** The words from the `k`th on, with single spaces between them. */
  function JoinFrom(words: seq<string>, k: nat): string
    requires k < |words|
    decreases |words| - k
  {
    words[k] + AfterWord(words, k)
  }

  function AfterWord(words: seq<string>, k: nat): string
    requires k < |words|
    decreases |words| - k, 0
  {
    if k == |words| - 1 then "" else " " + JoinFrom(words, k + 1)
  }

  predicate IsWord(s: string) { s != "" && AllIn(s, NonSpace) }

  predicate AreWords(words: seq<string>) { forall i :: 0 <= i < |words| ==> IsWord(words[i]) }

  predicate EndsWith(s: string, t: string) { |t| <= |s| && s[|s| - |t|..] == t }

  /** The pattern of one fixed word with the space behind it. */
  function Word(text: string, next: Re): Re { Lit(text, Lit(" ", next)) }

  // -- forward: the words that are there match ----------------------------------

  lemma StepSpace(words: seq<string>, k: nat, next: Re, caps: Captures)
    requires k + 1 < |words|
    ensures Match(Lit(" ", next), AfterWord(words, k), caps) == Match(next, JoinFrom(words, k + 1), caps)
  {
    MatchLit(" ", next, JoinFrom(words, k + 1), caps);
  }

  lemma StepWord(words: seq<string>, k: nat, next: Re, caps: Captures)
    requires k + 1 < |words|
    ensures Match(Word(words[k], next), JoinFrom(words, k), caps) == Match(next, JoinFrom(words, k + 1), caps)
  {
    MatchLit(words[k], Lit(" ", next), AfterWord(words, k), caps);
    StepSpace(words, k, next, caps);
  }

  /** A run takes a whole word of its class, whatever comes behind the word. */
  lemma StepRun(words: seq<string>, k: nat, re: Re, w: string, caps: Captures)
    requires k < |words| && re.Run? && words[k] == re.prefix + w
    requires re.hi.None? && AllIn(w, re.cls) && re.lo <= |w| && !In(' ', re.cls)
    requires Match(re.next, AfterWord(words, k), caps[re.name := words[k]]).Some?
    ensures Match(re, JoinFrom(words, k), caps) == Match(re.next, AfterWord(words, k), caps[re.name := words[k]])
  {
    MatchRunGreedy(re, w, AfterWord(words, k), caps);
  }

  lemma StepRunSpace(words: seq<string>, k: nat, re: Re, next: Re, caps: Captures)
    requires k + 1 < |words|
    requires re.Run? && re.prefix == "" && re.hi.None? && AllIn(words[k], re.cls) && re.lo <= |words[k]|
    requires !In(' ', re.cls) && re.next == Lit(" ", next)
    requires Match(next, JoinFrom(words, k + 1), caps[re.name := words[k]]).Some?
    ensures Match(re, JoinFrom(words, k), caps) == Match(next, JoinFrom(words, k + 1), caps[re.name := words[k]])
  {
    StepSpace(words, k, next, caps[re.name := words[k]]);
    assert words[k] == "" + words[k];
    StepRun(words, k, re, words[k], caps);
  }

  // -- backward: what matches is there ------------------------------------------

  /** Every position of a text lies in one of its words or just behind it. */
  lemma {:induction false} Position(words: seq<string>, k: nat, i: nat) returns (at: nat, j: nat)
    requires k < |words| && i <= |JoinFrom(words, k)|
    ensures k <= at < |words| && j <= |words[at]|
    ensures JoinFrom(words, k)[i..] == words[at][j..] + AfterWord(words, at)
    decreases |words| - k
  {
    if i <= |words[k]| {
      at, j := k, i;
    } else {
      assert AfterWord(words, k) == " " + JoinFrom(words, k + 1);
      at, j := Position(words, k + 1, i - |words[k]| - 1);
      assert JoinFrom(words, k)[i..] == JoinFrom(words, k + 1)[i - |words[k]| - 1..];
    }
  }

  lemma {:induction false} SameWord(x: string, y: string, r: string, z: string)
    requires AllIn(x, NonSpace) && AllIn(y, NonSpace)
    requires x + " " + r == y + z && (z == "" || z[0] == ' ')
    ensures x == y && z == " " + r
  {
    assert (x + " " + r)[0] == (y + z)[0];
    if x != "" && y != "" {
      assert x[1..] + " " + r == (x + " " + r)[1..];
      assert y[1..] + z == (y + z)[1..];
      SameWord(x[1..], y[1..], r, z);
    } else {
      assert x + " " + r == " " + r;
      assert y + z == z;
    }
  }

  lemma LitIsRestOfWord(words: seq<string>, k: nat, j: nat, text: string, next: Re, caps: Captures)
    requires AreWords(words) && IsWord(text) && k < |words| && j <= |words[k]|
    requires Match(Word(text, next), words[k][j..] + AfterWord(words, k), caps).Some?
    ensures words[k][j..] == text && k + 1 < |words|
    ensures Match(next, JoinFrom(words, k + 1), caps).Some?
  {
    var s := words[k][j..] + AfterWord(words, k);
    var r := s[|text|..][1..];
    assert s == text + " " + r;
    assert IsWord(words[k]);
    SameWord(text, words[k][j..], r, AfterWord(words, k));
    MatchLit(text, Lit(" ", next), AfterWord(words, k), caps);
    StepSpace(words, k, next, caps);
  }

  lemma LitMustBe(words: seq<string>, k: nat, text: string, next: Re, caps: Captures)
    requires AreWords(words) && IsWord(text) && k < |words|
    ensures Match(Word(text, next), JoinFrom(words, k), caps).Some?
      ==> words[k] == text && k + 1 < |words| && Match(next, JoinFrom(words, k + 1), caps).Some?
  {
    if Match(Word(text, next), JoinFrom(words, k), caps).Some? {
      assert words[k][0..] == words[k];
      LitIsRestOfWord(words, k, 0, text, next, caps);
    }
  }

  /** A pattern of two fixed words matches only where these two words are. */
  lemma TwoWords(words: seq<string>, i: nat, a: string, b: string, next: Re) returns (k: nat)
    requires AreWords(words) && words != [] && i <= |JoinFrom(words, 0)|
    requires IsWord(a) && IsWord(b)
    requires Match(Word(a, Word(b, next)), JoinFrom(words, 0)[i..], map[]).Some?
    ensures k + 2 < |words| && EndsWith(words[k], a) && words[k + 1] == b
    ensures Match(next, JoinFrom(words, k + 2), map[]).Some?
  {
    var j;
    k, j := Position(words, 0, i);
    LitIsRestOfWord(words, k, j, a, Word(b, next), map[]);
    assert words[k + 1][0..] == words[k + 1];
    LitIsRestOfWord(words, k + 1, 0, b, next, map[]);
  }

  lemma {:induction false} OneOfIsWord(words: seq<string>, k: nat, re: Re, next: Re, caps: Captures, from: nat)
    returns (caps': Captures)
    requires AreWords(words) && k < |words|
    requires re.OneOf? && re.next == Lit(" ", next) && from <= |re.options| && AreWords(re.options)
    requires MatchOneOf(re, JoinFrom(words, k), caps, from).Some?
    ensures words[k] in re.options && k + 1 < |words|
    ensures Match(next, JoinFrom(words, k + 1), caps').Some?
    decreases |re.options| - from
  {
    var option := re.options[from];
    var s := JoinFrom(words, k);
    caps' := caps[re.name := option];
    if StartsWith(s, option) && Match(re.next, s[|option|..], caps').Some? {
      MatchLit(option, re.next, s[|option|..], caps');
      assert s == option + s[|option|..];
      assert words[k][0..] == words[k];
      LitIsRestOfWord(words, k, 0, option, next, caps');
    } else {
      caps' := OneOfIsWord(words, k, re, next, caps, from + 1);
    }
  }
}
