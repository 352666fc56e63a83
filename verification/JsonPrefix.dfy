/**
 * The scan of a value does not look past its end: what has been scanned in a text is scanned
 * the same in every shorter one that still holds it. Together with `ScanValueGrows` this says
 * exactly what a reader that gets its text in pieces can see.
 */
module JsonPrefix {
  import opened Common
  import opened JsonScanner

  function Least(a: nat, b: nat): nat { if a < b then a else b }

  lemma {:induction false} SkipWsShrinks(s: string, u: string, p: nat)
    requires Extends(s, u) && p <= |s|
    ensures SkipWs(s, p) == Least(SkipWs(u, p), |s|)
    decreases |s| - p
  {
    if p < |s| && IsWs(s[p]) {
      SkipWsShrinks(s, u, p + 1);
    }
  }

  lemma {:induction false} SkipDigitsShrinks(s: string, u: string, p: nat)
    requires Extends(s, u) && p <= |s|
    ensures SkipDigits(s, p) == Least(SkipDigits(u, p), |s|)
    decreases |s| - p
  {
    if p < |s| && IsDigit(s[p]) {
      SkipDigitsShrinks(s, u, p + 1);
    }
  }

  lemma {:induction false} ScanStringShrinks(s: string, u: string, p: nat)
    requires Extends(s, u) && ScanString(u, p).Good? && ScanString(u, p).end <= |s|
    ensures ScanString(s, p) == ScanString(u, p)
    decreases |u| - p
  {
    if u[p] == '"' {
    } else if u[p] == '\\' {
      ScanStringShrinks(s, u, if u[p + 1] == 'u' then p + 6 else p + 2);
    } else {
      ScanStringShrinks(s, u, p + 1);
    }
  }

  // -- numbers -----------------------------------------------------------------------------------

  lemma IntegerShrinks(s: string, u: string, p: nat)
    requires Extends(s, u) && p <= |s| && p < SkipInteger(u, p) <= |s|
    ensures SkipInteger(s, p) == SkipInteger(u, p)
  {
    var d := if u[p] == '-' then p + 1 else p;
    SkipDigitsShrinks(s, u, d);
  }

  lemma FractionShrinks(s: string, u: string, p: nat)
    requires Extends(s, u) && p <= |s| && SkipFraction(u, p) <= |s|
    ensures SkipFraction(s, p) == SkipFraction(u, p)
  {
    if p + 1 < |s| {
      SkipDigitsShrinks(s, u, p + 1);
    }
  }

  lemma ExponentShrinks(s: string, u: string, p: nat)
    requires Extends(s, u) && p <= |s| && SkipExponent(u, p) <= |s|
    ensures SkipExponent(s, p) == SkipExponent(u, p)
  {
    if p < |s| {
      var d := if p + 1 < |s| && (s[p + 1] == '+' || s[p + 1] == '-') then p + 2 else p + 1;
      if d <= |s| {
        SkipDigitsShrinks(s, u, d);
      }
    }
  }

  lemma NumberShrinks(s: string, u: string, p: nat)
    requires Extends(s, u) && p <= |s| && ScanNumber(u, p).Good? && ScanNumber(u, p).end <= |s|
    ensures ScanNumber(s, p) == ScanNumber(u, p)
  {
    var i := SkipInteger(u, p);
    var f := SkipFraction(u, i);
    var e := SkipExponent(u, f);
    IntegerShrinks(s, u, p);
    FractionShrinks(s, u, i);
    ExponentShrinks(s, u, f);
    assert s[p..e] == u[p..e];
  }

  // -- more text can only make a number longer ---------------------------------------------------

  lemma IntegerGrows(s: string, u: string, p: nat)
    requires Extends(s, u) && p <= |s| && SkipInteger(s, p) > p
    ensures SkipInteger(u, p) >= SkipInteger(s, p)
    ensures SkipInteger(s, p) < |s| ==> SkipInteger(u, p) == SkipInteger(s, p)
  {
    var d := if s[p] == '-' then p + 1 else p;
    SkipDigitsShrinks(s, u, d);
  }

  lemma FractionGrows(s: string, u: string, p: nat)
    requires Extends(s, u) && p <= |s|
    ensures SkipFraction(u, p) >= SkipFraction(s, p)
    ensures SkipFraction(s, p) < |s| && s[SkipFraction(s, p)] != '.' ==> SkipFraction(u, p) == SkipFraction(s, p)
  {
    if p + 1 <= |s| {
      SkipDigitsShrinks(s, u, p + 1);
    }
  }

  lemma ExponentGrows(s: string, u: string, p: nat)
    requires Extends(s, u) && p <= |s|
    ensures SkipExponent(u, p) >= SkipExponent(s, p)
  {
    if p < |s| {
      var d := if p + 1 < |s| && (s[p + 1] == '+' || s[p + 1] == '-') then p + 2 else p + 1;
      if d <= |s| {
        SkipDigitsShrinks(s, u, d);
      }
    }
  }

  lemma NumberGrows(s: string, u: string, p: nat)
    requires Extends(s, u) && p <= |s| && ScanNumber(s, p).Good?
    ensures ScanNumber(u, p).Good? && ScanNumber(u, p).end >= ScanNumber(s, p).end
  {
    var i := SkipInteger(s, p);
    var f := SkipFraction(s, i);
    IntegerGrows(s, u, p);
    if i < |s| {
      FractionGrows(s, u, i);
      if f < |s| && s[f] != '.' {
        ExponentGrows(s, u, f);
      }
    }
  }

  // -- values ------------------------------------------------------------------------------------

  lemma WordShrinks(s: string, u: string, p: nat, word: string, v: Json)
    requires Extends(s, u) && ScanWord(u, p, word, v).Good? && p + |word| <= |s|
    ensures ScanWord(s, p, word, v) == ScanWord(u, p, word, v)
  {
    assert s[p..p + |word|] == u[p..p + |word|];
  }

  lemma ScalarShrinks(s: string, u: string, p: nat)
    requires Extends(s, u) && p < |s| && ScanScalar(u, p).Good? && ScanScalar(u, p).end <= |s|
    ensures ScanScalar(s, p) == ScanScalar(u, p)
  {
    match u[p] {
      case 'n' => WordShrinks(s, u, p, "null", Null);
      case 't' => WordShrinks(s, u, p, "true", Bool(true));
      case 'f' => WordShrinks(s, u, p, "false", Bool(false));
      case 'N' => WordShrinks(s, u, p, "NaN", Number("NaN"));
      case 'I' => WordShrinks(s, u, p, "Infinity", Number("Infinity"));
      case _ =>
        if u[p] == '-' && p + 1 < |u| && u[p + 1] == 'I' {
          WordShrinks(s, u, p, "-Infinity", Number("-Infinity"));
        } else {
          NumberShrinks(s, u, p);
        }
    }
  }

  lemma {:induction false} ScanValueShrinks(s: string, u: string, p: nat)
    requires Extends(s, u) && p <= |s| && ScanValue(u, p).Good? && ScanValue(u, p).end <= |s|
    ensures ScanValue(s, p) == ScanValue(u, p)
    decreases |u| - p, 0
  {
    if u[p] == '"' {
      ScanStringShrinks(s, u, p + 1);
    } else if u[p] == '{' {
      ObjectShrinks(s, u, p);
    } else if u[p] == '[' {
      ArrayShrinks(s, u, p);
    } else {
      ScalarShrinks(s, u, p);
    }
  }

  lemma {:induction false} ObjectShrinks(s: string, u: string, p: nat)
    requires Extends(s, u) && p < |s| && u[p] == '{' && ScanValue(u, p).Good? && ScanValue(u, p).end <= |s|
    ensures ScanValue(s, p) == ScanValue(u, p)
    decreases |u| - p - 1, 5
  {
    var q := SkipWs(u, p + 1);
    SkipWsShrinks(s, u, p + 1);
    if u[q] != '}' {
      ScanMembersShrinks(s, u, q);
    }
  }

  lemma {:induction false} ArrayShrinks(s: string, u: string, p: nat)
    requires Extends(s, u) && p < |s| && u[p] == '[' && ScanValue(u, p).Good? && ScanValue(u, p).end <= |s|
    ensures ScanValue(s, p) == ScanValue(u, p)
    decreases |u| - p - 1, 5
  {
    var q := SkipWs(u, p + 1);
    SkipWsShrinks(s, u, p + 1);
    if u[q] != ']' {
      ScanElementsShrinks(s, u, q);
    }
  }

  lemma {:induction false} ScanMemberShrinks(s: string, u: string, p: nat)
    requires Extends(s, u) && p <= |s| && ScanMember(u, p).Good? && ScanMember(u, p).end <= |s|
    ensures ScanMember(s, p) == ScanMember(u, p)
    decreases |u| - p, 2
  {
    var key := ScanString(u, p + 1);
    ScanStringShrinks(s, u, p + 1);
    AfterKeyShrinks(s, u, key.value, key.end);
  }

  lemma {:induction false} AfterKeyShrinks(s: string, u: string, key: Text, k: nat)
    requires Extends(s, u) && k <= |s| && AfterKey(u, key, k).Good? && AfterKey(u, key, k).end <= |s|
    ensures AfterKey(s, key, k) == AfterKey(u, key, k)
    decreases |u| - k, 1
  {
    var colon := SkipWs(u, k);
    var start := SkipWs(u, colon + 1);
    SkipWsShrinks(s, u, k);
    SkipWsShrinks(s, u, colon + 1);
    KeyGoesOn(u, key, k, colon);
    ScanValueShrinks(s, u, start);
    KeyGoesOn(s, key, k, colon);
  }

  lemma {:induction false} ScanMembersShrinks(s: string, u: string, p: nat)
    requires Extends(s, u) && p <= |s| && ScanMembers(u, p).Good? && ScanMembers(u, p).end <= |s|
    ensures ScanMembers(s, p) == ScanMembers(u, p)
    decreases |u| - p, 4
  {
    var m := ScanMember(u, p);
    ScanMemberShrinks(s, u, p);
    AfterMemberShrinks(s, u, m.value, m.end);
  }

  lemma {:induction false} AfterMemberShrinks(s: string, u: string, m: (Text, Json), e: nat)
    requires Extends(s, u) && e <= |s| && AfterMember(u, m, e).Good? && AfterMember(u, m, e).end <= |s|
    ensures AfterMember(s, m, e) == AfterMember(u, m, e)
    decreases |u| - e, 3
  {
    var next := SkipWs(u, e);
    SkipWsShrinks(s, u, e);
    if u[next] == ',' {
      SkipWsShrinks(s, u, next + 1);
      ScanMembersShrinks(s, u, SkipWs(u, next + 1));
    }
  }

  lemma {:induction false} ScanElementsShrinks(s: string, u: string, p: nat)
    requires Extends(s, u) && p <= |s| && ScanElements(u, p).Good? && ScanElements(u, p).end <= |s|
    ensures ScanElements(s, p) == ScanElements(u, p)
    decreases |u| - p, 4
  {
    var v := ScanValue(u, p);
    ScanValueShrinks(s, u, p);
    AfterElementShrinks(s, u, v.value, v.end);
  }

  lemma ElementsEnd(s: string, v: Json, e: nat, next: nat)
    requires e <= |s| && next == SkipWs(s, e) < |s| && s[next] == ']'
    ensures AfterElement(s, v, e) == Good([v], next + 1)
  {
  }

  lemma ElementsGoOn(s: string, v: Json, e: nat, next: nat)
    requires e <= |s| && next == SkipWs(s, e) < |s| && s[next] == ','
    ensures AfterElement(s, v, e) == Prepended(v, ScanElements(s, SkipWs(s, next + 1)))
  {
  }

  lemma {:induction false} AfterElementShrinks(s: string, u: string, v: Json, e: nat)
    requires Extends(s, u) && e <= |s| && AfterElement(u, v, e).Good? && AfterElement(u, v, e).end <= |s|
    ensures AfterElement(s, v, e) == AfterElement(u, v, e)
    decreases |u| - e, 3
  {
    var next := SkipWs(u, e);
    SkipWsShrinks(s, u, e);
    if u[next] == ']' {
      ElementsEnd(u, v, e, next);
      ElementsEnd(s, v, e, next);
    } else {
      ElementsGoOn(u, v, e, next);
      CommaShrinks(s, u, v, e, next);
    }
  }

  lemma {:induction false} CommaShrinks(s: string, u: string, v: Json, e: nat, next: nat)
    requires Extends(s, u) && e <= |s| && e <= next == SkipWs(s, e) < |s| && s[next] == ','
    requires var rest := ScanElements(u, SkipWs(u, next + 1)); rest.Good? && rest.end <= |s|
    ensures AfterElement(s, v, e) == Prepended(v, ScanElements(u, SkipWs(u, next + 1)))
    decreases |u| - e, 2
  {
    ElementsGoOn(s, v, e, next);
    SkipWsShrinks(s, u, next + 1);
    ScanElementsShrinks(s, u, SkipWs(u, next + 1));
  }
}
