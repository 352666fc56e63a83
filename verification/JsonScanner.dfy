/**
 * `json.JSONDecoder().raw_decode` as a recursive-descent scanner over RFC 8259 text
 * (section 4 objects, section 5 arrays, section 6 numbers, section 7 strings), together
 * with the two facts an incremental reader lives on: a value that has been scanned stays
 * the same value when more text arrives, and its scan never looks past its own end.
 */
module JsonScanner {
  import opened Common

  /** Decoded text, one number for each character or `\u` escape. */
  type Text = seq<int>

  datatype Json =
    | Null
    | Bool(b: bool)
    | Number(text: string)
    | Str(text': Text)
    | Array(items: seq<Json>)
    | Object(fields: seq<(Text, Json)>)

  datatype Parsed<+T> = Bad | Good(value: T, end: nat)

  /** One more item in front of what is scanned after it. */
  function Prepended<T>(x: T, rest: Parsed<seq<T>>): Parsed<seq<T>> {
    match rest
    case Bad => Bad
    case Good(xs, e) => Good([x] + xs, e)
  }

  predicate IsWs(c: char) { c == ' ' || c == '\t' || c == '\r' || c == '\n' }

  function SkipWs(s: string, p: nat): (q: nat)
    requires p <= |s|
    ensures p <= q <= |s|
    ensures q < |s| ==> !IsWs(s[q])
    decreases |s| - p
  {
    if p < |s| && IsWs(s[p]) then SkipWs(s, p + 1) else p
  }

  // -- strings (section 7) ---------------------------------------------------

  function HexValue(c: char): int {
    if '0' <= c <= '9' then c as int - '0' as int
    else if 'a' <= c <= 'f' then c as int - 'a' as int + 10
    else if 'A' <= c <= 'F' then c as int - 'A' as int + 10
    else -1
  }

  /** The character named by a two-character escape, or -1 if there is none. */
  function EscapeValue(c: char): int {
    match c
    case '"' => 34
    case '\\' => 92
    case '/' => 47
    case 'b' => 8
    case 'f' => 12
    case 'n' => 10
    case 'r' => 13
    case 't' => 9
    case _ => -1
  }

  predicate HexAt(s: string, p: nat) {
    p + 4 <= |s| && forall i :: p <= i < p + 4 ==> HexValue(s[i]) >= 0
  }

  function HexSum(a: int, b: int, c: int, d: int): int { ((a * 16 + b) * 16 + c) * 16 + d }

  /** The rest of a string literal; `p` is just after the opening quote or an earlier character. */
  function ScanString(s: string, p: nat): (r: Parsed<Text>)
    ensures r.Good? ==> p < r.end <= |s|
    decreases |s| - p
  {
    if p >= |s| then Bad
    else if s[p] == '"' then Good([], p + 1)
    else if s[p] == '\\' then
      if p + 1 >= |s| then Bad
      else if s[p + 1] == 'u' then
        if !HexAt(s, p + 2) then Bad
        else
          var unit := HexSum(HexValue(s[p + 2]), HexValue(s[p + 3]), HexValue(s[p + 4]), HexValue(s[p + 5]));
          Prepended(unit, ScanString(s, p + 6))
      else if EscapeValue(s[p + 1]) < 0 then Bad
      else Prepended(EscapeValue(s[p + 1]), ScanString(s, p + 2))
    else if s[p] < ' ' then Bad // control characters must be escaped
    else Prepended(s[p] as int, ScanString(s, p + 1))
  }

  // -- numbers (section 6) ---------------------------------------------------

  function SkipDigits(s: string, p: nat): (q: nat)
    requires p <= |s|
    ensures p <= q <= |s|
    ensures q < |s| ==> !IsDigit(s[q])
    decreases |s| - p
  {
    if p < |s| && IsDigit(s[p]) then SkipDigits(s, p + 1) else p
  }

  /** The end of an optional fraction starting at `p`. */
  function SkipFraction(s: string, p: nat): (q: nat)
    requires p <= |s|
    ensures p <= q <= |s|
  {
    if p + 1 < |s| && s[p] == '.' && IsDigit(s[p + 1]) then SkipDigits(s, p + 1) else p
  }

  /** The end of an optional exponent starting at `p`. */
  function SkipExponent(s: string, p: nat): (q: nat)
    requires p <= |s|
    ensures p <= q <= |s|
  {
    if p < |s| && (s[p] == 'e' || s[p] == 'E') then
      var d := if p + 1 < |s| && (s[p + 1] == '+' || s[p + 1] == '-') then p + 2 else p + 1;
      if d < |s| && IsDigit(s[d]) then SkipDigits(s, d) else p
    else p
  }

  /** The end of the integer part starting at `p`, or `p` if there is none. */
  function SkipInteger(s: string, p: nat): (q: nat)
    requires p <= |s|
    ensures p <= q <= |s|
  {
    var d := if p < |s| && s[p] == '-' then p + 1 else p;
    if d < |s| && s[d] == '0' then d + 1
    else if d < |s| && IsDigit(s[d]) then SkipDigits(s, d)
    else p
  }

  function ScanNumber(s: string, p: nat): (r: Parsed<Json>)
    requires p <= |s|
    ensures r.Good? ==> p < r.end <= |s| && r.value == Number(s[p..r.end])
  {
    var i := SkipInteger(s, p);
    if i == p then Bad
    else
      var e := SkipExponent(s, SkipFraction(s, i));
      Good(Number(s[p..e]), e)
  }

  // -- values ----------------------------------------------------------------

  predicate LiteralAt(s: string, p: nat, word: string) {
    p + |word| <= |s| && s[p..p + |word|] == word
  }

  function ScanWord(s: string, p: nat, word: string, v: Json): Parsed<Json> {
    if LiteralAt(s, p, word) then Good(v, p + |word|) else Bad
  }

  /** A value that is neither a string, an object nor an array. */
  function ScanScalar(s: string, p: nat): (r: Parsed<Json>)
    requires p < |s|
    ensures r.Good? ==> p < r.end <= |s|
  {
    match s[p]
    case 'n' => ScanWord(s, p, "null", Null)
    case 't' => ScanWord(s, p, "true", Bool(true))
    case 'f' => ScanWord(s, p, "false", Bool(false))
    case 'N' => ScanWord(s, p, "NaN", Number("NaN"))
    case 'I' => ScanWord(s, p, "Infinity", Number("Infinity"))
    case _ =>
      if s[p] == '-' && p + 1 < |s| && s[p + 1] == 'I' then ScanWord(s, p, "-Infinity", Number("-Infinity"))
      else ScanNumber(s, p)
  }

  function ScanValue(s: string, p: nat): (r: Parsed<Json>)
    requires p <= |s|
    ensures r.Good? ==> p < r.end <= |s|
    decreases |s| - p, 0
  {
    if p == |s| then Bad
    else if s[p] == '"' then
      match ScanString(s, p + 1) {
        case Bad => Bad
        case Good(t, e) => Good(Str(t), e)
      }
    else if s[p] == '{' then
      var q := SkipWs(s, p + 1);
      if q < |s| && s[q] == '}' then Good(Object([]), q + 1)
      else
        match ScanMembers(s, q) {
          case Bad => Bad
          case Good(fs, e) => Good(Object(fs), e)
        }
    else if s[p] == '[' then
      var q := SkipWs(s, p + 1);
      if q < |s| && s[q] == ']' then Good(Array([]), q + 1)
      else
        match ScanElements(s, q) {
          case Bad => Bad
          case Good(vs, e) => Good(Array(vs), e)
        }
    else ScanScalar(s, p)
  }

  /** One `"key": value` member. */
  function ScanMember(s: string, p: nat): (r: Parsed<(Text, Json)>)
    requires p <= |s|
    ensures r.Good? ==> p < r.end <= |s|
    decreases |s| - p, 2
  {
    if p == |s| || s[p] != '"' then Bad
    else
      match ScanString(s, p + 1) {
        case Bad => Bad
        case Good(key, k) => AfterKey(s, key, k)
      }
  }

  function AfterKey(s: string, key: Text, k: nat): (r: Parsed<(Text, Json)>)
    requires k <= |s|
    ensures r.Good? ==> k < r.end <= |s|
    decreases |s| - k, 1
  {
    var colon := SkipWs(s, k);
    if colon == |s| || s[colon] != ':' then Bad else Keyed(key, ScanValue(s, SkipWs(s, colon + 1)))
  }

  function Keyed(key: Text, value: Parsed<Json>): Parsed<(Text, Json)> {
    match value
    case Bad => Bad
    case Good(v, e) => Good((key, v), e)
  }

  /** One or more members and the closing brace. */
  function ScanMembers(s: string, p: nat): (r: Parsed<seq<(Text, Json)>>)
    requires p <= |s|
    ensures r.Good? ==> p < r.end <= |s|
    decreases |s| - p, 4
  {
    match ScanMember(s, p)
    case Bad => Bad
    case Good(m, e) => AfterMember(s, m, e)
  }

  function AfterMember(s: string, m: (Text, Json), e: nat): (r: Parsed<seq<(Text, Json)>>)
    requires e <= |s|
    ensures r.Good? ==> e < r.end <= |s|
    decreases |s| - e, 3
  {
    var next := SkipWs(s, e);
    if next == |s| then Bad
    else if s[next] == '}' then Good([m], next + 1)
    else if s[next] != ',' then Bad
    else Prepended(m, ScanMembers(s, SkipWs(s, next + 1)))
  }

  /** One or more array elements and the closing bracket. */
  function ScanElements(s: string, p: nat): (r: Parsed<seq<Json>>)
    requires p <= |s|
    ensures r.Good? ==> p < r.end <= |s|
    decreases |s| - p, 4
  {
    match ScanValue(s, p)
    case Bad => Bad
    case Good(v, e) => AfterElement(s, v, e)
  }

  function AfterElement(s: string, v: Json, e: nat): (r: Parsed<seq<Json>>)
    requires e <= |s|
    ensures r.Good? ==> e < r.end <= |s|
    decreases |s| - e, 3
  {
    var next := SkipWs(s, e);
    if next == |s| then Bad
    else if s[next] == ']' then Good([v], next + 1)
    else if s[next] != ',' then Bad
    else Prepended(v, ScanElements(s, SkipWs(s, next + 1)))
  }

  // -- a scanned value survives more text -------------------------------------

  /** `s` is a prefix of `u`. */
  predicate Extends(s: string, u: string) {
    |s| <= |u| && forall i {:trigger u[i]} {:trigger s[i]} :: 0 <= i < |s| ==> s[i] == u[i]
  }

  lemma {:induction false} SkipWsGrows(s: string, u: string, p: nat)
    requires Extends(s, u) && p <= |s|
    requires SkipWs(s, p) < |s|
    ensures SkipWs(u, p) == SkipWs(s, p)
    decreases |s| - p
  {
    if IsWs(s[p]) {
      SkipWsGrows(s, u, p + 1);
    }
  }

  lemma {:induction false} SkipDigitsGrows(s: string, u: string, p: nat)
    requires Extends(s, u) && p <= |s|
    requires SkipDigits(s, p) < |s|
    ensures SkipDigits(u, p) == SkipDigits(s, p)
    decreases |s| - p
  {
    if IsDigit(s[p]) {
      SkipDigitsGrows(s, u, p + 1);
    }
  }

  lemma {:induction false} ScanStringGrows(s: string, u: string, p: nat)
    requires Extends(s, u) && ScanString(s, p).Good?
    ensures ScanString(u, p) == ScanString(s, p)
    decreases |s| - p
  {
    if s[p] == '"' {
    } else if s[p] == '\\' {
      ScanStringGrows(s, u, if s[p + 1] == 'u' then p + 6 else p + 2);
    } else {
      ScanStringGrows(s, u, p + 1);
    }
  }

  /** A number token is closed when some later character shows that it cannot go on. */
  predicate Closes(s: string, e: nat) {
    e < |s| && !IsDigit(s[e]) && s[e] != '.' && s[e] != 'e' && s[e] != 'E'
  }

  lemma {:induction false} SkipIntegerGrows(s: string, u: string, p: nat)
    requires Extends(s, u) && p <= |s|
    requires p < SkipInteger(s, p) < |s|
    ensures SkipInteger(u, p) == SkipInteger(s, p)
  {
    var d := if s[p] == '-' then p + 1 else p;
    if s[d] != '0' {
      SkipDigitsGrows(s, u, d);
    }
  }

  lemma {:induction false} SkipFractionGrows(s: string, u: string, p: nat)
    requires Extends(s, u) && p <= |s|
    requires SkipFraction(s, p) < |s| && s[SkipFraction(s, p)] != '.'
    ensures SkipFraction(u, p) == SkipFraction(s, p)
  {
    if p != SkipFraction(s, p) {
      SkipDigitsGrows(s, u, p + 1);
    }
  }

  lemma {:induction false} SkipExponentGrows(s: string, u: string, p: nat)
    requires Extends(s, u) && p <= |s|
    requires SkipExponent(s, p) < |s| && s[SkipExponent(s, p)] != 'e' && s[SkipExponent(s, p)] != 'E'
    ensures SkipExponent(u, p) == SkipExponent(s, p)
  {
    if p != SkipExponent(s, p) {
      SkipDigitsGrows(s, u, if s[p + 1] == '+' || s[p + 1] == '-' then p + 2 else p + 1);
    }
  }

  lemma {:induction false} ScanNumberGrows(s: string, u: string, p: nat)
    requires Extends(s, u) && p <= |s|
    requires ScanNumber(s, p).Good? && Closes(s, ScanNumber(s, p).end)
    ensures ScanNumber(u, p) == ScanNumber(s, p)
  {
    var i := SkipInteger(s, p);
    var f := SkipFraction(s, i);
    var x := SkipExponent(s, f);
    SkipIntegerGrows(s, u, p);
    SkipFractionGrows(s, u, i);
    SkipExponentGrows(s, u, f);
    assert u[p..x] == s[p..x];
  }

  predicate NumberStart(c: char) { c == '-' || IsDigit(c) }

  /**
   * A value scanned in `s` is scanned the same in every longer text, unless it is a number
   * that `s` leaves open.
   */
  lemma {:induction false} ScanValueGrows(s: string, u: string, p: nat)
    requires Extends(s, u) && p <= |s|
    requires ScanValue(s, p).Good?
    requires NumberStart(s[p]) ==> Closes(s, ScanValue(s, p).end)
    ensures ScanValue(u, p) == ScanValue(s, p)
    decreases |s| - p, 0
  {
    if s[p] == '"' {
      ScanStringGrows(s, u, p + 1);
    } else if s[p] == '{' {
      ObjectGrows(s, u, p);
    } else if s[p] == '[' {
      ArrayGrows(s, u, p);
    } else {
      ScalarGrows(s, u, p);
    }
  }

  lemma {:induction false} ObjectGrows(s: string, u: string, p: nat)
    requires Extends(s, u) && p < |s| && s[p] == '{'
    requires ScanValue(s, p).Good?
    ensures ScanValue(u, p) == ScanValue(s, p)
    decreases |s| - p - 1, 5
  {
    var q := SkipWs(s, p + 1);
    assert q < |s|;
    SkipWsGrows(s, u, p + 1);
    if s[q] != '}' {
      ScanMembersGrows(s, u, q);
    }
  }

  lemma {:induction false} ArrayGrows(s: string, u: string, p: nat)
    requires Extends(s, u) && p < |s| && s[p] == '['
    requires ScanValue(s, p).Good?
    ensures ScanValue(u, p) == ScanValue(s, p)
    decreases |s| - p - 1, 5
  {
    var q := SkipWs(s, p + 1);
    assert q < |s|;
    SkipWsGrows(s, u, p + 1);
    if s[q] != ']' {
      ScanElementsGrows(s, u, q);
    }
  }

  lemma {:induction false} ScanWordGrows(s: string, u: string, p: nat, word: string, v: Json)
    requires Extends(s, u) && ScanWord(s, p, word, v).Good?
    ensures ScanWord(u, p, word, v) == ScanWord(s, p, word, v)
  {
    assert u[p..p + |word|] == s[p..p + |word|];
  }

  lemma {:induction false} ScalarGrows(s: string, u: string, p: nat)
    requires Extends(s, u) && p < |s|
    requires ScanScalar(s, p).Good?
    requires NumberStart(s[p]) ==> Closes(s, ScanScalar(s, p).end)
    ensures ScanScalar(u, p) == ScanScalar(s, p)
  {
    match s[p] {
      case 'n' => ScanWordGrows(s, u, p, "null", Null);
      case 't' => ScanWordGrows(s, u, p, "true", Bool(true));
      case 'f' => ScanWordGrows(s, u, p, "false", Bool(false));
      case 'N' => ScanWordGrows(s, u, p, "NaN", Number("NaN"));
      case 'I' => ScanWordGrows(s, u, p, "Infinity", Number("Infinity"));
      case _ =>
        if s[p] == '-' && p + 1 < |s| && s[p + 1] == 'I' {
          ScanWordGrows(s, u, p, "-Infinity", Number("-Infinity"));
        } else {
          ScanNumberGrows(s, u, p);
        }
    }
  }

  lemma {:induction false} ScanMemberGrows(s: string, u: string, p: nat)
    requires Extends(s, u) && p <= |s|
    requires ScanMember(s, p).Good?
    requires Closes(s, ScanMember(s, p).end)
    ensures ScanMember(u, p) == ScanMember(s, p)
    decreases |s| - p, 2
  {
    ScanStringGrows(s, u, p + 1);
    var key := ScanString(s, p + 1);
    AfterKeyGrows(s, u, key.value, key.end);
  }

  lemma KeyGoesOn(s: string, key: Text, k: nat, colon: nat)
    requires k <= |s| && colon == SkipWs(s, k) < |s| && s[colon] == ':'
    ensures AfterKey(s, key, k) == Keyed(key, ScanValue(s, SkipWs(s, colon + 1)))
  {
  }

  lemma {:induction false} AfterKeyGrows(s: string, u: string, key: Text, k: nat)
    requires Extends(s, u) && k <= |s|
    requires AfterKey(s, key, k).Good?
    requires Closes(s, AfterKey(s, key, k).end)
    ensures AfterKey(u, key, k) == AfterKey(s, key, k)
    decreases |s| - k, 1
  {
    var colon := SkipWs(s, k);
    var start := SkipWs(s, colon + 1);
    SkipWsGrows(s, u, k);
    SkipWsGrows(s, u, colon + 1);
    KeyGoesOn(s, key, k, colon);
    ScanValueGrows(s, u, start);
    KeyGoesOn(u, key, k, colon);
  }

  lemma {:induction false} ScanMembersGrows(s: string, u: string, p: nat)
    requires Extends(s, u) && p <= |s|
    requires ScanMembers(s, p).Good?
    ensures ScanMembers(u, p) == ScanMembers(s, p)
    decreases |s| - p, 4
  {
    var m := ScanMember(s, p);
    AfterMemberGrows(s, u, m.value, m.end);
    ScanMemberGrows(s, u, p);
  }

  lemma {:induction false} AfterMemberGrows(s: string, u: string, m: (Text, Json), e: nat)
    requires Extends(s, u) && e <= |s|
    requires AfterMember(s, m, e).Good?
    ensures AfterMember(u, m, e) == AfterMember(s, m, e) && Closes(s, e)
    decreases |s| - e, 3
  {
    var next := SkipWs(s, e);
    SkipWsGrows(s, u, e);
    if s[next] == ',' {
      assert SkipWs(s, next + 1) < |s|;
      SkipWsGrows(s, u, next + 1);
      ScanMembersGrows(s, u, SkipWs(s, next + 1));
    }
  }

  lemma {:induction false} ScanElementsGrows(s: string, u: string, p: nat)
    requires Extends(s, u) && p <= |s|
    requires ScanElements(s, p).Good?
    ensures ScanElements(u, p) == ScanElements(s, p)
    decreases |s| - p, 4
  {
    var v := ScanValue(s, p);
    AfterElementGrows(s, u, v.value, v.end);
    ScanValueGrows(s, u, p);
  }

  lemma {:induction false} AfterElementGrows(s: string, u: string, v: Json, e: nat)
    requires Extends(s, u) && e <= |s|
    requires AfterElement(s, v, e).Good?
    ensures AfterElement(u, v, e) == AfterElement(s, v, e) && Closes(s, e)
    decreases |s| - e, 3
  {
    var next := SkipWs(s, e);
    SkipWsGrows(s, u, e);
    if s[next] == ',' {
      assert SkipWs(s, next + 1) < |s|;
      SkipWsGrows(s, u, next + 1);
      ScanElementsGrows(s, u, SkipWs(s, next + 1));
    }
  }
}
