/** What the scanner accepts is a JSON text, and its value is that of the text. */
module JsonSound {
  import opened Common
  import opened JsonScanner
  import opened JsonGrammar
  import opened JsonComplete

  lemma Join(s: string, a: nat, b: nat, c: nat)
    requires a <= b <= c <= |s|
    ensures s[a..b] + s[b..c] == s[a..c]
  {
  }

  /** `w` is the text between the two positions. */
  predicate Between(s: string, a: nat, b: nat, w: string) { a <= b <= |s| && s[a..b] == w }

  lemma Joined(s: string, a: nat, b: nat, c: nat, u: string, w: string)
    requires Between(s, a, b, u) && Between(s, b, c, w)
    ensures Between(s, a, c, u + w)
  {
    Join(s, a, b, c);
  }

  // -- strings -------------------------------------------------------------------------------

  lemma HexOf(c: char) returns (h: Hex)
    requires HexValue(c) >= 0
    ensures IsHex(h) && HexText(h) == c && h.n == HexValue(c)
  {
    h := Hex(HexValue(c), 'A' <= c <= 'F');
    if h.n < 10 {
      TenDigits(h.n);
    } else {
      SixLetters(h.n);
    }
  }

  lemma EscapeOf(c: char) returns (k: nat)
    requires EscapeValue(c) >= 0
    ensures k < |ESCAPES| && ESCAPES[k] == (c, EscapeValue(c))
  {
    k := if c == '"' then 0 else if c == '\\' then 1 else if c == '/' then 2 else if c == 'b' then 3
         else if c == 'f' then 4 else if c == 'n' then 5 else if c == 'r' then 6 else 7;
  }

  lemma UnicodeOf(s: string, p: nat) returns (c: Char)
    requires p + 1 < |s| && s[p] == '\\' && s[p + 1] == 'u' && HexAt(s, p + 2)
    ensures IsChar(c) && Between(s, p, p + 6, CharText(c))
    ensures CharValue(c) == HexSum(HexValue(s[p + 2]), HexValue(s[p + 3]), HexValue(s[p + 4]), HexValue(s[p + 5]))
  {
    var h0 := HexOf(s[p + 2]);
    var h1 := HexOf(s[p + 3]);
    var h2 := HexOf(s[p + 4]);
    var h3 := HexOf(s[p + 5]);
    c := Unicode([h0, h1, h2, h3]);
    HexSumIs(h0.n, h1.n, h2.n, h3.n);
  }

  /** The first character of what is left of a string, if that is not its end. */
  lemma CharOf(s: string, p: nat) returns (c: Char, q: nat)
    requires ScanString(s, p).Good? && s[p] != '"'
    ensures IsChar(c) && p < q && Between(s, p, q, CharText(c))
    ensures q <= |s| && ScanString(s, q).Good?
    ensures ScanString(s, p) == Good([CharValue(c)] + ScanString(s, q).value, ScanString(s, q).end)
  {
    if s[p] == '\\' && s[p + 1] == 'u' {
      c := UnicodeOf(s, p);
      q := p + 6;
    } else if s[p] == '\\' {
      var k := EscapeOf(s[p + 1]);
      c, q := Escape(k), p + 2;
    } else {
      c, q := Raw(s[p]), p + 1;
    }
  }

  lemma MoreChars(c: Char, cs: seq<Char>)
    requires IsChar(c) && AreChars(cs)
    ensures AreChars([c] + cs) && CharsText([c] + cs) == CharText(c) + CharsText(cs)
    ensures CharValues([c] + cs) == [CharValue(c)] + CharValues(cs)
  {
    assert ([c] + cs)[1..] == cs;
  }

  lemma {:induction false} StringSound(s: string, p: nat) returns (cs: seq<Char>)
    requires ScanString(s, p).Good?
    ensures AreChars(cs) && Between(s, p, ScanString(s, p).end, CharsText(cs))
      && ScanString(s, p).value == CharValues(cs)
    decreases |s| - p
  {
    if s[p] == '"' {
      cs := [];
    } else {
      var c, q := CharOf(s, p);
      var rest := StringSound(s, q);
      cs := [c] + rest;
      MoreChars(c, rest);
      Joined(s, p, q, ScanString(s, q).end, CharText(c), CharsText(rest));
    }
  }

  // -- numbers -------------------------------------------------------------------------------

  lemma SliceDigits(s: string, a: nat, b: nat)
    requires a < b <= |s| && forall i :: a <= i < b ==> IsDigit(s[i])
    ensures AreDigits(s[a..b])
  {
  }

  lemma IntegerOf(s: string, p: nat) returns (minus: bool, digits: string)
    requires p <= |s| && SkipInteger(s, p) != p
    ensures var i := SkipInteger(s, p);
      && Between(s, p, p + |Sign(minus)|, Sign(minus)) && Between(s, p + |Sign(minus)|, i, digits)
      && AreDigits(digits) && (digits[0] == '0' ==> digits == "0")
  {
    minus := s[p] == '-';
    var d := if minus then p + 1 else p;
    var i := SkipInteger(s, p);
    digits := s[d..i];
    if s[d] == '0' {
      assert s[d..d + 1] == "0";
    } else {
      SkippedAreDigits(s, d);
      SliceDigits(s, d, i);
    }
  }

  lemma FractionOf(s: string, i: nat) returns (f: Option<string>)
    requires i <= |s|
    ensures Between(s, i, SkipFraction(s, i), FractionText(f)) && (f.Some? ==> AreDigits(f.value))
  {
    var k := SkipFraction(s, i);
    if k == i {
      f := None;
    } else {
      SkippedAreDigits(s, i + 1);
      SliceDigits(s, i + 1, k);
      f := Some(s[i + 1..k]);
      assert s[i..i + 1] == ".";
      Joined(s, i, i + 1, k, ".", s[i + 1..k]);
    }
  }

  lemma ExponentOf(s: string, k: nat) returns (x: Option<Exponent>)
    requires k <= |s|
    ensures Between(s, k, SkipExponent(s, k), ExponentText(x)) && (x.Some? ==> IsExponent(x.value))
  {
    var e := SkipExponent(s, k);
    if e == k {
      x := None;
    } else {
      var d := if s[k + 1] == '+' || s[k + 1] == '-' then k + 2 else k + 1;
      SkippedAreDigits(s, d);
      SliceDigits(s, d, e);
      SignIs(s, k + 1, d);
      x := Some(Exponent(s[k], s[k + 1..d], s[d..e]));
      assert s[k..k + 1] == [s[k]];
      Joined(s, k + 1, d, e, s[k + 1..d], s[d..e]);
      Joined(s, k, k + 1, e, [s[k]], s[k + 1..d] + s[d..e]);
    }
  }

  lemma SignIs(s: string, a: nat, d: nat)
    requires a <= d <= |s| && (d == a || (d == a + 1 && (s[a] == '+' || s[a] == '-')))
    ensures s[a..d] == "" || s[a..d] == "+" || s[a..d] == "-"
  {
  }

  lemma NumberSound(s: string, p: nat) returns (d: Doc)
    requires p <= |s| && ScanNumber(s, p).Good?
    ensures IsDoc(d) && Between(s, p, ScanNumber(s, p).end, Render(d)) && ScanNumber(s, p).value == ValueOf(d)
  {
    var i := SkipInteger(s, p);
    var k := SkipFraction(s, i);
    var e := SkipExponent(s, k);
    var minus, digits := IntegerOf(s, p);
    var f := FractionOf(s, i);
    var x := ExponentOf(s, k);
    Joined(s, i, k, e, FractionText(f), ExponentText(x));
    Joined(s, p + |Sign(minus)|, i, e, digits, RestText(f, x));
    Joined(s, p, p + |Sign(minus)|, e, Sign(minus), digits + RestText(f, x));
    d := NumberDoc(minus, digits, f, x);
  }

  // -- arrays and objects ------------------------------------------------------------------------

  lemma BlanksOf(s: string, p: nat) returns (w: string)
    requires p <= |s|
    ensures IsBlank(w) && Between(s, p, SkipWs(s, p), w)
  {
    SkippedAreBlanks(s, p);
    w := s[p..SkipWs(s, p)];
  }

  lemma OneChar(s: string, p: nat)
    requires p < |s|
    ensures Between(s, p, p + 1, [s[p]])
  {
  }

  /** The same items with other blanks in front. */
  lemma SetBefore(items: seq<Item>, w: string) returns (items': seq<Item>)
    requires AreItemDocs(items) && items != [] && items[0].before == "" && IsBlank(w)
    ensures AreItemDocs(items') && items' != [] && |items'| == |items|
    ensures RenderItems(items') == w + RenderItems(items) && ItemValues(items') == ItemValues(items)
  {
    var x := items[0].(before := w);
    items' := [x] + items[1..];
    assert items'[1..] == items[1..];
    assert RenderItem(x) == w + RenderItem(items[0]);
  }

  lemma MoreItems(x: Item, items: seq<Item>)
    requires IsItem(x) && AreItemDocs(items) && items != []
    ensures AreItemDocs([x] + items) && RenderItems([x] + items) == RenderItem(x) + ("," + RenderItems(items))
    ensures ItemValues([x] + items) == [ItemValue(x)] + ItemValues(items)
  {
    assert ([x] + items)[1..] == items;
  }

  lemma LastItemText(x: Item)
    requires IsItem(x)
    ensures AreItemDocs([x]) && RenderItems([x]) == RenderItem(x) + "]" && ItemValues([x]) == [ItemValue(x)]
  {
    assert [x][1..] == [];
    assert ItemValues([x][1..]) == [];
  }

  lemma SetFront(members: seq<Member>, w: string) returns (members': seq<Member>)
    requires AreMembers(members) && members != [] && members[0].before == "" && IsBlank(w)
    ensures AreMembers(members') && members' != [] && |members'| == |members|
    ensures RenderMembers(members') == w + RenderMembers(members) && MemberValues(members') == MemberValues(members)
  {
    var x := members[0].(before := w);
    members' := [x] + members[1..];
    assert members'[1..] == members[1..];
    FrontText(members[0], w);
    FrontJoined(w, RenderMember(members[0]), if |members| == 1 then "}" else "," + RenderMembers(members[1..]));
  }

  lemma FrontJoined(w: string, a: string, b: string)
    ensures (w + a) + b == w + (a + b)
  {
  }

  lemma FrontText(x: Member, w: string)
    requires IsMember(x) && x.before == "" && IsBlank(w)
    ensures RenderMember(x.(before := w)) == w + RenderMember(x)
  {
    MemberLength(x);
    MemberLength(x.(before := w));
    NoFront("\"" + (CharsText(x.key) + Behind(x)));
  }

  lemma NoFront(a: string)
    ensures "" + a == a
  {
  }

  lemma MoreMembers(x: Member, members: seq<Member>)
    requires IsMember(x) && AreMembers(members) && members != []
    ensures AreMembers([x] + members)
    ensures RenderMembers([x] + members) == RenderMember(x) + ("," + RenderMembers(members))
    ensures MemberValues([x] + members) == [MemberValue(x)] + MemberValues(members)
  {
    assert ([x] + members)[1..] == members;
  }

  lemma LastMemberText(x: Member)
    requires IsMember(x)
    ensures AreMembers([x]) && RenderMembers([x]) == RenderMember(x) + "}" && MemberValues([x]) == [MemberValue(x)]
  {
    assert [x][1..] == [];
    assert MemberValues([x][1..]) == [];
  }

  lemma {:induction false} ValueSound(s: string, p: nat) returns (d: Doc)
    requires p <= |s| && ScanValue(s, p).Good?
    ensures IsDoc(d) && Between(s, p, ScanValue(s, p).end, Render(d)) && ScanValue(s, p).value == ValueOf(d)
    decreases |s| - p, 1
  {
    if s[p] == '"' {
      var cs := StringSound(s, p + 1);
      d := StringDoc(cs);
      OneChar(s, p);
      Joined(s, p, p + 1, ScanString(s, p + 1).end, "\"", CharsText(cs));
    } else if s[p] == '{' {
      d := ObjectSound(s, p);
    } else if s[p] == '[' {
      d := ArraySound(s, p);
    } else {
      d := ScalarSound(s, p);
    }
  }

  lemma ScalarSound(s: string, p: nat) returns (d: Doc)
    requires p < |s| && s[p] != '"' && s[p] != '{' && s[p] != '[' && ScanValue(s, p).Good?
    ensures IsDoc(d) && Between(s, p, ScanValue(s, p).end, Render(d)) && ScanValue(s, p).value == ValueOf(d)
  {
    match s[p]
    case 'n' => d := NullDoc;
    case 't' => d := TrueDoc;
    case 'f' => d := FalseDoc;
    case 'N' => d := ConstantDoc("NaN");
    case 'I' => d := ConstantDoc("Infinity");
    case _ =>
      if s[p] == '-' && p + 1 < |s| && s[p + 1] == 'I' {
        d := ConstantDoc("-Infinity");
      } else {
        d := NumberSound(s, p);
      }
  }

  lemma {:induction false} ArraySound(s: string, p: nat) returns (d: Doc)
    requires p < |s| && s[p] == '[' && ScanValue(s, p).Good?
    ensures IsDoc(d) && Between(s, p, ScanValue(s, p).end, Render(d)) && ScanValue(s, p).value == ValueOf(d)
    decreases |s| - p, 0
  {
    var w := BlanksOf(s, p + 1);
    var q := SkipWs(s, p + 1);
    OneChar(s, p);
    if q < |s| && s[q] == ']' {
      OneChar(s, q);
      Joined(s, p + 1, q, q + 1, w, "]");
      Joined(s, p, p + 1, q + 1, "[", w + "]");
      d := ArrayDoc(w, []);
    } else {
      var rest := ElementsSound(s, q);
      var items := SetBefore(rest, w);
      Joined(s, p + 1, q, ScanElements(s, q).end, w, RenderItems(rest));
      Joined(s, p, p + 1, ScanElements(s, q).end, "[", RenderItems(items));
      d := ArrayDoc("", items);
    }
  }

  /** An item, a comma, and the items behind it. */
  lemma ItemsBehind(s: string, p: nat, next: nat, x: Item, rest: seq<Item>, end: nat) returns (items: seq<Item>)
    requires IsItem(x) && Between(s, p, next, RenderItem(x)) && next < |s| && s[next] == ','
    requires AreItemDocs(rest) && rest != [] && rest[0].before == ""
    requires Between(s, SkipWs(s, next + 1), end, RenderItems(rest))
    ensures AreItemDocs(items) && items != [] && items[0] == x && Between(s, p, end, RenderItems(items))
    ensures ItemValues(items) == [ItemValue(x)] + ItemValues(rest)
  {
    var w := BlanksOf(s, next + 1);
    var more := SetBefore(rest, w);
    OneChar(s, next);
    Joined(s, next + 1, SkipWs(s, next + 1), end, w, RenderItems(rest));
    Joined(s, next, next + 1, end, ",", RenderItems(more));
    Joined(s, p, next, end, RenderItem(x), "," + RenderItems(more));
    MoreItems(x, more);
    items := [x] + more;
  }

  /** A value with the blanks behind it. */
  lemma ItemOf(s: string, p: nat, d: Doc) returns (x: Item)
    requires p <= |s| && ScanValue(s, p).Good? && IsDoc(d) && Between(s, p, ScanValue(s, p).end, Render(d))
    ensures IsItem(x) && x.before == "" && x.doc == d && ItemValue(x) == ValueOf(d)
    ensures Between(s, p, SkipWs(s, ScanValue(s, p).end), RenderItem(x))
  {
    var after := BlanksOf(s, ScanValue(s, p).end);
    x := Item("", d, after);
    Joined(s, p, ScanValue(s, p).end, SkipWs(s, ScanValue(s, p).end), Render(d), after);
    NoFront(Render(d) + after);
  }

  lemma {:induction false} ElementsSound(s: string, p: nat) returns (items: seq<Item>)
    requires p <= |s| && ScanElements(s, p).Good?
    ensures AreItemDocs(items) && items != [] && items[0].before == ""
    ensures Between(s, p, ScanElements(s, p).end, RenderItems(items)) && ScanElements(s, p).value == ItemValues(items)
    decreases |s| - p, 4
  {
    var d := ValueSound(s, p);
    var next := SkipWs(s, ScanValue(s, p).end);
    var x := ItemOf(s, p, d);
    OneChar(s, next);
    if s[next] == ']' {
      LastItemText(x);
      Joined(s, p, next, next + 1, RenderItem(x), "]");
      items := [x];
    } else {
      var q := SkipWs(s, next + 1);
      var rest := ElementsSound(s, q);
      items := ItemsBehind(s, p, next, x, rest, ScanElements(s, q).end);
    }
  }

  lemma {:induction false} ObjectSound(s: string, p: nat) returns (d: Doc)
    requires p < |s| && s[p] == '{' && ScanValue(s, p).Good?
    ensures d.ObjectDoc? && IsDoc(d) && Between(s, p, ScanValue(s, p).end, Render(d))
      && ScanValue(s, p).value == ValueOf(d)
    decreases |s| - p, 0
  {
    var w := BlanksOf(s, p + 1);
    var q := SkipWs(s, p + 1);
    OneChar(s, p);
    if q < |s| && s[q] == '}' {
      OneChar(s, q);
      Joined(s, p + 1, q, q + 1, w, "}");
      Joined(s, p, p + 1, q + 1, "{", w + "}");
      d := ObjectDoc(w, []);
    } else {
      var rest := MembersSound(s, q);
      var members := SetFront(rest, w);
      Joined(s, p + 1, q, ScanMembers(s, q).end, w, RenderMembers(rest));
      Joined(s, p, p + 1, ScanMembers(s, q).end, "{", RenderMembers(members));
      d := ObjectDoc("", members);
    }
  }

  /** A member up to the end of its value, and the blanks behind it. */
  lemma {:induction false} MemberSound(s: string, p: nat) returns (x: Member)
    requires p <= |s| && ScanMember(s, p).Good?
    ensures IsMember(x) && x.before == ""
    ensures Between(s, p, SkipWs(s, ScanMember(s, p).end), RenderMember(x)) && ScanMember(s, p).value == MemberValue(x)
    decreases |s| - p, 2
  {
    var k := ScanString(s, p + 1).end;
    assert ScanMember(s, p) == AfterKey(s, ScanString(s, p + 1).value, k);
    var d := ValueSound(s, SkipWs(s, SkipWs(s, k) + 1));
    x := MemberOf(s, p, k, SkipWs(s, k), d);
  }

  /** A member from its quote on, whose value is found. */
  lemma MemberOf(s: string, p: nat, k: nat, c: nat, d: Doc) returns (x: Member)
    requires p < |s| && s[p] == '"' && ScanString(s, p + 1).Good? && k == ScanString(s, p + 1).end
    requires c == SkipWs(s, k) < |s| && s[c] == ':'
    requires var r := ScanValue(s, SkipWs(s, c + 1));
      r.Good? && IsDoc(d) && Between(s, SkipWs(s, c + 1), r.end, Render(d))
    ensures IsMember(x) && x.before == "" && MemberValue(x) == (ScanString(s, p + 1).value, ValueOf(d))
    ensures Between(s, p, SkipWs(s, ScanValue(s, SkipWs(s, c + 1)).end), RenderMember(x))
  {
    var e := ScanValue(s, SkipWs(s, c + 1)).end;
    var key := StringSound(s, p + 1);
    var colon := BlanksOf(s, k);
    var space := BlanksOf(s, c + 1);
    var after := BlanksOf(s, e);
    x := Member("", key, colon, space, d, after);
    MemberText(s, p, k, c, SkipWs(s, c + 1), e, x);
  }

  lemma MemberText(s: string, p: nat, k: nat, c: nat, v: nat, e: nat, x: Member)
    requires IsMember(x) && x.before == "" && p < |s| && s[p] == '"' && c < |s| && s[c] == ':' && e <= |s|
    requires Between(s, p + 1, k, CharsText(x.key)) && Between(s, k, c, x.colon) && Between(s, c + 1, v, x.space)
    requires Between(s, v, e, Render(x.doc)) && Between(s, e, SkipWs(s, e), x.after)
    ensures Between(s, p, SkipWs(s, e), RenderMember(x))
  {
    var t := SkipWs(s, e);
    var text := Render(x.doc) + x.after;
    OneChar(s, p);
    OneChar(s, c);
    Joined(s, v, e, t, Render(x.doc), x.after);
    Joined(s, c + 1, v, t, x.space, text);
    Joined(s, c, c + 1, t, ":", x.space + text);
    Joined(s, k, c, t, x.colon, ":" + (x.space + text));
    Joined(s, p + 1, k, t, CharsText(x.key), x.colon + (":" + (x.space + text)));
    Joined(s, p, p + 1, t, "\"", CharsText(x.key) + (x.colon + (":" + (x.space + text))));
  }

  /** A member, a comma, and the members behind it. */
  lemma MembersBehind(s: string, p: nat, next: nat, x: Member, rest: seq<Member>, end: nat)
    returns (members: seq<Member>)
    requires IsMember(x) && Between(s, p, next, RenderMember(x)) && next < |s| && s[next] == ','
    requires AreMembers(rest) && rest != [] && rest[0].before == ""
    requires Between(s, SkipWs(s, next + 1), end, RenderMembers(rest))
    ensures AreMembers(members) && members != [] && members[0] == x && Between(s, p, end, RenderMembers(members))
    ensures MemberValues(members) == [MemberValue(x)] + MemberValues(rest)
  {
    var w := BlanksOf(s, next + 1);
    var more := SetFront(rest, w);
    OneChar(s, next);
    Joined(s, next + 1, SkipWs(s, next + 1), end, w, RenderMembers(rest));
    Joined(s, next, next + 1, end, ",", RenderMembers(more));
    Joined(s, p, next, end, RenderMember(x), "," + RenderMembers(more));
    MoreMembers(x, more);
    members := [x] + more;
  }

  lemma {:induction false} MembersSound(s: string, p: nat) returns (members: seq<Member>)
    requires p <= |s| && ScanMembers(s, p).Good?
    ensures AreMembers(members) && members != [] && members[0].before == ""
    ensures Between(s, p, ScanMembers(s, p).end, RenderMembers(members))
      && ScanMembers(s, p).value == MemberValues(members)
    decreases |s| - p, 4
  {
    var x := MemberSound(s, p);
    var next := SkipWs(s, ScanMember(s, p).end);
    OneChar(s, next);
    if s[next] == '}' {
      LastMemberText(x);
      Joined(s, p, next, next + 1, RenderMember(x), "}");
      members := [x];
    } else {
      var q := SkipWs(s, next + 1);
      var rest := MembersSound(s, q);
      members := MembersBehind(s, p, next, x, rest, ScanMembers(s, q).end);
    }
  }

  // -- the scanner, exactly ------------------------------------------------------------------------

  /** `raw_decode` reads this text at the front of `s`. */
  predicate Leads(s: string, d: Doc) {
    && IsDoc(d) && |Render(d)| <= |s| && s[..|Render(d)|] == Render(d)
    && (d.NumberDoc? ==> EndsNumber(s, |Render(d)|))
  }

  lemma LeadingIsRead(s: string, d: Doc)
    requires Leads(s, d)
    ensures ScanValue(s, 0) == Good(ValueOf(d), |Render(d)|)
  {
    var w := Render(d);
    AtFront(w, s[|w|..], 0);
    assert w + s[|w|..] == s && w[0..] == w;
    DocIsRead(s, 0, d);
  }

  /**
   * The scanner decodes a value at the front of a text if the text begins with a JSON text, of
   * which a bare number does not go on, and only if it begins with a JSON text; the value and
   * the end are those of the JSON text.
   */
  lemma ScanExact(s: string, v: Json, e: nat)
    ensures (exists d :: Leads(s, d) && ValueOf(d) == v && |Render(d)| == e) ==> ScanValue(s, 0) == Good(v, e)
    ensures ScanValue(s, 0) == Good(v, e) ==>
      e <= |s| && exists d :: IsDoc(d) && Render(d) == s[..e] && ValueOf(d) == v
  {
    if d :| Leads(s, d) && ValueOf(d) == v && |Render(d)| == e {
      LeadingIsRead(s, d);
    }
    if ScanValue(s, 0) == Good(v, e) {
      var d := ValueSound(s, 0);
      assert s[0..e] == s[..e];
    }
  }
}
