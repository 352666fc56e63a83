/** The scanner accepts every JSON text, wherever it stands, and gives it its value. */
module JsonComplete {
  import opened Common
  import opened JsonScanner
  import opened JsonGrammar

  // -- strings -------------------------------------------------------------------------------

  lemma HexIsRead(h: Hex)
    requires IsHex(h)
    ensures HexValue(HexText(h)) == h.n
  {
    var lower, upper := "0123456789abcdef", "0123456789ABCDEF";
    if h.n < 10 {
      assert lower[h.n] == '0' + h.n as char && upper[h.n] == '0' + h.n as char by {
        TenDigits(h.n);
      }
    } else {
      SixLetters(h.n);
    }
  }

  lemma TenDigits(n: nat)
    requires n < 10
    ensures "0123456789abcdef"[n] == '0' + n as char && "0123456789ABCDEF"[n] == '0' + n as char
  {
    assert n == 0 || n == 1 || n == 2 || n == 3 || n == 4 || n == 5 || n == 6 || n == 7 || n == 8 || n == 9;
  }

  lemma SixLetters(n: nat)
    requires 10 <= n < 16
    ensures "0123456789abcdef"[n] == 'a' + (n - 10) as char && "0123456789ABCDEF"[n] == 'A' + (n - 10) as char
  {
    assert n == 10 || n == 11 || n == 12 || n == 13 || n == 14 || n == 15;
  }

  lemma EscapeIsKnown(k: nat)
    requires k < |ESCAPES|
    ensures EscapeValue(ESCAPES[k].0) == ESCAPES[k].1 >= 0 && ESCAPES[k].0 != 'u'
  {
    assert k == 0 || k == 1 || k == 2 || k == 3 || k == 4 || k == 5 || k == 6 || k == 7;
  }

  lemma RawIsRead(s: string, p: nat, x: char)
    requires IsChar(Raw(x)) && At(s, p, [x])
    ensures ScanString(s, p) == Prepended(x as int, ScanString(s, p + 1))
  {
    AtIndex(s, p, [x], 0);
  }

  lemma EscapeIsRead(s: string, p: nat, k: nat)
    requires k < |ESCAPES| && At(s, p, ['\\', ESCAPES[k].0])
    ensures ScanString(s, p) == Prepended(ESCAPES[k].1, ScanString(s, p + 2))
  {
    AtIndex(s, p, ['\\', ESCAPES[k].0], 0);
    AtIndex(s, p, ['\\', ESCAPES[k].0], 1);
    EscapeIsKnown(k);
  }

  lemma HexSumIs(a: int, b: int, c: int, d: int)
    ensures HexSum(a, b, c, d) == a * 4096 + b * 256 + c * 16 + d
  {
  }

  lemma UnicodeIsRead(s: string, p: nat, ds: seq<Hex>)
    requires IsChar(Unicode(ds)) && At(s, p, CharText(Unicode(ds)))
    ensures ScanString(s, p) == Prepended(CharValue(Unicode(ds)), ScanString(s, p + 6))
  {
    var w := CharText(Unicode(ds));
    AtIndex(s, p, w, 0);
    AtIndex(s, p, w, 1);
    AtIndex(s, p, w, 2);
    AtIndex(s, p, w, 3);
    AtIndex(s, p, w, 4);
    AtIndex(s, p, w, 5);
    HexIsRead(ds[0]);
    HexIsRead(ds[1]);
    HexIsRead(ds[2]);
    HexIsRead(ds[3]);
    assert HexAt(s, p + 2);
    HexSumIs(ds[0].n, ds[1].n, ds[2].n, ds[3].n);
  }

  lemma CharIsRead(s: string, p: nat, c: Char)
    requires IsChar(c) && At(s, p, CharText(c))
    ensures ScanString(s, p) == Prepended(CharValue(c), ScanString(s, p + |CharText(c)|))
  {
    match c
    case Raw(x) => RawIsRead(s, p, x);
    case Escape(k) => EscapeIsRead(s, p, k);
    case Unicode(ds) => UnicodeIsRead(s, p, ds);
  }

  /** The text `t` is read from `p` up to `e`. */
  predicate Reads(s: string, p: nat, t: Text, e: nat) { ScanString(s, p) == Good(t, e) }

  lemma OneMoreChar(s: string, p: nat, c: Char, t: Text, e: nat)
    requires IsChar(c) && At(s, p, CharText(c)) && Reads(s, p + |CharText(c)|, t, e)
    ensures Reads(s, p, [CharValue(c)] + t, e)
  {
    CharIsRead(s, p, c);
  }

  lemma QuoteIsRead(s: string, p: nat)
    requires At(s, p, "\"")
    ensures Reads(s, p, [], p + 1)
  {
    AtIndex(s, p, "\"", 0);
  }

  lemma {:induction false} TextIsRead(s: string, p: nat, cs: seq<Char>)
    requires AreChars(cs) && At(s, p, CharsText(cs))
    ensures Reads(s, p, CharValues(cs), p + |CharsText(cs)|)
    decreases |cs|
  {
    if cs == [] {
      QuoteIsRead(s, p);
    } else {
      AtParts(s, p, CharText(cs[0]), CharsText(cs[1..]));
      var q := p + |CharText(cs[0])|;
      TextIsRead(s, q, cs[1..]);
      OneMoreChar(s, p, cs[0], CharValues(cs[1..]), q + |CharsText(cs[1..])|);
    }
  }

  // -- numbers -------------------------------------------------------------------------------

  /** Nothing stands at `e` that could go on with a number. */
  predicate EndsNumber(s: string, e: nat) {
    e < |s| ==> !IsDigit(s[e]) && s[e] != '.' && s[e] != 'e' && s[e] != 'E'
  }

  lemma IntegerIsRead(s: string, p: nat, minus: bool, digits: string)
    requires At(s, if minus then p + 1 else p, digits) && AreDigits(digits) && (digits[0] == '0' ==> digits == "0")
    requires p < |s| && (s[p] == '-' <==> minus)
    requires var i := (if minus then p + 1 else p) + |digits|; i < |s| ==> !IsDigit(s[i])
    ensures SkipInteger(s, p) == (if minus then p + 1 else p) + |digits|
  {
    var d := if minus then p + 1 else p;
    AtIndex(s, d, digits, 0);
    DigitsAreSkipped(s, d, digits);
  }

  lemma FractionIsRead(s: string, i: nat, f: Option<string>)
    requires At(s, i, FractionText(f)) && (f.Some? ==> AreDigits(f.value))
    requires var e := i + |FractionText(f)|; e < |s| ==> !IsDigit(s[e]) && (f.None? ==> s[e] != '.')
    ensures i <= |s| && SkipFraction(s, i) == i + |FractionText(f)|
  {
    AtLength(s, i, FractionText(f));
    if f.Some? {
      AtChar(s, i, '.', f.value);
      AtIndex(s, i + 1, f.value, 0);
      DigitsAreSkipped(s, i + 1, f.value);
    }
  }

  lemma ExponentIsRead(s: string, f: nat, x: Option<Exponent>)
    requires At(s, f, ExponentText(x)) && (x.Some? ==> IsExponent(x.value))
    requires var e := f + |ExponentText(x)|; e < |s| ==> !IsDigit(s[e]) && (x.None? ==> s[e] != 'e' && s[e] != 'E')
    ensures f <= |s| && SkipExponent(s, f) == f + |ExponentText(x)|
  {
    AtLength(s, f, ExponentText(x));
    if x.Some? {
      var sign, digits := x.value.sign, x.value.digits;
      AtChar(s, f, x.value.letter, sign + digits);
      AtParts(s, f + 1, sign, digits);
      var d := f + 1 + |sign|;
      AtIndex(s, d, digits, 0);
      DigitsAreSkipped(s, d, digits);
      if sign != "" {
        AtIndex(s, f + 1, sign, 0);
      }
    }
  }

  /** What follows the integer, and what follows the fraction, is no digit. */
  lemma BehindParts(s: string, i: nat, f: Option<string>, x: Option<Exponent>)
    requires At(s, i, RestText(f, x)) && EndsNumber(s, i + |RestText(f, x)|) && (x.Some? ==> IsExponent(x.value))
    ensures var e := i + |FractionText(f)|;
      && At(s, i, FractionText(f)) && At(s, e, ExponentText(x))
      && (e < |s| ==> !IsDigit(s[e]) && s[e] != '.')
      && (i < |s| ==> !IsDigit(s[i]))
  {
    var e := i + |FractionText(f)|;
    var end := e + |ExponentText(x)|;
    AtParts(s, i, FractionText(f), ExponentText(x));
    if x.Some? {
      AtIndex(s, e, ExponentText(x), 0);
    }
    if f.Some? {
      AtIndex(s, i, FractionText(f), 0);
    }
  }

  /** Where the sign and the digits end. */
  function IntegerEnd(p: nat, minus: bool, digits: string): nat { p + |Sign(minus)| + |digits| }

  lemma NumberFrom(s: string, p: nat, i: nat, f: nat, e: nat)
    requires p < i <= f <= e <= |s| && SkipInteger(s, p) == i && SkipFraction(s, i) == f && SkipExponent(s, f) == e
    ensures ScanNumber(s, p) == Good(Number(s[p..e]), e)
  {
  }

  lemma SignedIsRead(s: string, p: nat, minus: bool, digits: string, f: nat, e: nat)
    requires At(s, p, Sign(minus)) && At(s, p + |Sign(minus)|, digits)
    requires AreDigits(digits) && (digits[0] == '0' ==> digits == "0")
    requires var i := IntegerEnd(p, minus, digits);
      && (i < |s| ==> !IsDigit(s[i])) && i <= f <= e <= |s| && SkipFraction(s, i) == f && SkipExponent(s, f) == e
    ensures p < e && ScanNumber(s, p) == Good(Number(s[p..e]), e)
  {
    AtIndex(s, p + |Sign(minus)|, digits, 0);
    if minus {
      AtIndex(s, p, "-", 0);
    }
    IntegerIsRead(s, p, minus, digits);
    NumberFrom(s, p, IntegerEnd(p, minus, digits), f, e);
  }

  /** The parts of a number stand one behind the other, and end at `e`. */
  predicate PartsStand(s: string, p: nat, minus: bool, digits: string, f: Option<string>, x: Option<Exponent>, e: nat) {
    && At(s, p, Sign(minus)) && At(s, p + |Sign(minus)|, digits)
    && At(s, IntegerEnd(p, minus, digits), RestText(f, x))
    && e == IntegerEnd(p, minus, digits) + |RestText(f, x)|
  }

  lemma NumberPieces(s: string, p: nat, d: Doc)
    requires d.NumberDoc? && At(s, p, NumberText(d))
    ensures PartsStand(s, p, d.minus, d.digits, d.fraction, d.exponent, p + |NumberText(d)|)
  {
    AtThree(s, p, Sign(d.minus), d.digits, RestText(d.fraction, d.exponent));
  }

  /** The ends of the last two parts of a number. */
  lemma NumberEnds(s: string, i: nat, f: Option<string>, x: Option<Exponent>, e: nat) returns (k: nat)
    requires At(s, i, RestText(f, x)) && e == i + |RestText(f, x)| && EndsNumber(s, e)
    requires (f.Some? ==> AreDigits(f.value)) && (x.Some? ==> IsExponent(x.value))
    ensures (i < |s| ==> !IsDigit(s[i])) && i <= k <= e <= |s| && SkipFraction(s, i) == k && SkipExponent(s, k) == e
  {
    k := i + |FractionText(f)|;
    BehindParts(s, i, f, x);
    EndsFrom(s, i, k, e, f, x);
  }

  lemma EndsFrom(s: string, i: nat, k: nat, e: nat, f: Option<string>, x: Option<Exponent>)
    requires At(s, i, FractionText(f)) && At(s, k, ExponentText(x)) && EndsNumber(s, e)
    requires k == i + |FractionText(f)| && e == k + |ExponentText(x)| && (k < |s| ==> !IsDigit(s[k]) && s[k] != '.')
    requires (f.Some? ==> AreDigits(f.value)) && (x.Some? ==> IsExponent(x.value))
    ensures k <= e <= |s| && SkipFraction(s, i) == k && SkipExponent(s, k) == e
  {
    AtLength(s, k, ExponentText(x));
    FractionIsRead(s, i, f);
    ExponentIsRead(s, k, x);
  }

  lemma NumberIsScanned(s: string, p: nat, d: Doc, e: nat)
    requires d.NumberDoc? && IsNumberDoc(d) && EndsNumber(s, e)
    requires PartsStand(s, p, d.minus, d.digits, d.fraction, d.exponent, e)
    ensures p < e <= |s| && ScanNumber(s, p) == Good(Number(s[p..e]), e)
  {
    var k := NumberEnds(s, IntegerEnd(p, d.minus, d.digits), d.fraction, d.exponent, e);
    SignedIsRead(s, p, d.minus, d.digits, k, e);
  }

  lemma SliceIsText(s: string, p: nat, e: nat, w: string)
    requires At(s, p, w) && e == p + |w| && p < e <= |s| && ScanNumber(s, p) == Good(Number(s[p..e]), e)
    ensures ScanNumber(s, p) == Good(Number(w), e)
  {
    AtSlice(s, p, w);
  }

  lemma NumberIsRead(s: string, p: nat, d: Doc)
    requires d.NumberDoc? && IsNumberDoc(d) && At(s, p, NumberText(d)) && EndsNumber(s, p + |NumberText(d)|)
    ensures ScanNumber(s, p) == Good(Number(NumberText(d)), p + |NumberText(d)|)
  {
    var e := p + |NumberText(d)|;
    NumberPieces(s, p, d);
    NumberIsScanned(s, p, d, e);
    SliceIsText(s, p, e, NumberText(d));
  }

  // -- values --------------------------------------------------------------------------------

  /** The value `v` is read from `p` up to `e`. */
  predicate ReadsValue(s: string, p: nat, v: Json, e: nat) { p <= |s| && ScanValue(s, p) == Good(v, e) }

  /** What a text starts with is no blank and closes nothing. */
  predicate Starts(c: char) { !IsWs(c) && c != ']' && c != '}' }

  lemma NumberStarts(d: Doc)
    requires d.NumberDoc? && IsNumberDoc(d)
    ensures var w := NumberText(d);
      w != "" && (w[0] == '-' || IsDigit(w[0])) && (w[0] == '-' ==> |w| > 1 && IsDigit(w[1]))
  {
    assert (d.digits + RestText(d.fraction, d.exponent))[0] == d.digits[0];
  }

  lemma FirstChar(d: Doc)
    requires IsDoc(d)
    ensures Render(d) != "" && Starts(Render(d)[0])
  {
    if d.NumberDoc? {
      NumberStarts(d);
    }
  }

  lemma NumberValueIsRead(s: string, p: nat, d: Doc)
    requires d.NumberDoc? && IsNumberDoc(d) && At(s, p, NumberText(d)) && EndsNumber(s, p + |NumberText(d)|)
    ensures ReadsValue(s, p, Number(NumberText(d)), p + |NumberText(d)|)
  {
    var w := NumberText(d);
    NumberStarts(d);
    AtIndex(s, p, w, 0);
    if w[0] == '-' {
      AtIndex(s, p, w, 1);
    }
    NumberIsRead(s, p, d);
    NumberBranch(s, p);
  }

  lemma NumberBranch(s: string, p: nat)
    requires p < |s| && (IsDigit(s[p]) || (s[p] == '-' && p + 1 < |s| && IsDigit(s[p + 1])))
    ensures ScanValue(s, p) == ScanNumber(s, p)
  {
  }

  lemma WordFrom(s: string, p: nat, w: string, v: Json)
    requires At(s, p, w)
    ensures ScanWord(s, p, w, v) == Good(v, p + |w|)
  {
    AtSlice(s, p, w);
  }

  /** The six words. */
  lemma WordIsRead(s: string, p: nat, d: Doc)
    requires (d.NullDoc? || d.TrueDoc? || d.FalseDoc? || d.ConstantDoc?) && IsDoc(d) && At(s, p, Render(d))
    ensures ReadsValue(s, p, ValueOf(d), p + |Render(d)|)
  {
    AtIndex(s, p, Render(d), 0);
    WordFrom(s, p, Render(d), ValueOf(d));
    if d == ConstantDoc("-Infinity") {
      AtIndex(s, p, Render(d), 1);
      MinusInfinity(s, p);
    }
  }

  lemma MinusInfinity(s: string, p: nat)
    requires p + 1 < |s| && s[p] == '-' && s[p + 1] == 'I'
    ensures ScanValue(s, p) == ScanWord(s, p, "-Infinity", Number("-Infinity"))
  {
  }

  lemma StringIsRead(s: string, p: nat, cs: seq<Char>)
    requires AreChars(cs) && At(s, p, "\"" + CharsText(cs))
    ensures ReadsValue(s, p, Str(CharValues(cs)), p + 1 + |CharsText(cs)|)
  {
    AtChar(s, p, '"', CharsText(cs));
    TextIsRead(s, p + 1, cs);
  }

  // -- blanks around a value -------------------------------------------------------------------

  /** Blanks up to something else. */
  lemma BlanksBefore(s: string, p: nat, w: string)
    requires IsBlank(w) && At(s, p, w) && p + |w| < |s| && !IsWs(s[p + |w|])
    ensures SkipWs(s, p) == p + |w|
  {
    BlanksAreSkipped(s, p, w);
  }

  lemma DocStarts(s: string, q: nat, d: Doc)
    requires IsDoc(d) && At(s, q, Render(d))
    ensures q < |s| && Starts(s[q])
  {
    FirstChar(d);
    AtIndex(s, q, Render(d), 0);
  }

  /** What comes behind a value or a key. */
  predicate GoesOn(c: char) { c == ',' || c == ']' || c == '}' || c == ':' }

  /** Blanks up to a character that closes or goes on. */
  lemma BlanksBehind(s: string, e: nat, w: string)
    requires IsBlank(w) && At(s, e, w) && e + |w| < |s| && GoesOn(s[e + |w|])
    ensures e <= |s| && SkipWs(s, e) == e + |w| && EndsNumber(s, e)
  {
    BlanksAreSkipped(s, e, w);
    if w != "" {
      AtIndex(s, e, w, 0);
    }
  }

  // -- arrays and objects ------------------------------------------------------------------------

  /** An item with its blanks, in front of a comma or the end. */
  predicate ItemRead(s: string, p: nat, q: nat, v: Json, e: nat, t: nat) {
    && p <= q < |s| && SkipWs(s, p) == q && Starts(s[q]) && ReadsValue(s, q, v, e)
    && e <= t < |s| && SkipWs(s, e) == t
  }

  lemma ItemParts(s: string, p: nat, x: Item)
    requires IsItem(x) && At(s, p, RenderItem(x))
    ensures |RenderItem(x)| == |x.before| + |Render(x.doc)| + |x.after|
    ensures At(s, p, x.before) && At(s, p + |x.before|, Render(x.doc))
    ensures At(s, p + |x.before| + |Render(x.doc)|, x.after)
  {
    AtThree(s, p, x.before, Render(x.doc), x.after);
  }

  lemma {:induction false} ItemIsRead(s: string, p: nat, x: Item, t: nat) returns (q: nat, e: nat)
    requires IsItem(x) && At(s, p, RenderItem(x)) && t == p + |RenderItem(x)| < |s| && GoesOn(s[t])
    ensures ItemRead(s, p, q, ItemValue(x), e, t)
    decreases x, 1
  {
    q, e := ItemStands(s, p, x, t);
    DocIsRead(s, q, x.doc);
  }

  /** Where the value of an item stands, between its blanks. */
  lemma ItemStands(s: string, p: nat, x: Item, t: nat) returns (q: nat, e: nat)
    requires IsItem(x) && At(s, p, RenderItem(x)) && t == p + |RenderItem(x)| < |s| && GoesOn(s[t])
    ensures p <= q < |s| && SkipWs(s, p) == q && Starts(s[q]) && At(s, q, Render(x.doc))
    ensures e == q + |Render(x.doc)| <= t && EndsNumber(s, e) && SkipWs(s, e) == t
  {
    q := p + |x.before|;
    e := q + |Render(x.doc)|;
    ItemParts(s, p, x);
    DocStarts(s, q, x.doc);
    BlanksBefore(s, p, x.before);
    BlanksBehind(s, e, x.after);
  }

  lemma TailStands(s: string, p: nat, w: string, tail: string)
    requires At(s, p, w + tail) && tail != ""
    ensures At(s, p, w) && At(s, p + |w|, tail) && p + |w| < |s| && s[p + |w|] == tail[0]
  {
    AtParts(s, p, w, tail);
    AtIndex(s, p + |w|, tail, 0);
  }

  /** The items from the first on are read, up to the closing bracket. */
  predicate ItemsRead(s: string, p: nat, vs: seq<Json>, e: nat) {
    && p <= |s| && SkipWs(s, p) < |s| && Starts(s[SkipWs(s, p)])
    && ScanElements(s, SkipWs(s, p)) == Good(vs, e)
  }

  lemma LastItem(s: string, p: nat, q: nat, v: Json, e: nat, t: nat)
    requires ItemRead(s, p, q, v, e, t) && s[t] == ']'
    ensures ItemsRead(s, p, [v], t + 1)
  {
    assert ScanElements(s, q) == AfterElement(s, v, e);
  }

  lemma NextItem(s: string, p: nat, q: nat, v: Json, e: nat, t: nat, vs: seq<Json>, end: nat)
    requires ItemRead(s, p, q, v, e, t) && s[t] == ',' && ItemsRead(s, t + 1, vs, end)
    ensures ItemsRead(s, p, [v] + vs, end)
  {
    assert ScanElements(s, q) == AfterElement(s, v, e);
    assert AfterElement(s, v, e) == Prepended(v, ScanElements(s, SkipWs(s, t + 1)));
  }

  /** The values of the first item and of those behind it. */
  lemma FirstItem(items: seq<Item>)
    requires AreItemDocs(items) && items != []
    ensures IsItem(items[0]) && AreItemDocs(items[1..])
    ensures |items| == 1 ==> ItemValues(items) == [ItemValue(items[0])]
    ensures |items| > 1 ==> ItemValues(items) == [ItemValue(items[0])] + ItemValues(items[1..])
  {
    if |items| == 1 {
      assert ItemValues(items[1..]) == [];
    }
  }

  /** Where the first item stands, and what behind it. */
  lemma FirstItemStands(s: string, p: nat, items: seq<Item>) returns (t: nat)
    requires AreItemDocs(items) && items != [] && At(s, p, RenderItems(items))
    ensures t == p + |RenderItem(items[0])| < |s| && At(s, p, RenderItem(items[0]))
    ensures |items| == 1 ==> s[t] == ']' && p + |RenderItems(items)| == t + 1
    ensures |items| > 1 ==>
      && s[t] == ',' && At(s, t + 1, RenderItems(items[1..]))
      && p + |RenderItems(items)| == t + 1 + |RenderItems(items[1..])|
  {
    t := p + |RenderItem(items[0])|;
    if |items| == 1 {
      TailStands(s, p, RenderItem(items[0]), "]");
    } else {
      TailStands(s, p, RenderItem(items[0]), "," + RenderItems(items[1..]));
      AtChar(s, t, ',', RenderItems(items[1..]));
    }
  }

  lemma ItemsJoined(s: string, p: nat, items: seq<Item>, q: nat, e: nat, t: nat, end: nat)
    requires AreItemDocs(items) && |items| > 1 && IsItem(items[0]) && AreItemDocs(items[1..])
    requires ItemRead(s, p, q, ItemValue(items[0]), e, t) && s[t] == ','
      && ItemsRead(s, t + 1, ItemValues(items[1..]), end)
    ensures ItemsRead(s, p, ItemValues(items), end)
  {
    FirstItem(items);
    NextItem(s, p, q, ItemValue(items[0]), e, t, ItemValues(items[1..]), end);
  }

  lemma OnlyItem(s: string, p: nat, items: seq<Item>, q: nat, e: nat, t: nat)
    requires AreItemDocs(items) && |items| == 1 && IsItem(items[0])
    requires ItemRead(s, p, q, ItemValue(items[0]), e, t) && s[t] == ']'
    ensures ItemsRead(s, p, ItemValues(items), t + 1)
  {
    FirstItem(items);
    LastItem(s, p, q, ItemValue(items[0]), e, t);
  }

  lemma {:induction false} ItemsAreRead(s: string, p: nat, items: seq<Item>)
    requires AreItemDocs(items) && items != [] && At(s, p, RenderItems(items))
    ensures ItemsRead(s, p, ItemValues(items), p + |RenderItems(items)|)
    decreases items, 2
  {
    var t := FirstItemStands(s, p, items);
    var q, e := ItemIsRead(s, p, items[0], t);
    if |items| == 1 {
      OnlyItem(s, p, items, q, e, t);
    } else {
      ItemsAreRead(s, t + 1, items[1..]);
      ItemsJoined(s, p, items, q, e, t, t + 1 + |RenderItems(items[1..])|);
    }
  }

  /** Blanks between two brackets. */
  lemma EmptyInside(s: string, p: nat, front: char, inside: string, back: char)
    requires IsBlank(inside) && At(s, p, [front] + (inside + [back])) && !IsWs(back)
    ensures p < |s| && s[p] == front && SkipWs(s, p + 1) == p + 1 + |inside| < |s| && s[p + 1 + |inside|] == back
  {
    AtThree(s, p, [front], inside, [back]);
    AtIndex(s, p, [front], 0);
    AtIndex(s, p + 1 + |inside|, [back], 0);
    BlanksBefore(s, p + 1, inside);
  }

  lemma EmptyArray(s: string, p: nat, inside: string)
    requires IsBlank(inside) && At(s, p, "[" + (inside + "]"))
    ensures ReadsValue(s, p, Array([]), p + 2 + |inside|)
  {
    EmptyInside(s, p, '[', inside, ']');
  }

  lemma EmptyObject(s: string, p: nat, inside: string)
    requires IsBlank(inside) && At(s, p, "{" + (inside + "}"))
    ensures ReadsValue(s, p, Object([]), p + 2 + |inside|)
  {
    EmptyInside(s, p, '{', inside, '}');
  }

  lemma FullArray(s: string, p: nat, vs: seq<Json>, e: nat)
    requires p < |s| && s[p] == '[' && ItemsRead(s, p + 1, vs, e)
    ensures ReadsValue(s, p, Array(vs), e)
  {
  }

  /** A member with its blanks, in front of a comma or the end. */
  predicate MemberRead(s: string, p: nat, q: nat, m: (Text, Json), e: nat, t: nat) {
    && p <= q < |s| && SkipWs(s, p) == q && s[q] == '"' && ScanMember(s, q) == Good(m, e)
    && e <= t < |s| && SkipWs(s, e) == t
  }

  lemma KeyThenValue(s: string, q: nat, key: Text, k: nat, c: nat, v: nat, value: Json, e: nat)
    requires q < |s| && s[q] == '"' && Reads(s, q + 1, key, k) && k <= c < |s| && SkipWs(s, k) == c && s[c] == ':'
    requires SkipWs(s, c + 1) == v && ReadsValue(s, v, value, e)
    ensures ScanMember(s, q) == Good((key, value), e)
  {
    assert ScanMember(s, q) == AfterKey(s, key, k);
    ValueBehindKey(s, key, k, c, v, value, e);
  }

  lemma ValueBehindKey(s: string, key: Text, k: nat, c: nat, v: nat, value: Json, e: nat)
    requires k <= c < |s| && SkipWs(s, k) == c && s[c] == ':' && SkipWs(s, c + 1) == v && ReadsValue(s, v, value, e)
    ensures AfterKey(s, key, k) == Good((key, value), e)
  {
    assert AfterKey(s, key, k) == Keyed(key, ScanValue(s, v));
  }

  /** The blanks and the key of a member. */
  lemma KeyParts(s: string, p: nat, before: string, text: string, rest: string)
    requires IsBlank(before) && At(s, p, before + ("\"" + (text + rest)))
    ensures var q := p + |before|;
      && p <= q < |s| && SkipWs(s, p) == q && s[q] == '"' && At(s, q + 1, text) && At(s, q + 1 + |text|, rest)
  {
    AtThree(s, p, before, "\"", text + rest);
    AtIndex(s, p + |before|, "\"", 0);
    AtParts(s, p + |before| + 1, text, rest);
    BlanksBefore(s, p, before);
  }

  lemma ColonParts(s: string, k: nat, colon: string, space: string, text: string, after: string)
    requires At(s, k, colon + (":" + (space + (text + after))))
    ensures var c := k + |colon|;
      var v := c + 1 + |space|;
      && At(s, k, colon) && c < |s| && s[c] == ':' && At(s, c + 1, space) && At(s, v, text) && At(s, v + |text|, after)
  {
    AtThree(s, k, colon, ":", space + (text + after));
    AtIndex(s, k + |colon|, ":", 0);
    AtThree(s, k + |colon| + 1, space, text, after);
  }

  /** Everything behind the key of a member. */
  function Behind(x: Member): string
    requires IsMember(x)
  {
    x.colon + (":" + (x.space + (Render(x.doc) + x.after)))
  }

  lemma BehindLength(x: Member)
    requires IsMember(x)
    ensures |Behind(x)| == |x.colon| + 1 + |x.space| + |Render(x.doc)| + |x.after|
  {
  }

  lemma MemberLength(x: Member)
    requires IsMember(x)
    ensures |RenderMember(x)| == |x.before| + 1 + |CharsText(x.key)| + |Behind(x)|
    ensures RenderMember(x) == x.before + ("\"" + (CharsText(x.key) + Behind(x)))
  {
  }

  lemma {:induction false} MemberIsRead(s: string, p: nat, x: Member, t: nat) returns (q: nat, e: nat)
    requires IsMember(x) && At(s, p, RenderMember(x)) && t == p + |RenderMember(x)| < |s| && GoesOn(s[t])
    ensures MemberRead(s, p, q, MemberValue(x), e, t)
    decreases x, 1
  {
    var k;
    q, k := KeyIsRead(s, p, x);
    var v;
    v, e := BehindIsRead(s, k, x);
    KeyThenValue(s, q, CharValues(x.key), k, k + |x.colon|, v, ValueOf(x.doc), e);
  }

  lemma KeyIsRead(s: string, p: nat, x: Member) returns (q: nat, k: nat)
    requires IsMember(x) && At(s, p, RenderMember(x))
    ensures q < |s| && SkipWs(s, p) == q && s[q] == '"' && Reads(s, q + 1, CharValues(x.key), k)
    ensures p <= q < k && At(s, k, Behind(x)) && k + |Behind(x)| == p + |RenderMember(x)|
  {
    q, k := KeyStands(s, p, x);
    TextIsRead(s, q + 1, x.key);
  }

  lemma KeyStands(s: string, p: nat, x: Member) returns (q: nat, k: nat)
    requires IsMember(x) && At(s, p, RenderMember(x))
    ensures q < |s| && SkipWs(s, p) == q && s[q] == '"' && At(s, q + 1, CharsText(x.key))
      && k == q + 1 + |CharsText(x.key)|
    ensures p <= q && At(s, k, Behind(x)) && k + |Behind(x)| == p + |RenderMember(x)|
  {
    q := p + |x.before|;
    k := q + 1 + |CharsText(x.key)|;
    MemberLength(x);
    KeyParts(s, p, x.before, CharsText(x.key), Behind(x));
  }

  lemma {:induction false} BehindIsRead(s: string, k: nat, x: Member) returns (v: nat, e: nat)
    requires IsMember(x) && At(s, k, Behind(x))
    requires k + |Behind(x)| < |s| && GoesOn(s[k + |Behind(x)|])
    ensures var c := k + |x.colon|;
      && c < |s| && SkipWs(s, k) == c && s[c] == ':' && SkipWs(s, c + 1) == v
      && ReadsValue(s, v, ValueOf(x.doc), e) && e <= k + |Behind(x)| && SkipWs(s, e) == k + |Behind(x)|
      && e + |x.after| == k + |Behind(x)|
    decreases x, 0
  {
    v, e := BehindStands(s, k, x);
    DocIsRead(s, v, x.doc);
  }

  /** Where the value of a member stands, between its blanks. */
  lemma BehindStands(s: string, k: nat, x: Member) returns (v: nat, e: nat)
    requires IsMember(x) && At(s, k, Behind(x))
    requires k + |Behind(x)| < |s| && GoesOn(s[k + |Behind(x)|])
    ensures var c := k + |x.colon|;
      && c < |s| && SkipWs(s, k) == c && s[c] == ':' && SkipWs(s, c + 1) == v
      && At(s, v, Render(x.doc)) && e == v + |Render(x.doc)| && EndsNumber(s, e)
      && e <= k + |Behind(x)| && SkipWs(s, e) == k + |Behind(x)| && e + |x.after| == k + |Behind(x)|
  {
    ColonParts(s, k, x.colon, x.space, Render(x.doc), x.after);
    v := k + |x.colon| + 1 + |x.space|;
    e := v + |Render(x.doc)|;
    BehindLength(x);
    DocStarts(s, v, x.doc);
    BlanksAround(s, k, x, v, e);
  }

  lemma BlanksAround(s: string, k: nat, x: Member, v: nat, e: nat)
    requires IsMember(x) && At(s, k, x.colon) && At(s, k + |x.colon| + 1, x.space) && At(s, e, x.after)
    requires v == k + |x.colon| + 1 + |x.space| && v < |s| && Starts(s[v]) && s[k + |x.colon|] == ':'
    requires e + |x.after| < |s| && GoesOn(s[e + |x.after|])
    ensures SkipWs(s, k) == k + |x.colon| && SkipWs(s, k + |x.colon| + 1) == v
    ensures e <= |s| && SkipWs(s, e) == e + |x.after| && EndsNumber(s, e)
  {
    BlanksBehind(s, k, x.colon);
    BlanksBefore(s, k + |x.colon| + 1, x.space);
    BlanksBehind(s, e, x.after);
  }

  predicate MembersRead(s: string, p: nat, ms: seq<(Text, Json)>, e: nat) {
    && p <= |s| && SkipWs(s, p) < |s| && s[SkipWs(s, p)] == '"'
    && ScanMembers(s, SkipWs(s, p)) == Good(ms, e)
  }

  lemma LastMember(s: string, p: nat, q: nat, m: (Text, Json), e: nat, t: nat)
    requires MemberRead(s, p, q, m, e, t) && s[t] == '}'
    ensures MembersRead(s, p, [m], t + 1)
  {
    assert ScanMembers(s, q) == AfterMember(s, m, e);
  }

  lemma NextMember(s: string, p: nat, q: nat, m: (Text, Json), e: nat, t: nat, ms: seq<(Text, Json)>, end: nat)
    requires MemberRead(s, p, q, m, e, t) && s[t] == ',' && MembersRead(s, t + 1, ms, end)
    ensures MembersRead(s, p, [m] + ms, end)
  {
    assert ScanMembers(s, q) == AfterMember(s, m, e);
    assert AfterMember(s, m, e) == Prepended(m, ScanMembers(s, SkipWs(s, t + 1)));
  }

  lemma FirstMember(members: seq<Member>)
    requires AreMembers(members) && members != []
    ensures IsMember(members[0]) && AreMembers(members[1..])
    ensures |members| == 1 ==> MemberValues(members) == [MemberValue(members[0])]
    ensures |members| > 1 ==> MemberValues(members) == [MemberValue(members[0])] + MemberValues(members[1..])
  {
    if |members| == 1 {
      assert MemberValues(members[1..]) == [];
    }
  }

  lemma FirstMemberStands(s: string, p: nat, members: seq<Member>) returns (t: nat)
    requires AreMembers(members) && members != [] && At(s, p, RenderMembers(members))
    ensures t == p + |RenderMember(members[0])| < |s| && At(s, p, RenderMember(members[0]))
    ensures |members| == 1 ==> s[t] == '}' && p + |RenderMembers(members)| == t + 1
    ensures |members| > 1 ==>
      && s[t] == ',' && At(s, t + 1, RenderMembers(members[1..]))
      && p + |RenderMembers(members)| == t + 1 + |RenderMembers(members[1..])|
  {
    t := p + |RenderMember(members[0])|;
    if |members| == 1 {
      TailStands(s, p, RenderMember(members[0]), "}");
    } else {
      TailStands(s, p, RenderMember(members[0]), "," + RenderMembers(members[1..]));
      AtChar(s, t, ',', RenderMembers(members[1..]));
    }
  }

  lemma MembersJoined(s: string, p: nat, members: seq<Member>, q: nat, e: nat, t: nat, end: nat)
    requires AreMembers(members) && |members| > 1 && IsMember(members[0]) && AreMembers(members[1..])
    requires MemberRead(s, p, q, MemberValue(members[0]), e, t) && s[t] == ','
      && MembersRead(s, t + 1, MemberValues(members[1..]), end)
    ensures MembersRead(s, p, MemberValues(members), end)
  {
    FirstMember(members);
    NextMember(s, p, q, MemberValue(members[0]), e, t, MemberValues(members[1..]), end);
  }

  lemma OnlyMember(s: string, p: nat, members: seq<Member>, q: nat, e: nat, t: nat)
    requires AreMembers(members) && |members| == 1 && IsMember(members[0])
    requires MemberRead(s, p, q, MemberValue(members[0]), e, t) && s[t] == '}'
    ensures MembersRead(s, p, MemberValues(members), t + 1)
  {
    FirstMember(members);
    LastMember(s, p, q, MemberValue(members[0]), e, t);
  }

  lemma {:induction false} MembersAreRead(s: string, p: nat, members: seq<Member>)
    requires AreMembers(members) && members != [] && At(s, p, RenderMembers(members))
    ensures MembersRead(s, p, MemberValues(members), p + |RenderMembers(members)|)
    decreases members, 2
  {
    var t := FirstMemberStands(s, p, members);
    var q, e := MemberIsRead(s, p, members[0], t);
    if |members| == 1 {
      OnlyMember(s, p, members, q, e, t);
    } else {
      MembersAreRead(s, t + 1, members[1..]);
      MembersJoined(s, p, members, q, e, t, t + 1 + |RenderMembers(members[1..])|);
    }
  }

  lemma FullObject(s: string, p: nat, ms: seq<(Text, Json)>, e: nat)
    requires p < |s| && s[p] == '{' && MembersRead(s, p + 1, ms, e)
    ensures ReadsValue(s, p, Object(ms), e)
  {
  }

  /** Every JSON text is read, wherever it stands; a bare number must not go on behind its end. */
  lemma {:induction false} DocIsRead(s: string, p: nat, d: Doc)
    requires IsDoc(d) && At(s, p, Render(d)) && (d.NumberDoc? ==> EndsNumber(s, p + |Render(d)|))
    ensures ReadsValue(s, p, ValueOf(d), p + |Render(d)|)
    decreases d, 0
  {
    match d
    case NumberDoc(_, _, _, _) => NumberValueIsRead(s, p, d);
    case StringDoc(chars) => StringIsRead(s, p, chars);
    case ArrayDoc(inside, items) =>
      if items == [] {
        EmptyArray(s, p, inside);
      } else {
        AtChar(s, p, '[', RenderItems(items));
        ItemsAreRead(s, p + 1, items);
        FullArray(s, p, ItemValues(items), p + 1 + |RenderItems(items)|);
      }
    case ObjectDoc(inside, members) =>
      if members == [] {
        EmptyObject(s, p, inside);
      } else {
        AtChar(s, p, '{', RenderMembers(members));
        MembersAreRead(s, p + 1, members);
        FullObject(s, p, MemberValues(members), p + 1 + |RenderMembers(members)|);
      }
    case _ => WordIsRead(s, p, d);
  }
}
