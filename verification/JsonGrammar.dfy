/**
 * JSON texts as RFC 8259 has them (section 2 the layout, section 6 numbers, section 7
 * strings), written down without the scanner, and the proof that the scanner reads exactly
 * these: it accepts every such text with the right value, and what it accepts is one.
 */
module JsonGrammar {
  import opened Common
  import opened JsonScanner

  // -- texts and what they stand for ---------------------------------------------------------

  datatype Hex = Hex(n: nat, upper: bool)

  /** A character of a string: as it stands, a two-character escape by its number, or `\u` and four digits. */
  datatype Char = Raw(c: char) | Escape(k: nat) | Unicode(digits: seq<Hex>)

  const ESCAPES: seq<(char, int)> :=
    [('"', 34), ('\\', 92), ('/', 47), ('b', 8), ('f', 12), ('n', 10), ('r', 13), ('t', 9)]

  datatype Exponent = Exponent(letter: char, sign: string, digits: string)

  /** A text with its layout: an item and a member carry the blanks around their parts. */
  datatype Doc =
    | NullDoc
    | TrueDoc
    | FalseDoc
    | NumberDoc(minus: bool, digits: string, fraction: Option<string>, exponent: Option<Exponent>)
    | ConstantDoc(name: string)
    | StringDoc(chars: seq<Char>)
    | ArrayDoc(inside: string, items: seq<Item>)
    | ObjectDoc(inside: string, members: seq<Member>)

  datatype Item = Item(before: string, doc: Doc, after: string)

  datatype Member = Member(before: string, key: seq<Char>, colon: string, space: string, doc: Doc, after: string)

  lemma BlankChars(c: char)
    ensures IsWs(c) <==> c in " \t\r\n"
  {
    var w := " \t\r\n";
    assert w[0] == ' ' && w[1] == '\t' && w[2] == '\r' && w[3] == '\n';
  }

  lemma DigitChars(c: char)
    ensures IsDigit(c) <==> c in "0123456789"
  {
    var s := "0123456789";
    assert s[0] == '0' && s[1] == '1' && s[2] == '2' && s[3] == '3' && s[4] == '4';
    assert s[5] == '5' && s[6] == '6' && s[7] == '7' && s[8] == '8' && s[9] == '9';
  }

  /** Only blanks; which characters these are is said by `BlankChars`. */
  predicate IsBlank(w: string) { forall i :: 0 <= i < |w| ==> IsWs(w[i]) }

  predicate AreDigits(w: string) { w != "" && forall i :: 0 <= i < |w| ==> IsDigit(w[i]) }

  predicate IsHex(h: Hex) { h.n < 16 }

  predicate IsChar(c: Char) {
    match c
    case Raw(x) => x >= ' ' && x != '"' && x != '\\'
    case Escape(k) => k < |ESCAPES|
    case Unicode(digits) => |digits| == 4 && forall i :: 0 <= i < 4 ==> IsHex(digits[i])
  }

  predicate AreChars(cs: seq<Char>) { forall i :: 0 <= i < |cs| ==> IsChar(cs[i]) }

  predicate IsExponent(x: Exponent) {
    (x.letter == 'e' || x.letter == 'E') && (x.sign == "" || x.sign == "+" || x.sign == "-") && AreDigits(x.digits)
  }

  /** No number starts with a zero but zero. */
  predicate IsNumberDoc(d: Doc)
    requires d.NumberDoc?
  {
    && AreDigits(d.digits) && (d.digits[0] == '0' ==> d.digits == "0")
    && (d.fraction.Some? ==> AreDigits(d.fraction.value))
    && (d.exponent.Some? ==> IsExponent(d.exponent.value))
  }

  predicate IsDoc(d: Doc)
    decreases d
  {
    match d
    case NumberDoc(_, _, _, _) => IsNumberDoc(d)
    case ConstantDoc(name) => name == "NaN" || name == "Infinity" || name == "-Infinity"
    case StringDoc(chars) => AreChars(chars)
    case ArrayDoc(inside, items) => IsBlank(inside) && AreItemDocs(items)
    case ObjectDoc(inside, members) => IsBlank(inside) && AreMembers(members)
    case _ => true
  }

  predicate AreItemDocs(items: seq<Item>)
    decreases items
  {
    items == [] || (IsItem(items[0]) && AreItemDocs(items[1..]))
  }

  predicate IsItem(x: Item)
    decreases x
  {
    IsBlank(x.before) && IsDoc(x.doc) && IsBlank(x.after)
  }

  predicate AreMembers(members: seq<Member>)
    decreases members
  {
    members == [] || (IsMember(members[0]) && AreMembers(members[1..]))
  }

  predicate IsMember(x: Member)
    decreases x
  {
    && IsBlank(x.before) && AreChars(x.key) && IsBlank(x.colon) && IsBlank(x.space)
    && IsDoc(x.doc) && IsBlank(x.after)
  }

  function HexText(h: Hex): char
    requires IsHex(h)
  {
    if h.upper then "0123456789ABCDEF"[h.n] else "0123456789abcdef"[h.n]
  }

  function CharText(c: Char): string
    requires IsChar(c)
  {
    match c
    case Raw(x) => [x]
    case Escape(k) => ['\\', ESCAPES[k].0]
    case Unicode(ds) => ['\\', 'u', HexText(ds[0]), HexText(ds[1]), HexText(ds[2]), HexText(ds[3])]
  }

  function CharValue(c: Char): int
    requires IsChar(c)
  {
    match c
    case Raw(x) => x as int
    case Escape(k) => ESCAPES[k].1
    case Unicode(ds) => ds[0].n * 4096 + ds[1].n * 256 + ds[2].n * 16 + ds[3].n
  }

  /** The characters and the closing quote. */
  function CharsText(cs: seq<Char>): string
    requires AreChars(cs)
  {
    if cs == [] then "\"" else CharText(cs[0]) + CharsText(cs[1..])
  }

  function CharValues(cs: seq<Char>): Text
    requires AreChars(cs)
  {
    if cs == [] then [] else [CharValue(cs[0])] + CharValues(cs[1..])
  }

  function FractionText(f: Option<string>): string { if f.Some? then "." + f.value else "" }

  function ExponentText(x: Option<Exponent>): string {
    if x.Some? then [x.value.letter] + (x.value.sign + x.value.digits) else ""
  }

  function Sign(minus: bool): string { if minus then "-" else "" }

  /** What comes behind the digits of the integer. */
  function RestText(f: Option<string>, x: Option<Exponent>): string { FractionText(f) + ExponentText(x) }

  function NumberText(d: Doc): string
    requires d.NumberDoc?
  {
    Sign(d.minus) + (d.digits + RestText(d.fraction, d.exponent))
  }

  function Render(d: Doc): string
    requires IsDoc(d)
    decreases d
  {
    match d
    case NullDoc => "null"
    case TrueDoc => "true"
    case FalseDoc => "false"
    case NumberDoc(_, _, _, _) => NumberText(d)
    case ConstantDoc(name) => name
    case StringDoc(chars) => "\"" + CharsText(chars)
    case ArrayDoc(inside, items) => "[" + (if items == [] then inside + "]" else RenderItems(items))
    case ObjectDoc(inside, members) => "{" + (if members == [] then inside + "}" else RenderMembers(members))
  }

  /** The items and the closing bracket. */
  function RenderItems(items: seq<Item>): string
    requires AreItemDocs(items) && items != []
    decreases items
  {
    RenderItem(items[0]) + (if |items| == 1 then "]" else "," + RenderItems(items[1..]))
  }

  function RenderItem(x: Item): string
    requires IsItem(x)
    decreases x
  {
    x.before + (Render(x.doc) + x.after)
  }

  function RenderMember(x: Member): string
    requires IsMember(x)
    decreases x
  {
    x.before + ("\"" + (CharsText(x.key) + (x.colon + (":" + (x.space + (Render(x.doc) + x.after))))))
  }

  /** The members and the closing brace. */
  function RenderMembers(members: seq<Member>): string
    requires AreMembers(members) && members != []
    decreases members
  {
    RenderMember(members[0]) + (if |members| == 1 then "}" else "," + RenderMembers(members[1..]))
  }

  function ValueOf(d: Doc): Json
    requires IsDoc(d)
    decreases d
  {
    match d
    case NullDoc => Null
    case TrueDoc => Bool(true)
    case FalseDoc => Bool(false)
    case NumberDoc(_, _, _, _) => Number(NumberText(d))
    case ConstantDoc(name) => Number(name)
    case StringDoc(chars) => Str(CharValues(chars))
    case ArrayDoc(_, items) => Array(ItemValues(items))
    case ObjectDoc(_, members) => Object(MemberValues(members))
  }

  function ItemValues(items: seq<Item>): seq<Json>
    requires AreItemDocs(items)
    decreases items
  {
    if items == [] then [] else [ItemValue(items[0])] + ItemValues(items[1..])
  }

  function ItemValue(x: Item): Json
    requires IsItem(x)
    decreases x
  {
    ValueOf(x.doc)
  }

  function MemberValues(members: seq<Member>): seq<(Text, Json)>
    requires AreMembers(members)
    decreases members
  {
    if members == [] then [] else [MemberValue(members[0])] + MemberValues(members[1..])
  }

  function MemberValue(x: Member): (Text, Json)
    requires IsMember(x)
    decreases x
  {
    (CharValues(x.key), ValueOf(x.doc))
  }

  // -- where texts stand -----------------------------------------------------------------------

  /** `w` stands in `s` at `p`. */
  predicate At(s: string, p: nat, w: string)
    decreases |w|
  {
    if w == "" then p <= |s| else p < |s| && s[p] == w[0] && At(s, p + 1, w[1..])
  }

  lemma {:induction false} AtIndex(s: string, p: nat, w: string, i: nat)
    requires At(s, p, w) && i < |w|
    ensures p + |w| <= |s| && s[p + i] == w[i]
    decreases |w|
  {
    AtLength(s, p, w);
    if i > 0 {
      AtIndex(s, p + 1, w[1..], i - 1);
    }
  }

  lemma {:induction false} AtLength(s: string, p: nat, w: string)
    requires At(s, p, w)
    ensures p + |w| <= |s|
    decreases |w|
  {
    if w != "" {
      AtLength(s, p + 1, w[1..]);
    }
  }

  lemma {:induction false} AtParts(s: string, p: nat, a: string, b: string)
    requires At(s, p, a + b)
    ensures At(s, p, a) && At(s, p + |a|, b)
    decreases |a|
  {
    if a == "" {
      assert a + b == b;
      AtLength(s, p, b);
    } else {
      assert (a + b)[1..] == a[1..] + b && (a + b)[0] == a[0];
      AtParts(s, p + 1, a[1..], b);
    }
  }

  lemma {:induction false} AtSlice(s: string, p: nat, w: string)
    requires At(s, p, w)
    ensures p + |w| <= |s| && s[p..p + |w|] == w
    decreases |w|
  {
    if w != "" {
      AtSlice(s, p + 1, w[1..]);
      assert s[p..p + |w|] == [s[p]] + s[p + 1..p + 1 + |w[1..]|];
    }
  }

  lemma {:induction false} AtFront(w: string, rest: string, p: nat)
    requires p <= |w|
    ensures At(w + rest, p, w[p..])
    decreases |w| - p
  {
    if p < |w| {
      AtFront(w, rest, p + 1);
      assert w[p..][1..] == w[p + 1..];
    }
  }

  lemma AtThree(s: string, p: nat, a: string, b: string, c: string)
    requires At(s, p, a + (b + c))
    ensures At(s, p, a) && At(s, p + |a|, b) && At(s, p + |a| + |b|, c) && p + |a| + |b| + |c| <= |s|
  {
    AtParts(s, p, a, b + c);
    AtParts(s, p + |a|, b, c);
    AtLength(s, p + |a| + |b|, c);
  }

  /** One character stands at `p`, and the rest behind it. */
  lemma AtChar(s: string, p: nat, c: char, rest: string)
    requires At(s, p, [c] + rest)
    ensures p < |s| && s[p] == c && At(s, p + 1, rest)
  {
    assert ([c] + rest)[1..] == rest;
  }

  // -- blanks and digits -----------------------------------------------------------------------

  lemma {:induction false} BlanksAreSkipped(s: string, p: nat, w: string)
    requires At(s, p, w) && IsBlank(w) && (p + |w| < |s| ==> !IsWs(s[p + |w|]))
    ensures p <= |s| && SkipWs(s, p) == p + |w|
    decreases |w|
  {
    AtLength(s, p, w);
    if w != "" {
      assert forall i :: 0 <= i < |w[1..]| ==> w[1..][i] == w[i + 1];
      BlanksAreSkipped(s, p + 1, w[1..]);
    }
  }

  lemma {:induction false} SkippedAreBlanks(s: string, p: nat)
    requires p <= |s|
    ensures IsBlank(s[p..SkipWs(s, p)])
    decreases |s| - p
  {
    if p < |s| && IsWs(s[p]) {
      SkippedAreBlanks(s, p + 1);
      var q := SkipWs(s, p + 1);
      assert s[p..q] == [s[p]] + s[p + 1..q];
    }
  }

  lemma {:induction false} DigitsAreSkipped(s: string, p: nat, w: string)
    requires At(s, p, w) && (forall i :: 0 <= i < |w| ==> IsDigit(w[i]))
    requires p + |w| < |s| ==> !IsDigit(s[p + |w|])
    ensures p <= |s| && SkipDigits(s, p) == p + |w|
    decreases |w|
  {
    AtLength(s, p, w);
    if w != "" {
      assert forall i :: 0 <= i < |w[1..]| ==> w[1..][i] == w[i + 1];
      DigitsAreSkipped(s, p + 1, w[1..]);
    }
  }

  lemma {:induction false} SkippedAreDigits(s: string, p: nat)
    requires p <= |s|
    ensures forall i :: p <= i < SkipDigits(s, p) ==> IsDigit(s[i])
    decreases |s| - p
  {
    if p < |s| && IsDigit(s[p]) {
      SkippedAreDigits(s, p + 1);
    }
  }
}
