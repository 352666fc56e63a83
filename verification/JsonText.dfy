/**
 * Writing a value as `json.dumps` does, and reading it back: what is written is one of the
 * JSON texts that the scanner reads.
 */
module JsonText {
  import opened Common
  import opened JsonScanner
  import opened JsonGrammar
  import opened JsonComplete
  import opened JsonSound

  // -- writing -------------------------------------------------------------------------------

  function Digit(n: int): char
    requires 0 <= n < 16
  {
    if n < 10 then '0' + n as char else 'a' + (n - 10) as char
  }

  /** The last `n` hexadecimal digits. */
  function HexDigits(c: int, n: nat): (h: string)
    requires 0 <= c
    ensures |h| == n
  {
    if n == 0 then "" else HexDigits(c / 16, n - 1) + [Digit(c % 16)]
  }

  function Short(c: int): Option<char> {
    if c == 34 then Some('"')
    else if c == 92 then Some('\\')
    else if c == 8 then Some('b')
    else if c == 12 then Some('f')
    else if c == 10 then Some('n')
    else if c == 13 then Some('r')
    else if c == 9 then Some('t')
    else None
  }

  function WriteChar(c: int): string
    requires 0 <= c < 0x10000
  {
    if Short(c).Some? then ['\\', Short(c).value]
    else if 32 <= c < 127 then [c as char]
    else ['\\', 'u'] + HexDigits(c, 4)
  }

  predicate IsText(t: Text) { forall i :: 0 <= i < |t| ==> 0 <= t[i] < 0x10000 }

  /** The characters of a string and the closing quote. */
  function WriteRest(t: Text): string
    requires IsText(t)
  {
    if t == [] then "\"" else WriteChar(t[0]) + WriteRest(t[1..])
  }

  /** A number as section 6 of RFC 8259 has it. */
  ghost predicate IsNumber(t: string) { exists d: Doc :: d.NumberDoc? && IsNumberDoc(d) && NumberText(d) == t }

  /** What `json.dumps` writes of floats that are no numbers. */
  predicate IsConstant(t: string) { t == "NaN" || t == "Infinity" || t == "-Infinity" }

  ghost predicate IsJson(v: Json)
    decreases v
  {
    match v
    case Null => true
    case Bool(_) => true
    case Number(t) => IsNumber(t) || IsConstant(t)
    case Str(t) => IsText(t)
    case Array(items) => AreItems(items)
    case Object(fields) => AreFields(fields)
  }

  ghost predicate AreItems(items: seq<Json>)
    decreases items
  {
    items == [] || (IsJson(items[0]) && AreItems(items[1..]))
  }

  ghost predicate AreFields(fields: seq<(Text, Json)>)
    decreases fields
  {
    fields == [] || (IsField(fields[0]) && AreFields(fields[1..]))
  }

  ghost predicate IsField(field: (Text, Json))
    decreases field
  {
    IsText(field.0) && IsJson(field.1)
  }

  function Write(v: Json): string
    requires IsJson(v)
    decreases v
  {
    match v
    case Null => "null"
    case Bool(b) => if b then "true" else "false"
    case Number(t) => t
    case Str(t) => "\"" + WriteRest(t)
    case Array(items) => "[" + WriteItems(items)
    case Object(fields) => "{" + WriteFields(fields)
  }

  /** The rest of an array: its items and the closing bracket. */
  function WriteItems(items: seq<Json>): string
    requires AreItems(items)
    decreases items
  {
    if items == [] then "]"
    else if |items| == 1 then Write(items[0]) + "]"
    else Write(items[0]) + (", " + WriteItems(items[1..]))
  }

  function WriteField(field: (Text, Json)): string
    requires IsField(field)
    decreases field
  {
    "\"" + (WriteRest(field.0) + (": " + Write(field.1)))
  }

  /** The rest of an object: its members and the closing brace. */
  function WriteFields(fields: seq<(Text, Json)>): string
    requires AreFields(fields)
    decreases fields
  {
    if fields == [] then "}"
    else if |fields| == 1 then WriteField(fields[0]) + "}"
    else WriteField(fields[0]) + (", " + WriteFields(fields[1..]))
  }

  // -- what is written is a JSON text ----------------------------------------------------------

  lemma OneDigitMore(c: int, n: nat)
    requires 0 <= c
    ensures HexDigits(c, n + 1) == HexDigits(c / 16, n) + [Digit(c % 16)]
  {
  }

  lemma FourDigits(c: int, a: int, b: int, d: int)
    requires 0 <= c && a == c / 16 && b == a / 16 && d == b / 16
    ensures HexDigits(c, 4) == [Digit(d % 16), Digit(b % 16), Digit(a % 16), Digit(c % 16)]
  {
    OneDigitMore(c, 3);
    OneDigitMore(a, 2);
    OneDigitMore(b, 1);
    OneDigitMore(d, 0);
    assert HexDigits(d / 16, 0) == "";
    assert HexDigits(d, 1) == [Digit(d % 16)];
    assert HexDigits(b, 2) == [Digit(d % 16), Digit(b % 16)];
    assert HexDigits(a, 3) == [Digit(d % 16), Digit(b % 16), Digit(a % 16)];
  }

  lemma DigitsAddUp(c: int, a: int, b: int, d: int)
    requires 0 <= c < 0x10000 && a == c / 16 && b == a / 16 && d == b / 16
    ensures d % 16 * 4096 + b % 16 * 256 + a % 16 * 16 + c % 16 == c
  {
    assert c == a * 16 + c % 16 && a == b * 16 + a % 16 && b == d * 16 + b % 16 && d == d % 16;
  }

  lemma LowerDigit(n: nat)
    requires n < 16
    ensures HexText(Hex(n, false)) == Digit(n)
  {
    if n < 10 {
      TenDigits(n);
    } else {
      SixLetters(n);
    }
  }

  lemma UnicodeIsWritten(c: int) returns (x: Char)
    requires 0 <= c < 0x10000
    ensures IsChar(x) && CharText(x) == ['\\', 'u'] + HexDigits(c, 4) && CharValue(x) == c
  {
    var a := c / 16;
    var b := a / 16;
    var d := b / 16;
    FourDigits(c, a, b, d);
    DigitsAddUp(c, a, b, d);
    LowerDigit(d % 16);
    LowerDigit(b % 16);
    LowerDigit(a % 16);
    LowerDigit(c % 16);
    x := Unicode([Hex(d % 16, false), Hex(b % 16, false), Hex(a % 16, false), Hex(c % 16, false)]);
  }

  lemma ShortIsWritten(c: int) returns (x: Char)
    requires Short(c).Some?
    ensures IsChar(x) && CharText(x) == ['\\', Short(c).value] && CharValue(x) == c
  {
    x := Escape(if c == 34 then 0 else if c == 92 then 1 else if c == 8 then 3 else if c == 12 then 4
                else if c == 10 then 5 else if c == 13 then 6 else 7);
  }

  lemma CharIsWritten(c: int) returns (x: Char)
    requires 0 <= c < 0x10000
    ensures IsChar(x) && CharText(x) == WriteChar(c) && CharValue(x) == c
  {
    if Short(c).Some? {
      x := ShortIsWritten(c);
    } else if 32 <= c < 127 {
      x := Raw(c as char);
    } else {
      x := UnicodeIsWritten(c);
    }
  }

  lemma MoreText(x: Char, xs: seq<Char>)
    requires IsChar(x) && AreChars(xs)
    ensures AreChars([x] + xs) && CharsText([x] + xs) == CharText(x) + CharsText(xs)
    ensures CharValues([x] + xs) == [CharValue(x)] + CharValues(xs)
  {
    assert ([x] + xs)[1..] == xs;
  }

  lemma {:induction false} TextIsWritten(t: Text) returns (xs: seq<Char>)
    requires IsText(t)
    ensures AreChars(xs) && CharsText(xs) == WriteRest(t) && CharValues(xs) == t
    decreases |t|
  {
    if t == [] {
      xs := [];
    } else {
      var x := CharIsWritten(t[0]);
      var rest := TextIsWritten(t[1..]);
      xs := [x] + rest;
      MoreText(x, rest);
      assert t == [t[0]] + t[1..];
    }
  }

  /** The text of a value, with the blanks that `json.dumps` puts in. */
  lemma {:induction false} IsWritten(v: Json) returns (d: Doc)
    requires IsJson(v)
    ensures IsDoc(d) && Render(d) == Write(v) && ValueOf(d) == v && (d.NumberDoc? ==> v.Number?)
    ensures v.Object? ==> d.ObjectDoc?
    decreases v, 0
  {
    match v
    case Null => d := NullDoc;
    case Bool(b) => d := if b then TrueDoc else FalseDoc;
    case Number(t) =>
      if IsConstant(t) {
        d := ConstantDoc(t);
      } else {
        d :| d.NumberDoc? && IsNumberDoc(d) && NumberText(d) == t;
      }
    case Str(t) =>
      var xs := TextIsWritten(t);
      d := StringDoc(xs);
    case Array(items) => d := ArrayIsWritten(items);
    case Object(fields) => d := ObjectIsWritten(fields);
  }

  lemma {:induction false} ArrayIsWritten(items: seq<Json>) returns (d: Doc)
    requires AreItems(items)
    ensures IsDoc(d) && Render(d) == "[" + WriteItems(items) && ValueOf(d) == Array(items) && d.ArrayDoc?
    decreases items, 1
  {
    if items == [] {
      d := ArrayDoc("", []);
    } else {
      var xs := ItemsAreWritten(items, "");
      d := ArrayDoc("", xs);
    }
  }

  lemma {:induction false} ItemsAreWritten(items: seq<Json>, before: string) returns (xs: seq<Item>)
    requires AreItems(items) && items != [] && IsBlank(before)
    ensures AreItemDocs(xs) && xs != [] && RenderItems(xs) == before + WriteItems(items) && ItemValues(xs) == items
    decreases items, 0
  {
    var d := IsWritten(items[0]);
    var x := Item(before, d, "");
    assert RenderItem(x) == before + Render(d);
    if |items| == 1 {
      xs := [x];
      LastItemText(x);
    } else {
      var rest := ItemsAreWritten(items[1..], " ");
      xs := [x] + rest;
      MoreItems(x, rest);
      ItemsJoin(before, Render(d), WriteItems(items[1..]));
      assert items == [items[0]] + items[1..];
    }
  }

  lemma ItemsJoin(before: string, a: string, b: string)
    ensures (before + a) + ("," + (" " + b)) == before + (a + (", " + b))
  {
    assert "," + (" " + b) == ", " + b;
  }

  lemma {:induction false} ObjectIsWritten(fields: seq<(Text, Json)>) returns (d: Doc)
    requires AreFields(fields)
    ensures IsDoc(d) && Render(d) == "{" + WriteFields(fields) && ValueOf(d) == Object(fields) && d.ObjectDoc?
    decreases fields, 3
  {
    if fields == [] {
      d := ObjectDoc("", []);
    } else {
      var xs := FieldsAreWritten(fields, "");
      d := ObjectDoc("", xs);
    }
  }

  lemma {:induction false} FieldIsWritten(field: (Text, Json), before: string) returns (x: Member)
    requires IsField(field) && IsBlank(before)
    ensures IsMember(x) && RenderMember(x) == before + WriteField(field) && MemberValue(x) == field
    decreases field, 1
  {
    var key := TextIsWritten(field.0);
    var d := IsWritten(field.1);
    x := Member(before, key, "", " ", d, "");
    MemberJoin(x, WriteRest(field.0), Write(field.1));
  }

  lemma MemberJoin(x: Member, key: string, value: string)
    requires IsMember(x) && x.colon == "" && x.space == " " && x.after == ""
    requires CharsText(x.key) == key && Render(x.doc) == value
    ensures RenderMember(x) == x.before + ("\"" + (key + (": " + value)))
  {
    assert value + "" == value;
    assert ":" + (" " + value) == ": " + value;
    assert "" + (": " + value) == ": " + value;
  }

  lemma {:induction false} FieldsAreWritten(fields: seq<(Text, Json)>, before: string) returns (xs: seq<Member>)
    requires AreFields(fields) && fields != [] && IsBlank(before)
    ensures AreMembers(xs) && xs != [] && RenderMembers(xs) == before + WriteFields(fields)
      && MemberValues(xs) == fields
    decreases fields, 2
  {
    var x := FieldIsWritten(fields[0], before);
    if |fields| == 1 {
      xs := [x];
      LastMemberText(x);
      assert (before + WriteField(fields[0])) + "}" == before + (WriteField(fields[0]) + "}");
    } else {
      var rest := FieldsAreWritten(fields[1..], " ");
      xs := [x] + rest;
      MoreFields(fields, before, x, rest);
    }
  }

  lemma MoreFields(fields: seq<(Text, Json)>, before: string, x: Member, rest: seq<Member>)
    requires AreFields(fields) && |fields| > 1 && IsMember(x) && AreMembers(rest) && rest != []
    requires RenderMember(x) == before + WriteField(fields[0]) && MemberValue(x) == fields[0]
    requires RenderMembers(rest) == " " + WriteFields(fields[1..]) && MemberValues(rest) == fields[1..]
    ensures AreMembers([x] + rest) && MemberValues([x] + rest) == fields
    ensures RenderMembers([x] + rest) == before + WriteFields(fields)
  {
    MoreMembers(x, rest);
    ItemsJoin(before, WriteField(fields[0]), WriteFields(fields[1..]));
    assert fields == [fields[0]] + fields[1..];
  }

  /** Reading undoes writing, whatever follows; only behind a bare number the text must not go on with it. */
  lemma ScanUndoesWrite(v: Json, rest: string)
    requires IsJson(v) && (v.Number? ==> EndsNumber(Write(v) + rest, |Write(v)|))
    ensures ScanValue(Write(v) + rest, 0) == Good(v, |Write(v)|)
  {
    var d := IsWritten(v);
    AtFront(Write(v), rest, 0);
    assert Write(v)[0..] == Write(v);
    DocIsRead(Write(v) + rest, 0, d);
  }

  // -- what is read can be written ---------------------------------------------------------------

  /** Every character is one 16-bit unit. */
  predicate IsPlain(s: string) { forall i :: 0 <= i < |s| ==> s[i] as int < 0x10000 }

  lemma MoreUnits(unit: int, t: Text)
    requires 0 <= unit < 0x10000 && IsText(t)
    ensures IsText([unit] + t)
  {
  }

  lemma HexRange(c: char)
    ensures HexValue(c) < 16
  {
  }

  lemma {:induction false} StringIsText(s: string, p: nat)
    requires IsPlain(s) && ScanString(s, p).Good?
    ensures IsText(ScanString(s, p).value)
    decreases |s| - p
  {
    if s[p] == '"' {
    } else if s[p] == '\\' && s[p + 1] == 'u' {
      HexRange(s[p + 2]);
      HexRange(s[p + 3]);
      HexRange(s[p + 4]);
      HexRange(s[p + 5]);
      StringIsText(s, p + 6);
      MoreUnits(ScanString(s, p).value[0], ScanString(s, p + 6).value);
    } else if s[p] == '\\' {
      StringIsText(s, p + 2);
      MoreUnits(EscapeValue(s[p + 1]), ScanString(s, p + 2).value);
    } else {
      StringIsText(s, p + 1);
      MoreUnits(s[p] as int, ScanString(s, p + 1).value);
    }
  }

  lemma {:induction false} ValueIsJson(s: string, p: nat)
    requires IsPlain(s) && p <= |s| && ScanValue(s, p).Good?
    ensures IsJson(ScanValue(s, p).value)
    decreases |s| - p, 0
  {
    if s[p] == '"' {
      StringIsText(s, p + 1);
    } else if s[p] == '{' {
      if ScanValue(s, p).value != Object([]) {
        FieldsAreJson(s, SkipWs(s, p + 1));
      }
    } else if s[p] == '[' {
      if ScanValue(s, p).value != Array([]) {
        ItemsAreJson(s, SkipWs(s, p + 1));
      }
    } else {
      var d := ScalarSound(s, p);
    }
  }

  lemma MoreItemsAreJson(v: Json, items: seq<Json>)
    requires IsJson(v) && AreItems(items)
    ensures AreItems([v] + items)
  {
    assert ([v] + items)[1..] == items;
  }

  lemma {:induction false} ItemsAreJson(s: string, p: nat)
    requires IsPlain(s) && p <= |s| && ScanElements(s, p).Good?
    ensures AreItems(ScanElements(s, p).value)
    decreases |s| - p, 4
  {
    ValueIsJson(s, p);
    var v, next := ScanValue(s, p).value, SkipWs(s, ScanValue(s, p).end);
    if s[next] == ']' {
      MoreItemsAreJson(v, []);
    } else {
      ItemsAreJson(s, SkipWs(s, next + 1));
      MoreItemsAreJson(v, ScanElements(s, SkipWs(s, next + 1)).value);
    }
  }

  lemma MoreFieldsAreJson(field: (Text, Json), fields: seq<(Text, Json)>)
    requires IsField(field) && AreFields(fields)
    ensures AreFields([field] + fields)
  {
    assert ([field] + fields)[1..] == fields;
  }

  lemma {:induction false} FieldIsJson(s: string, p: nat)
    requires IsPlain(s) && p <= |s| && ScanMember(s, p).Good?
    ensures IsField(ScanMember(s, p).value)
    decreases |s| - p, 2
  {
    var k := ScanString(s, p + 1).end;
    StringIsText(s, p + 1);
    ValueIsJson(s, SkipWs(s, SkipWs(s, k) + 1));
  }

  lemma {:induction false} FieldsAreJson(s: string, p: nat)
    requires IsPlain(s) && p <= |s| && ScanMembers(s, p).Good?
    ensures AreFields(ScanMembers(s, p).value)
    decreases |s| - p, 4
  {
    FieldIsJson(s, p);
    var m, next := ScanMember(s, p).value, SkipWs(s, ScanMember(s, p).end);
    if s[next] == '}' {
      MoreFieldsAreJson(m, []);
    } else {
      FieldsAreJson(s, SkipWs(s, next + 1));
      MoreFieldsAreJson(m, ScanMembers(s, SkipWs(s, next + 1)).value);
    }
  }

  /** Whatever is read of a text can be written, and reading that gives the same value. */
  lemma ReadWriteRead(s: string)
    requires IsPlain(s) && ScanValue(s, 0).Good?
    ensures var v := ScanValue(s, 0).value;
      IsJson(v) && ScanValue(Write(v) + "\n", 0) == Good(v, |Write(v)|)
  {
    ValueIsJson(s, 0);
    var v := ScanValue(s, 0).value;
    assert (Write(v) + "\n")[|Write(v)|] == '\n';
    ScanUndoesWrite(v, "\n");
  }

  /** The characters that `json.dumps` writes as a backslash and a letter. */
  lemma WrittenEscapes()
    ensures WriteChar(34) == "\\\"" && WriteChar(92) == "\\\\" && WriteChar(8) == "\\b" && WriteChar(9) == "\\t"
    ensures WriteChar(10) == "\\n" && WriteChar(12) == "\\f" && WriteChar(13) == "\\r"
  {
  }
}
