/**
 * The reader of `intel_gpu_top -J`: chunks of text are appended to a buffer, and complete
 * JSON values are cut off its front after stray separators have been stripped.
 */
module GpuStream {
  import opened Common
  import opened JsonPrefix
  import opened JsonScanner

  // -- one reading -----------------------------------------------------------

  datatype Reading =
    | Unavailable(reason: string)
    | Available(busy: map<Text, Json>)

  function Ascii(s: string): Text {
    seq(|s|, i requires 0 <= i < |s| => s[i] as int)
  }

  /** A decoded object as a dictionary: a later field replaces an earlier one with its name. */
  function DictOf(fields: seq<(Text, Json)>): map<Text, Json> {
    if fields == [] then map[]
    else DictOf(fields[..|fields| - 1])[fields[|fields| - 1].0 := fields[|fields| - 1].1]
  }

  /** `isinstance(x, (int, float))`, which in Python holds of booleans too. */
  predicate IsNumeric(v: Json) { v.Number? || v.Bool? }

  predicate Reports(engine: Json) {
    engine.Object? && Ascii("busy") in DictOf(engine.fields) && IsNumeric(DictOf(engine.fields)[Ascii("busy")])
  }

  function Engines(obj: seq<(Text, Json)>): map<Text, Json> {
    var d := DictOf(obj);
    if Ascii("engines") in d && d[Ascii("engines")].Object? then DictOf(d[Ascii("engines")].fields) else map[]
  }

  /** What one decoded object says: every engine whose `busy` field is numeric. */
  function ReadingOf(obj: seq<(Text, Json)>): Reading {
    var engines := Engines(obj);
    Available(map name | name in engines && Reports(engines[name]) :: DictOf(engines[name].fields)[Ascii("busy")])
  }

  lemma {:induction false} LastFieldWins(fields: seq<(Text, Json)>, i: nat)
    requires i < |fields| && forall j :: i < j < |fields| ==> fields[j].0 != fields[i].0
    ensures fields[i].0 in DictOf(fields) && DictOf(fields)[fields[i].0] == fields[i].1
  {
    var n := |fields| - 1;
    if i < n {
      LastFieldWins(fields[..n], i);
    }
  }

  lemma {:induction false} NoOtherField(fields: seq<(Text, Json)>, name: Text)
    ensures name in DictOf(fields) <==> exists i :: 0 <= i < |fields| && fields[i].0 == name
  {
    if fields != [] {
      NoOtherField(fields[..|fields| - 1], name);
    }
  }

  /** What an engine says about how busy it is is reported exactly if it is a number or a boolean. */
  lemma BusyIsReported(obj: seq<(Text, Json)>, engines: seq<(Text, Json)>, name: Text, engine: seq<(Text, Json)>,
                       v: Json)
    requires Ascii("engines") in DictOf(obj) && DictOf(obj)[Ascii("engines")] == Object(engines)
    requires name in DictOf(engines) && DictOf(engines)[name] == Object(engine)
    requires Ascii("busy") in DictOf(engine) && DictOf(engine)[Ascii("busy")] == v
    ensures name in ReadingOf(obj).busy <==> v.Number? || v.Bool?
    ensures name in ReadingOf(obj).busy ==> ReadingOf(obj).busy[name] == v
  {
  }

  /** An engine that is reported is an object of the `engines` object, and says something of it. */
  lemma ReportedIsBusy(obj: seq<(Text, Json)>, name: Text)
    returns (engines: seq<(Text, Json)>, engine: seq<(Text, Json)>)
    requires name in ReadingOf(obj).busy
    ensures Ascii("engines") in DictOf(obj) && DictOf(obj)[Ascii("engines")] == Object(engines)
    ensures name in DictOf(engines) && DictOf(engines)[name] == Object(engine) && Ascii("busy") in DictOf(engine)
  {
    engines := DictOf(obj)[Ascii("engines")].fields;
    engine := DictOf(engines)[name].fields;
  }

  method Extract(obj: seq<(Text, Json)>) returns (r: Reading)
    ensures r == ReadingOf(obj)
  {
    var engines := Engines(obj);
    var busy: map<Text, Json> := map[];
    var left := engines.Keys;
    while left != {}
      invariant left <= engines.Keys
      invariant forall name :: name in busy <==> name in engines.Keys - left && Reports(engines[name])
      invariant forall name :: name in busy ==> busy[name] == DictOf(engines[name].fields)[Ascii("busy")]
      decreases left
    {
      var name :| name in left;
      if Reports(engines[name]) {
        busy := busy[name := DictOf(engines[name].fields)[Ascii("busy")]];
      }
      left := left - {name};
    }
    r := Available(busy);
  }

  // -- the buffer ------------------------------------------------------------

  predicate IsSeparator(c: char) { IsWs(c) || c == ',' || c == '[' || c == ']' }

  /** `buffer.lstrip(" \t\r\n,[]")` */
  function LStrip(s: string): (r: string)
    ensures |r| <= |s|
    ensures r != "" ==> !IsSeparator(r[0])
  {
    if s != "" && IsSeparator(s[0]) then LStrip(s[1..]) else s
  }

  datatype Drained = Drained(values: seq<Json>, rest: string)

  /** One round of the inner loop: the value at the front, if there is one, and the text behind it. */
  function Cut(buffer: string): (r: Option<(Json, string)>)
    ensures r.Some? ==> |r.value.1| < |buffer|
  {
    var stripped := LStrip(buffer);
    if stripped == "" then None
    else
      match ScanValue(stripped, 0) {
        case Bad => None
        case Good(v, e) => Some((v, stripped[e..]))
      }
  }

  /** The inner loop: every value that can be cut off the front, and what stays in the buffer. */
  function Drain(buffer: string): (d: Drained)
    ensures |d.rest| <= |buffer|
    decreases |buffer|
  {
    match Cut(buffer)
    case None => Drained([], LStrip(buffer))
    case Some((v, rest)) =>
      var d := Drain(rest);
      Drained([v] + d.values, d.rest)
  }

  /** The outer loop over the chunks read so far. */
  function Fed(chunks: seq<string>): Drained
    decreases |chunks|
  {
    if chunks == [] then Drained([], "")
    else
      var before := Fed(chunks[..|chunks| - 1]);
      var d := Drain(before.rest + chunks[|chunks| - 1]);
      Drained(before.values + d.values, d.rest)
  }

  /** The reading left behind by a sequence of values: only objects count. */
  function LatestOf(before: Reading, values: seq<Json>): Reading
    decreases |values|
  {
    if values == [] then before
    else
      var last := values[|values| - 1];
      if last.Object? then ReadingOf(last.fields) else LatestOf(before, values[..|values| - 1])
  }

  predicate AnyObject(values: seq<Json>) { exists i :: 0 <= i < |values| && values[i].Object? }

  lemma ValuesPush(before: Reading, values: seq<Json>, v: Json)
    ensures LatestOf(before, values + [v]) == if v.Object? then ReadingOf(v.fields) else LatestOf(before, values)
    ensures AnyObject(values + [v]) <==> AnyObject(values) || v.Object?
  {
    assert (values + [v])[..|values|] == values;
    assert (values + [v])[|values|] == v;
    if AnyObject(values) {
      var i :| 0 <= i < |values| && values[i].Object?;
      assert (values + [v])[i].Object?;
    }
  }

  lemma Regroup(values: seq<Json>, cut: seq<Json>, v: Json)
    ensures (values + cut) + [v] == values + (cut + [v])
  {
  }

  lemma Assoc(a: seq<Json>, v: Json, b: seq<Json>)
    ensures a + ([v] + b) == (a + [v]) + b
  {
  }

  lemma OneMoreValue(text: string, buffer: string, cut: seq<Json>, v: Json, rest: string)
    requires Drain(text) == Drained(cut + Drain(buffer).values, Drain(buffer).rest) && Cut(buffer) == Some((v, rest))
    ensures Drain(text) == Drained((cut + [v]) + Drain(rest).values, Drain(rest).rest)
  {
    Assoc(cut, v, Drain(rest).values);
    assert Drain(buffer) == Drained([v] + Drain(rest).values, Drain(rest).rest);
  }

  class GpuMonitor {
    var latest: Reading

    constructor ()
      ensures latest == Unavailable("not checked yet")
    {
      latest := Unavailable("not checked yet");
    }

    /** Reads the stream to its end; `chunks` are the texts the successive reads return. */
    method TryStream(chunks: seq<string>) returns (gotAny: bool)
      modifies this
      ensures latest == LatestOf(old(latest), Fed(chunks).values)
      ensures gotAny <==> AnyObject(Fed(chunks).values)
    {
      var buffer := "";
      gotAny := false;
      var i := 0;
      ghost var values: seq<Json> := [];
      while i < |chunks|
        invariant 0 <= i <= |chunks|
        invariant Fed(chunks[..i]) == Drained(values, buffer)
        invariant latest == LatestOf(old(latest), values)
        invariant gotAny <==> AnyObject(values)
      {
        assert chunks[..i + 1][..i] == chunks[..i] && chunks[..i + 1][i] == chunks[i];
        buffer := buffer + chunks[i];
        ghost var d := Drain(buffer);
        buffer, gotAny := TakeValues(buffer, gotAny, old(latest), values);
        values := values + d.values;
        i := i + 1;
      }
      assert chunks[..i] == chunks;
    }

    /** The inner loop of the reader. `first` and `values` say what has been decoded before. */
    method TakeValues(text: string, got: bool, ghost first: Reading, ghost values: seq<Json>)
      returns (buffer: string, gotAny: bool)
      requires latest == LatestOf(first, values)
      requires got <==> AnyObject(values)
      modifies this
      ensures buffer == Drain(text).rest
      ensures latest == LatestOf(first, values + Drain(text).values)
      ensures gotAny <==> AnyObject(values + Drain(text).values)
    {
      buffer, gotAny := text, got;
      ghost var cut: seq<Json> := [];
      assert values + cut == values;
      while true
        invariant Drain(text) == Drained(cut + Drain(buffer).values, Drain(buffer).rest)
        invariant latest == LatestOf(first, values + cut)
        invariant gotAny <==> AnyObject(values + cut)
        decreases |buffer|
      {
        assert cut + [] == cut;
        var stripped := LStrip(buffer);
        if stripped == "" {
          buffer := stripped;
          break;
        }
        match ScanValue(stripped, 0) {
          case Bad =>
            buffer := stripped;
            break;
          case Good(obj, idx) =>
            OneMoreValue(text, buffer, cut, obj, stripped[idx..]);
            ValuesPush(first, values + cut, obj);
            Regroup(values, cut, obj);
            buffer := stripped[idx..];
            cut := cut + [obj];
            if obj.Object? {
              gotAny := true;
              latest := Extract(obj.fields);
            }
        }
      }
    }
  }

  // -- chunk independence ----------------------------------------------------

  /** A part of the number, cut off its end, is a number too, and would be taken for the whole. */
  predicate Splits(number: string) { exists k: nat :: 0 < k < |number| && ScanNumber(number[..k], 0).Good? }

  /** No number that the inner loop meets in this text can be split. */
  predicate Cuttable(text: string)
    decreases |text|
  {
    match Cut(text)
    case None => true
    case Some((v, rest)) => !(v.Number? && Splits(v.text)) && Cuttable(rest)
  }

  lemma {:induction false} LStripAppend(a: string, b: string)
    ensures LStrip(a + b) == if LStrip(a) == "" then LStrip(b) else LStrip(a) + b
  {
    if a == "" {
      assert a + b == b;
    } else if IsSeparator(a[0]) {
      assert (a + b)[1..] == a[1..] + b;
      LStripAppend(a[1..], b);
    }
  }

  lemma {:induction false} DrainStripped(a: string, b: string)
    ensures Drain(LStrip(a) + b) == Drain(a + b)
  {
    LStripAppend(a, b);
    LStripAppend(LStrip(a), b);
    if LStrip(a) == "" {
      assert LStrip(a) + b == b;
    } else {
      assert LStrip(LStrip(a)) == LStrip(a);
    }
    assert Cut(LStrip(a) + b) == Cut(a + b);
  }

  predicate IsMinusInfinity(x: string) { |x| > 1 && x[0] == '-' && x[1] == 'I' }

  /** A value that starts like a number is one, or minus infinity. */
  lemma NumberBranch(x: string)
    requires x != "" && NumberStart(x[0])
    ensures ScanValue(x, 0) ==
      if IsMinusInfinity(x) then ScanWord(x, 0, "-Infinity", Number("-Infinity")) else ScanNumber(x, 0)
  {
  }

  lemma LongerNumberSplits(x: string, b: string)
    requires ScanNumber(x, 0).Good? && ScanNumber(x + b, 0).Good? && ScanNumber(x, 0).end < ScanNumber(x + b, 0).end
    ensures Splits(ScanNumber(x + b, 0).value.text)
  {
    var e, t' := ScanNumber(x, 0).end, (x + b)[..ScanNumber(x + b, 0).end];
    assert ScanNumber(x + b, 0).value == Number((x + b)[0..ScanNumber(x + b, 0).end]);
    assert t'[..e] == x[..e];
    NumberShrinks(x[..e], x, 0);
  }

  lemma SameNumber(x: string, b: string)
    requires ScanNumber(x, 0).Good? && ScanNumber(x + b, 0).Good? && ScanNumber(x, 0).end == ScanNumber(x + b, 0).end
    ensures ScanNumber(x + b, 0) == ScanNumber(x, 0)
  {
    var e := ScanNumber(x, 0).end;
    assert (x + b)[0..e] == x[0..e];
  }

  /** With more text a number stays the same, or a longer one that can be split takes its place. */
  lemma NumberAppend(x: string, b: string)
    requires x != "" && NumberStart(x[0]) && ScanValue(x, 0).Good?
    ensures ScanValue(x + b, 0).Good?
    ensures ScanValue(x + b, 0) == ScanValue(x, 0)
         || (ScanValue(x + b, 0).value.Number? && Splits(ScanValue(x + b, 0).value.text))
  {
    NumberBranch(x);
    NumberBranch(x + b);
    if IsMinusInfinity(x) {
      ScanWordGrows(x, x + b, 0, "-Infinity", Number("-Infinity"));
    } else {
      MinusAlone(x);
      NumberGrows(x, x + b, 0);
      if ScanNumber(x, 0).end < ScanNumber(x + b, 0).end {
        LongerNumberSplits(x, b);
      } else {
        SameNumber(x, b);
      }
    }
  }

  lemma MinusAlone(x: string)
    requires x != "" && ScanNumber(x, 0).Good?
    ensures x[0] == '-' ==> |x| > 1
  {
  }

  lemma ValueAppend(x: string, b: string)
    requires x != "" && ScanValue(x, 0).Good?
    ensures ScanValue(x + b, 0).Good?
    ensures ScanValue(x + b, 0) == ScanValue(x, 0)
         || (ScanValue(x + b, 0).value.Number? && Splits(ScanValue(x + b, 0).value.text))
  {
    if NumberStart(x[0]) {
      NumberAppend(x, b);
    } else {
      ScanValueGrows(x, x + b, 0);
    }
  }

  lemma CutAppend(a: string, b: string)
    requires Cut(a).Some? && Cuttable(a + b)
    ensures Cut(a + b) == Some((Cut(a).value.0, Cut(a).value.1 + b))
  {
    var stripped := LStrip(a);
    LStripAppend(a, b);
    ValueAppend(stripped, b);
    var e := ScanValue(stripped, 0).end;
    assert (stripped + b)[e..] == stripped[e..] + b;
  }

  lemma Regroup2(v: Json, xs: seq<Json>, ys: seq<Json>)
    ensures [v] + (xs + ys) == ([v] + xs) + ys
  {
  }

  /** What stays in the buffer is all that matters of the first part. */
  function Twice(a: string, b: string): Drained {
    var first := Drain(a);
    var second := Drain(first.rest + b);
    Drained(first.values + second.values, second.rest)
  }

  lemma DrainValue(text: string, v: Json, rest: string)
    requires Cut(text) == Some((v, rest))
    ensures Drain(text) == Drained([v] + Drain(rest).values, Drain(rest).rest)
  {
  }

  lemma TwiceValue(a: string, b: string, v: Json, rest: string)
    requires Cut(a) == Some((v, rest))
    ensures Twice(a, b) == Drained([v] + Twice(rest, b).values, Twice(rest, b).rest)
  {
    DrainValue(a, v, rest);
    Regroup2(v, Drain(rest).values, Drain(Drain(rest).rest + b).values);
  }

  lemma TwiceNothing(a: string, b: string)
    requires Cut(a).None?
    ensures Twice(a, b) == Drain(a + b)
  {
    DrainStripped(a, b);
    assert [] + Drain(a + b).values == Drain(a + b).values;
  }

  /** Cutting a text in two and decoding the halves in turn is decoding the whole. */
  lemma {:induction false} DrainAppend(a: string, b: string)
    requires Cuttable(a + b)
    ensures Drain(a + b) == Twice(a, b)
    decreases |a|
  {
    match Cut(a)
    case None => TwiceNothing(a, b);
    case Some((v, rest)) =>
      CutAppend(a, b);
      DrainAppend(rest, b);
      DrainValue(a + b, v, rest + b);
      TwiceValue(a, b, v, rest);
  }

  /** What a text can be cut into can be cut further. */
  lemma {:induction false} CuttablePrefix(a: string, b: string)
    requires Cuttable(a + b)
    ensures Cuttable(a)
    decreases |a|
  {
    if Cut(a).Some? {
      CutAppend(a, b);
      CuttablePrefix(Cut(a).value.1, b);
    }
  }

  /** However a text is cut into chunks, the values and the leftover are those of the whole. */
  lemma {:induction false} ChunkIndependence(chunks: seq<string>)
    requires Cuttable(Flatten(chunks))
    ensures Fed(chunks) == Drain(Flatten(chunks))
    decreases |chunks|
  {
    if chunks != [] {
      var init, last := chunks[..|chunks| - 1], chunks[|chunks| - 1];
      assert chunks == init + [last];
      FlattenAppend(init, last);
      CuttablePrefix(Flatten(init), last);
      ChunkIndependence(init);
      DrainAppend(Flatten(init), last);
    }
  }

  // -- streams of objects ----------------------------------------------------

  /** One object of a stream, as text, with the separators before it. */
  datatype Piece = Piece(separators: string, body: string)

  predicate IsObjectText(s: string) {
    s != "" && s[0] == '{' && ScanValue(s, 0).Good? && ScanValue(s, 0).end == |s|
  }

  predicate IsPiece(p: Piece) {
    IsObjectText(p.body) && forall i :: 0 <= i < |p.separators| ==> IsSeparator(p.separators[i])
  }

  predicate IsStream(pieces: seq<Piece>) { forall i :: 0 <= i < |pieces| ==> IsPiece(pieces[i]) }

  predicate ProperPrefix(a: string, b: string) { |a| < |b| && Extends(a, b) }

  function TextOf(pieces: seq<Piece>): string {
    if pieces == [] then "" else pieces[0].separators + (pieces[0].body + TextOf(pieces[1..]))
  }

  function ValuesOf(pieces: seq<Piece>): seq<Json>
    requires IsStream(pieces)
  {
    if pieces == [] then [] else [ScanValue(pieces[0].body, 0).value] + ValuesOf(pieces[1..])
  }

  lemma {:induction false} LStripSeparators(a: string, b: string)
    requires forall i :: 0 <= i < |a| ==> IsSeparator(a[i])
    ensures LStrip(a + b) == LStrip(b)
  {
    if a == "" {
      assert a + b == b;
    } else {
      assert (a + b)[1..] == a[1..] + b;
      LStripSeparators(a[1..], b);
    }
  }

  /** How many pieces end within the first `n` characters. */
  function Complete(pieces: seq<Piece>, n: nat): (done: nat)
    ensures done <= |pieces|
  {
    if pieces == [] || n < |pieces[0].separators| + |pieces[0].body| then 0
    else 1 + Complete(pieces[1..], n - |pieces[0].separators| - |pieces[0].body|)
  }

  /** `text` is how far a stream has been read; its first `done` objects are complete. */
  predicate ReadSoFar(pieces: seq<Piece>, done: nat, text: string)
    requires IsStream(pieces) && done <= |pieces|
  {
    && Cuttable(text)
    && Drain(text).values == ValuesOf(pieces[..done])
    && (Drain(text).rest == "" || (done < |pieces| && ProperPrefix(Drain(text).rest, pieces[done].body)))
  }

  /**
   * Everything about a stream of objects that has been read up to its `n`th character: it
   * can be cut anywhere, the objects that are complete have been decoded, and the buffer is
   * empty or a proper prefix of the next object.
   */
  lemma {:induction false} StreamPrefix(pieces: seq<Piece>, n: nat, text: string)
    requires IsStream(pieces) && n <= |TextOf(pieces)| && text == TextOf(pieces)[..n]
    ensures ReadSoFar(pieces, Complete(pieces, n), text)
    decreases |pieces|
  {
    if pieces == [] {
      NothingRead(pieces);
    } else if n < |pieces[0].separators| + |pieces[0].body| {
      PieceText(pieces, n);
      ShortPrefix(pieces[0], TextOf(pieces[1..]), n);
      NothingComplete(pieces, text);
    } else {
      var k, rest := BehindPiece(pieces, n);
      StreamPrefix(pieces[1..], k, rest);
      OneMorePiece(pieces, Complete(pieces[1..], k), rest, text);
    }
  }

  lemma NothingRead(pieces: seq<Piece>)
    requires pieces == []
    ensures ReadSoFar(pieces, 0, "")
  {
    assert pieces[..0] == [];
  }

  lemma NothingComplete(pieces: seq<Piece>, text: string)
    requires IsStream(pieces) && pieces != []
    requires Cuttable(text) && Drain(text).values == [] && ProperPrefix(Drain(text).rest, pieces[0].body)
    ensures ReadSoFar(pieces, 0, text)
  {
    assert pieces[..0] == [];
  }

  lemma PieceText(pieces: seq<Piece>, n: nat)
    requires pieces != [] && n <= |TextOf(pieces)|
    ensures TextOf(pieces)[..n] == (pieces[0].separators + (pieces[0].body + TextOf(pieces[1..])))[..n]
  {
  }

  /** The part of the text behind the first piece. */
  lemma BehindPiece(pieces: seq<Piece>, n: nat) returns (k: nat, rest: string)
    requires pieces != [] && |pieces[0].separators| + |pieces[0].body| <= n <= |TextOf(pieces)|
    ensures k <= |TextOf(pieces[1..])| && rest == TextOf(pieces[1..])[..k]
    ensures TextOf(pieces)[..n] == pieces[0].separators + (pieces[0].body + rest)
    ensures Complete(pieces, n) == 1 + Complete(pieces[1..], k)
  {
    k := n - |pieces[0].separators| - |pieces[0].body|;
    rest := TextOf(pieces[1..])[..k];
    TakeBehind(pieces[0].separators, pieces[0].body, TextOf(pieces[1..]), k);
  }

  lemma TakeBehind(a: string, b: string, c: string, k: nat)
    requires k <= |c|
    ensures (a + (b + c))[..|a| + |b| + k] == a + (b + c[..k])
  {
  }

  lemma OneMorePiece(pieces: seq<Piece>, done: nat, rest: string, text: string)
    requires IsStream(pieces) && pieces != [] && done < |pieces|
    requires ReadSoFar(pieces[1..], done, rest) && text == pieces[0].separators + (pieces[0].body + rest)
    ensures ReadSoFar(pieces, done + 1, text)
  {
    var v := ScanValue(pieces[0].body, 0).value;
    WholePiece(pieces[0], rest);
    CuttableObject(text, v, rest);
    DrainValue(text, v, rest);
    FirstValue(pieces, done);
  }

  lemma CuttableObject(text: string, v: Json, rest: string)
    requires Cut(text) == Some((v, rest)) && v.Object? && Cuttable(rest)
    ensures Cuttable(text)
  {
  }

  lemma FirstValue(pieces: seq<Piece>, done: nat)
    requires IsStream(pieces) && done < |pieces|
    ensures ValuesOf(pieces[..done + 1]) == [ScanValue(pieces[0].body, 0).value] + ValuesOf(pieces[1..][..done])
  {
    assert pieces[..done + 1][1..] == pieces[1..][..done];
    assert pieces[..done + 1][0] == pieces[0];
  }

  lemma WholePiece(p: Piece, rest: string)
    requires IsPiece(p)
    ensures Cut(p.separators + (p.body + rest)) == Some((ScanValue(p.body, 0).value, rest))
    ensures ScanValue(p.body, 0).value.Object?
  {
    LStripSeparators(p.separators, p.body + rest);
    assert (p.body + rest)[0] == p.body[0];
    ScanValueGrows(p.body, p.body + rest, 0);
    assert (p.body + rest)[|p.body|..] == rest;
  }

  lemma ShortPrefix(p: Piece, tail: string, n: nat)
    requires IsPiece(p) && n < |p.separators| + |p.body|
    ensures var text := (p.separators + (p.body + tail))[..n];
            Cuttable(text) && Drain(text).values == [] && ProperPrefix(Drain(text).rest, p.body)
  {
    var text := (p.separators + (p.body + tail))[..n];
    if n <= |p.separators| {
      assert text == p.separators[..n] + "";
      LStripSeparators(p.separators[..n], "");
    } else {
      var x := p.body[..n - |p.separators|];
      assert text == p.separators + x;
      LStripSeparators(p.separators, x);
      assert LStrip(x) == x;
      if ScanValue(x, 0).Good? {
        ScanValueGrows(x, p.body, 0);
      }
    }
  }

  /** The fields of the object in the `i`th piece of a stream. */
  function ObjectAt(pieces: seq<Piece>, i: nat): seq<(Text, Json)>
    requires IsStream(pieces) && i < |pieces|
  {
    assert IsPiece(pieces[i]);
    ScanValue(pieces[i].body, 0).value.fields
  }

  /**
   * The promise of the reader: whatever has been read of a stream of objects, in whatever
   * chunks, the values are its complete objects in order, and the buffer is empty or a
   * proper prefix of the next object.
   */
  lemma StreamDecoding(pieces: seq<Piece>, chunks: seq<string>)
    requires IsStream(pieces) && Extends(Flatten(chunks), TextOf(pieces))
    ensures var done, got := Complete(pieces, |Flatten(chunks)|), Fed(chunks);
      && got.values == ValuesOf(pieces[..done])
      && (got.rest == "" || (done < |pieces| && ProperPrefix(got.rest, pieces[done].body)))
  {
    var n := |Flatten(chunks)|;
    assert TextOf(pieces)[..n] == Flatten(chunks);
    StreamPrefix(pieces, n, Flatten(chunks));
    ChunkIndependence(chunks);
  }

  /** The latest reading is that of the last object that has arrived completely. */
  lemma StreamLatest(pieces: seq<Piece>, chunks: seq<string>, before: Reading)
    requires IsStream(pieces) && Extends(Flatten(chunks), TextOf(pieces))
    ensures var done := Complete(pieces, |Flatten(chunks)|);
      && LatestOf(before, Fed(chunks).values)
         == (if done == 0 then before else ReadingOf(ObjectAt(pieces, done - 1)))
      && (AnyObject(Fed(chunks).values) <==> done > 0)
  {
    StreamDecoding(pieces, chunks);
    LatestOfPieces(pieces, Complete(pieces, |Flatten(chunks)|), before, Fed(chunks).values);
  }

  lemma LatestOfPieces(pieces: seq<Piece>, done: nat, before: Reading, values: seq<Json>)
    requires IsStream(pieces) && done <= |pieces| && values == ValuesOf(pieces[..done])
    ensures LatestOf(before, values) == if done == 0 then before else ReadingOf(ObjectAt(pieces, done - 1))
    ensures AnyObject(values) <==> done > 0
  {
    if done > 0 {
      LastValue(pieces[..done]);
      LastObject(before, values);
      assert pieces[..done][done - 1] == pieces[done - 1];
    } else {
      assert pieces[..done] == [];
    }
  }

  lemma LastObject(before: Reading, values: seq<Json>)
    requires values != [] && values[|values| - 1].Object?
    ensures LatestOf(before, values) == ReadingOf(values[|values| - 1].fields) && AnyObject(values)
  {
  }

  lemma {:induction false} LastValue(pieces: seq<Piece>)
    requires IsStream(pieces) && pieces != []
    ensures var vs := ValuesOf(pieces);
            |vs| == |pieces| && vs[|vs| - 1] == Object(ObjectAt(pieces, |pieces| - 1))
  {
    if |pieces| > 1 {
      LastValue(pieces[1..]);
    } else {
      assert ValuesOf(pieces[1..]) == [];
    }
  }
}
