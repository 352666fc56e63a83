/** A stream of objects in any layout, cut into any chunks, is read back as those objects. */
module JsonStream {
  import opened Common
  import opened JsonScanner
  import opened JsonGrammar
  import opened JsonSound
  import opened GpuStream

  predicate AreObjects(docs: seq<Doc>) { forall i :: 0 <= i < |docs| ==> docs[i].ObjectDoc? && IsDoc(docs[i]) }

  predicate AreSeparators(separators: seq<string>) {
    forall i, k :: 0 <= i < |separators| && 0 <= k < |separators[i]| ==> IsSeparator(separators[i][k])
  }

  /** What `lstrip` is told to take away. */
  lemma SeparatorChars(c: char)
    ensures IsSeparator(c) <==> c in " \t\r\n,[]"
  {
    var w := " \t\r\n,[]";
    assert w[0] == ' ' && w[1] == '\t' && w[2] == '\r' && w[3] == '\n' && w[4] == ',' && w[5] == '[' && w[6] == ']';
  }

  /** Each object as it is laid out, after its separators. */
  function Printed(docs: seq<Doc>, separators: seq<string>): seq<Piece>
    requires AreObjects(docs) && |separators| == |docs|
  {
    seq(|docs|, i requires 0 <= i < |docs| => Piece(separators[i], Render(docs[i])))
  }

  function Values(docs: seq<Doc>): seq<Json>
    requires AreObjects(docs)
  {
    seq(|docs|, i requires 0 <= i < |docs| => ValueOf(docs[i]))
  }

  lemma LaidOutObject(d: Doc)
    requires d.ObjectDoc? && IsDoc(d)
    ensures IsObjectText(Render(d)) && ScanValue(Render(d), 0).value == ValueOf(d)
  {
    assert Render(d)[..|Render(d)|] == Render(d);
    LeadingIsRead(Render(d), d);
  }

  /** The pieces of a stream are exactly the objects of RFC 8259, in whatever layout. */
  lemma ObjectTexts(s: string)
    ensures IsObjectText(s) <==> exists d: Doc :: d.ObjectDoc? && IsDoc(d) && Render(d) == s
  {
    if IsObjectText(s) {
      var d := ObjectSound(s, 0);
      assert s[0..|s|] == s;
    }
    if d: Doc :| d.ObjectDoc? && IsDoc(d) && Render(d) == s {
      LaidOutObject(d);
    }
  }

  lemma PrintedStream(docs: seq<Doc>, separators: seq<string>)
    requires AreObjects(docs) && |separators| == |docs| && AreSeparators(separators)
    ensures IsStream(Printed(docs, separators))
  {
    var pieces := Printed(docs, separators);
    forall i | 0 <= i < |pieces| ensures IsPiece(pieces[i]) {
      LaidOutObject(docs[i]);
    }
  }

  lemma {:induction false} PrintedValues(docs: seq<Doc>, separators: seq<string>)
    requires AreObjects(docs) && |separators| == |docs| && AreSeparators(separators)
    ensures IsStream(Printed(docs, separators)) && ValuesOf(Printed(docs, separators)) == Values(docs)
  {
    PrintedStream(docs, separators);
    if docs != [] {
      LaidOutObject(docs[0]);
      PrintedValues(docs[1..], separators[1..]);
      assert Printed(docs, separators)[1..] == Printed(docs[1..], separators[1..]);
      assert Values(docs) == [ValueOf(docs[0])] + Values(docs[1..]);
    }
  }

  lemma {:induction false} AllComplete(pieces: seq<Piece>)
    ensures Complete(pieces, |TextOf(pieces)|) == |pieces|
  {
    if pieces != [] {
      AllComplete(pieces[1..]);
    }
  }

  /** Whatever the layout, the separators and the chunks, reading gives the objects back and leaves nothing. */
  lemma PrintedObjectsAreRead(docs: seq<Doc>, separators: seq<string>, chunks: seq<string>)
    requires AreObjects(docs) && |separators| == |docs| && AreSeparators(separators)
    requires Flatten(chunks) == TextOf(Printed(docs, separators))
    ensures Fed(chunks) == Drained(Values(docs), "")
  {
    var pieces := Printed(docs, separators);
    PrintedValues(docs, separators);
    StreamDecoding(pieces, chunks);
    AllComplete(pieces);
    assert pieces[..|pieces|] == pieces;
  }

  /** Numbers on their own are not safe to cut: `1` and `2` in two chunks are not `12`. */
  lemma BareNumbersDependOnChunks()
    ensures Fed(["1", "2"]).values == [Number("1"), Number("2")]
    ensures Drain(Flatten(["1", "2"])).values == [Number("12")]
  {
    OneDigit("1");
    OneDigit("2");
    assert ["1"][..0] == [] && ["1", "2"][..1] == ["1"];
    assert Fed([]) == Drained([], "");
    assert "" + "1" == "1" && "" + "2" == "2";
    assert Fed(["1"]) == Drained([Number("1")], "");
    assert Fed(["1", "2"]).values == [Number("1")] + [Number("2")];
    assert Flatten(["1", "2"]) == "12" by {
      assert ["1", "2"][1..] == ["2"] && ["2"][1..] == [];
      assert "1" + ("2" + "") == "12";
    }
    TwoDigits();
  }

  lemma OneDigit(d: string)
    requires |d| == 1 && '1' <= d[0] <= '9'
    ensures Drain(d) == Drained([Number(d)], "")
  {
    assert LStrip(d) == d;
    assert SkipDigits(d, 0) == 1;
    assert ScanNumber(d, 0) == Good(Number(d), 1) by {
      assert d[0..1] == d;
    }
    assert d[1..] == "";
    assert Cut(d) == Some((Number(d), ""));
    assert Drain("") == Drained([], "");
  }

  lemma TwoDigits()
    ensures Drain("12") == Drained([Number("12")], "")
  {
    var d := "12";
    assert LStrip(d) == d;
    assert SkipDigits(d, 1) == 2;
    assert SkipDigits(d, 0) == 2;
    assert ScanNumber(d, 0) == Good(Number(d), 2) by {
      assert d[0..2] == d;
    }
    assert d[2..] == "";
    assert Cut(d) == Some((Number(d), ""));
    assert Drain("") == Drained([], "");
  }
}
