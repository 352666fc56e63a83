/**
 * Exactly which texts the streaming reader decodes alike however they are cut into chunks:
 * those in which no number that it meets can be split.
 */
module GpuChunks {
  import opened Common
  import opened JsonPrefix
  import opened JsonScanner
  import opened GpuStream

  /** What `lstrip` takes away are separators. */
  lemma {:induction false} Stripped(text: string)
    ensures var n := |text| - |LStrip(text)|;
      && n >= 0 && text[n..] == LStrip(text)
      && (forall i :: 0 <= i < n ==> IsSeparator(text[i]))
      && (LStrip(text) != "" ==> !IsSeparator(LStrip(text)[0]))
  {
    if text != "" && IsSeparator(text[0]) {
      Stripped(text[1..]);
      var n := |text| - |LStrip(text)|;
      assert text[n..] == text[1..][n - 1..];
      forall i | 0 <= i < n ensures IsSeparator(text[i]) {
        if i > 0 {
          assert text[i] == text[1..][i - 1];
        }
      }
    }
  }

  lemma StripTo(separators: string, x: string)
    requires (forall i :: 0 <= i < |separators| ==> IsSeparator(separators[i])) && x != "" && !IsSeparator(x[0])
    ensures LStrip(separators + x) == x
  {
    LStripSeparators(separators, x);
  }

  lemma FedTwo(a: string, b: string)
    ensures Fed([a, b]) == Twice(a, b)
  {
    assert [a, b][..1] == [a] && [a][..0] == [];
    assert "" + a == a;
    assert Fed([]) == Drained([], "");
    assert [] + Drain(a).values == Drain(a).values;
    assert Fed([a]) == Drain(a);
  }

  /** The first value of the first part of a number that can be split is another number. */
  lemma SplitNumber(x: string, k: nat)
    requires x != "" && ScanValue(x, 0).Good? && ScanValue(x, 0).value.Number?
    requires var t := ScanValue(x, 0).value.text; 0 < k < |t| && ScanNumber(t[..k], 0).Good?
    ensures k <= |x| && NumberStart(x[0])
    ensures ScanValue(x[..k], 0) == ScanNumber(x[..k], 0) && ScanNumber(x[..k], 0).Good?
  {
    var t := ScanValue(x, 0).value.text;
    assert NumberStart(t[0]) by {
      assert t[..k][0] == t[0];
    }
    NumberText(x);
    assert t[..k] == x[..k];
    assert k > 1 ==> x[..k][1] == t[1];
  }

  lemma NumberIsScalar(x: string)
    requires x != "" && ScanValue(x, 0).Good? && ScanValue(x, 0).value.Number?
    ensures ScanValue(x, 0) == ScanScalar(x, 0)
  {
  }

  lemma ScalarText(x: string)
    requires x != "" && ScanScalar(x, 0).Good? && ScanScalar(x, 0).value.Number?
    ensures ScanScalar(x, 0).end <= |x| && x[0..ScanScalar(x, 0).end] == ScanScalar(x, 0).value.text
  {
  }

  lemma NumberText(x: string)
    requires x != "" && ScanValue(x, 0).Good? && ScanValue(x, 0).value.Number?
    ensures ScanValue(x, 0).end <= |x| && x[..ScanValue(x, 0).end] == ScanValue(x, 0).value.text
  {
    NumberIsScalar(x);
    ScalarText(x);
  }

  lemma CutFront(separators: string, x: string, v: Json, rest: string)
    requires (forall i :: 0 <= i < |separators| ==> IsSeparator(separators[i])) && x != "" && !IsSeparator(x[0])
    requires ScanValue(x, 0).Good? && ScanValue(x, 0).value == v && x[ScanValue(x, 0).end..] == rest
    ensures Cut(separators + x) == Some((v, rest))
  {
    StripTo(separators, x);
  }

  lemma FirstValues(a: string, b: string, text: string, v: Json, rest: string, w: Json, rest': string)
    requires Cut(a) == Some((w, rest')) && Cut(text) == Some((v, rest)) && w != v
    ensures Fed([a, b]) != Drain(text)
  {
    TwiceValue(a, b, w, rest');
    FedTwo(a, b);
    DrainValue(text, v, rest);
    assert ([w] + Twice(rest', b).values)[0] == w && ([v] + Drain(rest).values)[0] == v;
  }

  /** A text that starts with such a number, cut inside it. */
  lemma CutInside(text: string, v: Json, rest: string) returns (a: string, b: string)
    requires Cut(text) == Some((v, rest)) && v.Number? && Splits(v.text)
    ensures a + b == text && Fed([a, b]) != Drain(text)
  {
    var x := LStrip(text);
    var n := |text| - |x|;
    Stripped(text);
    var k: nat :| 0 < k < |v.text| && ScanNumber(v.text[..k], 0).Good?;
    SplitNumber(x, k);
    a, b := text[..n] + x[..k], x[k..];
    Halves(text, n, x, k);
    var r := ScanNumber(x[..k], 0);
    CutFront(text[..n], x[..k], r.value, x[..k][r.end..]);
    assert |r.value.text| <= k;
    FirstValues(a, b, text, v, rest, r.value, x[..k][r.end..]);
  }

  lemma Halves(text: string, n: nat, x: string, k: nat)
    requires n <= |text| && text[n..] == x && k <= |x|
    ensures (text[..n] + x[..k]) + x[k..] == text
  {
    assert x == x[..k] + x[k..];
  }

  lemma BehindValue(x: string, e: nat, a: string, b: string)
    requires e <= |x| && x[e..] == a + b
    ensures e + |a| <= |x| && x[..e + |a|][e..] == a && x[e + |a|..] == b
  {
    assert |x| == e + |a + b|;
    forall i | 0 <= i < |a| ensures x[e + i] == a[i] {
      assert x[e..][i] == (a + b)[i];
    }
    forall i | 0 <= i < |b| ensures x[e + |a| + i] == b[i] {
      assert x[e..][|a| + i] == (a + b)[|a| + i];
    }
  }

  lemma FrontIsCut(separators: string, x: string, e: nat, m: nat, v: Json, a: string)
    requires (forall i :: 0 <= i < |separators| ==> IsSeparator(separators[i])) && x != "" && !IsSeparator(x[0])
    requires ScanValue(x, 0) == Good(v, e) && e <= m <= |x| && x[..m][e..] == a
    ensures Cut(separators + x[..m]) == Some((v, a))
  {
    ScanValueShrinks(x[..m], x, 0);
    CutFront(separators, x[..m], v, a);
  }

  /** A cut in what follows the first value, carried over to the whole. */
  lemma CutBehind(text: string, v: Json, rest: string, a: string, b: string) returns (front: string)
    requires Cut(text) == Some((v, rest)) && a + b == rest && Fed([a, b]) != Drain(rest)
    ensures front + b == text && Fed([front, b]) != Drain(text)
  {
    var x := LStrip(text);
    var n, e := |text| - |x|, ScanValue(x, 0).end;
    Stripped(text);
    front := text[..n] + x[..e + |a|];
    Halves(text, n, x, e + |a|);
    BehindValue(x, e, a, b);
    FrontIsCut(text[..n], x, e, e + |a|, v, a);
    CarriedOver(text, v, rest, front, a, b);
  }

  lemma CarriedOver(text: string, v: Json, rest: string, front: string, a: string, b: string)
    requires Cut(text) == Some((v, rest)) && Cut(front) == Some((v, a)) && Fed([a, b]) != Drain(rest)
    ensures Fed([front, b]) != Drain(text)
  {
    TwiceValue(front, b, v, a);
    FedTwo(front, b);
    FedTwo(a, b);
    DrainValue(text, v, rest);
    SameTail(v, Twice(a, b).values, Drain(rest).values);
  }

  lemma SameTail(v: Json, xs: seq<Json>, ys: seq<Json>)
    ensures [v] + xs == [v] + ys ==> xs == ys
  {
    assert ([v] + xs)[1..] == xs && ([v] + ys)[1..] == ys;
  }

  lemma {:induction false} SomeCutMatters(text: string) returns (a: string, b: string)
    requires !Cuttable(text)
    ensures a + b == text && Fed([a, b]) != Drain(text)
    decreases |text|
  {
    var v, rest := Cut(text).value.0, Cut(text).value.1;
    if v.Number? && Splits(v.text) {
      a, b := CutInside(text, v, rest);
    } else {
      var a', b' := SomeCutMatters(rest);
      a := CutBehind(text, v, rest, a', b');
      b := b';
    }
  }

  lemma FlattenTwo(a: string, b: string)
    ensures Flatten([a, b]) == a + b
  {
    assert [a, b][1..] == [b] && [b][1..] == [];
    assert Flatten([b]) == b + Flatten([]);
    assert b + [] == b;
  }

  /** Every way of cutting the text decodes alike if and only if no number in it can be split. */
  lemma ChunksExact(text: string)
    ensures Cuttable(text) <==> forall chunks :: Flatten(chunks) == text ==> Fed(chunks) == Drain(text)
  {
    if Cuttable(text) {
      forall chunks | Flatten(chunks) == text ensures Fed(chunks) == Drain(text) {
        ChunkIndependence(chunks);
      }
    } else {
      var a, b := SomeCutMatters(text);
      FlattenTwo(a, b);
      assert Flatten([a, b]) == text && Fed([a, b]) != Drain(text);
    }
  }
}
