/** What reading back the written text gives: the face reference round trip, the
    `v//n` form it does not preserve, and loading a saved document. */
module ObjRoundTrip {
  import opened ObjText
  import opened ObjRecords
  import opened ObjLoad
  import opened ObjWriter

  /** The `/`-separated components written for corner i. */
  function CornerParts(f: Face, i: nat): (ps: seq<string>)
    requires i < |f.vertices|
    ensures ps != []
  {
    [Itoa(f.vertices[i] + 1)]
    + (if |f.texCoords| > i then [Itoa(f.texCoords[i] + 1)] else [])
    + (if |f.normals| > i then [Itoa(f.normals[i] + 1)] else [])
  }

  lemma JoinTwo(a: string, b: string)
    ensures Join([a, b], '/') == a + "/" + b
  {
    assert [a, b][1..] == [b];
  }

  lemma JoinThree(a: string, b: string, c: string)
    ensures Join([a, b, c], '/') == a + "/" + b + "/" + c
  {
    assert [a, b, c][1..] == [b, c];
    JoinTwo(b, c);
  }

  lemma CornerTextJoins(f: Face, i: nat)
    requires i < |f.vertices|
    ensures CornerText(f, i) == Join(CornerParts(f, i), '/')
  {
    var v := Itoa(f.vertices[i] + 1);
    if |f.texCoords| > i && |f.normals| > i {
      JoinThree(v, Itoa(f.texCoords[i] + 1), Itoa(f.normals[i] + 1));
    } else if |f.texCoords| > i {
      JoinTwo(v, Itoa(f.texCoords[i] + 1));
    } else if |f.normals| > i {
      JoinTwo(v, Itoa(f.normals[i] + 1));
    }
  }

  lemma SlashToken(a: string, b: string)
    requires IsToken(a) && IsToken(b)
    ensures IsToken(a + "/" + b)
  {
    var s := a + "/" + b;
    forall k | 0 <= k < |s| ensures !IsSpace(s[k]) {
      if k < |a| {
        assert s[k] == a[k];
      } else if k > |a| {
        assert s[k] == b[k - |a| - 1];
      }
    }
  }

  /** A written reference is one field of the line. */
  lemma CornerTextToken(f: Face, i: nat)
    requires i < |f.vertices|
    ensures IsToken(CornerText(f, i))
  {
    var v := Itoa(f.vertices[i] + 1);
    var vt := if |f.texCoords| > i then v + "/" + Itoa(f.texCoords[i] + 1) else v;
    if |f.texCoords| > i {
      SlashToken(v, Itoa(f.texCoords[i] + 1));
    }
    if |f.normals| > i {
      SlashToken(vt, Itoa(f.normals[i] + 1));
    }
  }

  /** Reading back a reference whose one to three `/`-separated components are integers. */
  lemma ReadReference(parts: seq<string>, token: string)
    requires Split(token, '/') == parts && 1 <= |parts| <= 3
    requires forall k :: 0 <= k < |parts| ==> Atoi(parts[k]).Some?
    ensures ParseCorner(token) == Ok(Corner(
      Atoi(parts[0]).value - 1,
      if |parts| > 1 then Some(Atoi(parts[1]).value - 1) else None,
      if |parts| > 2 then Some(Atoi(parts[2]).value - 1) else None))
  {
    assert HasComponent(parts, 1) <==> |parts| > 1;
    assert HasComponent(parts, 2) <==> |parts| > 2;
  }

  /** The printed indices, joined by `/`, read back as those indices. */
  lemma ReadPrinted(token: string, xs: seq<int>)
    requires 1 <= |xs| <= 3
    requires token == Join(seq(|xs|, k requires 0 <= k < |xs| => Itoa(xs[k])), '/')
    ensures ParseCorner(token) == Ok(Corner(
      xs[0] - 1,
      if |xs| > 1 then Some(xs[1] - 1) else None,
      if |xs| > 2 then Some(xs[2] - 1) else None))
  {
    var ps := seq(|xs|, k requires 0 <= k < |xs| => Itoa(xs[k]));
    forall k | 0 <= k < |xs| ensures Atoi(ps[k]) == Some(xs[k]) {
      AtoiItoa(xs[k]);
    }
    SplitJoin(ps, '/');
    ReadReference(ps, token);
  }

  /** Corner i as printed: the vertex index and whichever optional indices reach it. */
  function PrintedIndices(f: Face, i: nat): (xs: seq<int>)
    requires i < |f.vertices|
    ensures 1 <= |xs| <= 3
  {
    [f.vertices[i] + 1]
    + (if |f.texCoords| > i then [f.texCoords[i] + 1] else [])
    + (if |f.normals| > i then [f.normals[i] + 1] else [])
  }

  lemma CornerTextPrinted(f: Face, i: nat)
    requires i < |f.vertices|
    ensures var xs := PrintedIndices(f, i);
      CornerText(f, i) == Join(seq(|xs|, k requires 0 <= k < |xs| => Itoa(xs[k])), '/')
  {
    var xs := PrintedIndices(f, i);
    var ps := seq(|xs|, k requires 0 <= k < |xs| => Itoa(xs[k]));
    assert ps == CornerParts(f, i);
    CornerTextJoins(f, i);
  }

  /** What parseFace reads back from corner i of any written face: the vertex; as
      texture index the texture index if there is one, otherwise the normal index;
      and a normal index only when both were written. */
  lemma CornerReread(f: Face, i: nat)
    requires i < |f.vertices|
    ensures ParseCorner(CornerText(f, i)) == Ok(Corner(
      f.vertices[i],
      if |f.texCoords| > i then Some(f.texCoords[i])
      else if |f.normals| > i then Some(f.normals[i])
      else None,
      if |f.texCoords| > i && |f.normals| > i then Some(f.normals[i]) else None))
  {
    CornerTextPrinted(f, i);
    ReadPrinted(CornerText(f, i), PrintedIndices(f, i));
  }

  lemma CornerTextsAreTokens(f: Face)
    ensures forall i :: 0 <= i < |f.vertices| ==> IsToken(CornerTexts(f)[i])
  {
    forall i | 0 <= i < |f.vertices| ensures IsToken(CornerTexts(f)[i]) {
      CornerTextToken(f, i);
    }
  }

  /** Writing a keyword and then each token after a space is joining them all with
      single spaces. */
  lemma {:induction false} SpacedUnwords(keyword: string, ts: seq<string>)
    ensures Spaced(keyword, ts) == Unwords([keyword] + ts)
  {
    if ts == [] {
      assert [keyword] + ts == [keyword];
    } else {
      var init, last := ts[..|ts| - 1], ts[|ts| - 1];
      SpacedUnwords(keyword, init);
      UnwordsSnoc([keyword] + init, last);
      assert [keyword] + init + [last] == [keyword] + ts;
    }
  }

  /** A written face line splits into its keyword and one field per corner. */
  lemma FaceLineFields(f: Face)
    ensures Fields(FaceLine(f)) == ["f"] + CornerTexts(f)
    ensures FaceOf(FaceLine(f)) == FaceOfTokens(CornerTexts(f))
  {
    var ts := CornerTexts(f);
    SpacedUnwords("f", ts);
    CornerTextsAreTokens(f);
    var ws := ["f"] + ts;
    forall i | 0 <= i < |ws| ensures IsToken(ws[i]) {
      if i > 0 {
        assert ws[i] == ts[i - 1];
      }
    }
    FieldsUnwords(ws);
    assert ws[1..] == ts;
  }

  /** Each optional list is either empty or has one entry per vertex. */
  predicate Rectangular(f: Face) {
    && (f.texCoords == [] || |f.texCoords| == |f.vertices|)
    && (f.normals == [] || |f.normals| == |f.vertices|)
  }

  /** The face parseFace reads back from the first n corners of a rectangular face:
      normals without texture indices land in the texture slot. */
  function Reread(f: Face, n: nat): Face
    requires Rectangular(f) && n <= |f.vertices|
  {
    Face(f.vertices[..n],
      if f.texCoords != [] then f.texCoords[..n] else if f.normals != [] then f.normals[..n] else [],
      if f.texCoords != [] && f.normals != [] then f.normals[..n] else [])
  }

  /** The corner parseFace reads back from corner i of a rectangular face. */
  function RereadCorner(f: Face, i: nat): Corner
    requires Rectangular(f) && i < |f.vertices|
  {
    Corner(
      f.vertices[i],
      if f.texCoords != [] then Some(f.texCoords[i])
      else if f.normals != [] then Some(f.normals[i])
      else None,
      if f.texCoords != [] && f.normals != [] then Some(f.normals[i]) else None)
  }

  /** parseFace's loop appends the corner of the last reference to the face of the others. */
  lemma FaceOfTokensSnoc(tokens: seq<string>, f: Face, c: Corner)
    requires tokens != [] && FaceOfTokens(tokens[..|tokens| - 1]) == Ok(f)
    requires ParseCorner(tokens[|tokens| - 1]) == Ok(c)
    ensures FaceOfTokens(tokens) == Ok(AddCorner(f, c))
  {
  }

  lemma RereadStep(f: Face, n: nat)
    requires Rectangular(f) && 0 < n <= |f.vertices|
    ensures AddCorner(Reread(f, n - 1), RereadCorner(f, n - 1)) == Reread(f, n)
  {
    assert f.vertices[..n] == f.vertices[..n - 1] + [f.vertices[n - 1]];
    if f.texCoords != [] {
      assert f.texCoords[..n] == f.texCoords[..n - 1] + [f.texCoords[n - 1]];
    }
    if f.normals != [] {
      assert f.normals[..n] == f.normals[..n - 1] + [f.normals[n - 1]];
    }
  }

  /** Reading references that each give the corner of a rectangular face, in order,
      gives back the first part of that face. */
  lemma {:induction false} RereadTokens(f: Face, tokens: seq<string>)
    requires Rectangular(f) && |tokens| <= |f.vertices|
    requires forall i :: 0 <= i < |tokens| ==> ParseCorner(tokens[i]) == Ok(RereadCorner(f, i))
    ensures FaceOfTokens(tokens) == Ok(Reread(f, |tokens|))
  {
    var n := |tokens|;
    if n > 0 {
      var init := tokens[..n - 1];
      assert forall i :: 0 <= i < |init| ==> init[i] == tokens[i];
      RereadTokens(f, init);
      FaceOfTokensSnoc(tokens, Reread(f, n - 1), RereadCorner(f, n - 1));
      RereadStep(f, n);
    }
  }

  /** Each written reference of a rectangular face reads back as its corner. */
  lemma CornerTextsReread(f: Face)
    requires Rectangular(f)
    ensures forall i :: 0 <= i < |f.vertices| ==> ParseCorner(CornerTexts(f)[i]) == Ok(RereadCorner(f, i))
  {
    forall i | 0 <= i < |f.vertices| ensures ParseCorner(CornerTexts(f)[i]) == Ok(RereadCorner(f, i)) {
      CornerReread(f, i);
    }
  }

  /** What reading a written rectangular face gives back. */
  lemma RectangularReread(f: Face)
    requires Rectangular(f)
    ensures Fields(FaceLine(f)) != []
    ensures FaceOf(FaceLine(f)) == Ok(Reread(f, |f.vertices|))
  {
    FaceLineFields(f);
    CornerTextsReread(f);
    RereadTokens(f, CornerTexts(f));
  }

  /** Every corner has the same form: `v`, `v/t` or `v/t/n`. */
  predicate Uniform(f: Face) {
    || (f.texCoords == [] && f.normals == [])
    || (|f.texCoords| == |f.vertices| && f.normals == [])
    || (|f.texCoords| == |f.vertices| && |f.normals| == |f.vertices|)
  }

  /** Writing a face and parsing the line gives the face back when its corners are uniform. */
  lemma FaceRoundTrip(f: Face)
    requires Uniform(f)
    ensures Fields(FaceLine(f)) != [] && FaceOf(FaceLine(f)) == Ok(f)
  {
    RectangularReread(f);
    var k := |f.vertices|;
    assert f.vertices[..k] == f.vertices;
    if f.texCoords != [] {
      assert f.texCoords[..k] == f.texCoords;
    }
    if f.normals != [] {
      assert f.normals[..k] == f.normals;
    }
  }

  /** A face with normals but no texture indices (read from `v//n`) is written as
      `v/n`, and reading that back takes the normal indices for texture indices. */
  lemma NormalsRereadAsTexCoords(f: Face)
    requires f.vertices != [] && f.texCoords == [] && |f.normals| == |f.vertices|
    ensures Fields(FaceLine(f)) != [] && FaceOf(FaceLine(f)) == Ok(Face(f.vertices, f.normals, []))
    ensures FaceOf(FaceLine(f)) != Ok(f)
  {
    RectangularReread(f);
    assert f.vertices[..|f.vertices|] == f.vertices;
    assert f.normals[..|f.vertices|] == f.normals;
  }

  /** The face with vertices 0, 1, 2 is written as `f 1 2 3`. */
  lemma IndexRebiasText()
    ensures FaceLine(Face([0, 1, 2], [], [])) == "f 1 2 3"
  {
    var f := Face([0, 1, 2], [], []);
    assert CornerText(f, 0) == "1" by { assert Itoa(1) == "1"; }
    assert CornerText(f, 1) == "2" by { assert Itoa(2) == "2"; }
    assert CornerText(f, 2) == "3" by { assert Itoa(3) == "3"; }
    var ts := CornerTexts(f);
    assert ts == ["1", "2", "3"];
    assert ts[..2] == ["1", "2"] && ts[..2][..1] == ["1"] && ts[..2][..1][..0] == [];
    assert Spaced("f", ["1"]) == "f 1";
    assert Spaced("f", ["1", "2"]) == "f 1 2";
  }

  /** A reference printed as the integers xs joined by `/`. */
  function PrintedReference(xs: seq<int>): string
    requires 1 <= |xs|
  {
    Join(seq(|xs|, k requires 0 <= k < |xs| => Itoa(xs[k])), '/')
  }

  lemma ReadOne(n: int)
    ensures PrintedReference([n]) == Itoa(n)
    ensures ParseCorner(Itoa(n)) == Ok(Corner(n - 1, None, None))
  {
    ReadPrinted(PrintedReference([n]), [n]);
  }

  lemma ReadTwoFive()
    ensures PrintedReference([2, 5]) == "2/5"
    ensures ParseCorner("2/5") == Ok(Corner(1, Some(4), None))
  {
    assert Itoa(2) == "2" && Itoa(5) == "5";
    assert seq(2, k requires 0 <= k < 2 => Itoa([2, 5][k])) == ["2", "5"];
    JoinTwo("2", "5");
    ReadPrinted("2/5", [2, 5]);
  }

  /** `f 1 2/5 3` reads with one texture index, 4, which no longer says which corner
      it belonged to. */
  lemma MixedFaceRead()
    ensures FaceOfTokens(["1", "2/5", "3"]) == Ok(Face([0, 1, 2], [4], []))
  {
    var tokens := ["1", "2/5", "3"];
    ReadOne(1);
    ReadOne(3);
    assert Itoa(1) == "1" && Itoa(3) == "3";
    ReadTwoFive();
    assert ParseCorner(tokens[0]) == Ok(Corner(0, None, None));
    assert ParseCorner(tokens[1]) == Ok(Corner(1, Some(4), None));
    assert ParseCorner(tokens[2]) == Ok(Corner(2, None, None));
    FaceOptionalLists(tokens);
    assert tokens[1..] == ["2/5", "3"] && tokens[1..][1..] == ["3"] && tokens[1..][1..][1..] == [];
    assert PresentTexCoords(tokens) == [4];
    assert PresentNormals(tokens) == [];
    FaceVertices(tokens);
    var f := FaceOfTokens(tokens).value;
    assert f.vertices == [0, 1, 2];
  }

  /** The face with vertices 0, 1, 2 and the one texture index 4 is written as `f 1/5 2 3`. */
  lemma MixedFaceText()
    ensures FaceLine(Face([0, 1, 2], [4], [])) == "f 1/5 2 3"
  {
    var f := Face([0, 1, 2], [4], []);
    assert CornerText(f, 0) == "1/5" by { assert Itoa(1) == "1" && Itoa(5) == "5"; }
    assert CornerText(f, 1) == "2" by { assert Itoa(2) == "2"; }
    assert CornerText(f, 2) == "3" by { assert Itoa(3) == "3"; }
    var ts := CornerTexts(f);
    assert ts == ["1/5", "2", "3"];
    assert ts[..2] == ["1/5", "2"] && ts[..2][..1] == ["1/5"] && ts[..2][..1][..0] == [];
    assert Spaced("f", ["1/5"]) == "f 1/5";
    assert Spaced("f", ["1/5", "2"]) == "f 1/5 2";
  }

  /** A face that mixes forms is not written back as it was read: the texture index of
      the second reference of `f 1 2/5 3` moves to the first corner. */
  lemma MixedFaceMisaligned()
    ensures FaceOfTokens(["1", "2/5", "3"]).Ok?
    ensures FaceLine(FaceOfTokens(["1", "2/5", "3"]).value) == "f 1/5 2 3"
  {
    MixedFaceRead();
    MixedFaceText();
  }

  /** `f 1 2 3` reads as vertices 0, 1, 2 and is written back as `f 1 2 3`. */
  lemma IndexRebias()
    ensures FaceLine(Face([0, 1, 2], [], [])) == "f 1 2 3"
    ensures Fields("f 1 2 3") != [] && FaceOf("f 1 2 3") == Ok(Face([0, 1, 2], [], []))
  {
    IndexRebiasText();
    FaceRoundTrip(Face([0, 1, 2], [], []));
  }
}
