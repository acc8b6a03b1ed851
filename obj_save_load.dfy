/** Loading a saved document: every list comes back (coordinates through one `%f`
    and ParseFloat round), the faces come back when their corners are uniform, and
    no segment comes back, because SaveToFile writes none. */
module ObjSaveLoad {
  import opened ObjText
  import opened ObjRecords
  import opened ObjLoad
  import opened ObjWriter
  import opened ObjRoundTrip

  /** `%f` prints one field that ParseFloat accepts. */
  ghost predicate Rereadable(format: FloatFormat, parseFloat: FloatParser) {
    forall r: real :: IsToken(format(r)) && parseFloat(format(r)).Some?
  }

  /** The value ParseFloat reads from what `%f` printed. */
  function Reprint(format: FloatFormat, parseFloat: FloatParser, r: real): real
    requires Rereadable(format, parseFloat)
  {
    parseFloat(format(r)).value
  }

  function ReadVertex(v: Vertex, format: FloatFormat, parseFloat: FloatParser): Vertex
    requires Rereadable(format, parseFloat)
  {
    Vertex(Reprint(format, parseFloat, v.x), Reprint(format, parseFloat, v.y), Reprint(format, parseFloat, v.z))
  }

  function ReadTexCoord(t: TexCoord, format: FloatFormat, parseFloat: FloatParser): TexCoord
    requires Rereadable(format, parseFloat)
  {
    TexCoord(Reprint(format, parseFloat, t.u), Reprint(format, parseFloat, t.v))
  }

  function ReadNormal(n: Normal, format: FloatFormat, parseFloat: FloatParser): Normal
    requires Rereadable(format, parseFloat)
  {
    Normal(Reprint(format, parseFloat, n.x), Reprint(format, parseFloat, n.y), Reprint(format, parseFloat, n.z))
  }

  function ReadVertices(vs: seq<Vertex>, format: FloatFormat, parseFloat: FloatParser): (r: seq<Vertex>)
    requires Rereadable(format, parseFloat)
    ensures |r| == |vs|
  {
    if vs == [] then []
    else ReadVertices(vs[..|vs| - 1], format, parseFloat) + [ReadVertex(vs[|vs| - 1], format, parseFloat)]
  }

  function ReadTexCoords(ts: seq<TexCoord>, format: FloatFormat, parseFloat: FloatParser): (r: seq<TexCoord>)
    requires Rereadable(format, parseFloat)
    ensures |r| == |ts|
  {
    if ts == [] then []
    else ReadTexCoords(ts[..|ts| - 1], format, parseFloat) + [ReadTexCoord(ts[|ts| - 1], format, parseFloat)]
  }

  function ReadNormals(ns: seq<Normal>, format: FloatFormat, parseFloat: FloatParser): (r: seq<Normal>)
    requires Rereadable(format, parseFloat)
    ensures |r| == |ns|
  {
    if ns == [] then []
    else ReadNormals(ns[..|ns| - 1], format, parseFloat) + [ReadNormal(ns[|ns| - 1], format, parseFloat)]
  }

  /** Loading two pieces of a file one after the other is loading the whole. */
  lemma {:induction false} LoadAllAppend(m: Mesh, a: seq<string>, b: seq<string>, parseFloat: FloatParser, withSegments: bool)
    ensures LoadAll(m, a + b, parseFloat, withSegments) == LoadAll(LoadAll(m, a, parseFloat, withSegments), b, parseFloat, withSegments)
    decreases |b|
  {
    if b == [] {
      assert a + b == a;
    } else {
      var init := b[..|b| - 1];
      assert (a + b)[..|a + b| - 1] == a + init;
      LoadAllAppend(m, a, init, parseFloat, withSegments);
    }
  }

  /** Loading one more line after a prefix. */
  lemma LoadAllSnoc(m: Mesh, lines: seq<string>, line: string, parseFloat: FloatParser, withSegments: bool)
    ensures LoadAll(m, lines + [line], parseFloat, withSegments)
         == LoadLine(LoadAll(m, lines, parseFloat, withSegments), line, parseFloat, withSegments)
  {
    assert (lines + [line])[..|lines|] == lines;
  }

  /** The comment and blank lines SaveToFile writes change nothing. */
  lemma LoadComments(m: Mesh, lines: seq<string>, parseFloat: FloatParser, withSegments: bool)
    requires forall i :: 0 <= i < |lines| ==> lines[i] == [] || lines[i][0] == '#'
    ensures LoadAll(m, lines, parseFloat, withSegments) == m
    decreases |lines|
  {
    if lines != [] {
      var init := lines[..|lines| - 1];
      assert forall i :: 0 <= i < |init| ==> init[i] == lines[i];
      LoadComments(m, init, parseFloat, withSegments);
      OtherLines(lines[|lines| - 1]);
    }
  }

  lemma TwoFields(keyword: string, a: string, b: string)
    requires IsToken(keyword) && IsToken(a) && IsToken(b)
    ensures Fields(keyword + " " + a + " " + b) == [keyword, a, b]
  {
    FieldsOfToken(b);
    FieldsCons(a, b);
    assert keyword + " " + a + " " + b == keyword + " " + (a + " " + b);
    FieldsCons(keyword, a + " " + b);
  }

  lemma ThreeFields(keyword: string, a: string, b: string, c: string)
    requires IsToken(keyword) && IsToken(a) && IsToken(b) && IsToken(c)
    ensures Fields(keyword + " " + a + " " + b + " " + c) == [keyword, a, b, c]
  {
    TwoFields(a, b, c);
    assert keyword + " " + a + " " + b + " " + c == keyword + " " + (a + " " + b + " " + c);
    FieldsCons(keyword, a + " " + b + " " + c);
  }

  lemma LoadVertexLine(m: Mesh, v: Vertex, format: FloatFormat, parseFloat: FloatParser, withSegments: bool)
    requires Rereadable(format, parseFloat)
    ensures LoadLine(m, VertexLine(v, format), parseFloat, withSegments)
         == m.(vertices := m.vertices + [ReadVertex(v, format, parseFloat)])
  {
    var line := VertexLine(v, format);
    assert IsToken(format(v.x)) && IsToken(format(v.y)) && IsToken(format(v.z));
    ThreeFields("v", format(v.x), format(v.y), format(v.z));
    assert line[..2] == "v ";
    PrefixesExclusive(line, VertexStatement);
    assert Arguments(line) == [format(v.x), format(v.y), format(v.z)];
  }

  lemma LoadTexCoordLine(m: Mesh, t: TexCoord, format: FloatFormat, parseFloat: FloatParser, withSegments: bool)
    requires Rereadable(format, parseFloat)
    ensures LoadLine(m, TexCoordLine(t, format), parseFloat, withSegments)
         == m.(texCoords := m.texCoords + [ReadTexCoord(t, format, parseFloat)])
  {
    var line := TexCoordLine(t, format);
    assert IsToken(format(t.u)) && IsToken(format(t.v));
    TwoFields("vt", format(t.u), format(t.v));
    assert line[..3] == "vt ";
    PrefixesExclusive(line, TexCoordStatement);
    assert Arguments(line) == [format(t.u), format(t.v)];
  }

  lemma LoadNormalLine(m: Mesh, n: Normal, format: FloatFormat, parseFloat: FloatParser, withSegments: bool)
    requires Rereadable(format, parseFloat)
    ensures LoadLine(m, NormalLine(n, format), parseFloat, withSegments)
         == m.(normals := m.normals + [ReadNormal(n, format, parseFloat)])
  {
    var line := NormalLine(n, format);
    assert IsToken(format(n.x)) && IsToken(format(n.y)) && IsToken(format(n.z));
    ThreeFields("vn", format(n.x), format(n.y), format(n.z));
    assert line[..3] == "vn ";
    PrefixesExclusive(line, NormalStatement);
    assert Arguments(line) == [format(n.x), format(n.y), format(n.z)];
  }

  /** A keyword followed by at least one token starts with the keyword and a space. */
  lemma {:induction false} SpacedPrefix(keyword: string, ts: seq<string>)
    requires ts != []
    ensures HasPrefix(Spaced(keyword, ts), keyword + " ")
  {
    var init := ts[..|ts| - 1];
    var k := |keyword| + 1;
    if init == [] {
      assert Spaced(keyword, ts) == keyword + " " + ts[0];
      assert (keyword + " " + ts[0])[..k] == keyword + " ";
    } else {
      SpacedPrefix(keyword, init);
      var line := Spaced(keyword, init);
      assert Spaced(keyword, ts) == line + " " + ts[|ts| - 1];
      assert (line + " " + ts[|ts| - 1])[..k] == line[..k];
    }
  }

  /** A written face with at least one corner is an `f` statement. */
  lemma FaceLineIsStatement(f: Face)
    requires f.vertices != []
    ensures Classify(FaceLine(f)) == FaceStatement
  {
    SpacedPrefix("f", CornerTexts(f));
    PrefixesExclusive(FaceLine(f), FaceStatement);
  }

  /** Any `f` statement that parses is appended to the faces, whatever its text. */
  lemma LoadFaceStatement(m: Mesh, line: string, f: Face, parseFloat: FloatParser, withSegments: bool)
    requires Classify(line) == FaceStatement && FaceOf(line) == Ok(f)
    ensures LoadLine(m, line, parseFloat, withSegments) == m.(faces := m.faces + [f])
  {
  }

  lemma LoadFaceLine(m: Mesh, f: Face, parseFloat: FloatParser, withSegments: bool)
    requires SavableFace(f)
    ensures LoadLine(m, FaceLine(f), parseFloat, withSegments) == m.(faces := m.faces + [f])
  {
    FaceLineIsStatement(f);
    FaceRoundTrip(f);
    LoadFaceStatement(m, FaceLine(f), f, parseFloat, withSegments);
  }

  /** A face with no corners is written as a bare `f`, which the loader skips. */
  lemma EmptyFaceSkipped(m: Mesh, f: Face, parseFloat: FloatParser, withSegments: bool)
    requires f.vertices == []
    ensures FaceLine(f) == "f"
    ensures LoadLine(m, FaceLine(f), parseFloat, withSegments) == m
  {
  }

  lemma {:induction false} LoadVertexLines(m: Mesh, vs: seq<Vertex>, format: FloatFormat, parseFloat: FloatParser, withSegments: bool)
    requires Rereadable(format, parseFloat)
    ensures LoadAll(m, VertexLines(vs, format), parseFloat, withSegments)
         == m.(vertices := m.vertices + ReadVertices(vs, format, parseFloat))
  {
    if vs != [] {
      var init := vs[..|vs| - 1];
      LoadVertexLines(m, init, format, parseFloat, withSegments);
      LoadAllSnoc(m, VertexLines(init, format), VertexLine(vs[|vs| - 1], format), parseFloat, withSegments);
      LoadVertexLine(LoadAll(m, VertexLines(init, format), parseFloat, withSegments), vs[|vs| - 1], format, parseFloat, withSegments);
    }
  }

  lemma {:induction false} LoadTexCoordLines(m: Mesh, ts: seq<TexCoord>, format: FloatFormat, parseFloat: FloatParser, withSegments: bool)
    requires Rereadable(format, parseFloat)
    ensures LoadAll(m, TexCoordLines(ts, format), parseFloat, withSegments)
         == m.(texCoords := m.texCoords + ReadTexCoords(ts, format, parseFloat))
  {
    if ts != [] {
      var init := ts[..|ts| - 1];
      LoadTexCoordLines(m, init, format, parseFloat, withSegments);
      LoadAllSnoc(m, TexCoordLines(init, format), TexCoordLine(ts[|ts| - 1], format), parseFloat, withSegments);
      LoadTexCoordLine(LoadAll(m, TexCoordLines(init, format), parseFloat, withSegments), ts[|ts| - 1], format, parseFloat, withSegments);
    }
  }

  lemma {:induction false} LoadNormalLines(m: Mesh, ns: seq<Normal>, format: FloatFormat, parseFloat: FloatParser, withSegments: bool)
    requires Rereadable(format, parseFloat)
    ensures LoadAll(m, NormalLines(ns, format), parseFloat, withSegments)
         == m.(normals := m.normals + ReadNormals(ns, format, parseFloat))
  {
    if ns != [] {
      var init := ns[..|ns| - 1];
      LoadNormalLines(m, init, format, parseFloat, withSegments);
      LoadAllSnoc(m, NormalLines(init, format), NormalLine(ns[|ns| - 1], format), parseFloat, withSegments);
      LoadNormalLine(LoadAll(m, NormalLines(init, format), parseFloat, withSegments), ns[|ns| - 1], format, parseFloat, withSegments);
    }
  }

  /** Faces that survive saving: uniform corners, at least one of them. */
  predicate Savable(fs: seq<Face>) {
    forall i :: 0 <= i < |fs| ==> SavableFace(fs[i])
  }

  predicate SavableFace(f: Face) {
    Uniform(f) && f.vertices != []
  }

  /** Lines that are all `f` statements, each parsing to the face at its position. */
  predicate FaceStatements(lines: seq<string>, fs: seq<Face>) {
    |lines| == |fs| &&
    forall i :: 0 <= i < |lines| ==> Classify(lines[i]) == FaceStatement && FaceOf(lines[i]) == Ok(fs[i])
  }

  lemma PrefixSnoc<T>(s: seq<T>, n: nat)
    requires 0 < n <= |s|
    ensures s[..n] == s[..n - 1] + [s[n - 1]]
  {
  }

  /** A run of `f` statements that all parse appends their faces in order. */
  lemma {:induction false} LoadFaceStatements(m: Mesh, lines: seq<string>, fs: seq<Face>, n: nat,
                                              parseFloat: FloatParser, withSegments: bool)
    requires FaceStatements(lines, fs) && n <= |lines|
    ensures LoadAll(m, lines[..n], parseFloat, withSegments) == m.(faces := m.faces + fs[..n])
  {
    if n == 0 {
      assert fs[..0] == [] && lines[..0] == [];
      assert m.faces + [] == m.faces;
    } else {
      var k := n - 1;
      LoadFaceStatements(m, lines, fs, k, parseFloat, withSegments);
      PrefixSnoc(lines, n);
      PrefixSnoc(fs, n);
      LoadAllSnoc(m, lines[..k], lines[k], parseFloat, withSegments);
      LoadFaceStatement(m.(faces := m.faces + fs[..k]), lines[k], fs[k], parseFloat, withSegments);
    }
  }

  /** Every written line of savable faces is an `f` statement reading back its face. */
  lemma FaceLinesAreStatements(fs: seq<Face>)
    requires Savable(fs)
    ensures FaceStatements(FaceLines(fs), fs)
  {
    forall i | 0 <= i < |fs|
      ensures Classify(FaceLine(fs[i])) == FaceStatement && FaceOf(FaceLine(fs[i])) == Ok(fs[i])
    {
      FaceLineIsStatement(fs[i]);
      FaceRoundTrip(fs[i]);
    }
  }

  lemma LoadFaceLines(m: Mesh, fs: seq<Face>, parseFloat: FloatParser, withSegments: bool)
    requires Savable(fs)
    ensures LoadAll(m, FaceLines(fs), parseFloat, withSegments) == m.(faces := m.faces + fs)
  {
    FaceLinesAreStatements(fs);
    LoadFaceStatements(m, FaceLines(fs), fs, |fs|, parseFloat, withSegments);
    assert FaceLines(fs)[..|fs|] == FaceLines(fs) && fs[..|fs|] == fs;
  }

  /** The title lines of an optional section. */
  lemma LoadSection(m: Mesh, present: bool, title: string, lines: seq<string>, parseFloat: FloatParser, withSegments: bool)
    requires title != [] && title[0] == '#'
    ensures LoadAll(m, Section(present, title, lines), parseFloat, withSegments)
         == if present then LoadAll(m, lines, parseFloat, withSegments) else m
  {
    if present {
      LoadAllAppend(m, ["", title], lines, parseFloat, withSegments);
      LoadComments(m, ["", title], parseFloat, withSegments);
    }
  }

  /** Everything before the faces section: the header, the vertices and the two
      optional sections. */
  lemma LoadBeforeFaces(vs: seq<Vertex>, ts: seq<TexCoord>, ns: seq<Normal>,
                        format: FloatFormat, parseFloat: FloatParser, withSegments: bool)
    requires Rereadable(format, parseFloat)
    ensures LoadAll(EmptyMesh, Header + VertexLines(vs, format)
                               + Section(|ts| > 0, "# Texture Coordinates", TexCoordLines(ts, format))
                               + Section(|ns| > 0, "# Normals", NormalLines(ns, format)), parseFloat, withSegments)
         == Mesh(ReadVertices(vs, format, parseFloat), ReadTexCoords(ts, format, parseFloat),
                 ReadNormals(ns, format, parseFloat), [], [])
  {
    var m0 := EmptyMesh;
    var a := Header + VertexLines(vs, format);
    var b := Section(|ts| > 0, "# Texture Coordinates", TexCoordLines(ts, format));
    var c := Section(|ns| > 0, "# Normals", NormalLines(ns, format));
    LoadAllAppend(m0, a + b, c, parseFloat, withSegments);
    LoadAllAppend(m0, a, b, parseFloat, withSegments);
    LoadAllAppend(m0, Header, VertexLines(vs, format), parseFloat, withSegments);
    LoadComments(m0, Header, parseFloat, withSegments);
    LoadVertexLines(m0, vs, format, parseFloat, withSegments);
    var m1 := m0.(vertices := ReadVertices(vs, format, parseFloat));
    assert LoadAll(m0, a, parseFloat, withSegments) == m1;
    LoadSection(m1, |ts| > 0, "# Texture Coordinates", TexCoordLines(ts, format), parseFloat, withSegments);
    LoadTexCoordLines(m1, ts, format, parseFloat, withSegments);
    var m2 := m1.(texCoords := ReadTexCoords(ts, format, parseFloat));
    assert LoadAll(m0, a + b, parseFloat, withSegments) == m2;
    LoadSection(m2, |ns| > 0, "# Normals", NormalLines(ns, format), parseFloat, withSegments);
    LoadNormalLines(m2, ns, format, parseFloat, withSegments);
  }

/** Reading back a saved model from an empty one: the vertices, texture coordinates
      and normals come back one for one, each coordinate through one print-and-parse;
      the faces come back unchanged; no segment comes back. */
  lemma SaveLoad(vs: seq<Vertex>, ts: seq<TexCoord>, ns: seq<Normal>, fs: seq<Face>,
                 format: FloatFormat, parseFloat: FloatParser, withSegments: bool)
    requires Rereadable(format, parseFloat) && Savable(fs)
    ensures LoadAll(EmptyMesh, Document(format, vs, ts, ns, fs), parseFloat, withSegments)
         == Mesh(ReadVertices(vs, format, parseFloat), ReadTexCoords(ts, format, parseFloat),
                 ReadNormals(ns, format, parseFloat), fs, [])
  {
    var front := Header + VertexLines(vs, format)
                 + Section(|ts| > 0, "# Texture Coordinates", TexCoordLines(ts, format))
                 + Section(|ns| > 0, "# Normals", NormalLines(ns, format));
    LoadAllAppend(EmptyMesh, front, Section(|fs| > 0, "# Faces", FaceLines(fs)), parseFloat, withSegments);
    LoadBeforeFaces(vs, ts, ns, format, parseFloat, withSegments);
    var m3 := Mesh(ReadVertices(vs, format, parseFloat), ReadTexCoords(ts, format, parseFloat),
                   ReadNormals(ns, format, parseFloat), [], []);
    LoadSection(m3, |fs| > 0, "# Faces", FaceLines(fs), parseFloat, withSegments);
    LoadFaceLines(m3, fs, parseFloat, withSegments);
  }

  /** Every coordinate of these vertices reads back as the value it was printed from. */
  ghost predicate ExactVertexList(vs: seq<Vertex>, format: FloatFormat, parseFloat: FloatParser)
    requires Rereadable(format, parseFloat)
  {
    forall i :: 0 <= i < |vs| ==> ReadVertex(vs[i], format, parseFloat) == vs[i]
  }

  ghost predicate ExactTexCoordList(ts: seq<TexCoord>, format: FloatFormat, parseFloat: FloatParser)
    requires Rereadable(format, parseFloat)
  {
    forall i :: 0 <= i < |ts| ==> ReadTexCoord(ts[i], format, parseFloat) == ts[i]
  }

  ghost predicate ExactNormalList(ns: seq<Normal>, format: FloatFormat, parseFloat: FloatParser)
    requires Rereadable(format, parseFloat)
  {
    forall i :: 0 <= i < |ns| ==> ReadNormal(ns[i], format, parseFloat) == ns[i]
  }

  /** When each coordinate of the mesh reads back as printed (with Go's `%f`: when it
      has at most six decimals), loading the saved mesh restores it, except for its
      segments. */
  lemma SaveLoadExact(m: Mesh, format: FloatFormat, parseFloat: FloatParser, withSegments: bool)
    requires Rereadable(format, parseFloat) && Savable(m.faces)
    requires ExactVertexList(m.vertices, format, parseFloat)
    requires ExactTexCoordList(m.texCoords, format, parseFloat)
    requires ExactNormalList(m.normals, format, parseFloat)
    ensures LoadAll(EmptyMesh, Document(format, m.vertices, m.texCoords, m.normals, m.faces), parseFloat, withSegments)
         == m.(segments := [])
  {
    SaveLoad(m.vertices, m.texCoords, m.normals, m.faces, format, parseFloat, withSegments);
    ExactVertices(m.vertices, format, parseFloat);
    ExactTexCoords(m.texCoords, format, parseFloat);
    ExactNormals(m.normals, format, parseFloat);
  }

  lemma {:induction false} ExactVertices(vs: seq<Vertex>, format: FloatFormat, parseFloat: FloatParser)
    requires Rereadable(format, parseFloat) && ExactVertexList(vs, format, parseFloat)
    ensures ReadVertices(vs, format, parseFloat) == vs
  {
    if vs != [] {
      var init := vs[..|vs| - 1];
      assert forall i :: 0 <= i < |init| ==> init[i] == vs[i];
      ExactVertices(init, format, parseFloat);
      assert init + [vs[|vs| - 1]] == vs;
    }
  }

  lemma {:induction false} ExactTexCoords(ts: seq<TexCoord>, format: FloatFormat, parseFloat: FloatParser)
    requires Rereadable(format, parseFloat) && ExactTexCoordList(ts, format, parseFloat)
    ensures ReadTexCoords(ts, format, parseFloat) == ts
  {
    if ts != [] {
      var init := ts[..|ts| - 1];
      assert forall i :: 0 <= i < |init| ==> init[i] == ts[i];
      ExactTexCoords(init, format, parseFloat);
      assert init + [ts[|ts| - 1]] == ts;
    }
  }

  lemma {:induction false} ExactNormals(ns: seq<Normal>, format: FloatFormat, parseFloat: FloatParser)
    requires Rereadable(format, parseFloat) && ExactNormalList(ns, format, parseFloat)
    ensures ReadNormals(ns, format, parseFloat) == ns
  {
    if ns != [] {
      var init := ns[..|ns| - 1];
      assert forall i :: 0 <= i < |init| ==> init[i] == ns[i];
      ExactNormals(init, format, parseFloat);
      assert init + [ns[|ns| - 1]] == ns;
    }
  }

  /** The premise of SaveLoadExact can be met: with a printer and a parser that agree
      on zero, the one-vertex mesh at the origin with one triangle comes back as it was. */
  lemma ExactZeroMesh()
    ensures var format: FloatFormat := r => "0";
      var parseFloat: FloatParser := s => Some(0.0);
      var m := Mesh([Vertex(0.0, 0.0, 0.0)], [], [], [Face([0, 0, 0], [], [])], []);
      LoadAll(EmptyMesh, Document(format, m.vertices, m.texCoords, m.normals, m.faces), parseFloat, true) == m
  {
    var format: FloatFormat := r => "0";
    var parseFloat: FloatParser := s => Some(0.0);
    var m := Mesh([Vertex(0.0, 0.0, 0.0)], [], [], [Face([0, 0, 0], [], [])], []);
    assert Rereadable(format, parseFloat) by {
      forall r: real ensures IsToken(format(r)) && parseFloat(format(r)).Some? {
        assert format(r) == "0";
      }
    }
    assert ReadVertex(m.vertices[0], format, parseFloat) == m.vertices[0];
    SaveLoadExact(m, format, parseFloat, true);
  }
}
