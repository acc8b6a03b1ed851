/** The line dispatch of LoadFromFile, as a fold over the lines of the file. The
    project/model.go loader recognises `l` statements; the go/model.go loader does
    not (`withSegments` selects which). */
module ObjLoad {
  import opened ObjText
  import opened ObjRecords

  datatype Kind =
    | VertexStatement
    | TexCoordStatement
    | NormalStatement
    | FaceStatement
    | SegmentStatement
    | OtherLine

  /** The switch on line prefixes, in switch order. */
  function Classify(line: string): Kind {
    if HasPrefix(line, "v ") then VertexStatement
    else if HasPrefix(line, "vt ") then TexCoordStatement
    else if HasPrefix(line, "vn ") then NormalStatement
    else if HasPrefix(line, "f ") then FaceStatement
    else if HasPrefix(line, "l ") then SegmentStatement
    else OtherLine
  }

  function Keyword(k: Kind): string
    requires k != OtherLine
  {
    match k
    case VertexStatement => "v"
    case TexCoordStatement => "vt"
    case NormalStatement => "vn"
    case FaceStatement => "f"
    case SegmentStatement => "l"
  }

  /** The five prefixes exclude each other, so the order of the switch does not
      matter: a line is of kind k exactly when it starts with k's keyword and a space. */
  lemma PrefixesExclusive(line: string, k: Kind)
    requires k != OtherLine
    ensures Classify(line) == k <==> HasPrefix(line, Keyword(k) + " ")
  {
    if |line| >= 2 {
      assert HasPrefix(line, "v ") <==> line[0] == 'v' && line[1] == ' ';
      assert HasPrefix(line, "f ") <==> line[0] == 'f' && line[1] == ' ';
      assert HasPrefix(line, "l ") <==> line[0] == 'l' && line[1] == ' ';
    }
    if |line| >= 3 {
      assert HasPrefix(line, "vt ") <==> line[0] == 'v' && line[1] == 't' && line[2] == ' ';
      assert HasPrefix(line, "vn ") <==> line[0] == 'v' && line[1] == 'n' && line[2] == ' ';
    }
  }

  /** A dispatched line has its keyword as first field, so `Fields(line)[1:]` is defined. */
  lemma ClassifiedKeyword(line: string)
    requires Classify(line) != OtherLine
    ensures Fields(line) != [] && Fields(line)[0] == Keyword(Classify(line))
  {
    FirstField(line, Keyword(Classify(line)));
  }

  /** Comments, blank lines and lines with leading white space are not dispatched. */
  lemma OtherLines(line: string)
    requires line == [] || IsSpace(line[0]) || line[0] == '#'
    ensures Classify(line) == OtherLine
  {
  }

  datatype Mesh = Mesh(
    vertices: seq<Vertex>,
    texCoords: seq<TexCoord>,
    normals: seq<Normal>,
    faces: seq<Face>,
    segments: seq<Segment>)

  const EmptyMesh := Mesh([], [], [], [], [])

  /** One iteration of the scan loop: parse the line by its prefix and append the
      record only if it parsed. */
  function LoadLine(m: Mesh, line: string, parseFloat: FloatParser, withSegments: bool): Mesh {
    var kind := Classify(line);
    if kind == OtherLine then m
    else
      ClassifiedKeyword(line);
      match kind
      case VertexStatement =>
        (match ParseVertex(line, parseFloat) case Ok(v) => m.(vertices := m.vertices + [v]) case Err(_) => m)
      case TexCoordStatement =>
        (match ParseTexCoord(line, parseFloat) case Ok(t) => m.(texCoords := m.texCoords + [t]) case Err(_) => m)
      case NormalStatement =>
        (match ParseNormal(line, parseFloat) case Ok(n) => m.(normals := m.normals + [n]) case Err(_) => m)
      case FaceStatement =>
        (match FaceOf(line) case Ok(f) => m.(faces := m.faces + [f]) case Err(_) => m)
      case SegmentStatement =>
        if !withSegments then m
        else match ParseLine(line) case Ok(s) => m.(segments := m.segments + [s]) case Err(_) => m
  }

  /** The whole scan: the lines in file order, starting from `m`. */
  function LoadAll(m: Mesh, lines: seq<string>, parseFloat: FloatParser, withSegments: bool): Mesh
    decreases |lines|
  {
    if lines == [] then m
    else LoadLine(LoadAll(m, lines[..|lines| - 1], parseFloat, withSegments), lines[|lines| - 1], parseFloat, withSegments)
  }

  /** The scan loop of LoadFromFile over the lines of the file: the prefix switch,
      appending whatever parsed. A line whose parser fails is skipped. */
  method ScanLines(m: Mesh, lines: seq<string>, parseFloat: FloatParser, withSegments: bool) returns (r: Mesh)
    ensures r == LoadAll(m, lines, parseFloat, withSegments)
  {
    r := m;
    for i := 0 to |lines|
      invariant r == LoadAll(m, lines[..i], parseFloat, withSegments)
    {
      assert lines[..i + 1][..i] == lines[..i];
      var line := lines[i];
      ghost var before := r;
      if HasPrefix(line, "v ") {
        ClassifiedKeyword(line);
        var v := ParseVertex(line, parseFloat);
        if v.Ok? {
          r := r.(vertices := r.vertices + [v.value]);
        }
      } else if HasPrefix(line, "vt ") {
        ClassifiedKeyword(line);
        var vt := ParseTexCoord(line, parseFloat);
        if vt.Ok? {
          r := r.(texCoords := r.texCoords + [vt.value]);
        }
      } else if HasPrefix(line, "vn ") {
        ClassifiedKeyword(line);
        var vn := ParseNormal(line, parseFloat);
        if vn.Ok? {
          r := r.(normals := r.normals + [vn.value]);
        }
      } else if HasPrefix(line, "f ") {
        ClassifiedKeyword(line);
        var face := ParseFace(line);
        if face.Ok? {
          r := r.(faces := r.faces + [face.value]);
        }
      } else if withSegments && HasPrefix(line, "l ") {
        ClassifiedKeyword(line);
        var l := ParseLine(line);
        if l.Ok? {
          r := r.(segments := r.segments + [l.value]);
        }
      }
      assert r == LoadLine(before, line, parseFloat, withSegments);
    }
    assert lines[..|lines|] == lines;
  }

  // ---------------------------------------------------------------- per-kind view

  /** The record a line contributes to its own list, if any. */
  function VertexRecord(line: string, parseFloat: FloatParser): Option<Vertex> {
    if Classify(line) != VertexStatement then None
    else
      ClassifiedKeyword(line);
      match ParseVertex(line, parseFloat) case Ok(v) => Some(v) case Err(_) => None
  }

  function TexCoordRecord(line: string, parseFloat: FloatParser): Option<TexCoord> {
    if Classify(line) != TexCoordStatement then None
    else
      ClassifiedKeyword(line);
      match ParseTexCoord(line, parseFloat) case Ok(t) => Some(t) case Err(_) => None
  }

  function NormalRecord(line: string, parseFloat: FloatParser): Option<Normal> {
    if Classify(line) != NormalStatement then None
    else
      ClassifiedKeyword(line);
      match ParseNormal(line, parseFloat) case Ok(n) => Some(n) case Err(_) => None
  }

  function FaceRecord(line: string): Option<Face> {
    if Classify(line) != FaceStatement then None
    else
      ClassifiedKeyword(line);
      match FaceOf(line) case Ok(f) => Some(f) case Err(_) => None
  }

  function SegmentRecord(line: string): Option<Segment> {
    if Classify(line) != SegmentStatement then None
    else
      ClassifiedKeyword(line);
      match ParseLine(line) case Ok(s) => Some(s) case Err(_) => None
  }

  /** The values `pick` finds in `lines`, in order. */
  function Keep<T>(lines: seq<string>, pick: string -> Option<T>): seq<T> {
    if lines == [] then []
    else (if pick(lines[0]).Some? then [pick(lines[0]).value] else []) + Keep(lines[1..], pick)
  }

  lemma {:induction false} KeepAppend<T>(a: seq<string>, b: seq<string>, pick: string -> Option<T>)
    ensures Keep(a + b, pick) == Keep(a, pick) + Keep(b, pick)
  {
    if a == [] {
      assert a + b == b;
    } else {
      var head := if pick(a[0]).Some? then [pick(a[0]).value] else [];
      assert (a + b)[0] == a[0] && (a + b)[1..] == a[1..] + b;
      assert Keep(a + b, pick) == head + Keep(a[1..] + b, pick);
      KeepAppend(a[1..], b, pick);
      assert head + (Keep(a[1..], pick) + Keep(b, pick)) == (head + Keep(a[1..], pick)) + Keep(b, pick);
    }
  }

  /** The pickers of the three kinds whose parser needs ParseFloat. */
  function PickVertex(parseFloat: FloatParser): string -> Option<Vertex> {
    l => VertexRecord(l, parseFloat)
  }

  function PickTexCoord(parseFloat: FloatParser): string -> Option<TexCoord> {
    l => TexCoordRecord(l, parseFloat)
  }

  function PickNormal(parseFloat: FloatParser): string -> Option<Normal> {
    l => NormalRecord(l, parseFloat)
  }

  /** `m` with each list extended by the records of its own kind in `lines`. */
  function Extended(m: Mesh, lines: seq<string>, parseFloat: FloatParser, withSegments: bool): Mesh {
    Mesh(
      m.vertices + Keep(lines, PickVertex(parseFloat)),
      m.texCoords + Keep(lines, PickTexCoord(parseFloat)),
      m.normals + Keep(lines, PickNormal(parseFloat)),
      m.faces + Keep(lines, FaceRecord),
      m.segments + (if withSegments then Keep(lines, SegmentRecord) else []))
  }

  lemma KeepOne<T>(line: string, pick: string -> Option<T>)
    ensures Keep([line], pick) == if pick(line).Some? then [pick(line).value] else []
  {
    assert [line][1..] == [];
  }

  /** One line appends at most one record, to its own list only. */
  lemma LoadLineAppends(m: Mesh, line: string, parseFloat: FloatParser, withSegments: bool)
    ensures LoadLine(m, line, parseFloat, withSegments) == Extended(m, [line], parseFloat, withSegments)
  {
    KeepOne(line, PickVertex(parseFloat));
    KeepOne(line, PickTexCoord(parseFloat));
    KeepOne(line, PickNormal(parseFloat));
    KeepOne(line, FaceRecord);
    KeepOne(line, SegmentRecord);
  }

  lemma KeepSnoc<T>(xs: seq<T>, init: seq<string>, last: string, pick: string -> Option<T>)
    ensures xs + Keep(init + [last], pick) == (xs + Keep(init, pick)) + Keep([last], pick)
  {
    KeepAppend(init, [last], pick);
  }

  lemma ExtendedSnoc(m: Mesh, init: seq<string>, last: string, parseFloat: FloatParser, withSegments: bool)
    ensures Extended(m, init + [last], parseFloat, withSegments)
         == Extended(Extended(m, init, parseFloat, withSegments), [last], parseFloat, withSegments)
  {
    KeepSnoc(m.vertices, init, last, PickVertex(parseFloat));
    KeepSnoc(m.texCoords, init, last, PickTexCoord(parseFloat));
    KeepSnoc(m.normals, init, last, PickNormal(parseFloat));
    KeepSnoc(m.faces, init, last, FaceRecord);
    KeepSnoc(m.segments, init, last, SegmentRecord);
  }

  /** Load is append-only and keeps file order: each list grows by exactly the records
      of its own kind that parsed, in the order of their lines; a line that fails to
      parse (a malformed `f` line included) and every other line add nothing. */
  lemma {:induction false} LoadAllContents(m: Mesh, lines: seq<string>, parseFloat: FloatParser, withSegments: bool)
    ensures LoadAll(m, lines, parseFloat, withSegments) == Extended(m, lines, parseFloat, withSegments)
  {
    if lines == [] {
      assert Extended(m, lines, parseFloat, withSegments) == m;
    } else {
      var init, last := lines[..|lines| - 1], lines[|lines| - 1];
      assert lines == init + [last];
      LoadAllContents(m, init, parseFloat, withSegments);
      ExtendedSnoc(m, init, last, parseFloat, withSegments);
      LoadLineAppends(Extended(m, init, parseFloat, withSegments), last, parseFloat, withSegments);
    }
  }

  /** Lines that are not dispatched, and `l` lines in the go variant, change nothing. */
  lemma IgnoredLine(m: Mesh, line: string, parseFloat: FloatParser, withSegments: bool)
    requires Classify(line) == OtherLine || (Classify(line) == SegmentStatement && !withSegments)
    ensures LoadLine(m, line, parseFloat, withSegments) == m
  {
  }

  /** A malformed `f` line is dropped; the load goes on. */
  lemma MalformedFaceDropped(m: Mesh, line: string, parseFloat: FloatParser, withSegments: bool)
    requires Classify(line) == FaceStatement
    ensures Fields(line) != []
    ensures FaceOf(line).Err? ==> LoadLine(m, line, parseFloat, withSegments) == m
  {
    ClassifiedKeyword(line);
  }

  /** Number of lines that are `v` statements with three well-formed coordinates. */
  function CountVertexLines(lines: seq<string>, parseFloat: FloatParser): nat {
    if lines == [] then 0
    else
      (if Classify(lines[0]) == VertexStatement &&
          (ClassifiedKeyword(lines[0]); ParseVertex(lines[0], parseFloat).Ok?) then 1 else 0)
      + CountVertexLines(lines[1..], parseFloat)
  }

  lemma {:induction false} KeepVerticesCount(lines: seq<string>, parseFloat: FloatParser)
    ensures |Keep(lines, PickVertex(parseFloat))| == CountVertexLines(lines, parseFloat)
  {
    if lines != [] {
      KeepVerticesCount(lines[1..], parseFloat);
    }
  }

  /** After loading a file into an empty model, the vertex count is the number of
      well-formed `v` lines. */
  lemma VertexCount(lines: seq<string>, parseFloat: FloatParser, withSegments: bool)
    ensures |LoadAll(EmptyMesh, lines, parseFloat, withSegments).vertices| == CountVertexLines(lines, parseFloat)
  {
    LoadAllContents(EmptyMesh, lines, parseFloat, withSegments);
    KeepVerticesCount(lines, parseFloat);
  }
}
