/** The text SaveToFile writes, as the sequence of its lines (each written with a
    trailing newline). Coordinates go through fmt's `%f`, which is a parameter. */
module ObjWriter {
  import opened ObjText
  import opened ObjRecords

  /** fmt's `%f` verb. */
  type FloatFormat = real -> string

  /** Corner i of a face: the vertex index plus one, then `/t` and `/n` only when the
      texture and normal lists reach that far. */
  function CornerText(f: Face, i: nat): string
    requires i < |f.vertices|
  {
    var v := Itoa(f.vertices[i] + 1);
    var vt := if |f.texCoords| > i then v + "/" + Itoa(f.texCoords[i] + 1) else v;
    if |f.normals| > i then vt + "/" + Itoa(f.normals[i] + 1) else vt
  }

  /** The references of all corners, in order. */
  function CornerTexts(f: Face): (ts: seq<string>)
    ensures |ts| == |f.vertices|
  {
    seq(|f.vertices|, i requires 0 <= i < |f.vertices| => CornerText(f, i))
  }

  /** A keyword followed by each of `ts`, each after a space. */
  function Spaced(keyword: string, ts: seq<string>): string {
    if ts == [] then keyword else Spaced(keyword, ts[..|ts| - 1]) + " " + ts[|ts| - 1]
  }

  function FaceLine(f: Face): string {
    Spaced("f", CornerTexts(f))
  }

  function VertexLine(v: Vertex, format: FloatFormat): string {
    "v " + format(v.x) + " " + format(v.y) + " " + format(v.z)
  }

  function TexCoordLine(t: TexCoord, format: FloatFormat): string {
    "vt " + format(t.u) + " " + format(t.v)
  }

  function NormalLine(n: Normal, format: FloatFormat): string {
    "vn " + format(n.x) + " " + format(n.y) + " " + format(n.z)
  }

  function VertexLines(vs: seq<Vertex>, format: FloatFormat): seq<string> {
    if vs == [] then [] else VertexLines(vs[..|vs| - 1], format) + [VertexLine(vs[|vs| - 1], format)]
  }

  function TexCoordLines(ts: seq<TexCoord>, format: FloatFormat): seq<string> {
    if ts == [] then [] else TexCoordLines(ts[..|ts| - 1], format) + [TexCoordLine(ts[|ts| - 1], format)]
  }

  function NormalLines(ns: seq<Normal>, format: FloatFormat): seq<string> {
    if ns == [] then [] else NormalLines(ns[..|ns| - 1], format) + [NormalLine(ns[|ns| - 1], format)]
  }

  function FaceLines(fs: seq<Face>): (ls: seq<string>)
    ensures |ls| == |fs|
  {
    seq(|fs|, i requires 0 <= i < |fs| => FaceLine(fs[i]))
  }

  const Header: seq<string> := ["# Parsed .obj file", "", "# Vertices"]

  /** An optional section: a blank line, its title comment, its lines. */
  function Section(present: bool, title: string, lines: seq<string>): seq<string> {
    if present then ["", title] + lines else []
  }

  /** The saved file: header, vertices, then the texture, normal and face sections,
      each only when its list is non-empty. Segments are never written. */
  function Document(format: FloatFormat, vertices: seq<Vertex>, texCoords: seq<TexCoord>,
                    normals: seq<Normal>, faces: seq<Face>): seq<string>
  {
    Header + VertexLines(vertices, format)
    + Section(|texCoords| > 0, "# Texture Coordinates", TexCoordLines(texCoords, format))
    + Section(|normals| > 0, "# Normals", NormalLines(normals, format))
    + Section(|faces| > 0, "# Faces", FaceLines(faces))
  }

  lemma SpacedStep(keyword: string, ts: seq<string>, i: nat)
    requires i < |ts|
    ensures Spaced(keyword, ts[..i + 1]) == Spaced(keyword, ts[..i]) + " " + ts[i]
  {
    assert ts[..i + 1][..i] == ts[..i];
  }

  /** The inner loop of the face section: one reference per vertex, each written by
      the three writes of CornerText. */
  method WriteFace(f: Face) returns (line: string)
    ensures line == FaceLine(f)
  {
    ghost var ts := CornerTexts(f);
    line := "f";
    for i := 0 to |f.vertices|
      invariant line == Spaced("f", ts[..i])
    {
      SpacedStep("f", ts, i);
      line := line + " " + CornerText(f, i);
    }
    assert ts[..|f.vertices|] == ts;
  }

  method WriteVertices(vertices: seq<Vertex>, format: FloatFormat) returns (out: seq<string>)
    ensures out == VertexLines(vertices, format)
  {
    out := [];
    for i := 0 to |vertices|
      invariant out == VertexLines(vertices[..i], format)
    {
      assert vertices[..i + 1][..i] == vertices[..i];
      out := out + [VertexLine(vertices[i], format)];
    }
    assert vertices[..|vertices|] == vertices;
  }

  method WriteTexCoords(texCoords: seq<TexCoord>, format: FloatFormat) returns (out: seq<string>)
    ensures out == TexCoordLines(texCoords, format)
  {
    out := [];
    for i := 0 to |texCoords|
      invariant out == TexCoordLines(texCoords[..i], format)
    {
      assert texCoords[..i + 1][..i] == texCoords[..i];
      out := out + [TexCoordLine(texCoords[i], format)];
    }
    assert texCoords[..|texCoords|] == texCoords;
  }

  method WriteNormals(normals: seq<Normal>, format: FloatFormat) returns (out: seq<string>)
    ensures out == NormalLines(normals, format)
  {
    out := [];
    for i := 0 to |normals|
      invariant out == NormalLines(normals[..i], format)
    {
      assert normals[..i + 1][..i] == normals[..i];
      out := out + [NormalLine(normals[i], format)];
    }
    assert normals[..|normals|] == normals;
  }

  method WriteFaces(faces: seq<Face>) returns (out: seq<string>)
    ensures out == FaceLines(faces)
  {
    out := [];
    for i := 0 to |faces|
      invariant |out| == i && forall k :: 0 <= k < i ==> out[k] == FaceLine(faces[k])
    {
      var line := WriteFace(faces[i]);
      out := out + [line];
    }
  }

  /** The output of SaveToFile, given the vertex positions to print. */
  method WriteDocument(format: FloatFormat, vertices: seq<Vertex>, texCoords: seq<TexCoord>,
                       normals: seq<Normal>, faces: seq<Face>) returns (out: seq<string>)
    ensures out == Document(format, vertices, texCoords, normals, faces)
  {
    var section := WriteVertices(vertices, format);
    out := Header + section;
    section := [];
    if |texCoords| > 0 {
      section := WriteTexCoords(texCoords, format);
      section := ["", "# Texture Coordinates"] + section;
    }
    out := out + section;
    section := [];
    if |normals| > 0 {
      section := WriteNormals(normals, format);
      section := ["", "# Normals"] + section;
    }
    out := out + section;
    section := [];
    if |faces| > 0 {
      section := WriteFaces(faces);
      section := ["", "# Faces"] + section;
    }
    out := out + section;
  }
}
