/** The Model of go/model.go: the lists read from the file and the scale and
    translation that SaveToFile applies to the vertices as it prints them. */
module GoModel {
  import opened ObjRecords
  import opened ObjLoad
  import opened ObjWriter
  import opened Transforms

  /** The vertex positions SaveToFile prints: every vertex scaled by `scale`, then shifted. */
  function Placements(vs: seq<Vertex>, scale: real, tx: real, ty: real, tz: real): seq<Vertex> {
    seq(|vs|, i requires 0 <= i < |vs| => Placed(vs[i], scale, tx, ty, tz))
  }

  class Model {
    var vertices: seq<Vertex>
    var texCoords: seq<TexCoord>
    var normals: seq<Normal>
    var faces: seq<Face>
    var scale: real
    var translateX: real
    var translateY: real
    var translateZ: real

    /** `&Model{}`: empty lists, zero scale and translation. */
    constructor()
      ensures vertices == [] && texCoords == [] && normals == [] && faces == []
      ensures scale == 0.0 && translateX == 0.0 && translateY == 0.0 && translateZ == 0.0
    {
      vertices, texCoords, normals, faces := [], [], [], [];
      scale, translateX, translateY, translateZ := 0.0, 0.0, 0.0, 0.0;
    }

    /** The four lists as one record; this variant has no segments. */
    function Records(): Mesh
      reads this
    {
      Mesh(vertices, texCoords, normals, faces, [])
    }

    /** Reads the lines of a file, appending to the lists; `l` lines are ignored. */
    method LoadFromFile(fileLines: seq<string>, parseFloat: FloatParser)
      modifies this
      ensures Records() == LoadAll(old(Records()), fileLines, parseFloat, false)
      ensures scale == old(scale) && translateX == old(translateX)
      ensures translateY == old(translateY) && translateZ == old(translateZ)
    {
      var r := ScanLines(Records(), fileLines, parseFloat, false);
      LoadAllContents(Records(), fileLines, parseFloat, false);
      vertices, texCoords, normals, faces := r.vertices, r.texCoords, r.normals, r.faces;
    }

    /** Only accumulates the shift; the vertices move when they are printed. */
    method Translate(tx: real, ty: real, tz: real)
      modifies this
      ensures translateX == old(translateX) + tx && translateY == old(translateY) + ty
      ensures translateZ == old(translateZ) + tz
      ensures vertices == old(vertices) && texCoords == old(texCoords) && normals == old(normals)
      ensures faces == old(faces) && scale == old(scale)
    {
      translateX := translateX + tx;
      translateY := translateY + ty;
      translateZ := translateZ + tz;
    }

    /** Turns every vertex about X in a first pass, about Y in a second and about Z
        in a third. */
    method Rotate(rx: Turn, ry: Turn, rz: Turn)
      modifies this
      ensures |vertices| == |old(vertices)|
      ensures forall i :: 0 <= i < |vertices| ==> vertices[i] == Rotated(old(vertices)[i], rx, ry, rz)
      ensures texCoords == old(texCoords) && normals == old(normals) && faces == old(faces)
      ensures scale == old(scale) && translateX == old(translateX)
      ensures translateY == old(translateY) && translateZ == old(translateZ)
    {
      var moved := TurnAboutX(vertices, rx);
      moved := TurnAboutY(moved, ry);
      moved := TurnAboutZ(moved, rz);
      vertices := moved;
    }

    /** The lines written to the output file: each vertex is printed scaled by
        `scale` and shifted by the accumulated translation. */
    method SaveToFile(format: FloatFormat) returns (out: seq<string>)
      ensures out == Document(format, Placements(vertices, scale, translateX, translateY, translateZ),
                              texCoords, normals, faces)
    {
      var placed: seq<Vertex> := [];
      for i := 0 to |vertices|
        invariant |placed| == i
        invariant forall k :: 0 <= k < i ==> placed[k] == Placed(vertices[k], scale, translateX, translateY, translateZ)
      {
        var v := vertices[i];
        placed := placed + [Vertex(v.x * scale + translateX, v.y * scale + translateY, v.z * scale + translateZ)];
      }
      assert placed == Placements(vertices, scale, translateX, translateY, translateZ);
      out := WriteDocument(format, placed, texCoords, normals, faces);
    }
  }

  /** The first pass of Rotate: every vertex turned about the X axis. */
  method TurnAboutX(vs: seq<Vertex>, t: Turn) returns (moved: seq<Vertex>)
    ensures |moved| == |vs| && forall k :: 0 <= k < |vs| ==> moved[k] == RotatedX(vs[k], t)
  {
    moved := vs;
    for i := 0 to |moved|
      invariant |moved| == |vs|
      invariant forall k :: 0 <= k < i ==> moved[k] == RotatedX(vs[k], t)
      invariant forall k :: i <= k < |moved| ==> moved[k] == vs[k]
    {
      var v := moved[i];
      var y := v.y * t.cos - v.z * t.sin;
      var z := v.y * t.sin + v.z * t.cos;
      moved := moved[i := v.(y := y, z := z)];
    }
  }

  /** The second pass: about the Y axis. */
  method TurnAboutY(vs: seq<Vertex>, t: Turn) returns (moved: seq<Vertex>)
    ensures |moved| == |vs| && forall k :: 0 <= k < |vs| ==> moved[k] == RotatedY(vs[k], t)
  {
    moved := vs;
    for i := 0 to |moved|
      invariant |moved| == |vs|
      invariant forall k :: 0 <= k < i ==> moved[k] == RotatedY(vs[k], t)
      invariant forall k :: i <= k < |moved| ==> moved[k] == vs[k]
    {
      var v := moved[i];
      var x := v.x * t.cos + v.z * t.sin;
      var z := -v.x * t.sin + v.z * t.cos;
      moved := moved[i := v.(x := x, z := z)];
    }
  }

  /** The third pass: about the Z axis. */
  method TurnAboutZ(vs: seq<Vertex>, t: Turn) returns (moved: seq<Vertex>)
    ensures |moved| == |vs| && forall k :: 0 <= k < |vs| ==> moved[k] == RotatedZ(vs[k], t)
  {
    moved := vs;
    for i := 0 to |moved|
      invariant |moved| == |vs|
      invariant forall k :: 0 <= k < i ==> moved[k] == RotatedZ(vs[k], t)
      invariant forall k :: i <= k < |moved| ==> moved[k] == vs[k]
    {
      var v := moved[i];
      var x := v.x * t.cos - v.y * t.sin;
      var y := v.x * t.sin + v.y * t.cos;
      moved := moved[i := v.(x := x, y := y)];
    }
  }
}
