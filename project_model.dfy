/** The Model of project/model.go: the lists read from the file, the `l` segments,
    and the scale and translation accumulators, changed in place by its methods. */
module ProjectModel {
  import opened ObjRecords
  import opened ObjLoad
  import opened ObjWriter
  import opened Topology
  import opened Transforms

  class Model {
    var vertices: seq<Vertex>
    var texCoords: seq<TexCoord>
    var normals: seq<Normal>
    var faces: seq<Face>
    var lines: seq<Segment>
    var scaler: real
    var translateX: real
    var translateY: real
    var translateZ: real

    /** `&Model{}`: empty lists, zero accumulators. */
    constructor()
      ensures vertices == [] && texCoords == [] && normals == [] && faces == [] && lines == []
      ensures scaler == 0.0 && translateX == 0.0 && translateY == 0.0 && translateZ == 0.0
    {
      vertices, texCoords, normals, faces, lines := [], [], [], [], [];
      scaler, translateX, translateY, translateZ := 0.0, 0.0, 0.0, 0.0;
    }

    /** The five lists as one record. */
    function Records(): Mesh
      reads this
    {
      Mesh(vertices, texCoords, normals, faces, lines)
    }

    /** Reads the lines of a file, appending to the lists (the loader that
        recognises `l` statements). */
    method LoadFromFile(fileLines: seq<string>, parseFloat: FloatParser)
      modifies this
      ensures Records() == LoadAll(old(Records()), fileLines, parseFloat, true)
      ensures scaler == old(scaler) && translateX == old(translateX)
      ensures translateY == old(translateY) && translateZ == old(translateZ)
    {
      var r := ScanLines(Records(), fileLines, parseFloat, true);
      vertices, texCoords, normals, faces, lines := r.vertices, r.texCoords, r.normals, r.faces, r.segments;
    }

    /** Builds the neighbour map of the segments, then walks from every key in
        `order` (the map's iteration order) and appends the faces found. */
    method ConvertLinesToFaces(order: seq<int>)
      requires KeyOrder(AdjacencyOf(lines), order)
      modifies this
      ensures lines == old(lines)
      ensures faces == old(faces) + Convert(AdjacencyOf(lines), order).faces
      ensures vertices == old(vertices) && texCoords == old(texCoords) && normals == old(normals)
      ensures scaler == old(scaler) && translateX == old(translateX)
      ensures translateY == old(translateY) && translateZ == old(translateZ)
    {
      var found := ConvertSegments(lines, order);
      faces := faces + found;
    }

    /** Multiplies the vertices and the translation accumulators per axis, and the
        scale accumulator by the X factor. */
    method Scale(sx: real, sy: real, sz: real)
      modifies this
      ensures |vertices| == |old(vertices)|
      ensures forall i :: 0 <= i < |vertices| ==> vertices[i] == Scaled(old(vertices)[i], sx, sy, sz)
      ensures scaler == old(scaler) * sx
      ensures translateX == old(translateX) * sx && translateY == old(translateY) * sy
      ensures translateZ == old(translateZ) * sz
      ensures texCoords == old(texCoords) && normals == old(normals) && faces == old(faces) && lines == old(lines)
    {
      scaler := scaler * sx;
      translateX := translateX * sx;
      translateY := translateY * sy;
      translateZ := translateZ * sz;
      var moved := vertices;
      for i := 0 to |moved|
        invariant |moved| == |old(vertices)|
        invariant forall k :: 0 <= k < i ==> moved[k] == Scaled(old(vertices)[k], sx, sy, sz)
        invariant forall k :: i <= k < |moved| ==> moved[k] == old(vertices)[k]
      {
        var v := moved[i];
        moved := moved[i := Vertex(v.x * sx, v.y * sy, v.z * sz)];
      }
      vertices := moved;
    }

    /** Adds the shift to the translation accumulators and to every vertex. */
    method Translate(tx: real, ty: real, tz: real)
      modifies this
      ensures |vertices| == |old(vertices)|
      ensures forall i :: 0 <= i < |vertices| ==> vertices[i] == Translated(old(vertices)[i], tx, ty, tz)
      ensures translateX == old(translateX) + tx && translateY == old(translateY) + ty
      ensures translateZ == old(translateZ) + tz && scaler == old(scaler)
      ensures texCoords == old(texCoords) && normals == old(normals) && faces == old(faces) && lines == old(lines)
    {
      translateX := translateX + tx;
      translateY := translateY + ty;
      translateZ := translateZ + tz;
      var moved := vertices;
      for i := 0 to |moved|
        invariant |moved| == |old(vertices)|
        invariant forall k :: 0 <= k < i ==> moved[k] == Translated(old(vertices)[k], tx, ty, tz)
        invariant forall k :: i <= k < |moved| ==> moved[k] == old(vertices)[k]
      {
        var v := moved[i];
        moved := moved[i := Vertex(v.x + tx, v.y + ty, v.z + tz)];
      }
      vertices := moved;
    }

    /** Turns every vertex about X, then Y, then Z, one vertex at a time; the
        accumulators are left as they are. */
    method Rotate(rx: Turn, ry: Turn, rz: Turn)
      modifies this
      ensures |vertices| == |old(vertices)|
      ensures forall i :: 0 <= i < |vertices| ==> vertices[i] == Rotated(old(vertices)[i], rx, ry, rz)
      ensures scaler == old(scaler) && translateX == old(translateX)
      ensures translateY == old(translateY) && translateZ == old(translateZ)
      ensures texCoords == old(texCoords) && normals == old(normals) && faces == old(faces) && lines == old(lines)
    {
      var moved := vertices;
      for i := 0 to |moved|
        invariant |moved| == |old(vertices)|
        invariant forall k :: 0 <= k < i ==> moved[k] == Rotated(old(vertices)[k], rx, ry, rz)
        invariant forall k :: i <= k < |moved| ==> moved[k] == old(vertices)[k]
      {
        var v := moved[i];
        ghost var original := v;
        var y := v.y * rx.cos - v.z * rx.sin;
        var z := v.y * rx.sin + v.z * rx.cos;
        v := v.(y := y, z := z);
        ghost var aboutX := v;
        assert aboutX == RotatedX(original, rx);
        var x := v.x * ry.cos + v.z * ry.sin;
        z := -v.x * ry.sin + v.z * ry.cos;
        v := v.(x := x, z := z);
        ghost var aboutY := v;
        assert aboutY == RotatedY(aboutX, ry);
        x := v.x * rz.cos - v.y * rz.sin;
        y := v.x * rz.sin + v.y * rz.cos;
        v := v.(x := x, y := y);
        assert v == RotatedZ(aboutY, rz);
        moved := moved[i := v];
      }
      vertices := moved;
    }

    /** The lines written to the output file; the vertices are written as they are. */
    method SaveToFile(format: FloatFormat) returns (out: seq<string>)
      ensures out == Document(format, vertices, texCoords, normals, faces)
    {
      out := WriteDocument(format, vertices, texCoords, normals, faces);
    }
  }

  /** The body of ConvertLinesToFaces: the neighbour map of the segments, then a
      walk from every key of `order` not yet visited, keeping the paths of more than
      two vertices as faces. */
  method ConvertSegments(segments: seq<Segment>, order: seq<int>) returns (found: seq<Face>)
    requires KeyOrder(AdjacencyOf(segments), order)
    ensures found == Convert(AdjacencyOf(segments), order).faces
  {
    var lineMap := BuildLineMap(segments);
    var visitedLines: set<int> := {};
    found := [];
    for k := 0 to |order|
      invariant KeysIn(lineMap, order[..k])
      invariant found == Convert(lineMap, order[..k]).faces
      invariant visitedLines == Convert(lineMap, order[..k]).visited
    {
      ConvertStep(lineMap, order, k);
      var start := order[k];
      if start !in visitedLines {
        var face;
        face, visitedLines := WalkFace(lineMap, start, visitedLines);
        if |face| > 2 {
          found := found + [Face(face, [], [])];
        }
      }
    }
    assert order[..|order|] == order;
  }

  /** The first loop of ConvertLinesToFaces: both ends of every segment get the
      other end appended to their neighbour list. */
  method BuildLineMap(segments: seq<Segment>) returns (lineMap: Adjacency)
    ensures lineMap == AdjacencyOf(segments)
  {
    lineMap := map[];
    for i := 0 to |segments|
      invariant lineMap == AdjacencyOf(segments[..i])
    {
      assert segments[..i + 1][..i] == segments[..i];
      var line := segments[i];
      lineMap := lineMap[line.start := Neighbours(lineMap, line.start) + [line.end]];
      lineMap := lineMap[line.end := Neighbours(lineMap, line.end) + [line.start]];
    }
    assert segments[..|segments|] == segments;
  }

  /** The neighbour scan: the first neighbour not yet visited, or -1. */
  method NextUnvisited(ns: seq<int>, visited: set<int>) returns (next: int)
    ensures next == FirstUnvisited(ns, visited)
  {
    next := -1;
    var j := 0;
    while j < |ns|
      invariant 0 <= j <= |ns| && next == -1
      invariant forall q :: 0 <= q < j ==> ns[q] in visited
    {
      if ns[j] !in visited {
        next := ns[j];
        break;
      }
      j := j + 1;
    }
    FirstUnvisitedAt(ns, visited, j);
  }

  /** The inner loop of ConvertLinesToFaces: from `start`, mark the current vertex,
      append it to the face and move to its first unvisited neighbour, until there
      is none (or it is `start`). */
  method WalkFace(lineMap: Adjacency, start: int, visitedLines: set<int>) returns (face: seq<int>, visitedAfter: set<int>)
    requires Closed(lineMap) && start in lineMap && start !in visitedLines
    ensures Trail(face, visitedAfter) == Walk(lineMap, start, start, visitedLines)
  {
    face, visitedAfter := [], visitedLines;
    var current := start;
    while true
      invariant current in lineMap && current !in visitedAfter
      invariant Walk(lineMap, start, start, visitedLines)
        == Trail(face + Walk(lineMap, start, current, visitedAfter).path, Walk(lineMap, start, current, visitedAfter).seen)
      decreases |lineMap.Keys - visitedAfter|
    {
      WalkAppend(lineMap, start, current, visitedAfter, face, Walk(lineMap, start, start, visitedLines));
      Shrinks(lineMap.Keys, visitedAfter, current);
      face := face + [current];
      visitedAfter := visitedAfter + {current};
      var next := NextUnvisited(Neighbours(lineMap, current), visitedAfter);
      if next == -1 {
        return;
      }
      current := next;
      if current == start {
        return;
      }
    }
  }
}
