/** The records of the OBJ subset (`v`, `vt`, `vn`, `f`, `l`) and the per-line
    parsers that build them. Both variants of the program (project/model.go and
    go/model.go) carry the same parser code, so it is defined once here. */
module ObjRecords {
  import opened ObjText

  /** strconv.ParseFloat, whose float64 results are taken as reals. */
  type FloatParser = string -> Option<real>

  datatype Vertex = Vertex(x: real, y: real, z: real)
  datatype TexCoord = TexCoord(u: real, v: real)
  datatype Normal = Normal(x: real, y: real, z: real)

  /** Zero-based indices; texCoords and normals may be shorter than vertices. */
  datatype Face = Face(vertices: seq<int>, texCoords: seq<int>, normals: seq<int>)

  /** An `l` statement, zero-based. */
  datatype Segment = Segment(start: int, end: int)

  datatype ParseError =
    | FieldCount
    | BadCoordinate
    | BadVertexIndex
    | BadTexCoordIndex
    | BadNormalIndex
    | BadStartIndex
    | BadEndIndex

  datatype Result<T> = Ok(value: T) | Err(error: ParseError)

  /** The fields after the keyword: `strings.Fields(line)[1:]`. */
  function Arguments(line: string): seq<string>
    requires Fields(line) != []
  {
    Fields(line)[1..]
  }

  /** ParseFloat applied to every field, failing if any field fails. */
  function Floats(fields: seq<string>, parseFloat: FloatParser): (r: Option<seq<real>>)
    ensures r.Some? <==> forall i :: 0 <= i < |fields| ==> parseFloat(fields[i]).Some?
    ensures r.Some? ==> |r.value| == |fields|
    ensures r.Some? ==> forall i :: 0 <= i < |fields| ==> r.value[i] == parseFloat(fields[i]).value
  {
    if fields == [] then Some([])
    else
      match (parseFloat(fields[0]), Floats(fields[1..], parseFloat))
      case (Some(x), Some(xs)) => Some([x] + xs)
      case _ => None
  }

  /** `v x y z`: exactly three coordinates after the keyword. */
  function ParseVertex(line: string, parseFloat: FloatParser): (r: Result<Vertex>)
    requires Fields(line) != []
    ensures |Arguments(line)| != 3 ==> r == Err(FieldCount)
    ensures r.Ok? <==> |Arguments(line)| == 3 && Floats(Arguments(line), parseFloat).Some?
    ensures r.Ok? ==> var c := Floats(Arguments(line), parseFloat).value; r.value == Vertex(c[0], c[1], c[2])
  {
    var args := Arguments(line);
    if |args| != 3 then Err(FieldCount)
    else match Floats(args, parseFloat)
      case None => Err(BadCoordinate)
      case Some(c) => Ok(Vertex(c[0], c[1], c[2]))
  }

  /** `vt u v`: exactly two coordinates after the keyword. */
  function ParseTexCoord(line: string, parseFloat: FloatParser): (r: Result<TexCoord>)
    requires Fields(line) != []
    ensures |Arguments(line)| != 2 ==> r == Err(FieldCount)
    ensures r.Ok? <==> |Arguments(line)| == 2 && Floats(Arguments(line), parseFloat).Some?
    ensures r.Ok? ==> var c := Floats(Arguments(line), parseFloat).value; r.value == TexCoord(c[0], c[1])
  {
    var args := Arguments(line);
    if |args| != 2 then Err(FieldCount)
    else match Floats(args, parseFloat)
      case None => Err(BadCoordinate)
      case Some(c) => Ok(TexCoord(c[0], c[1]))
  }

  /** `vn x y z`: exactly three coordinates after the keyword. */
  function ParseNormal(line: string, parseFloat: FloatParser): (r: Result<Normal>)
    requires Fields(line) != []
    ensures |Arguments(line)| != 3 ==> r == Err(FieldCount)
    ensures r.Ok? <==> |Arguments(line)| == 3 && Floats(Arguments(line), parseFloat).Some?
    ensures r.Ok? ==> var c := Floats(Arguments(line), parseFloat).value; r.value == Normal(c[0], c[1], c[2])
  {
    var args := Arguments(line);
    if |args| != 3 then Err(FieldCount)
    else match Floats(args, parseFloat)
      case None => Err(BadCoordinate)
      case Some(c) => Ok(Normal(c[0], c[1], c[2]))
  }

  /** `l a b`: exactly two integer fields, stored one lower. */
  function ParseLine(line: string): (r: Result<Segment>)
    requires Fields(line) != []
    ensures r.Ok? <==> |Arguments(line)| == 2 && Atoi(Arguments(line)[0]).Some? && Atoi(Arguments(line)[1]).Some?
    ensures r.Ok? ==> r.value == Segment(Atoi(Arguments(line)[0]).value - 1, Atoi(Arguments(line)[1]).value - 1)
  {
    var args := Arguments(line);
    if |args| != 2 then Err(FieldCount)
    else match Atoi(args[0])
      case None => Err(BadStartIndex)
      case Some(a) =>
        match Atoi(args[1])
        case None => Err(BadEndIndex)
        case Some(b) => Ok(Segment(a - 1, b - 1))
  }

  // ---------------------------------------------------------------- faces

  /** One `v[/t[/n]]` reference of a face, already zero-based. */
  datatype Corner = Corner(vertex: int, texCoord: Option<int>, normal: Option<int>)

  /** The optional component `k` of a split reference: present when it exists and is non-empty. */
  predicate HasComponent(parts: seq<string>, k: nat) {
    k < |parts| && parts[k] != []
  }

  /** One face reference: the first `/`-component must be an integer; the second and
      third are used when present and non-empty and must then be integers; any
      further components are ignored. */
  function ParseCorner(token: string): (r: Result<Corner>)
    ensures var parts := Split(token, '/');
      r.Ok? <==>
        && Atoi(parts[0]).Some?
        && (HasComponent(parts, 1) ==> Atoi(parts[1]).Some?)
        && (HasComponent(parts, 2) ==> Atoi(parts[2]).Some?)
    ensures var parts := Split(token, '/');
      r.Ok? ==>
        && r.value.vertex == Atoi(parts[0]).value - 1
        && (r.value.texCoord.Some? <==> HasComponent(parts, 1))
        && (r.value.texCoord.Some? ==> r.value.texCoord.value == Atoi(parts[1]).value - 1)
        && (r.value.normal.Some? <==> HasComponent(parts, 2))
        && (r.value.normal.Some? ==> r.value.normal.value == Atoi(parts[2]).value - 1)
  {
    var parts := Split(token, '/');
    match Atoi(parts[0])
    case None => Err(BadVertexIndex)
    case Some(v) =>
      if HasComponent(parts, 1) && Atoi(parts[1]).None? then Err(BadTexCoordIndex)
      else if HasComponent(parts, 2) && Atoi(parts[2]).None? then Err(BadNormalIndex)
      else
        var t := if HasComponent(parts, 1) then Some(Atoi(parts[1]).value - 1) else None;
        var n := if HasComponent(parts, 2) then Some(Atoi(parts[2]).value - 1) else None;
        Ok(Corner(v - 1, t, n))
  }

  function OptionList(o: Option<int>): seq<int> {
    if o.Some? then [o.value] else []
  }

  /** A face with one more corner appended to each of its lists. */
  function AddCorner(f: Face, c: Corner): Face {
    Face(f.vertices + [c.vertex], f.texCoords + OptionList(c.texCoord), f.normals + OptionList(c.normal))
  }

  /** The face that the references `tokens` describe, or the first error among them. */
  function FaceOfTokens(tokens: seq<string>): Result<Face>
  {
    if tokens == [] then Ok(Face([], [], []))
    else
      match FaceOfTokens(tokens[..|tokens| - 1])
      case Err(e) => Err(e)
      case Ok(f) =>
        match ParseCorner(tokens[|tokens| - 1])
        case Err(e) => Err(e)
        case Ok(c) => Ok(AddCorner(f, c))
  }

  /** What parseFace computes for `line`. */
  function FaceOf(line: string): Result<Face>
    requires Fields(line) != []
  {
    FaceOfTokens(Arguments(line))
  }

  /** An error in the first k references is the error of the whole face. */
  lemma {:induction false} FirstErrorSticks(tokens: seq<string>, k: nat)
    requires k <= |tokens| && FaceOfTokens(tokens[..k]).Err?
    ensures FaceOfTokens(tokens) == FaceOfTokens(tokens[..k])
    decreases |tokens| - k
  {
    if k < |tokens| {
      assert tokens[..k + 1][..k] == tokens[..k];
      FirstErrorSticks(tokens, k + 1);
    } else {
      assert tokens[..k] == tokens;
    }
  }

  /** The body of parseFace's loop for one reference: split on `/`, convert the
      vertex index and, when present and non-empty, the texture and normal indices. */
  method ParseReference(token: string) returns (r: Result<Corner>)
    ensures r == ParseCorner(token)
  {
    var vertexData := Split(token, '/');
    var vIdx := Atoi(vertexData[0]);
    if vIdx.None? {
      return Err(BadVertexIndex);
    }
    var texCoord, normal := None, None;
    if |vertexData| > 1 && vertexData[1] != [] {
      var tIdx := Atoi(vertexData[1]);
      if tIdx.None? {
        return Err(BadTexCoordIndex);
      }
      texCoord := Some(tIdx.value - 1);
    }
    if |vertexData| > 2 && vertexData[2] != [] {
      var nIdx := Atoi(vertexData[2]);
      if nIdx.None? {
        return Err(BadNormalIndex);
      }
      normal := Some(nIdx.value - 1);
    }
    r := Ok(Corner(vIdx.value - 1, texCoord, normal));
  }

  /** parseFace: converts each reference to zero-based indices, appending them to the
      three lists; the first bad component is the error. */
  method ParseFace(line: string) returns (r: Result<Face>)
    requires Fields(line) != []
    ensures r == FaceOf(line)
  {
    var parts := Fields(line)[1..];
    var vertices, texCoords, normals := [], [], [];
    var i := 0;
    while i < |parts|
      invariant 0 <= i <= |parts|
      invariant FaceOfTokens(parts[..i]) == Ok(Face(vertices, texCoords, normals))
    {
      assert parts[..i + 1][..i] == parts[..i];
      var corner := ParseReference(parts[i]);
      if corner.Err? {
        FirstErrorSticks(parts, i + 1);
        return Err(corner.error);
      }
      vertices := vertices + [corner.value.vertex];
      texCoords := texCoords + OptionList(corner.value.texCoord);
      normals := normals + OptionList(corner.value.normal);
      i := i + 1;
    }
    assert parts[..i] == parts;
    r := Ok(Face(vertices, texCoords, normals));
  }

  // ---------------------------------------------------------------- face properties

  /** Every reference of the face parses. */
  predicate AllCornersParse(tokens: seq<string>) {
    forall i :: 0 <= i < |tokens| ==> ParseCorner(tokens[i]).Ok?
  }

  /** The face parses exactly when every one of its references does. */
  lemma {:induction false} FaceParses(tokens: seq<string>)
    ensures FaceOfTokens(tokens).Ok? <==> AllCornersParse(tokens)
  {
    if tokens != [] {
      var init := tokens[..|tokens| - 1];
      FaceParses(init);
      assert forall i :: 0 <= i < |init| ==> init[i] == tokens[i];
    }
  }

  /** One vertex index per reference, in order; the optional lists are never longer. */
  lemma {:induction false} FaceVertices(tokens: seq<string>)
    requires AllCornersParse(tokens)
    ensures FaceOfTokens(tokens).Ok?
    ensures var f := FaceOfTokens(tokens).value;
      && |f.vertices| == |tokens|
      && (forall i :: 0 <= i < |tokens| ==> f.vertices[i] == ParseCorner(tokens[i]).value.vertex)
      && |f.texCoords| <= |f.vertices| && |f.normals| <= |f.vertices|
  {
    if tokens != [] {
      var init := tokens[..|tokens| - 1];
      assert forall i :: 0 <= i < |init| ==> init[i] == tokens[i];
      FaceVertices(init);
    }
  }

  /** When every reference has a texture component the texture list is aligned with
      the vertices, entry by entry. */
  lemma {:induction false} FaceTexCoords(tokens: seq<string>)
    requires AllCornersParse(tokens)
    requires forall i :: 0 <= i < |tokens| ==> ParseCorner(tokens[i]).value.texCoord.Some?
    ensures FaceOfTokens(tokens).Ok?
    ensures var f := FaceOfTokens(tokens).value;
      && |f.texCoords| == |tokens|
      && forall i :: 0 <= i < |tokens| ==> f.texCoords[i] == ParseCorner(tokens[i]).value.texCoord.value
  {
    FaceParses(tokens);
    if tokens != [] {
      var init := tokens[..|tokens| - 1];
      assert forall i :: 0 <= i < |init| ==> init[i] == tokens[i];
      FaceTexCoords(init);
      var c := ParseCorner(tokens[|tokens| - 1]).value;
      assert FaceOfTokens(tokens) == Ok(AddCorner(FaceOfTokens(init).value, c));
    }
  }

  /** ... and when none has, the texture list is empty. */
  lemma {:induction false} FaceWithoutTexCoords(tokens: seq<string>)
    requires AllCornersParse(tokens)
    requires forall i :: 0 <= i < |tokens| ==> ParseCorner(tokens[i]).value.texCoord.None?
    ensures FaceOfTokens(tokens).Ok? && FaceOfTokens(tokens).value.texCoords == []
  {
    FaceParses(tokens);
    if tokens != [] {
      var init := tokens[..|tokens| - 1];
      assert forall i :: 0 <= i < |init| ==> init[i] == tokens[i];
      FaceWithoutTexCoords(init);
      var c := ParseCorner(tokens[|tokens| - 1]).value;
      assert FaceOfTokens(tokens) == Ok(AddCorner(FaceOfTokens(init).value, c));
    }
  }

  /** The same for the normal component. */
  lemma {:induction false} FaceNormals(tokens: seq<string>)
    requires AllCornersParse(tokens)
    requires forall i :: 0 <= i < |tokens| ==> ParseCorner(tokens[i]).value.normal.Some?
    ensures FaceOfTokens(tokens).Ok?
    ensures var f := FaceOfTokens(tokens).value;
      && |f.normals| == |tokens|
      && forall i :: 0 <= i < |tokens| ==> f.normals[i] == ParseCorner(tokens[i]).value.normal.value
  {
    FaceParses(tokens);
    if tokens != [] {
      var init := tokens[..|tokens| - 1];
      assert forall i :: 0 <= i < |init| ==> init[i] == tokens[i];
      FaceNormals(init);
      var c := ParseCorner(tokens[|tokens| - 1]).value;
      assert FaceOfTokens(tokens) == Ok(AddCorner(FaceOfTokens(init).value, c));
    }
  }

  /** ... and when none has, the normal list is empty. */
  lemma {:induction false} FaceWithoutNormals(tokens: seq<string>)
    requires AllCornersParse(tokens)
    requires forall i :: 0 <= i < |tokens| ==> ParseCorner(tokens[i]).value.normal.None?
    ensures FaceOfTokens(tokens).Ok? && FaceOfTokens(tokens).value.normals == []
  {
    FaceParses(tokens);
    if tokens != [] {
      var init := tokens[..|tokens| - 1];
      assert forall i :: 0 <= i < |init| ==> init[i] == tokens[i];
      FaceWithoutNormals(init);
      var c := ParseCorner(tokens[|tokens| - 1]).value;
      assert FaceOfTokens(tokens) == Ok(AddCorner(FaceOfTokens(init).value, c));
    }
  }

  /** The texture indices of the references that have one, in reference order. */
  function PresentTexCoords(tokens: seq<string>): seq<int>
    requires AllCornersParse(tokens)
  {
    if tokens == [] then []
    else OptionList(ParseCorner(tokens[0]).value.texCoord) + PresentTexCoords(tokens[1..])
  }

  /** The normal indices of the references that have one, in reference order. */
  function PresentNormals(tokens: seq<string>): seq<int>
    requires AllCornersParse(tokens)
  {
    if tokens == [] then []
    else OptionList(ParseCorner(tokens[0]).value.normal) + PresentNormals(tokens[1..])
  }

  lemma InitParses(tokens: seq<string>)
    requires tokens != [] && AllCornersParse(tokens)
    ensures AllCornersParse(tokens[..|tokens| - 1]) && AllCornersParse(tokens[1..])
  {
    var init, rest := tokens[..|tokens| - 1], tokens[1..];
    assert forall i :: 0 <= i < |init| ==> init[i] == tokens[i];
    assert forall i :: 0 <= i < |rest| ==> rest[i] == tokens[i + 1];
  }

  lemma {:induction false} PresentTexCoordsSnoc(tokens: seq<string>)
    requires tokens != [] && AllCornersParse(tokens)
    ensures AllCornersParse(tokens[..|tokens| - 1])
    ensures PresentTexCoords(tokens) == PresentTexCoords(tokens[..|tokens| - 1])
                                        + OptionList(ParseCorner(tokens[|tokens| - 1]).value.texCoord)
  {
    InitParses(tokens);
    var init, rest := tokens[..|tokens| - 1], tokens[1..];
    if |tokens| == 1 {
      assert init == [] && rest == [];
    } else {
      assert rest[..|rest| - 1] == init[1..] && init[0] == tokens[0];
      InitParses(init);
      PresentTexCoordsSnoc(rest);
    }
  }

  lemma {:induction false} PresentNormalsSnoc(tokens: seq<string>)
    requires tokens != [] && AllCornersParse(tokens)
    ensures AllCornersParse(tokens[..|tokens| - 1])
    ensures PresentNormals(tokens) == PresentNormals(tokens[..|tokens| - 1])
                                      + OptionList(ParseCorner(tokens[|tokens| - 1]).value.normal)
  {
    InitParses(tokens);
    var init, rest := tokens[..|tokens| - 1], tokens[1..];
    if |tokens| == 1 {
      assert init == [] && rest == [];
    } else {
      assert rest[..|rest| - 1] == init[1..] && init[0] == tokens[0];
      InitParses(init);
      PresentNormalsSnoc(rest);
    }
  }

  /** In general the optional lists are compacted: each holds the components of the
      references that have one, in reference order. In a face that mixes forms they
      therefore no longer line up with the vertices. */
  lemma {:induction false} FaceOptionalLists(tokens: seq<string>)
    requires AllCornersParse(tokens)
    ensures FaceOfTokens(tokens).Ok?
    ensures FaceOfTokens(tokens).value.texCoords == PresentTexCoords(tokens)
    ensures FaceOfTokens(tokens).value.normals == PresentNormals(tokens)
  {
    FaceParses(tokens);
    if tokens != [] {
      var init := tokens[..|tokens| - 1];
      PresentTexCoordsSnoc(tokens);
      PresentNormalsSnoc(tokens);
      FaceOptionalLists(init);
      var c := ParseCorner(tokens[|tokens| - 1]).value;
      assert FaceOfTokens(tokens) == Ok(AddCorner(FaceOfTokens(init).value, c));
    }
  }

  /** A reference whose vertex component is empty, like `/2`, is rejected. */
  lemma EmptyVertexComponent(rest: string)
    ensures ParseCorner("/" + rest) == Err(BadVertexIndex)
  {
    SplitCons([], '/', rest);
    assert [] + ['/'] + rest == "/" + rest;
  }
}
