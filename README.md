# Wavefront OBJ subset: loader, face writer and line-to-face reconstruction

This project models the integer and index core of a small Go tool that reads,
transforms and rewrites Wavefront OBJ meshes, and proves properties of the model.
The tool exists in two near-identical variants, `project/model.go` and
`go/model.go`. Both are modelled:

- **The loader** (`LoadFromFile`). It classifies each line by its prefix: `v `,
  `vt `, `vn `, `f `, and also `l ` in the project variant. It passes the line to
  the record parser for that kind and appends the record only when parsing
  succeeds. Modules: `ObjLoad`, `ProjectModel.Model.LoadFromFile` and
  `GoModel.Model.LoadFromFile`. `ObjLoad.ScanLines` is the scan loop, proved equal
  to a fold `LoadAll` over the lines. The `withSegments` flag selects the
  variant's dispatch: true recognises `l` lines, false ignores them.
- **The record parsers** (`ObjRecords`):
  - `parseVertex`, `parseTexCoord` and `parseNormal` check the field count and
    convert each field.
  - `parseFace` splits each reference on `/`. It takes the first component as
    the vertex index, and the second and third when they are present and
    non-empty. Every index is rebased from 1 to 0.
  - `parseLine` reads two integer fields.
  - `ObjText` models the Go library calls they rely on: `strings.Fields`,
    `strings.Split`, `strings.HasPrefix`, `strconv.Atoi` and the `%d` verb.
- **The writer** (`ObjWriter`). `SaveToFile` prints each kind of record in its
  own section. Every section except the vertices appears only when its list is
  non-empty. A face corner is printed as index+1, then `/t` and `/n` when the
  parallel lists are long enough.
- **The round trips.** `ObjRoundTrip` proves that `parseFace` reads back what the
  writer printed. `ObjSaveLoad` proves the same for a whole saved file. Both hold
  for faces that are uniform (every corner `v`, every corner `v/t` or every corner
  `v/t/n`) and non-empty. The exceptions are proved too: a `v//n` face reads back
  with its normals as texture indices (`ObjRoundTrip.NormalsRereadAsTexCoords`), a
  face that mixes forms is written back with its indices on other corners
  (`ObjRoundTrip.MixedFaceMisaligned`), and a face with no corners is written as a
  bare `f` that the loader skips (`ObjSaveLoad.EmptyFaceSkipped`).
- **Line-to-face reconstruction** (`Topology`, `ProjectModel.ConvertSegments` and
  the methods beside it). `ConvertLinesToFaces` builds an insertion-ordered
  adjacency map from the segments. It then runs greedy walks that share one
  visited set and keeps every walk of more than two vertices as a face. Go's map
  iteration order is not fixed, so the order of start vertices is a parameter.
  Every general property is proved for every permutation of the map's keys.
- **The transforms** (`Transforms`, `Scale`/`Translate`/`Rotate`). Which fields
  each transform changes and which it leaves alone are stated exactly. The
  arithmetic is done on `real` coordinates.

Coordinates are reals. `strconv.ParseFloat` and the `%f` formatting are
parameters (`FloatParser`, `FloatFormat`). The cosines and sines of the rotation
angles are inputs (`Turn`). File and console I/O are not modelled: the loader
takes the lines the scanner yields, and the writer returns the lines it would
write.

Three points where the code does something other than what its structure
suggests:

- A malformed `f` line is dropped like any other malformed record. `parseFace`
  returns an error for a bad index (`project/model.go:181-211`), but
  `LoadFromFile` discards that error and goes on with the next line
  (`project/model.go:80-83`, `go/model.go:74-77`). See
  `ObjLoad.MalformedFaceDropped`.
- The walk in `ConvertLinesToFaces` is meant to stop when it gets back to its
  start vertex: the comment at `project/model.go:268` says so, and the
  `current == start` test at `project/model.go:269` checks for it. That test can
  never succeed. The start vertex is marked visited before any neighbour is
  chosen, and only unvisited neighbours are chosen. So every walk ends when the scan
  returns `-1`: either no unvisited neighbour is left, or the first one left is
  vertex `-1` (`Topology.StartCheckNeverFires`). Faces are simple paths that need
  not close. An open path of two segments becomes a
  triangle or nothing, depending on where the walk starts (`Topology.OrderMatters`).
- A neighbour index of `-1` coincides with the "no neighbour" sentinel of the
  scan, so a segment to vertex `-1` (written `0` in the file) ends the walk there.
  See `Topology.SentinelStopsWalk`.

## Model

| member | source | states |
|---|---|---|
| ObjText.Fields | project/model.go:102 | every piece `strings.Fields` returns is a non-empty run of non-space characters |
| ObjText.FieldsUnwords | project/model.go:102 | splitting space-joined tokens into fields gives back exactly those tokens |
| ObjText.FirstField | project/model.go:64-89 | a line starting with a keyword and a space has that keyword as its first field, so `Fields(line)[1:]` exists |
| ObjText.Split | project/model.go:185 | `strings.Split` returns at least one piece, so `vertexData[0]` always exists |
| ObjText.SplitJoin | project/model.go:185 | splitting on `/` inverts joining with `/` when no piece contains `/` |
| ObjText.NaturalText | project/model.go:373 | the decimal digits printed for a natural number have that number as their value |
| ObjText.Itoa | project/model.go:373 | the `%d` text of an integer is a non-empty token without spaces or `/` |
| ObjText.AtoiItoa | project/model.go:187 | `strconv.Atoi` reads back every integer `%d` printed, negative ones included |
| ObjRecords.Floats | project/model.go:107-123 | the fields convert exactly when every field parses, and the values come in field order |
| ObjRecords.ParseVertex | project/model.go:100-126 | a field count other than 3 is an error; success exactly when there are 3 fields and each parses; the vertex holds the three values in order (go/model.go:89-115 is the same) |
| ObjRecords.ParseTexCoord | project/model.go:129-149 | a field count other than 2 is an error; success exactly when both fields parse; u and v in order (go/model.go:118-138 is the same) |
| ObjRecords.ParseNormal | project/model.go:152-178 | a field count other than 3 is an error; success exactly when all three parse; the normal holds them in order (go/model.go:141-167 is the same) |
| ObjRecords.ParseLine | project/model.go:214-234 | success exactly when there are 2 fields and both are integers; the segment holds each value minus 1 |
| ObjRecords.ParseCorner | project/model.go:185-207 | a reference parses exactly when its first `/`-component is an integer and each present, non-empty second or third component is one; vertex = first − 1; texture/normal present exactly when that component is non-empty, and then = value − 1; later components ignored |
| ObjRecords.ParseReference | project/model.go:185-207 | the per-reference step of the loop computes `ParseCorner` |
| ObjRecords.ParseFace | project/model.go:181-211 | the loop over the fields after `f` computes `FaceOf`: the corners appended in order, or the first error (go/model.go:170-200 is the same loop) |
| ObjRecords.FirstErrorSticks | project/model.go:188-205 | once a reference fails, the references after it do not change the result |
| ObjRecords.FaceParses | project/model.go:184-208 | a face line parses exactly when every one of its references parses |
| ObjRecords.FaceVertices | project/model.go:184-191 | one vertex per reference, each the reference's first component minus 1; at most as many texture and normal indices as vertices |
| ObjRecords.FaceTexCoords | project/model.go:193-199 | when every reference has a texture component, the texture list holds them all, in order |
| ObjRecords.FaceWithoutTexCoords | project/model.go:193-199 | when no reference has a texture component, the texture list is empty |
| ObjRecords.FaceNormals | project/model.go:201-207 | when every reference has a normal component, the normal list holds them all, in order |
| ObjRecords.FaceWithoutNormals | project/model.go:201-207 | when no reference has a normal component, the normal list is empty |
| ObjRecords.FaceOptionalLists | project/model.go:193-207 | in general the texture and normal lists hold the components of the references that have one, in reference order, so in a face that mixes forms they do not line up with the vertices |
| ObjRecords.EmptyVertexComponent | project/model.go:187-190 | a reference with an empty first component, such as `/2`, is a vertex-index error |
| ObjLoad.PrefixesExclusive | project/model.go:63-89 | a line is classified as a kind exactly when it starts with that kind's keyword and a space, so the five prefixes never overlap |
| ObjLoad.ClassifiedKeyword | project/model.go:102 | a classified line has at least one field, and the first is the keyword |
| ObjLoad.OtherLines | project/model.go:63-89 | empty lines, comment lines and lines starting with white space match no case |
| ObjLoad.ScanLines | project/model.go:61-90 | the scan loop over the lines yields the fold `LoadAll` |
| ObjLoad.LoadLineAppends | project/model.go:63-89 | one line appends its record, if it parses, to its own list and changes nothing else |
| ObjLoad.LoadAllContents | project/model.go:61-90 | after a load, each list is its old contents followed by the parsed records of its kind, in file order |
| ObjLoad.IgnoredLine | go/model.go:57-78 | a line matching no case, or an `l` line in the go variant, leaves the model unchanged |
| ObjLoad.MalformedFaceDropped | project/model.go:79-83 | an `f` line that fails to parse leaves the whole model unchanged; the load goes on |
| ObjLoad.KeepVerticesCount | project/model.go:64-68 | the vertices kept from a list of lines are as many as its `v` lines that parse |
| ObjLoad.VertexCount | project/model.go:64-68 | after loading into an empty model, the vertex count equals the number of `v` lines that parse |
| ObjWriter.WriteFace | project/model.go:371-381 | the face line is `f` followed by each corner text after a space |
| ObjWriter.WriteFaces | project/model.go:368-383 | one face line per face, in order |
| ObjWriter.WriteVertices | project/model.go:347-349 | one `v` line per vertex, in order |
| ObjWriter.WriteTexCoords | project/model.go:352-357 | one `vt` line per texture coordinate, in order |
| ObjWriter.WriteNormals | project/model.go:360-365 | one `vn` line per normal, in order |
| ObjWriter.WriteDocument | project/model.go:343-383 | header, vertices, then the texture, normal and face sections, each only when its list is non-empty (go/model.go:211-251 has the same layout) |
| ObjRoundTrip.CornerTextJoins | project/model.go:373-379 | a corner text is its one to three printed indices joined by `/` |
| ObjRoundTrip.CornerTextToken | project/model.go:373-379 | a corner text is one field, with no white space inside |
| ObjRoundTrip.ReadReference | project/model.go:185-207 | a reference of one to three integer components parses to those values minus 1 |
| ObjRoundTrip.ReadPrinted | project/model.go:185-207 | a reference of one to three printed integers joined by `/` reads back each integer minus 1 |
| ObjRoundTrip.CornerReread | project/model.go:373-379 | parsing a written corner gives its vertex index back; the second slot holds the texture index, or the normal index when there is no texture; the third holds the normal only when both are present |
| ObjRoundTrip.SpacedUnwords | project/model.go:371-381 | the written face line is the keyword and the corner texts joined by single spaces |
| ObjRoundTrip.FaceLineFields | project/model.go:371-381 | the fields of a written face line are `f` and the corner texts, so parsing it parses exactly those references |
| ObjRoundTrip.RereadTokens | project/model.go:184-208 | references that each parse to the matching corner build the face those corners describe |
| ObjRoundTrip.RectangularReread | project/model.go:368-383 | for faces whose texture and normal lists are empty or full length, parsing the written line gives `Reread`, with normals moved to the texture slot when there are no textures |
| ObjRoundTrip.FaceRoundTrip | project/model.go:368-383 | when every corner has the same form (`v`, `v/t` or `v/t/n`), parsing the written face line gives the face back |
| ObjRoundTrip.NormalsRereadAsTexCoords | project/model.go:374-379 | a face with normals but no texture indices (`v//n`) is written as `v/n` and reads back with those normals as texture indices, so not as itself |
| ObjRoundTrip.MixedFaceRead | project/model.go:184-208 | `f 1 2/5 3` reads as vertices [0,1,2] with the single texture index 4 and no normals |
| ObjRoundTrip.MixedFaceText | project/model.go:371-381 | the face with vertices [0,1,2] and texture list [4] is written `f 1/5 2 3` |
| ObjRoundTrip.MixedFaceMisaligned | project/model.go:184-208 | `f 1 2/5 3` is written back as `f 1/5 2 3`: the texture index moves from the second corner to the first |
| ObjRoundTrip.IndexRebias | project/model.go:191 | the 0-based face [0,1,2] is written `f 1 2 3`, and `f 1 2 3` reads as vertices [0,1,2] |
| ObjSaveLoad.LoadAllAppend | project/model.go:61-90 | loading two runs of lines one after the other is loading their concatenation |
| ObjSaveLoad.LoadComments | project/model.go:343-369 | the header and section comment lines and the blank lines leave the model unchanged |
| ObjSaveLoad.LoadVertexLine | project/model.go:348 | a written `v` line loads as one vertex, each coordinate printed and parsed once |
| ObjSaveLoad.LoadTexCoordLine | project/model.go:355 | a written `vt` line loads as one texture coordinate, each value printed and parsed once |
| ObjSaveLoad.LoadNormalLine | project/model.go:363 | a written `vn` line loads as one normal, each coordinate printed and parsed once |
| ObjSaveLoad.SpacedPrefix | project/model.go:371-373 | a keyword followed by at least one item is written with the keyword and a space first |
| ObjSaveLoad.FaceLineIsStatement | project/model.go:371-373 | a written face with at least one corner is dispatched as an `f` line |
| ObjSaveLoad.LoadFaceStatement | project/model.go:79-83 | an `f` line that parses appends its face and changes nothing else |
| ObjSaveLoad.LoadFaceLine | project/model.go:371-381 | a written uniform face with at least one corner loads back as that face |
| ObjSaveLoad.EmptyFaceSkipped | project/model.go:371-381 | a face without corners is written as a bare `f`, which the loader ignores |
| ObjSaveLoad.LoadVertexLines | project/model.go:347-349 | the written vertex lines load as the reprinted vertices, in order |
| ObjSaveLoad.LoadTexCoordLines | project/model.go:354-356 | the written texture lines load as the reprinted texture coordinates, in order |
| ObjSaveLoad.LoadNormalLines | project/model.go:362-364 | the written normal lines load as the reprinted normals, in order |
| ObjSaveLoad.LoadFaceStatements | project/model.go:79-83 | a run of `f` lines that all parse appends their faces in order |
| ObjSaveLoad.FaceLinesAreStatements | project/model.go:370-382 | every written line of a savable face is an `f` line that parses to that face |
| ObjSaveLoad.LoadFaceLines | project/model.go:370-382 | for faces that are uniform and non-empty, the written face lines load back as the faces, in order (`NormalsRereadAsTexCoords`, `MixedFaceMisaligned` and `EmptyFaceSkipped` show the other faces) |
| ObjSaveLoad.LoadSection | project/model.go:352-369 | an optional section loads as its lines when present and as nothing otherwise |
| ObjSaveLoad.LoadBeforeFaces | project/model.go:343-365 | everything before the face section loads as the reprinted vertices, texture coordinates and normals |
| ObjSaveLoad.SaveLoad | project/model.go:335-387 | for a mesh whose faces are uniform and non-empty, loading a saved file into an empty model gives the reprinted vertices, texture coordinates and normals (each coordinate through the real `%f` and `ParseFloat`, so rounded), the same faces and no segments |
| ObjSaveLoad.SaveLoadExact | project/model.go:335-387 | when every coordinate of the mesh reads back as the value it was printed from (with Go's `%f`: at most six decimals) and its faces are uniform and non-empty, save-then-load restores the mesh except its segments |
| ObjSaveLoad.ExactVertices | project/model.go:348 | vertices whose every coordinate reads back as printed come back unchanged |
| ObjSaveLoad.ExactTexCoords | project/model.go:355 | texture coordinates whose every value reads back as printed come back unchanged |
| ObjSaveLoad.ExactNormals | project/model.go:363 | normals whose every coordinate reads back as printed come back unchanged |
| ObjSaveLoad.ExactZeroMesh | project/model.go:335-387 | the premise of `SaveLoadExact` can be met: a printer and a parser that agree on zero restore the one-vertex mesh at the origin with its triangle |
| Topology.AdjacencyOf | project/model.go:238-244 | every neighbour the map lists is itself a key |
| Topology.LinkClosed | project/model.go:242-243 | recording a segment in both directions keeps every listed neighbour a key |
| Topology.AdjacencyKeys | project/model.go:241-244 | the map's keys are exactly the endpoints of the segments |
| Topology.AdjacencyNeighbours | project/model.go:241-244 | n is listed as a neighbour of v exactly when some segment joins v and n |
| Topology.AdjacencyDegree | project/model.go:241-244 | the neighbour list of v has one entry per segment end at v |
| Topology.FirstUnvisitedIndex | project/model.go:258-263 | the scan stops at the first unvisited neighbour; everything before it is visited |
| Topology.FirstUnvisited | project/model.go:257-263 | a chosen next vertex is an unvisited neighbour |
| Topology.WalkMarks | project/model.go:254-256 | a walk starts at its start vertex and marks exactly its own vertices as visited |
| Topology.WalkFresh | project/model.go:252-272 | a walk's vertices are keys of the map, were unvisited before it, and never repeat |
| Topology.WalkShape | project/model.go:249-272 | a walk's shape: non-empty, starts at its start vertex, marks its vertices, visits only fresh keys, and has no repeats |
| Topology.WalkSteps | project/model.go:257-267 | each next vertex is the first neighbour, in insertion order, not yet globally visited |
| Topology.WalkEnd | project/model.go:264-271 | a walk ends only when the scan returns `-1` (no unvisited neighbour is left, or the first one left is vertex `-1`) or returns the start vertex |
| Topology.StartCheckNeverFires | project/model.go:269-271 | the return-to-start test never ends a walk: a walk begun at its start ends when the scan returns `-1`, that is, when no unvisited neighbour is left or the first one left is vertex `-1` |
| Topology.VisitSound | project/model.go:247-277 | one pass of the outer loop keeps every face well-formed and all faces pairwise disjoint, and grows the visited set and the face list |
| Topology.ConvertSound | project/model.go:247-278 | for any start order, every face has more than two distinct, visited vertices, consecutive vertices are neighbours, and no vertex is in two faces |
| Topology.AllVisited | project/model.go:247-278 | after the outer loop over every key, every key has been visited |
| Topology.FacesFollowSegments | project/model.go:237-279 | in segment terms: each face has more than two distinct vertices, each an endpoint of some segment; consecutive vertices are joined by a segment; faces are disjoint |
| Topology.RestSkipped | project/model.go:247-248 | once every key is visited, the remaining start vertices add nothing |
| Topology.OneSegment | project/model.go:241-244 | one segment x–y gives the map x→[y], y→[x] |
| Topology.OneSegmentNoFace | project/model.go:274-276 | the single segment `l 1 2` adds no face, whichever end the map yields first |
| Topology.TriangleOneFace | project/model.go:237-279 | three segments closing a triangle give exactly one three-vertex face starting at the first key yielded, whatever the order |
| Topology.SquareOneFace | project/model.go:237-279 | the 4-cycle 1-2, 2-3, 3-4, 4-1 gives exactly one four-vertex face, whatever order the map yields its keys in |
| Topology.OrderMatters | project/model.go:247 | an open path 1-2, 2-3 gives a three-vertex face when the walk starts at an end, and no face when it starts in the middle |
| Topology.StartAtEnd | project/model.go:252-276 | started at an end, the walk covers the whole open path and keeps it as a face |
| Topology.StartInMiddle | project/model.go:252-276 | started in the middle, the walk turns back to one end, and the other end is left alone |
| Topology.SentinelStopsWalk | project/model.go:257-266 | a neighbour `-1` is mistaken for "no neighbour" and ends the walk, though an unvisited neighbour follows it |
| Transforms.RotationKeepsLength | project/model.go:311-332 | with unit cosine/sine pairs, rotation keeps every vertex's distance from the origin |
| Transforms.RotationInverse | project/model.go:311-332 | the rotations by the opposite angles, applied in reverse order, undo a rotation |
| Transforms.NoRotation | project/model.go:311-332 | rotating by zero angles changes nothing; stated in exact real arithmetic, where no rounding occurs |
| Transforms.TranslationInverse | project/model.go:297-308 | translating by the negated offsets undoes a translation; stated in exact real arithmetic: in float64, `x + t - t` need not be `x` |
| Transforms.ScalingComposes | project/model.go:282-294 | two scalings are one scaling by the products of the factors; stated in exact real arithmetic, where no rounding occurs |
| Transforms.ScaleKeepsOffset | project/model.go:282-294 | a vertex written as origin × factor + offset and then scaled is origin × (factor × scale) + (offset × scale): the identity behind `Scale` multiplying both the vertices and the translation accumulators |
| Transforms.TranslateKeepsOffset | project/model.go:297-308 | translating moves both the vertices and the accumulators by the same amounts; stated in exact real arithmetic, where no rounding occurs |
| Transforms.PlacementIsTranslation | go/model.go:216 | with scale 1, the written position is the translated vertex; stated in exact real arithmetic, where no rounding occurs |
| Transforms.TranslateThenRotateDiffers | go/model.go:258-289 | the go variant's deferred translation is applied after any rotation, so the same calls place a vertex differently from the project variant |
| ProjectModel.Model.constructor | project/model.go:40-50 | the zero model: empty lists, zero accumulators |
| ProjectModel.Model.LoadFromFile | project/model.go:53-97 | the lists become the fold of the line dispatch over the file's lines, with `l` lines recognised; the accumulators are unchanged |
| ProjectModel.Model.ConvertLinesToFaces | project/model.go:237-279 | the segments and every other list are unchanged; the faces gain exactly the reconstructed faces for the given key order |
| ProjectModel.Model.Scale | project/model.go:282-294 | each vertex is scaled in place, the count is kept, the accumulators are multiplied, and the other lists are unchanged |
| ProjectModel.Model.Translate | project/model.go:297-308 | each vertex is shifted in place, the count is kept, the offsets are added to the accumulators, and the other lists are unchanged |
| ProjectModel.Model.Rotate | project/model.go:311-332 | each vertex is rotated about X, then Y, then Z; nothing else changes |
| ProjectModel.Model.SaveToFile | project/model.go:335-387 | the output is the document of the current lists, with vertices as stored |
| ProjectModel.ConvertSegments | project/model.go:237-279 | the map-building loop and the nested walk loops compute the faces of `Convert` |
| ProjectModel.BuildLineMap | project/model.go:238-244 | the loop over the segments builds `AdjacencyOf` |
| ProjectModel.NextUnvisited | project/model.go:257-263 | the neighbour scan with its `-1` default returns `FirstUnvisited` |
| ProjectModel.WalkFace | project/model.go:249-272 | the inner `for` loop computes the walk `Walk` and its visited set |
| GoModel.Model.constructor | go/model.go:35-44 | the zero model: empty lists, zero scale and offsets |
| GoModel.Model.LoadFromFile | go/model.go:47-86 | the lists become the fold of the line dispatch over the file's lines; `l` lines are ignored |
| GoModel.Model.Translate | go/model.go:258-262 | only the three offset accumulators change |
| GoModel.Model.Rotate | go/model.go:265-289 | the vertices are rotated in three passes, their count is kept, and nothing else changes |
| GoModel.Model.SaveToFile | go/model.go:203-255 | the output is the document with each vertex placed at `v*Scale+Translate` |
| GoModel.TurnAboutX | go/model.go:267-272 | the first pass rotates every vertex about X |
| GoModel.TurnAboutY | go/model.go:275-280 | the second pass rotates every vertex about Y |
| GoModel.TurnAboutZ | go/model.go:283-288 | the third pass rotates every vertex about Z |

## Left out

- File handling is not modelled: opening, scanning and creating files, buffered writing, and the errors these return. The loader takes the lines `bufio.Scanner` yields, with line breaks and a `\r` before them already removed. The writer returns its lines without the final `\n` of each. Write errors are ignored at `project/model.go:385-386`, so no error path is lost.
- `getUserInput` and both `main.go` files are console and flag handling.
- Floating point is not modelled. Coordinates are reals. `strconv.ParseFloat` is the parameter `FloatParser`, a partial function from strings. The `%f` formatting is the parameter `FloatFormat`. Rounding is therefore not modelled, and save-then-load is stated through `Reprint`, one print-and-parse per coordinate.
- `math.Cos` and `math.Sin` are not modelled. Each rotation takes a `Turn(cos, sin)` per axis. The lemmas about undoing a rotation assume `cos² + sin² = 1` exactly.
- `strconv.Atoi` is unbounded: Go's 64-bit `int` overflow and its out-of-range error are not modelled. A leading `+` or `-` and decimal digits are accepted, as `Atoi` does. In the model the ±1 rebase of an index cannot wrap. Go's `int` wrap-around at that rebase is not modelled: `Atoi("-9223372036854775808") - 1` in parseFace and parseLine (`project/model.go:191`, `project/model.go:226-231`) and the writer's `+1` on the largest `int` (`project/model.go:373-379`) wrap in Go.
- `strings.Fields` is modelled for ASCII white space only (space, `\t`, `\n`, `\v`, `\f`, `\r`). Unicode white space such as U+0085 or U+00A0 is not treated as a separator.
- The iteration order of the Go map in `ConvertLinesToFaces` is not fixed. It is an input, required to list every key exactly once. Properties about the result are proved for every such order.
