/** ConvertLinesToFaces (project/model.go): the `l` segments become an adjacency map,
    and every vertex not yet visited starts a greedy walk that always moves to the
    first unvisited neighbour; a walk of more than two vertices becomes a face.
    Go ranges over the map in an unspecified order, so the order of the start
    vertices is a parameter: any sequence holding every key once. */
module Topology {
  import opened ObjRecords

  /** `lineMap`: each vertex to its neighbours, in the order the segments list them. */
  type Adjacency = map<int, seq<int>>

  /** `lineMap[v]`, which is the empty slice for a vertex that is not a key. */
  function Neighbours(adj: Adjacency, v: int): seq<int> {
    if v in adj then adj[v] else []
  }

  /** Record one segment in both directions. */
  function Link(adj: Adjacency, s: Segment): Adjacency {
    var a := adj[s.start := Neighbours(adj, s.start) + [s.end]];
    a[s.end := Neighbours(a, s.end) + [s.start]]
  }

  /** The map built by the first loop of ConvertLinesToFaces; every neighbour it
      lists is itself a key. */
  function AdjacencyOf(segs: seq<Segment>): (adj: Adjacency)
    ensures Closed(adj)
  {
    if segs == [] then map[]
    else
      var init := AdjacencyOf(segs[..|segs| - 1]);
      LinkClosed(init, segs[|segs| - 1]);
      Link(init, segs[|segs| - 1])
  }

  /** Recording a segment keeps every neighbour a key. */
  lemma LinkClosed(adj: Adjacency, s: Segment)
    requires Closed(adj)
    ensures Closed(Link(adj, s))
  {
    var a := adj[s.start := Neighbours(adj, s.start) + [s.end]];
    var b := Link(adj, s);
    assert b.Keys == adj.Keys + {s.start, s.end};
    forall v, n | v in b && n in b[v] ensures n in b {
      if v == s.end {
        assert n in Neighbours(a, s.end) || n == s.start;
      } else if v == s.start {
        assert n in Neighbours(adj, s.start) || n == s.end;
      } else {
        assert n in adj[v];
      }
    }
  }

  function Endpoints(segs: seq<Segment>): set<int> {
    (set s | s in segs :: s.start) + (set s | s in segs :: s.end)
  }

  /** Some segment runs between a and b, in either direction. */
  predicate Joined(segs: seq<Segment>, a: int, b: int) {
    exists s :: s in segs && ((s.start == a && s.end == b) || (s.start == b && s.end == a))
  }

  /** Number of segment ends at v (a segment from v to v counts twice). */
  function Degree(segs: seq<Segment>, v: int): nat {
    if segs == [] then 0
    else
      var s := segs[|segs| - 1];
      Degree(segs[..|segs| - 1], v) + (if s.start == v then 1 else 0) + (if s.end == v then 1 else 0)
  }

  lemma {:induction false} AdjacencyKeys(segs: seq<Segment>)
    ensures AdjacencyOf(segs).Keys == Endpoints(segs)
  {
    if segs != [] {
      var init := segs[..|segs| - 1];
      AdjacencyKeys(init);
      assert segs == init + [segs[|segs| - 1]];
      assert Endpoints(segs) == Endpoints(init) + {segs[|segs| - 1].start, segs[|segs| - 1].end};
    }
  }

  /** The map holds exactly the segments: n is listed as a neighbour of v if and
      only if a segment joins them. */
  lemma {:induction false} AdjacencyNeighbours(segs: seq<Segment>, v: int, n: int)
    ensures n in Neighbours(AdjacencyOf(segs), v) <==> Joined(segs, v, n)
  {
    if segs != [] {
      var init, s := segs[..|segs| - 1], segs[|segs| - 1];
      AdjacencyNeighbours(init, v, n);
      assert segs == init + [s];
      if Joined(segs, v, n) && !Joined(init, v, n) {
        assert (s.start == v && s.end == n) || (s.start == n && s.end == v);
      }
      if Joined(init, v, n) {
        var w :| w in init && ((w.start == v && w.end == n) || (w.start == n && w.end == v));
        assert w in segs;
      }
    }
  }

  /** Each vertex has one neighbour entry per segment end it has. */
  lemma {:induction false} AdjacencyDegree(segs: seq<Segment>, v: int)
    ensures |Neighbours(AdjacencyOf(segs), v)| == Degree(segs, v)
  {
    if segs != [] {
      AdjacencyDegree(segs[..|segs| - 1], v);
    }
  }

  /** Every neighbour is itself a key. */
  ghost predicate Closed(adj: Adjacency) {
    forall v :: v in adj ==> forall n :: n in adj[v] ==> n in adj
  }

  // ---------------------------------------------------------------- the walk

  /** Marking an unmarked key leaves one key fewer to mark. */
  lemma Shrinks(keys: set<int>, visited: set<int>, current: int)
    requires current in keys && current !in visited
    ensures |keys - (visited + {current})| < |keys - visited|
  {
    assert keys - (visited + {current}) == (keys - visited) - {current};
  }

  function Elements(s: seq<int>): set<int> {
    set x | x in s
  }

  predicate Distinct(s: seq<int>) {
    forall i, j :: 0 <= i < j < |s| ==> s[i] != s[j]
  }

  /** Position of the first neighbour not yet visited, |ns| if there is none. */
  function FirstUnvisitedIndex(ns: seq<int>, visited: set<int>): (k: nat)
    ensures k <= |ns|
    ensures forall i :: 0 <= i < k ==> ns[i] in visited
    ensures k < |ns| ==> ns[k] !in visited
  {
    if ns == [] || ns[0] !in visited then 0 else 1 + FirstUnvisitedIndex(ns[1..], visited)
  }

  /** The neighbour scan: the first unvisited neighbour, or the sentinel -1 when
      there is none. A neighbour that is itself the vertex -1 is indistinguishable
      from the sentinel. */
  function FirstUnvisited(ns: seq<int>, visited: set<int>): (next: int)
    ensures next != -1 ==> next in ns && next !in visited
  {
    var k := FirstUnvisitedIndex(ns, visited);
    if k == |ns| then -1 else ns[k]
  }

  /** The scan's position is determined by its two properties. */
  lemma FirstUnvisitedAt(ns: seq<int>, visited: set<int>, j: nat)
    requires j <= |ns| && (forall q :: 0 <= q < j ==> ns[q] in visited)
    requires j < |ns| ==> ns[j] !in visited
    ensures FirstUnvisitedIndex(ns, visited) == j
  {
  }

  /** The vertices one walk appends to its face, and the visited set after it. */
  datatype Trail = Trail(path: seq<int>, seen: set<int>)

  /** The inner `for` loop from `current`: mark it, move to the first unvisited
      neighbour; stop when there is none or when that neighbour is `start`. */
  function Walk(adj: Adjacency, start: int, current: int, visited: set<int>): Trail
    requires Closed(adj) && current in adj && current !in visited
    decreases |adj.Keys - visited|
  {
    var seen := visited + {current};
    var next := FirstUnvisited(Neighbours(adj, current), seen);
    if next == -1 || next == start then Trail([current], seen)
    else
      Shrinks(adj.Keys, visited, current);
      var t := Walk(adj, start, next, seen);
      Trail([current] + t.path, t.seen)
  }

  /** One step of a walk: the current vertex, then the walk from the next one. */
  lemma WalkUnfold(adj: Adjacency, start: int, current: int, visited: set<int>)
    requires Closed(adj) && current in adj && current !in visited
    ensures var seen := visited + {current};
      var next := FirstUnvisited(Neighbours(adj, current), seen);
      && (next == -1 || next == start ==> Walk(adj, start, current, visited) == Trail([current], seen))
      && (next != -1 && next != start ==>
            next in adj && next !in seen &&
            Walk(adj, start, current, visited)
              == Trail([current] + Walk(adj, start, next, seen).path, Walk(adj, start, next, seen).seen))
  {
  }

  /** One step of a walk whose remaining part is still to come: `total` is what
      was already walked followed by the rest of the walk from `current`. */
  lemma WalkAppend(adj: Adjacency, start: int, current: int, visited: set<int>, walked: seq<int>, total: Trail)
    requires Closed(adj) && current in adj && current !in visited
    requires total == Trail(walked + Walk(adj, start, current, visited).path, Walk(adj, start, current, visited).seen)
    ensures var seen := visited + {current};
      var next := FirstUnvisited(Neighbours(adj, current), seen);
      && (next == -1 || next == start ==> total == Trail(walked + [current], seen))
      && (next != -1 && next != start ==>
            next in adj && next !in seen &&
            total == Trail((walked + [current]) + Walk(adj, start, next, seen).path, Walk(adj, start, next, seen).seen))
  {
    WalkUnfold(adj, start, current, visited);
    var seen := visited + {current};
    var next := FirstUnvisited(Neighbours(adj, current), seen);
    if next != -1 && next != start {
      var rest := Walk(adj, start, next, seen).path;
      assert walked + ([current] + rest) == (walked + [current]) + rest;
    }
  }

  /** A walk is a non-empty path starting at `current` and marks exactly its vertices. */
  lemma {:induction false} WalkMarks(adj: Adjacency, start: int, current: int, visited: set<int>)
    requires Closed(adj) && current in adj && current !in visited
    ensures var t := Walk(adj, start, current, visited);
      && t.path != [] && t.path[0] == current
      && t.seen == visited + Elements(t.path)
    decreases |adj.Keys - visited|
  {
    WalkUnfold(adj, start, current, visited);
    var seen := visited + {current};
    var next := FirstUnvisited(Neighbours(adj, current), seen);
    if next != -1 && next != start {
      Shrinks(adj.Keys, visited, current);
      WalkMarks(adj, start, next, seen);
      var t := Walk(adj, start, next, seen);
      assert Elements([current] + t.path) == {current} + Elements(t.path);
    } else {
      assert Elements([current]) == {current};
    }
  }

  /** The vertices of a walk are distinct keys, none of them visited before. */
  lemma {:induction false} WalkFresh(adj: Adjacency, start: int, current: int, visited: set<int>)
    requires Closed(adj) && current in adj && current !in visited
    ensures var p := Walk(adj, start, current, visited).path;
      && (forall i :: 0 <= i < |p| ==> p[i] in adj && p[i] !in visited)
      && Distinct(p)
    decreases |adj.Keys - visited|
  {
    WalkUnfold(adj, start, current, visited);
    var seen := visited + {current};
    var next := FirstUnvisited(Neighbours(adj, current), seen);
    if next != -1 && next != start {
      Shrinks(adj.Keys, visited, current);
      WalkFresh(adj, start, next, seen);
      var p := [current] + Walk(adj, start, next, seen).path;
      forall i, j | 0 <= i < j < |p| ensures p[i] != p[j] {
        if i == 0 {
          assert p[j] == Walk(adj, start, next, seen).path[j - 1];
        }
      }
    }
  }

  /** Both facts together. */
  lemma WalkShape(adj: Adjacency, start: int, current: int, visited: set<int>)
    requires Closed(adj) && current in adj && current !in visited
    ensures var t := Walk(adj, start, current, visited);
      && t.path != [] && t.path[0] == current
      && t.seen == visited + Elements(t.path)
      && (forall i :: 0 <= i < |t.path| ==> t.path[i] in adj && t.path[i] !in visited)
      && Distinct(t.path)
  {
    WalkMarks(adj, start, current, visited);
    WalkFresh(adj, start, current, visited);
  }

  /** Each vertex after the first is the scan's choice from the one before, given
      what was visited by then. */
  ghost predicate Greedy(adj: Adjacency, visited: set<int>, p: seq<int>) {
    forall i :: 0 <= i < |p| - 1 ==>
      && p[i + 1] == FirstUnvisited(Neighbours(adj, p[i]), visited + Elements(p[..i + 1]))
      && p[i + 1] in Neighbours(adj, p[i])
  }

  lemma GreedyCons(adj: Adjacency, visited: set<int>, current: int, q: seq<int>)
    requires q != [] && Greedy(adj, visited + {current}, q)
    requires q[0] == FirstUnvisited(Neighbours(adj, current), visited + {current})
    requires q[0] in Neighbours(adj, current)
    ensures Greedy(adj, visited, [current] + q)
  {
    var p := [current] + q;
    forall i | 0 <= i < |p| - 1
      ensures p[i + 1] == FirstUnvisited(Neighbours(adj, p[i]), visited + Elements(p[..i + 1]))
      ensures p[i + 1] in Neighbours(adj, p[i])
    {
      if i == 0 {
        assert p[..1] == [current];
        assert Elements([current]) == {current};
      } else {
        var k := i - 1;
        assert p[i] == q[k] && p[i + 1] == q[k + 1];
        assert p[..i + 1] == [current] + q[..k + 1];
        assert Elements(p[..i + 1]) == {current} + Elements(q[..k + 1]);
        assert visited + Elements(p[..i + 1]) == (visited + {current}) + Elements(q[..k + 1]);
        assert q[k + 1] == FirstUnvisited(Neighbours(adj, q[k]), (visited + {current}) + Elements(q[..k + 1]));
      }
    }
  }

  /** Every step of a walk goes to the first neighbour of the previous vertex that
      was not visited by then; in particular consecutive vertices are neighbours. */
  lemma {:induction false} WalkSteps(adj: Adjacency, start: int, current: int, visited: set<int>)
    requires Closed(adj) && current in adj && current !in visited
    ensures Greedy(adj, visited, Walk(adj, start, current, visited).path)
    decreases |adj.Keys - visited|
  {
    WalkUnfold(adj, start, current, visited);
    var seen := visited + {current};
    var next := FirstUnvisited(Neighbours(adj, current), seen);
    if next != -1 && next != start {
      Shrinks(adj.Keys, visited, current);
      WalkSteps(adj, start, next, seen);
      WalkMarks(adj, start, next, seen);
      GreedyCons(adj, visited, current, Walk(adj, start, next, seen).path);
    }
  }

  /** A walk stops where the neighbour scan of its last vertex gives -1 or `start`. */
  lemma {:induction false} WalkEnd(adj: Adjacency, start: int, current: int, visited: set<int>)
    requires Closed(adj) && current in adj && current !in visited
    ensures var t := Walk(adj, start, current, visited);
      t.path != [] &&
      FirstUnvisited(Neighbours(adj, t.path[|t.path| - 1]), t.seen) in {-1, start}
    decreases |adj.Keys - visited|
  {
    var seen := visited + {current};
    var next := FirstUnvisited(Neighbours(adj, current), seen);
    if next != -1 && next != start {
      Shrinks(adj.Keys, visited, current);
      WalkEnd(adj, start, next, seen);
    }
  }

  /** The `current == start` check never fires: the start vertex is marked before the
      first scan, and the scan only returns unvisited vertices. So a walk started at
      `start` ends exactly where the scan returns -1: either no unvisited neighbour
      is left, or the first one left is vertex -1. The face it yields is an open path
      that does not repeat its first vertex. */
  lemma StartCheckNeverFires(adj: Adjacency, start: int, visited: set<int>)
    requires Closed(adj) && start in adj && start !in visited
    ensures var t := Walk(adj, start, start, visited);
      t.path != [] && FirstUnvisited(Neighbours(adj, t.path[|t.path| - 1]), t.seen) == -1
  {
    WalkEnd(adj, start, start, visited);
    WalkShape(adj, start, start, visited);
    var t := Walk(adj, start, start, visited);
    assert start in t.seen;
  }

  // ---------------------------------------------------------------- the outer loop

  /** The faces found so far and `visitedLines`. */
  datatype Progress = Progress(faces: seq<Face>, visited: set<int>)

  /** The outer loop body for one key: skipped when visited, otherwise a walk whose
      path becomes a face (with no texture or normal indices) if it is longer than two. */
  function Visit(adj: Adjacency, p: Progress, start: int): Progress
    requires Closed(adj) && start in adj
  {
    if start in p.visited then p
    else
      var t := Walk(adj, start, start, p.visited);
      Progress(p.faces + (if |t.path| > 2 then [Face(t.path, [], [])] else []), t.seen)
  }

  predicate KeysIn(adj: Adjacency, order: seq<int>) {
    forall i :: 0 <= i < |order| ==> order[i] in adj
  }

  /** The outer loop over the start vertices in `order`. */
  function Convert(adj: Adjacency, order: seq<int>): Progress
    requires Closed(adj) && KeysIn(adj, order)
  {
    if order == [] then Progress([], {})
    else Visit(adj, Convert(adj, order[..|order| - 1]), order[|order| - 1])
  }

  /** One more start vertex is one more Visit. */
  lemma ConvertStep(adj: Adjacency, order: seq<int>, k: nat)
    requires Closed(adj) && KeysIn(adj, order) && k < |order|
    ensures KeysIn(adj, order[..k]) && KeysIn(adj, order[..k + 1])
    ensures Convert(adj, order[..k + 1]) == Visit(adj, Convert(adj, order[..k]), order[k])
  {
    assert order[..k + 1][..k] == order[..k];
  }

  /** Go's `range` over the map: every key exactly once, in some order. */
  predicate KeyOrder(adj: Adjacency, order: seq<int>) {
    && Distinct(order)
    && (forall i :: 0 <= i < |order| ==> order[i] in adj)
    && (forall k :: k in adj ==> k in order)
  }

  /** A face the conversion produces: more than two distinct vertices, consecutive
      ones neighbours in the map, all of them visited, and no texture or normal indices. */
  predicate WalkedFace(adj: Adjacency, f: Face, visited: set<int>) {
    && |f.vertices| > 2
    && f.texCoords == [] && f.normals == []
    && Distinct(f.vertices)
    && (forall i :: 0 <= i < |f.vertices| ==> f.vertices[i] in visited)
    && (forall i :: 0 <= i < |f.vertices| - 1 ==> f.vertices[i + 1] in Neighbours(adj, f.vertices[i]))
  }

  predicate Disjoint(f: Face, g: Face) {
    forall i, j :: 0 <= i < |f.vertices| && 0 <= j < |g.vertices| ==> f.vertices[i] != g.vertices[j]
  }

  /** What the outer loop keeps true. */
  predicate Sound(adj: Adjacency, p: Progress) {
    && p.visited <= adj.Keys
    && (forall i :: 0 <= i < |p.faces| ==> WalkedFace(adj, p.faces[i], p.visited))
    && (forall i, j :: 0 <= i < j < |p.faces| ==> Disjoint(p.faces[i], p.faces[j]))
  }

  lemma VisitSound(adj: Adjacency, p: Progress, start: int)
    requires Closed(adj) && start in adj && Sound(adj, p)
    ensures Sound(adj, Visit(adj, p, start))
    ensures p.visited + {start} <= Visit(adj, p, start).visited
    ensures p.faces <= Visit(adj, p, start).faces
  {
    if start !in p.visited {
      WalkShape(adj, start, start, p.visited);
      WalkSteps(adj, start, start, p.visited);
      var t := Walk(adj, start, start, p.visited);
      var q := Visit(adj, p, start);
      forall i | 0 <= i < |p.faces| ensures WalkedFace(adj, p.faces[i], q.visited) {
        assert WalkedFace(adj, p.faces[i], p.visited);
      }
      if |t.path| > 2 {
        var f := Face(t.path, [], []);
        assert q.faces == p.faces + [f];
        assert WalkedFace(adj, f, q.visited);
        forall i | 0 <= i < |p.faces| ensures Disjoint(p.faces[i], f) {
          assert WalkedFace(adj, p.faces[i], p.visited);
        }
      }
    }
  }

  /** Faces found by the conversion are simple paths through the map, pairwise
      disjoint; afterwards the visited set holds every start vertex and only keys. */
  lemma {:induction false} ConvertSound(adj: Adjacency, order: seq<int>)
    requires Closed(adj) && KeysIn(adj, order)
    ensures Sound(adj, Convert(adj, order))
    ensures forall i :: 0 <= i < |order| ==> order[i] in Convert(adj, order).visited
  {
    if order != [] {
      var init := order[..|order| - 1];
      ConvertSound(adj, init);
      VisitSound(adj, Convert(adj, init), order[|order| - 1]);
    }
  }

  /** Over the whole key order every vertex is visited. */
  lemma AllVisited(adj: Adjacency, order: seq<int>)
    requires Closed(adj) && KeyOrder(adj, order)
    ensures Convert(adj, order).visited == adj.Keys
  {
    ConvertSound(adj, order);
    forall k | k in adj ensures k in Convert(adj, order).visited {
      var i :| 0 <= i < |order| && order[i] == k;
    }
  }

  /** For the map built from segments: every face of the conversion has more than two
      distinct endpoints, each consecutive pair is joined by a segment, and no two
      faces share a vertex. */
  lemma FacesFollowSegments(segs: seq<Segment>, order: seq<int>)
    requires KeysIn(AdjacencyOf(segs), order)
    ensures var fs := Convert(AdjacencyOf(segs), order).faces;
      && (forall i :: 0 <= i < |fs| ==> |fs[i].vertices| > 2 && Distinct(fs[i].vertices))
      && (forall i :: 0 <= i < |fs| ==> forall k :: 0 <= k < |fs[i].vertices| ==> fs[i].vertices[k] in Endpoints(segs))
      && (forall i :: 0 <= i < |fs| ==> forall k :: 0 <= k < |fs[i].vertices| - 1 ==>
            Joined(segs, fs[i].vertices[k], fs[i].vertices[k + 1]))
      && (forall i, j :: 0 <= i < j < |fs| ==> Disjoint(fs[i], fs[j]))
  {
    var adj := AdjacencyOf(segs);
    AdjacencyKeys(segs);
    ConvertSound(adj, order);
    var fs := Convert(adj, order).faces;
    forall i, k | 0 <= i < |fs| && 0 <= k < |fs[i].vertices| - 1
      ensures Joined(segs, fs[i].vertices[k], fs[i].vertices[k + 1])
    {
      assert WalkedFace(adj, fs[i], Convert(adj, order).visited);
      AdjacencyNeighbours(segs, fs[i].vertices[k], fs[i].vertices[k + 1]);
    }
    forall i, k | 0 <= i < |fs| && 0 <= k < |fs[i].vertices|
      ensures fs[i].vertices[k] in Endpoints(segs)
    {
      assert WalkedFace(adj, fs[i], Convert(adj, order).visited);
    }
  }

  // ---------------------------------------------------------------- examples

  /** Once every key is visited, the remaining start vertices add nothing. */
  lemma {:induction false} RestSkipped(adj: Adjacency, order: seq<int>, n: nat)
    requires Closed(adj) && KeysIn(adj, order) && 0 < n <= |order|
    requires Convert(adj, order[..n]).visited == adj.Keys
    ensures Convert(adj, order) == Convert(adj, order[..n])
    decreases |order| - n
  {
    if n == |order| {
      assert order[..n] == order;
    } else {
      var m := |order|;
      assert order[..m - 1][..n] == order[..n];
      assert KeysIn(adj, order[..m - 1]);
      RestSkipped(adj, order[..m - 1], n);
      assert order[m - 1] in adj;
    }
  }

  /** A single segment between two different vertices. */
  lemma OneSegment(x: int, y: int)
    requires x != y
    ensures AdjacencyOf([Segment(x, y)]) == map[x := [y], y := [x]]
  {
    var segs := [Segment(x, y)];
    assert segs[..0] == [];
    var m0: Adjacency := map[];
    assert Neighbours(m0, x) + [y] == [y];
    var a := m0[x := [y]];
    assert Neighbours(a, y) + [x] == [x];
  }

  const Triangle: seq<Segment> := [Segment(0, 1), Segment(1, 2), Segment(2, 0)]

  const TriangleMap: Adjacency := map[0 := [1, 2], 1 := [0, 2], 2 := [1, 0]]

  lemma TriangleAdjacency()
    ensures AdjacencyOf(Triangle) == TriangleMap
  {
    assert Triangle[..2][..1] == [Segment(0, 1)];
    OneSegment(0, 1);
    var m1: Adjacency := map[0 := [1], 1 := [0]];
    assert Neighbours(m1, 1) + [2] == [0, 2];
    var a1 := m1[1 := [0, 2]];
    assert Neighbours(a1, 2) + [1] == [1];
    var m2: Adjacency := map[0 := [1], 1 := [0, 2], 2 := [1]];
    assert AdjacencyOf(Triangle[..2]) == m2;
    assert Neighbours(m2, 2) + [0] == [1, 0];
    var a2 := m2[2 := [1, 0]];
    assert Neighbours(a2, 0) + [2] == [1, 2];
  }

  /** A walk of three steps, given what the three scans return. */
  lemma ThreeStepWalk(adj: Adjacency, a: int, b: int, c: int)
    requires Closed(adj) && a in adj && b in adj && c in adj
    requires a != b && b != c && a != c && b != -1 && c != -1
    requires FirstUnvisited(Neighbours(adj, a), {a}) == b
    requires FirstUnvisited(Neighbours(adj, b), {a, b}) == c
    requires FirstUnvisited(Neighbours(adj, c), {a, b, c}) == -1
    ensures Walk(adj, a, a, {}) == Trail([a, b, c], {a, b, c})
  {
    WalkUnfold(adj, a, c, {a, b});
    assert {a, b} + {c} == {a, b, c};
    WalkUnfold(adj, a, b, {a});
    assert {a} + {b} == {a, b};
    assert [b] + [c] == [b, c];
    WalkUnfold(adj, a, a, {});
    assert {} + {a} == {a};
    assert [a] + [b, c] == [a, b, c];
  }

  lemma TriangleClosed()
    ensures Closed(TriangleMap)
  {
    TriangleAdjacency();
  }

  /** The three scans of a walk round the triangle from corner a. */
  lemma TriangleScans(a: int, b: int, c: int)
    requires (a, b, c) == (0, 1, 2) || (a, b, c) == (1, 0, 2) || (a, b, c) == (2, 1, 0)
    ensures FirstUnvisited(Neighbours(TriangleMap, a), {a}) == b
    ensures FirstUnvisited(Neighbours(TriangleMap, b), {a, b}) == c
    ensures FirstUnvisited(Neighbours(TriangleMap, c), {a, b, c}) == -1
  {
    var adj := TriangleMap;
    assert adj[a] == [adj[a][0], adj[a][1]] && adj[b] == [adj[b][0], adj[b][1]];
    assert adj[c] == [adj[c][0], adj[c][1]];
    ScanTwo(adj[a][0], adj[a][1], {a});
    ScanTwo(adj[b][0], adj[b][1], {a, b});
    ScanTwo(adj[c][0], adj[c][1], {a, b, c});
  }

  /** From any corner of the triangle the walk takes the first listed neighbour,
      then the remaining corner. */
  lemma TriangleWalk(a: int, b: int, c: int)
    requires (a, b, c) == (0, 1, 2) || (a, b, c) == (1, 0, 2) || (a, b, c) == (2, 1, 0)
    ensures Closed(TriangleMap) && a in TriangleMap
    ensures Walk(TriangleMap, a, a, {}) == Trail([a, b, c], {a, b, c})
  {
    TriangleClosed();
    TriangleScans(a, b, c);
    ThreeStepWalk(TriangleMap, a, b, c);
  }

  /** Starting the conversion at a corner of the triangle. */
  lemma TriangleStart(a: int, b: int, c: int)
    requires (a, b, c) == (0, 1, 2) || (a, b, c) == (1, 0, 2) || (a, b, c) == (2, 1, 0)
    ensures Closed(TriangleMap) && KeysIn(TriangleMap, [a])
    ensures Convert(TriangleMap, [a]) == Progress([Face([a, b, c], [], [])], TriangleMap.Keys)
  {
    TriangleWalk(a, b, c);
    var p0 := Progress([], {});
    assert Convert(TriangleMap, [a][..0]) == p0;
    assert TriangleMap.Keys == {a, b, c};
    assert Visit(TriangleMap, p0, a) == Progress([] + [Face([a, b, c], [], [])], {a, b, c});
  }

  /** The first start vertex of the triangle yields its one face and visits all. */
  lemma TriangleFirstVisit(s: int)
    requires s in TriangleMap
    ensures Closed(TriangleMap) && KeysIn(TriangleMap, [s])
    ensures var p := Convert(TriangleMap, [s]);
      |p.faces| == 1 && |p.faces[0].vertices| == 3 && p.faces[0].vertices[0] == s &&
      p.visited == TriangleMap.Keys
  {
    if s == 0 {
      TriangleStart(0, 1, 2);
    } else if s == 1 {
      TriangleStart(1, 0, 2);
    } else {
      TriangleStart(2, 1, 0);
    }
  }

  /** Three segments closing a triangle give exactly one face, the three corners
      starting from whichever vertex the map yields first. */
  lemma TriangleOneFace(order: seq<int>)
    requires KeyOrder(AdjacencyOf(Triangle), order)
    ensures var fs := Convert(AdjacencyOf(Triangle), order).faces;
      |fs| == 1 && |fs[0].vertices| == 3 && fs[0].vertices[0] == order[0]
  {
    TriangleAdjacency();
    assert 0 in TriangleMap;
    assert order[..1] == [order[0]];
    TriangleFirstVisit(order[0]);
    RestSkipped(TriangleMap, order, 1);
  }

  /** The map of the single segment `l 1 2` (zero-based 0 and 1). */
  const PairMap: Adjacency := map[0 := [1], 1 := [0]]

  /** Starting at either end, the walk takes the other end and stops. */
  lemma PairFirstVisit(a: int, b: int)
    requires (a == 0 && b == 1) || (a == 1 && b == 0)
    ensures Closed(PairMap) && KeysIn(PairMap, [a])
    ensures Convert(PairMap, [a]) == Progress([], PairMap.Keys)
  {
    var adj := PairMap;
    assert Neighbours(adj, a) == [b] && Neighbours(adj, b) == [a];
    FirstUnvisitedAt([b], {a}, 0);
    FirstUnvisitedAt([a], {a, b}, 1);
    WalkUnfold(adj, a, b, {a});
    assert {a} + {b} == {a, b};
    WalkUnfold(adj, a, a, {});
    assert {} + {a} == {a};
    assert Walk(adj, a, a, {}) == Trail([a, b], {a, b});
    var p0 := Progress([], {});
    assert Convert(adj, [a][..0]) == p0;
    assert adj.Keys == {a, b};
    assert Visit(adj, p0, a) == Progress([] + [], {a, b});
  }

  /** A single segment `l 1 2` adds no face, whichever end the map yields first:
      the walk has only two vertices. */
  lemma OneSegmentNoFace(order: seq<int>)
    requires KeyOrder(AdjacencyOf([Segment(0, 1)]), order)
    ensures Convert(AdjacencyOf([Segment(0, 1)]), order).faces == []
  {
    OneSegment(0, 1);
    assert AdjacencyOf([Segment(0, 1)]) == PairMap;
    assert 0 in PairMap;
    assert order[..1] == [order[0]];
    if order[0] == 0 {
      PairFirstVisit(0, 1);
    } else {
      PairFirstVisit(1, 0);
    }
    RestSkipped(PairMap, order, 1);
  }

  /** Four segments closing a square: 1-2, 2-3, 3-4, 4-1 (zero-based). */
  const Square: seq<Segment> := [Segment(0, 1), Segment(1, 2), Segment(2, 3), Segment(3, 0)]

  const SquareMap: Adjacency := map[0 := [1, 3], 1 := [0, 2], 2 := [1, 3], 3 := [2, 0]]

  lemma SquareAdjacency()
    ensures AdjacencyOf(Square) == SquareMap
  {
    assert Square[..3][..2][..1] == [Segment(0, 1)];
    OneSegment(0, 1);
    var m1: Adjacency := map[0 := [1], 1 := [0]];
    assert Neighbours(m1, 1) + [2] == [0, 2];
    var a1 := m1[1 := [0, 2]];
    assert Neighbours(a1, 2) + [1] == [1];
    var m2: Adjacency := map[0 := [1], 1 := [0, 2], 2 := [1]];
    assert AdjacencyOf(Square[..3][..2]) == m2;
    assert Neighbours(m2, 2) + [3] == [1, 3];
    var a2 := m2[2 := [1, 3]];
    assert Neighbours(a2, 3) + [2] == [2];
    var m3: Adjacency := map[0 := [1], 1 := [0, 2], 2 := [1, 3], 3 := [2]];
    assert AdjacencyOf(Square[..3]) == m3;
    assert Neighbours(m3, 3) + [0] == [2, 0];
    var a3 := m3[3 := [2, 0]];
    assert Neighbours(a3, 0) + [3] == [1, 3];
  }

  /** The scan over a two-entry neighbour list. */
  lemma ScanTwo(x: int, y: int, visited: set<int>)
    ensures FirstUnvisited([x, y], visited) == if x !in visited then x else if y !in visited then y else -1
  {
    var ns := [x, y];
    if x !in visited {
      FirstUnvisitedAt(ns, visited, 0);
    } else if y !in visited {
      FirstUnvisitedAt(ns, visited, 1);
    } else {
      FirstUnvisitedAt(ns, visited, 2);
    }
  }

  /** A walk of four steps, given what the four scans return. */
  lemma FourStepWalk(adj: Adjacency, a: int, b: int, c: int, d: int)
    requires Closed(adj) && a in adj && b in adj && c in adj && d in adj
    requires a != b && a != c && a != d && b != c && b != d && c != d
    requires b != -1 && c != -1 && d != -1
    requires FirstUnvisited(Neighbours(adj, a), {a}) == b
    requires FirstUnvisited(Neighbours(adj, b), {a, b}) == c
    requires FirstUnvisited(Neighbours(adj, c), {a, b, c}) == d
    requires FirstUnvisited(Neighbours(adj, d), {a, b, c, d}) == -1
    ensures Walk(adj, a, a, {}) == Trail([a, b, c, d], {a, b, c, d})
  {
    WalkUnfold(adj, a, d, {a, b, c});
    assert {a, b, c} + {d} == {a, b, c, d};
    WalkUnfold(adj, a, c, {a, b});
    assert {a, b} + {c} == {a, b, c};
    assert [c] + [d] == [c, d];
    WalkUnfold(adj, a, b, {a});
    assert {a} + {b} == {a, b};
    assert [b] + [c, d] == [b, c, d];
    WalkUnfold(adj, a, a, {});
    assert {} + {a} == {a};
    assert [a] + [b, c, d] == [a, b, c, d];
  }

  /** The four scans of a walk round the square from corner a. */
  lemma SquareScans(a: int, b: int, c: int, d: int)
    requires || (a, b, c, d) == (0, 1, 2, 3) || (a, b, c, d) == (1, 0, 3, 2)
             || (a, b, c, d) == (2, 1, 0, 3) || (a, b, c, d) == (3, 2, 1, 0)
    ensures FirstUnvisited(Neighbours(SquareMap, a), {a}) == b
    ensures FirstUnvisited(Neighbours(SquareMap, b), {a, b}) == c
    ensures FirstUnvisited(Neighbours(SquareMap, c), {a, b, c}) == d
    ensures FirstUnvisited(Neighbours(SquareMap, d), {a, b, c, d}) == -1
  {
    var adj := SquareMap;
    assert adj[a] == [adj[a][0], adj[a][1]] && adj[b] == [adj[b][0], adj[b][1]];
    assert adj[c] == [adj[c][0], adj[c][1]] && adj[d] == [adj[d][0], adj[d][1]];
    ScanTwo(adj[a][0], adj[a][1], {a});
    ScanTwo(adj[b][0], adj[b][1], {a, b});
    ScanTwo(adj[c][0], adj[c][1], {a, b, c});
    ScanTwo(adj[d][0], adj[d][1], {a, b, c, d});
  }

  lemma SquareClosed()
    ensures Closed(SquareMap)
  {
    SquareAdjacency();
  }

  /** From each corner the walk goes round the whole square, taking the first listed
      neighbour and then the only way on. */
  lemma SquareWalk(a: int, b: int, c: int, d: int)
    requires || (a, b, c, d) == (0, 1, 2, 3) || (a, b, c, d) == (1, 0, 3, 2)
             || (a, b, c, d) == (2, 1, 0, 3) || (a, b, c, d) == (3, 2, 1, 0)
    ensures Closed(SquareMap) && a in SquareMap
    ensures Walk(SquareMap, a, a, {}) == Trail([a, b, c, d], {a, b, c, d})
  {
    SquareClosed();
    SquareScans(a, b, c, d);
    FourStepWalk(SquareMap, a, b, c, d);
  }

  /** The first start vertex of the square yields one four-vertex face and visits all. */
  lemma SquareFirstVisit(a: int, b: int, c: int, d: int)
    requires || (a, b, c, d) == (0, 1, 2, 3) || (a, b, c, d) == (1, 0, 3, 2)
             || (a, b, c, d) == (2, 1, 0, 3) || (a, b, c, d) == (3, 2, 1, 0)
    ensures Closed(SquareMap) && KeysIn(SquareMap, [a])
    ensures Convert(SquareMap, [a]) == Progress([Face([a, b, c, d], [], [])], SquareMap.Keys)
  {
    SquareWalk(a, b, c, d);
    var p0 := Progress([], {});
    assert Convert(SquareMap, [a][..0]) == p0;
    assert SquareMap.Keys == {a, b, c, d};
    assert Visit(SquareMap, p0, a) == Progress([] + [Face([a, b, c, d], [], [])], {a, b, c, d});
  }

  /** The corners of the square in the order the walk from `s` takes them. */
  function SquareRound(s: int): seq<int> {
    if s == 0 then [0, 1, 2, 3]
    else if s == 1 then [1, 0, 3, 2]
    else if s == 2 then [2, 1, 0, 3]
    else [3, 2, 1, 0]
  }

  lemma SquareFirstVisitFrom(s: int)
    requires s in SquareMap
    ensures Closed(SquareMap) && KeysIn(SquareMap, [s])
    ensures Convert(SquareMap, [s]) == Progress([Face(SquareRound(s), [], [])], SquareMap.Keys)
  {
    if s == 0 {
      SquareFirstVisit(0, 1, 2, 3);
    } else if s == 1 {
      SquareFirstVisit(1, 0, 3, 2);
    } else if s == 2 {
      SquareFirstVisit(2, 1, 0, 3);
    } else {
      SquareFirstVisit(3, 2, 1, 0);
    }
  }

  /** The closed 4-cycle 1-2, 2-3, 3-4, 4-1 gives exactly one face of four vertices,
      whatever order the map yields its keys in. */
  lemma SquareOneFace(order: seq<int>)
    requires KeyOrder(AdjacencyOf(Square), order)
    ensures var fs := Convert(AdjacencyOf(Square), order).faces;
      |fs| == 1 && |fs[0].vertices| == 4 && fs[0].vertices[0] == order[0]
  {
    SquareAdjacency();
    assert 0 in SquareMap;
    assert order[..1] == [order[0]];
    SquareFirstVisitFrom(order[0]);
    RestSkipped(SquareMap, order, 1);
  }

  const OpenPath: seq<Segment> := [Segment(0, 1), Segment(1, 2)]

  const PathMap: Adjacency := map[0 := [1], 1 := [0, 2], 2 := [1]]

  lemma OpenPathAdjacency()
    ensures AdjacencyOf(OpenPath) == PathMap
  {
    assert OpenPath[..1] == [Segment(0, 1)];
    OneSegment(0, 1);
    var m1: Adjacency := map[0 := [1], 1 := [0]];
    assert Neighbours(m1, 1) + [2] == [0, 2];
    var a1 := m1[1 := [0, 2]];
    assert Neighbours(a1, 2) + [1] == [1];
  }

  lemma PathClosed()
    ensures Closed(PathMap)
  {
    OpenPathAdjacency();
  }

  /** The result depends on the map's iteration order: an open path of two segments
      becomes a face when the walk starts at an end, and none when it starts in the
      middle (the walk turns back to one end and the other end is left alone). */
  lemma OrderMatters()
    ensures Convert(AdjacencyOf(OpenPath), [0, 1, 2]).faces == [Face([0, 1, 2], [], [])]
    ensures Convert(AdjacencyOf(OpenPath), [1, 0, 2]).faces == []
  {
    OpenPathAdjacency();
    StartAtEnd();
    StartInMiddle();
  }

  lemma EndWalk()
    ensures Closed(PathMap)
    ensures Walk(PathMap, 0, 0, {}) == Trail([0, 1, 2], {0, 1, 2})
  {
    PathClosed();
    var adj := PathMap;
    assert FirstUnvisited(Neighbours(adj, 0), {0}) == 1;
    assert FirstUnvisited(Neighbours(adj, 1), {0, 1}) == 2;
    assert FirstUnvisited(Neighbours(adj, 2), {0, 1, 2}) == -1;
    ThreeStepWalk(adj, 0, 1, 2);
  }

  lemma StartAtEnd()
    ensures Closed(PathMap)
    ensures Convert(PathMap, [0, 1, 2]).faces == [Face([0, 1, 2], [], [])]
  {
    EndWalk();
    var adj := PathMap;
    assert [0, 1, 2][..2] == [0, 1] && [0, 1][..1] == [0] && [0][..0] == [];
    var p0 := Progress([], {});
    assert Convert(adj, [0][..0]) == p0;
    var p1 := Visit(adj, p0, 0);
    assert p1 == Progress([] + [Face([0, 1, 2], [], [])], {0, 1, 2});
    assert Convert(adj, [0]) == p1;
    assert Convert(adj, [0, 1]) == p1;
  }

  lemma MiddleWalk()
    ensures Closed(PathMap)
    ensures Walk(PathMap, 1, 1, {}) == Trail([1, 0], {0, 1})
  {
    PathClosed();
    var adj := PathMap;
    assert FirstUnvisited(Neighbours(adj, 1), {1}) == 0;
    assert FirstUnvisited(Neighbours(adj, 0), {0, 1}) == -1;
    WalkUnfold(adj, 1, 0, {1});
    assert {1} + {0} == {0, 1};
    WalkUnfold(adj, 1, 1, {});
    assert {} + {1} == {1};
    assert [1] + [0] == [1, 0];
  }

  lemma LastAlone()
    ensures Closed(PathMap)
    ensures Walk(PathMap, 2, 2, {0, 1}) == Trail([2], {0, 1, 2})
  {
    PathClosed();
    var adj := PathMap;
    assert FirstUnvisited(Neighbours(adj, 2), {0, 1, 2}) == -1;
    WalkUnfold(adj, 2, 2, {0, 1});
    assert {0, 1} + {2} == {0, 1, 2};
  }

  /** Starting in the middle: the first walk has two vertices and the next start is
      already visited. */
  lemma MiddleFirstVisits()
    ensures Closed(PathMap)
    ensures Convert(PathMap, [1, 0]) == Progress([], {0, 1})
  {
    MiddleWalk();
    var adj := PathMap;
    assert [1, 0][..1] == [1] && [1][..0] == [];
    var p0 := Progress([], {});
    assert Convert(adj, [1][..0]) == p0;
    var p1 := Visit(adj, p0, 1);
    assert p1 == Progress([] + [], {0, 1});
    assert Convert(adj, [1]) == p1;
  }

  lemma StartInMiddle()
    ensures Closed(PathMap)
    ensures Convert(PathMap, [1, 0, 2]).faces == []
  {
    MiddleFirstVisits();
    LastAlone();
    assert [1, 0, 2][..2] == [1, 0];
    assert Visit(PathMap, Progress([], {0, 1}), 2) == Progress([] + [], {0, 1, 2});
  }

  /** A segment to vertex -1 (written `l 0 ...` in the file) stops the walk there:
      the scan's result equals the "no neighbour" sentinel, so the walk from 0 ends
      at once although 1 is an unvisited neighbour. */
  lemma SentinelStopsWalk()
    ensures Walk(AdjacencyOf([Segment(0, -1), Segment(0, 1)]), 0, 0, {}).path == [0]
  {
    var segs := [Segment(0, -1), Segment(0, 1)];
    assert segs[..1] == [Segment(0, -1)];
    OneSegment(0, -1);
    var m1: Adjacency := map[0 := [-1], -1 := [0]];
    assert Neighbours(m1, 0) + [1] == [-1, 1];
    var a1 := m1[0 := [-1, 1]];
    assert Neighbours(a1, 1) + [0] == [0];
    assert AdjacencyOf(segs) == map[0 := [-1, 1], -1 := [0], 1 := [0]];
    assert FirstUnvisited([-1, 1], {0}) == -1;
  }
}
