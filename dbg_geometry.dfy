/**
 * The values a debug render mesh is made of: points, coloured triangles, the
 * triangle patterns its helpers append (fans, quads, path ribbons, indexed
 * meshes) and the flat buffers it hands to the engine.  Everything here is a
 * pure function; DbgRenderMesh's methods are proved against these.
 *
 * Coordinates are exact reals: the 32-bit float rounding of Unity's Vector3 is
 * not modelled.  Colours are a type parameter: the helpers never look at them.
 */
module DbgGeometry {

  /** A point in world space (Vector3). */
  datatype Vec3 = Vec3(x: real, y: real, z: real)

  /** `v + Vector3.up * size`: the same point raised by `size`. */
  function Raise(v: Vec3, size: real): Vec3
  {
    Vec3(v.x, v.y + size, v.z)
  }

  /** DbgRenderTriangle: three corners, each with its own colour. */
  datatype Triangle<C> = Triangle(a: Vec3, b: Vec3, c: Vec3, colA: C, colB: C, colC: C)
  {
    /** m_Verts[j] */
    function Vert(j: int): Vec3
      requires 0 <= j < 3
    {
      if j == 0 then a else if j == 1 then b else c
    }

    /** m_Colors[j] */
    function Colour(j: int): C
      requires 0 <= j < 3
    {
      if j == 0 then colA else if j == 1 then colB else colC
    }
  }

  /** The single-colour DbgRenderTriangle constructor: the loop over m_Colors gives every corner `color`. */
  function UniformTriangle<C>(a: Vec3, b: Vec3, c: Vec3, color: C): (t: Triangle<C>)
    ensures t.Vert(0) == a && t.Vert(1) == b && t.Vert(2) == c
    ensures forall j :: 0 <= j < 3 ==> t.Colour(j) == color
  {
    Triangle(a, b, c, color, color, color)
  }

  // ---------------------------------------------------------------------------
  // Convex polygons

  /** The fan the polygon loop builds: (v0, v[i-1], v[i]) for i = 2 .. n-1, in that order. */
  function Fan<C>(vs: seq<Vec3>, color: C): seq<Triangle<C>>
    decreases |vs|
  {
    if |vs| < 3 then []
    else Fan(vs[..|vs| - 1], color) + [UniformTriangle(vs[0], vs[|vs| - 2], vs[|vs| - 1], color)]
  }

  /** A polygon of n vertices gives max(0, n-2) triangles; the t-th is (v0, v[t+1], v[t+2]). */
  lemma {:induction false} FanShape<C>(vs: seq<Vec3>, color: C)
    ensures |Fan(vs, color)| == if |vs| < 3 then 0 else |vs| - 2
    ensures forall t :: 0 <= t < |Fan(vs, color)| ==>
              Fan(vs, color)[t] == UniformTriangle(vs[0], vs[t + 1], vs[t + 2], color)
  {
    if |vs| >= 3 {
      var front := vs[..|vs| - 1];
      FanShape(front, color);
      assert front[0] == vs[0];
      forall t | 0 <= t < |Fan(front, color)|
        ensures Fan(vs, color)[t] == UniformTriangle(vs[0], vs[t + 1], vs[t + 2], color)
      {
        assert front[t + 1] == vs[t + 1] && front[t + 2] == vs[t + 2];
      }
    }
  }

  // ---------------------------------------------------------------------------
  // Quads

  /** AddQuad with one colour: A B C + A C D, and B A D + B D C on the back when two-sided. */
  function Quad<C>(a: Vec3, b: Vec3, c: Vec3, d: Vec3, twoSided: bool, color: C): (r: seq<Triangle<C>>)
    ensures |r| == if twoSided then 4 else 2
    ensures forall t, j :: 0 <= t < |r| && 0 <= j < 3 ==>
              r[t].Colour(j) == color && r[t].Vert(j) in [a, b, c, d]
  {
    [UniformTriangle(a, b, c, color), UniformTriangle(a, c, d, color)] +
    (if twoSided then [UniformTriangle(b, a, d, color), UniformTriangle(b, d, c, color)] else [])
  }

  /** AddQuad with a colour per corner, in the same winding as Quad. */
  function ColouredQuad<C>(a: Vec3, b: Vec3, c: Vec3, d: Vec3, twoSided: bool,
                           colA: C, colB: C, colC: C, colD: C): (r: seq<Triangle<C>>)
    ensures |r| == if twoSided then 4 else 2
    ensures forall t, j :: 0 <= t < |r| && 0 <= j < 3 ==>
              (r[t].Vert(j), r[t].Colour(j)) in [(a, colA), (b, colB), (c, colC), (d, colD)]
  {
    [Triangle(a, b, c, colA, colB, colC), Triangle(a, c, d, colA, colC, colD)] +
    (if twoSided then [Triangle(b, a, d, colB, colA, colD), Triangle(b, d, c, colB, colD, colC)] else [])
  }

  /** Both overloads triangulate the same quad: they differ in colours only. */
  lemma {:induction false} ColouredQuadShape<C>(a: Vec3, b: Vec3, c: Vec3, d: Vec3, twoSided: bool,
                                                 colA: C, colB: C, colC: C, colD: C)
    ensures var q := Quad(a, b, c, d, twoSided, colA);
            var r := ColouredQuad(a, b, c, d, twoSided, colA, colB, colC, colD);
            |q| == |r| && forall t, j :: 0 <= t < |r| && 0 <= j < 3 ==> r[t].Vert(j) == q[t].Vert(j)
  {
  }

  /**
   * AddVerticalQuad: a two-sided wall standing on the segment start-end,
   * `size` high; the front two triangles, then the back two.
   */
  function VerticalQuad<C>(start: Vec3, end: Vec3, size: real, color: C): seq<Triangle<C>>
  {
    var top0, top1 := Raise(start, size), Raise(end, size);
    [Triangle(top0, top1, end, color, color, color), Triangle(top0, end, start, color, color, color),
     Triangle(top1, top0, start, color, color, color), Triangle(top1, start, end, color, color, color)]
  }

  /** The wall is the two-sided quad over its raised edge and its base, as AddVerticalQuad hands it to AddQuad. */
  lemma VerticalQuadIsQuad<C>(start: Vec3, end: Vec3, size: real, color: C)
    ensures VerticalQuad(start, end, size, color) ==
            Quad(Raise(start, size), Raise(end, size), end, start, true, color)
  {
  }

  /** AddVerticalQuad with one colour at the start edge and another at the end edge. */
  function ColouredVerticalQuad<C>(start: Vec3, end: Vec3, size: real, colStart: C, colEnd: C): seq<Triangle<C>>
  {
    ColouredQuad(Raise(start, size), Raise(end, size), end, start, true, colStart, colEnd, colEnd, colStart)
  }

  /** Every corner of a coloured wall sits on the start edge with colStart or on the end edge with colEnd. */
  lemma ColouredVerticalQuadEdges<C>(start: Vec3, end: Vec3, size: real, colStart: C, colEnd: C)
    ensures var r := ColouredVerticalQuad(start, end, size, colStart, colEnd);
            |r| == 4 &&
            forall t, j :: 0 <= t < 4 && 0 <= j < 3 ==>
              (r[t].Vert(j) in [start, Raise(start, size)] && r[t].Colour(j) == colStart) ||
              (r[t].Vert(j) in [end, Raise(end, size)] && r[t].Colour(j) == colEnd)
  {
  }

  // ---------------------------------------------------------------------------
  // Paths

  /** The colour of path segment i: col1 on odd segments, col2 on even ones. */
  function SegmentColour<C>(i: int, col1: C, col2: C): C
  {
    if i % 2 == 1 then col1 else col2
  }

  /** The walls AddPath puts on the first n points of a path: segment i runs from path[i-1] to path[i]. */
  function PathRibbon<C>(path: seq<Vec3>, n: int, size: real, col1: C, col2: C): seq<Triangle<C>>
    requires n <= 1 || n <= |path|
    decreases n
  {
    if n <= 1 then []
    else PathRibbon(path, n - 1, size, col1, col2) +
         VerticalQuad(path[n - 2], path[n - 1], size, SegmentColour(n - 1, col1, col2))
  }

  /** The triangles of the first n drawn items, item after item. */
  function Concat<T>(parts: seq<seq<T>>, n: int): seq<T>
    requires n <= |parts|
    decreases n
  {
    if n <= 0 then [] else Concat(parts, n - 1) + parts[n - 1]
  }

  /** Drawing a prefix of an item and then its next element draws the longer prefix. */
  lemma PrefixStep<T>(drawn: seq<T>, part: seq<T>, m: int)
    requires 0 <= m < |part|
    ensures drawn + part[..m] + [part[m]] == drawn + part[..m + 1]
  {
    assert part[..m] + [part[m]] == part[..m + 1];
  }

  /** Appending in two steps is appending once. */
  lemma AppendAssoc<T>(xs: seq<T>, ys: seq<T>, zs: seq<T>)
    ensures (xs + ys) + zs == xs + (ys + zs)
  {
  }

  /** Block s of four in ys + zs is ys's block s while ys has one, and zs itself when zs is the next block. */
  lemma AppendBlock<T>(ys: seq<T>, zs: seq<T>, s: int)
    requires 0 <= s && (4 * s + 4 <= |ys| || (4 * s == |ys| && |zs| == 4))
    ensures 4 * s + 4 <= |ys| ==> (ys + zs)[4 * s .. 4 * s + 4] == ys[4 * s .. 4 * s + 4]
    ensures 4 * s == |ys| ==> (ys + zs)[4 * s .. 4 * s + 4] == zs
  {
  }

  /** Drawing one more segment of the path appends the wall from point n-2 to point n-1. */
  lemma PathRibbonStep<C>(drawn: seq<Triangle<C>>, path: seq<Vec3>, n: int, size: real, col1: C, col2: C)
    requires 2 <= n <= |path|
    ensures drawn + PathRibbon(path, n, size, col1, col2) ==
            (drawn + PathRibbon(path, n - 1, size, col1, col2)) +
            VerticalQuad(path[n - 2], path[n - 1], size, SegmentColour(n - 1, col1, col2))
  {
    AppendAssoc(drawn, PathRibbon(path, n - 1, size, col1, col2),
                VerticalQuad(path[n - 2], path[n - 1], size, SegmentColour(n - 1, col1, col2)));
  }

  /** A path of n >= 1 points gives 4(n-1) triangles; the four of segment i make its wall. */
  lemma {:induction false} PathRibbonShape<C>(path: seq<Vec3>, n: int, size: real, col1: C, col2: C)
    requires n <= 1 || n <= |path|
    ensures |PathRibbon(path, n, size, col1, col2)| == if n <= 1 then 0 else 4 * (n - 1)
    ensures forall i :: 1 <= i < n ==>
              PathRibbon(path, n, size, col1, col2)[4 * (i - 1) .. 4 * i] ==
              VerticalQuad(path[i - 1], path[i], size, SegmentColour(i, col1, col2))
  {
    if n > 1 {
      PathRibbonShape(path, n - 1, size, col1, col2);
      var prev := PathRibbon(path, n - 1, size, col1, col2);
      var last := VerticalQuad(path[n - 2], path[n - 1], size, SegmentColour(n - 1, col1, col2));
      assert PathRibbon(path, n, size, col1, col2) == prev + last;
      forall i | 1 <= i < n
        ensures (prev + last)[4 * (i - 1) .. 4 * i] ==
                VerticalQuad(path[i - 1], path[i], size, SegmentColour(i, col1, col2))
      {
        if i < n - 1 {
          assert (prev + last)[4 * (i - 1) .. 4 * i] == prev[4 * (i - 1) .. 4 * i];
        } else {
          assert (prev + last)[4 * (i - 1) .. 4 * i] == last;
        }
      }
    }
  }

  /** Point i of a flat x,y,z float array: xyz[3i], xyz[3i+1], xyz[3i+2]. */
  function FlatPoint(xyz: seq<real>, i: int): Vec3
    requires 0 <= i && 3 * i + 2 < |xyz|
  {
    Vec3(xyz[3 * i], xyz[3 * i + 1], xyz[3 * i + 2])
  }

  /** FlatPoint read at start = 3i, the way callers index the array. */
  lemma FlatPointAt(xyz: seq<real>, i: int, start: int)
    requires 0 <= i && 3 * i + 2 < |xyz| && start == i * 3
    ensures 0 <= start && start + 2 < |xyz|
    ensures FlatPoint(xyz, i) == Vec3(xyz[start + 0], xyz[start + 1], xyz[start + 2])
  {
    assert start == 3 * i;
    assert xyz[start + 0] == xyz[3 * i];
    assert xyz[start + 1] == xyz[3 * i + 1];
    assert xyz[start + 2] == xyz[3 * i + 2];
  }

  /** Reads a flat x,y,z float array as points, three floats at a time; trailing floats are ignored. */
  function Unpack(xyz: seq<real>): (r: seq<Vec3>)
    ensures |r| == |xyz| / 3
    ensures forall i :: 0 <= i < |r| ==> r[i] == FlatPoint(xyz, i)
    decreases |xyz|
  {
    if |xyz| < 3 then [] else [Vec3(xyz[0], xyz[1], xyz[2])] + Unpack(xyz[3..])
  }

  /** The walls the flat-array AddPath puts on the first n points: segment i runs from point i-1 to point i. */
  function FlatPathRibbon<C>(xyz: seq<real>, n: int, size: real, col1: C, col2: C): seq<Triangle<C>>
    requires n <= 1 || 3 * n <= |xyz|
    decreases n
  {
    if n <= 1 then []
    else FlatPathRibbon(xyz, n - 1, size, col1, col2) +
         VerticalQuad(FlatPoint(xyz, n - 2), FlatPoint(xyz, n - 1), size, SegmentColour(n - 1, col1, col2))
  }

  /** Drawing one more segment of the flat-array path appends the wall from point n-2 to point n-1. */
  lemma FlatPathRibbonStep<C>(drawn: seq<Triangle<C>>, xyz: seq<real>, n: int, size: real, col1: C, col2: C)
    requires 2 <= n && 3 * n <= |xyz|
    ensures drawn + FlatPathRibbon(xyz, n, size, col1, col2) ==
            (drawn + FlatPathRibbon(xyz, n - 1, size, col1, col2)) +
            VerticalQuad(FlatPoint(xyz, n - 2), FlatPoint(xyz, n - 1), size, SegmentColour(n - 1, col1, col2))
  {
    AppendAssoc(drawn, FlatPathRibbon(xyz, n - 1, size, col1, col2),
                VerticalQuad(FlatPoint(xyz, n - 2), FlatPoint(xyz, n - 1), size, SegmentColour(n - 1, col1, col2)));
  }

  /** Walking the flat array draws exactly the path of its unpacked points. */
  lemma {:induction false} FlatPathRibbonIsPathRibbon<C>(xyz: seq<real>, n: int, size: real, col1: C, col2: C)
    requires n <= 1 || 3 * n <= |xyz|
    ensures n <= 1 || n <= |Unpack(xyz)|
    ensures FlatPathRibbon(xyz, n, size, col1, col2) == PathRibbon(Unpack(xyz), n, size, col1, col2)
    decreases n
  {
    if n > 1 {
      FlatPathRibbonIsPathRibbon(xyz, n - 1, size, col1, col2);
      var points := Unpack(xyz);
      assert points[n - 2] == FlatPoint(xyz, n - 2) && points[n - 1] == FlatPoint(xyz, n - 1);
    }
  }

  // ---------------------------------------------------------------------------
  // Indexed meshes

  /** An index list AddMesh can walk: whole triples, each index naming one of vertCount vertices. */
  predicate IndexedTriangles(vertCount: int, tris: seq<int>)
  {
    |tris| % 3 == 0 && forall k :: 0 <= k < |tris| ==> 0 <= tris[k] < vertCount
  }

  /** The triangles AddMesh builds, one per index triple, in the order of the triples. */
  function MeshTriangles<C>(verts: seq<Vec3>, tris: seq<int>, color: C): seq<Triangle<C>>
    requires IndexedTriangles(|verts|, tris)
    decreases |tris|
  {
    if |tris| == 0 then []
    else
      var m := |tris| - 3;
      assert IndexedTriangles(|verts|, tris[..m]) by {
        assert forall k :: 0 <= k < m ==> tris[..m][k] == tris[k];
      }
      MeshTriangles(verts, tris[..m], color) +
      [UniformTriangle(verts[tris[m]], verts[tris[m + 1]], verts[tris[m + 2]], color)]
  }

  /** Triangle t of an indexed mesh is verts[tris[3t]], verts[tris[3t+1]], verts[tris[3t+2]]. */
  lemma {:induction false} MeshTrianglesShape<C>(verts: seq<Vec3>, tris: seq<int>, color: C)
    requires IndexedTriangles(|verts|, tris)
    ensures |MeshTriangles(verts, tris, color)| == |tris| / 3
    ensures forall t :: 0 <= t < |tris| / 3 ==>
              MeshTriangles(verts, tris, color)[t] ==
              UniformTriangle(verts[tris[3 * t]], verts[tris[3 * t + 1]], verts[tris[3 * t + 2]], color)
    decreases |tris|
  {
    if |tris| > 0 {
      var m := |tris| - 3;
      var front := tris[..m];
      assert forall k :: 0 <= k < m ==> front[k] == tris[k];
      assert IndexedTriangles(|verts|, front);
      MeshTrianglesShape(verts, front, color);
    }
  }

  /** An index list the flat-array AddMesh can walk: whole triples, each naming a complete x,y,z point. */
  predicate FlatIndexedTriangles(floatCount: int, tris: seq<int>)
  {
    |tris| % 3 == 0 && forall k :: 0 <= k < |tris| ==> 0 <= tris[k] && 3 * tris[k] + 2 < floatCount
  }

  /** The triangles the flat-array AddMesh builds, one per index triple. */
  function FlatMeshTriangles<C>(verts: seq<real>, tris: seq<int>, color: C): seq<Triangle<C>>
    requires FlatIndexedTriangles(|verts|, tris)
    decreases |tris|
  {
    if |tris| == 0 then []
    else
      var m := |tris| - 3;
      assert FlatIndexedTriangles(|verts|, tris[..m]) by {
        assert forall k :: 0 <= k < m ==> tris[..m][k] == tris[k];
      }
      FlatMeshTriangles(verts, tris[..m], color) +
      [UniformTriangle(FlatPoint(verts, tris[m]), FlatPoint(verts, tris[m + 1]), FlatPoint(verts, tris[m + 2]), color)]
  }

  /** Reading corners straight from the flat array draws the indexed mesh of its unpacked points. */
  lemma {:induction false} FlatMeshIsMesh<C>(verts: seq<real>, tris: seq<int>, color: C)
    requires FlatIndexedTriangles(|verts|, tris)
    ensures IndexedTriangles(|Unpack(verts)|, tris)
    ensures FlatMeshTriangles(verts, tris, color) == MeshTriangles(Unpack(verts), tris, color)
    decreases |tris|
  {
    var points := Unpack(verts);
    forall k | 0 <= k < |tris| ensures tris[k] < |points| {
      assert 3 * tris[k] + 2 < |verts|;
    }
    if |tris| > 0 {
      var m := |tris| - 3;
      assert forall k :: 0 <= k < m ==> tris[..m][k] == tris[k];
      FlatMeshIsMesh(verts, tris[..m], color);
    }
  }

  // ---------------------------------------------------------------------------
  // Flattened buffers (RenderTo)

  /** The vertex array RenderTo fills: entry k is corner k % 3 of triangle k / 3. */
  function VertexBuffer<C>(ts: seq<Triangle<C>>): (r: seq<Vec3>)
    ensures |r| == 3 * |ts|
  {
    seq(3 * |ts|, k requires 0 <= k < 3 * |ts| => ts[k / 3].Vert(k % 3))
  }

  /** The colour array RenderTo fills: entry k is the colour of corner k % 3 of triangle k / 3. */
  function ColourBuffer<C>(ts: seq<Triangle<C>>): (r: seq<C>)
    ensures |r| == 3 * |ts|
  {
    seq(3 * |ts|, k requires 0 <= k < 3 * |ts| => ts[k / 3].Colour(k % 3))
  }

  /** The index array RenderTo fills: 0, 1, ..., n-1. */
  function IdentityIndices(n: nat): (r: seq<int>)
    ensures |r| == n
  {
    seq(n, k => k)
  }

  /**
   * The buffers grow triangle by triangle: one more triangle appends its three
   * corners, their three colours and the next three indices, and leaves the
   * entries for the earlier triangles as they were.
   */
  lemma BuffersAppend<C>(ts: seq<Triangle<C>>, t: Triangle<C>)
    ensures VertexBuffer(ts + [t]) == VertexBuffer(ts) + [t.a, t.b, t.c]
    ensures ColourBuffer(ts + [t]) == ColourBuffer(ts) + [t.colA, t.colB, t.colC]
    ensures IdentityIndices(3 * |ts + [t]|) == IdentityIndices(3 * |ts|) + [3 * |ts|, 3 * |ts| + 1, 3 * |ts| + 2]
  {
    var n := 3 * |ts|;
    forall k | 0 <= k < n + 3
      ensures VertexBuffer(ts + [t])[k] == (VertexBuffer(ts) + [t.a, t.b, t.c])[k]
      ensures ColourBuffer(ts + [t])[k] == (ColourBuffer(ts) + [t.colA, t.colB, t.colC])[k]
    {
      var i, j := k / 3, k % 3;
      assert k == 3 * i + j;
      if k < n {
        assert (ts + [t])[i] == ts[i];
      } else {
        assert i == |ts| && (ts + [t])[i] == t;
      }
    }
  }

  /** The mesh data a render mesh holds after RenderTo: vertices, triangle indices, colours. */
  datatype MeshData<C> = MeshData(vertices: seq<Vec3>, indices: seq<int>, colours: seq<C>)

  /** What RenderTo stores in the mesh for a list of triangles. */
  function Render<C>(ts: seq<Triangle<C>>): MeshData<C>
  {
    MeshData(VertexBuffer(ts), IdentityIndices(3 * |ts|), ColourBuffer(ts))
  }
}
