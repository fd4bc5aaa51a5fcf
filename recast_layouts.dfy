/**
 * The Recast/Detour data the debug renderers read, reduced to the fields they
 * index, and the triangle list each renderer draws from it.  The library that
 * builds this data is not part of this model: these are plain integer and
 * float sequences laid out as the renderers expect them.
 *
 * Colours: each renderer reseeds Unity's generator with c_RandomSeed and draws
 * one random colour per drawn item.  The polygon, detail and tile renderers pass it
 * through VaryColor before each triangle; ShowContours varies it once, for its
 * border walls only; ShowRawContours never varies it.  A Shade names such a
 * colour by how many colours were drawn before it and how often it was varied;
 * the float values are not modelled.
 */
module RecastLayouts {
  import opened Wrappers
  import opened DbgGeometry

  /** Recast's RC_MESH_NULL_IDX: an unused vertex slot of a polygon. */
  const RC_MESH_NULL_IDX: int := 0xffff

  /** Recast's RC_AREA_BORDER: bit 17 of a contour vertex's flag word. */
  const RC_AREA_BORDER: int := 0x20000

  /** The random colour drawn `draw`-th after reseeding, passed `varied` times through VaryColor. */
  datatype Shade = Shade(draw: nat, varied: nat)

  function RandomColour(draw: nat): Shade
  {
    Shade(draw, 0)
  }

  function VaryColor(c: Shade): Shade
  {
    Shade(c.draw, c.varied + 1)
  }

  /**
   * `flags & RC_AREA_BORDER != 0` on a two's-complement int: bit 17 of x is
   * floor(x / 2^17) mod 2, and Dafny's division by a positive divisor floors.
   */
  predicate HasBorderFlag(flags: int)
  {
    (flags / RC_AREA_BORDER) % 2 == 1
  }

  /**
   * On a C# int the floor-division test is `flags & RC_AREA_BORDER != 0`,
   * the int's 32 bits being its two's-complement word.
   */
  lemma HasBorderFlagIsBitAnd(flags: int)
    requires -0x8000_0000 <= flags < 0x8000_0000
    ensures var word := if flags < 0 then flags + 0x1_0000_0000 else flags;
            HasBorderFlag(flags) <==> (word as bv32) & 0x20000 != 0
  {
    if flags < 0 {
      BorderFlagWrap(flags);
      WordBorderFlag(flags + 0x1_0000_0000);
    } else {
      WordBorderFlag(flags);
    }
  }

  /** On an unsigned 32-bit word the test reads bit 17. */
  lemma WordBorderFlag(word: int)
    requires 0 <= word < 0x1_0000_0000
    ensures HasBorderFlag(word) <==> (word as bv32) & 0x20000 != 0
  {
  }

  /** Adding 2^32 (a multiple of 2^18) leaves bit 17 as it was. */
  lemma BorderFlagWrap(flags: int)
    ensures HasBorderFlag(flags + 0x1_0000_0000) == HasBorderFlag(flags)
  {
    var q := flags / RC_AREA_BORDER;
    var r := flags % RC_AREA_BORDER;
    assert flags + 0x1_0000_0000 == (q + 0x8000) * RC_AREA_BORDER + r;
    assert (flags + 0x1_0000_0000) / RC_AREA_BORDER == q + 0x8000;
  }

  // ===========================================================================
  // rcPolyMesh (ShowRecastNavmesh)

  /** The fields of rcPolyMesh the navmesh renderer reads. */
  datatype PolyMesh = PolyMesh(npolys: int, nvp: int, polys: seq<int>, verts: seq<int>, cs: real, ch: real)

  /** Polygon i's entries start at i * nvp * 2 (vertex slots, then neighbour slots). */
  function PolyBase(pm: PolyMesh, i: int): int
  {
    i * pm.nvp * 2
  }

  predicate PolyInRange(pm: PolyMesh, i: int)
  {
    0 <= pm.nvp && 0 <= PolyBase(pm, i) && PolyBase(pm, i) + pm.nvp <= |pm.polys|
  }

  /** Vertex slot j of polygon i. */
  function PolySlot(pm: PolyMesh, i: int, j: int): int
    requires PolyInRange(pm, i) && 0 <= j < pm.nvp
  {
    pm.polys[PolyBase(pm, i) + j]
  }

  /**
   * Where the fan loop stops when it starts at slot j: the first slot from j
   * on that is RC_MESH_NULL_IDX, or nvp.
   */
  function FanEnd(pm: PolyMesh, i: int, j: int): (e: int)
    requires PolyInRange(pm, i) && 2 <= j
    ensures j <= e && (e == j || e <= pm.nvp)
    ensures forall q :: j <= q < e ==> PolySlot(pm, i, q) != RC_MESH_NULL_IDX
    ensures e < pm.nvp ==> PolySlot(pm, i, e) == RC_MESH_NULL_IDX
    decreases pm.nvp - j
  {
    if j >= pm.nvp || PolySlot(pm, i, j) == RC_MESH_NULL_IDX then j else FanEnd(pm, i, j + 1)
  }

  /** The stop slot is the only one with FanEnd's two properties. */
  lemma FanEndIs(pm: PolyMesh, i: int, e: int)
    requires PolyInRange(pm, i) && 2 <= e && (e == 2 || e <= pm.nvp)
    requires forall q :: 2 <= q < e ==> PolySlot(pm, i, q) != RC_MESH_NULL_IDX
    requires e < pm.nvp ==> PolySlot(pm, i, e) == RC_MESH_NULL_IDX
    ensures FanEnd(pm, i, 2) == e
  {
  }

  /**
   * In a polygon whose unused slots all come after its m used ones (as Recast
   * builds them), the fan has max(0, m-2) triangles.
   */
  lemma FanCountForNullSuffix(pm: PolyMesh, i: int, m: int)
    requires PolyInRange(pm, i) && 0 <= m <= pm.nvp
    requires forall q :: 0 <= q < m ==> PolySlot(pm, i, q) != RC_MESH_NULL_IDX
    requires forall q :: m <= q < pm.nvp ==> PolySlot(pm, i, q) == RC_MESH_NULL_IDX
    ensures FanEnd(pm, i, 2) - 2 == if m < 2 then 0 else m - 2
  {
    if m >= 2 {
      FanEndIs(pm, i, m);
    } else {
      FanEndIs(pm, i, 2);
    }
  }

  predicate GridVertexInRange(pm: PolyMesh, v: int)
  {
    0 <= v && 3 * v + 2 < |pm.verts|
  }

  /** Vertex v of the poly mesh in world space: bmin + cell coordinates scaled, lifted one cell and 0.1. */
  function GridVertex(pm: PolyMesh, bmin: seq<real>, v: int): Vec3
    requires |bmin| >= 3 && GridVertexInRange(pm, v)
  {
    Vec3(bmin[0] + (pm.verts[3 * v] as real) * pm.cs,
         bmin[1] + ((pm.verts[3 * v + 1] + 1) as real) * pm.ch + 0.1,
         bmin[2] + (pm.verts[3 * v + 2] as real) * pm.cs)
  }

  /** GridVertex read at vIndex = 3v, the way the renderer indexes verts. */
  lemma GridVertexAt(pm: PolyMesh, bmin: seq<real>, v: int, vIndex: int)
    requires |bmin| >= 3 && GridVertexInRange(pm, v) && vIndex == v * 3
    ensures 0 <= vIndex && vIndex + 2 < |pm.verts|
    ensures GridVertex(pm, bmin, v) ==
            Vec3(bmin[0] + (pm.verts[vIndex + 0] as real) * pm.cs,
                 bmin[1] + ((pm.verts[vIndex + 1] + 1) as real) * pm.ch + 0.1,
                 bmin[2] + (pm.verts[vIndex + 2] as real) * pm.cs)
  {
    assert vIndex == 3 * v;
    assert pm.verts[vIndex + 0] == pm.verts[3 * v];
    assert pm.verts[vIndex + 1] == pm.verts[3 * v + 1];
    assert pm.verts[vIndex + 2] == pm.verts[3 * v + 2];
    var g := GridVertex(pm, bmin, v);
    assert g.x == bmin[0] + (pm.verts[vIndex + 0] as real) * pm.cs;
    assert g.y == bmin[1] + ((pm.verts[vIndex + 1] + 1) as real) * pm.ch + 0.1;
    assert g.z == bmin[2] + (pm.verts[vIndex + 2] as real) * pm.cs;
  }

  /**
   * Every slot polygon i's fan reads is inside polys, and every vertex it
   * names is inside verts (when slot 2 is already unused, no vertex is read).
   */
  predicate PolyReadable(pm: PolyMesh, i: int)
  {
    pm.nvp <= 2 ||
    (PolyInRange(pm, i) &&
     (FanEnd(pm, i, 2) > 2 ==> forall k :: 0 <= k < FanEnd(pm, i, 2) ==> GridVertexInRange(pm, PolySlot(pm, i, k))))
  }

  predicate PolyMeshReadable(pm: PolyMesh, bmin: seq<real>)
  {
    |bmin| >= 3 && forall i :: 0 <= i < pm.npolys ==> PolyReadable(pm, i)
  }

  /** The number of triangles ShowRecastNavmesh draws for polygon i: one per used slot from slot 2 on. */
  function FanCount(pm: PolyMesh, i: int): nat
    requires PolyReadable(pm, i)
  {
    if pm.nvp <= 2 then 0 else FanEnd(pm, i, 2) - 2
  }

  /** The triangle of slot j of polygon i: (slot 0, slot j-1, slot j), in colour i varied j-1 times. */
  function FanTriangle(pm: PolyMesh, bmin: seq<real>, i: nat, j: int): Triangle<Shade>
    requires |bmin| >= 3 && PolyReadable(pm, i) && 2 <= j < FanCount(pm, i) + 2
  {
    UniformTriangle(GridVertex(pm, bmin, PolySlot(pm, i, 0)), GridVertex(pm, bmin, PolySlot(pm, i, j - 1)),
                    GridVertex(pm, bmin, PolySlot(pm, i, j)), Shade(i, j - 1))
  }

  /** What ShowRecastNavmesh draws for polygon i: its fan from slot 0, slot by slot. */
  function PolygonTriangles(pm: PolyMesh, bmin: seq<real>, i: nat): (r: seq<Triangle<Shade>>)
    requires |bmin| >= 3 && PolyReadable(pm, i)
    ensures |r| == FanCount(pm, i)
  {
    seq(FanCount(pm, i), t requires 0 <= t < FanCount(pm, i) => FanTriangle(pm, bmin, i, t + 2))
  }

  /** What ShowRecastNavmesh draws for the first n polygons. */
  function NavmeshTriangles(pm: PolyMesh, bmin: seq<real>, n: int): seq<Triangle<Shade>>
    requires PolyMeshReadable(pm, bmin) && (n <= 0 || n <= pm.npolys)
    decreases n
  {
    if n <= 0 then [] else NavmeshTriangles(pm, bmin, n - 1) + PolygonTriangles(pm, bmin, n - 1)
  }

  /**
   * The triangles of each polygon, in the order ShowRecastNavmesh draws them:
   * item i has FanCount(pm, i) triangles, the t-th being the triangle of slot
   * t + 2, and the items concatenated are NavmeshTriangles.
   */
  lemma NavmeshPlan(pm: PolyMesh, bmin: seq<real>) returns (parts: seq<seq<Triangle<Shade>>>)
    requires PolyMeshReadable(pm, bmin)
    ensures |parts| == if pm.npolys < 0 then 0 else pm.npolys
    ensures forall i :: 0 <= i < |parts| ==> PolyReadable(pm, i) && |parts[i]| == FanCount(pm, i)
    ensures forall i, t :: 0 <= i < |parts| && 0 <= t < |parts[i]| ==> parts[i][t] == FanTriangle(pm, bmin, i, t + 2)
    ensures forall i {:trigger PolygonTriangles(pm, bmin, i)} :: 0 <= i < |parts| ==> parts[i] == PolygonTriangles(pm, bmin, i)
    ensures forall n {:trigger NavmeshTriangles(pm, bmin, n)} :: 0 <= n <= |parts| ==> Concat(parts, n) == NavmeshTriangles(pm, bmin, n)
  {
    var count := if pm.npolys < 0 then 0 else pm.npolys;
    parts := seq(count, i requires 0 <= i < count => PolygonTriangles(pm, bmin, i));
    forall n | 0 <= n <= |parts|
      ensures Concat(parts, n) == NavmeshTriangles(pm, bmin, n)
    {
      NavmeshConcat(pm, bmin, parts, n);
    }
  }

  lemma {:induction false} NavmeshConcat(pm: PolyMesh, bmin: seq<real>, parts: seq<seq<Triangle<Shade>>>, n: int)
    requires PolyMeshReadable(pm, bmin) && 0 <= n <= |parts| && (n == 0 || n <= pm.npolys)
    requires forall i :: 0 <= i < n ==> parts[i] == PolygonTriangles(pm, bmin, i)
    ensures Concat(parts, n) == NavmeshTriangles(pm, bmin, n)
    decreases n
  {
    if n > 0 {
      NavmeshConcat(pm, bmin, parts, n - 1);
      var last := parts[n - 1];
      assert last == PolygonTriangles(pm, bmin, n - 1);
      assert Concat(parts, n) == Concat(parts, n - 1) + last;
      assert NavmeshTriangles(pm, bmin, n) == NavmeshTriangles(pm, bmin, n - 1) + last;
    }
  }

  // ===========================================================================
  // rcPolyMeshDetail (ShowRecastDetailMesh)

  /** The fields of rcPolyMeshDetail the detail renderer reads (meshes are uint, tris bytes). */
  datatype PolyMeshDetail = PolyMeshDetail(nmeshes: int, meshes: seq<nat>, tris: seq<nat>, verts: seq<real>)

  /** Sub-mesh i's header: meshes[4i] = first vertex, meshes[4i+2] = first triangle, meshes[4i+3] = triangle count. */
  predicate SubMeshHeaderInRange(dm: PolyMeshDetail, i: int)
  {
    0 <= i && 4 * i + 3 < |dm.meshes|
  }

  /** Where corner k of triangle j of sub-mesh i is stored in tris: (btris + j) * 4 + k. */
  function DetailCornerIndex(dm: PolyMeshDetail, i: int, j: nat, k: nat): int
    requires SubMeshHeaderInRange(dm, i)
  {
    dm.meshes[4 * i + 2] * 4 + j * 4 + k
  }

  /** The detail vertex corner k of triangle j of sub-mesh i names: bverts + its local index. */
  function DetailCornerVertex(dm: PolyMeshDetail, i: int, j: nat, k: nat): int
    requires SubMeshHeaderInRange(dm, i) && DetailCornerIndex(dm, i, j, k) < |dm.tris|
  {
    dm.meshes[4 * i] + dm.tris[DetailCornerIndex(dm, i, j, k)]
  }

  predicate DetailCornerReadable(dm: PolyMeshDetail, i: int, j: nat, k: nat)
    requires SubMeshHeaderInRange(dm, i)
  {
    DetailCornerIndex(dm, i, j, k) < |dm.tris| && 3 * DetailCornerVertex(dm, i, j, k) + 2 < |dm.verts|
  }

  predicate SubMeshReadable(dm: PolyMeshDetail, i: int)
  {
    SubMeshHeaderInRange(dm, i) &&
    forall j: nat, k: nat :: j < dm.meshes[4 * i + 3] && k < 3 ==> DetailCornerReadable(dm, i, j, k)
  }

  predicate DetailMeshReadable(dm: PolyMeshDetail)
  {
    forall i :: 0 <= i < dm.nmeshes ==> SubMeshReadable(dm, i)
  }

  /** Corner k of triangle j of sub-mesh i in world space: verts[3v .. 3v+2] for its detail vertex v. */
  function DetailCorner(dm: PolyMeshDetail, i: int, j: nat, k: nat): Vec3
    requires SubMeshHeaderInRange(dm, i) && DetailCornerReadable(dm, i, j, k)
  {
    FlatPoint(dm.verts, DetailCornerVertex(dm, i, j, k))
  }

  /** Triangle j of sub-mesh i, in the sub-mesh's colour varied j+1 times. */
  function DetailTriangle(dm: PolyMeshDetail, i: nat, j: nat): Triangle<Shade>
    requires SubMeshReadable(dm, i) && j < dm.meshes[4 * i + 3]
  {
    UniformTriangle(DetailCorner(dm, i, j, 0), DetailCorner(dm, i, j, 1), DetailCorner(dm, i, j, 2), Shade(i, j + 1))
  }

  /** The first n triangles of sub-mesh i. */
  function SubMeshTriangles(dm: PolyMeshDetail, i: nat, n: nat): seq<Triangle<Shade>>
    requires SubMeshReadable(dm, i) && n <= dm.meshes[4 * i + 3]
  {
    if n == 0 then [] else SubMeshTriangles(dm, i, n - 1) + [DetailTriangle(dm, i, n - 1)]
  }

  /** What ShowRecastDetailMesh draws for the first n sub-meshes. */
  function DetailMeshTriangles(dm: PolyMeshDetail, n: int): seq<Triangle<Shade>>
    requires DetailMeshReadable(dm) && (n <= 0 || n <= dm.nmeshes)
    decreases n
  {
    if n <= 0 then []
    else
      assert SubMeshReadable(dm, n - 1);
      DetailMeshTriangles(dm, n - 1) + SubMeshTriangles(dm, n - 1, dm.meshes[4 * (n - 1) + 3])
  }

  /** The first n triangles of sub-mesh i are its triangles 0 .. n-1 in order. */
  lemma {:induction false} SubMeshTrianglesAt(dm: PolyMeshDetail, i: nat, n: nat)
    requires SubMeshReadable(dm, i) && n <= dm.meshes[4 * i + 3]
    ensures |SubMeshTriangles(dm, i, n)| == n
    ensures forall j :: 0 <= j < n ==> SubMeshTriangles(dm, i, n)[j] == DetailTriangle(dm, i, j)
  {
    if n > 0 {
      SubMeshTrianglesAt(dm, i, n - 1);
    }
  }

  /**
   * Sub-mesh i draws its ntris = meshes[4i+3] triangles in order; corner k of
   * triangle j is detail vertex meshes[4i] + tris[meshes[4i+2] * 4 + 4j + k],
   * and all three corners have the sub-mesh's colour varied j+1 times.
   */
  lemma SubMeshShape(dm: PolyMeshDetail, i: nat)
    requires SubMeshReadable(dm, i)
    ensures var n := dm.meshes[4 * i + 3];
            |SubMeshTriangles(dm, i, n)| == n &&
            forall j, k :: 0 <= j < n && 0 <= k < 3 ==>
              DetailCornerReadable(dm, i, j, k) &&
              SubMeshTriangles(dm, i, n)[j].Vert(k) ==
                FlatPoint(dm.verts, dm.meshes[4 * i] + dm.tris[dm.meshes[4 * i + 2] * 4 + 4 * j + k]) &&
              SubMeshTriangles(dm, i, n)[j].Colour(k) == Shade(i, j + 1)
  {
    var n := dm.meshes[4 * i + 3];
    SubMeshTrianglesAt(dm, i, n);
    forall j, k | 0 <= j < n && 0 <= k < 3
      ensures DetailCornerReadable(dm, i, j, k)
      ensures SubMeshTriangles(dm, i, n)[j].Vert(k) ==
                FlatPoint(dm.verts, dm.meshes[4 * i] + dm.tris[dm.meshes[4 * i + 2] * 4 + 4 * j + k])
      ensures SubMeshTriangles(dm, i, n)[j].Colour(k) == Shade(i, j + 1)
    {
      var t := DetailTriangle(dm, i, j);
      assert t.Vert(k) == DetailCorner(dm, i, j, k) && t.Colour(k) == Shade(i, j + 1);
    }
  }

  /**
   * The triangles of each sub-mesh, in the order ShowRecastDetailMesh draws
   * them: item i has ntris = meshes[4i+3] triangles, the j-th being
   * DetailTriangle(i, j), and the items concatenated are DetailMeshTriangles.
   */
  lemma DetailPlan(dm: PolyMeshDetail) returns (parts: seq<seq<Triangle<Shade>>>)
    requires DetailMeshReadable(dm)
    ensures |parts| == if dm.nmeshes < 0 then 0 else dm.nmeshes
    ensures forall i :: 0 <= i < |parts| ==> SubMeshReadable(dm, i) && |parts[i]| == dm.meshes[4 * i + 3]
    ensures forall i, j :: 0 <= i < |parts| && 0 <= j < |parts[i]| ==> parts[i][j] == DetailTriangle(dm, i, j)
    ensures forall n {:trigger DetailMeshTriangles(dm, n)} :: 0 <= n <= |parts| ==> Concat(parts, n) == DetailMeshTriangles(dm, n)
  {
    var count := if dm.nmeshes < 0 then 0 else dm.nmeshes;
    parts := seq(count, i requires 0 <= i < count =>
                   assert SubMeshReadable(dm, i); SubMeshTriangles(dm, i, dm.meshes[4 * i + 3]));
    forall i | 0 <= i < count && SubMeshReadable(dm, i)
      ensures |parts[i]| == dm.meshes[4 * i + 3]
      ensures forall j :: 0 <= j < |parts[i]| ==> parts[i][j] == DetailTriangle(dm, i, j)
    {
      SubMeshTrianglesAt(dm, i, dm.meshes[4 * i + 3]);
    }
    forall n | 0 <= n <= count
      ensures Concat(parts, n) == DetailMeshTriangles(dm, n)
    {
      DetailConcat(dm, parts, n);
    }
  }

  lemma {:induction false} DetailConcat(dm: PolyMeshDetail, parts: seq<seq<Triangle<Shade>>>, n: int)
    requires DetailMeshReadable(dm) && 0 <= n <= |parts| && (n == 0 || n <= dm.nmeshes)
    requires forall i :: 0 <= i < n ==> SubMeshReadable(dm, i) && parts[i] == SubMeshTriangles(dm, i, dm.meshes[4 * i + 3])
    ensures Concat(parts, n) == DetailMeshTriangles(dm, n)
    decreases n
  {
    if n > 0 {
      DetailConcat(dm, parts, n - 1);
      var last := parts[n - 1];
      assert last == SubMeshTriangles(dm, n - 1, dm.meshes[4 * (n - 1) + 3]);
      assert Concat(parts, n) == Concat(parts, n - 1) + last;
      assert DetailMeshTriangles(dm, n) == DetailMeshTriangles(dm, n - 1) + last;
    }
  }

  // ===========================================================================
  // rcContourSet (ShowRawContours, ShowContours)

  /** The fields of rcContour the contour renderers read: 4 ints per vertex (x, y, z, flags). */
  datatype Contour = Contour(verts: seq<int>, nverts: int, rverts: seq<int>, nrverts: int, reg: int)

  datatype ContourSet = ContourSet(conts: seq<Contour>, nconts: int, bmin: seq<real>, cs: real, ch: real)

  /** Vertex v of a contour's vertex list in world space; odd contours are lifted one more cell. */
  function ContourPoint(cset: ContourSet, vs: seq<int>, v: int, i: nat): Vec3
    requires |cset.bmin| >= 3 && 0 <= v && 4 * v + 2 < |vs|
  {
    Vec3(cset.bmin[0] + (vs[4 * v] as real) * cset.cs,
         cset.bmin[1] + ((vs[4 * v + 1] + 1 + i % 2) as real) * cset.ch,
         cset.bmin[2] + (vs[4 * v + 2] as real) * cset.cs)
  }

  /** ContourPoint read at vStart = 4v, the way the contour renderers index a vertex list. */
  lemma ContourPointAt(cset: ContourSet, vs: seq<int>, v: int, i: nat, vStart: int)
    requires |cset.bmin| >= 3 && 0 <= v && 4 * v + 2 < |vs| && vStart == v * 4
    ensures 0 <= vStart && vStart + 2 < |vs|
    ensures ContourPoint(cset, vs, v, i) ==
            Vec3(cset.bmin[0] + (vs[vStart + 0] as real) * cset.cs,
                 cset.bmin[1] + ((vs[vStart + 1] + 1 + i % 2) as real) * cset.ch,
                 cset.bmin[2] + (vs[vStart + 2] as real) * cset.cs)
  {
    assert vStart == 4 * v;
    assert vs[vStart + 0] == vs[4 * v];
    assert vs[vStart + 1] == vs[4 * v + 1];
    assert vs[vStart + 2] == vs[4 * v + 2];
    var q := ContourPoint(cset, vs, v, i);
    assert q.x == cset.bmin[0] + (vs[vStart + 0] as real) * cset.cs;
    assert q.y == cset.bmin[1] + ((vs[vStart + 1] + 1 + i % 2) as real) * cset.ch;
    assert q.z == cset.bmin[2] + (vs[vStart + 2] as real) * cset.cs;
  }

  /** The height of a contour wall (the 0.5f passed to AddVerticalQuad). */
  const WallHeight: real := 0.5

  // ---------------------------------------------------------------------------
  // Raw contours

  /** Number of contours before i with raw vertices: the random colours ShowRawContours drew before contour i. */
  function RawDraws(cset: ContourSet, i: int): nat
    requires i <= |cset.conts|
    decreases i
  {
    if i <= 0 then 0 else RawDraws(cset, i - 1) + (if cset.conts[i - 1].nrverts != 0 then 1 else 0)
  }

  /** ShowRawContours's colour for contour i, which only contours with raw vertices draw. */
  function RawColour(cset: ContourSet, i: int): Shade
    requires i <= |cset.conts|
  {
    RandomColour(RawDraws(cset, i))
  }

  /** The number of raw vertices the outline loop visits: the start vertex is read even when nrverts < 1. */
  function RawVisited(c: Contour): int
  {
    if c.nrverts < 1 then 1 else c.nrverts
  }

  predicate RawContourReadable(c: Contour)
  {
    c.nrverts == 0 || 4 * RawVisited(c) - 1 <= |c.rverts|
  }

  predicate RawContoursReadable(cset: ContourSet)
  {
    |cset.bmin| >= 3 && cset.nconts <= |cset.conts| &&
    forall i :: 0 <= i < cset.nconts ==> RawContourReadable(cset.conts[i])
  }

  function RawPoint(cset: ContourSet, i: nat, v: int): Vec3
    requires |cset.bmin| >= 3 && i < |cset.conts| && cset.conts[i].nrverts != 0
    requires RawContourReadable(cset.conts[i]) && 0 <= v < RawVisited(cset.conts[i])
  {
    ContourPoint(cset, cset.conts[i].rverts, v, i)
  }

  /** The walls on raw segments 1 .. j-1 of contour i: segment s joins raw vertex s-1 to raw vertex s. */
  function RawChain(cset: ContourSet, i: nat, j: int, col: Shade): seq<Triangle<Shade>>
    requires |cset.bmin| >= 3 && i < |cset.conts| && cset.conts[i].nrverts != 0
    requires RawContourReadable(cset.conts[i]) && 1 <= j <= RawVisited(cset.conts[i])
    decreases j
  {
    if j == 1 then []
    else RawChain(cset, i, j - 1, col) + VerticalQuad(RawPoint(cset, i, j - 2), RawPoint(cset, i, j - 1), WallHeight, col)
  }

  /** The closed raw outline of contour i: the chain, then the wall from the last vertex back to the first. */
  function RawOutline(cset: ContourSet, i: nat, col: Shade): seq<Triangle<Shade>>
    requires |cset.bmin| >= 3 && i < |cset.conts| && cset.conts[i].nrverts != 0
    requires RawContourReadable(cset.conts[i])
  {
    var m := RawVisited(cset.conts[i]);
    RawChain(cset, i, m, col) + VerticalQuad(RawPoint(cset, i, m - 1), RawPoint(cset, i, 0), WallHeight, col)
  }

  /** Wall s of contour i's raw outline: from raw vertex s to its cyclic successor, in the contour's colour. */
  function RawWall(cset: ContourSet, i: nat, s: int): seq<Triangle<Shade>>
    requires |cset.bmin| >= 3 && i < |cset.conts| && cset.conts[i].nrverts != 0
    requires RawContourReadable(cset.conts[i]) && 0 <= s < RawVisited(cset.conts[i])
  {
    var m := RawVisited(cset.conts[i]);
    VerticalQuad(RawPoint(cset, i, s), RawPoint(cset, i, Succ(s, m)), WallHeight, RawColour(cset, i))
  }

  /** What ShowRawContours draws for contour i: nothing without raw vertices, otherwise its raw outline. */
  function RawPart(cset: ContourSet, i: int): seq<Triangle<Shade>>
    requires RawContoursReadable(cset) && 0 <= i < cset.nconts
  {
    if cset.conts[i].nrverts == 0 then [] else RawOutline(cset, i, RawColour(cset, i))
  }

  /** RawPart of every contour, in order. */
  function RawParts(cset: ContourSet): (r: seq<seq<Triangle<Shade>>>)
    requires RawContoursReadable(cset)
    ensures |r| == if cset.nconts < 0 then 0 else cset.nconts
  {
    var count := if cset.nconts < 0 then 0 else cset.nconts;
    seq(count, i requires 0 <= i < count => RawPart(cset, i))
  }

  /** What ShowRawContours draws for the first n contours, contour after contour. */
  function RawContourTriangles(cset: ContourSet, n: int): seq<Triangle<Shade>>
    requires RawContoursReadable(cset) && (n <= 0 || n <= cset.nconts)
  {
    Concat(RawParts(cset), n)
  }

  /** The cyclic successor of vertex s in a loop of n vertices. */
  function Succ(s: int, n: int): int
  {
    if s == n - 1 then 0 else s + 1
  }

  /** The cyclic predecessor of vertex j in a loop of n vertices. */
  function Pred(j: int, n: int): int
  {
    if j == 0 then n - 1 else j - 1
  }

  /** The chain up to j has 4(j-1) triangles; the four of segment s (1 <= s < j) are the wall from vertex s-1 to s. */
  lemma {:induction false} RawChainShape(cset: ContourSet, i: nat, j: int, col: Shade)
    requires |cset.bmin| >= 3 && i < |cset.conts| && cset.conts[i].nrverts != 0
    requires RawContourReadable(cset.conts[i]) && 1 <= j <= RawVisited(cset.conts[i])
    ensures |RawChain(cset, i, j, col)| == 4 * (j - 1)
    ensures forall s :: 1 <= s < j ==>
              RawChain(cset, i, j, col)[4 * (s - 1) .. 4 * s] ==
              VerticalQuad(RawPoint(cset, i, s - 1), RawPoint(cset, i, s), WallHeight, col)
    decreases j
  {
    if j > 1 {
      RawChainShape(cset, i, j - 1, col);
      var prev := RawChain(cset, i, j - 1, col);
      var last := VerticalQuad(RawPoint(cset, i, j - 2), RawPoint(cset, i, j - 1), WallHeight, col);
      forall s | 1 <= s < j
        ensures (prev + last)[4 * (s - 1) .. 4 * s] ==
                VerticalQuad(RawPoint(cset, i, s - 1), RawPoint(cset, i, s), WallHeight, col)
      {
        if s < j - 1 {
          assert (prev + last)[4 * (s - 1) .. 4 * s] == prev[4 * (s - 1) .. 4 * s];
        } else {
          assert (prev + last)[4 * (s - 1) .. 4 * s] == last;
        }
      }
    }
  }

  /**
   * A contour with n >= 1 raw vertices is drawn as exactly n walls: wall s
   * joins raw vertex s to its cyclic successor, so the outline is closed.  A
   * negative count draws one wall from the start vertex back to itself.
   */
  lemma RawOutlineShape(cset: ContourSet, i: nat, col: Shade)
    requires |cset.bmin| >= 3 && i < |cset.conts| && cset.conts[i].nrverts != 0
    requires RawContourReadable(cset.conts[i])
    ensures var n := RawVisited(cset.conts[i]);
            |RawOutline(cset, i, col)| == 4 * n &&
            forall s :: 0 <= s < n ==>
              RawOutline(cset, i, col)[4 * s .. 4 * s + 4] ==
              VerticalQuad(RawPoint(cset, i, s), RawPoint(cset, i, Succ(s, n)), WallHeight, col)
  {
    var n := RawVisited(cset.conts[i]);
    RawChainShape(cset, i, n, col);
    var chain := RawChain(cset, i, n, col);
    var closing := VerticalQuad(RawPoint(cset, i, n - 1), RawPoint(cset, i, 0), WallHeight, col);
    forall s | 0 <= s < n
      ensures (chain + closing)[4 * s .. 4 * s + 4] ==
              VerticalQuad(RawPoint(cset, i, s), RawPoint(cset, i, Succ(s, n)), WallHeight, col)
    {
      if s < n - 1 {
        assert (chain + closing)[4 * s .. 4 * s + 4] == chain[4 * s .. 4 * (s + 1)];
      } else {
        assert (chain + closing)[4 * s .. 4 * s + 4] == closing;
      }
    }
  }

  /** The chain up to j is the first j-1 walls of a wall list that has ShowRawContours's wall s at s. */
  lemma {:induction false} RawChainWalls(cset: ContourSet, i: nat, j: int, col: Shade, walls: seq<seq<Triangle<Shade>>>)
    requires |cset.bmin| >= 3 && i < |cset.conts| && cset.conts[i].nrverts != 0
    requires RawContourReadable(cset.conts[i]) && 1 <= j <= RawVisited(cset.conts[i])
    requires |walls| == RawVisited(cset.conts[i])
    requires forall s :: 0 <= s < |walls| ==>
               walls[s] == VerticalQuad(RawPoint(cset, i, s), RawPoint(cset, i, Succ(s, |walls|)), WallHeight, col)
    ensures RawChain(cset, i, j, col) == Concat(walls, j - 1)
    decreases j
  {
    if j > 1 {
      RawChainWalls(cset, i, j - 1, col, walls);
      assert Succ(j - 2, |walls|) == j - 1;
    }
  }

  /**
   * The walls of each contour, in the order ShowRawContours draws them: none
   * for a contour without raw vertices, otherwise wall s from each visited raw
   * vertex s to its cyclic successor.  parts[i] is contour i's walls in a row,
   * and the parts concatenated are RawContourTriangles.
   */
  lemma RawPlan(cset: ContourSet) returns (parts: seq<seq<Triangle<Shade>>>, walls: seq<seq<seq<Triangle<Shade>>>>)
    requires RawContoursReadable(cset)
    ensures |parts| == |walls| == if cset.nconts < 0 then 0 else cset.nconts
    ensures forall i :: 0 <= i < |walls| ==> parts[i] == Concat(walls[i], |walls[i]|)
    ensures forall i :: 0 <= i < |walls| && cset.conts[i].nrverts == 0 ==> walls[i] == []
    ensures forall i :: 0 <= i < |walls| && cset.conts[i].nrverts != 0 ==>
              RawContourReadable(cset.conts[i]) && |walls[i]| == RawVisited(cset.conts[i])
    ensures forall i, s {:trigger RawWall(cset, i, s)} ::
              0 <= i < |walls| && cset.conts[i].nrverts != 0 && 0 <= s < |walls[i]| ==> walls[i][s] == RawWall(cset, i, s)
    ensures forall n {:trigger RawContourTriangles(cset, n)} :: 0 <= n <= |parts| ==> Concat(parts, n) == RawContourTriangles(cset, n)
  {
    var count := if cset.nconts < 0 then 0 else cset.nconts;
    walls := seq(count, i requires 0 <= i < count =>
                   var c := cset.conts[i];
                   if c.nrverts == 0 then []
                   else
                     var m := RawVisited(c);
                     seq(m, s requires 0 <= s < m => RawWall(cset, i, s)));
    parts := RawParts(cset);
    forall i | 0 <= i < count
      ensures parts[i] == Concat(walls[i], |walls[i]|)
    {
      if cset.conts[i].nrverts != 0 {
        var m := RawVisited(cset.conts[i]);
        RawChainWalls(cset, i, m, RawColour(cset, i), walls[i]);
      }
    }
  }

  // ---------------------------------------------------------------------------
  // Simplified contours

  /** Number of contours before i with vertices: the random colours ShowContours drew before contour i. */
  function ContourDraws(cset: ContourSet, i: int): nat
    requires i <= |cset.conts|
    decreases i
  {
    if i <= 0 then 0 else ContourDraws(cset, i - 1) + (if cset.conts[i - 1].nverts != 0 then 1 else 0)
  }

  /** ShowContours's colour for contour i, which only contours with vertices draw. */
  function ContourColour(cset: ContourSet, i: int): Shade
    requires i <= |cset.conts|
  {
    RandomColour(ContourDraws(cset, i))
  }

  predicate ContourReadable(c: Contour)
  {
    c.nverts <= 0 || 4 * c.nverts <= |c.verts|
  }

  predicate ContoursReadable(cset: ContourSet)
  {
    |cset.bmin| >= 3 && cset.nconts <= |cset.conts| &&
    forall i :: 0 <= i < cset.nconts ==> ContourReadable(cset.conts[i])
  }

  /** The number of vertices the edge loop of ShowContours visits: none when nverts is negative. */
  function EdgeCount(c: Contour): nat
  {
    if c.nverts < 0 then 0 else c.nverts
  }

  /** Contour i's vertices in world space. */
  function ContourPoints(cset: ContourSet, i: nat): (r: seq<Vec3>)
    requires |cset.bmin| >= 3 && i < |cset.conts| && ContourReadable(cset.conts[i])
    ensures |r| == EdgeCount(cset.conts[i])
  {
    var c := cset.conts[i];
    seq(EdgeCount(c), v requires 0 <= v < EdgeCount(c) => ContourPoint(cset, c.verts, v, i))
  }

  /** Which of a contour's vertices carry RC_AREA_BORDER in their flag word. */
  function ContourBorders(c: Contour): (r: seq<bool>)
    requires ContourReadable(c)
    ensures |r| == EdgeCount(c)
  {
    seq(EdgeCount(c), v requires 0 <= v < EdgeCount(c) => HasBorderFlag(c.verts[4 * v + 3]))
  }

  /**
   * Edge j of a closed outline: the wall from the cyclic predecessor of point
   * j to point j, in the varied colour when that predecessor is a border vertex.
   */
  function RingEdge(points: seq<Vec3>, border: seq<bool>, j: int, col: Shade): seq<Triangle<Shade>>
    requires |border| == |points| && 0 <= j < |points|
  {
    var k := Pred(j, |points|);
    VerticalQuad(points[k], points[j], WallHeight, if border[k] then VaryColor(col) else col)
  }

  /** Edges 0 .. j-1 of a closed outline. */
  function RingEdges(points: seq<Vec3>, border: seq<bool>, j: int, col: Shade): seq<Triangle<Shade>>
    requires |border| == |points| && 0 <= j <= |points|
    decreases j
  {
    if j == 0 then [] else RingEdges(points, border, j - 1, col) + RingEdge(points, border, j - 1, col)
  }

  /** What ShowContours draws for contour i in colour col: one wall per vertex. */
  function ContourOutline(cset: ContourSet, i: nat, col: Shade): seq<Triangle<Shade>>
    requires |cset.bmin| >= 3 && i < |cset.conts| && ContourReadable(cset.conts[i])
  {
    var c := cset.conts[i];
    RingEdges(ContourPoints(cset, i), ContourBorders(c), EdgeCount(c), col)
  }

  /**
   * Wall s of contour i's outline: from vertex Pred(s) to vertex s, in the
   * contour's colour varied once when vertex Pred(s) is a border vertex.
   */
  function ContourWall(cset: ContourSet, i: nat, s: int): seq<Triangle<Shade>>
    requires |cset.bmin| >= 3 && i < |cset.conts| && ContourReadable(cset.conts[i])
    requires 0 <= s < EdgeCount(cset.conts[i])
  {
    var c := cset.conts[i];
    var k := Pred(s, EdgeCount(c));
    var col := ContourColour(cset, i);
    VerticalQuad(ContourPoint(cset, c.verts, k, i), ContourPoint(cset, c.verts, s, i), WallHeight,
                 if HasBorderFlag(c.verts[4 * k + 3]) then VaryColor(col) else col)
  }

  /** What ShowContours draws for contour i: nothing without vertices, otherwise its outline in its colour. */
  function ContourPart(cset: ContourSet, i: int): seq<Triangle<Shade>>
    requires ContoursReadable(cset) && 0 <= i < cset.nconts
  {
    if cset.conts[i].nverts == 0 then [] else ContourOutline(cset, i, ContourColour(cset, i))
  }

  /** ContourPart of every contour, in order. */
  function ContourParts(cset: ContourSet): (r: seq<seq<Triangle<Shade>>>)
    requires ContoursReadable(cset)
    ensures |r| == if cset.nconts < 0 then 0 else cset.nconts
  {
    var count := if cset.nconts < 0 then 0 else cset.nconts;
    seq(count, i requires 0 <= i < count => ContourPart(cset, i))
  }

  /** What ShowContours draws for the first n contours, contour after contour. */
  function ContourTriangles(cset: ContourSet, n: int): seq<Triangle<Shade>>
    requires ContoursReadable(cset) && (n <= 0 || n <= cset.nconts)
  {
    Concat(ContourParts(cset), n)
  }

  /** The first j edges make 4j triangles, the four of edge s being edge s's wall. */
  lemma {:induction false} RingEdgesShape(points: seq<Vec3>, border: seq<bool>, j: int, col: Shade)
    requires |border| == |points| && 0 <= j <= |points|
    ensures |RingEdges(points, border, j, col)| == 4 * j
    ensures forall s :: 0 <= s < j ==>
              RingEdges(points, border, j, col)[4 * s .. 4 * s + 4] == RingEdge(points, border, s, col)
    decreases j
  {
    if j > 0 {
      RingEdgesShape(points, border, j - 1, col);
      var prev := RingEdges(points, border, j - 1, col);
      var last := RingEdge(points, border, j - 1, col);
      forall s | 0 <= s < j
        ensures (prev + last)[4 * s .. 4 * s + 4] == RingEdge(points, border, s, col)
      {
        AppendBlock(prev, last, s);
      }
    }
  }

  /**
   * Edge j runs from point Pred(j) to point j (so edge 0 closes the loop from
   * the last point), and all its corners use the varied colour exactly when
   * the start point Pred(j) is a border vertex, and the plain colour otherwise.
   */
  lemma RingEdgeColours(points: seq<Vec3>, border: seq<bool>, j: int, col: Shade)
    requires |border| == |points| && 0 <= j < |points|
    ensures var k := Pred(j, |points|);
            var e := RingEdge(points, border, j, col);
            |e| == 4 &&
            e[1].Vert(2) == points[k] && e[0].Vert(2) == points[j] &&
            forall t, q :: 0 <= t < 4 && 0 <= q < 3 ==>
              (e[t].Colour(q) == VaryColor(col) <==> border[k]) &&
              (e[t].Colour(q) == col <==> !border[k])
  {
  }

  /** Edge s of contour i's outline, written out in the contour's own vertex data. */
  lemma ContourEdgeIs(cset: ContourSet, i: nat, s: int, col: Shade)
    requires |cset.bmin| >= 3 && i < |cset.conts| && ContourReadable(cset.conts[i])
    requires 0 <= s < EdgeCount(cset.conts[i])
    ensures var c := cset.conts[i];
            var k := Pred(s, EdgeCount(c));
            RingEdge(ContourPoints(cset, i), ContourBorders(c), s, col) ==
            VerticalQuad(ContourPoint(cset, c.verts, k, i), ContourPoint(cset, c.verts, s, i), WallHeight,
                         if HasBorderFlag(c.verts[4 * k + 3]) then VaryColor(col) else col)
  {
    var c := cset.conts[i];
    var points := ContourPoints(cset, i);
    var border := ContourBorders(c);
    var k := Pred(s, EdgeCount(c));
    var colour := if HasBorderFlag(c.verts[4 * k + 3]) then VaryColor(col) else col;
    assert points[k] == ContourPoint(cset, c.verts, k, i) && points[s] == ContourPoint(cset, c.verts, s, i);
    assert border[k] == HasBorderFlag(c.verts[4 * k + 3]);
    assert RingEdge(points, border, s, col) == VerticalQuad(points[k], points[s], WallHeight, colour);
  }

  /**
   * ShowContours draws contour i as one wall per vertex s, from world vertex
   * Pred(s) to world vertex s, varied exactly when the flag word of vertex
   * Pred(s) has RC_AREA_BORDER set.
   */
  lemma ContourOutlineShape(cset: ContourSet, i: nat, col: Shade)
    requires |cset.bmin| >= 3 && i < |cset.conts| && ContourReadable(cset.conts[i])
    ensures var c := cset.conts[i];
            var n := EdgeCount(c);
            |ContourOutline(cset, i, col)| == 4 * n &&
            forall s :: 0 <= s < n ==>
              var k := Pred(s, n);
              ContourOutline(cset, i, col)[4 * s .. 4 * s + 4] ==
              VerticalQuad(ContourPoint(cset, c.verts, k, i), ContourPoint(cset, c.verts, s, i), WallHeight,
                           if HasBorderFlag(c.verts[4 * k + 3]) then VaryColor(col) else col)
  {
    var c := cset.conts[i];
    RingEdgesShape(ContourPoints(cset, i), ContourBorders(c), EdgeCount(c), col);
    forall s | 0 <= s < EdgeCount(c) {
      ContourEdgeIs(cset, i, s, col);
    }
  }

  /** The first j edges of a ring are the first j entries of any wall list holding edge s at s. */
  lemma {:induction false} RingEdgesWalls(points: seq<Vec3>, border: seq<bool>, j: int, col: Shade,
                                          walls: seq<seq<Triangle<Shade>>>)
    requires |border| == |points| && 0 <= j <= |points| && |walls| == |points|
    requires forall s :: 0 <= s < |walls| ==> walls[s] == RingEdge(points, border, s, col)
    ensures RingEdges(points, border, j, col) == Concat(walls, j)
    decreases j
  {
    if j > 0 {
      RingEdgesWalls(points, border, j - 1, col, walls);
    }
  }

  /**
   * A wall list holding contour i's edge s at s is its outline wall by wall,
   * and wall s is the one from vertex Pred(s) to vertex s in the contour's own
   * vertex data.
   */
  lemma ContourOutlineWalls(cset: ContourSet, i: nat, col: Shade, walls: seq<seq<Triangle<Shade>>>)
    requires |cset.bmin| >= 3 && i < |cset.conts| && ContourReadable(cset.conts[i])
    requires |walls| == EdgeCount(cset.conts[i])
    requires forall s :: 0 <= s < |walls| ==>
               walls[s] == RingEdge(ContourPoints(cset, i), ContourBorders(cset.conts[i]), s, col)
    ensures ContourOutline(cset, i, col) == Concat(walls, |walls|)
    ensures forall s :: 0 <= s < |walls| ==>
              var c := cset.conts[i];
              var k := Pred(s, EdgeCount(c));
              walls[s] ==
              VerticalQuad(ContourPoint(cset, c.verts, k, i), ContourPoint(cset, c.verts, s, i), WallHeight,
                           if HasBorderFlag(c.verts[4 * k + 3]) then VaryColor(col) else col)
  {
    var c := cset.conts[i];
    RingEdgesWalls(ContourPoints(cset, i), ContourBorders(c), EdgeCount(c), col, walls);
    forall s | 0 <= s < |walls| {
      ContourEdgeIs(cset, i, s, col);
    }
  }

  /**
   * The walls of each contour, in the order ShowContours draws them: none for
   * a contour without vertices, otherwise wall s from vertex Pred(s) to vertex
   * s, varied when Pred(s) is a border vertex.  parts[i] is contour i's walls
   * in a row, and the parts concatenated are ContourTriangles.
   */
  lemma ContourPlan(cset: ContourSet) returns (parts: seq<seq<Triangle<Shade>>>, walls: seq<seq<seq<Triangle<Shade>>>>)
    requires ContoursReadable(cset)
    ensures |parts| == |walls| == if cset.nconts < 0 then 0 else cset.nconts
    ensures forall i :: 0 <= i < |walls| ==> parts[i] == Concat(walls[i], |walls[i]|)
    ensures forall i :: 0 <= i < |walls| && cset.conts[i].nverts == 0 ==> walls[i] == []
    ensures forall i :: 0 <= i < |walls| && cset.conts[i].nverts != 0 ==>
              ContourReadable(cset.conts[i]) && |walls[i]| == EdgeCount(cset.conts[i])
    ensures forall i, s {:trigger ContourWall(cset, i, s)} ::
              0 <= i < |walls| && cset.conts[i].nverts != 0 && 0 <= s < |walls[i]| ==> walls[i][s] == ContourWall(cset, i, s)
    ensures forall n {:trigger ContourTriangles(cset, n)} :: 0 <= n <= |parts| ==> Concat(parts, n) == ContourTriangles(cset, n)
  {
    var count := if cset.nconts < 0 then 0 else cset.nconts;
    walls := seq(count, i requires 0 <= i < count => ContourWalls(cset, i));
    parts := ContourParts(cset);
    forall i | 0 <= i < count
      ensures parts[i] == Concat(walls[i], |walls[i]|)
    {
      ContourPartWalls(cset, i);
    }
  }

  /** Contour i's walls in drawing order (none when it has no vertices). */
  function ContourWalls(cset: ContourSet, i: nat): (r: seq<seq<Triangle<Shade>>>)
    requires |cset.bmin| >= 3 && i < |cset.conts| && ContourReadable(cset.conts[i])
    ensures |r| == EdgeCount(cset.conts[i])
  {
    var n := EdgeCount(cset.conts[i]);
    seq(n, s requires 0 <= s < n => ContourWall(cset, i, s))
  }

  /** What ShowContours draws for contour i is its walls in a row. */
  lemma ContourPartWalls(cset: ContourSet, i: nat)
    requires ContoursReadable(cset) && i < cset.nconts
    ensures ContourPart(cset, i) == Concat(ContourWalls(cset, i), |ContourWalls(cset, i)|)
  {
    if cset.conts[i].nverts != 0 {
      var col := ContourColour(cset, i);
      var walls := ContourWalls(cset, i);
      forall s | 0 <= s < |walls|
        ensures walls[s] == RingEdge(ContourPoints(cset, i), ContourBorders(cset.conts[i]), s, col)
      {
        ContourEdgeIs(cset, i, s, col);
      }
      ContourOutlineWalls(cset, i, col, walls);
    }
  }

  // ===========================================================================
  // dtMeshTile (ShowTilePolyDetails)

  /** The fields of dtPoly the tile renderer reads (verts are ushort, vertCount a byte). */
  datatype Poly = Poly(verts: seq<nat>, vertCount: nat)

  /** The fields of dtPolyDetail the tile renderer reads. */
  datatype PolyDetail = PolyDetail(vertBase: nat, triBase: nat, triCount: nat)

  /** The fields of dtMeshTile the tile renderer reads (detailTris are bytes). */
  datatype MeshTile = MeshTile(polys: seq<Poly>, detailMeshes: seq<PolyDetail>, detailTris: seq<nat>,
                               verts: seq<real>, detailVerts: seq<real>)

  /** A dtNavMesh, seen only through getTile: an id either names a tile or getTile returns null. */
  datatype NavMesh = NavMesh(tiles: map<int, MeshTile>)

  function GetTile(navMesh: NavMesh, tileId: int): Option<MeshTile>
  {
    if tileId in navMesh.tiles then Some(navMesh.tiles[tileId]) else None
  }

  /** Which array a detail-triangle corner is read from, and which point of it. */
  datatype CornerSource = TileVertex(index: int) | DetailVertex(index: int)

  /** Detour's rule: a local index below vertCount names a polygon vertex, the rest name detail vertices. */
  function CornerSourceOf(poly: Poly, pd: PolyDetail, tk: nat): CornerSource
    requires tk < poly.vertCount ==> tk < |poly.verts|
  {
    if tk < poly.vertCount then TileVertex(poly.verts[tk]) else DetailVertex(pd.vertBase + (tk - poly.vertCount))
  }

  /** Detour's local numbering of a detail mesh: the polygon's own vertices, then its detailCount detail vertices. */
  function LocalVertices(poly: Poly, pd: PolyDetail, detailCount: nat): (r: seq<CornerSource>)
    requires poly.vertCount <= |poly.verts|
    ensures |r| == poly.vertCount + detailCount
  {
    seq(poly.vertCount, q requires 0 <= q < poly.vertCount => TileVertex(poly.verts[q])) +
    seq(detailCount, q => DetailVertex(pd.vertBase + q))
  }

  /** The index rule picks exactly the tk-th vertex of the local numbering. */
  lemma CornerSourceIsLocalVertex(poly: Poly, pd: PolyDetail, detailCount: nat, tk: nat)
    requires poly.vertCount <= |poly.verts| && tk < poly.vertCount + detailCount
    ensures CornerSourceOf(poly, pd, tk) == LocalVertices(poly, pd, detailCount)[tk]
  {
  }

  function SourceArray(tile: MeshTile, src: CornerSource): seq<real>
  {
    if src.TileVertex? then tile.verts else tile.detailVerts
  }

  predicate SourceInRange(tile: MeshTile, src: CornerSource)
  {
    0 <= src.index && 3 * src.index + 2 < |SourceArray(tile, src)|
  }

  /** The local index of corner k of detail triangle j of polygon i: detailTris[(triBase + j) * 4 + k]. */
  function TileCornerIndex(tile: MeshTile, i: nat, j: nat, k: nat): nat
    requires i < |tile.detailMeshes|
  {
    (tile.detailMeshes[i].triBase + j) * 4 + k
  }

  predicate TileCornerReadable(tile: MeshTile, i: nat, j: nat, k: nat)
    requires i < |tile.detailMeshes| && i < |tile.polys|
  {
    var poly := tile.polys[i];
    var idx := TileCornerIndex(tile, i, j, k);
    idx < |tile.detailTris| &&
    (tile.detailTris[idx] < poly.vertCount ==> tile.detailTris[idx] < |poly.verts|) &&
    SourceInRange(tile, CornerSourceOf(poly, tile.detailMeshes[i], tile.detailTris[idx]))
  }

  predicate TilePolyReadable(tile: MeshTile, i: nat)
    requires i < |tile.detailMeshes|
  {
    i < |tile.polys| &&
    forall j: nat, k: nat :: j < tile.detailMeshes[i].triCount && k < 3 ==> TileCornerReadable(tile, i, j, k)
  }

  predicate TileReadable(tile: MeshTile)
  {
    forall i: nat :: i < |tile.detailMeshes| ==> TilePolyReadable(tile, i)
  }

  /** Where corner k of detail triangle j of polygon i comes from. */
  function TileCornerSource(tile: MeshTile, i: nat, j: nat, k: nat): CornerSource
    requires i < |tile.detailMeshes| && i < |tile.polys| && TileCornerReadable(tile, i, j, k)
  {
    CornerSourceOf(tile.polys[i], tile.detailMeshes[i], tile.detailTris[TileCornerIndex(tile, i, j, k)])
  }

  /**
   * Corner k of detail triangle j of polygon i: with local index tk, polygon
   * vertex poly.verts[tk] when tk is below vertCount, else detail vertex
   * vertBase + (tk - vertCount).
   */
  function TileCorner(tile: MeshTile, i: nat, j: nat, k: nat): Vec3
    requires i < |tile.detailMeshes| && i < |tile.polys| && TileCornerReadable(tile, i, j, k)
  {
    var poly := tile.polys[i];
    var tk := tile.detailTris[TileCornerIndex(tile, i, j, k)];
    if tk < poly.vertCount then FlatPoint(tile.verts, poly.verts[tk])
    else FlatPoint(tile.detailVerts, tile.detailMeshes[i].vertBase + (tk - poly.vertCount))
  }

  /** Detail triangle j of polygon i, in the polygon's colour varied j+1 times. */
  function TileTriangle(tile: MeshTile, i: nat, j: nat): Triangle<Shade>
    requires i < |tile.detailMeshes| && TilePolyReadable(tile, i) && j < tile.detailMeshes[i].triCount
  {
    UniformTriangle(TileCorner(tile, i, j, 0), TileCorner(tile, i, j, 1), TileCorner(tile, i, j, 2), Shade(i, j + 1))
  }

  /** The first n detail triangles of polygon i. */
  function PolyDetailTriangles(tile: MeshTile, i: nat, n: nat): seq<Triangle<Shade>>
    requires i < |tile.detailMeshes| && TilePolyReadable(tile, i) && n <= tile.detailMeshes[i].triCount
  {
    if n == 0 then [] else PolyDetailTriangles(tile, i, n - 1) + [TileTriangle(tile, i, n - 1)]
  }

  /** What ShowTilePolyDetails draws for the first n polygons of a tile. */
  function TileTriangles(tile: MeshTile, n: nat): seq<Triangle<Shade>>
    requires TileReadable(tile) && n <= |tile.detailMeshes|
  {
    if n == 0 then []
    else TileTriangles(tile, n - 1) + PolyDetailTriangles(tile, n - 1, tile.detailMeshes[n - 1].triCount)
  }

  /**
   * Each corner is read from the array its source names, at the source's
   * index; and that source is the vertex of Detour's local numbering (polygon
   * vertices, then detail vertices) that the corner's local index selects.
   */
  lemma TileCornerRule(tile: MeshTile, i: nat, j: nat, k: nat)
    requires i < |tile.detailMeshes| && i < |tile.polys| && TileCornerReadable(tile, i, j, k)
    ensures var src := TileCornerSource(tile, i, j, k);
            SourceInRange(tile, src) && TileCorner(tile, i, j, k) == FlatPoint(SourceArray(tile, src), src.index)
    ensures var poly := tile.polys[i];
            var tk := tile.detailTris[TileCornerIndex(tile, i, j, k)];
            poly.vertCount <= |poly.verts| ==>
              TileCornerSource(tile, i, j, k) == LocalVertices(poly, tile.detailMeshes[i], tk + 1)[tk]
  {
    var poly := tile.polys[i];
    var tk := tile.detailTris[TileCornerIndex(tile, i, j, k)];
    if poly.vertCount <= |poly.verts| {
      CornerSourceIsLocalVertex(poly, tile.detailMeshes[i], tk + 1, tk);
    }
  }

  /** The first n detail triangles of polygon i are its triangles 0 .. n-1 in order. */
  lemma {:induction false} PolyDetailTrianglesAt(tile: MeshTile, i: nat, n: nat)
    requires i < |tile.detailMeshes| && TilePolyReadable(tile, i) && n <= tile.detailMeshes[i].triCount
    ensures |PolyDetailTriangles(tile, i, n)| == n
    ensures forall j :: 0 <= j < n ==> PolyDetailTriangles(tile, i, n)[j] == TileTriangle(tile, i, j)
  {
    if n > 0 {
      PolyDetailTrianglesAt(tile, i, n - 1);
      var prev := PolyDetailTriangles(tile, i, n - 1);
      assert PolyDetailTriangles(tile, i, n) == prev + [TileTriangle(tile, i, n - 1)];
    }
  }

  /** Polygon i draws its triCount detail triangles in order, each from its own corners. */
  lemma PolyDetailShape(tile: MeshTile, i: nat)
    requires i < |tile.detailMeshes| && TilePolyReadable(tile, i)
    ensures var n := tile.detailMeshes[i].triCount;
            |PolyDetailTriangles(tile, i, n)| == n &&
            forall j, k :: 0 <= j < n && 0 <= k < 3 ==>
              TileCornerReadable(tile, i, j, k) &&
              PolyDetailTriangles(tile, i, n)[j].Vert(k) == TileCorner(tile, i, j, k) &&
              PolyDetailTriangles(tile, i, n)[j].Colour(k) == Shade(i, j + 1)
  {
    var n := tile.detailMeshes[i].triCount;
    PolyDetailTrianglesAt(tile, i, n);
    forall j, k | 0 <= j < n && 0 <= k < 3
      ensures TileCornerReadable(tile, i, j, k)
      ensures PolyDetailTriangles(tile, i, n)[j].Vert(k) == TileCorner(tile, i, j, k)
      ensures PolyDetailTriangles(tile, i, n)[j].Colour(k) == Shade(i, j + 1)
    {
      var t := TileTriangle(tile, i, j);
      assert t.Vert(k) == TileCorner(tile, i, j, k) && t.Colour(k) == Shade(i, j + 1);
    }
  }

  /**
   * The triangles of each polygon of a tile, in the order ShowTilePolyDetails
   * draws them: item i has triCount triangles, the j-th being TileTriangle(i,
   * j), and the items concatenated are TileTriangles.
   */
  lemma TilePlan(tile: MeshTile) returns (parts: seq<seq<Triangle<Shade>>>)
    requires TileReadable(tile)
    ensures |parts| == |tile.detailMeshes|
    ensures forall i :: 0 <= i < |parts| ==>
              TilePolyReadable(tile, i) && |parts[i]| == tile.detailMeshes[i].triCount
    ensures forall i, j :: 0 <= i < |parts| && 0 <= j < |parts[i]| ==> parts[i][j] == TileTriangle(tile, i, j)
    ensures forall n {:trigger TileTriangles(tile, n)} :: 0 <= n <= |parts| ==> Concat(parts, n) == TileTriangles(tile, n)
  {
    var count := |tile.detailMeshes|;
    parts := seq(count, i requires 0 <= i < count => PolyDetailTriangles(tile, i, tile.detailMeshes[i].triCount));
    forall i | 0 <= i < count
      ensures |parts[i]| == tile.detailMeshes[i].triCount
      ensures forall j :: 0 <= j < |parts[i]| ==> parts[i][j] == TileTriangle(tile, i, j)
    {
      PolyDetailTrianglesAt(tile, i, tile.detailMeshes[i].triCount);
    }
    forall n | 0 <= n <= count
      ensures Concat(parts, n) == TileTriangles(tile, n)
    {
      TileConcat(tile, parts, n);
    }
  }

  lemma {:induction false} TileConcat(tile: MeshTile, parts: seq<seq<Triangle<Shade>>>, n: nat)
    requires TileReadable(tile) && n <= |parts| && n <= |tile.detailMeshes|
    requires forall i :: 0 <= i < n ==> parts[i] == PolyDetailTriangles(tile, i, tile.detailMeshes[i].triCount)
    ensures Concat(parts, n) == TileTriangles(tile, n)
  {
    if n > 0 {
      TileConcat(tile, parts, n - 1);
      var last := parts[n - 1];
      assert last == PolyDetailTriangles(tile, n - 1, tile.detailMeshes[n - 1].triCount);
      assert Concat(parts, n) == Concat(parts, n - 1) + last;
      assert TileTriangles(tile, n) == TileTriangles(tile, n - 1) + last;
    }
  }
}
