/**
 * The debug renderers of RcdtcsUnityUtils: each clears a DbgRenderMesh, walks
 * one Recast/Detour structure with the same index arithmetic as the C# code,
 * hands the triangles it finds to the mesh and rebuilds it.  Each is proved to
 * leave exactly the triangle list that RecastLayouts defines for its input.
 *
 * Reseeding Unity's generator with c_RandomSeed is modelled by starting a count
 * of drawn colours at zero.
 */
module RcdtcsUnityUtils {
  import opened Wrappers
  import opened DbgGeometry
  import opened RenderMesh
  import opened RecastLayouts

  /** Draws every polygon of a poly mesh as a fan of triangles from its first vertex. */
  method ShowRecastNavmesh(renderMesh: DbgRenderMesh<Shade>, pmesh: PolyMesh, bmin: seq<real>)
    requires PolyMeshReadable(pmesh, bmin)
    modifies renderMesh
    ensures renderMesh.triangles == NavmeshTriangles(pmesh, bmin, pmesh.npolys)
    ensures renderMesh.mesh == Rebuilt(old(renderMesh.mesh), renderMesh.triangles)
    ensures renderMesh.labels == 0 && !renderMesh.boundsComputed
    ensures renderMesh.hasLabelTemplate == old(renderMesh.hasLabelTemplate)
  {
    renderMesh.Clear();
    DrawPolygons(renderMesh, pmesh, bmin);
    renderMesh.Rebuild();
  }

  /**
   * ShowRecastNavmesh's polygon loop, from the reseeded generator on: polygon
   * i takes the i-th random colour, and the scratch arrays tri and verts are
   * allocated once and shared by all polygons.
   */
  method DrawPolygons(renderMesh: DbgRenderMesh<Shade>, pmesh: PolyMesh, bmin: seq<real>)
    requires PolyMeshReadable(pmesh, bmin)
    modifies renderMesh`triangles, renderMesh`boundsComputed
    ensures renderMesh.triangles == old(renderMesh.triangles) + NavmeshTriangles(pmesh, bmin, pmesh.npolys)
    ensures renderMesh.boundsComputed ==> old(renderMesh.boundsComputed)
  {
    var draws: nat := 0;
    var npolys := pmesh.npolys;
    var nvp := pmesh.nvp;
    var tri := new int[3];
    var verts := new Vec3[3];
    ghost var drawn := renderMesh.triangles;
    ghost var polygons := NavmeshPlan(pmesh, bmin);
    var i := 0;
    while i < npolys
      invariant 0 <= i && (i == 0 || i <= npolys) && draws == i
      invariant renderMesh.triangles == drawn + Concat(polygons, i)
      invariant renderMesh.boundsComputed ==> old(renderMesh.boundsComputed)
    {
      var pIndex := i * nvp * 2;
      var col := RandomColour(draws);
      draws := draws + 1;
      AppendAssoc(drawn, Concat(polygons, i), polygons[i]);
      ShowPolygonFan(renderMesh, pmesh, bmin, i, pIndex, col, tri, verts, polygons[i]);
      i := i + 1;
    }
    assert Concat(polygons, i) == NavmeshTriangles(pmesh, bmin, npolys);
  }

  /**
   * The body of ShowRecastNavmesh's polygon loop for polygon i, whose entries
   * start at pIndex: the triangle (slot 0, slot j-1, slot j) for each slot j
   * from 2 up to the first unused one, in the polygon's colour varied once
   * more each time.  tri and verts are the renderer's scratch arrays, shared
   * by all polygons; fan names the triangles this draws.
   */
  method ShowPolygonFan(renderMesh: DbgRenderMesh<Shade>, pmesh: PolyMesh, bmin: seq<real>, i: nat, pIndex: int,
                        col0: Shade, tri: array<int>, verts: array<Vec3>, ghost fan: seq<Triangle<Shade>>)
    requires |bmin| >= 3 && PolyReadable(pmesh, i) && pIndex == PolyBase(pmesh, i) && col0 == RandomColour(i)
    requires |fan| == FanCount(pmesh, i) && forall t :: 0 <= t < |fan| ==> fan[t] == FanTriangle(pmesh, bmin, i, t + 2)
    requires tri.Length == 3 && verts.Length == 3
    modifies renderMesh`triangles, renderMesh`boundsComputed, tri, verts
    ensures renderMesh.triangles == old(renderMesh.triangles) + fan
    ensures renderMesh.boundsComputed ==> old(renderMesh.boundsComputed)
  {
    var nvp := pmesh.nvp;
    var col := col0;
    ghost var drawn := renderMesh.triangles;
    var j := 2;
    while j < nvp
      invariant 2 <= j && col == Shade(i, j - 2)
      invariant nvp > 2 ==> j <= FanEnd(pmesh, i, 2)
      invariant j - 2 <= |fan|
      invariant renderMesh.triangles == drawn + fan[..j - 2]
      invariant renderMesh.boundsComputed ==> old(renderMesh.boundsComputed)
    {
      assert pmesh.polys[pIndex + j] == PolySlot(pmesh, i, j);
      if pmesh.polys[pIndex + j] == RC_MESH_NULL_IDX {
        break;
      }
      tri[0] := pmesh.polys[pIndex];
      tri[1] := pmesh.polys[pIndex + j - 1];
      tri[2] := pmesh.polys[pIndex + j];
      assert tri[0] == PolySlot(pmesh, i, 0) && tri[1] == PolySlot(pmesh, i, j - 1) && tri[2] == PolySlot(pmesh, i, j);
      for k := 0 to 3
        modifies verts
        invariant forall q :: 0 <= q < 3 ==> GridVertexInRange(pmesh, tri[q])
        invariant forall q :: 0 <= q < k ==> verts[q] == GridVertex(pmesh, bmin, tri[q])
      {
        var vIndex := tri[k] * 3;
        GridVertexAt(pmesh, bmin, tri[k], vIndex);
        verts[k] := Vec3(bmin[0] + (pmesh.verts[vIndex + 0] as real) * pmesh.cs,
                         bmin[1] + ((pmesh.verts[vIndex + 1] + 1) as real) * pmesh.ch + 0.1,
                         bmin[2] + (pmesh.verts[vIndex + 2] as real) * pmesh.cs);
      }
      col := VaryColor(col);
      var t := UniformTriangle(verts[0], verts[1], verts[2], col);
      assert t == fan[j - 2];
      PrefixStep(drawn, fan, j - 2);
      renderMesh.AddTriangle(t);
      j := j + 1;
    }
    assert fan[..j - 2] == fan;
  }

  /** Draws every triangle of every detail sub-mesh. */
  method ShowRecastDetailMesh(renderMesh: DbgRenderMesh<Shade>, dmesh: PolyMeshDetail)
    requires DetailMeshReadable(dmesh)
    modifies renderMesh
    ensures renderMesh.triangles == DetailMeshTriangles(dmesh, dmesh.nmeshes)
    ensures renderMesh.mesh == Rebuilt(old(renderMesh.mesh), renderMesh.triangles)
    ensures renderMesh.labels == 0 && !renderMesh.boundsComputed
    ensures renderMesh.hasLabelTemplate == old(renderMesh.hasLabelTemplate)
  {
    renderMesh.Clear();
    DrawSubMeshes(renderMesh, dmesh);
    renderMesh.Rebuild();
  }

  /** ShowRecastDetailMesh's sub-mesh loop, from the reseeded generator on: sub-mesh i takes the i-th random colour. */
  method DrawSubMeshes(renderMesh: DbgRenderMesh<Shade>, dmesh: PolyMeshDetail)
    requires DetailMeshReadable(dmesh)
    modifies renderMesh`triangles, renderMesh`boundsComputed
    ensures renderMesh.triangles == old(renderMesh.triangles) + DetailMeshTriangles(dmesh, dmesh.nmeshes)
    ensures renderMesh.boundsComputed ==> old(renderMesh.boundsComputed)
  {
    var draws: nat := 0;
    var nmeshes := dmesh.nmeshes;
    ghost var drawn := renderMesh.triangles;
    ghost var subMeshes := DetailPlan(dmesh);
    var i := 0;
    while i < nmeshes
      invariant 0 <= i && (i == 0 || i <= nmeshes) && draws == i
      invariant renderMesh.triangles == drawn + Concat(subMeshes, i)
      invariant renderMesh.boundsComputed ==> old(renderMesh.boundsComputed)
    {
      var col := RandomColour(draws);
      draws := draws + 1;
      AppendAssoc(drawn, Concat(subMeshes, i), subMeshes[i]);
      ShowSubMesh(renderMesh, dmesh, i, col, subMeshes[i]);
      i := i + 1;
    }
    assert Concat(subMeshes, i) == DetailMeshTriangles(dmesh, nmeshes);
  }

  /**
   * The body of ShowRecastDetailMesh's sub-mesh loop for sub-mesh i: each of
   * its ntris triangles, corner k read from detail vertex bverts +
   * tris[btris*4 + j*4 + k], in the sub-mesh's colour varied once more each
   * time; part names the triangles this draws.
   */
  method ShowSubMesh(renderMesh: DbgRenderMesh<Shade>, dmesh: PolyMeshDetail, i: nat, col0: Shade,
                     ghost part: seq<Triangle<Shade>>)
    requires SubMeshReadable(dmesh, i) && col0 == RandomColour(i)
    requires |part| == dmesh.meshes[4 * i + 3] && forall j :: 0 <= j < |part| ==> part[j] == DetailTriangle(dmesh, i, j)
    modifies renderMesh`triangles, renderMesh`boundsComputed
    ensures renderMesh.triangles == old(renderMesh.triangles) + part
    ensures renderMesh.boundsComputed ==> old(renderMesh.boundsComputed)
  {
    var col := col0;
    var bverts := dmesh.meshes[i * 4];
    var btris := dmesh.meshes[i * 4 + 2];
    var ntris := dmesh.meshes[i * 4 + 3];
    var trisStart := btris * 4;
    ghost var drawn := renderMesh.triangles;
    for j := 0 to ntris
      invariant col == Shade(i, j)
      invariant renderMesh.triangles == drawn + part[..j]
      invariant renderMesh.boundsComputed ==> old(renderMesh.boundsComputed)
    {
      var verts := new Vec3[3];
      for k := 0 to 3
        modifies verts
        invariant forall q :: 0 <= q < k ==> verts[q] == DetailCorner(dmesh, i, j, q)
      {
        assert DetailCornerReadable(dmesh, i, j, k);
        var vertStart := (bverts + dmesh.tris[trisStart + j * 4 + k]) * 3;
        FlatPointAt(dmesh.verts, DetailCornerVertex(dmesh, i, j, k), vertStart);
        verts[k] := Vec3(dmesh.verts[vertStart + 0], dmesh.verts[vertStart + 1], dmesh.verts[vertStart + 2]);
      }
      col := VaryColor(col);
      var t := UniformTriangle(verts[0], verts[1], verts[2], col);
      assert t == part[j];
      PrefixStep(drawn, part, j);
      renderMesh.AddTriangle(t);
    }
    assert part[..ntris] == part;
  }

  /**
   * Draws the raw outline of every contour that has raw vertices as a closed
   * ring of walls, and asks for one label per contour drawn.
   */
  method ShowRawContours(renderMesh: DbgRenderMesh<Shade>, cset: ContourSet)
    requires RawContoursReadable(cset)
    modifies renderMesh
    ensures renderMesh.triangles == RawContourTriangles(cset, cset.nconts)
    ensures renderMesh.mesh == Rebuilt(old(renderMesh.mesh), renderMesh.triangles)
    ensures renderMesh.labels == (if renderMesh.hasLabelTemplate then RawDraws(cset, if cset.nconts < 0 then 0 else cset.nconts) else 0)
    ensures !renderMesh.boundsComputed
    ensures renderMesh.hasLabelTemplate == old(renderMesh.hasLabelTemplate)
  {
    renderMesh.Clear();
    ghost var outlines, walls := RawPlan(cset);
    DrawRawContours(renderMesh, cset, outlines, walls);
    assert Concat(outlines, |outlines|) == RawContourTriangles(cset, cset.nconts);
    renderMesh.Rebuild();
  }

  /**
   * ShowRawContours's contour loop, from the reseeded generator on: contours
   * without raw vertices are skipped and take no colour.
   */
  method DrawRawContours(renderMesh: DbgRenderMesh<Shade>, cset: ContourSet,
                         ghost outlines: seq<seq<Triangle<Shade>>>, ghost walls: seq<seq<seq<Triangle<Shade>>>>)
    requires RawContoursReadable(cset)
    requires |outlines| == |walls| == if cset.nconts < 0 then 0 else cset.nconts
    requires forall i :: 0 <= i < |walls| ==> outlines[i] == Concat(walls[i], |walls[i]|)
    requires forall i :: 0 <= i < |walls| && cset.conts[i].nrverts == 0 ==> walls[i] == []
    requires forall i :: 0 <= i < |walls| && cset.conts[i].nrverts != 0 ==> |walls[i]| == RawVisited(cset.conts[i])
    requires forall i, s {:trigger RawWall(cset, i, s)} ::
               0 <= i < |walls| && cset.conts[i].nrverts != 0 && 0 <= s < |walls[i]| ==> walls[i][s] == RawWall(cset, i, s)
    modifies renderMesh`triangles, renderMesh`boundsComputed, renderMesh`labels
    ensures renderMesh.triangles == old(renderMesh.triangles) + Concat(outlines, |outlines|)
    ensures renderMesh.labels ==
            old(renderMesh.labels) +
            (if renderMesh.hasLabelTemplate then RawDraws(cset, if cset.nconts < 0 then 0 else cset.nconts) else 0)
    ensures renderMesh.boundsComputed ==> old(renderMesh.boundsComputed)
  {
    var draws: nat := 0;
    ghost var drawn := renderMesh.triangles;
    var i := 0;
    while i < cset.nconts
      invariant 0 <= i && (i == 0 || i <= cset.nconts) && draws == RawDraws(cset, i)
      invariant renderMesh.triangles == drawn + Concat(outlines, i)
      invariant renderMesh.labels == old(renderMesh.labels) + (if renderMesh.hasLabelTemplate then draws else 0)
      invariant renderMesh.boundsComputed ==> old(renderMesh.boundsComputed)
    {
      AppendAssoc(drawn, Concat(outlines, i), outlines[i]);
      draws := ShowRawContour(renderMesh, cset, i, draws, walls[i]);
      i := i + 1;
    }
  }

  /**
   * The body of ShowRawContours's contour loop for contour i: nothing when it
   * has no raw vertices, otherwise the next random colour and its outline.
   */
  method ShowRawContour(renderMesh: DbgRenderMesh<Shade>, cset: ContourSet, i: nat, draws: nat,
                        ghost walls: seq<seq<Triangle<Shade>>>) returns (next: nat)
    requires |cset.bmin| >= 3 && i < |cset.conts| && RawContourReadable(cset.conts[i]) && draws == RawDraws(cset, i)
    requires cset.conts[i].nrverts == 0 ==> walls == []
    requires cset.conts[i].nrverts != 0 ==>
               |walls| == RawVisited(cset.conts[i]) && forall s :: 0 <= s < |walls| ==> walls[s] == RawWall(cset, i, s)
    modifies renderMesh`triangles, renderMesh`boundsComputed, renderMesh`labels
    ensures next == RawDraws(cset, i + 1)
    ensures renderMesh.triangles == old(renderMesh.triangles) + Concat(walls, |walls|)
    ensures renderMesh.labels == old(renderMesh.labels) + (if renderMesh.hasLabelTemplate then next - draws else 0)
    ensures renderMesh.boundsComputed ==> old(renderMesh.boundsComputed)
  {
    if cset.conts[i].nrverts == 0 {
      return draws;
    }
    var col := RandomColour(draws);
    next := draws + 1;
    ShowRawOutline(renderMesh, cset, i, col, walls);
  }

  /**
   * ShowRawContours's vertex loop for contour i: a wall from
   * each raw vertex to the next, one from the last back to the start, and a
   * label.  walls names the walls this draws, in order.
   */
  method ShowRawOutline(renderMesh: DbgRenderMesh<Shade>, cset: ContourSet, i: nat, col: Shade,
                        ghost walls: seq<seq<Triangle<Shade>>>)
    requires |cset.bmin| >= 3 && i < |cset.conts| && cset.conts[i].nrverts != 0
    requires RawContourReadable(cset.conts[i]) && col == RawColour(cset, i)
    requires |walls| == RawVisited(cset.conts[i]) && forall s :: 0 <= s < |walls| ==> walls[s] == RawWall(cset, i, s)
    modifies renderMesh`triangles, renderMesh`boundsComputed, renderMesh`labels
    ensures renderMesh.triangles == old(renderMesh.triangles) + Concat(walls, |walls|)
    ensures renderMesh.labels == old(renderMesh.labels) + (if renderMesh.hasLabelTemplate then 1 else 0)
    ensures !renderMesh.boundsComputed
  {
    var c := cset.conts[i];
    var orig := cset.bmin;
    var cs := cset.cs;
    var ch := cset.ch;
    ghost var m := |walls|;
    ghost var drawn := renderMesh.triangles;
    var triStartIndex := renderMesh.GetTriangleCount();
    ContourPointAt(cset, c.rverts, 0, i, 0);
    var start := Vec3(orig[0] + (c.rverts[0] as real) * cs,
                      orig[1] + ((c.rverts[1] + 1 + i % 2) as real) * ch,
                      orig[2] + (c.rverts[2] as real) * cs);
    var a := Vec3(0.0, 0.0, 0.0);
    var b := start;
    var j := 1;
    while j < c.nrverts
      invariant 1 <= j <= m && b == RawPoint(cset, i, j - 1)
      invariant renderMesh.triangles == drawn + Concat(walls, j - 1)
      invariant renderMesh.labels == old(renderMesh.labels)
    {
      a := b;
      var vStart := j * 4;
      ContourPointAt(cset, c.rverts, j, i, vStart);
      b := Vec3(orig[0] + (c.rverts[vStart + 0] as real) * cs,
                orig[1] + ((c.rverts[vStart + 1] + 1 + i % 2) as real) * ch,
                orig[2] + (c.rverts[vStart + 2] as real) * cs);
      if j > 0 {
        assert Succ(j - 1, m) == j;
        AppendAssoc(drawn, Concat(walls, j - 1), walls[j - 1]);
        renderMesh.AddVerticalQuad(a, b, WallHeight, col);
      }
      j := j + 1;
    }
    AppendAssoc(drawn, Concat(walls, m - 1), walls[m - 1]);
    renderMesh.AddVerticalQuad(b, start, WallHeight, col);
    var triEndIndex := renderMesh.GetTriangleCount();
    renderMesh.AddLabel();
  }

  /**
   * Draws every contour that has vertices as a closed ring of walls, each
   * wall in the contour's colour varied once when it starts at a border vertex.
   */
  method ShowContours(renderMesh: DbgRenderMesh<Shade>, cset: ContourSet)
    requires ContoursReadable(cset)
    modifies renderMesh
    ensures renderMesh.triangles == ContourTriangles(cset, cset.nconts)
    ensures renderMesh.mesh == Rebuilt(old(renderMesh.mesh), renderMesh.triangles)
    ensures renderMesh.labels == 0 && !renderMesh.boundsComputed
    ensures renderMesh.hasLabelTemplate == old(renderMesh.hasLabelTemplate)
  {
    renderMesh.Clear();
    ghost var outlines, walls := ContourPlan(cset);
    DrawContours(renderMesh, cset, outlines, walls);
    assert Concat(outlines, |outlines|) == ContourTriangles(cset, cset.nconts);
    renderMesh.Rebuild();
  }

  /**
   * ShowContours's contour loop, from the reseeded generator on: contours
   * without vertices are skipped and take no colour.
   */
  method DrawContours(renderMesh: DbgRenderMesh<Shade>, cset: ContourSet,
                      ghost outlines: seq<seq<Triangle<Shade>>>, ghost walls: seq<seq<seq<Triangle<Shade>>>>)
    requires ContoursReadable(cset)
    requires |outlines| == |walls| == if cset.nconts < 0 then 0 else cset.nconts
    requires forall i :: 0 <= i < |walls| ==> outlines[i] == Concat(walls[i], |walls[i]|)
    requires forall i :: 0 <= i < |walls| && cset.conts[i].nverts == 0 ==> walls[i] == []
    requires forall i :: 0 <= i < |walls| && cset.conts[i].nverts != 0 ==> |walls[i]| == EdgeCount(cset.conts[i])
    requires forall i, s {:trigger ContourWall(cset, i, s)} ::
               0 <= i < |walls| && cset.conts[i].nverts != 0 && 0 <= s < |walls[i]| ==> walls[i][s] == ContourWall(cset, i, s)
    modifies renderMesh`triangles, renderMesh`boundsComputed
    ensures renderMesh.triangles == old(renderMesh.triangles) + Concat(outlines, |outlines|)
    ensures renderMesh.boundsComputed ==> old(renderMesh.boundsComputed)
  {
    var draws: nat := 0;
    ghost var drawn := renderMesh.triangles;
    var i := 0;
    while i < cset.nconts
      invariant 0 <= i && (i == 0 || i <= cset.nconts) && draws == ContourDraws(cset, i)
      invariant renderMesh.triangles == drawn + Concat(outlines, i)
      invariant renderMesh.boundsComputed ==> old(renderMesh.boundsComputed)
    {
      AppendAssoc(drawn, Concat(outlines, i), outlines[i]);
      draws := ShowContour(renderMesh, cset, i, draws, walls[i]);
      i := i + 1;
    }
  }

  /**
   * The body of ShowContours's contour loop for contour i: for each vertex j,
   * with k the vertex before it, the wall from vertex k to vertex j, in bcol
   * when vertex k's flags carry RC_AREA_BORDER and in col otherwise.  walls
   * names the walls this draws, in order.
   */
  method ShowContour(renderMesh: DbgRenderMesh<Shade>, cset: ContourSet, i: nat, draws: nat,
                     ghost walls: seq<seq<Triangle<Shade>>>) returns (next: nat)
    requires |cset.bmin| >= 3 && i < |cset.conts| && ContourReadable(cset.conts[i]) && draws == ContourDraws(cset, i)
    requires cset.conts[i].nverts == 0 ==> walls == []
    requires cset.conts[i].nverts != 0 ==>
               |walls| == EdgeCount(cset.conts[i]) && forall s :: 0 <= s < |walls| ==> walls[s] == ContourWall(cset, i, s)
    modifies renderMesh`triangles, renderMesh`boundsComputed
    ensures next == ContourDraws(cset, i + 1)
    ensures renderMesh.triangles == old(renderMesh.triangles) + Concat(walls, |walls|)
    ensures renderMesh.boundsComputed ==> old(renderMesh.boundsComputed)
  {
    if cset.conts[i].nverts == 0 {
      return draws;
    }
    var col := RandomColour(draws);
    next := draws + 1;
    var bcol := VaryColor(col);
    ShowContourOutline(renderMesh, cset, i, col, bcol, walls);
  }

  /**
   * ShowContours's vertex loop for contour i: for each vertex j, with k the
   * vertex before it, the wall from vertex k to vertex j, in bcol when vertex
   * k's flags carry RC_AREA_BORDER and in col otherwise.  walls names the
   * walls this draws, in order.
   */
  method ShowContourOutline(renderMesh: DbgRenderMesh<Shade>, cset: ContourSet, i: nat, col: Shade, bcol: Shade,
                            ghost walls: seq<seq<Triangle<Shade>>>)
    requires |cset.bmin| >= 3 && i < |cset.conts| && ContourReadable(cset.conts[i])
    requires col == ContourColour(cset, i) && bcol == VaryColor(col)
    requires |walls| == EdgeCount(cset.conts[i]) && forall s :: 0 <= s < |walls| ==> walls[s] == ContourWall(cset, i, s)
    modifies renderMesh`triangles, renderMesh`boundsComputed
    ensures renderMesh.triangles == old(renderMesh.triangles) + Concat(walls, |walls|)
    ensures renderMesh.boundsComputed ==> old(renderMesh.boundsComputed)
  {
    var c := cset.conts[i];
    var orig := cset.bmin;
    var cs := cset.cs;
    var ch := cset.ch;
    ghost var drawn := renderMesh.triangles;
    var j := 0;
    var k := c.nverts - 1;
    while j < c.nverts
      invariant 0 <= j <= |walls| && k == Pred(j, c.nverts)
      invariant renderMesh.triangles == drawn + Concat(walls, j)
      invariant renderMesh.boundsComputed ==> old(renderMesh.boundsComputed)
    {
      var vaStart := k * 4;
      var vbStart := j * 4;
      assert vaStart + 3 == 4 * k + 3 && k == Pred(j, |walls|);
      var segCol := if HasBorderFlag(c.verts[vaStart + 3]) then bcol else col;
      ContourPointAt(cset, c.verts, k, i, vaStart);
      ContourPointAt(cset, c.verts, j, i, vbStart);
      var start := Vec3(orig[0] + (c.verts[vaStart + 0] as real) * cs,
                        orig[1] + ((c.verts[vaStart + 1] + 1 + i % 2) as real) * ch,
                        orig[2] + (c.verts[vaStart + 2] as real) * cs);
      var end := Vec3(orig[0] + (c.verts[vbStart + 0] as real) * cs,
                      orig[1] + ((c.verts[vbStart + 1] + 1 + i % 2) as real) * ch,
                      orig[2] + (c.verts[vbStart + 2] as real) * cs);
      assert start == ContourPoint(cset, c.verts, k, i);
      assert end == ContourPoint(cset, c.verts, j, i);
      assert segCol == (if HasBorderFlag(c.verts[4 * k + 3]) then VaryColor(col) else col);
      assert walls[j] == VerticalQuad(start, end, WallHeight, segCol);
      AppendAssoc(drawn, Concat(walls, j), walls[j]);
      renderMesh.AddVerticalQuad(start, end, WallHeight, segCol);
      k := j;
      j := j + 1;
    }
  }

  /**
   * Draws the detail triangles of every polygon of one tile of a navmesh.  A
   * missing navmesh leaves the cleared list, rebuilt; a missing tile leaves
   * the cleared list without rebuilding.
   */
  method ShowTilePolyDetails(renderMesh: DbgRenderMesh<Shade>, navMesh: Option<NavMesh>, tileId: int)
    requires navMesh.Some? && GetTile(navMesh.value, tileId).Some? ==> TileReadable(GetTile(navMesh.value, tileId).value)
    modifies renderMesh
    ensures navMesh.None? ==> renderMesh.triangles == [] && renderMesh.mesh == Rebuilt(old(renderMesh.mesh), [])
    ensures navMesh.Some? && GetTile(navMesh.value, tileId).None? ==>
              renderMesh.triangles == [] && renderMesh.mesh == old(renderMesh.mesh)
    ensures navMesh.Some? && GetTile(navMesh.value, tileId).Some? ==>
              var tile := GetTile(navMesh.value, tileId).value;
              renderMesh.triangles == TileTriangles(tile, |tile.detailMeshes|) &&
              renderMesh.mesh == Rebuilt(old(renderMesh.mesh), renderMesh.triangles)
    ensures renderMesh.labels == 0 && !renderMesh.boundsComputed
    ensures renderMesh.hasLabelTemplate == old(renderMesh.hasLabelTemplate)
  {
    renderMesh.Clear();
    if navMesh.None? {
      renderMesh.Rebuild();
      return;
    }
    var tile := GetTile(navMesh.value, tileId);
    if tile.None? {
      return;
    }
    DrawTilePolys(renderMesh, tile.value);
    renderMesh.Rebuild();
  }

  /** ShowTilePolyDetails's polygon loop, from the reseeded generator on: polygon i takes the i-th random colour. */
  method DrawTilePolys(renderMesh: DbgRenderMesh<Shade>, tile: MeshTile)
    requires TileReadable(tile)
    modifies renderMesh`triangles, renderMesh`boundsComputed
    ensures renderMesh.triangles == old(renderMesh.triangles) + TileTriangles(tile, |tile.detailMeshes|)
    ensures renderMesh.boundsComputed ==> old(renderMesh.boundsComputed)
  {
    var draws: nat := 0;
    var detailMeshCount := |tile.detailMeshes|;
    ghost var drawn := renderMesh.triangles;
    ghost var polys := TilePlan(tile);
    for i := 0 to detailMeshCount
      invariant draws == i
      invariant renderMesh.triangles == drawn + Concat(polys, i)
      invariant renderMesh.boundsComputed ==> old(renderMesh.boundsComputed)
    {
      var col := RandomColour(draws);
      draws := draws + 1;
      AppendAssoc(drawn, Concat(polys, i), polys[i]);
      ShowPolyDetail(renderMesh, tile, i, col, polys[i]);
    }
    assert Concat(polys, detailMeshCount) == TileTriangles(tile, detailMeshCount);
  }

  /**
   * The body of ShowTilePolyDetails's polygon loop for polygon i: each of its
   * triCount detail triangles, corner k with local index tk read from the
   * tile's vertices at poly.verts[tk] when tk < vertCount and from the detail
   * vertices at vertBase + (tk - vertCount) otherwise.  part names the
   * triangles this draws.
   */
  method ShowPolyDetail(renderMesh: DbgRenderMesh<Shade>, tile: MeshTile, i: nat, col0: Shade,
                        ghost part: seq<Triangle<Shade>>)
    requires i < |tile.detailMeshes| && TilePolyReadable(tile, i) && col0 == RandomColour(i)
    requires |part| == tile.detailMeshes[i].triCount && forall j :: 0 <= j < |part| ==> part[j] == TileTriangle(tile, i, j)
    modifies renderMesh`triangles, renderMesh`boundsComputed
    ensures renderMesh.triangles == old(renderMesh.triangles) + part
    ensures renderMesh.boundsComputed ==> old(renderMesh.boundsComputed)
  {
    var pd := tile.detailMeshes[i];
    var poly := tile.polys[i];
    var col := col0;
    ghost var drawn := renderMesh.triangles;
    for j := 0 to pd.triCount
      invariant col == Shade(i, j)
      invariant renderMesh.triangles == drawn + part[..j]
      invariant renderMesh.boundsComputed ==> old(renderMesh.boundsComputed)
    {
      var vStarts, vSrc := ReadCorners(tile, i, j);
      var a := Vec3(vSrc[0][vStarts[0] + 0], vSrc[0][vStarts[0] + 1], vSrc[0][vStarts[0] + 2]);
      var b := Vec3(vSrc[1][vStarts[1] + 0], vSrc[1][vStarts[1] + 1], vSrc[1][vStarts[1] + 2]);
      var c := Vec3(vSrc[2][vStarts[2] + 0], vSrc[2][vStarts[2] + 1], vSrc[2][vStarts[2] + 2]);
      col := VaryColor(col);
      var t := UniformTriangle(a, b, c, col);
      assert t == part[j];
      PrefixStep(drawn, part, j);
      renderMesh.AddTriangle(t);
    }
    assert part[..pd.triCount] == part;
  }

  /**
   * ShowTilePolyDetails's corner loop for detail triangle j of polygon i:
   * corner k is read from tile.verts at poly.verts[tk] * 3 when its local
   * index tk is below vertCount, and from tile.detailVerts at
   * (vertBase + tk - vertCount) * 3 otherwise.
   */
  method ReadCorners(tile: MeshTile, i: nat, j: int) returns (vStarts: array<int>, vSrc: array<seq<real>>)
    requires i < |tile.detailMeshes| && TilePolyReadable(tile, i) && 0 <= j < tile.detailMeshes[i].triCount
    ensures fresh(vStarts) && fresh(vSrc) && vStarts.Length == 3 && vSrc.Length == 3
    ensures forall q :: 0 <= q < 3 ==>
              0 <= vStarts[q] && vStarts[q] + 2 < |vSrc[q]| &&
              Vec3(vSrc[q][vStarts[q] + 0], vSrc[q][vStarts[q] + 1], vSrc[q][vStarts[q] + 2]) == TileCorner(tile, i, j, q)
  {
    var pd := tile.detailMeshes[i];
    var poly := tile.polys[i];
    var tStart := (pd.triBase + j) * 4;
    vStarts := new int[3];
    vSrc := new seq<real>[3];
    for k := 0 to 3
      modifies vStarts, vSrc
      invariant forall q :: 0 <= q < k ==>
                  0 <= vStarts[q] && vStarts[q] + 2 < |vSrc[q]| &&
                  Vec3(vSrc[q][vStarts[q] + 0], vSrc[q][vStarts[q] + 1], vSrc[q][vStarts[q] + 2]) ==
                  TileCorner(tile, i, j, q)
    {
      assert TileCornerReadable(tile, i, j, k);
      var tk := tile.detailTris[tStart + k];
      var vCount := poly.vertCount;
      if tk < vCount {
        vStarts[k] := poly.verts[tk] * 3;
        vSrc[k] := tile.verts;
        FlatPointAt(tile.verts, poly.verts[tk], vStarts[k]);
      } else {
        vStarts[k] := (pd.vertBase + (tk - vCount)) * 3;
        vSrc[k] := tile.detailVerts;
        FlatPointAt(tile.detailVerts, pd.vertBase + (tk - vCount), vStarts[k]);
      }
    }
  }
}
