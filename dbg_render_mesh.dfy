/**
 * DbgRenderMesh: a growable list of coloured triangles, filled through the
 * helpers below and flattened into the engine mesh by Rebuild.  Every helper
 * appends to the end of the list and leaves the triangles already there alone.
 *
 * The Unity side is reduced to what the class keeps about it: whether a mesh
 * is attached (and what it was last given), whether a label template is set
 * and how many labels are live.
 */
module RenderMesh {
  import opened Wrappers
  import opened DbgGeometry

  /** What Rebuild leaves in an optional mesh: the rendered triangles if a mesh is attached. */
  function Rebuilt<C>(mesh: Option<MeshData<C>>, ts: seq<Triangle<C>>): Option<MeshData<C>>
  {
    if mesh.Some? then Some(Render(ts)) else None
  }

  class DbgRenderMesh<C(0)> {
    /** m_Triangles */
    var triangles: seq<Triangle<C>>
    /** m_BoundsComputed: the cached bounding box is up to date */
    var boundsComputed: bool
    /** m_LabelTemplate != null */
    var hasLabelTemplate: bool
    /** m_Labels.Count */
    var labels: nat
    /** m_Mesh, with the data RenderTo last gave it */
    var mesh: Option<MeshData<C>>

    /** `new DbgRenderMesh()`: no triangles, no labels, no template, no mesh. */
    constructor ()
      ensures triangles == [] && !boundsComputed && !hasLabelTemplate && labels == 0 && mesh == None
    {
      triangles := [];
      boundsComputed := false;
      hasLabelTemplate := false;
      labels := 0;
      mesh := None;
    }

    /** The part of Setup this class keeps: a fresh, empty mesh and a stale bounding box. */
    method Setup()
      modifies this`mesh, this`boundsComputed
      ensures mesh == Some(MeshData([], [], [])) && !boundsComputed
    {
      mesh := Some(MeshData([], [], []));
      boundsComputed := false;
    }

    method SetLabelTemplate(present: bool)
      modifies this`hasLabelTemplate
      ensures hasLabelTemplate == present
    {
      hasLabelTemplate := present;
    }

    /** AddLabel adds a label only when a template is set (otherwise it logs an error). */
    method AddLabel()
      modifies this`labels
      ensures labels == old(labels) + (if hasLabelTemplate then 1 else 0)
    {
      if hasLabelTemplate {
        labels := labels + 1;
      }
    }

    method GetTriangleCount() returns (n: int)
      ensures n == |triangles|
    {
      n := |triangles|;
    }

    /** Flattens the triangle list: entry 3i+j of each array comes from corner j of triangle i. */
    method RenderTo() returns (verts: array<Vec3>, tris: array<int>, colors: array<C>)
      ensures fresh(verts) && fresh(tris) && fresh(colors)
      ensures verts[..] == VertexBuffer(triangles)
      ensures tris[..] == IdentityIndices(3 * |triangles|)
      ensures colors[..] == ColourBuffer(triangles)
    {
      var triCount := |triangles|;
      verts := new Vec3[3 * triCount];
      tris := new int[3 * triCount];
      colors := new C[3 * triCount];
      for i := 0 to triCount
        invariant forall k :: 0 <= k < 3 * i ==>
                    verts[k] == triangles[k / 3].Vert(k % 3) && tris[k] == k &&
                    colors[k] == triangles[k / 3].Colour(k % 3)
      {
        var tri := triangles[i];
        var v := i * 3;
        for j := 0 to 3
          invariant forall k :: 0 <= k < v + j ==>
                      verts[k] == triangles[k / 3].Vert(k % 3) && tris[k] == k &&
                      colors[k] == triangles[k / 3].Colour(k % 3)
        {
          verts[v + j] := tri.Vert(j);
          tris[v + j] := v + j;
          colors[v + j] := tri.Colour(j);
        }
      }
      assert verts[..] == VertexBuffer(triangles);
      assert tris[..] == IdentityIndices(3 * triCount);
      assert colors[..] == ColourBuffer(triangles);
    }

    /** Rebuild renders into the mesh when one is attached, and does nothing otherwise. */
    method Rebuild()
      modifies this`mesh
      ensures mesh == Rebuilt(old(mesh), triangles)
    {
      if mesh.Some? {
        var verts, tris, colors := RenderTo();
        mesh := Some(MeshData(verts[..], tris[..], colors[..]));
      }
    }

    method Clear()
      modifies this`triangles, this`labels, this`boundsComputed
      ensures triangles == [] && labels == 0 && !boundsComputed
    {
      triangles := [];
      labels := 0;
      boundsComputed := false;
    }

    method AddTriangle(tri: Triangle<C>)
      modifies this`triangles, this`boundsComputed
      ensures triangles == old(triangles) + [tri] && !boundsComputed
    {
      triangles := triangles + [tri];
      boundsComputed := false;
    }

    method AddConvexPolygon(vertices: seq<Vec3>, color: C)
      modifies this`triangles, this`boundsComputed
      ensures triangles == old(triangles) + Fan(vertices, color)
      ensures boundsComputed == (old(boundsComputed) && |vertices| < 3)
    {
      var vertCount := |vertices|;
      var i := 2;
      while i < vertCount
        invariant 2 <= i && (i == 2 || i <= vertCount)
        invariant vertCount < 2 ==> triangles == old(triangles)
        invariant i <= vertCount ==> triangles == old(triangles) + Fan(vertices[..i], color)
        invariant boundsComputed == (old(boundsComputed) && i == 2)
      {
        assert vertices[..i + 1][..i] == vertices[..i];
        AddTriangle(UniformTriangle(vertices[0], vertices[i - 1], vertices[i], color));
        i := i + 1;
      }
      assert vertCount >= 2 ==> vertices[..i] == vertices;
    }

    method AddQuad(a: Vec3, b: Vec3, c: Vec3, d: Vec3, twoSided: bool, color: C)
      modifies this`triangles, this`boundsComputed
      ensures triangles == old(triangles) + Quad(a, b, c, d, twoSided, color) && !boundsComputed
    {
      AddTriangle(UniformTriangle(a, b, c, color));
      AddTriangle(UniformTriangle(a, c, d, color));
      if twoSided {
        AddTriangle(UniformTriangle(b, a, d, color));
        AddTriangle(UniformTriangle(b, d, c, color));
      }
    }

    /** The AddQuad overload with one colour per corner. */
    method AddQuadColoured(a: Vec3, b: Vec3, c: Vec3, d: Vec3, twoSided: bool,
                           colorA: C, colorB: C, colorC: C, colorD: C)
      modifies this`triangles, this`boundsComputed
      ensures triangles == old(triangles) + ColouredQuad(a, b, c, d, twoSided, colorA, colorB, colorC, colorD)
      ensures !boundsComputed
    {
      AddTriangle(Triangle(a, b, c, colorA, colorB, colorC));
      AddTriangle(Triangle(a, c, d, colorA, colorC, colorD));
      if twoSided {
        AddTriangle(Triangle(b, a, d, colorB, colorA, colorD));
        AddTriangle(Triangle(b, d, c, colorB, colorD, colorC));
      }
    }

    method AddVerticalQuad(start: Vec3, end: Vec3, size: real, col: C)
      modifies this`triangles, this`boundsComputed
      ensures triangles == old(triangles) + VerticalQuad(start, end, size, col) && !boundsComputed
    {
      AddQuad(Raise(start, size), Raise(end, size), end, start, true, col);
      VerticalQuadIsQuad(start, end, size, col);
    }

    /** The AddVerticalQuad overload with a colour for the start edge and one for the end edge. */
    method AddVerticalQuadColoured(start: Vec3, end: Vec3, size: real, colStart: C, colEnd: C)
      modifies this`triangles, this`boundsComputed
      ensures triangles == old(triangles) + ColouredVerticalQuad(start, end, size, colStart, colEnd)
      ensures !boundsComputed
    {
      AddQuadColoured(Raise(start, size), Raise(end, size), end, start, true, colStart, colEnd, colEnd, colStart);
    }

    /** The AddPath overload over Vector3 points: one wall per segment, alternating colours. */
    method AddPath(path: seq<Vec3>, vertCount: int, size: real, col1: C, col2: C)
      requires vertCount <= 1 || vertCount <= |path|
      modifies this`triangles, this`boundsComputed
      ensures triangles == old(triangles) + PathRibbon(path, vertCount, size, col1, col2)
      ensures boundsComputed == (old(boundsComputed) && vertCount <= 1)
    {
      var i := 1;
      while i < vertCount
        invariant 1 <= i && (i == 1 || i <= vertCount)
        invariant triangles == old(triangles) + PathRibbon(path, i, size, col1, col2)
        invariant boundsComputed == (old(boundsComputed) && i == 1)
      {
        PathRibbonStep(old(triangles), path, i + 1, size, col1, col2);
        AddVerticalQuad(path[i - 1], path[i], size, SegmentColour(i, col1, col2));
        i := i + 1;
      }
    }

    /**
     * The AddPath overload over a flat x,y,z float array; a null array or one
     * of at most three floats draws nothing.
     */
    method AddPathFlat(path: Option<seq<real>>, vertCount: int, size: real, col1: C, col2: C)
      requires path.Some? && |path.value| > 3 && vertCount > 1 ==> 3 * vertCount <= |path.value|
      modifies this`triangles, this`boundsComputed
      ensures triangles == old(triangles) +
                if path.Some? && |path.value| > 3 then FlatPathRibbon(path.value, vertCount, size, col1, col2)
                else []
      ensures boundsComputed == (old(boundsComputed) && (path.None? || |path.value| <= 3 || vertCount <= 1))
    {
      if path.Some? && |path.value| > 3 {
        var p := path.value;
        var i := 1;
        while i < vertCount
          invariant 1 <= i && (i == 1 || i <= vertCount)
          invariant triangles == old(triangles) + FlatPathRibbon(p, i, size, col1, col2)
          invariant boundsComputed == (old(boundsComputed) && i == 1)
        {
          var v := i * 3;
          var a := Vec3(p[v - 3], p[v - 2], p[v - 1]);
          var b := Vec3(p[v + 0], p[v + 1], p[v + 2]);
          assert a == FlatPoint(p, i - 1) && b == FlatPoint(p, i);
          FlatPathRibbonStep(old(triangles), p, i + 1, size, col1, col2);
          AddVerticalQuad(a, b, size, SegmentColour(i, col1, col2));
          i := i + 1;
        }
      }
    }

    /** The AddMesh overload over Vector3 vertices: one triangle per index triple. */
    method AddMesh(verts: seq<Vec3>, tris: seq<int>, col: C)
      requires IndexedTriangles(|verts|, tris)
      modifies this`triangles, this`boundsComputed
      ensures triangles == old(triangles) + MeshTriangles(verts, tris, col)
      ensures boundsComputed == (old(boundsComputed) && tris == [])
    {
      var i := 0;
      while i < |tris|
        invariant 0 <= i <= |tris| && i % 3 == 0
        invariant IndexedTriangles(|verts|, tris[..i])
        invariant triangles == old(triangles) + MeshTriangles(verts, tris[..i], col)
        invariant boundsComputed == (old(boundsComputed) && i == 0)
      {
        ghost var upTo := tris[..i + 3];
        assert upTo[..i] == tris[..i];
        assert forall k :: 0 <= k < i + 3 ==> upTo[k] == tris[k];
        AddTriangle(UniformTriangle(verts[tris[i + 0]], verts[tris[i + 1]], verts[tris[i + 2]], col));
        i := i + 3;
      }
      assert tris[..i] == tris;
    }

    /** The AddMesh overload over a flat x,y,z float array, reading each corner through a scratch array. */
    method AddMeshFlat(verts: seq<real>, tris: seq<int>, col: C)
      requires FlatIndexedTriangles(|verts|, tris)
      modifies this`triangles, this`boundsComputed
      ensures triangles == old(triangles) + FlatMeshTriangles(verts, tris, col)
      ensures boundsComputed == (old(boundsComputed) && tris == [])
    {
      var av := new Vec3[3];
      var i := 0;
      while i < |tris|
        invariant 0 <= i <= |tris| && i % 3 == 0
        invariant FlatIndexedTriangles(|verts|, tris[..i])
        invariant triangles == old(triangles) + FlatMeshTriangles(verts, tris[..i], col)
        invariant boundsComputed == (old(boundsComputed) && i == 0)
      {
        for j := 0 to 3
          modifies av
          invariant forall q :: 0 <= q < j ==> av[q] == FlatPoint(verts, tris[i + q])
        {
          var vertId := tris[i + j] * 3;
          av[j] := Vec3(verts[vertId + 0], verts[vertId + 1], verts[vertId + 2]);
        }
        ghost var upTo := tris[..i + 3];
        assert upTo[..i] == tris[..i];
        assert forall k :: 0 <= k < i + 3 ==> upTo[k] == tris[k];
        AddTriangle(UniformTriangle(av[0], av[1], av[2], col));
        i := i + 3;
      }
      assert tris[..i] == tris;
    }
  }
}
