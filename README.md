# rcdtcs debug rendering, modelled in Dafny

The Unity demo of rcdtcs (a C# port of Recast/Detour) draws its navigation
data through two pieces of code:

- `DbgRenderMesh`, a growable list of coloured triangles. It has helpers that
  append triangles in fixed patterns: fans, quads, vertical walls, path
  ribbons and indexed meshes. `RenderTo`/`Rebuild` flatten the list into the
  vertex, index and colour arrays of a Unity mesh.
- The debug renderers of `RcdtcsUnityUtils`: `ShowRecastNavmesh`,
  `ShowRecastDetailMesh`, `ShowRawContours`, `ShowContours` and
  `ShowTilePolyDetails`. Each one clears a render mesh, walks one
  Recast/Detour data layout with integer index arithmetic, appends the
  triangles it finds and rebuilds the mesh.

The model keeps the source's imperative form:

- `RenderMesh.DbgRenderMesh` is a class whose fields are the list of
  triangles, the bounds-computed flag, the label template flag, the number of
  labels and the attached mesh. Its methods carry the same loops as the C#
  code.
- Each renderer is a method over that class, with the source's loops. It is
  proved to leave exactly the triangle list that a pure function of its input
  defines.
- The pure side is in two modules:
  - `DbgGeometry`: triangles, fans, quads, paths, meshes and the flat buffers.
  - `RecastLayouts`: the Recast/Detour fields the renderers read, and the
    triangle lists of each renderer.
- Lemmas state what those functions promise: counts, which array entry lands
  where, the cyclic order of contour walls, the border-colour rule and the
  Detour rule that picks polygon vertices or detail vertices.

Each renderer is split into nested methods, one per loop level of the C#
function:

- a `Show*` method that clears the mesh, runs the item loop and rebuilds;
- a `Draw*` method that holds the item loop;
- a method for one item: `ShowPolygonFan`, `ShowSubMesh`, `ShowRawContour`,
  `ShowContour` or `ShowPolyDetail`;
- for contours, a method for the vertex loop (`ShowRawOutline`,
  `ShowContourOutline`); for tiles, one for the corner loop (`ReadCorners`).

Together these run the same statements in the same order as the single C#
function.

Modelling choices:

- **Coordinates** are exact reals: `Vec3`.
- **Colours:** the renderers reseed Unity's generator with `c_RandomSeed` and
  draw one random colour per drawn item. The polygon, detail and tile
  renderers vary the colour before every triangle. `ShowContours` varies it
  once, for border walls only. `ShowRawContours` never varies it. The model
  names such a colour `Shade(draw, varied)`: how many colours were
  drawn before it, and how many times it went through `VaryColor`. So a
  contract says which colour every corner gets, without the float values.
- **The Unity mesh** is an `Option<MeshData>`: no mesh attached, or the buffers
  `RenderTo` last stored.
- **Labels** are a count, plus whether a label template is set.

## Model

| member | source | states |
|---|---|---|
| DbgGeometry.UniformTriangle | Assets/RcdtcsUnityDemo/Scripts/Utils/DbgRenderMesh.cs:10-17 | the single-colour triangle has corners a, b, c in that order and every corner in the given colour |
| DbgGeometry.FanShape | Assets/RcdtcsUnityDemo/Scripts/Utils/DbgRenderMesh.cs:183-189 | a convex polygon of n vertices gives max(0, n-2) triangles, the t-th being (v0, v[t+1], v[t+2]) in the polygon's colour |
| DbgGeometry.Quad | Assets/RcdtcsUnityDemo/Scripts/Utils/DbgRenderMesh.cs:191-199 | a quad is 4 triangles when two-sided and 2 otherwise, every corner one of a, b, c, d and in the given colour |
| DbgGeometry.ColouredQuad | Assets/RcdtcsUnityDemo/Scripts/Utils/DbgRenderMesh.cs:201-209 | the per-corner-colour quad has 2 or 4 triangles, and every corner keeps the colour of its own vertex in every triangle |
| DbgGeometry.ColouredQuadShape | Assets/RcdtcsUnityDemo/Scripts/Utils/DbgRenderMesh.cs:191-209 | both AddQuad overloads produce the same triangles with the same corners; only the colours differ |
| DbgGeometry.VerticalQuadIsQuad | Assets/RcdtcsUnityDemo/Scripts/Utils/DbgRenderMesh.cs:222-224 | a vertical wall is the two-sided quad over start and end raised by size, then end and start |
| DbgGeometry.ColouredVerticalQuadEdges | Assets/RcdtcsUnityDemo/Scripts/Utils/DbgRenderMesh.cs:226-228 | a two-colour wall has 4 triangles; every corner lies on the start edge in colstart or on the end edge in colend |
| DbgGeometry.PathRibbonShape | Assets/RcdtcsUnityDemo/Scripts/Utils/DbgRenderMesh.cs:230-234 | a path of vertCount >= 1 points gives 4(vertCount-1) triangles; the four of segment i are the wall path[i-1]→path[i], in col1 when i is odd and col2 when it is even |
| DbgGeometry.FlatPointAt | Assets/RcdtcsUnityDemo/Scripts/Utils/DbgRenderMesh.cs:250-253 | a point read from a flat float array at start = 3i is the array's point i, and all three reads are in bounds |
| DbgGeometry.Unpack | Assets/RcdtcsUnityDemo/Scripts/Utils/DbgRenderMesh.cs:211-216 | a flat x,y,z array of n floats holds n/3 points, point i being floats 3i, 3i+1 and 3i+2 |
| DbgGeometry.FlatPathRibbonIsPathRibbon | Assets/RcdtcsUnityDemo/Scripts/Utils/DbgRenderMesh.cs:211-234 | the flat-array AddPath draws exactly what the Vector3 AddPath draws on the array's unpacked points |
| DbgGeometry.MeshTrianglesShape | Assets/RcdtcsUnityDemo/Scripts/Utils/DbgRenderMesh.cs:236-245 | an index list of length 3m gives m triangles; triangle t is verts[tris[3t]], verts[tris[3t+1]], verts[tris[3t+2]] in the mesh colour |
| DbgGeometry.FlatMeshIsMesh | Assets/RcdtcsUnityDemo/Scripts/Utils/DbgRenderMesh.cs:236-262 | the flat-array AddMesh, reading corner j from verts[3·tris[3t+j] .. +2], draws exactly the Vector3 mesh of the unpacked points |
| DbgGeometry.VertexBuffer | Assets/RcdtcsUnityDemo/Scripts/Utils/DbgRenderMesh.cs:144 | the vertex buffer has three entries per triangle |
| DbgGeometry.ColourBuffer | Assets/RcdtcsUnityDemo/Scripts/Utils/DbgRenderMesh.cs:146 | the colour buffer has three entries per triangle |
| DbgGeometry.IdentityIndices | Assets/RcdtcsUnityDemo/Scripts/Utils/DbgRenderMesh.cs:145 | the index buffer has one entry per vertex |
| DbgGeometry.BuffersAppend | Assets/RcdtcsUnityDemo/Scripts/Utils/DbgRenderMesh.cs:148-156 | one more triangle appends its three corners, its three colours and the next three indices, and leaves the entries of earlier triangles unchanged |
| RenderMesh.DbgRenderMesh.constructor | Assets/RcdtcsUnityDemo/Scripts/Utils/DbgRenderMesh.cs:31-40 | a new render mesh has no triangles, no labels, no template, no mesh, and its bounds are not computed |
| RenderMesh.DbgRenderMesh.Setup | Assets/RcdtcsUnityDemo/Scripts/Utils/DbgRenderMesh.cs:287-289 | after setup an empty mesh is attached and the bounds are stale |
| RenderMesh.DbgRenderMesh.SetLabelTemplate | Assets/RcdtcsUnityDemo/Scripts/Utils/DbgRenderMesh.cs:46-48 | records whether a label template is set |
| RenderMesh.DbgRenderMesh.AddLabel | Assets/RcdtcsUnityDemo/Scripts/Utils/DbgRenderMesh.cs:125-137 | adds one label exactly when a template is set, and none otherwise |
| RenderMesh.DbgRenderMesh.GetTriangleCount | Assets/RcdtcsUnityDemo/Scripts/Utils/DbgRenderMesh.cs:93-95 | returns the length of the triangle list |
| RenderMesh.DbgRenderMesh.RenderTo | Assets/RcdtcsUnityDemo/Scripts/Utils/DbgRenderMesh.cs:139-161 | the three arrays are newly allocated and have 3·triCount entries; entry 3i+j holds corner j of triangle i and its colour; the index array is 0 .. 3·triCount-1 |
| RenderMesh.DbgRenderMesh.Rebuild | Assets/RcdtcsUnityDemo/Scripts/Utils/DbgRenderMesh.cs:163-167 | an attached mesh receives the rendered buffers of the current list; without a mesh nothing changes |
| RenderMesh.DbgRenderMesh.Clear | Assets/RcdtcsUnityDemo/Scripts/Utils/DbgRenderMesh.cs:169-176 | leaves no triangles, no labels and stale bounds |
| RenderMesh.DbgRenderMesh.AddTriangle | Assets/RcdtcsUnityDemo/Scripts/Utils/DbgRenderMesh.cs:178-181 | appends exactly the one triangle at the end, keeps every earlier triangle, and marks the bounds stale |
| RenderMesh.DbgRenderMesh.AddConvexPolygon | Assets/RcdtcsUnityDemo/Scripts/Utils/DbgRenderMesh.cs:183-189 | appends the polygon's fan and nothing else; the bounds stay valid only when nothing was added |
| RenderMesh.DbgRenderMesh.AddQuad | Assets/RcdtcsUnityDemo/Scripts/Utils/DbgRenderMesh.cs:191-199 | appends A B C, A C D, plus B A D, B D C when two-sided, in the given colour |
| RenderMesh.DbgRenderMesh.AddQuadColoured | Assets/RcdtcsUnityDemo/Scripts/Utils/DbgRenderMesh.cs:201-209 | appends the same triangles with each corner in its own vertex's colour |
| RenderMesh.DbgRenderMesh.AddVerticalQuad | Assets/RcdtcsUnityDemo/Scripts/Utils/DbgRenderMesh.cs:222-224 | appends the wall of height size over start→end, both sides |
| RenderMesh.DbgRenderMesh.AddVerticalQuadColoured | Assets/RcdtcsUnityDemo/Scripts/Utils/DbgRenderMesh.cs:226-228 | appends the two-colour wall: colstart on the start edge, colend on the end edge |
| RenderMesh.DbgRenderMesh.AddPath | Assets/RcdtcsUnityDemo/Scripts/Utils/DbgRenderMesh.cs:230-234 | appends the path ribbon of the first vertCount points and nothing else; the bounds stay valid only when vertCount <= 1 |
| RenderMesh.DbgRenderMesh.AddPathFlat | Assets/RcdtcsUnityDemo/Scripts/Utils/DbgRenderMesh.cs:211-220 | a null path or one of at most 3 floats appends nothing; otherwise appends the ribbon of points read from path[3i .. 3i+2] |
| RenderMesh.DbgRenderMesh.AddMesh | Assets/RcdtcsUnityDemo/Scripts/Utils/DbgRenderMesh.cs:236-245 | appends one triangle per index triple, in the order of the triples |
| RenderMesh.DbgRenderMesh.AddMeshFlat | Assets/RcdtcsUnityDemo/Scripts/Utils/DbgRenderMesh.cs:246-262 | appends one triangle per index triple, with corners read through the reused scratch array av |
| RecastLayouts.FanEnd | Assets/RcdtcsUnityDemo/Scripts/Utils/RcdtcsDebugRenderUtils.cs:37-40 | the fan loop stops at the first slot from j on that holds RC_MESH_NULL_IDX, or at nvp; no slot before that point is null |
| RecastLayouts.FanEndIs | Assets/RcdtcsUnityDemo/Scripts/Utils/RcdtcsDebugRenderUtils.cs:37-40 | the stop slot is the only slot with those two properties |
| RecastLayouts.FanCountForNullSuffix | Assets/RcdtcsUnityDemo/Scripts/Utils/RcdtcsDebugRenderUtils.cs:33-53 | a polygon whose m used slots come before its null slots gets max(0, m-2) fan triangles |
| RecastLayouts.GridVertexAt | Assets/RcdtcsUnityDemo/Scripts/Utils/RcdtcsDebugRenderUtils.cs:45-50 | vertex v read at vIndex = 3v is in bounds and converts to bmin + cell coordinates × cs/ch, lifted one cell plus 0.1 |
| RecastLayouts.PolygonTriangles | Assets/RcdtcsUnityDemo/Scripts/Utils/RcdtcsDebugRenderUtils.cs:37-53 | polygon i draws one triangle per used slot from slot 2 up to the first null slot |
| RecastLayouts.NavmeshPlan | Assets/RcdtcsUnityDemo/Scripts/Utils/RcdtcsDebugRenderUtils.cs:33-54 | the navmesh is npolys fans in order; in fan i, triangle t is (slot 0, slot t+1, slot t+2) of the block starting at i·nvp·2, in colour i varied t+1 times |
| RecastLayouts.NavmeshConcat | Assets/RcdtcsUnityDemo/Scripts/Utils/RcdtcsDebugRenderUtils.cs:33-54 | drawing the first n fans one after another gives the navmesh's first n polygons |
| RecastLayouts.SubMeshTrianglesAt | Assets/RcdtcsUnityDemo/Scripts/Utils/RcdtcsDebugRenderUtils.cs:73-88 | the first n triangles of a sub-mesh are its triangles 0 .. n-1, in order |
| RecastLayouts.SubMeshShape | Assets/RcdtcsUnityDemo/Scripts/Utils/RcdtcsDebugRenderUtils.cs:64-88 | sub-mesh i draws ntris = meshes[4i+3] triangles; corner k of triangle j is detail vertex meshes[4i] + tris[meshes[4i+2]·4 + 4j + k], in colour i varied j+1 times |
| RecastLayouts.DetailPlan | Assets/RcdtcsUnityDemo/Scripts/Utils/RcdtcsDebugRenderUtils.cs:64-89 | the detail mesh is nmeshes sub-meshes in order; sub-mesh i has meshes[4i+3] triangles, the j-th its detail triangle j |
| RecastLayouts.DetailConcat | Assets/RcdtcsUnityDemo/Scripts/Utils/RcdtcsDebugRenderUtils.cs:64-89 | drawing the first n sub-meshes one after another gives the detail mesh's first n sub-meshes |
| RecastLayouts.ContourPointAt | Assets/RcdtcsUnityDemo/Scripts/Utils/RcdtcsDebugRenderUtils.cs:116-127 | contour vertex v read at vStart = 4v is in bounds; it converts to bmin + cell coordinates × cs/ch, lifted one extra cell on odd contours (i & 1) |
| RecastLayouts.RawParts | Assets/RcdtcsUnityDemo/Scripts/Utils/RcdtcsDebugRenderUtils.cs:104-140 | ShowRawContours draws one item per contour, nconts in all (none when nconts is negative) |
| RecastLayouts.RawChainShape | Assets/RcdtcsUnityDemo/Scripts/Utils/RcdtcsDebugRenderUtils.cs:121-131 | the vertex loop up to j draws 4(j-1) triangles; the four of raw segment s are the wall from raw vertex s-1 to raw vertex s |
| RecastLayouts.RawOutlineShape | Assets/RcdtcsUnityDemo/Scripts/Utils/RcdtcsDebugRenderUtils.cs:116-133 | a contour with nrverts >= 1 is exactly nrverts walls; wall s joins raw vertex s to its cyclic successor, the last one closing back to the start |
| RecastLayouts.RawChainWalls | Assets/RcdtcsUnityDemo/Scripts/Utils/RcdtcsDebugRenderUtils.cs:121-133 | the walls of the vertex loop are the leading walls of the closed outline, in the same order |
| RecastLayouts.RawPlan | Assets/RcdtcsUnityDemo/Scripts/Utils/RcdtcsDebugRenderUtils.cs:104-140 | raw contours are drawn contour after contour: none for nrverts = 0, otherwise one wall per visited raw vertex to its cyclic successor, each contour in its own next random colour |
| RecastLayouts.HasBorderFlagIsBitAnd | Assets/RcdtcsUnityDemo/Scripts/Utils/RcdtcsDebugRenderUtils.cs:196 | for every C# int, negative ones included, the border test holds exactly when `flags & RC_AREA_BORDER` is non-zero on the int's two's-complement bits |
| RecastLayouts.WordBorderFlag | Assets/RcdtcsUnityDemo/Scripts/Utils/RcdtcsDebugRenderUtils.cs:196 | on an unsigned 32-bit word, the border test is exactly bit 17 of the word, as `& RC_AREA_BORDER` reads it |
| RecastLayouts.BorderFlagWrap | Assets/RcdtcsUnityDemo/Scripts/Utils/RcdtcsDebugRenderUtils.cs:196 | the border test sees the same bit in a negative int as in its unsigned 32-bit word |
| RecastLayouts.ContourPoints | Assets/RcdtcsUnityDemo/Scripts/Utils/RcdtcsDebugRenderUtils.cs:198-203 | contour i has one world point per vertex |
| RecastLayouts.ContourBorders | Assets/RcdtcsUnityDemo/Scripts/Utils/RcdtcsDebugRenderUtils.cs:196 | contour i has one border flag per vertex |
| RecastLayouts.RingEdgesShape | Assets/RcdtcsUnityDemo/Scripts/Utils/RcdtcsDebugRenderUtils.cs:192-206 | j edges of a ring make 4j triangles; the four of edge s are the wall of edge s |
| RecastLayouts.RingEdgeColours | Assets/RcdtcsUnityDemo/Scripts/Utils/RcdtcsDebugRenderUtils.cs:192-205 | edge j runs from its cyclic predecessor k to j; it is in the varied colour exactly when k is a border vertex, and in the plain colour exactly when it is not |
| RecastLayouts.ContourEdgeIs | Assets/RcdtcsUnityDemo/Scripts/Utils/RcdtcsDebugRenderUtils.cs:192-205 | edge s of contour i is the wall from vertex Pred(s) to vertex s, varied exactly when verts[4·Pred(s)+3] has RC_AREA_BORDER set |
| RecastLayouts.ContourOutlineShape | Assets/RcdtcsUnityDemo/Scripts/Utils/RcdtcsDebugRenderUtils.cs:192-206 | a contour of nverts vertices is exactly nverts walls (4 triangles each); wall s runs from vertex Pred(s) to vertex s, so the first runs nverts-1 → 0 |
| RecastLayouts.RingEdgesWalls | Assets/RcdtcsUnityDemo/Scripts/Utils/RcdtcsDebugRenderUtils.cs:192-206 | drawing the edges one after another gives the ring's first j edges |
| RecastLayouts.ContourOutlineWalls | Assets/RcdtcsUnityDemo/Scripts/Utils/RcdtcsDebugRenderUtils.cs:192-206 | the outline of contour i is its walls in a row, wall s being the edge Pred(s) → s in its border-dependent colour |
| RecastLayouts.ContourWalls | Assets/RcdtcsUnityDemo/Scripts/Utils/RcdtcsDebugRenderUtils.cs:192-206 | contour i has one wall per vertex |
| RecastLayouts.ContourPartWalls | Assets/RcdtcsUnityDemo/Scripts/Utils/RcdtcsDebugRenderUtils.cs:185-206 | what ShowContours draws for contour i is its walls in a row |
| RecastLayouts.ContourParts | Assets/RcdtcsUnityDemo/Scripts/Utils/RcdtcsDebugRenderUtils.cs:183-207 | ShowContours draws one item per contour, nconts in all (none when nconts is negative) |
| RecastLayouts.ContourPlan | Assets/RcdtcsUnityDemo/Scripts/Utils/RcdtcsDebugRenderUtils.cs:183-207 | contours are drawn contour after contour: none for nverts = 0, otherwise nverts walls; wall s runs Pred(s) → s in the contour's colour, varied when Pred(s) is a border vertex |
| RecastLayouts.LocalVertices | Assets/RcdtcsUnityDemo/Scripts/Utils/RcdtcsDebugRenderUtils.cs:266-276 | Detour's local detail numbering has vertCount polygon vertices followed by the detail vertices |
| RecastLayouts.CornerSourceIsLocalVertex | Assets/RcdtcsUnityDemo/Scripts/Utils/RcdtcsDebugRenderUtils.cs:267-275 | the corner rule (tk < vertCount: poly.verts[tk] in tile.verts, otherwise vertBase + tk - vertCount in detailVerts) picks the tk-th vertex of that numbering |
| RecastLayouts.TileCornerRule | Assets/RcdtcsUnityDemo/Scripts/Utils/RcdtcsDebugRenderUtils.cs:263-279 | every corner is read in bounds from the array its source names, at the source's index, and that source is the local vertex the corner's index selects |
| RecastLayouts.PolyDetailTrianglesAt | Assets/RcdtcsUnityDemo/Scripts/Utils/RcdtcsDebugRenderUtils.cs:262-283 | the first n detail triangles of polygon i are its triangles 0 .. n-1, in order |
| RecastLayouts.PolyDetailShape | Assets/RcdtcsUnityDemo/Scripts/Utils/RcdtcsDebugRenderUtils.cs:262-283 | polygon i draws triCount triangles, corner k of triangle j being that corner's tile or detail vertex, in colour i varied j+1 times |
| RecastLayouts.TilePlan | Assets/RcdtcsUnityDemo/Scripts/Utils/RcdtcsDebugRenderUtils.cs:255-284 | a tile is its detailMeshes.Length polygons in order; polygon i has triCount triangles, the j-th its detail triangle j |
| RecastLayouts.TileConcat | Assets/RcdtcsUnityDemo/Scripts/Utils/RcdtcsDebugRenderUtils.cs:255-284 | drawing the first n polygons one after another gives the tile's first n polygons |
| RcdtcsUnityUtils.ShowRecastNavmesh | Assets/RcdtcsUnityDemo/Scripts/Utils/RcdtcsDebugRenderUtils.cs:23-56 | the render mesh ends up with exactly the navmesh's fans, with no labels and stale bounds, and that list is rebuilt into an attached mesh |
| RcdtcsUnityUtils.DrawPolygons | Assets/RcdtcsUnityDemo/Scripts/Utils/RcdtcsDebugRenderUtils.cs:27-54 | after the reseed, appends every polygon's fan in order, polygon i in the i-th random colour, with one pair of scratch arrays shared by all polygons |
| RcdtcsUnityUtils.ShowPolygonFan | Assets/RcdtcsUnityDemo/Scripts/Utils/RcdtcsDebugRenderUtils.cs:35-53 | appends exactly polygon i's fan from block start i·nvp·2, stopping at the first RC_MESH_NULL_IDX or at nvp |
| RcdtcsUnityUtils.ShowRecastDetailMesh | Assets/RcdtcsUnityDemo/Scripts/Utils/RcdtcsDebugRenderUtils.cs:58-91 | the render mesh ends up with exactly the detail mesh's triangles, with no labels and stale bounds, and that list is rebuilt into an attached mesh |
| RcdtcsUnityUtils.DrawSubMeshes | Assets/RcdtcsUnityDemo/Scripts/Utils/RcdtcsDebugRenderUtils.cs:62-89 | after the reseed, appends every sub-mesh in order, sub-mesh i in the i-th random colour |
| RcdtcsUnityUtils.ShowSubMesh | Assets/RcdtcsUnityDemo/Scripts/Utils/RcdtcsDebugRenderUtils.cs:67-88 | appends exactly sub-mesh i's ntris triangles, corner k of triangle j from detail vertex bverts + tris[btris·4 + j·4 + k] |
| RcdtcsUnityUtils.ShowRawContours | Assets/RcdtcsUnityDemo/Scripts/Utils/RcdtcsDebugRenderUtils.cs:93-171 | the render mesh ends up with exactly the raw outlines; with a template, one label per contour that has raw vertices; the list is rebuilt into an attached mesh |
| RcdtcsUnityUtils.DrawRawContours | Assets/RcdtcsUnityDemo/Scripts/Utils/RcdtcsDebugRenderUtils.cs:98-140 | after the reseed, appends every contour's raw outline in order; contours with nrverts = 0 draw no colour and no label |
| RcdtcsUnityUtils.ShowRawContour | Assets/RcdtcsUnityDemo/Scripts/Utils/RcdtcsDebugRenderUtils.cs:106-139 | skips a contour without raw vertices; otherwise draws the next random colour, appends its outline and adds a label |
| RcdtcsUnityUtils.ShowRawOutline | Assets/RcdtcsUnityDemo/Scripts/Utils/RcdtcsDebugRenderUtils.cs:114-139 | appends the walls between consecutive raw vertices, then the wall from the last one back to the start, then adds one label when a template is set |
| RcdtcsUnityUtils.ShowContours | Assets/RcdtcsUnityDemo/Scripts/Utils/RcdtcsDebugRenderUtils.cs:173-235 | the render mesh ends up with exactly the contour outlines, with no labels and stale bounds, and that list is rebuilt into an attached mesh |
| RcdtcsUnityUtils.DrawContours | Assets/RcdtcsUnityDemo/Scripts/Utils/RcdtcsDebugRenderUtils.cs:177-207 | after the reseed, appends every contour's outline in order; contours with nverts = 0 draw no colour |
| RcdtcsUnityUtils.ShowContour | Assets/RcdtcsUnityDemo/Scripts/Utils/RcdtcsDebugRenderUtils.cs:185-206 | skips a contour without vertices; otherwise draws the next random colour, varies it for the border colour and appends the contour's walls |
| RcdtcsUnityUtils.ShowContourOutline | Assets/RcdtcsUnityDemo/Scripts/Utils/RcdtcsDebugRenderUtils.cs:192-206 | appends one wall per vertex j, from k = the vertex before j (nverts-1 for j = 0) to j, in bcol exactly when vertex k has RC_AREA_BORDER |
| RcdtcsUnityUtils.ShowTilePolyDetails | Assets/RcdtcsUnityDemo/Scripts/Utils/RcdtcsDebugRenderUtils.cs:237-286 | a null navmesh leaves the list cleared and rebuilt; a missing tile leaves it cleared and the mesh not rebuilt; otherwise the list is the tile's detail triangles, rebuilt |
| RcdtcsUnityUtils.DrawTilePolys | Assets/RcdtcsUnityDemo/Scripts/Utils/RcdtcsDebugRenderUtils.cs:255-284 | appends every polygon's detail triangles in order, polygon i in the i-th random colour |
| RcdtcsUnityUtils.ShowPolyDetail | Assets/RcdtcsUnityDemo/Scripts/Utils/RcdtcsDebugRenderUtils.cs:257-283 | appends exactly polygon i's triCount detail triangles, each from its three corners, in the polygon's colour varied once more per triangle |
| RcdtcsUnityUtils.ReadCorners | Assets/RcdtcsUnityDemo/Scripts/Utils/RcdtcsDebugRenderUtils.cs:263-279 | all three corners are read in bounds, and corner q is read from the array and offset that Detour's corner rule selects |

## Left out

- Float arithmetic: coordinates are exact reals. Unity's 32-bit rounding of
  `bmin + v * cs`, of the `+ 0.1f` lift and of `Vector3.up * size` is not
  modelled.
- Colour values: `UnityEngine.Random.value` and `VaryColor` /
  `VaryColorComponent` (RcdtcsDebugRenderUtils.cs lines 6-19) are floats. A
  colour is named by its draw number and how many times it was varied, so
  two different shades stand for colours that Unity may still happen to make
  equal.
- Label content: `AddLabel` is modelled as a count. Its position, its text and
  `GetBoundingBoxTop` / `GetBoundingBoxCenter` are not modelled; in
  `ShowRawContours` they only place the label. `ComputeBounds`,
  `LabelBoundingBoxTop` and `LabelCenter` are not modelled either. The bounds
  cache is modelled only as its flag.
- Unity objects: `CreateGameObject`, the component lookups in `Setup`,
  `Object.Instantiate` / `Destroy` and the `Mesh` object. The mesh is an
  optional buffer triple.
- `Debug.LogError` in `AddLabel` and `ShowTilePolyDetails` is output only, so
  it is not modelled.
- Out-of-range reads: the C# code throws on an out-of-range array index or on
  a null argument it does not check. The only null arguments it checks are
  `navMesh` and the flat `path`; it also handles a missing tile, a missing
  `m_Mesh` and a missing `m_LabelTemplate`, and the model covers all five.
  For every other input the model requires what the loops need to read in
  bounds: the `*Readable` predicates, `IndexedTriangles` for `AddMesh`,
  `FlatIndexedTriangles` for the flat `AddMesh`, `vertCount <= |path|` for
  `AddPath`, and `3 * vertCount <= |path|` for the flat `AddPath`.
- `RC_MESH_NULL_IDX` (0xffff) and `RC_AREA_BORDER` (0x20000) are Recast's
  constants. The Recast library that defines them is not part of this model.
  `HasBorderFlagIsBitAnd` proves that the model's border test agrees with the
  C# `&` on every 32-bit int.
- Integer widths: the `uint` sub-mesh header, the `byte` and `ushort` tile
  fields and the `(int)` casts are unbounded naturals in the model. Overflow
  of `(bverts + tris[...]) * 3` or of `(triBase + j) * 4` is not modelled.
- `DbgRenderTriangle` is modelled as an immutable value. Its corner and colour
  arrays are public and mutable in C#, but the core never changes them after
  construction, so the list's aliasing is not modelled.
- The commented-out point-drawing blocks in `ShowRawContours` and
  `ShowContours` are not code and are not modelled.
