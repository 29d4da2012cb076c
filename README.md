# Rounded-box mesh generator, modelled in Dafny

`CubeGen` is a Unity component that builds a box of `xSize × ySize × zSize` lattice
cells whose edges and corners are rounded with radius `roundness`. It does four things:

1. **Vertices.** It fills three parallel vertex buffers (`vertices`, `normals`,
   `cubeUV`) in a fixed order:
   - first, for every layer `y = 0 .. ySize`, the ring of `ring = 2·(xSize + zSize)`
     perimeter lattice points (front edge, right edge, back edge, left edge);
   - then the interior points of the top cap, row by row;
   - then those of the bottom cap.
   For each point, `SetVertex` clamps the lattice point into the core box
   `[r, size − r]³` (the "inner" point) and records the raw coordinates as a
   `Color32` tag.
2. **Quads.** `SetQuad` writes one quad as two triangles (six indices) at a cursor.
3. **Triangles.** `CreateTriangles` fills three index buffers:
   - the side faces, layer by layer: the faces `z = 0` and `z = zSize` go to the Z
     group, the faces `x = xSize` and `x = 0` to the X group, and one wrap-around
     quad per layer closes the ring;
   - the two caps, stitched from the border rings to the interior blocks by
     `CreateTopFace` and `CreateBottomFace`, go to the Y group.
4. **Colliders.** `CreateColliders` adds one box collider when the box is sharp.
   Otherwise it adds three crossing boxes and twelve capsules along the rounded edges.

The model has five modules:

- `Lattice` holds the sizes (`Dims`) and lattice points. It defines:
  - the traversal order as a sequence of points (`Traversal`);
  - the closed-form index of every surface point (`IndexOf`);
  - the lemmas that make the two inverse to each other.
- `Vertex` holds what `SetVertex` computes for one point: the clamp, the inset point,
  the offset back to the lattice point, and the byte tag.
- `Quads` holds what each triangle group must contain, as sequences of quads:
  - `SidesZ` and `SidesX` for the side groups;
  - `Cap(d, true)` and `Cap(d, false)` for the caps;
  - `Flatten` for the buffer a sequence of quads becomes.
  It also holds the counting, cursor and index-bound lemmas the triangulation relies on.
- `Colliders` holds the collider descriptors and `ColliderLayout`, the sequence
  `CreateColliders` appends.
- `CubeGenModel` holds the class `CubeGen`. Its `inner`, `normals` and `cubeUV` are
  arrays filled in place, and its `colliders` is a sequence the collider methods extend.
  - Every method of the C# class except `Awake` is a method here, with the source's
    loops and cursors and with loop invariants.
  - Each method is proved against the specification functions above: the vertex
    buffers hold `SetVertex` of `Traversal()[j]` at every `j`, and each index buffer
    equals `Flatten` of its quad sequence.
  - Where the source nests loops, the inner loop, the outer loop, or one pass of the
    outer loop, is a method of its own: `SetRings`, `SetInteriorRow`, `CreateSides`,
    `CreateSideLayer`, `EmitSideRun`, `TopMiddleRows` and the row methods. The quad
    that closes each layer's ring is placed by `CloseRing`. The four capsule calls of
    each axis are grouped in `AddEdgeCapsules`.
  - Each method that fills part of a buffer also states that the entries after its
    cursor keep their old contents.

## Model

| member | source | states |
|---|---|---|
| Lattice.VertexCountSplit | Assets/Scripts/CubeGen.cs:38-44 | The buffer length `8 + 4·(x+y+z−3) + 2·((x−1)(y−1)+(x−1)(z−1)+(y−1)(z−1))` equals `ring·(ySize+1)` plus two cap interiors of `(xSize−1)(zSize−1)` points each |
| Lattice.LayerEdges | Assets/Scripts/CubeGen.cs:49-67 | One layer visits `xSize+1` front-edge points, then `zSize` right-edge points, then `xSize` back-edge points, then `zSize−1` left-edge points, in the loops' directions. The four edge methods state the same points directly; this lemma checks that the closed form `RingPoint` agrees with the edge-by-edge reading |
| Lattice.RingsLength | Assets/Scripts/CubeGen.cs:49-67 | Layers `0 .. n−1` contribute `n·ring` vertices |
| Lattice.InteriorRowsLength | Assets/Scripts/CubeGen.cs:69-82 | A cap's interior rows `1 .. n` contribute `n·(xSize−1)` vertices |
| Lattice.TraversalLength | Assets/Scripts/CubeGen.cs:38-82 | The traversal visits exactly as many points as the buffer has slots |
| Lattice.VertexBlocks | Assets/Scripts/CubeGen.cs:38-82 | The rings, then the top interior, then the bottom interior exactly fill the buffer; each cap block has `(xSize−1)(zSize−1)` slots |
| Lattice.TraversalParts | Assets/Scripts/CubeGen.cs:48-82 | The traversal is rings ++ top interior ++ bottom interior; the top interior starts at `ring·(ySize+1)` |
| Lattice.RingsAt | Assets/Scripts/CubeGen.cs:49-67 | Slot `y·ring + k` of the ring block holds ring position k of layer y |
| Lattice.InteriorRowsAt | Assets/Scripts/CubeGen.cs:69-82 | Slot `(z−1)(xSize−1) + (x−1)` of a cap block holds interior point (x, z) |
| Lattice.RingPointIndex | Assets/Scripts/CubeGen.cs:49-67 | Ring position k of layer y is a side surface point whose closed-form index is `y·ring + k` |
| Lattice.RingsBound | Assets/Scripts/CubeGen.cs:49-67 | Layers `0 .. y−1` plus one more layer still fit in the ring block, for `y ≤ ySize` |
| Lattice.RingPosPoint | Assets/Scripts/CubeGen.cs:49-67 | Every side point of the box is the ring point at its ring position and height |
| Lattice.SideAtIndexOf | Assets/Scripts/CubeGen.cs:49-67 | A side point's index lies in the ring block, and the ring block holds that point there |
| Lattice.SideTraversalAt | Assets/Scripts/CubeGen.cs:48-82 | The traversal holds every side point at its closed-form index |
| Lattice.InteriorTraversalAt | Assets/Scripts/CubeGen.cs:69-82 | The traversal holds every cap interior point at its closed-form index |
| Lattice.TraversalAtIndexOf | Assets/Scripts/CubeGen.cs:48-82 | Every surface lattice point is written, at index `IndexOf(p)` within the buffer |
| Lattice.RingsIndexOf | Assets/Scripts/CubeGen.cs:49-67 | Every slot of the ring block holds a surface point whose closed-form index is that slot |
| Lattice.CapInteriorIndexOf | Assets/Scripts/CubeGen.cs:69-82 | Every slot of the two cap blocks holds a surface point whose closed-form index is that slot |
| Lattice.IndexOfTraversal | Assets/Scripts/CubeGen.cs:48-82 | Every slot holds a surface point, and `IndexOf` maps it back to the slot: with TraversalAtIndexOf, each surface point is written exactly once |
| Vertex.ClampBounds | Assets/Scripts/CubeGen.cs:93-116 | For `0 ≤ r ≤ size/2`, the clamped coordinate lies in `[r, size − r]`, and a coordinate already there is unchanged |
| Vertex.ClampNearest | Assets/Scripts/CubeGen.cs:93-116 | The clamped coordinate is the nearest point of `[r, size − r]` |
| Vertex.InsetInCore | Assets/Scripts/CubeGen.cs:91-116 | The inner point lies in the core box; for a lattice point of the box, the offset to it is at most r on each axis |
| Vertex.SharpBox | Assets/Scripts/CubeGen.cs:91-116 | With roundness 0, the inner point is the lattice point and the offset is zero |
| Vertex.OffsetNonZero | Assets/Scripts/CubeGen.cs:91-118 | With `0 < r ≤ size/2`, every surface point's offset, the vector that is normalised, is non-zero |
| Vertex.ByteCastWraps | Assets/Scripts/CubeGen.cs:120 | The byte cast keeps values below 256 and otherwise wraps modulo 256 |
| Vertex.TagExact | Assets/Scripts/CubeGen.cs:120 | The tag of a point with coordinates below 256 is its raw, unclamped (x, y, z) with alpha 0 |
| Quads.Flatten | Assets/Scripts/CubeGen.cs:242-249 | A buffer of n quads has 6n entries |
| Quads.FlattenAt | Assets/Scripts/CubeGen.cs:242-249 | Entry `6i + j` of the buffer is entry j of quad i's `(v00, v01, v10, v10, v01, v11)` |
| Quads.FlattenAppend | Assets/Scripts/CubeGen.cs:242-249 | The buffer of two quad runs is the first's buffer followed by the second's |
| Quads.BufferHolds | Assets/Scripts/CubeGen.cs:242-249 | An array with every quad of qs in place at `6i` and length six times the number of quads is exactly `Flatten(qs)` |
| Quads.SideRun | Assets/Scripts/CubeGen.cs:135-150 | A run of n side quads has n quads |
| Quads.SideQuadPoints | Assets/Scripts/CubeGen.cs:133-152 | Side quad k of layer y joins ring points k and next(k) of layers y and y+1 |
| Quads.SideQuadCursor | Assets/Scripts/CubeGen.cs:135-150 | Away from the wrap, the side quad at cursor q is `(q, q+1, q+ring, q+ring+1)`: `v01 = v00 + ring`, `v11 = v10 + ring` |
| Quads.SideQuadWrap | Assets/Scripts/CubeGen.cs:151 | The last quad of layer y is `(q, q−ring+1, q+ring, q+1)`; its `v10` is the layer's first vertex, so the ring closes |
| Quads.SidesLength | Assets/Scripts/CubeGen.cs:133-152 | Each layer sends `2·xSize` quads to the Z group and `2·zSize` to the X group |
| Quads.SideBuffers | Assets/Scripts/CubeGen.cs:126-152 | The side groups exactly fill `trianglesZ` (`12·xSize·ySize`) and `trianglesX` (`12·ySize·zSize`) |
| Quads.CapRow | Assets/Scripts/CubeGen.cs:163-240 | A cap row of n cells has n quads |
| Quads.CapRowsLength | Assets/Scripts/CubeGen.cs:163-240 | Cap rows `0 .. n−1` hold `xSize·n` quads |
| Quads.CapLength | Assets/Scripts/CubeGen.cs:163-240 | Each cap has `xSize·zSize` quads |
| Quads.CapBuffer | Assets/Scripts/CubeGen.cs:128 | The two caps exactly fill `trianglesY` (`12·xSize·zSize`) |
| Quads.CapWritesFit | Assets/Scripts/CubeGen.cs:163-240 | From two cells a side, the passes of CreateTopFace's loops and of CreateBottomFace's loops each write exactly one quad per cap cell |
| Quads.CapWritesOverflow | Assets/Scripts/CubeGen.cs:163-240 | For `xSize = 1` or `zSize = 1`, the two faces' loops together write more quads than the caps have cells, so more than the six-per-cell entries of `trianglesY` (line 128) |
| Quads.TopCursors | Assets/Scripts/CubeGen.cs:176-191 | At middle row z of the top cap: vMin is at `ring·(ySize+1) − z`, vMid at `ring·(ySize+1) + (xSize−1)·(z−1)`, vMax at `ring·ySize + xSize + z`; `xSize·z` cells precede the row |
| Quads.TopRingCursors | Assets/Scripts/CubeGen.cs:176-191 | The top cap's border cursors vMin (left edge) and vMax (right edge) at row z, in closed form |
| Quads.TopInteriorCursor | Assets/Scripts/CubeGen.cs:176-191 | The top cap's interior cursor vMid at row z, in closed form |
| Quads.TopNearAt | Assets/Scripts/CubeGen.cs:166-173 | Cell x of the top cap's first row is the quad the near loop and its closing quad write at `quadIndex = ring·ySize + x` |
| Quads.TopMiddleFirst | Assets/Scripts/CubeGen.cs:183 | The first cell of a top middle row is `(vMin, vMid, vMin−1, vMid+xSize−1)` |
| Quads.TopMiddleInner | Assets/Scripts/CubeGen.cs:184-189 | An inner cell of a top middle row is `(vMid, vMid+1, vMid+xSize−1, vMid+xSize)` |
| Quads.TopLastCell | Assets/Scripts/CubeGen.cs:190 | The last cell of a top middle row, as a cap cell, is `(vMid, vMax, vMid+xSize−1, vMax+1)` |
| Quads.TopMiddleLast | Assets/Scripts/CubeGen.cs:190 | The top cap's quad at the end of a middle row is that last cell |
| Quads.TopFarCell | Assets/Scripts/CubeGen.cs:193-200 | The top cap's far-row cells, as cap cells, in terms of vMin and vMid |
| Quads.TopFarAt | Assets/Scripts/CubeGen.cs:193-200 | The top cap's far-row quads are those of lines 195, 198 and 200 |
| Quads.BottomCursors | Assets/Scripts/CubeGen.cs:215-229 | At middle row z of the bottom cap: vMin is at `ring − z − 1`, vMid at `len − (xSize−1)(zSize−1) + (xSize−1)(z−1)`, vMax at `xSize + z` |
| Quads.BottomInteriorCursor | Assets/Scripts/CubeGen.cs:207-229 | The bottom cap's interior cursor vMid at row z, in closed form |
| Quads.BottomNearAt | Assets/Scripts/CubeGen.cs:206-213 | The bottom cap's first row: `(ring−1, m, 0, 1)`, then `(vMid, vMid+1, v, v+1)`, then the closing quad |
| Quads.BottomMiddleFirst | Assets/Scripts/CubeGen.cs:221 | The first cell of a bottom middle row is `(vMin, vMid+xSize−1, vMin+1, vMid)` |
| Quads.BottomMiddleInner | Assets/Scripts/CubeGen.cs:222-227 | An inner cell of a bottom middle row is `(vMid+xSize−1, vMid+xSize, vMid, vMid+1)` |
| Quads.BottomMiddleLast | Assets/Scripts/CubeGen.cs:228 | The last cell of a bottom middle row is `(vMid+xSize−1, vMax+1, vMid, vMax)` |
| Quads.BottomFarCell | Assets/Scripts/CubeGen.cs:231-237 | The bottom cap's far-row cells, as cap cells, in terms of the left-edge cursor at the far row and vMid |
| Quads.BottomFarAt | Assets/Scripts/CubeGen.cs:231-237 | The bottom cap's far-row quads are those of lines 232, 235 and 237 |
| Quads.SideRunAt | Assets/Scripts/CubeGen.cs:135-150 | Quad j of a side run is the side quad at ring position `k0 + j` |
| Quads.SidesZIn | Assets/Scripts/CubeGen.cs:133-146 | Layer y's Z quads follow the Z quads of the layers before it |
| Quads.SidesXIn | Assets/Scripts/CubeGen.cs:133-151 | Layer y's X quads follow the X quads of the layers before it |
| Quads.SidesZAt | Assets/Scripts/CubeGen.cs:135-146 | Z quad j of layer y is the side quad at ring position j (front edge) for `j < xSize`, else at `j + zSize` (back edge) |
| Quads.SidesXAt | Assets/Scripts/CubeGen.cs:139-151 | X quad j of layer y is the side quad at ring position `xSize + j` (right edge) for `j < zSize`, else at `2·xSize + j` (left edge) |
| Quads.SidesZCursorAt | Assets/Scripts/CubeGen.cs:135-146 | Every Z quad is `(q, q+1, q+ring, q+ring+1)` at the source's quadIndex q |
| Quads.SidesXCursorAt | Assets/Scripts/CubeGen.cs:139-150 | Every X quad but the wrap is `(q, q+1, q+ring, q+ring+1)` at the source's quadIndex q |
| Quads.SidesXWrap | Assets/Scripts/CubeGen.cs:151 | The last X quad of layer y closes the ring back to vertex `y·ring` |
| Quads.SidesFrontRun | Assets/Scripts/CubeGen.cs:135-138 | The front-edge run of layer y in the Z group starts at quadIndex `ring·y` |
| Quads.SidesRightRun | Assets/Scripts/CubeGen.cs:139-142 | The right-edge run starts at quadIndex `ring·y + xSize` |
| Quads.SidesBackRun | Assets/Scripts/CubeGen.cs:143-146 | The back-edge run starts at quadIndex `ring·y + xSize + zSize` |
| Quads.SidesLeftRun | Assets/Scripts/CubeGen.cs:147-151 | The left-edge run of `zSize − 1` quads starts at `ring·y + 2·xSize + zSize` and is followed by the wrap quad `(c, c − ring + 1, c + ring, c + 1)`, where c is the cursor after the run (line 151) |
| Quads.CapRowAt | Assets/Scripts/CubeGen.cs:163-240 | Quad x of a cap row is cell (x, z) |
| Quads.CapRowsPrefix | Assets/Scripts/CubeGen.cs:163-240 | The first m cap rows are a prefix of the first n |
| Quads.CapAt | Assets/Scripts/CubeGen.cs:163-240 | Quad `xSize·z + x` of a cap is cell (x, z): the caps are covered row-major |
| Quads.CapsPlaced | Assets/Scripts/CubeGen.cs:154-155 | The Y group is the top cap followed by the bottom cap, `2·xSize·zSize` quads |
| Quads.TopNearForm | Assets/Scripts/CubeGen.cs:166-173 | The top cap's first row in the cursor form the near loop writes |
| Quads.TopMiddleForm | Assets/Scripts/CubeGen.cs:181-191 | A top middle row in the cursor form the middle loop writes |
| Quads.TopFarForm | Assets/Scripts/CubeGen.cs:193-200 | The top cap's far row in the cursor form the far loop writes |
| Quads.BottomNearForm | Assets/Scripts/CubeGen.cs:206-213 | The bottom cap's first row in the cursor form the near loop writes |
| Quads.BottomMiddleForm | Assets/Scripts/CubeGen.cs:219-229 | A bottom middle row in the cursor form the middle loop writes |
| Quads.BottomFarForm | Assets/Scripts/CubeGen.cs:231-237 | The bottom cap's far row in the cursor form the far loop writes |
| Quads.SideQuadIn | Assets/Scripts/CubeGen.cs:133-152 | Every corner of a side quad is a vertex index in `[0, len)` |
| Quads.SideRunIn | Assets/Scripts/CubeGen.cs:135-150 | Every quad of a side run has its corners in `[0, len)` |
| Quads.SidesIn | Assets/Scripts/CubeGen.cs:133-152 | Every side quad of both groups has its corners in `[0, len)` |
| Quads.CapCellIn | Assets/Scripts/CubeGen.cs:163-240 | Every corner of a cap cell is a vertex index in `[0, len)` |
| Quads.CapRowIn | Assets/Scripts/CubeGen.cs:163-240 | Every quad of a cap row has its corners in `[0, len)` |
| Quads.CapRowsIn | Assets/Scripts/CubeGen.cs:163-240 | Every quad of a cap has its corners in `[0, len)` |
| Quads.FlattenIn | Assets/Scripts/CubeGen.cs:242-249 | Writing quads with corners in `[0, len)` leaves only indices in `[0, len)` |
| Quads.TrianglesInRange | Assets/Scripts/CubeGen.cs:124-240 | Every index in `trianglesZ`, `trianglesX` and `trianglesY` names a vertex: it lies in `[0, vertices.Length)` |
| Colliders.ColliderLayout | Assets/Scripts/CubeGen.cs:251-282 | Roundness 0 gives the single box `(xSize, ySize, zSize)`; otherwise there are 15 colliders, 3 boxes then 12 capsules of radius r |
| Colliders.BoxLayout | Assets/Scripts/CubeGen.cs:260-262 | Box a spans the full size on axis a and the size minus 2r on the other two axes |
| Colliders.CapsuleLayout | Assets/Scripts/CubeGen.cs:264-281 | Capsule `4·dir + 2a + b` runs along axis dir from 0 to the full size, with radius r, centred at r or `size − r` on the two other axes |
| CubeGenModel.CubeGen.SetVertex | Assets/Scripts/CubeGen.cs:89-122 | Slot i gets the clamped inner point, the offset from it to the lattice point, and the byte tag of the raw point; other slots are unchanged |
| CubeGenModel.CubeGen.CreateVertices | Assets/Scripts/CubeGen.cs:36-87 | Fresh buffers of the closed-form length, with slot j holding SetVertex's result for the j-th point of the traversal |
| CubeGenModel.CubeGen.SetRings | Assets/Scripts/CubeGen.cs:48-67 | The layer loop stores the rings of layers 0 .. ySize from slot 0, in order. Every slot after them keeps its old contents in all three buffers |
| CubeGenModel.CubeGen.SetRingVertices | Assets/Scripts/CubeGen.cs:49-67 | One pass of the layer loop appends layer y's ring to the points stored so far. Every slot from the returned cursor on keeps its old contents in all three buffers |
| CubeGenModel.CubeGen.SetFrontEdge | Assets/Scripts/CubeGen.cs:51-54 | The front edge stores `xSize + 1` ring points: slot `v0 + x` holds `(x, y, 0)`. Every slot from the returned cursor on keeps its old contents in all three buffers |
| CubeGenModel.CubeGen.SetRightEdge | Assets/Scripts/CubeGen.cs:55-58 | The right edge stores the next `zSize` ring points, `(xSize, y, z)` for z = 1 .. zSize. Every slot from the returned cursor on keeps its old contents in all three buffers |
| CubeGenModel.CubeGen.SetBackEdge | Assets/Scripts/CubeGen.cs:59-62 | The back edge stores the next `xSize` ring points, `(x, y, zSize)` for x = xSize − 1 down to 0. Every slot from the returned cursor on keeps its old contents in all three buffers |
| CubeGenModel.CubeGen.SetLeftEdge | Assets/Scripts/CubeGen.cs:63-66 | The left edge stores the last `zSize − 1` ring points, `(0, y, z)` for z = zSize − 1 down to 1. Every slot from the returned cursor on keeps its old contents in all three buffers |
| CubeGenModel.CubeGen.SetCapInteriorVertices | Assets/Scripts/CubeGen.cs:69-82 | A cap's interior loop appends its `(xSize−1)(zSize−1)` points row by row. Every slot from the returned cursor on keeps its old contents in all three buffers |
| CubeGenModel.CubeGen.SetInteriorRow | Assets/Scripts/CubeGen.cs:71-81 | One row of a cap's interior loop appends `(x, y, z)` for x = 1 .. xSize − 1. Every slot from the returned cursor on keeps its old contents in all three buffers |
| CubeGenModel.CubeGen.SetQuad | Assets/Scripts/CubeGen.cs:242-249 | Entries `i .. i+5` become `(v00, v01, v10, v10, v01, v11)`, every other entry is unchanged, and the result is `i + 6` |
| CubeGenModel.CubeGen.CreateTriangles | Assets/Scripts/CubeGen.cs:124-161 | The three fresh buffers are exactly `Flatten(SidesZ)`, `Flatten(SidesX)` and `Flatten(top cap ++ bottom cap)`. The side cursors end at their buffers' lengths (CreateSides), and so does tY after the bottom face |
| CubeGenModel.CubeGen.CreateSideLayer | Assets/Scripts/CubeGen.cs:133-152 | One pass of the layer loop places layer y's `2·xSize` Z quads and `2·zSize` X quads, and advances quadIndex by `ring − 1`. Entries of trianglesZ from tZ on and of trianglesX from tX on keep their old contents |
| CubeGenModel.CubeGen.CreateSides | Assets/Scripts/CubeGen.cs:129-152 | The layer loop fills trianglesZ with exactly `Flatten(SidesZ)` and trianglesX with exactly `Flatten(SidesX)`. tZ and tX end at the buffers' lengths and quadIndex at `ring·ySize` |
| CubeGenModel.CubeGen.CloseRing | Assets/Scripts/CubeGen.cs:151 | The layer's last quad, `(q, q − ring + 1, q + ring, q + 1)`, joins the end of the ring to its start. It is placed after the quads already in place, and later entries are unchanged |
| CubeGenModel.CubeGen.EmitSideRun | Assets/Scripts/CubeGen.cs:135-150 | One inner side loop places n consecutive side quads and advances its cursors by n. Later entries are unchanged |
| CubeGenModel.CubeGen.CreateTopFace | Assets/Scripts/CubeGen.cs:163-202 | Places the top cap's `xSize·zSize` quads after the ones already in place and returns the cursor after them |
| CubeGenModel.CubeGen.TopNearRow | Assets/Scripts/CubeGen.cs:168-173 | Places the top cap's first row |
| CubeGenModel.CubeGen.TopMiddleRows | Assets/Scripts/CubeGen.cs:180-191 | Places the top cap's middle rows and leaves vMin and vMid at their closed forms for the far row |
| CubeGenModel.CubeGen.TopMiddleRow | Assets/Scripts/CubeGen.cs:183-190 | Places one top middle row and advances vMid by `xSize − 2` |
| CubeGenModel.CubeGen.TopFarRow | Assets/Scripts/CubeGen.cs:193-200 | Places the top cap's far row |
| CubeGenModel.CubeGen.CreateBottomFace | Assets/Scripts/CubeGen.cs:204-240 | Places the bottom cap's `xSize·zSize` quads after the top cap's and returns the cursor after them |
| CubeGenModel.CubeGen.BottomNearRow | Assets/Scripts/CubeGen.cs:206-213 | Places the bottom cap's first row and advances v and vMid by `xSize − 2` |
| CubeGenModel.CubeGen.BottomMiddleRows | Assets/Scripts/CubeGen.cs:215-229 | Places the bottom cap's middle rows and leaves vMin and vMid at their closed forms for the far row |
| CubeGenModel.CubeGen.BottomMiddleRow | Assets/Scripts/CubeGen.cs:221-228 | Places one bottom middle row and advances vMid by `xSize − 2` |
| CubeGenModel.CubeGen.BottomFarRow | Assets/Scripts/CubeGen.cs:231-237 | Places the bottom cap's far row |
| CubeGenModel.CubeGen.Generate | Assets/Scripts/CubeGen.cs:23-34 | Vertices, then the three triangle groups, then the collider layout, each as its own step specifies |
| CubeGenModel.CubeGen.CreateColliders | Assets/Scripts/CubeGen.cs:251-282 | Appends exactly `ColliderLayout(xSize, ySize, zSize, roundness)` and leaves the vertex buffers alone |
| CubeGenModel.CubeGen.AddEdgeCapsules | Assets/Scripts/CubeGen.cs:268-281 | One block of four capsule calls appends the four capsules of one axis in order |
| CubeGenModel.CubeGen.AddBoxCollider | Assets/Scripts/CubeGen.cs:284-288 | Appends one box of the given size |
| CubeGenModel.CubeGen.AddCapsuleCollider | Assets/Scripts/CubeGen.cs:290-297 | Appends one capsule with the given centre and axis, radius `roundness`, and height twice the centre's coordinate on the axis |

## Left out

- Unity plumbing is not modelled. This covers the `MeshFilter` and `Mesh` objects, the
  assignments to `mesh.vertices`, `mesh.normals` and `mesh.colors32`,
  `subMeshCount` and `SetTriangles` (lines 26-27, 84-86, 157-160). `CreateTriangles`
  and `Generate` return the three index buffers instead.
- `mesh.RecalculateNormals()` and the sign flip of every normal (lines 32-33) are
  engine code this model cannot see.
- CubeGenModel.CubeGen.SetVertex: normalisation and the outward push
  `inner + normal·roundness` (lines 118-119) are left out. They need square roots
  and Unity's floating-point `normalized`. The model stores the inner point and the
  offset before normalisation. `Vertex.OffsetNonZero` shows that the offset is never
  the zero vector when `0 < r ≤ size/2`.
- Floating point is not modelled: `roundness` and the collider sizes are exact
  reals, so `float` rounding is not captured.
- CubeGenModel.CubeGen.CreateTriangles: sizes with `xSize = 1` or `zSize = 1` are
  excluded (`xSize ≥ 2 && zSize ≥ 2`). There the two faces' loops write more quads
  than `trianglesY` holds, so C# throws an index exception. `Quads.CapWritesOverflow`
  counts those loops' passes and shows the overrun. The quad sequences `Cap` and the
  lemma `TrianglesInRange` are stated for every size ≥ 1.
- Sizes below 1 are excluded (`Dims.Valid`). The source does not check them, and the
  model does not say what it computes for them. For example, a negative size can make
  the C# allocate an array of negative length. With `xSize = 0` and `zSize ≥ 2` the
  ring loops of `CreateVertices` write more vertices than the buffer holds. With
  `xSize = 0` and `zSize = 1` the vertices fit, but `trianglesY` is empty and
  `CreateTopFace` then writes to it. All of these throw.
- Integer width is not modelled. The source's counts, buffer lengths and cursors are
  32-bit `int` (lines 38-44 and 126-129); the model's integers are unbounded, so
  overflow of those products for very large sizes is not captured.
- `gameObject.AddComponent` is modelled as appending a descriptor to `colliders`.
  A box collider's centre stays at the engine's default and is not recorded.
- `Awake` (lines 18-21) only calls `Generate`. The commented-out gizmo code (lines
  299-313) is not modelled.
- `Assets/Scripts/Fractal.cs` and `Assets/Scripts/MeshDeformer.cs` are not part of
  this model. They are engine scripts with coroutines, transforms and mesh copies.
- Where the source nests loops, the inner loop, the outer loop or one pass of the
  outer loop is a separate method. The same array is filled in the same order with
  the same cursor values.

The collider geometry follows the code:

- Each capsule's height is `center[direction]·2`, the full extent of the box along
  its axis (lines 290-297).
- The capsules sit at `roundness` or `size − roundness` on the two other axes,
  which are the core box's edges (lines 264-281).
