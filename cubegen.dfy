/** The generator component: its sizes, its vertex buffers filled in place, the index
    buffers of the three triangle groups, and the colliders it adds. */
module CubeGenModel {
  import opened Lattice
  import opened Vertex
  import opened Quads
  import opened Colliders

  class CubeGen {
    const xSize: int
    const ySize: int
    const zSize: int
    const roundness: real

    /** Per vertex, the inner point of the core box. The source's vertices[i] is this
        point pushed out by roundness along the normalised normals[i]. */
    var inner: array<Vec3>
    /** Per vertex, the normal before normalisation: lattice point minus inner point. */
    var normals: array<Vec3>
    /** Per vertex, the raw lattice coordinates as bytes. */
    var cubeUV: array<Color32>
    /** The collider components added so far, in order. */
    var colliders: seq<Collider>

    function Size(): Dims {
      Dims(xSize, ySize, zSize)
    }

    /** The three per-vertex buffers have one length and are distinct. */
    ghost predicate Buffers()
      reads this
    {
      normals.Length == inner.Length && cubeUV.Length == inner.Length && inner != normals
    }

    /** The interior points of the cap at height y, in the order they are written. */
    ghost function CapInteriorPoints(y: int): seq<Point>
      requires Size().Valid()
    {
      Size().InteriorRows(y, zSize - 1)
    }

    /** Slot j of the vertex buffers holds what SetVertex computes for lattice point p. */
    ghost predicate Stored(j: int, p: Point)
      reads this, inner, normals, cubeUV
    {
      && 0 <= j < inner.Length && j < normals.Length && j < cubeUV.Length
      && inner[j] == Inset(Size(), roundness, p)
      && normals[j] == Offset(Size(), roundness, p)
      && cubeUV[j] == Tag(p)
    }

    constructor (xSize: int, ySize: int, zSize: int, roundness: real)
      ensures this.xSize == xSize && this.ySize == ySize && this.zSize == zSize
      ensures this.roundness == roundness
      ensures inner.Length == 0 && Buffers() && colliders == []
    {
      this.xSize, this.ySize, this.zSize := xSize, ySize, zSize;
      this.roundness := roundness;
      inner := new Vec3[0];
      normals := new Vec3[0];
      cubeUV := new Color32[0];
      colliders := [];
    }

    /** Stores vertex i for lattice point (x, y, z): the point clamped coordinate by
        coordinate into the core box, the offset back to the lattice point, and the
        raw coordinates as a colour tag. */
    method SetVertex(i: int, x: int, y: int, z: int)
      requires Buffers() && 0 <= i < inner.Length
      modifies inner, normals, cubeUV
      ensures Stored(i, Point(x, y, z))
      ensures forall j :: 0 <= j < inner.Length && j != i ==>
        inner[j] == old(inner[j]) && normals[j] == old(normals[j]) && cubeUV[j] == old(cubeUV[j])
    {
      var raw := Vec3(x as real, y as real, z as real);
      var ix, iy, iz := raw.x, raw.y, raw.z;
      if raw.x < roundness {
        ix := roundness;
      } else if raw.x > xSize as real - roundness {
        ix := xSize as real - roundness;
      }
      if raw.y < roundness {
        iy := roundness;
      } else if raw.y > ySize as real - roundness {
        iy := ySize as real - roundness;
      }
      if raw.z < roundness {
        iz := roundness;
      } else if raw.z > zSize as real - roundness {
        iz := zSize as real - roundness;
      }
      inner[i] := Vec3(ix, iy, iz);
      normals[i] := Vec3(raw.x - ix, raw.y - iy, raw.z - iz);
      cubeUV[i] := Color32(ByteCast(x), ByteCast(y), ByteCast(z), 0);
    }

    /** Allocates the vertex buffers and fills them in traversal order: the ring of
        every layer, then the top cap's interior, then the bottom cap's interior. */
    method CreateVertices()
      requires Size().Valid()
      modifies this
      ensures Buffers() && fresh(inner) && fresh(normals) && fresh(cubeUV)
      ensures inner.Length == Size().VertexCount() == |Size().Traversal()|
      ensures forall j :: 0 <= j < inner.Length ==> Stored(j, Size().Traversal()[j])
      ensures colliders == old(colliders)
    {
      ghost var d := Size();
      var cornerVertices := 8;
      var edgeVertices := (xSize + ySize + zSize - 3) * 4;
      var faceVertices := ((xSize - 1) * (ySize - 1) + (xSize - 1) * (zSize - 1) + (ySize - 1) * (zSize - 1)) * 2;
      inner := new Vec3[cornerVertices + edgeVertices + faceVertices];
      normals := new Vec3[inner.Length];
      cubeUV := new Color32[inner.Length];
      VertexBlocks(d);

      var v;
      ghost var stored;
      v, stored := SetRings();
      v, stored := SetCapInteriorVertices(ySize, v, stored);
      v, stored := SetCapInteriorVertices(0, v, stored);
      assert stored == d.Traversal();
    }

    /** CreateVertices' layer loop: the ring of every layer y = 0 .. ySize, from the
        buffer's start. */
    method SetRings() returns (v: int, ghost stored: seq<Point>)
      requires Buffers() && Size().Valid() && |Size().Rings(ySize + 1)| <= inner.Length
      modifies inner, normals, cubeUV
      ensures stored == Size().Rings(ySize + 1) && v == |stored|
      ensures forall j :: 0 <= j < v ==> Stored(j, stored[j])
      ensures forall j :: v <= j < inner.Length ==>
        inner[j] == old(inner[j]) && normals[j] == old(normals[j]) && cubeUV[j] == old(cubeUV[j])
    {
      ghost var d := Size();
      v, stored := 0, [];
      var y := 0;
      while y <= ySize
        invariant 0 <= y <= ySize + 1 && stored == d.Rings(y) && v == |stored|
        invariant forall j :: 0 <= j < v ==> Stored(j, stored[j])
        invariant forall j :: v <= j < inner.Length ==>
          inner[j] == old(inner[j]) && normals[j] == old(normals[j]) && cubeUV[j] == old(cubeUV[j])
      {
        RingsBound(d, y);
        v, stored := SetRingVertices(y, v, stored);
        y := y + 1;
      }
    }

    /** Slots of the buffer once layer y's ring follows the points pre. */
    ghost function RingTarget(pre: seq<Point>, y: int): seq<Point>
      requires Size().Valid()
    {
      pre + Size().Layer(y)
    }

    /** The body of CreateVertices' layer loop: writes the ring of layer y after the
        points pre (front, right, back and left edge) and returns the next free slot. */
    method SetRingVertices(y: int, v0: int, ghost pre: seq<Point>) returns (v: int, ghost out: seq<Point>)
      requires Buffers() && Size().Valid() && 0 <= v0 && v0 + Size().Ring() <= inner.Length
      requires |pre| == v0 && forall j :: 0 <= j < v0 ==> Stored(j, pre[j])
      modifies inner, normals, cubeUV
      ensures out == pre + Size().Layer(y) && v == |out|
      ensures forall j :: 0 <= j < v ==> Stored(j, out[j])
      ensures forall j :: v <= j < inner.Length ==>
        inner[j] == old(inner[j]) && normals[j] == old(normals[j]) && cubeUV[j] == old(cubeUV[j])
    {
      out := RingTarget(pre, y);
      v := SetFrontEdge(y, v0, pre);
      v := SetRightEdge(y, v, pre);
      v := SetBackEdge(y, v, pre);
      v := SetLeftEdge(y, v, pre);
    }

    /** First loop of a layer: the front edge z = 0, x = 0 .. xSize. */
    method SetFrontEdge(y: int, v0: int, ghost pre: seq<Point>) returns (v: int)
      requires Buffers() && Size().Valid() && |pre| + Size().Ring() <= inner.Length
      requires v0 == |pre| + 0
      requires forall j :: 0 <= j < v0 ==> Stored(j, RingTarget(pre, y)[j])
      modifies inner, normals, cubeUV
      ensures v == v0 + xSize + 1
      ensures forall j :: 0 <= j < v ==> Stored(j, RingTarget(pre, y)[j])
      ensures forall x :: 0 <= x <= xSize ==> Stored(v0 + x, Point(x, y, 0))
      ensures forall j :: v <= j < inner.Length ==>
        inner[j] == old(inner[j]) && normals[j] == old(normals[j]) && cubeUV[j] == old(cubeUV[j])
    {
      ghost var out := RingTarget(pre, y);
      v := v0;
      var x := 0;
      while x <= xSize
        invariant 0 <= x <= xSize + 1 && v == v0 + x
        invariant forall i :: 0 <= i < x ==> Stored(v0 + i, Point(i, y, 0))
        invariant forall j :: 0 <= j < v ==> Stored(j, out[j])
        invariant forall j :: v <= j < inner.Length ==>
          inner[j] == old(inner[j]) && normals[j] == old(normals[j]) && cubeUV[j] == old(cubeUV[j])
      {
        assert out[v] == Point(x, y, 0);
        SetVertex(v, x, y, 0);
        v, x := v + 1, x + 1;
      }
    }

    /** Second loop of a layer: the right edge x = xSize, z = 1 .. zSize. */
    method SetRightEdge(y: int, v0: int, ghost pre: seq<Point>) returns (v: int)
      requires Buffers() && Size().Valid() && |pre| + Size().Ring() <= inner.Length
      requires v0 == |pre| + xSize + 1
      requires forall j :: 0 <= j < v0 ==> Stored(j, RingTarget(pre, y)[j])
      modifies inner, normals, cubeUV
      ensures v == v0 + zSize
      ensures forall j :: 0 <= j < v ==> Stored(j, RingTarget(pre, y)[j])
      ensures forall z :: 1 <= z <= zSize ==> Stored(v0 + z - 1, Point(xSize, y, z))
      ensures forall j :: v <= j < inner.Length ==>
        inner[j] == old(inner[j]) && normals[j] == old(normals[j]) && cubeUV[j] == old(cubeUV[j])
    {
      ghost var out := RingTarget(pre, y);
      v := v0;
      var z := 1;
      while z <= zSize
        invariant 1 <= z <= zSize + 1 && v == v0 + z - 1
        invariant forall i :: 1 <= i < z ==> Stored(v0 + i - 1, Point(xSize, y, i))
        invariant forall j :: 0 <= j < v ==> Stored(j, out[j])
        invariant forall j :: v <= j < inner.Length ==>
          inner[j] == old(inner[j]) && normals[j] == old(normals[j]) && cubeUV[j] == old(cubeUV[j])
      {
        assert out[v] == Point(xSize, y, z);
        SetVertex(v, xSize, y, z);
        v, z := v + 1, z + 1;
      }
    }

    /** Third loop of a layer: the back edge z = zSize, x = xSize - 1 down to 0. */
    method SetBackEdge(y: int, v0: int, ghost pre: seq<Point>) returns (v: int)
      requires Buffers() && Size().Valid() && |pre| + Size().Ring() <= inner.Length
      requires v0 == |pre| + xSize + 1 + zSize
      requires forall j :: 0 <= j < v0 ==> Stored(j, RingTarget(pre, y)[j])
      modifies inner, normals, cubeUV
      ensures v == v0 + xSize
      ensures forall j :: 0 <= j < v ==> Stored(j, RingTarget(pre, y)[j])
      ensures forall x :: 0 <= x < xSize ==> Stored(v0 + xSize - 1 - x, Point(x, y, zSize))
      ensures forall j :: v <= j < inner.Length ==>
        inner[j] == old(inner[j]) && normals[j] == old(normals[j]) && cubeUV[j] == old(cubeUV[j])
    {
      ghost var out := RingTarget(pre, y);
      v := v0;
      var x := xSize - 1;
      while x >= 0
        invariant -1 <= x <= xSize - 1 && v == v0 + xSize - 1 - x
        invariant forall i :: x < i < xSize ==> Stored(v0 + xSize - 1 - i, Point(i, y, zSize))
        invariant forall j :: 0 <= j < v ==> Stored(j, out[j])
        invariant forall j :: v <= j < inner.Length ==>
          inner[j] == old(inner[j]) && normals[j] == old(normals[j]) && cubeUV[j] == old(cubeUV[j])
      {
        assert out[v] == Point(x, y, zSize);
        SetVertex(v, x, y, zSize);
        v, x := v + 1, x - 1;
      }
    }

    /** Fourth loop of a layer: the left edge x = 0, z = zSize - 1 down to 1. */
    method SetLeftEdge(y: int, v0: int, ghost pre: seq<Point>) returns (v: int)
      requires Buffers() && Size().Valid() && |pre| + Size().Ring() <= inner.Length
      requires v0 == |pre| + 2 * xSize + 1 + zSize
      requires forall j :: 0 <= j < v0 ==> Stored(j, RingTarget(pre, y)[j])
      modifies inner, normals, cubeUV
      ensures v == v0 + zSize - 1
      ensures forall j :: 0 <= j < v ==> Stored(j, RingTarget(pre, y)[j])
      ensures forall z :: 0 < z < zSize ==> Stored(v0 + zSize - 1 - z, Point(0, y, z))
      ensures forall j :: v <= j < inner.Length ==>
        inner[j] == old(inner[j]) && normals[j] == old(normals[j]) && cubeUV[j] == old(cubeUV[j])
    {
      ghost var out := RingTarget(pre, y);
      v := v0;
      var z := zSize - 1;
      while z > 0
        invariant 0 <= z <= zSize - 1 && v == v0 + zSize - 1 - z
        invariant forall i :: z < i < zSize ==> Stored(v0 + zSize - 1 - i, Point(0, y, i))
        invariant forall j :: 0 <= j < v ==> Stored(j, out[j])
        invariant forall j :: v <= j < inner.Length ==>
          inner[j] == old(inner[j]) && normals[j] == old(normals[j]) && cubeUV[j] == old(cubeUV[j])
      {
        assert out[v] == Point(0, y, z);
        SetVertex(v, 0, y, z);
        v, z := v + 1, z - 1;
      }
    }

    /** One of CreateVertices' two cap loops: writes the interior points of the cap at
        height y, row z = 1 .. zSize - 1 by row, after the points pre already stored,
        and returns the next free slot. */
    method SetCapInteriorVertices(y: int, v0: int, ghost pre: seq<Point>) returns (v: int, ghost stored: seq<Point>)
      requires Buffers() && Size().Valid() && 0 <= v0 && v0 + Size().CapInterior() <= inner.Length
      requires |pre| == v0 && forall j :: 0 <= j < v0 ==> Stored(j, pre[j])
      modifies inner, normals, cubeUV
      ensures stored == pre + CapInteriorPoints(y) && v == |stored| == v0 + Size().CapInterior()
      ensures forall j :: 0 <= j < v ==> Stored(j, stored[j])
      ensures forall j :: v <= j < inner.Length ==>
        inner[j] == old(inner[j]) && normals[j] == old(normals[j]) && cubeUV[j] == old(cubeUV[j])
    {
      ghost var d := Size();
      stored := pre;
      v := v0;
      var z := 1;
      while z < zSize
        invariant 1 <= z <= zSize
        invariant stored == pre + d.InteriorRows(y, z - 1) && v == |stored|
        invariant forall j :: 0 <= j < v ==> Stored(j, stored[j])
        invariant forall j :: v <= j < inner.Length ==>
          inner[j] == old(inner[j]) && normals[j] == old(normals[j]) && cubeUV[j] == old(cubeUV[j])
      {
        assert v + (xSize - 1) <= inner.Length by {
          InteriorRowsLength(d, y, z - 1);
          MulLe(z, zSize - 1, xSize - 1);
          assert (z - 1) * (xSize - 1) + (xSize - 1) == z * (xSize - 1);
        }
        v, stored := SetInteriorRow(y, z, v, stored);
        assert stored == pre + d.InteriorRows(y, z) by {
          assert d.InteriorRows(y, z) == d.InteriorRows(y, z - 1) + d.InteriorRow(y, z, xSize - 1);
        }
        z := z + 1;
      }
      InteriorRowsLength(d, y, zSize - 1);
    }

    /** The inner loop of a cap: row z's interior points x = 1 .. xSize - 1, after the
        points pre already stored. */
    method SetInteriorRow(y: int, z: int, v0: int, ghost pre: seq<Point>) returns (v: int, ghost stored: seq<Point>)
      requires Buffers() && Size().Valid() && 0 <= v0 && v0 + (xSize - 1) <= inner.Length
      requires |pre| == v0 && forall j :: 0 <= j < v0 ==> Stored(j, pre[j])
      modifies inner, normals, cubeUV
      ensures stored == pre + Size().InteriorRow(y, z, xSize - 1) && v == |stored|
      ensures forall j :: 0 <= j < v ==> Stored(j, stored[j])
      ensures forall j :: v <= j < inner.Length ==>
        inner[j] == old(inner[j]) && normals[j] == old(normals[j]) && cubeUV[j] == old(cubeUV[j])
    {
      ghost var d := Size();
      stored := pre;
      v := v0;
      var x := 1;
      while x < xSize
        invariant 1 <= x <= xSize
        invariant stored == pre + d.InteriorRow(y, z, x - 1) && v == |stored|
        invariant forall j :: 0 <= j < v ==> Stored(j, stored[j])
        invariant forall j :: v <= j < inner.Length ==>
          inner[j] == old(inner[j]) && normals[j] == old(normals[j]) && cubeUV[j] == old(cubeUV[j])
      {
        SetVertex(v, x, y, z);
        assert d.InteriorRow(y, z, x) == d.InteriorRow(y, z, x - 1) + [Point(x, y, z)];
        stored, v, x := stored + [Point(x, y, z)], v + 1, x + 1;
      }
    }

    /** Writes quad (v00, v10, v01, v11) at cursor i as the triangles (v00, v01, v10)
        and (v10, v01, v11), and returns the cursor after them. */
    static method SetQuad(triangles: array<int>, i: int, v00: int, v10: int, v01: int, v11: int) returns (next: int)
      requires 0 <= i && i + 6 <= triangles.Length
      modifies triangles
      ensures next == i + 6 && QuadAt(triangles, i, Quad(v00, v10, v01, v11))
      ensures forall j :: 0 <= j < triangles.Length && !(i <= j < next) ==> triangles[j] == old(triangles[j])
    {
      triangles[i] := v00;
      triangles[i + 1], triangles[i + 4] := v01, v01;
      triangles[i + 2], triangles[i + 3] := v10, v10;
      triangles[i + 5] := v11;
      next := i + 6;
    }

    /** Builds the three index buffers: the side quads of every layer split into the
        Z group (faces z = 0 and z = zSize) and the X group (faces x = xSize and
        x = 0), then both caps into the Y group. Each buffer is filled exactly. */
    method CreateTriangles() returns (trianglesZ: array<int>, trianglesX: array<int>, trianglesY: array<int>)
      requires Size().Valid() && xSize >= 2 && zSize >= 2 && inner.Length == Size().VertexCount()
      ensures fresh(trianglesZ) && fresh(trianglesX) && fresh(trianglesY)
      ensures trianglesZ[..] == Flatten(SidesZ(Size(), ySize))
      ensures trianglesX[..] == Flatten(SidesX(Size(), ySize))
      ensures trianglesY[..] == Flatten(Cap(Size(), true) + Cap(Size(), false))
    {
      ghost var d := Size();
      assert d.xSize == xSize && d.ySize == ySize && d.zSize == zSize;
      ghost var QY := Cap(d, true) + Cap(d, false);
      SidesLength(d, ySize);
      CapsPlaced(d);
      trianglesZ := new int[(xSize * ySize) * 12];
      trianglesX := new int[(ySize * zSize) * 12];
      trianglesY := new int[(xSize * zSize) * 12];
      var ring := (xSize + zSize) * 2;
      var tZ, tX, quadIndex := CreateSides(trianglesZ, trianglesX, ring);

      var tY := 0;
      tY := CreateTopFace(trianglesY, tY, ring, QY, 0);
      tY := CreateBottomFace(trianglesY, tY, ring, QY, xSize * zSize);
      BufferHolds(trianglesY, QY);
      assert tY == trianglesY.Length;
    }

    /** CreateTriangles' layer loop: the side quads of layers 0 .. ySize - 1, each layer
        in ring order, fill the Z and X buffers exactly; every cursor ends at its
        buffer's length and quadIndex at the first top ring vertex. */
    method CreateSides(trianglesZ: array<int>, trianglesX: array<int>, ring: int) returns (tZ: int, tX: int, quadIndex: int)
      requires Size().Valid() && ring == Size().Ring() && trianglesZ != trianglesX
      requires trianglesZ.Length == (xSize * ySize) * 12 && trianglesX.Length == (ySize * zSize) * 12
      modifies trianglesZ, trianglesX
      ensures tZ == trianglesZ.Length && tX == trianglesX.Length && quadIndex == ring * ySize
      ensures trianglesZ[..] == Flatten(SidesZ(Size(), ySize))
      ensures trianglesX[..] == Flatten(SidesX(Size(), ySize))
    {
      ghost var d := Size();
      assert d.xSize == xSize && d.ySize == ySize && d.zSize == zSize;
      ghost var QZ, QX := SidesZ(d, ySize), SidesX(d, ySize);
      SidesLength(d, ySize);
      assert ySize * zSize == zSize * ySize;
      assert trianglesZ.Length == 6 * |QZ| && trianglesX.Length == 6 * |QX|;
      tZ, tX, quadIndex := 0, 0, 0;
      ghost var nZ, nX := 0, 0;

      var y := 0;
      while y < ySize
        invariant 0 <= y <= ySize && quadIndex == ring * y
        invariant nZ == (xSize * y) * 2 && tZ == 6 * nZ && QuadsAt(trianglesZ, QZ, nZ)
        invariant nX == (zSize * y) * 2 && tX == 6 * nX && QuadsAt(trianglesX, QX, nX)
      {
        tZ, tX, quadIndex := CreateSideLayer(trianglesZ, trianglesX, tZ, tX, quadIndex, ring, QZ, QX, y, nZ, nX);
        MulNext(y, ring, y + 1);
        MulNext(y, xSize, y + 1);
        MulNext(y, zSize, y + 1);
        y, quadIndex, nZ, nX := y + 1, quadIndex + 1, nZ + 2 * xSize, nX + 2 * zSize;
      }
      assert y == ySize;
      BufferHolds(trianglesZ, QZ);
      BufferHolds(trianglesX, QX);
    }

    /** One pass of CreateTriangles' layer loop: layer y's side quads, in ring order,
        into the Z and X groups, ending with the quad that closes the ring. The groups'
        quads of layers 0 .. y - 1 are in place before, those of layer y too after. */
    method CreateSideLayer(trianglesZ: array<int>, trianglesX: array<int>, tZ0: int, tX0: int, quadIndex0: int, ring: int,
                           ghost QZ: seq<Quad>, ghost QX: seq<Quad>, ghost y: nat, ghost nZ: int, ghost nX: int)
      returns (tZ: int, tX: int, quadIndex: int)
      requires Size().Valid() && ring == Size().Ring() && trianglesZ != trianglesX && y < ySize
      requires QZ == SidesZ(Size(), ySize) && trianglesZ.Length == 6 * |QZ|
      requires QX == SidesX(Size(), ySize) && trianglesX.Length == 6 * |QX|
      requires quadIndex0 == ring * y && nZ == (xSize * y) * 2 && nX == (zSize * y) * 2
      requires tZ0 == 6 * nZ && QuadsAt(trianglesZ, QZ, nZ)
      requires tX0 == 6 * nX && QuadsAt(trianglesX, QX, nX)
      modifies trianglesZ, trianglesX
      ensures quadIndex == quadIndex0 + ring - 1
      ensures tZ == tZ0 + 6 * (2 * xSize) && QuadsAt(trianglesZ, QZ, nZ + 2 * xSize)
      ensures tX == tX0 + 6 * (2 * zSize) && QuadsAt(trianglesX, QX, nX + 2 * zSize)
      ensures trianglesZ[tZ..] == old(trianglesZ[tZ..]) && trianglesX[tX..] == old(trianglesX[tX..])
    {
      ghost var d := Size();
      assert d.xSize == xSize && d.ySize == ySize && d.zSize == zSize && d.Ring() == ring;
      SidesFrontRun(d, y, nZ, quadIndex0);
      tZ, quadIndex := EmitSideRun(trianglesZ, tZ0, quadIndex0, ring, xSize, QZ, nZ);
      SidesRightRun(d, y, nX, quadIndex);
      tX, quadIndex := EmitSideRun(trianglesX, tX0, quadIndex, ring, zSize, QX, nX);
      SidesBackRun(d, y, nZ, quadIndex);
      tZ, quadIndex := EmitSideRun(trianglesZ, tZ, quadIndex, ring, xSize, QZ, nZ + xSize);
      assert trianglesZ[tZ..] == old(trianglesZ[tZ..]);
      SidesLeftRun(d, y, nX, quadIndex);
      tX, quadIndex := EmitSideRun(trianglesX, tX, quadIndex, ring, zSize - 1, QX, nX + zSize);
      tX := CloseRing(trianglesX, tX, quadIndex, ring, QX, nX + 2 * zSize - 1);
    }

    /** The last quad of a layer, which joins the end of the ring to its start, as
        quad n0 of the target Q. */
    static method CloseRing(triangles: array<int>, t0: int, quadIndex: int, ring: int, ghost Q: seq<Quad>, ghost n0: int)
      returns (t: int)
      requires t0 == 6 * n0 && 0 <= n0 < |Q| && 6 * |Q| <= triangles.Length && QuadsAt(triangles, Q, n0)
      requires Q[n0] == Quad(quadIndex, quadIndex - ring + 1, quadIndex + ring, quadIndex + 1)
      modifies triangles
      ensures t == t0 + 6 && QuadsAt(triangles, Q, n0 + 1)
      ensures forall j :: t <= j < triangles.Length ==> triangles[j] == old(triangles[j])
    {
      t := SetQuad(triangles, t0, quadIndex, quadIndex - ring + 1, quadIndex + ring, quadIndex + 1);
      QuadsAtNext(triangles, Q, n0);
    }

    /** One of the four inner loops of a layer: n side quads, each joining cursor
        quadIndex and its neighbour to the same pair one ring up, into quads n0 ..
        n0 + n - 1 of the target Q. */
    static method EmitSideRun(triangles: array<int>, t0: int, quadIndex0: int, ring: int, n: int, ghost Q: seq<Quad>, ghost n0: int)
      returns (t: int, quadIndex: int)
      requires t0 == 6 * n0 && SideRunShape(Q, n0, n, quadIndex0, ring) && 6 * |Q| <= triangles.Length
      requires QuadsAt(triangles, Q, n0)
      modifies triangles
      ensures t == t0 + 6 * n && quadIndex == quadIndex0 + n
      ensures QuadsAt(triangles, Q, n0 + n)
      ensures forall j :: t <= j < triangles.Length ==> triangles[j] == old(triangles[j])
    {
      t, quadIndex := t0, quadIndex0;
      var q := 0;
      while q < n
        invariant 0 <= q <= n && t == t0 + 6 * q && quadIndex == quadIndex0 + q
        invariant QuadsAt(triangles, Q, n0 + q)
        invariant forall j :: t <= j < triangles.Length ==> triangles[j] == old(triangles[j])
      {
        t := SetQuad(triangles, t, quadIndex, quadIndex + 1, quadIndex + ring, quadIndex + ring + 1);
        q, quadIndex := q + 1, quadIndex + 1;
      }
    }

    // ---- The caps ----

    /** The top cap into quads n0 .. of the target Q: row 0 against the near side of the
        top ring, the middle rows, then the far row against the back side of the ring. */
    method CreateTopFace(triangles: array<int>, ti0: int, ring: int, ghost Q: seq<Quad>, ghost n0: int) returns (ti: int)
      requires Size().Valid() && xSize >= 2 && zSize >= 2 && ring == Size().Ring()
      requires ti0 == 6 * n0 && CapPlaced(Size(), true, Q, n0) && 6 * |Q| <= triangles.Length
      requires QuadsAt(triangles, Q, n0)
      modifies triangles
      ensures ti == ti0 + 6 * (xSize * zSize)
      ensures QuadsAt(triangles, Q, n0 + xSize * zSize)
      ensures forall j :: ti <= j < triangles.Length ==> triangles[j] == old(triangles[j])
    {
      ghost var d := Size();
      assert d.xSize == xSize && d.ySize == ySize && d.zSize == zSize && d.Ring() == ring;
      var quadIndex := ring * ySize;
      TopNearForm(d, Q, n0, quadIndex);
      ti, quadIndex := TopNearRow(triangles, ti0, quadIndex, ring, Q, n0);

      var vMin := ring * (ySize + 1) - 1;
      var vMid := vMin + 1;
      var vMax := quadIndex + 2;
      ti, vMin, vMid := TopMiddleRows(triangles, ti, vMin, vMid, vMax, ring, Q, n0);
      var z := zSize - 1;
      ghost var nFar := n0 + xSize * z;
      TopFarForm(d, Q, n0, z, nFar, vMin, vMid);
      ti := TopFarRow(triangles, ti, vMin, vMid, Q, nFar);
      MulNext(z, xSize, zSize);
    }

    /** The top cap's middle rows z = 1 .. zSize - 2, each from cursors vMin = (0, z),
        vMid = (1, z) and vMax = (xSize, z), which then step to row z + 1. */
    method TopMiddleRows(triangles: array<int>, ti0: int, vMin0: int, vMid0: int, vMax0: int, ring: int, ghost Q: seq<Quad>, ghost n0: int)
      returns (ti: int, vMin: int, vMid: int)
      requires Size().Valid() && xSize >= 2 && zSize >= 2 && ring == Size().Ring()
      requires CapPlaced(Size(), true, Q, n0) && 6 * |Q| <= triangles.Length
      requires ti0 == 6 * (n0 + xSize) && QuadsAt(triangles, Q, n0 + xSize)
      requires vMin0 == ring * (ySize + 1) - 1 && vMid0 == ring * (ySize + 1) && vMax0 == ring * ySize + xSize + 1
      modifies triangles
      ensures ti == 6 * (n0 + xSize * (zSize - 1)) && QuadsAt(triangles, Q, n0 + xSize * (zSize - 1))
      ensures vMin == ring * (ySize + 1) - (zSize - 1)
      ensures vMid == ring * (ySize + 1) + (xSize - 1) * (zSize - 1) - (xSize - 1)
      ensures forall j :: ti <= j < triangles.Length ==> triangles[j] == old(triangles[j])
    {
      ghost var d := Size();
      assert d.xSize == xSize && d.ySize == ySize && d.zSize == zSize && d.Ring() == ring;
      ti, vMin, vMid := ti0, vMin0, vMid0;
      var vMax := vMax0;
      var z := 1;
      while z < zSize - 1
        invariant 1 <= z <= zSize - 1 && ti == 6 * (n0 + xSize * z)
        invariant vMin == ring * (ySize + 1) - z && vMax == ring * ySize + xSize + z
        invariant vMid == ring * (ySize + 1) + (xSize - 1) * z - (xSize - 1)
        invariant QuadsAt(triangles, Q, n0 + xSize * z)
        invariant forall j :: ti <= j < triangles.Length ==> triangles[j] == old(triangles[j])
      {
        TopMiddleForm(d, Q, n0, z, n0 + xSize * z, vMin, vMid, vMax);
        ti, vMid := TopMiddleRow(triangles, ti, vMin, vMid, vMax, Q, n0 + xSize * z);
        MulNext(z, xSize, z + 1);
        MulNext(z, xSize - 1, z + 1);
        z, vMin, vMid, vMax := z + 1, vMin - 1, vMid + 1, vMax + 1;
      }
      assert z == zSize - 1;
    }

    /** Top cap, row 0: quadIndex runs along the ring's front edge and meets the ring
        position ring - 1 or the first interior row; the last cell reaches the right edge. */
    method TopNearRow(triangles: array<int>, t0: int, quadIndex0: int, ring: int, ghost Q: seq<Quad>, ghost n0: int)
      returns (t: int, quadIndex: int)
      requires xSize >= 2 && t0 == 6 * n0 && TopNearShape(Q, n0, xSize, quadIndex0, ring) && 6 * |Q| <= triangles.Length
      requires QuadsAt(triangles, Q, n0)
      modifies triangles
      ensures t == t0 + 6 * xSize && quadIndex == quadIndex0 + xSize - 1
      ensures QuadsAt(triangles, Q, n0 + xSize)
      ensures forall j :: t <= j < triangles.Length ==> triangles[j] == old(triangles[j])
    {
      t, quadIndex := t0, quadIndex0;
      var x := 0;
      while x < xSize - 1
        invariant 0 <= x <= xSize - 1 && t == t0 + 6 * x && quadIndex == quadIndex0 + x
        invariant QuadsAt(triangles, Q, n0 + x)
        invariant forall j :: t <= j < triangles.Length ==> triangles[j] == old(triangles[j])
      {
        t := SetQuad(triangles, t, quadIndex, quadIndex + 1, quadIndex + ring - 1, quadIndex + ring);
        x, quadIndex := x + 1, quadIndex + 1;
      }
      t := SetQuad(triangles, t, quadIndex, quadIndex + 1, quadIndex + ring - 1, quadIndex + 2);
    }

    /** Top cap, a middle row: vMin on the ring's left edge, vMid along the interior
        row, vMax on the right edge; each cell joins the row to the next one. */
    method TopMiddleRow(triangles: array<int>, t0: int, vMin: int, vMid0: int, vMax: int, ghost Q: seq<Quad>, ghost n0: int)
      returns (t: int, vMid: int)
      requires xSize >= 2 && t0 == 6 * n0 && TopMiddleShape(Q, n0, xSize, vMin, vMid0, vMax) && 6 * |Q| <= triangles.Length
      requires QuadsAt(triangles, Q, n0)
      modifies triangles
      ensures t == t0 + 6 * xSize && vMid == vMid0 + xSize - 2
      ensures QuadsAt(triangles, Q, n0 + xSize)
      ensures forall j :: t <= j < triangles.Length ==> triangles[j] == old(triangles[j])
    {
      t := SetQuad(triangles, t0, vMin, vMid0, vMin - 1, vMid0 + xSize - 1);
      vMid := vMid0;
      var x := 1;
      while x < xSize - 1
        invariant 1 <= x <= xSize - 1 && t == t0 + 6 * x && vMid == vMid0 + x - 1
        invariant QuadsAt(triangles, Q, n0 + x)
        invariant forall j :: t <= j < triangles.Length ==> triangles[j] == old(triangles[j])
      {
        t := SetQuad(triangles, t, vMid, vMid + 1, vMid + xSize - 1, vMid + xSize);
        x, vMid := x + 1, vMid + 1;
      }
      t := SetQuad(triangles, t, vMid, vMax, vMid + xSize - 1, vMax + 1);
    }

    /** Top cap, the far row: the last interior row (vMid) against the ring's back
        edge (vTop), which is stored right to left. */
    method TopFarRow(triangles: array<int>, t0: int, vMin: int, vMid0: int, ghost Q: seq<Quad>, ghost n0: int) returns (t: int)
      requires xSize >= 2 && t0 == 6 * n0 && TopFarShape(Q, n0, xSize, vMin, vMid0) && 6 * |Q| <= triangles.Length
      requires QuadsAt(triangles, Q, n0)
      modifies triangles
      ensures t == t0 + 6 * xSize
      ensures QuadsAt(triangles, Q, n0 + xSize)
      ensures forall j :: t <= j < triangles.Length ==> triangles[j] == old(triangles[j])
    {
      var vTop := vMin - 2;
      var vMid := vMid0;
      t := SetQuad(triangles, t0, vMin, vMid, vTop + 1, vTop);
      var x := 1;
      while x < xSize - 1
        invariant 1 <= x <= xSize - 1 && t == t0 + 6 * x && vMid == vMid0 + x - 1 && vTop == vMin - 1 - x
        invariant QuadsAt(triangles, Q, n0 + x)
        invariant forall j :: t <= j < triangles.Length ==> triangles[j] == old(triangles[j])
      {
        t := SetQuad(triangles, t, vMid, vMid + 1, vTop, vTop - 1);
        x, vTop, vMid := x + 1, vTop - 1, vMid + 1;
      }
      t := SetQuad(triangles, t, vMid, vTop - 2, vTop, vTop - 1);
    }

    /** The bottom cap into quads n0 .. of the target Q, mirroring the top cap: row 0
        against the ring's front edge at the very start of the vertex buffer, the
        middle rows, then the far row. */
    method CreateBottomFace(triangles: array<int>, t0: int, ring: int, ghost Q: seq<Quad>, ghost n0: int) returns (t: int)
      requires Size().Valid() && xSize >= 2 && zSize >= 2 && ring == Size().Ring()
      requires inner.Length == Size().VertexCount()
      requires t0 == 6 * n0 && CapPlaced(Size(), false, Q, n0) && 6 * |Q| <= triangles.Length
      requires QuadsAt(triangles, Q, n0)
      modifies triangles
      ensures t == t0 + 6 * (xSize * zSize)
      ensures QuadsAt(triangles, Q, n0 + xSize * zSize)
      ensures forall j :: t <= j < triangles.Length ==> triangles[j] == old(triangles[j])
    {
      ghost var d := Size();
      assert d.xSize == xSize && d.ySize == ySize && d.zSize == zSize && d.Ring() == ring;
      var v := 1;
      var vMid := inner.Length - (xSize - 1) * (zSize - 1);
      BottomNearForm(d, Q, n0, vMid);
      t, v, vMid := BottomNearRow(triangles, t0, ring, v, vMid, Q, n0);

      var vMin := ring - 2;
      vMid := vMid - (xSize - 2);
      var vMax := v + 2;
      t, vMin, vMid := BottomMiddleRows(triangles, t, vMin, vMid, vMax, ring, Q, n0);
      var z := zSize - 1;
      ghost var nFar := n0 + xSize * z;
      BottomFarForm(d, Q, n0, z, nFar, vMin, vMid);
      t := BottomFarRow(triangles, t, vMin, vMid, Q, nFar);
      MulNext(z, xSize, zSize);
    }

    /** The bottom cap's middle rows z = 1 .. zSize - 2, each from cursors vMin = (0, z + 1),
        vMid = (1, z) and vMax = (xSize, z), which then step to row z + 1. */
    method BottomMiddleRows(triangles: array<int>, t0: int, vMin0: int, vMid0: int, vMax0: int, ring: int, ghost Q: seq<Quad>, ghost n0: int)
      returns (t: int, vMin: int, vMid: int)
      requires Size().Valid() && xSize >= 2 && zSize >= 2 && ring == Size().Ring()
      requires inner.Length == Size().VertexCount()
      requires CapPlaced(Size(), false, Q, n0) && 6 * |Q| <= triangles.Length
      requires t0 == 6 * (n0 + xSize) && QuadsAt(triangles, Q, n0 + xSize)
      requires vMin0 == ring - 2 && vMid0 == inner.Length - (xSize - 1) * (zSize - 1) && vMax0 == xSize + 1
      modifies triangles
      ensures t == 6 * (n0 + xSize * (zSize - 1)) && QuadsAt(triangles, Q, n0 + xSize * (zSize - 1))
      ensures vMin == ring - zSize
      ensures vMid == inner.Length - (xSize - 1)
      ensures forall j :: t <= j < triangles.Length ==> triangles[j] == old(triangles[j])
    {
      ghost var d := Size();
      assert d.xSize == xSize && d.ySize == ySize && d.zSize == zSize && d.Ring() == ring;
      t, vMin, vMid := t0, vMin0, vMid0;
      var vMax := vMax0;
      var z := 1;
      while z < zSize - 1
        invariant 1 <= z <= zSize - 1 && t == 6 * (n0 + xSize * z)
        invariant vMin == ring - z - 1 && vMax == xSize + z
        invariant vMid == inner.Length - (xSize - 1) * (zSize - 1) + (xSize - 1) * z - (xSize - 1)
        invariant QuadsAt(triangles, Q, n0 + xSize * z)
        invariant forall j :: t <= j < triangles.Length ==> triangles[j] == old(triangles[j])
      {
        BottomMiddleForm(d, Q, n0, z, n0 + xSize * z, vMin, vMid, vMax);
        t, vMid := BottomMiddleRow(triangles, t, vMin, vMid, vMax, Q, n0 + xSize * z);
        MulNext(z, xSize, z + 1);
        MulNext(z, xSize - 1, z + 1);
        z, vMin, vMid, vMax := z + 1, vMin - 1, vMid + 1, vMax + 1;
      }
      assert z == zSize - 1;
    }

    /** Bottom cap, row 0: the first interior row (vMid) against the ring's front
        edge (v); the first cell reaches ring position ring - 1, the last the right edge. */
    method BottomNearRow(triangles: array<int>, t0: int, ring: int, v0: int, vMid0: int, ghost Q: seq<Quad>, ghost n0: int)
      returns (t: int, v: int, vMid: int)
      requires xSize >= 2 && t0 == 6 * n0 && BottomNearShape(Q, n0, xSize, ring, v0, vMid0) && 6 * |Q| <= triangles.Length
      requires QuadsAt(triangles, Q, n0)
      modifies triangles
      ensures t == t0 + 6 * xSize && v == v0 + xSize - 2 && vMid == vMid0 + xSize - 2
      ensures QuadsAt(triangles, Q, n0 + xSize)
      ensures forall j :: t <= j < triangles.Length ==> triangles[j] == old(triangles[j])
    {
      v, vMid := v0, vMid0;
      t := SetQuad(triangles, t0, ring - 1, vMid, 0, 1);
      var x := 1;
      while x < xSize - 1
        invariant 1 <= x <= xSize - 1 && t == t0 + 6 * x && v == v0 + x - 1 && vMid == vMid0 + x - 1
        invariant QuadsAt(triangles, Q, n0 + x)
        invariant forall j :: t <= j < triangles.Length ==> triangles[j] == old(triangles[j])
      {
        t := SetQuad(triangles, t, vMid, vMid + 1, v, v + 1);
        x, v, vMid := x + 1, v + 1, vMid + 1;
      }
      t := SetQuad(triangles, t, vMid, v + 2, v, v + 1);
    }

    /** Bottom cap, a middle row: as the top cap's, with the two rows swapped. */
    method BottomMiddleRow(triangles: array<int>, t0: int, vMin: int, vMid0: int, vMax: int, ghost Q: seq<Quad>, ghost n0: int)
      returns (t: int, vMid: int)
      requires xSize >= 2 && t0 == 6 * n0 && BottomMiddleShape(Q, n0, xSize, vMin, vMid0, vMax) && 6 * |Q| <= triangles.Length
      requires QuadsAt(triangles, Q, n0)
      modifies triangles
      ensures t == t0 + 6 * xSize && vMid == vMid0 + xSize - 2
      ensures QuadsAt(triangles, Q, n0 + xSize)
      ensures forall j :: t <= j < triangles.Length ==> triangles[j] == old(triangles[j])
    {
      vMid := vMid0;
      t := SetQuad(triangles, t0, vMin, vMid + xSize - 1, vMin + 1, vMid);
      var x := 1;
      while x < xSize - 1
        invariant 1 <= x <= xSize - 1 && t == t0 + 6 * x && vMid == vMid0 + x - 1
        invariant QuadsAt(triangles, Q, n0 + x)
        invariant forall j :: t <= j < triangles.Length ==> triangles[j] == old(triangles[j])
      {
        t := SetQuad(triangles, t, vMid + xSize - 1, vMid + xSize, vMid, vMid + 1);
        x, vMid := x + 1, vMid + 1;
      }
      t := SetQuad(triangles, t, vMid + xSize - 1, vMax + 1, vMid, vMax);
    }

    /** Bottom cap, the far row: the ring's back edge (vTop, stored right to left)
        against the last interior row (vMid). */
    method BottomFarRow(triangles: array<int>, t0: int, vMin: int, vMid0: int, ghost Q: seq<Quad>, ghost n0: int) returns (t: int)
      requires xSize >= 2 && t0 == 6 * n0 && BottomFarShape(Q, n0, xSize, vMin, vMid0) && 6 * |Q| <= triangles.Length
      requires QuadsAt(triangles, Q, n0)
      modifies triangles
      ensures t == t0 + 6 * xSize
      ensures QuadsAt(triangles, Q, n0 + xSize)
      ensures forall j :: t <= j < triangles.Length ==> triangles[j] == old(triangles[j])
    {
      var vTop := vMin - 1;
      var vMid := vMid0;
      t := SetQuad(triangles, t0, vTop + 1, vTop, vTop + 2, vMid);
      var x := 1;
      while x < xSize - 1
        invariant 1 <= x <= xSize - 1 && t == t0 + 6 * x && vMid == vMid0 + x - 1 && vTop == vMin - x
        invariant QuadsAt(triangles, Q, n0 + x)
        invariant forall j :: t <= j < triangles.Length ==> triangles[j] == old(triangles[j])
      {
        t := SetQuad(triangles, t, vTop, vTop - 1, vMid, vMid + 1);
        x, vTop, vMid := x + 1, vTop - 1, vMid + 1;
      }
      t := SetQuad(triangles, t, vTop, vTop - 1, vMid, vTop - 2);
    }

    /** The whole mesh: vertices, then the three triangle groups, then the colliders. */
    method Generate() returns (trianglesZ: array<int>, trianglesX: array<int>, trianglesY: array<int>)
      requires Size().Valid() && xSize >= 2 && zSize >= 2
      modifies this
      ensures Buffers() && inner.Length == Size().VertexCount() == |Size().Traversal()|
      ensures forall j :: 0 <= j < inner.Length ==> Stored(j, Size().Traversal()[j])
      ensures trianglesZ[..] == Flatten(SidesZ(Size(), ySize))
      ensures trianglesX[..] == Flatten(SidesX(Size(), ySize))
      ensures trianglesY[..] == Flatten(Cap(Size(), true) + Cap(Size(), false))
      ensures colliders == old(colliders) + ColliderLayout(xSize as real, ySize as real, zSize as real, roundness)
    {
      CreateVertices();
      trianglesZ, trianglesX, trianglesY := CreateTriangles();
      CreateColliders();
    }

    /** Adds the colliders of ColliderLayout: a single box for a sharp cube, otherwise
        the three crossing boxes and the twelve edge capsules. */
    method CreateColliders()
      modifies this
      ensures colliders == old(colliders) + ColliderLayout(xSize as real, ySize as real, zSize as real, roundness)
      ensures inner == old(inner) && normals == old(normals) && cubeUV == old(cubeUV)
    {
      var xs, ys, zs := xSize as real, ySize as real, zSize as real;
      if roundness == 0.0 {
        AddBoxCollider(xs, ys, zs);
        return;
      }
      AddBoxCollider(xs, ys - roundness * 2.0, zs - roundness * 2.0);
      AddBoxCollider(xs - roundness * 2.0, ys, zs - roundness * 2.0);
      AddBoxCollider(xs - roundness * 2.0, ys - roundness * 2.0, zs);
      ghost var boxes := colliders;
      assert boxes == old(colliders) + CoreBoxes(xs, ys, zs, roundness);

      var min := Vec3(roundness, roundness, roundness);
      var half := Vec3(xs * 0.5, ys * 0.5, zs * 0.5);
      var max := Vec3(xs - min.x, ys - min.y, zs - min.z);

      AddEdgeCapsules(0, Vec3(half.x, min.y, min.z), Vec3(half.x, min.y, max.z),
                         Vec3(half.x, max.y, min.z), Vec3(half.x, max.y, max.z));
      AddEdgeCapsules(1, Vec3(min.x, half.y, min.z), Vec3(min.x, half.y, max.z),
                         Vec3(max.x, half.y, min.z), Vec3(max.x, half.y, max.z));
      AddEdgeCapsules(2, Vec3(min.x, min.y, half.z), Vec3(min.x, max.y, half.z),
                         Vec3(max.x, min.y, half.z), Vec3(max.x, max.y, half.z));
      RoundedLayoutIs(xs, ys, zs, roundness);
    }

    /** One block of CreateColliders: the four capsules along axis direction, centred
        at c00, c01, c10 and c11 in that order. */
    method AddEdgeCapsules(direction: int, c00: Vec3, c01: Vec3, c10: Vec3, c11: Vec3)
      requires 0 <= direction < 3
      modifies this
      ensures colliders == old(colliders) + EdgeCapsules(direction, c00, c01, c10, c11, roundness)
      ensures inner == old(inner) && normals == old(normals) && cubeUV == old(cubeUV)
    {
      AddCapsuleCollider(direction, c00.x, c00.y, c00.z);
      AddCapsuleCollider(direction, c01.x, c01.y, c01.z);
      AddCapsuleCollider(direction, c10.x, c10.y, c10.z);
      AddCapsuleCollider(direction, c11.x, c11.y, c11.z);
    }

    /** Adds a box collider of the given size. */
    method AddBoxCollider(x: real, y: real, z: real)
      modifies this
      ensures colliders == old(colliders) + [Box(Vec3(x, y, z))]
      ensures inner == old(inner) && normals == old(normals) && cubeUV == old(cubeUV)
    {
      colliders := colliders + [Box(Vec3(x, y, z))];
    }

    /** Adds a capsule collider centred at (x, y, z) along axis direction, with the
        cube's roundness as radius and height twice the centre's coordinate on that axis. */
    method AddCapsuleCollider(direction: int, x: real, y: real, z: real)
      requires 0 <= direction < 3
      modifies this
      ensures colliders == old(colliders) + [EdgeCapsule(direction, Vec3(x, y, z), roundness)]
      ensures inner == old(inner) && normals == old(normals) && cubeUV == old(cubeUV)
    {
      var center := Vec3(x, y, z);
      colliders := colliders + [Capsule(center, direction, roundness, Component(center, direction) * 2.0)];
    }
  }
}
