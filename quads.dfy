/** The quads the triangulation writes, as sequences of vertex indices, and what they
    mean on the lattice.

    A quad is given as the source's SetQuad arguments (v00, v10, v01, v11) and is
    written as the two triangles (v00, v01, v10) and (v10, v01, v11). The side faces
    are covered layer by layer, ring position by ring position; the caps cell by cell,
    row by row. */
module Quads {
  import opened Lattice

  datatype Quad = Quad(v00: int, v10: int, v01: int, v11: int)

  /** The six indices SetQuad stores for q. */
  function Tris(q: Quad): seq<int> {
    [q.v00, q.v01, q.v10, q.v10, q.v01, q.v11]
  }

  /** Entries t .. t + 5 of buffer a hold the two triangles of q, in the order Tris
      lists them. */
  ghost predicate QuadAt(a: array<int>, t: int, q: Quad)
    reads a
  {
    && 0 <= t && t + 6 <= a.Length
    && a[t] == q.v00 && a[t + 1] == q.v01 && a[t + 2] == q.v10
    && a[t + 3] == q.v10 && a[t + 4] == q.v01 && a[t + 5] == q.v11
  }

  /** The first n quads of qs are in place at the front of buffer a. */
  ghost predicate QuadsAt(a: array<int>, qs: seq<Quad>, n: int)
    reads a
  {
    0 <= n <= |qs| && forall i :: 0 <= i < n ==> QuadAt(a, 6 * i, qs[i])
  }

  /** Placing quad n after the first n extends the run in place by one. */
  lemma QuadsAtNext(a: array<int>, qs: seq<Quad>, n: int)
    requires QuadsAt(a, qs, n) && n < |qs| && QuadAt(a, 6 * n, qs[n])
    ensures QuadsAt(a, qs, n + 1)
  {
  }

  /** The index buffer holding the quads qs one after another. */
  function Flatten(qs: seq<Quad>): (s: seq<int>)
    ensures |s| == 6 * |qs|
  {
    if qs == [] then [] else Flatten(qs[..|qs| - 1]) + Tris(qs[|qs| - 1])
  }

  lemma FlattenSnoc(qs: seq<Quad>, q: Quad)
    ensures Flatten(qs + [q]) == Flatten(qs) + Tris(q)
  {
    assert (qs + [q])[..|qs|] == qs;
  }

  lemma {:induction false} FlattenAppend(a: seq<Quad>, b: seq<Quad>)
    ensures Flatten(a + b) == Flatten(a) + Flatten(b)
  {
    if b == [] {
      assert a + b == a;
    } else {
      var b' := b[..|b| - 1];
      FlattenAppend(a, b');
      assert a + b == (a + b') + [b[|b| - 1]];
      assert b == b' + [b[|b| - 1]];
      FlattenSnoc(a + b', b[|b| - 1]);
      FlattenSnoc(b', b[|b| - 1]);
    }
  }

  /** Entry 6 * i + j of the buffer is corner j of quad i. */
  lemma {:induction false} FlattenAt(qs: seq<Quad>, i: int, j: int)
    requires 0 <= i < |qs| && 0 <= j < 6
    ensures Flatten(qs)[6 * i + j] == Tris(qs[i])[j]
  {
    var n := |qs| - 1;
    assert Flatten(qs) == Flatten(qs[..n]) + Tris(qs[n]);
    if i < n {
      FlattenAt(qs[..n], i, j);
    }
  }

  // ---- Side faces ----

  /** The ring position after k, wrapping from the last back to 0. */
  function Next(d: Dims, k: int): int {
    if k + 1 == d.Ring() then 0 else k + 1
  }

  /** The side quad between ring positions k and Next(k), layers y and y + 1. */
  function SideQuad(d: Dims, y: int, k: int): Quad {
    var r := d.Ring();
    Quad(y * r + k, y * r + Next(d, k), (y + 1) * r + k, (y + 1) * r + Next(d, k))
  }

  /** Side quad k of layer y joins ring points k and Next(k) of layers y and y + 1,
      by their buffer indices. */
  lemma SideQuadPoints(d: Dims, y: int, k: int)
    requires d.Valid() && 0 <= y < d.ySize && 0 <= k < d.Ring()
    ensures 0 <= Next(d, k) < d.Ring()
    ensures var q := SideQuad(d, y, k);
      && q.v00 == d.IndexOf(d.RingPoint(y, k)) && q.v10 == d.IndexOf(d.RingPoint(y, Next(d, k)))
      && q.v01 == d.IndexOf(d.RingPoint(y + 1, k)) && q.v11 == d.IndexOf(d.RingPoint(y + 1, Next(d, k)))
  {
    RingPointIndex(d, y, k);
    RingPointIndex(d, y, Next(d, k));
    RingPointIndex(d, y + 1, k);
    RingPointIndex(d, y + 1, Next(d, k));
  }

  /** The side quads of layer y at ring positions k0 .. k0 + n - 1. */
  function SideRun(d: Dims, y: int, k0: int, n: nat): (r: seq<Quad>)
    ensures |r| == n
  {
    if n == 0 then [] else SideRun(d, y, k0, n - 1) + [SideQuad(d, y, k0 + n - 1)]
  }

  /** Layer y's quads on the faces z = 0 and z = zSize (front and back edges). */
  function LayerZ(d: Dims, y: int): seq<Quad>
    requires d.Valid()
  {
    SideRun(d, y, 0, d.xSize) + SideRun(d, y, d.xSize + d.zSize, d.xSize)
  }

  /** Layer y's quads on the faces x = xSize and x = 0 (right and left edges); the last
      one wraps round to ring position 0. */
  function LayerX(d: Dims, y: int): seq<Quad>
    requires d.Valid()
  {
    SideRun(d, y, d.xSize, d.zSize) + SideRun(d, y, 2 * d.xSize + d.zSize, d.zSize)
  }

  /** The Z group's side quads of layers 0 .. n - 1. */
  function SidesZ(d: Dims, n: nat): seq<Quad>
    requires d.Valid()
  {
    if n == 0 then [] else SidesZ(d, n - 1) + LayerZ(d, n - 1)
  }

  /** The X group's side quads of layers 0 .. n - 1. */
  function SidesX(d: Dims, n: nat): seq<Quad>
    requires d.Valid()
  {
    if n == 0 then [] else SidesX(d, n - 1) + LayerX(d, n - 1)
  }

  // ---- Caps ----

  /** Lattice point (x, z) of the top (y = ySize) or bottom (y = 0) cap. */
  function CapPoint(d: Dims, top: bool, x: int, z: int): Point {
    Point(x, if top then d.ySize else 0, z)
  }

  /** Buffer index of cap point (x, z). */
  function CapIndex(d: Dims, top: bool, x: int, z: int): int {
    d.IndexOf(CapPoint(d, top, x, z))
  }

  /** The quad covering cap cell (x, z), with its corners' buffer indices. The bottom
      cap lists the far row first, which reverses the winding. */
  function CapCell(d: Dims, top: bool, x: int, z: int): Quad {
    var p00, p10 := CapIndex(d, top, x, z), CapIndex(d, top, x + 1, z);
    var p01, p11 := CapIndex(d, top, x, z + 1), CapIndex(d, top, x + 1, z + 1);
    if top then Quad(p00, p10, p01, p11) else Quad(p01, p11, p00, p10)
  }

  /** Cells x = 0 .. n - 1 of cap row z. */
  function CapRow(d: Dims, top: bool, z: int, n: nat): (r: seq<Quad>)
    ensures |r| == n
  {
    if n == 0 then [] else CapRow(d, top, z, n - 1) + [CapCell(d, top, n - 1, z)]
  }

  /** Cap rows z = 0 .. n - 1. */
  function CapRows(d: Dims, top: bool, n: nat): seq<Quad>
    requires d.Valid()
  {
    if n == 0 then [] else CapRows(d, top, n - 1) + CapRow(d, top, n - 1, d.xSize)
  }

  /** All cells of one cap, row-major. */
  function Cap(d: Dims, top: bool): seq<Quad>
    requires d.Valid()
  {
    CapRows(d, top, d.zSize)
  }

  // ---- Counting ----

  lemma {:induction false} SidesLength(d: Dims, n: nat)
    requires d.Valid()
    ensures |SidesZ(d, n)| == (d.xSize * n) * 2
    ensures |SidesX(d, n)| == (d.zSize * n) * 2
  {
    if n > 0 {
      SidesLength(d, n - 1);
      assert d.xSize * n == d.xSize * (n - 1) + d.xSize;
      assert d.zSize * n == d.zSize * (n - 1) + d.zSize;
    }
  }

  /** The side groups fill index buffers of 12 * xSize * ySize and 12 * ySize * zSize
      entries: two triangles per quad, one quad per side cell. */
  lemma SideBuffers(d: Dims)
    requires d.Valid()
    ensures |Flatten(SidesZ(d, d.ySize))| == (d.xSize * d.ySize) * 12
    ensures |Flatten(SidesX(d, d.ySize))| == (d.ySize * d.zSize) * 12
  {
    SidesLength(d, d.ySize);
  }

  lemma {:induction false} CapRowsLength(d: Dims, top: bool, n: nat)
    requires d.Valid()
    ensures |CapRows(d, top, n)| == d.xSize * n
  {
    if n > 0 {
      CapRowsLength(d, top, n - 1);
      assert d.xSize * n == d.xSize * (n - 1) + d.xSize;
    }
  }

  /** A cap has one quad per cell. */
  lemma CapLength(d: Dims, top: bool)
    requires d.Valid()
    ensures |Cap(d, top)| == d.xSize * d.zSize
  {
    CapRowsLength(d, top, d.zSize);
  }

  /** The two caps together fill an index buffer of 12 * xSize * zSize entries. */
  lemma CapBuffer(d: Dims)
    requires d.Valid()
    ensures |Flatten(Cap(d, true) + Cap(d, false))| == (d.xSize * d.zSize) * 12
  {
    CapLength(d, true);
    CapLength(d, false);
  }

  /** The number of passes of a loop `for (i = from; i < to; i++)`. */
  function Trips(from: int, to: int): (n: nat)
    ensures n == 0 <==> to <= from
  {
    if from < to then to - from else 0
  }

  /** The quads CreateTopFace writes, loop by loop as the code runs for any size: the
      near row, the middle rows, the far row. */
  function TopFaceWrites(d: Dims): nat {
    var inner := Trips(1, d.xSize - 1);
    (Trips(0, d.xSize - 1) + 1) + Trips(1, d.zSize - 1) * (inner + 2) + (inner + 2)
  }

  /** The quads CreateBottomFace writes, loop by loop as the code runs for any size. */
  function BottomFaceWrites(d: Dims): nat {
    var inner := Trips(1, d.xSize - 1);
    (inner + 2) + Trips(1, d.zSize - 1) * (inner + 2) + (inner + 2)
  }

  /** From two cells a side, each face's loops write exactly one quad per cap cell. */
  lemma CapWritesFit(d: Dims)
    requires d.Valid() && d.xSize >= 2 && d.zSize >= 2
    ensures TopFaceWrites(d) == |Cap(d, true)| && BottomFaceWrites(d) == |Cap(d, false)|
  {
    CapLength(d, true);
    CapLength(d, false);
    assert (d.zSize - 2) * d.xSize + 2 * d.xSize == d.xSize * d.zSize;
  }

  /** A box one cell wide or one cell deep: the two faces' loops write more quads than
      the caps have cells, so they run past the end of trianglesY, which holds six
      entries per cap cell. */
  lemma CapWritesOverflow(d: Dims)
    requires d.Valid() && (d.xSize == 1 || d.zSize == 1)
    ensures |Cap(d, true) + Cap(d, false)| < TopFaceWrites(d) + BottomFaceWrites(d)
    ensures (d.xSize * d.zSize) * 12 < 6 * (TopFaceWrites(d) + BottomFaceWrites(d))
  {
    CapLength(d, true);
    CapLength(d, false);
    if d.xSize == 1 {
      assert TopFaceWrites(d) + BottomFaceWrites(d) == 7 + 4 * Trips(1, d.zSize - 1);
    } else {
      assert TopFaceWrites(d) + BottomFaceWrites(d) == 4 * d.xSize;
    }
  }

  // ---- The triangulation's cursors ----

  /** A side quad that does not wrap, with the source's cursor q = y * ring + k:
      its corners are q, q + 1 and the same two one layer up. */
  lemma SideQuadCursor(d: Dims, y: int, k: int, q: int)
    requires d.Valid() && 0 <= k && k + 1 < d.Ring() && q == y * d.Ring() + k
    ensures SideQuad(d, y, k) == Quad(q, q + 1, q + d.Ring(), q + d.Ring() + 1)
  {
    assert (y + 1) * d.Ring() == y * d.Ring() + d.Ring();
  }

  /** The last quad of a layer, with cursor q = y * ring + ring - 1: it closes the ring
      back to the layer's first vertex q - ring + 1. */
  lemma SideQuadWrap(d: Dims, y: int, q: int)
    requires d.Valid() && q == y * d.Ring() + d.Ring() - 1
    ensures SideQuad(d, y, d.Ring() - 1) == Quad(q, q - d.Ring() + 1, q + d.Ring(), q + 1)
  {
    assert (y + 1) * d.Ring() == y * d.Ring() + d.Ring();
  }

  /** The top cap's cursors at row z in closed form, as the source steps them: vMin =
      (0, z) walks back along the ring from ring * (ySize + 1) - 1, vMid = (1, z) through
      the interior block from ring * (ySize + 1) in steps of xSize - 1, and vMax = (xSize, z)
      forward along the right edge; rows 0 .. z - 1 hold z * xSize cells. */
  lemma TopCursors(d: Dims, z: int)
    requires d.Valid() && d.xSize >= 2 && 1 <= z < d.zSize
    ensures |CapRows(d, true, z)| == d.xSize * z
    ensures CapIndex(d, true, 0, z) == d.Ring() * (d.ySize + 1) - z
    ensures CapIndex(d, true, 1, z) == d.Ring() * (d.ySize + 1) + (d.xSize - 1) * z - (d.xSize - 1)
    ensures CapIndex(d, true, d.xSize, z) == d.Ring() * d.ySize + d.xSize + z
  {
    CapRowsLength(d, true, z);
    TopRingCursors(d, z);
    TopInteriorCursor(d, z);
  }

  /** The top cap's edge cursors: (0, z) on the left edge, (xSize, z) on the right. */
  lemma TopRingCursors(d: Dims, z: int)
    requires d.Valid() && d.xSize >= 2 && 1 <= z < d.zSize
    ensures CapIndex(d, true, 0, z) == d.Ring() * (d.ySize + 1) - z
    ensures CapIndex(d, true, d.xSize, z) == d.Ring() * d.ySize + d.xSize + z
  {
    assert d.Ring() * (d.ySize + 1) == d.ySize * d.Ring() + d.Ring();
  }

  /** The top cap's interior cursor (1, z), in the block after the rings. */
  lemma TopInteriorCursor(d: Dims, z: int)
    requires d.Valid() && d.xSize >= 2 && 1 <= z < d.zSize
    ensures CapIndex(d, true, 1, z) == d.Ring() * (d.ySize + 1) + (d.xSize - 1) * z - (d.xSize - 1)
  {
    assert d.Ring() * (d.ySize + 1) == d.TopInteriorStart();
    assert (z - 1) * (d.xSize - 1) == (d.xSize - 1) * z - (d.xSize - 1);
  }

  /** Top cap, row 0, cell x, with the source's cursor q0 + x (q0 = ring * ySize): the
      cell reaches up into ring position ring - 1 (x = 0) or the interior block, and
      the last cell reaches the right edge at q0 + x + 2. */
  lemma TopNearAt(d: Dims, x: int)
    requires d.Valid() && d.xSize >= 2 && d.zSize >= 2 && 0 <= x < d.xSize
    ensures x < |Cap(d, true)|
    ensures var q0, R := d.Ring() * d.ySize, d.Ring();
      Cap(d, true)[x] ==
        if x < d.xSize - 1 then Quad(q0 + x, q0 + x + 1, q0 + x + R - 1, q0 + x + R)
        else Quad(q0 + x, q0 + x + 1, q0 + x + R - 1, q0 + x + 2)
  {
    CapAt(d, true, 0, x);
    assert (d.ySize + 1) * d.Ring() == d.ySize * d.Ring() + d.Ring();
  }

  /** Top cap, middle row 1 <= z < zSize - 1, cell 0, with the source's cursors vMin
      at (0, z) and vMid at (1, z). */
  lemma TopMiddleFirst(d: Dims, z: nat)
    requires d.Valid() && d.xSize >= 2 && 1 <= z < d.zSize - 1
    ensures |CapRows(d, true, z)| < |Cap(d, true)|
    ensures var vMin, m := CapIndex(d, true, 0, z), CapIndex(d, true, 1, z);
      Cap(d, true)[|CapRows(d, true, z)|] == Quad(vMin, m, vMin - 1, m + d.xSize - 1)
  {
    CapAt(d, true, z, 0);
    var w := d.xSize - 1;
    assert z * w == (z - 1) * w + w;
  }

  /** Top cap, middle row z, an inner cell 0 < x < xSize - 1, with vMid at (1, z) + x - 1:
      the cell's far corners are xSize - 1 further on. */
  lemma TopMiddleInner(d: Dims, z: nat, x: int)
    requires d.Valid() && 1 <= z < d.zSize - 1 && 0 < x < d.xSize - 1
    ensures |CapRows(d, true, z)| + x < |Cap(d, true)|
    ensures var m, xs := CapIndex(d, true, 1, z), d.xSize;
      Cap(d, true)[|CapRows(d, true, z)| + x] == Quad(m + x - 1, m + x, m + x + xs - 2, m + x + xs - 1)
  {
    CapAt(d, true, z, x);
    var w := d.xSize - 1;
    assert z * w == (z - 1) * w + w;
  }

  /** The corners of the top cap's last cell in middle row z. */
  lemma TopLastCell(d: Dims, z: nat, x: int)
    requires d.Valid() && 1 <= z < d.zSize - 1 && 1 <= x && x + 1 == d.xSize
    ensures var m, vMax := CapIndex(d, true, 1, z), CapIndex(d, true, x + 1, z);
      CapCell(d, true, x, z) == Quad(m + x - 1, vMax, m + x + d.xSize - 2, vMax + 1)
  {
    var w := d.xSize - 1;
    assert z * w == (z - 1) * w + w;
  }

  /** Top cap, middle row z, the last cell x = xSize - 1, which reaches the right edge
      at vMax = (xSize, z). */
  lemma TopMiddleLast(d: Dims, z: nat, x: int)
    requires d.Valid() && 1 <= z < d.zSize - 1 && 1 <= x && x + 1 == d.xSize
    ensures |CapRows(d, true, z)| + x < |Cap(d, true)|
    ensures var m, vMax, xs := CapIndex(d, true, 1, z), CapIndex(d, true, x + 1, z), d.xSize;
      Cap(d, true)[|CapRows(d, true, z)| + x] == Quad(m + x - 1, vMax, m + x + xs - 2, vMax + 1)
  {
    CapAt(d, true, z, x);
    TopLastCell(d, z, x);
  }

  /** The corners of the top cap's far-row cell x. */
  lemma TopFarCell(d: Dims, x: int)
    requires d.Valid() && d.xSize >= 2 && d.zSize >= 2 && 0 <= x < d.xSize
    ensures var z := d.zSize - 1;
      var vMin, m := CapIndex(d, true, 0, z), CapIndex(d, true, 1, z);
      CapCell(d, true, x, z) ==
        if x == 0 then Quad(vMin, m, vMin - 1, vMin - 2)
        else if x < d.xSize - 1 then Quad(m + x - 1, m + x, vMin - 1 - x, vMin - 2 - x)
        else Quad(m + x - 1, vMin - x - 3, vMin - x - 1, vMin - x - 2)
  {
    var xs, zs, w, b := d.xSize, d.zSize, d.xSize - 1, d.ySize * d.Ring();
    var m := d.TopInteriorStart() + (zs - 2) * w;
    assert CapIndex(d, true, 1, zs - 1) == m;
    assert CapIndex(d, true, 0, zs - 1) == b + 2 * xs + zs + 1;
    if x == 0 {
      assert CapIndex(d, true, 0, zs) == b + 2 * xs + zs;
      assert CapIndex(d, true, 1, zs) == b + 2 * xs + zs - 1;
    } else if x < xs - 1 {
      assert CapIndex(d, true, x, zs) == b + 2 * xs + zs - x;
      assert CapIndex(d, true, x + 1, zs) == b + 2 * xs + zs - x - 1;
      assert CapIndex(d, true, x, zs - 1) == m + x - 1;
      assert CapIndex(d, true, x + 1, zs - 1) == m + x;
    } else {
      assert CapIndex(d, true, x, zs) == b + 2 * xs + zs - x;
      assert CapIndex(d, true, xs, zs) == b + xs + zs;
      assert CapIndex(d, true, x, zs - 1) == m + x - 1;
      assert CapIndex(d, true, xs, zs - 1) == b + xs + zs - 1;
    }
  }

  /** Top cap, far row z = zSize - 1, cell x, with vMin at (0, z), vMid at (1, z) and
      vTop running backwards along the back edge z = zSize. */
  lemma TopFarAt(d: Dims, x: int)
    requires d.Valid() && d.xSize >= 2 && d.zSize >= 2 && 0 <= x < d.xSize
    ensures |CapRows(d, true, d.zSize - 1)| + x < |Cap(d, true)|
    ensures var z := d.zSize - 1;
      var vMin, m := CapIndex(d, true, 0, z), CapIndex(d, true, 1, z);
      Cap(d, true)[|CapRows(d, true, z)| + x] ==
        if x == 0 then Quad(vMin, m, vMin - 1, vMin - 2)
        else if x < d.xSize - 1 then Quad(m + x - 1, m + x, vMin - 1 - x, vMin - 2 - x)
        else Quad(m + x - 1, vMin - x - 3, vMin - x - 1, vMin - x - 2)
  {
    CapAt(d, true, d.zSize - 1, x);
    TopFarCell(d, x);
  }

  /** The bottom cap's cursors at row z in closed form: vMin = (0, z + 1) walks back
      along the ring of layer 0 from ring - 2, vMid = (1, z) through the interior block,
      the last (xSize - 1) * (zSize - 1) slots of the buffer, and vMax = (xSize, z)
      forward along the right edge; rows 0 .. z - 1 hold z * xSize cells. */
  lemma BottomCursors(d: Dims, z: int)
    requires d.Valid() && d.xSize >= 2 && 1 <= z < d.zSize
    ensures |CapRows(d, false, z)| == d.xSize * z
    ensures CapIndex(d, false, 0, z + 1) == d.Ring() - z - 1
    ensures CapIndex(d, false, 1, z) == d.VertexCount() - (d.xSize - 1) * (d.zSize - 1) + (d.xSize - 1) * z - (d.xSize - 1)
    ensures CapIndex(d, false, d.xSize, z) == d.xSize + z
  {
    CapRowsLength(d, false, z);
    BottomInteriorCursor(d, z);
  }

  /** The bottom cap's interior cursor (1, z), in the last block of the buffer. */
  lemma BottomInteriorCursor(d: Dims, z: int)
    requires d.Valid() && d.xSize >= 2 && 1 <= z < d.zSize
    ensures CapIndex(d, false, 1, z) == d.VertexCount() - (d.xSize - 1) * (d.zSize - 1) + (d.xSize - 1) * z - (d.xSize - 1)
  {
    VertexCountSplit(d);
    assert (z - 1) * (d.xSize - 1) == (d.xSize - 1) * z - (d.xSize - 1);
  }

  /** Bottom cap, row 0, cell x, with v = x running along the front edge and vMid
      along the first interior row from m, the start of the bottom interior block. */
  lemma BottomNearAt(d: Dims, x: int)
    requires d.Valid() && d.xSize >= 2 && d.zSize >= 2 && 0 <= x < d.xSize
    ensures x < |Cap(d, false)|
    ensures var m := d.VertexCount() - (d.xSize - 1) * (d.zSize - 1);
      Cap(d, false)[x] ==
        if x == 0 then Quad(d.Ring() - 1, m, 0, 1)
        else if x < d.xSize - 1 then Quad(m + x - 1, m + x, x, x + 1)
        else Quad(m + x - 1, x + 2, x, x + 1)
  {
    CapAt(d, false, 0, x);
    VertexCountSplit(d);
  }

  /** Bottom cap, middle row 1 <= z < zSize - 1, cell 0, with the source's cursors
      vMin at (0, z + 1) and vMid at (1, z). */
  lemma BottomMiddleFirst(d: Dims, z: nat)
    requires d.Valid() && d.xSize >= 2 && 1 <= z < d.zSize - 1
    ensures |CapRows(d, false, z)| < |Cap(d, false)|
    ensures var vMin, m := CapIndex(d, false, 0, z + 1), CapIndex(d, false, 1, z);
      Cap(d, false)[|CapRows(d, false, z)|] == Quad(vMin, m + d.xSize - 1, vMin + 1, m)
  {
    CapAt(d, false, z, 0);
    var w := d.xSize - 1;
    assert z * w == (z - 1) * w + w;
  }

  /** Bottom cap, middle row z, an inner cell 0 < x < xSize - 1, with vMid at
      (1, z) + x - 1: the cell's far corners are xSize - 1 further on. */
  lemma BottomMiddleInner(d: Dims, z: nat, x: int)
    requires d.Valid() && 1 <= z < d.zSize - 1 && 0 < x < d.xSize - 1
    ensures |CapRows(d, false, z)| + x < |Cap(d, false)|
    ensures var m, xs := CapIndex(d, false, 1, z), d.xSize;
      Cap(d, false)[|CapRows(d, false, z)| + x] == Quad(m + x + xs - 2, m + x + xs - 1, m + x - 1, m + x)
  {
    CapAt(d, false, z, x);
    var w := d.xSize - 1;
    assert z * w == (z - 1) * w + w;
  }

  /** Bottom cap, middle row z, the last cell x = xSize - 1, which reaches the right
      edge at vMax = (xSize, z). */
  lemma BottomMiddleLast(d: Dims, z: nat, x: int)
    requires d.Valid() && 1 <= z < d.zSize - 1 && 1 <= x && x + 1 == d.xSize
    ensures |CapRows(d, false, z)| + x < |Cap(d, false)|
    ensures var m, vMax, xs := CapIndex(d, false, 1, z), CapIndex(d, false, x + 1, z), d.xSize;
      Cap(d, false)[|CapRows(d, false, z)| + x] == Quad(m + x + xs - 2, vMax + 1, m + x - 1, vMax)
  {
    CapAt(d, false, z, x);
    var w := d.xSize - 1;
    assert z * w == (z - 1) * w + w;
  }

  /** The corners of the bottom cap's far-row cell x. */
  lemma BottomFarCell(d: Dims, x: int)
    requires d.Valid() && d.xSize >= 2 && d.zSize >= 2 && 0 <= x < d.xSize
    ensures var z := d.zSize - 1;
      var vMin, m := CapIndex(d, false, 0, d.zSize), CapIndex(d, false, 1, z);
      CapCell(d, false, x, z) ==
        if x == 0 then Quad(vMin, vMin - 1, vMin + 1, m)
        else if x < d.xSize - 1 then Quad(vMin - x, vMin - x - 1, m + x - 1, m + x)
        else Quad(vMin - x, vMin - x - 1, m + x - 1, vMin - x - 2)
  {
    var xs, zs, w := d.xSize, d.zSize, d.xSize - 1;
    var m := d.BottomInteriorStart() + (zs - 2) * w;
    assert CapIndex(d, false, 1, zs - 1) == m;
    assert CapIndex(d, false, 0, zs) == 2 * xs + zs;
    if x == 0 {
      assert CapIndex(d, false, 1, zs) == 2 * xs + zs - 1;
      assert CapIndex(d, false, 0, zs - 1) == 2 * xs + zs + 1;
    } else if x < xs - 1 {
      assert CapIndex(d, false, x, zs) == 2 * xs + zs - x;
      assert CapIndex(d, false, x + 1, zs) == 2 * xs + zs - x - 1;
      assert CapIndex(d, false, x, zs - 1) == m + x - 1;
      assert CapIndex(d, false, x + 1, zs - 1) == m + x;
    } else {
      assert CapIndex(d, false, x, zs) == 2 * xs + zs - x;
      assert CapIndex(d, false, xs, zs) == xs + zs;
      assert CapIndex(d, false, x, zs - 1) == m + x - 1;
      assert CapIndex(d, false, xs, zs - 1) == xs + zs - 1;
    }
  }

  /** Bottom cap, far row z = zSize - 1, cell x, with vMin at (0, zSize), vTop = vMin - x
      running backwards along the back edge, and vMid at (1, z) moving forwards. */
  lemma BottomFarAt(d: Dims, x: int)
    requires d.Valid() && d.xSize >= 2 && d.zSize >= 2 && 0 <= x < d.xSize
    ensures |CapRows(d, false, d.zSize - 1)| + x < |Cap(d, false)|
    ensures var z := d.zSize - 1;
      var vMin, m := CapIndex(d, false, 0, d.zSize), CapIndex(d, false, 1, z);
      Cap(d, false)[|CapRows(d, false, z)| + x] ==
        if x == 0 then Quad(vMin, vMin - 1, vMin + 1, m)
        else if x < d.xSize - 1 then Quad(vMin - x, vMin - x - 1, m + x - 1, m + x)
        else Quad(vMin - x, vMin - x - 1, m + x - 1, vMin - x - 2)
  {
    CapAt(d, false, d.zSize - 1, x);
    BottomFarCell(d, x);
  }

  // ---- Where each quad sits ----

  /** A finished buffer: when every quad of qs is in place and the buffer has room
      for exactly those, the buffer is Flatten(qs). */
  lemma BufferHolds(a: array<int>, qs: seq<Quad>)
    requires a.Length == 6 * |qs| && QuadsAt(a, qs, |qs|)
    ensures a[..] == Flatten(qs)
  {
    forall j | 0 <= j < a.Length
      ensures a[j] == Flatten(qs)[j]
    {
      var i, k := j / 6, j % 6;
      FlattenAt(qs, i, k);
      assert QuadAt(a, 6 * i, qs[i]);
    }
  }

  lemma {:induction false} SideRunAt(d: Dims, y: int, k0: int, n: nat, j: int)
    requires 0 <= j < n
    ensures SideRun(d, y, k0, n)[j] == SideQuad(d, y, k0 + j)
  {
    if j < n - 1 {
      SideRunAt(d, y, k0, n - 1, j);
    }
  }

  /** Layer y's Z-group quads follow those of layers 0 .. y - 1, in every later prefix. */
  lemma {:induction false} SidesZIn(d: Dims, n: nat, y: nat, j: int)
    requires d.Valid() && y < n && 0 <= j < 2 * d.xSize
    ensures |SidesZ(d, y)| + 2 * d.xSize <= |SidesZ(d, n)|
    ensures SidesZ(d, n)[|SidesZ(d, y)| + j] == LayerZ(d, y)[j]
  {
    if y < n - 1 {
      SidesZIn(d, n - 1, y, j);
    }
  }

  /** Layer y's X-group quads follow those of layers 0 .. y - 1, in every later prefix. */
  lemma {:induction false} SidesXIn(d: Dims, n: nat, y: nat, j: int)
    requires d.Valid() && y < n && 0 <= j < 2 * d.zSize
    ensures |SidesX(d, y)| + 2 * d.zSize <= |SidesX(d, n)|
    ensures SidesX(d, n)[|SidesX(d, y)| + j] == LayerX(d, y)[j]
  {
    if y < n - 1 {
      SidesXIn(d, n - 1, y, j);
    }
  }

  /** Where layer y's quads sit in the Z group: the front edge's xSize quads, then the
      back edge's. */
  lemma SidesZAt(d: Dims, y: nat, j: int)
    requires d.Valid() && y < d.ySize && 0 <= j < 2 * d.xSize
    ensures |SidesZ(d, y)| + j < |SidesZ(d, d.ySize)|
    ensures SidesZ(d, d.ySize)[|SidesZ(d, y)| + j] == SideQuad(d, y, if j < d.xSize then j else j + d.zSize)
  {
    SidesZIn(d, d.ySize, y, j);
    if j < d.xSize {
      SideRunAt(d, y, 0, d.xSize, j);
    } else {
      SideRunAt(d, y, d.xSize + d.zSize, d.xSize, j - d.xSize);
    }
  }

  /** Where layer y's quads sit in the X group: the right edge's zSize quads, then the
      left edge's, the last of which wraps round. */
  lemma SidesXAt(d: Dims, y: nat, j: int)
    requires d.Valid() && y < d.ySize && 0 <= j < 2 * d.zSize
    ensures |SidesX(d, y)| + j < |SidesX(d, d.ySize)|
    ensures SidesX(d, d.ySize)[|SidesX(d, y)| + j] == SideQuad(d, y, if j < d.zSize then d.xSize + j else 2 * d.xSize + j)
  {
    SidesXIn(d, d.ySize, y, j);
    if j < d.zSize {
      SideRunAt(d, y, d.xSize, d.zSize, j);
    } else {
      SideRunAt(d, y, 2 * d.xSize + d.zSize, d.zSize, j - d.zSize);
    }
  }

  /** Quad j of layer y's Z group in the source's cursor form: with base = y * ring and
      ring position k, its corners are base + k, base + k + 1 and the same one ring up. */
  lemma SidesZCursorAt(d: Dims, y: nat, i: int)
    requires d.Valid() && y < d.ySize && |SidesZ(d, y)| <= i < |SidesZ(d, y)| + 2 * d.xSize
    ensures i < |SidesZ(d, d.ySize)|
    ensures var j := i - |SidesZ(d, y)|;
      var q := y * d.Ring() + (if j < d.xSize then j else j + d.zSize);
      SidesZ(d, d.ySize)[i] == Quad(q, q + 1, q + d.Ring(), q + d.Ring() + 1)
  {
    var j := i - |SidesZ(d, y)|;
    var k := if j < d.xSize then j else j + d.zSize;
    SidesZAt(d, y, j);
    SideQuadCursor(d, y, k, y * d.Ring() + k);
  }

  /** Quad j < 2 * zSize - 1 of layer y's X group in the source's cursor form. */
  lemma SidesXCursorAt(d: Dims, y: nat, i: int)
    requires d.Valid() && y < d.ySize && |SidesX(d, y)| <= i < |SidesX(d, y)| + 2 * d.zSize - 1
    ensures i < |SidesX(d, d.ySize)|
    ensures var j := i - |SidesX(d, y)|;
      var q := y * d.Ring() + (if j < d.zSize then d.xSize + j else 2 * d.xSize + j);
      SidesX(d, d.ySize)[i] == Quad(q, q + 1, q + d.Ring(), q + d.Ring() + 1)
  {
    var j := i - |SidesX(d, y)|;
    SidesXAt(d, y, j);
    if j < d.zSize {
      SideQuadCursor(d, y, d.xSize + j, y * d.Ring() + d.xSize + j);
    } else {
      SideQuadCursor(d, y, 2 * d.xSize + j, y * d.Ring() + 2 * d.xSize + j);
    }
  }

  /** The last quad of layer y's X group closes the ring: from the cursor q at ring
      position ring - 1 back to the layer's first vertex. */
  lemma SidesXWrap(d: Dims, y: nat)
    requires d.Valid() && y < d.ySize
    ensures |SidesX(d, y)| + 2 * d.zSize - 1 < |SidesX(d, d.ySize)|
    ensures var B, R := y * d.Ring(), d.Ring();
      SidesX(d, d.ySize)[|SidesX(d, y)| + 2 * d.zSize - 1] == Quad(B + R - 1, B, B + 2 * R - 1, B + R)
  {
    SidesXAt(d, y, 2 * d.zSize - 1);
    SideQuadWrap(d, y, y * d.Ring() + d.Ring() - 1);
  }

  // ---- Cursor shapes: what the source's row loops write, in terms of their cursors ----

  /** Quads n0 .. n0 + n - 1 of Q as one run of a side loop from cursor quadIndex:
      each joins quadIndex and its neighbour to the same pair one ring up. */
  ghost predicate SideRunShape(Q: seq<Quad>, n0: int, n: int, quadIndex: int, ring: int) {
    0 <= n0 && 0 <= n && n0 + n <= |Q|
    && forall i :: n0 <= i < n0 + n ==>
         Q[i] == Quad(quadIndex + (i - n0), quadIndex + (i - n0) + 1, quadIndex + (i - n0) + ring, quadIndex + (i - n0) + ring + 1)
  }

  /** Row 0 of the top cap (w cells from quad n0) as written from cursor quadIndex. */
  ghost predicate TopNearShape(Q: seq<Quad>, n0: int, w: int, quadIndex: int, ring: int) {
    0 <= n0 && 2 <= w && n0 + w <= |Q|
    && (forall i :: n0 <= i < n0 + w - 1 ==>
          Q[i] == Quad(quadIndex + (i - n0), quadIndex + (i - n0) + 1, quadIndex + (i - n0) + ring - 1, quadIndex + (i - n0) + ring))
    && Q[n0 + w - 1] == Quad(quadIndex + w - 1, quadIndex + w, quadIndex + w + ring - 2, quadIndex + w + 1)
  }

  /** A middle row of the top cap as written from vMin, vMid and vMax. */
  ghost predicate TopMiddleShape(Q: seq<Quad>, n0: int, w: int, vMin: int, vMid: int, vMax: int) {
    0 <= n0 && 2 <= w && n0 + w <= |Q|
    && Q[n0] == Quad(vMin, vMid, vMin - 1, vMid + w - 1)
    && (forall i :: n0 < i < n0 + w - 1 ==>
          Q[i] == Quad(vMid + (i - n0) - 1, vMid + (i - n0), vMid + (i - n0) + w - 2, vMid + (i - n0) + w - 1))
    && Q[n0 + w - 1] == Quad(vMid + w - 2, vMax, vMid + 2 * w - 3, vMax + 1)
  }

  /** The far row of the top cap as written from vMin and vMid. */
  ghost predicate TopFarShape(Q: seq<Quad>, n0: int, w: int, vMin: int, vMid: int) {
    0 <= n0 && 2 <= w && n0 + w <= |Q|
    && Q[n0] == Quad(vMin, vMid, vMin - 1, vMin - 2)
    && (forall i :: n0 < i < n0 + w - 1 ==>
          Q[i] == Quad(vMid + (i - n0) - 1, vMid + (i - n0), vMin - 1 - (i - n0), vMin - 2 - (i - n0)))
    && Q[n0 + w - 1] == Quad(vMid + w - 2, vMin - w - 2, vMin - w, vMin - w - 1)
  }

  /** Row 0 of the bottom cap as written from v along the front edge and vMid. */
  ghost predicate BottomNearShape(Q: seq<Quad>, n0: int, w: int, ring: int, v: int, vMid: int) {
    0 <= n0 && 2 <= w && n0 + w <= |Q|
    && Q[n0] == Quad(ring - 1, vMid, 0, 1)
    && (forall i :: n0 < i < n0 + w - 1 ==>
          Q[i] == Quad(vMid + (i - n0) - 1, vMid + (i - n0), v + (i - n0) - 1, v + (i - n0)))
    && Q[n0 + w - 1] == Quad(vMid + w - 2, v + w, v + w - 2, v + w - 1)
  }

  /** A middle row of the bottom cap as written from vMin, vMid and vMax. */
  ghost predicate BottomMiddleShape(Q: seq<Quad>, n0: int, w: int, vMin: int, vMid: int, vMax: int) {
    0 <= n0 && 2 <= w && n0 + w <= |Q|
    && Q[n0] == Quad(vMin, vMid + w - 1, vMin + 1, vMid)
    && (forall i :: n0 < i < n0 + w - 1 ==>
          Q[i] == Quad(vMid + (i - n0) + w - 2, vMid + (i - n0) + w - 1, vMid + (i - n0) - 1, vMid + (i - n0)))
    && Q[n0 + w - 1] == Quad(vMid + 2 * w - 3, vMax + 1, vMid + w - 2, vMax)
  }

  /** The far row of the bottom cap as written from vMin and vMid. */
  ghost predicate BottomFarShape(Q: seq<Quad>, n0: int, w: int, vMin: int, vMid: int) {
    0 <= n0 && 2 <= w && n0 + w <= |Q|
    && Q[n0] == Quad(vMin, vMin - 1, vMin + 1, vMid)
    && (forall i :: n0 < i < n0 + w - 1 ==>
          Q[i] == Quad(vMin - (i - n0), vMin - (i - n0) - 1, vMid + (i - n0) - 1, vMid + (i - n0)))
    && Q[n0 + w - 1] == Quad(vMin - w + 1, vMin - w, vMid + w - 2, vMin - w - 1)
  }

  /** The first run of layer y's Z group: the front face, from cursor q = y * ring. */
  lemma SidesFrontRun(d: Dims, y: nat, n: int, q: int)
    requires d.Valid() && y < d.ySize && n == (d.xSize * y) * 2 && q == d.Ring() * y
    ensures SideRunShape(SidesZ(d, d.ySize), n, d.xSize, q, d.Ring())
  {
    SidesLength(d, y);
    SidesZIn(d, d.ySize, y, 0);
    forall i | n <= i < n + d.xSize
      ensures SidesZ(d, d.ySize)[i] == Quad(q + (i - n), q + (i - n) + 1, q + (i - n) + d.Ring(), q + (i - n) + d.Ring() + 1)
    {
      SidesZCursorAt(d, y, i);
    }
  }

  /** The second run of layer y's Z group: the back face, from cursor
      q = y * ring + xSize + zSize. */
  lemma SidesBackRun(d: Dims, y: nat, n: int, q: int)
    requires d.Valid() && y < d.ySize && n == (d.xSize * y) * 2 && q == d.Ring() * y + d.xSize + d.zSize
    ensures SideRunShape(SidesZ(d, d.ySize), n + d.xSize, d.xSize, q, d.Ring())
  {
    var n0 := n + d.xSize;
    SidesLength(d, y);
    SidesZIn(d, d.ySize, y, 0);
    forall i | n0 <= i < n0 + d.xSize
      ensures SidesZ(d, d.ySize)[i] == Quad(q + (i - n0), q + (i - n0) + 1, q + (i - n0) + d.Ring(), q + (i - n0) + d.Ring() + 1)
    {
      SidesZCursorAt(d, y, i);
    }
  }

  /** The first run of layer y's X group: the right face, from cursor
      q = y * ring + xSize. */
  lemma SidesRightRun(d: Dims, y: nat, n: int, q: int)
    requires d.Valid() && y < d.ySize && n == (d.zSize * y) * 2 && q == d.Ring() * y + d.xSize
    ensures SideRunShape(SidesX(d, d.ySize), n, d.zSize, q, d.Ring())
  {
    SidesLength(d, y);
    SidesXIn(d, d.ySize, y, 0);
    forall i | n <= i < n + d.zSize
      ensures SidesX(d, d.ySize)[i] == Quad(q + (i - n), q + (i - n) + 1, q + (i - n) + d.Ring(), q + (i - n) + d.Ring() + 1)
    {
      SidesXCursorAt(d, y, i);
    }
  }

  /** The second run of layer y's X group: the left face but for its last quad, from
      cursor q = y * ring + 2 * xSize + zSize; the quad after it closes the ring. */
  lemma SidesLeftRun(d: Dims, y: nat, n: int, q: int)
    requires d.Valid() && y < d.ySize && n == (d.zSize * y) * 2 && q == d.Ring() * y + 2 * d.xSize + d.zSize
    ensures SideRunShape(SidesX(d, d.ySize), n + d.zSize, d.zSize - 1, q, d.Ring())
    ensures n + 2 * d.zSize - 1 < |SidesX(d, d.ySize)|
    ensures var c := q + d.zSize - 1;
      SidesX(d, d.ySize)[n + 2 * d.zSize - 1] == Quad(c, c - d.Ring() + 1, c + d.Ring(), c + 1)
  {
    var n0 := n + d.zSize;
    SidesLength(d, y);
    SidesXWrap(d, y);
    forall i | n0 <= i < n0 + d.zSize - 1
      ensures SidesX(d, d.ySize)[i] == Quad(q + (i - n0), q + (i - n0) + 1, q + (i - n0) + d.Ring(), q + (i - n0) + d.Ring() + 1)
    {
      SidesXCursorAt(d, y, i);
    }
  }

  lemma {:induction false} CapRowAt(d: Dims, top: bool, z: int, n: nat, x: int)
    requires 0 <= x < n
    ensures CapRow(d, top, z, n)[x] == CapCell(d, top, x, z)
  {
    if x < n - 1 {
      CapRowAt(d, top, z, n - 1, x);
    }
  }

  /** The first m rows of a cap are a prefix of the first n. */
  lemma {:induction false} CapRowsPrefix(d: Dims, top: bool, m: nat, n: nat)
    requires d.Valid() && m <= n
    ensures |CapRows(d, top, m)| <= |CapRows(d, top, n)|
    ensures CapRows(d, top, m) == CapRows(d, top, n)[..|CapRows(d, top, m)|]
  {
    if m < n {
      CapRowsPrefix(d, top, m, n - 1);
      assert CapRows(d, top, n)[..|CapRows(d, top, n - 1)|] == CapRows(d, top, n - 1);
    }
  }

  /** Cell (x, z) of a cap sits after the z full rows before it. */
  lemma CapAt(d: Dims, top: bool, z: nat, x: int)
    requires d.Valid() && z < d.zSize && 0 <= x < d.xSize
    ensures |CapRows(d, top, z)| + d.xSize == |CapRows(d, top, z + 1)| <= |Cap(d, top)|
    ensures Cap(d, top)[|CapRows(d, top, z)| + x] == CapCell(d, top, x, z)
  {
    CapRowsPrefix(d, top, z + 1, d.zSize);
    CapRowAt(d, top, z, d.xSize, x);
    assert Cap(d, top)[|CapRows(d, top, z)| + x] == CapRows(d, top, z + 1)[|CapRows(d, top, z)| + x];
  }

  /** Q holds cap `top` from quad n0 on. */
  ghost predicate CapPlaced(d: Dims, top: bool, Q: seq<Quad>, n0: int)
    requires d.Valid()
  {
    0 <= n0 && n0 + |Cap(d, top)| <= |Q| && Q[n0..n0 + |Cap(d, top)|] == Cap(d, top)
  }

  /** The Y group holds the top cap and then the bottom cap, xSize * zSize quads each. */
  lemma CapsPlaced(d: Dims)
    requires d.Valid()
    ensures |Cap(d, true) + Cap(d, false)| == 2 * (d.xSize * d.zSize)
    ensures CapPlaced(d, true, Cap(d, true) + Cap(d, false), 0)
    ensures CapPlaced(d, false, Cap(d, true) + Cap(d, false), d.xSize * d.zSize)
  {
    CapLength(d, true);
    CapLength(d, false);
    var Q := Cap(d, true) + Cap(d, false);
    assert Q[0..|Cap(d, true)|] == Cap(d, true);
    assert Q[|Cap(d, true)|..|Cap(d, true)| + |Cap(d, false)|] == Cap(d, false);
  }

  lemma CapPlacedAt(d: Dims, top: bool, Q: seq<Quad>, n0: int, j: int)
    requires d.Valid() && CapPlaced(d, top, Q, n0) && 0 <= j < |Cap(d, top)|
    ensures Q[n0 + j] == Cap(d, top)[j]
  {
    assert Q[n0 + j] == Q[n0..n0 + |Cap(d, top)|][j];
  }

  /** Row 0 of the top cap, placed at quad n0, as the source's cursor quadIndex,
      starting at q0 = ring * ySize, writes it. */
  lemma TopNearForm(d: Dims, Q: seq<Quad>, n0: int, q0: int)
    requires d.Valid() && d.xSize >= 2 && d.zSize >= 2 && CapPlaced(d, true, Q, n0)
    requires q0 == d.Ring() * d.ySize
    ensures TopNearShape(Q, n0, d.xSize, q0, d.Ring())
  {
    forall i | n0 <= i < n0 + d.xSize - 1
      ensures Q[i] == Quad(d.Ring() * d.ySize + (i - n0), d.Ring() * d.ySize + (i - n0) + 1,
                           d.Ring() * d.ySize + (i - n0) + d.Ring() - 1, d.Ring() * d.ySize + (i - n0) + d.Ring())
    {
      TopNearAt(d, i - n0);
      CapPlacedAt(d, true, Q, n0, i - n0);
    }
    TopNearAt(d, d.xSize - 1);
    CapPlacedAt(d, true, Q, n0, d.xSize - 1);
  }

  /** Middle row z of the top cap, placed at quad n0, as the source writes it from
      vMin = (0, z), vMid = (1, z) and vMax = (xSize, z). */
  lemma TopMiddleForm(d: Dims, Q: seq<Quad>, n0: int, z: int, r0: int, vMin: int, vMid: int, vMax: int)
    requires d.Valid() && d.xSize >= 2 && 1 <= z < d.zSize - 1 && CapPlaced(d, true, Q, n0)
    requires r0 == n0 + d.xSize * z
    requires vMin == d.Ring() * (d.ySize + 1) - z && vMax == d.Ring() * d.ySize + d.xSize + z
    requires vMid == d.Ring() * (d.ySize + 1) + (d.xSize - 1) * z - (d.xSize - 1)
    ensures TopMiddleShape(Q, r0, d.xSize, vMin, vMid, vMax)
  {
    TopCursors(d, z);
    TopMiddleLast(d, z, d.xSize - 1);
    forall i | r0 < i < r0 + d.xSize - 1
      ensures Q[i] == Quad(CapIndex(d, true, 1, z) + (i - r0) - 1, CapIndex(d, true, 1, z) + (i - r0),
        CapIndex(d, true, 1, z) + (i - r0) + d.xSize - 2, CapIndex(d, true, 1, z) + (i - r0) + d.xSize - 1)
    {
      TopMiddleInner(d, z, i - r0);
      CapPlacedAt(d, true, Q, n0, i - n0);
    }
    TopMiddleFirst(d, z);
    CapPlacedAt(d, true, Q, n0, r0 - n0);
    CapPlacedAt(d, true, Q, n0, r0 - n0 + d.xSize - 1);
  }

  /** The far row z = zSize - 1 of the top cap, placed at quad n0, as the source writes
      it from vMin = (0, z) and vMid = (1, z), with vTop running back along z = zSize. */
  lemma TopFarForm(d: Dims, Q: seq<Quad>, n0: int, z: int, r0: int, vMin: int, vMid: int)
    requires d.Valid() && d.xSize >= 2 && d.zSize >= 2 && z == d.zSize - 1 && CapPlaced(d, true, Q, n0)
    requires r0 == n0 + d.xSize * z && vMin == d.Ring() * (d.ySize + 1) - z
    requires vMid == d.Ring() * (d.ySize + 1) + (d.xSize - 1) * z - (d.xSize - 1)
    ensures TopFarShape(Q, r0, d.xSize, vMin, vMid)
  {
    TopCursors(d, z);
    forall i | r0 <= i < r0 + d.xSize
      ensures Q[i] == Cap(d, true)[i - n0]
    {
      TopFarAt(d, i - r0);
      CapPlacedAt(d, true, Q, n0, i - n0);
    }
    TopFarAt(d, 0);
    TopFarAt(d, d.xSize - 1);
    forall i | r0 < i < r0 + d.xSize - 1
      ensures Q[i] == Quad(CapIndex(d, true, 1, z) + (i - r0) - 1, CapIndex(d, true, 1, z) + (i - r0),
        CapIndex(d, true, 0, z) - 1 - (i - r0), CapIndex(d, true, 0, z) - 2 - (i - r0))
    {
      TopFarAt(d, i - r0);
    }
  }

  /** Row 0 of the bottom cap, placed at quad n0, as the source writes it with v
      running along the front edge from 1 and vMid along the first interior row from
      m, the start of the bottom interior block. */
  lemma BottomNearForm(d: Dims, Q: seq<Quad>, n0: int, m: int)
    requires d.Valid() && d.xSize >= 2 && d.zSize >= 2 && CapPlaced(d, false, Q, n0)
    requires m == d.VertexCount() - (d.xSize - 1) * (d.zSize - 1)
    ensures BottomNearShape(Q, n0, d.xSize, d.Ring(), 1, m)
  {
    forall i | n0 < i < n0 + d.xSize - 1
      ensures Q[i] == Quad(d.VertexCount() - (d.xSize - 1) * (d.zSize - 1) + (i - n0) - 1,
        d.VertexCount() - (d.xSize - 1) * (d.zSize - 1) + (i - n0), (i - n0), (i - n0) + 1)
    {
      BottomNearAt(d, i - n0);
      CapPlacedAt(d, false, Q, n0, i - n0);
    }
    BottomNearAt(d, 0);
    CapPlacedAt(d, false, Q, n0, 0);
    BottomNearAt(d, d.xSize - 1);
    CapPlacedAt(d, false, Q, n0, d.xSize - 1);
  }

  /** Middle row z of the bottom cap, placed at quad n0, as the source writes it from
      vMin = (0, z + 1), vMid = (1, z) and vMax = (xSize, z). */
  lemma BottomMiddleForm(d: Dims, Q: seq<Quad>, n0: int, z: int, r0: int, vMin: int, vMid: int, vMax: int)
    requires d.Valid() && d.xSize >= 2 && 1 <= z < d.zSize - 1 && CapPlaced(d, false, Q, n0)
    requires r0 == n0 + d.xSize * z && vMin == d.Ring() - z - 1 && vMax == d.xSize + z
    requires vMid == d.VertexCount() - (d.xSize - 1) * (d.zSize - 1) + (d.xSize - 1) * z - (d.xSize - 1)
    ensures BottomMiddleShape(Q, r0, d.xSize, vMin, vMid, vMax)
  {
    BottomCursors(d, z);
    BottomMiddleLast(d, z, d.xSize - 1);
    forall i | r0 < i < r0 + d.xSize - 1
      ensures Q[i] == Quad(CapIndex(d, false, 1, z) + (i - r0) + d.xSize - 2,
        CapIndex(d, false, 1, z) + (i - r0) + d.xSize - 1, CapIndex(d, false, 1, z) + (i - r0) - 1, CapIndex(d, false, 1, z) + (i - r0))
    {
      BottomMiddleInner(d, z, i - r0);
      CapPlacedAt(d, false, Q, n0, i - n0);
    }
    BottomMiddleFirst(d, z);
    CapPlacedAt(d, false, Q, n0, r0 - n0);
    CapPlacedAt(d, false, Q, n0, r0 - n0 + d.xSize - 1);
  }

  /** The far row z = zSize - 1 of the bottom cap, placed at quad n0, as the source
      writes it from vMin = (0, zSize) and vMid = (1, z), with vTop = vMin - 1 running
      back along z = zSize. */
  lemma BottomFarForm(d: Dims, Q: seq<Quad>, n0: int, z: int, r0: int, vMin: int, vMid: int)
    requires d.Valid() && d.xSize >= 2 && d.zSize >= 2 && z == d.zSize - 1 && CapPlaced(d, false, Q, n0)
    requires r0 == n0 + d.xSize * z && vMin == d.Ring() - z - 1
    requires vMid == d.VertexCount() - (d.xSize - 1) * (d.zSize - 1) + (d.xSize - 1) * z - (d.xSize - 1)
    ensures BottomFarShape(Q, r0, d.xSize, vMin, vMid)
  {
    BottomCursors(d, z);
    forall i | r0 <= i < r0 + d.xSize
      ensures Q[i] == Cap(d, false)[i - n0]
    {
      BottomFarAt(d, i - r0);
      CapPlacedAt(d, false, Q, n0, i - n0);
    }
    BottomFarAt(d, 0);
    BottomFarAt(d, d.xSize - 1);
    forall i | r0 < i < r0 + d.xSize - 1
      ensures Q[i] == Quad(CapIndex(d, false, 0, d.zSize) - (i - r0), CapIndex(d, false, 0, d.zSize) - (i - r0) - 1,
        CapIndex(d, false, 1, z) + (i - r0) - 1, CapIndex(d, false, 1, z) + (i - r0))
    {
      BottomFarAt(d, i - r0);
    }
  }

  // ---- Index bounds ----

  /** Every corner of q is a vertex index below n. */
  predicate QuadIn(q: Quad, n: int) {
    0 <= q.v00 < n && 0 <= q.v10 < n && 0 <= q.v01 < n && 0 <= q.v11 < n
  }

  /** Every quad of qs has its corners below n. */
  predicate AllIn(qs: seq<Quad>, n: int) {
    forall i :: 0 <= i < |qs| ==> QuadIn(qs[i], n)
  }

  /** A side quad of layer y < ySize joins ring vertices of layers y and y + 1, all of
      which lie before the caps' interior blocks. */
  lemma SideQuadIn(d: Dims, y: int, k: int)
    requires d.Valid() && 0 <= y < d.ySize && 0 <= k < d.Ring()
    ensures QuadIn(SideQuad(d, y, k), d.VertexCount())
  {
    MulLe(y + 1, d.ySize, d.Ring());
    VertexCountSplit(d);
    assert (y + 1) * d.Ring() == y * d.Ring() + d.Ring();
    assert d.TopInteriorStart() == d.ySize * d.Ring() + d.Ring();
    assert d.CapInterior() >= 0;
  }

  lemma {:induction false} SideRunIn(d: Dims, y: int, k0: int, n: nat)
    requires d.Valid() && 0 <= y < d.ySize && 0 <= k0 && k0 + n <= d.Ring()
    ensures AllIn(SideRun(d, y, k0, n), d.VertexCount())
  {
    if n > 0 {
      SideRunIn(d, y, k0, n - 1);
      SideQuadIn(d, y, k0 + n - 1);
    }
  }

  lemma {:induction false} SidesIn(d: Dims, n: nat)
    requires d.Valid() && n <= d.ySize
    ensures AllIn(SidesZ(d, n), d.VertexCount()) && AllIn(SidesX(d, n), d.VertexCount())
  {
    if n > 0 {
      SidesIn(d, n - 1);
      SideRunIn(d, n - 1, 0, d.xSize);
      SideRunIn(d, n - 1, d.xSize + d.zSize, d.xSize);
      SideRunIn(d, n - 1, d.xSize, d.zSize);
      SideRunIn(d, n - 1, 2 * d.xSize + d.zSize, d.zSize);
    }
  }

  /** A cap cell's corners are surface points, so their indices lie in the buffer. */
  lemma CapCellIn(d: Dims, top: bool, x: int, z: int)
    requires d.Valid() && 0 <= x < d.xSize && 0 <= z < d.zSize
    ensures QuadIn(CapCell(d, top, x, z), d.VertexCount())
  {
    TraversalAtIndexOf(d, CapPoint(d, top, x, z));
    TraversalAtIndexOf(d, CapPoint(d, top, x + 1, z));
    TraversalAtIndexOf(d, CapPoint(d, top, x, z + 1));
    TraversalAtIndexOf(d, CapPoint(d, top, x + 1, z + 1));
  }

  lemma {:induction false} CapRowIn(d: Dims, top: bool, z: int, n: nat)
    requires d.Valid() && 0 <= z < d.zSize && n <= d.xSize
    ensures AllIn(CapRow(d, top, z, n), d.VertexCount())
  {
    if n > 0 {
      CapRowIn(d, top, z, n - 1);
      CapCellIn(d, top, n - 1, z);
    }
  }

  lemma {:induction false} CapRowsIn(d: Dims, top: bool, n: nat)
    requires d.Valid() && n <= d.zSize
    ensures AllIn(CapRows(d, top, n), d.VertexCount())
  {
    if n > 0 {
      CapRowsIn(d, top, n - 1);
      CapRowIn(d, top, n - 1, d.xSize);
    }
  }

  /** A buffer of quads whose corners lie below n holds only indices below n. */
  lemma FlattenIn(qs: seq<Quad>, n: int)
    requires AllIn(qs, n)
    ensures forall j :: 0 <= j < |Flatten(qs)| ==> 0 <= Flatten(qs)[j] < n
  {
    forall j | 0 <= j < |Flatten(qs)|
      ensures 0 <= Flatten(qs)[j] < n
    {
      FlattenAt(qs, j / 6, j % 6);
      assert QuadIn(qs[j / 6], n);
    }
  }

  /** Every index the three triangle groups hold names a vertex: it lies in
      [0, VertexCount()). */
  lemma TrianglesInRange(d: Dims)
    requires d.Valid()
    ensures forall j :: 0 <= j < |Flatten(SidesZ(d, d.ySize))| ==> 0 <= Flatten(SidesZ(d, d.ySize))[j] < d.VertexCount()
    ensures forall j :: 0 <= j < |Flatten(SidesX(d, d.ySize))| ==> 0 <= Flatten(SidesX(d, d.ySize))[j] < d.VertexCount()
    ensures var caps := Cap(d, true) + Cap(d, false);
      forall j :: 0 <= j < |Flatten(caps)| ==> 0 <= Flatten(caps)[j] < d.VertexCount()
  {
    SidesIn(d, d.ySize);
    CapRowsIn(d, true, d.zSize);
    CapRowsIn(d, false, d.zSize);
    FlattenIn(SidesZ(d, d.ySize), d.VertexCount());
    FlattenIn(SidesX(d, d.ySize), d.VertexCount());
    FlattenIn(Cap(d, true) + Cap(d, false), d.VertexCount());
  }
}
