/** The lattice of a rounded box of xSize × ySize × zSize cells and the order in
    which the generator stores its surface points in the vertex buffer.

    The buffer holds, layer by layer from y = 0 to y = ySize, one perimeter ring of
    2 * (xSize + zSize) points; then the interior points of the top cap, row by row;
    then the interior points of the bottom cap. `Traversal` lists the points in that
    order, `IndexOf` gives each surface point's index in closed form, and the lemmas
    at the end prove the two are inverse bijections. */
module Lattice {

  /** A lattice point (also the raw, unrounded position of a vertex). */
  datatype Point = Point(x: int, y: int, z: int)

  /** The cell counts of the box along each axis. */
  datatype Dims = Dims(xSize: int, ySize: int, zSize: int) {

    predicate Valid() {
      xSize >= 1 && ySize >= 1 && zSize >= 1
    }

    /** Number of lattice points on one horizontal perimeter ring. */
    function Ring(): int {
      2 * (xSize + zSize)
    }

    /** The vertex buffer length as the generator computes it:
        corners + edge points + face-interior points. */
    function VertexCount(): int {
      8 + (xSize + ySize + zSize - 3) * 4
      + ((xSize - 1) * (ySize - 1) + (xSize - 1) * (zSize - 1) + (ySize - 1) * (zSize - 1)) * 2
    }

    /** Number of interior lattice points of one cap. */
    function CapInterior(): int {
      (zSize - 1) * (xSize - 1)
    }

    /** Index of the first top-cap interior point (all rings come before it). */
    function TopInteriorStart(): int {
      (ySize + 1) * Ring()
    }

    /** Index of the first bottom-cap interior point. */
    function BottomInteriorStart(): int {
      TopInteriorStart() + CapInterior()
    }

    predicate InBox(p: Point) {
      0 <= p.x <= xSize && 0 <= p.y <= ySize && 0 <= p.z <= zSize
    }

    /** p lies on one of the four vertical faces. */
    predicate OnSide(p: Point) {
      p.x == 0 || p.x == xSize || p.z == 0 || p.z == zSize
    }

    predicate OnSurface(p: Point) {
      InBox(p) && (OnSide(p) || p.y == 0 || p.y == ySize)
    }

    // ---- The traversal, as the generator's loops visit the points ----

    /** Front edge (z = 0), x = 0, 1, ..., n - 1. */
    function FrontEdge(y: int, n: nat): seq<Point> {
      seq(n, i => Point(i, y, 0))
    }

    /** Right edge (x = xSize), z = 1, ..., n. */
    function RightEdge(y: int, n: nat): seq<Point> {
      seq(n, i => Point(xSize, y, i + 1))
    }

    /** Back edge (z = zSize), x = xSize - 1 downwards, n points. */
    function BackEdge(y: int, n: nat): seq<Point> {
      seq(n, i => Point(xSize - 1 - i, y, zSize))
    }

    /** Left edge (x = 0), z = zSize - 1 downwards, n points. */
    function LeftEdge(y: int, n: nat): seq<Point> {
      seq(n, i => Point(0, y, zSize - 1 - i))
    }

    /** The perimeter ring of layer y, each boundary point once, from (0, y, 0). */
    function Layer(y: int): seq<Point>
      requires Valid()
    {
      seq(Ring(), k => RingPoint(y, k))
    }

    /** The rings of layers 0 .. n - 1. */
    function Rings(n: nat): seq<Point>
      requires Valid()
    {
      if n == 0 then [] else Rings(n - 1) + Layer(n - 1)
    }

    /** Interior points (x, y, z) of row z, x = 1 .. n. */
    function InteriorRow(y: int, z: int, n: nat): seq<Point> {
      seq(n, i => Point(i + 1, y, z))
    }

    /** Interior rows z = 1 .. n of the cap at height y. */
    function InteriorRows(y: int, n: nat): seq<Point>
      requires Valid()
    {
      if n == 0 then [] else InteriorRows(y, n - 1) + InteriorRow(y, n, xSize - 1)
    }

    /** Every vertex's lattice point, in buffer order. */
    function Traversal(): seq<Point>
      requires Valid()
    {
      Rings(ySize + 1) + InteriorRows(ySize, zSize - 1) + InteriorRows(0, zSize - 1)
    }

    // ---- The closed form ----

    /** Position of the boundary point (x, z) on its ring, counted from (0, 0)
        along the front, right, back and left edges. */
    function RingPos(x: int, z: int): int {
      if z == 0 then x
      else if x == xSize then xSize + z
      else if z == zSize then 2 * xSize + zSize - x
      else Ring() - z
    }

    /** The boundary point at position k of the ring of layer y. */
    function RingPoint(y: int, k: int): Point {
      if k <= xSize then Point(k, y, 0)
      else if k <= xSize + zSize then Point(xSize, y, k - xSize)
      else if k <= 2 * xSize + zSize then Point(2 * xSize + zSize - k, y, zSize)
      else Point(0, y, Ring() - k)
    }

    /** The index at which the generator stores surface point p. */
    function IndexOf(p: Point): int {
      if OnSide(p) then p.y * Ring() + RingPos(p.x, p.z)
      else if p.y == ySize then TopInteriorStart() + (p.z - 1) * (xSize - 1) + (p.x - 1)
      else BottomInteriorStart() + (p.z - 1) * (xSize - 1) + (p.x - 1)
    }
  }

  // ---- Arithmetic helpers ----

  lemma MulLe(a: int, b: int, c: int)
    requires a <= b && 0 <= c
    ensures a * c <= b * c
  {
    assert b * c - a * c == (b - a) * c;
  }

  /** One more row of b: the step a cursor loop takes from row a to row c = a + 1. */
  lemma MulNext(a: int, b: int, c: int)
    requires c == a + 1
    ensures b * a + b == b * c
  {
  }

  /** Splits 0 <= i < w * n into a row r < n and a column c < w. */
  lemma DivSplit(i: int, w: int, n: int) returns (r: int, c: int)
    requires 0 <= i && 0 < w && i < n * w
    ensures 0 <= r < n && 0 <= c < w && i == r * w + c
  {
    r, c := i / w, i % w;
    if r >= n {
      MulLe(n, r, w);
    }
  }

  // ---- Counting ----

  /** The closed-form count is the ring points of all layers plus two cap interiors. */
  lemma VertexCountSplit(d: Dims)
    ensures d.VertexCount() == d.TopInteriorStart() + 2 * d.CapInterior()
  {
    var x, y, z := d.xSize, d.ySize, d.zSize;
    calc {
      d.VertexCount();
      8 + (x + y + z - 3) * 4 + ((x - 1) * (y - 1) + (x - 1) * (z - 1) + (y - 1) * (z - 1)) * 2;
      2 * x * y + 2 * x * z + 2 * y * z + 2;
      (y + 1) * (2 * (x + z)) + 2 * ((z - 1) * (x - 1));
    }
  }

  lemma {:induction false} RingsLength(d: Dims, n: nat)
    requires d.Valid()
    ensures |d.Rings(n)| == n * d.Ring()
  {
    if n > 0 {
      RingsLength(d, n - 1);
    }
  }

  lemma {:induction false} InteriorRowsLength(d: Dims, y: int, n: nat)
    requires d.Valid()
    ensures |d.InteriorRows(y, n)| == n * (d.xSize - 1)
  {
    if n > 0 {
      InteriorRowsLength(d, y, n - 1);
    }
  }

  /** The traversal visits exactly as many points as the buffer has slots. */
  lemma TraversalLength(d: Dims)
    requires d.Valid()
    ensures |d.Traversal()| == d.VertexCount()
  {
    RingsLength(d, d.ySize + 1);
    InteriorRowsLength(d, d.ySize, d.zSize - 1);
    InteriorRowsLength(d, 0, d.zSize - 1);
    VertexCountSplit(d);
    var rings, top, bottom := d.Rings(d.ySize + 1), d.InteriorRows(d.ySize, d.zSize - 1), d.InteriorRows(0, d.zSize - 1);
    assert d.Traversal() == rings + top + bottom;
    assert |rings| == d.TopInteriorStart();
    assert |top| == d.CapInterior() && |bottom| == d.CapInterior();
  }

  // ---- Where each point sits ----

  /** Position k of layer y's ring holds RingPoint(y, k). */
  lemma LayerAt(d: Dims, y: int, k: int)
    requires d.Valid() && 0 <= k < d.Ring()
    ensures |d.Layer(y)| == d.Ring() && d.Layer(y)[k] == d.RingPoint(y, k)
  {
  }

  /** The ring walks the front edge (z = 0) left to right, the right edge (x = xSize)
      front to back, the back edge (z = zSize) right to left and the left edge (x = 0)
      back to front, visiting each corner once. */
  lemma LayerEdges(d: Dims, y: int)
    requires d.Valid()
    ensures d.Layer(y) == d.FrontEdge(y, d.xSize + 1) + d.RightEdge(y, d.zSize) + d.BackEdge(y, d.xSize) + d.LeftEdge(y, d.zSize - 1)
  {
    var edges := d.FrontEdge(y, d.xSize + 1) + d.RightEdge(y, d.zSize) + d.BackEdge(y, d.xSize) + d.LeftEdge(y, d.zSize - 1);
    assert |edges| == d.Ring();
    forall k | 0 <= k < d.Ring()
      ensures edges[k] == d.Layer(y)[k]
    {
      if k <= d.xSize {
      } else if k <= d.xSize + d.zSize {
        assert edges[k] == d.RightEdge(y, d.zSize)[k - d.xSize - 1];
      } else if k <= 2 * d.xSize + d.zSize {
        assert edges[k] == d.BackEdge(y, d.xSize)[k - d.xSize - 1 - d.zSize];
      } else {
        assert edges[k] == d.LeftEdge(y, d.zSize - 1)[k - 2 * d.xSize - 1 - d.zSize];
      }
    }
  }

  /** Ring point k of layer y sits at index y * ring + k. */
  lemma {:induction false} RingsAt(d: Dims, n: nat, y: int, k: int)
    requires d.Valid() && 0 <= y < n && 0 <= k < d.Ring()
    ensures y * d.Ring() + k < |d.Rings(n)|
    ensures d.Rings(n)[y * d.Ring() + k] == d.RingPoint(y, k)
  {
    var r := d.Ring();
    RingsLength(d, n - 1);
    LayerAt(d, n - 1, k);
    assert d.Rings(n) == d.Rings(n - 1) + d.Layer(n - 1);
    if y < n - 1 {
      RingsAt(d, n - 1, y, k);
    } else {
      assert y * r + k == (n - 1) * r + k;
    }
  }

  /** Interior point (x, h, z) of a cap sits at offset (z - 1) * (xSize - 1) + (x - 1). */
  lemma {:induction false} InteriorRowsAt(d: Dims, h: int, n: nat, x: int, z: int)
    requires d.Valid() && 1 <= z <= n && 1 <= x < d.xSize
    ensures 0 <= (z - 1) * (d.xSize - 1) + (x - 1) < |d.InteriorRows(h, n)|
    ensures d.InteriorRows(h, n)[(z - 1) * (d.xSize - 1) + (x - 1)] == Point(x, h, z)
  {
    var w := d.xSize - 1;
    MulLe(0, z - 1, w);
    InteriorRowsLength(d, h, n - 1);
    assert d.InteriorRows(h, n) == d.InteriorRows(h, n - 1) + d.InteriorRow(h, n, w);
    if z < n {
      InteriorRowsAt(d, h, n - 1, x, z);
    } else {
      assert (z - 1) * w + (x - 1) == (n - 1) * w + (x - 1);
    }
  }

  /** Every ring point is a surface point whose closed-form index is y * ring + k. */
  lemma RingPointIndex(d: Dims, y: int, k: int)
    requires d.Valid() && 0 <= y <= d.ySize && 0 <= k < d.Ring()
    ensures d.OnSurface(d.RingPoint(y, k)) && d.OnSide(d.RingPoint(y, k))
    ensures d.IndexOf(d.RingPoint(y, k)) == y * d.Ring() + k
  {
  }

  /** Rings of layers 0 .. y - 1 leave room for layer y's ring before the caps. */
  lemma RingsBound(d: Dims, y: nat)
    requires d.Valid() && y <= d.ySize
    ensures |d.Rings(y)| + d.Ring() <= |d.Rings(d.ySize + 1)|
  {
    RingsLength(d, y);
    RingsLength(d, d.ySize + 1);
    MulLe(y + 1, d.ySize + 1, d.Ring());
    assert (y + 1) * d.Ring() == y * d.Ring() + d.Ring();
  }

  /** The buffer length is the rings plus the two cap interiors. */
  lemma VertexBlocks(d: Dims)
    requires d.Valid()
    ensures |d.Rings(d.ySize + 1)| + 2 * |d.InteriorRows(0, d.zSize - 1)| == d.VertexCount()
    ensures |d.InteriorRows(d.ySize, d.zSize - 1)| == |d.InteriorRows(0, d.zSize - 1)| == d.CapInterior()
  {
    TraversalParts(d);
  }

  /** The traversal's three blocks: rings, top interior, bottom interior. */
  lemma TraversalParts(d: Dims)
    requires d.Valid()
    ensures d.Traversal() == d.Rings(d.ySize + 1) + d.InteriorRows(d.ySize, d.zSize - 1) + d.InteriorRows(0, d.zSize - 1)
    ensures |d.Rings(d.ySize + 1)| == d.TopInteriorStart()
    ensures |d.InteriorRows(d.ySize, d.zSize - 1)| == d.CapInterior()
    ensures |d.InteriorRows(0, d.zSize - 1)| == d.CapInterior()
    ensures d.VertexCount() == d.TopInteriorStart() + 2 * d.CapInterior()
  {
    RingsLength(d, d.ySize + 1);
    InteriorRowsLength(d, d.ySize, d.zSize - 1);
    InteriorRowsLength(d, 0, d.zSize - 1);
    VertexCountSplit(d);
  }

  /** RingPoint undoes RingPos on the four vertical faces. */
  lemma RingPosPoint(d: Dims, p: Point)
    requires d.Valid() && d.InBox(p) && d.OnSide(p)
    ensures 0 <= d.RingPos(p.x, p.z) < d.Ring() && d.RingPoint(p.y, d.RingPos(p.x, p.z)) == p
  {
  }

  /** A side point p sits at p.y * ring + RingPos. */
  lemma SideAtIndexOf(d: Dims, p: Point)
    requires d.Valid() && d.InBox(p) && d.OnSide(p)
    ensures |d.Rings(d.ySize + 1)| == d.TopInteriorStart()
    ensures 0 <= d.IndexOf(p) < d.TopInteriorStart()
    ensures d.Rings(d.ySize + 1)[d.IndexOf(p)] == p
  {
    var k := d.RingPos(p.x, p.z);
    RingPosPoint(d, p);
    RingsAt(d, d.ySize + 1, p.y, k);
    RingsLength(d, d.ySize + 1);
  }

  /** A side point sits at its closed-form index among the rings. */
  lemma SideTraversalAt(d: Dims, p: Point)
    requires d.Valid() && d.InBox(p) && d.OnSide(p)
    ensures |d.Traversal()| == d.VertexCount()
    ensures 0 <= d.IndexOf(p) < d.VertexCount() && d.Traversal()[d.IndexOf(p)] == p
  {
    TraversalParts(d);
    SideAtIndexOf(d, p);
    assert d.Traversal()[d.IndexOf(p)] == d.Rings(d.ySize + 1)[d.IndexOf(p)];
  }

  /** An interior point of cap h sits at its closed-form index in that cap's block. */
  lemma InteriorTraversalAt(d: Dims, p: Point)
    requires d.Valid() && d.OnSurface(p) && !d.OnSide(p)
    ensures |d.Traversal()| == d.VertexCount()
    ensures 0 <= d.IndexOf(p) < d.VertexCount() && d.Traversal()[d.IndexOf(p)] == p
  {
    TraversalParts(d);
    var j := (p.z - 1) * (d.xSize - 1) + (p.x - 1);
    InteriorRowsAt(d, p.y, d.zSize - 1, p.x, p.z);
    if p.y == d.ySize {
      assert d.Traversal()[d.TopInteriorStart() + j] == d.InteriorRows(d.ySize, d.zSize - 1)[j];
    } else {
      assert d.Traversal()[d.BottomInteriorStart() + j] == d.InteriorRows(0, d.zSize - 1)[j];
    }
  }

  /** The closed form finds every surface point in the buffer: the traversal stores
      surface point p at IndexOf(p). */
  lemma TraversalAtIndexOf(d: Dims, p: Point)
    requires d.Valid() && d.OnSurface(p)
    ensures |d.Traversal()| == d.VertexCount()
    ensures 0 <= d.IndexOf(p) < d.VertexCount()
    ensures d.Traversal()[d.IndexOf(p)] == p
  {
    if d.OnSide(p) {
      SideTraversalAt(d, p);
    } else {
      InteriorTraversalAt(d, p);
    }
  }

  /** The first (ySize + 1) * ring positions hold the rings' points. */
  lemma RingsIndexOf(d: Dims, i: int)
    requires d.Valid() && 0 <= i < d.VertexCount() && i < d.TopInteriorStart()
    ensures |d.Traversal()| == d.VertexCount()
    ensures d.OnSurface(d.Traversal()[i]) && d.IndexOf(d.Traversal()[i]) == i
  {
    TraversalParts(d);
    var y, k := DivSplit(i, d.Ring(), d.ySize + 1);
    RingsAt(d, d.ySize + 1, y, k);
    RingPointIndex(d, y, k);
    assert d.Traversal()[i] == d.RingPoint(y, k);
  }

  /** The remaining positions hold the two caps' interior points, row by row. */
  lemma CapInteriorIndexOf(d: Dims, i: int)
    requires d.Valid() && d.TopInteriorStart() <= i < d.VertexCount()
    ensures |d.Traversal()| == d.VertexCount()
    ensures d.OnSurface(d.Traversal()[i]) && d.IndexOf(d.Traversal()[i]) == i
  {
    TraversalParts(d);
    var w := d.xSize - 1;
    var isTop := i < d.BottomInteriorStart();
    var j := if isTop then i - d.TopInteriorStart() else i - d.BottomInteriorStart();
    var h := if isTop then d.ySize else 0;
    var r, c := DivSplit(j, w, d.zSize - 1);
    InteriorRowsAt(d, h, d.zSize - 1, c + 1, r + 1);
    var p := Point(c + 1, h, r + 1);
    assert d.Traversal()[i] == p;
    assert !d.OnSide(p) && d.IndexOf(p) == i;
  }

  /** Every buffer slot holds a surface point, and the closed form gives its slot back:
      no point is stored twice. */
  lemma IndexOfTraversal(d: Dims, i: int)
    requires d.Valid() && 0 <= i < d.VertexCount()
    ensures |d.Traversal()| == d.VertexCount()
    ensures d.OnSurface(d.Traversal()[i])
    ensures d.IndexOf(d.Traversal()[i]) == i
  {
    if i < d.TopInteriorStart() {
      RingsIndexOf(d, i);
    } else {
      CapInteriorIndexOf(d, i);
    }
  }
}
