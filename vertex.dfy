/** What SetVertex computes for one lattice point: the "inner" point clamped into the
    core box, the offset from it back to the lattice point (the normal before it is
    normalised), and the colour tag recording the raw lattice coordinates. */
module Vertex {
  import opened Lattice

  datatype Vec3 = Vec3(x: real, y: real, z: real)

  /** An 8-bit unsigned channel value. */
  type Byte = b: int | 0 <= b < 256

  /** A Color32 value: four byte channels. */
  datatype Color32 = Color32(r: Byte, g: Byte, b: Byte, a: Byte)

  function ToVec(p: Point): Vec3 {
    Vec3(p.x as real, p.y as real, p.z as real)
  }

  function Abs(a: real): real {
    if a < 0.0 then -a else a
  }

  /** The roundness is usable for a box of these sizes: it is at most half of each size. */
  predicate RoundnessFits(d: Dims, r: real) {
    0.0 <= r && 2.0 * r <= d.xSize as real && 2.0 * r <= d.ySize as real && 2.0 * r <= d.zSize as real
  }

  /** One coordinate of the inner point: c moved into [r, size - r], testing the lower
      bound first. */
  function Clamp(c: real, size: real, r: real): real {
    if c < r then r
    else if c > size - r then size - r
    else c
  }

  /** When the roundness fits, the clamped coordinate lies in [r, size - r]; a value
      already there is kept. */
  lemma ClampBounds(c: real, size: real, r: real)
    requires 0.0 <= r && 2.0 * r <= size
    ensures r <= Clamp(c, size, r) <= size - r
    ensures r <= c <= size - r ==> Clamp(c, size, r) == c
  {
  }

  /** The clamped value is the point of [r, size - r] nearest to c. */
  lemma ClampNearest(c: real, size: real, r: real, t: real)
    requires 0.0 <= r && 2.0 * r <= size && r <= t <= size - r
    ensures Abs(Clamp(c, size, r) - c) <= Abs(t - c)
  {
  }

  /** The inner point of lattice point p: the nearest point of the core box
      [r, xSize - r] × [r, ySize - r] × [r, zSize - r]. */
  function Inset(d: Dims, r: real, p: Point): Vec3 {
    Vec3(Clamp(p.x as real, d.xSize as real, r),
         Clamp(p.y as real, d.ySize as real, r),
         Clamp(p.z as real, d.zSize as real, r))
  }

  /** The vector from the inner point to the lattice point: the vertex normal before
      normalisation. */
  function Offset(d: Dims, r: real, p: Point): Vec3 {
    var inner := Inset(d, r, p);
    Vec3(p.x as real - inner.x, p.y as real - inner.y, p.z as real - inner.z)
  }

  /** The inner point lies in the core box, and the offset back to a lattice point of
      the box is at most r along each axis. */
  lemma InsetInCore(d: Dims, r: real, p: Point)
    requires RoundnessFits(d, r)
    ensures var c := Inset(d, r, p);
      && r <= c.x <= d.xSize as real - r
      && r <= c.y <= d.ySize as real - r
      && r <= c.z <= d.zSize as real - r
    ensures d.InBox(p) ==> var n := Offset(d, r, p); Abs(n.x) <= r && Abs(n.y) <= r && Abs(n.z) <= r
  {
  }

  /** With no roundness, the inner point is the lattice point itself and the offset is
      zero: the box keeps its sharp corners. */
  lemma SharpBox(d: Dims, p: Point)
    requires d.InBox(p)
    ensures Inset(d, 0.0, p) == ToVec(p)
    ensures Offset(d, 0.0, p) == Vec3(0.0, 0.0, 0.0)
  {
  }

  /** With a positive roundness that fits, every surface lattice point lies strictly
      outside the core box, so its normal direction is never the zero vector. */
  lemma OffsetNonZero(d: Dims, r: real, p: Point)
    requires d.Valid() && RoundnessFits(d, r) && 0.0 < r && d.OnSurface(p)
    ensures Offset(d, r, p) != Vec3(0.0, 0.0, 0.0)
  {
    var n := Offset(d, r, p);
    if p.x == 0 {
      assert n.x == -r;
    } else if p.x == d.xSize {
      assert n.x == r;
    } else if p.z == 0 {
      assert n.z == -r;
    } else if p.z == d.zSize {
      assert n.z == r;
    } else if p.y == 0 {
      assert n.y == -r;
    } else {
      assert n.y == r;
    }
  }

  /** C#'s unchecked (byte) cast: the low eight bits. */
  function ByteCast(n: int): Byte {
    n % 256
  }

  /** The colour tag of lattice point p: its raw coordinates, one byte each, alpha 0. */
  function Tag(p: Point): Color32 {
    Color32(ByteCast(p.x), ByteCast(p.y), ByteCast(p.z), 0)
  }

  /** The cast keeps a value that fits in a byte and otherwise wraps it modulo 256. */
  lemma ByteCastWraps(n: int)
    ensures 0 <= n < 256 ==> ByteCast(n) == n
    ensures (ByteCast(n) - n) % 256 == 0
    ensures ByteCast(n + 256) == ByteCast(n)
  {
  }

  /** Coordinates below 256 are recorded exactly. */
  lemma TagExact(p: Point)
    requires 0 <= p.x < 256 && 0 <= p.y < 256 && 0 <= p.z < 256
    ensures Tag(p) == Color32(p.x, p.y, p.z, 0)
  {
  }
}
