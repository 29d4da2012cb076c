/** The physics colliders the generator adds: one box when the cube is sharp, otherwise
    three crossing boxes for the flat faces and twelve capsules along the rounded edges. */
module Colliders {
  import opened Vertex

  /** A collider component as the generator configures it. A box carries only its size
      (its centre stays at the engine's default); a capsule carries its centre, the axis
      it runs along (0 = x, 1 = y, 2 = z), its radius and its height. */
  datatype Collider =
    | Box(size: Vec3)
    | Capsule(center: Vec3, direction: int, radius: real, height: real)

  /** Coordinate `axis` of v, as C#'s Vector3 indexer. */
  function Component(v: Vec3, axis: int): real
    requires 0 <= axis < 3
  {
    if axis == 0 then v.x else if axis == 1 then v.y else v.z
  }

  /** The j-th (j = 0 or 1) axis other than dir, in increasing order. */
  function Other(dir: int, j: int): (axis: int)
    requires 0 <= dir < 3 && 0 <= j < 2
    ensures 0 <= axis < 3 && axis != dir
    ensures j == 1 ==> Other(dir, 0) < axis
  {
    if dir == 0 then j + 1 else if dir == 1 then 2 * j else j
  }

  /** The capsule AddCapsuleCollider adds: radius r, height twice the centre's coordinate
      along its own axis. */
  function EdgeCapsule(direction: int, center: Vec3, r: real): (c: Collider)
    requires 0 <= direction < 3
    ensures c.Capsule? && c.center == center && c.direction == direction && c.radius == r
    ensures c.height / 2.0 == Component(center, direction)
  {
    Capsule(center, direction, r, Component(center, direction) * 2.0)
  }

  /** The three crossing boxes of a rounded cube: box a spans the full size along axis a
      and is inset by the roundness on both sides along the other two. */
  function CoreBoxes(xs: real, ys: real, zs: real, r: real): seq<Collider>
  {
    [ Box(Vec3(xs, ys - r * 2.0, zs - r * 2.0)),
      Box(Vec3(xs - r * 2.0, ys, zs - r * 2.0)),
      Box(Vec3(xs - r * 2.0, ys - r * 2.0, zs)) ]
  }

  /** The four capsules along axis dir, centred at c00, c01, c10 and c11 in that order. */
  function EdgeCapsules(dir: int, c00: Vec3, c01: Vec3, c10: Vec3, c11: Vec3, r: real): seq<Collider>
    requires 0 <= dir < 3
  {
    [EdgeCapsule(dir, c00, r), EdgeCapsule(dir, c01, r), EdgeCapsule(dir, c10, r), EdgeCapsule(dir, c11, r)]
  }

  /** The colliders of a rounded cube: the core boxes, then four capsules along each
      axis, centred at half the size on that axis and at min or max on the other two. */
  function RoundedLayout(xs: real, ys: real, zs: real, r: real, min: Vec3, half: Vec3, max: Vec3): seq<Collider>
  {
    CoreBoxes(xs, ys, zs, r)
    + EdgeCapsules(0, Vec3(half.x, min.y, min.z), Vec3(half.x, min.y, max.z),
                      Vec3(half.x, max.y, min.z), Vec3(half.x, max.y, max.z), r)
    + EdgeCapsules(1, Vec3(min.x, half.y, min.z), Vec3(min.x, half.y, max.z),
                      Vec3(max.x, half.y, min.z), Vec3(max.x, half.y, max.z), r)
    + EdgeCapsules(2, Vec3(min.x, min.y, half.z), Vec3(min.x, max.y, half.z),
                      Vec3(max.x, min.y, half.z), Vec3(max.x, max.y, half.z), r)
  }

  /** Every collider CreateColliders adds, in order, for a box of size (xs, ys, zs) and
      roundness r: min is r on every axis, max is the size minus min, half the size halved. */
  function ColliderLayout(xs: real, ys: real, zs: real, r: real): (cs: seq<Collider>)
    ensures r == 0.0 ==> cs == [Box(Vec3(xs, ys, zs))]
    ensures r != 0.0 ==> |cs| == 15
    ensures r != 0.0 ==> forall i :: 0 <= i < 3 ==> cs[i].Box?
    ensures r != 0.0 ==> forall i :: 3 <= i < 15 ==> cs[i].Capsule? && cs[i].radius == r
  {
    if r == 0.0 then
      [Box(Vec3(xs, ys, zs))]
    else
      var min := Vec3(r, r, r);
      RoundedLayout(xs, ys, zs, r, min, Vec3(xs * 0.5, ys * 0.5, zs * 0.5), Vec3(xs - min.x, ys - min.y, zs - min.z))
  }

  /** A rounded cube's layout, with min, half and max spelled out. */
  lemma RoundedLayoutIs(xs: real, ys: real, zs: real, r: real)
    requires r != 0.0
    ensures ColliderLayout(xs, ys, zs, r)
         == RoundedLayout(xs, ys, zs, r, Vec3(r, r, r), Vec3(xs * 0.5, ys * 0.5, zs * 0.5), Vec3(xs - r, ys - r, zs - r))
  {
  }

  /** Box a (0 = x, 1 = y, 2 = z) spans the full size along axis a and is inset by the
      roundness on both sides along the other two axes. */
  lemma BoxLayout(xs: real, ys: real, zs: real, r: real, a: int, b: int)
    requires r != 0.0 && 0 <= a < 3 && 0 <= b < 3
    ensures var size := Vec3(xs, ys, zs);
      var box := ColliderLayout(xs, ys, zs, r)[a];
      box.Box? && Component(box.size, b) == if a == b then Component(size, b) else Component(size, b) - 2.0 * r
  {
  }

  /** Capsule 4 * dir + 2 * a + b (after the boxes) runs along axis dir over the whole
      size of the box on that axis, and sits on the edge of the core box selected by a
      (first other axis) and b (second other axis): 0 picks r, 1 picks size - r. */
  lemma CapsuleLayout(xs: real, ys: real, zs: real, r: real, dir: int, a: int, b: int)
    requires r != 0.0 && 0 <= dir < 3 && 0 <= a < 2 && 0 <= b < 2
    ensures var size := Vec3(xs, ys, zs);
      var c := ColliderLayout(xs, ys, zs, r)[3 + 4 * dir + 2 * a + b];
      && c.Capsule? && c.direction == dir && c.radius == r
      && Component(c.center, dir) - c.height / 2.0 == 0.0
      && Component(c.center, dir) + c.height / 2.0 == Component(size, dir)
      && Component(c.center, Other(dir, 0)) == (if a == 0 then r else Component(size, Other(dir, 0)) - r)
      && Component(c.center, Other(dir, 1)) == (if b == 0 then r else Component(size, Other(dir, 1)) - r)
  {
  }
}
