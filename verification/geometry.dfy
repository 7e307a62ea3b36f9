/** Vectors, axis-aligned boxes and the linear first-hit scan that every
    level runs against its list of collision boxes. */
module Geometry {
  import opened Optional

  datatype Vec3 = Vec3(x: real, y: real, z: real)

  const Origin: Vec3 := Vec3(0.0, 0.0, 0.0)

  function Add(a: Vec3, b: Vec3): Vec3 {
    Vec3(a.x + b.x, a.y + b.y, a.z + b.z)
  }

  function Sub(a: Vec3, b: Vec3): Vec3 {
    Vec3(a.x - b.x, a.y - b.y, a.z - b.z)
  }

  function Scale(a: Vec3, s: real): Vec3 {
    Vec3(a.x * s, a.y * s, a.z * s)
  }

  function LengthSq(a: Vec3): real {
    a.x * a.x + a.y * a.y + a.z * a.z
  }

  function WithY(a: Vec3, y: real): Vec3 {
    Vec3(a.x, y, a.z)
  }

  /** The horizontal part of a move: `position.x += dir.x * speed` and
      `position.z += dir.z * speed`, leaving the height alone. */
  function MoveFlat(p: Vec3, dir: Vec3, speed: real): Vec3 {
    Vec3(p.x + dir.x * speed, p.y, p.z + dir.z * speed)
  }

  function Min(a: real, b: real): real {
    if a <= b then a else b
  }

  function Max(a: real, b: real): real {
    if a >= b then a else b
  }

  /** `Math.max(lo, Math.min(hi, v))`. */
  function Clamp(lo: real, hi: real, v: real): (r: real)
    requires lo <= hi
    ensures lo <= r <= hi
    ensures lo <= v <= hi ==> r == v
    ensures v < lo ==> r == lo
    ensures hi < v ==> r == hi
  {
    Max(lo, Min(hi, v))
  }

  lemma LengthSqOfScale(a: Vec3, s: real)
    ensures LengthSq(Scale(a, s)) == LengthSq(a) * (s * s)
  {
    calc {
      LengthSq(Scale(a, s));
      (a.x * s) * (a.x * s) + (a.y * s) * (a.y * s) + (a.z * s) * (a.z * s);
      (a.x * a.x) * (s * s) + (a.y * a.y) * (s * s) + (a.z * a.z) * (s * s);
      LengthSq(a) * (s * s);
    }
  }

  // ---------------------------------------------------------------------
  // Axis-aligned boxes
  // ---------------------------------------------------------------------

  datatype Box = Box(min: Vec3, max: Vec3)

  predicate WellFormed(b: Box) {
    b.min.x <= b.max.x && b.min.y <= b.max.y && b.min.z <= b.max.z
  }

  predicate Contains(b: Box, p: Vec3) {
    && b.min.x <= p.x <= b.max.x
    && b.min.y <= p.y <= b.max.y
    && b.min.z <= p.z <= b.max.z
  }

  /** Closed intervals [lo1, hi1] and [lo2, hi2] share a point (touching counts). */
  predicate Overlaps(lo1: real, hi1: real, lo2: real, hi2: real) {
    lo1 <= hi2 && lo2 <= hi1
  }

  /** Box overlap as the game uses it: closed-interval overlap on all three
      axes, so boxes that only touch on a face do intersect. */
  predicate Intersects(a: Box, b: Box) {
    && Overlaps(a.min.x, a.max.x, b.min.x, b.max.x)
    && Overlaps(a.min.y, a.max.y, b.min.y, b.max.y)
    && Overlaps(a.min.z, a.max.z, b.min.z, b.max.z)
  }

  /** For well-formed boxes the axis test is exactly "the boxes share a point". */
  lemma IntersectsIffCommonPoint(a: Box, b: Box)
    requires WellFormed(a) && WellFormed(b)
    ensures Intersects(a, b) <==> exists p :: Contains(a, p) && Contains(b, p)
  {
    if Intersects(a, b) {
      var p := Vec3(Max(a.min.x, b.min.x), Max(a.min.y, b.min.y), Max(a.min.z, b.min.z));
      assert Contains(a, p) && Contains(b, p);
    }
  }

  /** `Box3.setFromCenterAndSize`: half the size on each side of the centre. */
  function FromCenterAndSize(center: Vec3, size: Vec3): (b: Box)
    ensures Sub(b.max, b.min) == size
    ensures Add(b.min, b.max) == Scale(center, 2.0)
    ensures size.x >= 0.0 && size.y >= 0.0 && size.z >= 0.0 ==> WellFormed(b) && Contains(b, center)
  {
    var half := Scale(size, 0.5);
    Box(Sub(center, half), Add(center, half))
  }

  /** A cube of side `side` centred on `center`. */
  function Cube(center: Vec3, side: real): Box {
    FromCenterAndSize(center, Vec3(side, side, side))
  }

  /** `Box3.expandByVector(v)`: each minimum moves down by v, each maximum up. */
  function ExpandByVector(b: Box, v: Vec3): Box {
    Box(Sub(b.min, v), Add(b.max, v))
  }

  /** Expanding by the negated tolerance: every face moves `t` inwards.
      The result stays inside the original box, and a box narrower than
      2t on some axis comes out inverted. */
  function Shrink(b: Box, t: real): (r: Box)
    ensures r.min == Add(b.min, Vec3(t, t, t)) && r.max == Sub(b.max, Vec3(t, t, t))
    ensures WellFormed(r) <==>
      (2.0 * t <= b.max.x - b.min.x && 2.0 * t <= b.max.y - b.min.y && 2.0 * t <= b.max.z - b.min.z)
    ensures t >= 0.0 ==> forall c :: Intersects(r, c) ==> Intersects(b, c)
  {
    ExpandByVector(b, Vec3(-t, -t, -t))
  }

  /** The box of an object whose geometry spans `lo`..`hi` around its
      position (`Box3.setFromObject` on an unrotated mesh). */
  datatype Extent = Extent(lo: Vec3, hi: Vec3)

  /** The 1 x 1 x 1 player mesh of the hub and level 1. */
  const UnitExtent: Extent := Extent(Vec3(-0.5, -0.5, -0.5), Vec3(0.5, 0.5, 0.5))

  function BoxAt(e: Extent, p: Vec3): Box {
    Box(Add(p, e.lo), Add(p, e.hi))
  }

  lemma UnitExtentIsUnitCube(p: Vec3)
    ensures BoxAt(UnitExtent, p) == Cube(p, 1.0)
  {
  }

  // ---------------------------------------------------------------------
  // Scanning a list of boxes
  // ---------------------------------------------------------------------

  /** Some registered box intersects `probe`. */
  predicate HitsSome(boxes: seq<Box>, probe: Box) {
    exists i :: 0 <= i < |boxes| && Intersects(probe, boxes[i])
  }

  /** `i` is the box a `for ... if (intersectsBox) { ...; break; }` loop stops at. */
  predicate IsFirstHit(boxes: seq<Box>, probe: Box, i: int) {
    && 0 <= i < |boxes|
    && Intersects(probe, boxes[i])
    && forall j :: 0 <= j < i ==> !Intersects(probe, boxes[j])
  }

  lemma FirstHitUnique(boxes: seq<Box>, probe: Box, i: int, j: int)
    requires IsFirstHit(boxes, probe, i) && IsFirstHit(boxes, probe, j)
    ensures i == j
  {
  }

  /** The index of the first box in registration order that intersects
      `probe`, or None when the scan finds nothing. */
  function FirstHit(boxes: seq<Box>, probe: Box): (r: Option<nat>)
    ensures r.Some? ==> IsFirstHit(boxes, probe, r.value)
    ensures r.None? <==> !HitsSome(boxes, probe)
  {
    if |boxes| == 0 then None
    else if Intersects(probe, boxes[0]) then Some(0)
    else match FirstHit(boxes[1..], probe)
      case None => None
      case Some(i) => Some(i + 1)
  }

  /** Any box satisfying the first-hit description is the one the scan returns. */
  lemma FirstHitIsUnique(boxes: seq<Box>, probe: Box)
    ensures forall j :: IsFirstHit(boxes, probe, j) ==> FirstHit(boxes, probe) == Some(j)
  {
    forall j | IsFirstHit(boxes, probe, j) ensures FirstHit(boxes, probe) == Some(j) {
      FirstHitUnique(boxes, probe, FirstHit(boxes, probe).value, j);
    }
  }

  lemma EmptyRegistryNeverHits(probe: Box)
    ensures !HitsSome([], probe) && FirstHit([], probe) == None
  {
  }
}
