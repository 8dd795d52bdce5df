/**
 * MineBounds: the box of a mine, normalised from its two corner blocks into a
 * minimum and a maximum on each axis.
 */
module Bounds {

  import opened Host

  datatype MineBounds = MineBounds(xMax: int, xMin: int, yMax: int, yMin: int, zMax: int, zMin: int)
  {
    /** True iff `p` lies in the box, both ends of every axis included. */
    predicate Contains(p: Point)
    {
      xMin <= p.x <= xMax && yMin <= p.y <= yMax && zMin <= p.z <= zMax
    }
  }

  function Max(a: int, b: int): int { if a >= b then a else b }

  function Min(a: int, b: int): int { if a <= b then a else b }

  /** The MineBounds(Mine) constructor, given the corner blocks of l1 and l2. */
  function FromCorners(l1: Point, l2: Point): (b: MineBounds)
    ensures b.xMin <= b.xMax && b.yMin <= b.yMax && b.zMin <= b.zMax
    ensures {b.xMin, b.xMax} == {l1.x, l2.x}
    ensures {b.yMin, b.yMax} == {l1.y, l2.y}
    ensures {b.zMin, b.zMax} == {l1.z, l2.z}
  {
    MineBounds(Max(l1.x, l2.x), Min(l1.x, l2.x),
               Max(l1.y, l2.y), Min(l1.y, l2.y),
               Max(l1.z, l2.z), Min(l1.z, l2.z))
  }

  /** Which corner is given first does not matter. */
  lemma FromCornersSymmetric(l1: Point, l2: Point)
    ensures FromCorners(l1, l2) == FromCorners(l2, l1)
  {
  }

  /** Both corners lie in the box they span. */
  lemma CornersInside(l1: Point, l2: Point)
    ensures FromCorners(l1, l2).Contains(l1) && FromCorners(l1, l2).Contains(l2)
  {
  }

  /** When l1 is the maximum corner and l2 the minimum one, as the Mine constructors document. */
  lemma FromOrderedCorners(l1: Point, l2: Point)
    requires l1.x >= l2.x && l1.y >= l2.y && l1.z >= l2.z
    ensures FromCorners(l1, l2) == MineBounds(l1.x, l2.x, l1.y, l2.y, l1.z, l2.z)
  {
  }
}
