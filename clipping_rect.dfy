/**
 * The clipping algebra of the newer API (src/core/clipping_rect.rs). A clip
 * is a positive-area rectangle, the empty clip `Zero`, or the absent clip
 * `None`, which lets everything through.
 */
module Clipping {
  import Wrappers
  import opened Ints
  import opened TextureAreas

  datatype ClippingArea = Some(area: TextureArea) | Zero | None

  /** `intersect_area`: the clip restricted to a position; an absent position has zero area. */
  function IntersectArea(c: ClippingArea, position: Wrappers.Option<TextureArea>): ClippingArea
  {
    match position
    case Some(position) =>
      (match c
      case Some(rect) =>
        (match TextureAreas.Intersection(rect, position)
         case Some(v) => Some(v)
         case None => Zero)
      case Zero => Zero
      case None => Some(position))
    case None => Zero
  }

  /** `intersection` */
  function Intersection(c: ClippingArea, other: ClippingArea): ClippingArea
  {
    match c
    case Zero => Zero
    case None => other
    case Some(selfRect) =>
      match other
      case Zero => Zero
      case None => c
      case Some(rect) =>
        var x1 := Max(selfRect.x, rect.x);
        var y1 := Max(selfRect.y, rect.y);
        var x2 := Min(selfRect.x + selfRect.w, rect.x + rect.w);
        var y2 := Min(selfRect.y + selfRect.h, rect.y + rect.h);
        if x2 > x1 && y2 > y1 then Some(TextureArea(x1, y1, x2 - x1, y2 - y1))
        else Zero
  }

  /** `contains_point` */
  predicate ContainsPoint(c: ClippingArea, px: int, py: int)
  {
    match c
    case Some(area) => TextureAreas.ContainsPoint(area, px, py)
    case Zero => false
    case None => true
  }

  /** Restricting to an absent position gives Zero; an absent clip gives the position; Zero stays Zero. */
  lemma IntersectAreaCases(c: ClippingArea, p: TextureArea)
    ensures IntersectArea(c, Wrappers.None) == Zero
    ensures IntersectArea(None, Wrappers.Some(p)) == Some(p)
    ensures IntersectArea(Zero, Wrappers.Some(p)) == Zero
  {
  }

  /** Zero absorbs and None is neutral, on either side. */
  lemma IntersectionZeroAndNone(c: ClippingArea)
    ensures Intersection(Zero, c) == Zero && Intersection(c, Zero) == Zero
    ensures Intersection(None, c) == c && Intersection(c, None) == c
  {
  }

  /** Two rectangles give their overlap when it has positive area, and Zero otherwise. */
  lemma IntersectionOfAreas(a: TextureArea, b: TextureArea)
    ensures Intersection(Some(a), Some(b)) ==
      match TextureAreas.Intersection(a, b)
      case Some(v) => Some(v)
      case None => Zero
  {
  }

  /** Restricting to a position is intersecting with that position. */
  lemma IntersectAreaIsIntersection(c: ClippingArea, p: TextureArea)
    ensures IntersectArea(c, Wrappers.Some(p)) == Intersection(c, Some(p))
  {
  }

  /** No point is in Zero, every point is in None, and a rectangle clip contains exactly its points. */
  lemma ContainsPointCases(a: TextureArea, px: int, py: int)
    ensures !ContainsPoint(Zero, px, py) && ContainsPoint(None, px, py)
    ensures ContainsPoint(Some(a), px, py) <==> a.x <= px < a.x + a.w && a.y <= py < a.y + a.h
  {
  }

  /** A point passes the intersection of two clips exactly when it passes both. */
  lemma IntersectionContainsPoint(a: ClippingArea, b: ClippingArea, px: int, py: int)
    ensures ContainsPoint(Intersection(a, b), px, py) <==> ContainsPoint(a, px, py) && ContainsPoint(b, px, py)
  {
    if a.Some? && b.Some? {
      IntersectionOfAreas(a.area, b.area);
      TextureAreas.IntersectionContainsPoint(a.area, b.area, px, py);
    }
  }

  lemma IntersectionCommutative(a: ClippingArea, b: ClippingArea)
    ensures Intersection(a, b) == Intersection(b, a)
  {
  }

  lemma IntersectionAssociative(a: ClippingArea, b: ClippingArea, c: ClippingArea)
    ensures Intersection(Intersection(a, b), c) == Intersection(a, Intersection(b, c))
  {
  }
}
