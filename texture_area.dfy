/**
 * Integer areas of positive size (src/core/texture_area.rs), the type the
 * clipping algebra is built on; it has the same shape as TextureRect.
 * Coordinates are unbounded integers, so the sums `x + w` are exact.
 */
module TextureAreas {
  import opened Ints
  import opened Wrappers
  import Colors

  datatype TextureArea = TextureArea(x: int, y: int, w: NonZeroU32, h: NonZeroU32)

  /** Part of a texture to copy from. */
  datatype TextureSource = WholeTexture | Area(area: TextureArea)

  /**
   * Rotation and flips of a copy. The angle is an f32 number of degrees
   * clockwise in the source; the code modelled here only uses whole degrees.
   */
  datatype TextureRotation = TextureRotation(angle: int, point: Option<(int, int)>, flipHorizontal: bool, flipVertical: bool)

  datatype TextureDestination = TextureDestination(area: TextureArea, rotation: Option<TextureRotation>, color: Colors.Color)

  /** `contains_point`: half-open on both axes. */
  predicate ContainsPoint(r: TextureArea, px: int, py: int)
  {
    var insideX := px >= r.x && px < r.x + r.w;
    insideX && (py >= r.y && py < r.y + r.h)
  }

  /** `intersection` */
  function Intersection(a: TextureArea, b: TextureArea): Option<TextureArea>
  {
    var x1 := Max(a.x, b.x);
    var y1 := Max(a.y, b.y);
    var x2 := Min(a.x + a.w, b.x + b.w);
    var y2 := Min(a.y + a.h, b.y + b.h);
    if x1 < x2 && y1 < y2 then Some(TextureArea(x1, y1, x2 - x1, y2 - y1))
    else None
  }

  /** `size` */
  function Size(r: TextureArea): (s: (NonZeroU32, NonZeroU32))
    ensures s.0 == r.w && s.1 == r.h
  {
    (r.w, r.h)
  }

  /** `From<TextureArea> for TextureSource` */
  function SourceFrom(r: TextureArea): (s: TextureSource)
    ensures s.Area? && s.area == r
  {
    Area(r)
  }

  /** `From<TextureArea> for TextureDestination`: the whole area, no rotation, opaque white. */
  function DestinationFrom(r: TextureArea): (d: TextureDestination)
    ensures d.area == r && d.rotation.None? && d.color == Colors.WHITE
  {
    TextureDestination(r, None, Colors.Color(0xFF, 0xFF, 0xFF, 0xFF))
  }

  /** A point lies in the intersection exactly when it lies in both rectangles. */
  lemma IntersectionContainsPoint(a: TextureArea, b: TextureArea, px: int, py: int)
    ensures (Intersection(a, b).Some? && ContainsPoint(Intersection(a, b).value, px, py))
        <==> ContainsPoint(a, px, py) && ContainsPoint(b, px, py)
  {
  }

  /** There is no intersection exactly when the rectangles share no point. */
  lemma IntersectionNoneIffDisjoint(a: TextureArea, b: TextureArea)
    ensures Intersection(a, b).None? <==> forall px, py :: !(ContainsPoint(a, px, py) && ContainsPoint(b, px, py))
  {
    if Intersection(a, b).Some? {
      var i := Intersection(a, b).value;
      assert ContainsPoint(i, i.x, i.y);
      IntersectionContainsPoint(a, b, i.x, i.y);
    } else {
      forall px, py ensures !(ContainsPoint(a, px, py) && ContainsPoint(b, px, py)) {
        IntersectionContainsPoint(a, b, px, py);
      }
    }
  }

  lemma IntersectionCommutative(a: TextureArea, b: TextureArea)
    ensures Intersection(a, b) == Intersection(b, a)
  {
  }

  /** A rectangle meets itself in itself. */
  lemma IntersectionSelf(r: TextureArea)
    ensures Intersection(r, r) == Some(r)
  {
  }

  /** The intersection lies inside both rectangles. */
  lemma IntersectionInsideBoth(a: TextureArea, b: TextureArea)
    requires Intersection(a, b).Some?
    ensures forall px, py :: ContainsPoint(Intersection(a, b).value, px, py) ==> ContainsPoint(a, px, py) && ContainsPoint(b, px, py)
  {
  }
}
