/**
 * Integer rectangles of positive area (src/core/texture_rect.rs), the
 * sources and destinations of texture copies. Coordinates are i32 and sizes
 * NonZeroU32 in the source; here coordinates are unbounded integers, so the
 * sums `x + w` are exact.
 */
module TextureRects {
  import opened Ints
  import opened Wrappers

  datatype TextureRect = TextureRect(x: int, y: int, w: NonZeroU32, h: NonZeroU32)

  /** Part of a texture to copy from. */
  datatype TextureSource = WholeTexture | Area(rect: TextureRect)

  /**
   * Rotation and flips of a copy. The angle is an f32 number of degrees
   * clockwise in the source; the code modelled here only uses whole degrees.
   */
  datatype TextureRotation = TextureRotation(angle: int, point: Option<(int, int)>, flipHorizontal: bool, flipVertical: bool)

  datatype TextureDestination = TextureDestination(rect: TextureRect, rotation: Option<TextureRotation>)

  /** `TextureRect::new`: the checked constructor. */
  function New(x: I32, y: I32, w: U32, h: U32): (r: Option<TextureRect>)
    ensures r.None? <==> w == 0 || h == 0
    ensures r.Some? ==> r.value.x == x && r.value.y == y && r.value.w == w && r.value.h == h
  {
    if w == 0 then None
    else if h == 0 then None
    else Some(TextureRect(x, y, w, h))
  }

  /** `contains_point`: half-open on both axes. */
  predicate ContainsPoint(r: TextureRect, px: int, py: int)
  {
    var insideX := px >= r.x && px < r.x + r.w;
    insideX && (py >= r.y && py < r.y + r.h)
  }

  /** `intersection` */
  function Intersection(a: TextureRect, b: TextureRect): Option<TextureRect>
  {
    var x1 := Max(a.x, b.x);
    var y1 := Max(a.y, b.y);
    var x2 := Min(a.x + a.w, b.x + b.w);
    var y2 := Min(a.y + a.h, b.y + b.h);
    if x1 < x2 && y1 < y2 then Some(TextureRect(x1, y1, x2 - x1, y2 - y1))
    else None
  }

  /** `size` */
  function Size(r: TextureRect): (s: (NonZeroU32, NonZeroU32))
    ensures s.0 == r.w && s.1 == r.h
  {
    (r.w, r.h)
  }

  /** `From<TextureRect> for TextureSource` */
  function SourceFrom(r: TextureRect): (s: TextureSource)
    ensures s.Area? && s.rect == r
  {
    Area(r)
  }

  /** `From<TextureRect> for TextureDestination`: the whole rectangle, no rotation. */
  function DestinationFrom(r: TextureRect): (d: TextureDestination)
    ensures d.rect == r && d.rotation.None?
  {
    TextureDestination(r, None)
  }

  /** A point lies in the intersection exactly when it lies in both rectangles. */
  lemma IntersectionContainsPoint(a: TextureRect, b: TextureRect, px: int, py: int)
    ensures (Intersection(a, b).Some? && ContainsPoint(Intersection(a, b).value, px, py))
        <==> ContainsPoint(a, px, py) && ContainsPoint(b, px, py)
  {
  }

  /** There is no intersection exactly when the rectangles share no point. */
  lemma IntersectionNoneIffDisjoint(a: TextureRect, b: TextureRect)
    ensures Intersection(a, b).None? <==> forall px, py :: !(ContainsPoint(a, px, py) && ContainsPoint(b, px, py))
  {
    if Intersection(a, b).Some? {
      var i := Intersection(a, b).value;
      assert ContainsPoint(i, i.x, i.y);
      IntersectionContainsPoint(a, b, i.x, i.y);
    } else {
      forall px, py ensures !(ContainsPoint(a, px, py) && ContainsPoint(b, px, py)) {
        IntersectionContainsPoint(a, b, px, py);
      }
    }
  }

  lemma IntersectionCommutative(a: TextureRect, b: TextureRect)
    ensures Intersection(a, b) == Intersection(b, a)
  {
  }

  /** A rectangle meets itself in itself. */
  lemma IntersectionSelf(r: TextureRect)
    ensures Intersection(r, r) == Some(r)
  {
  }

  /** The intersection lies inside both rectangles. */
  lemma IntersectionInsideBoth(a: TextureRect, b: TextureRect)
    requires Intersection(a, b).Some?
    ensures forall px, py :: ContainsPoint(Intersection(a, b).value, px, py) ==> ContainsPoint(a, px, py) && ContainsPoint(b, px, py)
  {
  }
}
