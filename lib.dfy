/**
 * The older API's value types (src/lib.rs): texture areas and destinations,
 * non-empty strings, the clipping rectangle algebra and the events handed to
 * the application.
 */
module LegacyApi {
  import opened Ints
  import Wrappers
  import Colors

  datatype TextureArea = TextureArea(x: int, y: int, w: NonZeroU32, h: NonZeroU32)

  /** Real numbers stand in for the finite f32 values; the model only passes them on. */
  datatype TextureAreaF = TextureAreaF(x: real, y: real, w: real, h: real)

  /** The angle is an f32 number of degrees clockwise in the source. */
  datatype TextureRotation = TextureRotation(angle: real, point: Wrappers.Option<(int, int)>, flipHorizontal: bool, flipVertical: bool)

  datatype TextureRotationF = TextureRotationF(angle: real, point: Wrappers.Option<(real, real)>, flipHorizontal: bool, flipVertical: bool)

  /** Where and how a copy is placed; sdl2's `Color` has the same four channels as `Colors.Color`. */
  datatype TextureDestination =
    | Int(area: TextureArea, rotation: Wrappers.Option<TextureRotation>, color: Colors.Color)
    | Float(areaF: TextureAreaF, rotationF: Wrappers.Option<TextureRotationF>, color: Colors.Color)

  /** `From<TextureArea> for TextureDestination`: integer placement, no rotation, white. */
  function DestinationFromArea(area: TextureArea): (d: TextureDestination)
    ensures d.Int? && d.area == area && d.rotation.None? && d.color == Colors.WHITE
  {
    Int(area, Wrappers.None, Colors.WHITE)
  }

  /** `From<TextureAreaF> for TextureDestination`: float placement, no rotation, white. */
  function DestinationFromAreaF(area: TextureAreaF): (d: TextureDestination)
    ensures d.Float? && d.areaF == area && d.rotationF.None? && d.color == Colors.WHITE
  {
    Float(area, Wrappers.None, Colors.WHITE)
  }

  datatype NonEmptyStr = NonEmptyStr(s: string)

  /** `TryInto<NonEmptyStr> for &str` */
  function TryIntoNonEmptyStr(s: string): (r: Wrappers.Result<NonEmptyStr, string>)
    ensures r.Err? <==> |s| == 0
    ensures r.Err? ==> r.error == "empty str"
    ensures r.Ok? ==> r.value.s == s && |r.value.s| > 0
  {
    if |s| == 0 then Wrappers.Err("empty str") else Wrappers.Ok(NonEmptyStr(s))
  }

  datatype ClippingRect = Some(area: TextureArea) | Zero | None

  /** `ClippingRect::intersection` */
  function Intersection(c: ClippingRect, other: ClippingRect): ClippingRect
  {
    match c
    case Zero => Zero
    case None => other
    case Some(selfRect) =>
      match other
      case Zero => Zero
      case None => c
      case Some(rect) =>
        var x1 := Max(selfRect.x, rect.x);
        var y1 := Max(selfRect.y, rect.y);
        var x2 := Min(selfRect.x + selfRect.w, rect.x + rect.w);
        var y2 := Min(selfRect.y + selfRect.h, rect.y + rect.h);
        if x2 > x1 && y2 > y1 then Some(TextureArea(x1, y1, x2 - x1, y2 - y1))
        else Zero
  }

  /**
   * The points a clip lets through, as the type's documentation describes it:
   * a rectangle its half-open area, Zero nothing, None everything. The source
   * has no such method; it is the meaning the algebra is checked against.
   */
  ghost predicate Passes(c: ClippingRect, px: int, py: int)
  {
    match c
    case Some(a) => a.x <= px < a.x + a.w && a.y <= py < a.y + a.h
    case Zero => false
    case None => true
  }

  /** Zero absorbs and None is neutral, on either side. */
  lemma IntersectionZeroAndNone(c: ClippingRect)
    ensures Intersection(Zero, c) == Zero && Intersection(c, Zero) == Zero
    ensures Intersection(None, c) == c && Intersection(c, None) == c
  {
  }

  /** Two rectangles give a positive-area overlap, or Zero when they do not overlap. */
  lemma IntersectionOfRects(a: TextureArea, b: TextureArea)
    ensures Intersection(Some(a), Some(b)).Some? || Intersection(Some(a), Some(b)).Zero?
    ensures Intersection(Some(a), Some(b)).Zero?
        <==> Max(a.x, b.x) >= Min(a.x + a.w, b.x + b.w) || Max(a.y, b.y) >= Min(a.y + a.h, b.y + b.h)
  {
  }

  /** A point passes the intersection of two clips exactly when it passes both. */
  lemma IntersectionPasses(a: ClippingRect, b: ClippingRect, px: int, py: int)
    ensures Passes(Intersection(a, b), px, py) <==> Passes(a, px, py) && Passes(b, px, py)
  {
  }

  lemma IntersectionCommutative(a: ClippingRect, b: ClippingRect)
    ensures Intersection(a, b) == Intersection(b, a)
  {
  }

  /** Window size change, with the new size. */
  datatype Window = Window(width: NonZeroU32, height: NonZeroU32)

  /** State of the left mouse button, at unsigned coordinates. */
  datatype MouseEvent = MouseEvent(x: U32, y: U32, down: bool, changed: bool)

  datatype KeyEvent = KeyEvent(key: Byte, down: bool)

  datatype Event = Quit | WindowEvent(window: Window) | Mouse(mouse: MouseEvent) | Key(keyEvent: KeyEvent)
}
