/**
 * The scroller widget (src/ui/widget/scroller.rs): translates its content by
 * a scroll offset driven by the mouse wheel and by click-and-drag, and keeps
 * the content in frame. Its drag state and scroll live in cells that persist
 * between frames; here they are fields.
 */
module ScrollerWidget {
  import opened Wrappers
  import Widgets
  import TextureRects
  import TextureAreas
  import Clipping
  import SG = ScrollGeometry

  /** `SCROLLER_DRAG_DEAD_ZONE_DEFAULT` */
  const SCROLLER_DRAG_DEAD_ZONE_DEFAULT: nat := 10
  /** `SCROLLER_SCROLL_WHEEL_SENSITIVITY_DEFAULT` */
  const SCROLLER_SCROLL_WHEEL_SENSITIVITY_DEFAULT: int := 20

  /** `f32::round`: to the nearest integer, halves away from zero. */
  function RoundHalfAway(x: real): int
  {
    if x >= 0.0 then (x + 0.5).Floor else -((-x + 0.5).Floor)
  }

  /**
   * One axis of `apply_scroll_restrictions`: with a lock, content shorter
   * than the viewport is placed at the lock's fraction of the free space;
   * otherwise the reference rule applies.
   */
  function AxisRestriction(contentPos: int, contentLen: nat, viewPos: int, viewLen: nat, scroll: int, lock: Option<real>): int
  {
    if contentLen < viewLen && lock.Some? then RoundHalfAway((viewLen - contentLen) as real * lock.value)
    else SG.RestrictedScroll(contentPos, contentLen, viewPos, viewLen, scroll)
  }

  /** Without a lock (or with content at least as long as the viewport) the restricted content is in frame. */
  lemma AxisRestrictionInFrame(contentPos: int, contentLen: nat, viewPos: int, viewLen: nat, scroll: int, lock: Option<real>)
    requires lock.None? || contentLen >= viewLen
    ensures SG.InFrame(contentPos, contentLen, viewPos, viewLen, AxisRestriction(contentPos, contentLen, viewPos, viewLen, scroll, lock))
    ensures var r := AxisRestriction(contentPos, contentLen, viewPos, viewLen, scroll, lock);
      AxisRestriction(contentPos, contentLen, viewPos, viewLen, r, lock) == r
  {
    SG.RestrictedScrollInFrame(contentPos, contentLen, viewPos, viewLen, scroll);
    SG.RestrictedScrollIdempotent(contentPos, contentLen, viewPos, viewLen, scroll);
  }

  /** A locked axis ignores the scroll it had, so locking is idempotent too. */
  lemma AxisRestrictionLocked(contentPos: int, contentLen: nat, viewPos: int, viewLen: nat, scroll: int, other: int, lock: Option<real>)
    requires lock.Some? && contentLen < viewLen
    ensures AxisRestriction(contentPos, contentLen, viewPos, viewLen, scroll, lock) == AxisRestriction(contentPos, contentLen, viewPos, viewLen, other, lock)
  {
  }

  /**
   * `apply_scroll_restrictions`: the y block writes only the new y scroll
   * and the x block only the new x scroll.
   */
  method ApplyScrollRestrictions(positionForContained: TextureRects.TextureRect, eventPosition: TextureRects.TextureRect,
                                 scrollX: int, scrollY: int, lockY: Option<real>, lockX: Option<real>)
    returns (newX: int, newY: int)
    ensures newY == AxisRestriction(positionForContained.y, positionForContained.h, eventPosition.y, eventPosition.h, scrollY, lockY)
    ensures newX == AxisRestriction(positionForContained.x, positionForContained.w, eventPosition.x, eventPosition.w, scrollX, lockX)
  {
    newX, newY := scrollX, scrollY;
    var cx := positionForContained.x + scrollX;
    var cy := positionForContained.y + scrollY;
    var ch: int := positionForContained.h;
    var cw: int := positionForContained.w;
    var eh: int := eventPosition.h;
    var ew: int := eventPosition.w;

    if ch < eh {
      if lockY.Some? {
        newY := RoundHalfAway((eh - ch) as real * lockY.value);
      } else {
        var violatingTop := cy < eventPosition.y;
        var violatingBottom := cy + ch > eventPosition.y + eh;
        if violatingTop {
          newY := newY + (eventPosition.y - cy);
        } else if violatingBottom {
          newY := newY - ((cy + ch) - (eventPosition.y + eh));
        }
      }
    } else {
      var downFromTop := cy > eventPosition.y;
      var upFromBottom := cy + ch < eventPosition.y + eh;
      if downFromTop {
        newY := newY + (eventPosition.y - cy);
      } else if upFromBottom {
        newY := newY - ((cy + ch) - (eventPosition.y + eh));
      }
    }

    if cw < ew {
      if lockX.Some? {
        newX := RoundHalfAway((ew - cw) as real * lockX.value);
      } else {
        var violatingLeft := cx < eventPosition.x;
        var violatingRight := cx + cw > eventPosition.x + ew;
        if violatingLeft {
          newX := newX + (eventPosition.x - cx);
        } else if violatingRight {
          newX := newX - ((cx + cw) - (eventPosition.x + ew));
        }
      }
    } else {
      var leftFromRight := cx > eventPosition.x;
      var rightFromLeft := cx + cw < eventPosition.x + ew;
      if leftFromRight {
        newX := newX + (eventPosition.x - cx);
      } else if rightFromLeft {
        newX := newX - ((cx + cw) - (eventPosition.x + ew));
      }
    }
  }

  /** The scroller's settings, which `update` reads but does not change. */
  datatype Settings = Settings(dragDeadzone: nat, scrollWheelSensitivity: int, scrollXEnabled: bool, scrollYEnabled: bool)

  /** The state the cells carry from event to event. */
  datatype Frame = Frame(drag: SG.DragState, scrollX: int, scrollY: int)

  /** What one event does: the next state, whether the event is consumed at once, and whether its consumption is deferred. */
  datatype StepEffect = StepEffect(next: Frame, consumeNow: bool, defer: bool)

  predicate InsideAt(pos: TextureRects.TextureRect, clip: Clipping.ClippingArea, x: int, y: int)
  {
    TextureRects.ContainsPoint(pos, x, y) && Clipping.ContainsPoint(clip, x, y)
  }

  /** One pass of the event loop of `update`. */
  function Step(s: Settings, pos: TextureRects.TextureRect, clip: Clipping.ClippingArea, f: Frame, u: Widgets.UIEvent): StepEffect
  {
    if !Widgets.Available(u) then StepEffect(f, false, false)
    else match u.e
      case MouseWheel(m) =>
        if InsideAt(pos, clip, m.x, m.y)
        then StepEffect(Frame(f.drag, f.scrollX - m.wheelDx * s.scrollWheelSensitivity, f.scrollY + m.wheelDy * s.scrollWheelSensitivity), false, false)
        else StepEffect(f, false, false)
      case Mouse(m) =>
        if !m.down then StepEffect(Frame(SG.None, f.scrollX, f.scrollY), f.drag.Dragging?, false)
        else
          var o := SG.Press(s.dragDeadzone, s.scrollXEnabled, s.scrollYEnabled, f.drag, m.changed && InsideAt(pos, clip, m.x, m.y), m.x, m.y, f.scrollX, f.scrollY);
          StepEffect(Frame(o.drag, o.scrollX, o.scrollY), false, !o.drag.None?)
      case _ => StepEffect(f, false, false)
  }

  /** The state after a run of events. */
  function FrameAfter(s: Settings, pos: TextureRects.TextureRect, clip: Clipping.ClippingArea, f: Frame, us: seq<Widgets.UIEvent>): Frame
  {
    if |us| == 0 then f else Step(s, pos, clip, FrameAfter(s, pos, clip, f, us[..|us| - 1]), us[|us| - 1]).next
  }

  /** What the k-th event of a frame does, given the state the earlier ones left. */
  function EffectAt(s: Settings, pos: TextureRects.TextureRect, clip: Clipping.ClippingArea, f: Frame, us: seq<Widgets.UIEvent>, k: nat): StepEffect
    requires k < |us|
  {
    Step(s, pos, clip, FrameAfter(s, pos, clip, f, us[..k]), us[k])
  }

  /** Wheel events move the content (x against the wheel, y with it); a release ends any drag and is consumed only if it ends a drag. */
  lemma StepWheelAndRelease(s: Settings, pos: TextureRects.TextureRect, clip: Clipping.ClippingArea, f: Frame, u: Widgets.UIEvent)
    requires Widgets.Available(u)
    ensures u.e.MouseWheel? && InsideAt(pos, clip, u.e.wheel.x, u.e.wheel.y) ==>
      Step(s, pos, clip, f, u) == StepEffect(Frame(f.drag, f.scrollX - u.e.wheel.wheelDx * s.scrollWheelSensitivity, f.scrollY + u.e.wheel.wheelDy * s.scrollWheelSensitivity), false, false)
    ensures u.e.Mouse? && !u.e.mouse.down ==>
      Step(s, pos, clip, f, u).next.drag.None? && (Step(s, pos, clip, f, u).consumeNow <==> f.drag.Dragging?)
    ensures Step(s, pos, clip, f, u).consumeNow ==> !Step(s, pos, clip, f, u).defer
  {
  }

  /** The event as the whole update leaves it: consumed at once, consumed once deferrals are applied, or untouched. */
  function Finished(s: Settings, pos: TextureRects.TextureRect, clip: Clipping.ClippingArea, f: Frame, us: seq<Widgets.UIEvent>, k: nat, applyDeferred: bool): Widgets.UIEvent
    requires k < |us|
  {
    var e := EffectAt(s, pos, clip, f, us, k);
    if e.consumeNow || (applyDeferred && e.defer) then Widgets.MarkedByWidget(us[k]) else us[k]
  }

  /** The scroller's rectangle as the clipping module's rectangle type. */
  function AsArea(r: TextureRects.TextureRect): TextureAreas.TextureArea
  {
    TextureAreas.TextureArea(r.x, r.y, r.w, r.h)
  }

  class Scroller {
    var dragDeadzone: nat
    var scrollWheelSensitivity: int
    var scrollXEnabled: bool
    var scrollYEnabled: bool
    /** The drag state and scroll cells. */
    var dragState: SG.DragState
    var scrollX: int
    var scrollY: int
    /** The lock fractions for content smaller than the viewport (a `MaxLenFailPolicy`'s value). */
    var lockSmallContentX: Option<real>
    var lockSmallContentY: Option<real>
    var clippingRectForContained: Clipping.ClippingArea

    /**
     * `Scroller::new`: default dead zone and sensitivity, both axes locked
     * with the `NEGATIVE` policy, whose value `negativePolicy` stands for.
     */
    constructor (scrollXEnabled: bool, scrollYEnabled: bool, dragState: SG.DragState, scrollX: int, scrollY: int, negativePolicy: real)
      ensures dragDeadzone == SCROLLER_DRAG_DEAD_ZONE_DEFAULT && scrollWheelSensitivity == SCROLLER_SCROLL_WHEEL_SENSITIVITY_DEFAULT
      ensures this.scrollXEnabled == scrollXEnabled && this.scrollYEnabled == scrollYEnabled
      ensures this.dragState == dragState && this.scrollX == scrollX && this.scrollY == scrollY
      ensures lockSmallContentX == Some(negativePolicy) && lockSmallContentY == Some(negativePolicy)
      ensures clippingRectForContained == Clipping.None
    {
      dragDeadzone := SCROLLER_DRAG_DEAD_ZONE_DEFAULT;
      scrollWheelSensitivity := SCROLLER_SCROLL_WHEEL_SENSITIVITY_DEFAULT;
      this.scrollXEnabled := scrollXEnabled;
      this.scrollYEnabled := scrollYEnabled;
      this.dragState := dragState;
      this.scrollX := scrollX;
      this.scrollY := scrollY;
      lockSmallContentX := Some(negativePolicy);
      lockSmallContentY := Some(negativePolicy);
      clippingRectForContained := Clipping.None;
    }

    function CurrentSettings(): Settings
      reads this
    {
      Settings(dragDeadzone, scrollWheelSensitivity, scrollXEnabled, scrollYEnabled)
    }

    /** The loop has handled the first p events of `us`. */
    ghost predicate ScannedUpTo(s: Settings, pos: TextureRects.TextureRect, clip: Clipping.ClippingArea, f0: Frame,
                                us: seq<Widgets.UIEvent>, now: seq<Widgets.UIEvent>, deferred: seq<bool>, p: nat)
      requires p <= |us| == |now| == |deferred|
      reads this
    {
      && FrameAfter(s, pos, clip, f0, us[..p]) == Frame(dragState, scrollX, scrollY)
      && (forall k :: 0 <= k < p ==> now[k] == Finished(s, pos, clip, f0, us, k, false) && deferred[k] == EffectAt(s, pos, clip, f0, us, k).defer)
      && (forall k :: p <= k < |us| ==> now[k] == us[k])
    }

    /** One pass of the event loop, on event i. */
    method ScanEvent(s: Settings, pos: TextureRects.TextureRect, clip: Clipping.ClippingArea, ghost f0: Frame, ghost us: seq<Widgets.UIEvent>,
                     events: array<Widgets.UIEvent>, deferred: array<bool>, i: nat)
      requires i < events.Length == |us| == deferred.Length
      requires ScannedUpTo(s, pos, clip, f0, us, events[..], deferred[..], i)
      modifies this`dragState, this`scrollX, this`scrollY, events, deferred
      ensures ScannedUpTo(s, pos, clip, f0, us, events[..], deferred[..], i + 1)
    {
      assert us[..i + 1][..i] == us[..i];
      var u := events[i];
      var effect := Step(s, pos, clip, Frame(dragState, scrollX, scrollY), u);
      dragState, scrollX, scrollY := effect.next.drag, effect.next.scrollX, effect.next.scrollY;
      if effect.consumeNow {
        Widgets.SetConsumed(events, i);
      }
      deferred[i] := effect.defer;
    }

    /** The first loop of `update`, over every event. */
    method ScanAll(s: Settings, pos: TextureRects.TextureRect, clip: Clipping.ClippingArea, events: array<Widgets.UIEvent>)
      returns (deferred: array<bool>)
      modifies this`dragState, this`scrollX, this`scrollY, events
      ensures fresh(deferred) && deferred.Length == events.Length
      ensures var f0 := Frame(old(dragState), old(scrollX), old(scrollY));
        && Frame(dragState, scrollX, scrollY) == FrameAfter(s, pos, clip, f0, old(events[..]))
        && (forall k :: 0 <= k < events.Length ==> events[k] == Finished(s, pos, clip, f0, old(events[..]), k, false))
        && (forall k :: 0 <= k < events.Length ==> deferred[k] == EffectAt(s, pos, clip, f0, old(events[..]), k).defer)
    {
      ghost var us := events[..];
      ghost var f0 := Frame(dragState, scrollX, scrollY);
      deferred := new bool[events.Length](_ => false);
      var i := 0;
      while i < events.Length
        invariant 0 <= i <= events.Length
        invariant ScannedUpTo(s, pos, clip, f0, us, events[..], deferred[..], i)
      {
        ScanEvent(s, pos, clip, f0, us, events, deferred, i);
        i := i + 1;
      }
      assert us[..events.Length] == us;
    }

    /** The second loop of `update`: the deferred consumptions, applied once the contained widget has updated. */
    static method ApplyDeferred(s: Settings, pos: TextureRects.TextureRect, clip: Clipping.ClippingArea, ghost f0: Frame, ghost us: seq<Widgets.UIEvent>,
                                events: array<Widgets.UIEvent>, deferred: array<bool>)
      requires events.Length == |us| == deferred.Length
      requires forall k :: 0 <= k < events.Length ==> events[k] == Finished(s, pos, clip, f0, us, k, false)
      requires forall k :: 0 <= k < events.Length ==> deferred[k] == EffectAt(s, pos, clip, f0, us, k).defer
      modifies events
      ensures forall k :: 0 <= k < events.Length ==> events[k] == Finished(s, pos, clip, f0, us, k, true)
    {
      var j := 0;
      while j < deferred.Length
        invariant 0 <= j <= deferred.Length
        invariant forall k :: 0 <= k < j ==> events[k] == Finished(s, pos, clip, f0, us, k, true)
        invariant forall k :: j <= k < events.Length ==> events[k] == Finished(s, pos, clip, f0, us, k, false)
      {
        if deferred[j] {
          Widgets.SetConsumed(events, j);
        }
        j := j + 1;
      }
    }

    /**
     * `update`. `pos` is the event's position on the integer grid,
     * `contentArea` what sizing gives as the content's position (rounded), and
     * `containedResult` what updating the contained widget returns.
     */
    method Update(event: Widgets.WidgetUpdateEvent, pos: Option<TextureRects.TextureRect>,
                  contentArea: Result<Option<TextureRects.TextureRect>, string>, containedResult: Result<bool, string>)
      returns (r: Result<bool, string>)
      modifies this, event.events
      ensures CurrentSettings() == old(CurrentSettings())
      ensures lockSmallContentX == old(lockSmallContentX) && lockSmallContentY == old(lockSmallContentY)
      ensures pos.None? ==>
        && r == containedResult && clippingRectForContained == Clipping.Zero
        && dragState == old(dragState) && scrollX == old(scrollX) && scrollY == old(scrollY)
        && event.events[..] == old(event.events[..])
      ensures pos.Some? ==>
        var s := CurrentSettings();
        var clip := event.clippingRect;
        var f0 := Frame(old(dragState), old(scrollX), old(scrollY));
        var us := old(event.events[..]);
        var f := FrameAfter(s, pos.value, clip, f0, us);
        && dragState == f.drag
        && (contentArea.Err? ==>
              && r == Err(contentArea.error) && scrollX == f.scrollX && scrollY == f.scrollY
              && clippingRectForContained == old(clippingRectForContained)
              && forall k :: 0 <= k < |us| ==> event.events[k] == Finished(s, pos.value, clip, f0, us, k, false))
        && (contentArea == Ok(None) ==>
              && r == containedResult && scrollX == f.scrollX && scrollY == f.scrollY
              && clippingRectForContained == Clipping.Zero
              && forall k :: 0 <= k < |us| ==> event.events[k] == Finished(s, pos.value, clip, f0, us, k, false))
        && (contentArea.Ok? && contentArea.value.Some? ==>
              var c := contentArea.value.value;
              && scrollX == AxisRestriction(c.x, c.w, pos.value.x, pos.value.w, f.scrollX, lockSmallContentX)
              && scrollY == AxisRestriction(c.y, c.h, pos.value.y, pos.value.h, f.scrollY, lockSmallContentY)
              && clippingRectForContained == Clipping.IntersectArea(clip, Some(AsArea(pos.value)))
              && r == containedResult
              && forall k :: 0 <= k < |us| ==> event.events[k] == Finished(s, pos.value, clip, f0, us, k, containedResult.Ok?))
    {
      if pos.None? {
        clippingRectForContained := Clipping.Zero;
        return containedResult;
      }
      var s := CurrentSettings();
      var clip := event.clippingRect;
      var events := event.events;
      ghost var us := events[..];
      ghost var f0 := Frame(dragState, scrollX, scrollY);
      var deferred := ScanAll(s, pos.value, clip, events);

      if contentArea.Err? {
        return Err(contentArea.error);
      }
      if contentArea.value.None? {
        clippingRectForContained := Clipping.Zero;
        return containedResult;
      }
      var c := contentArea.value.value;
      scrollX, scrollY := ApplyScrollRestrictions(c, pos.value, scrollX, scrollY, lockSmallContentY, lockSmallContentX);
      clippingRectForContained := Clipping.IntersectArea(clip, Some(AsArea(pos.value)));
      if containedResult.Err? {
        return containedResult;
      }
      ApplyDeferred(s, pos.value, clip, f0, us, events, deferred);
      r := containedResult;
    }
  }
}
