/**
 * The layout scroller (src/ui/layout/scroller.rs), the older scroller that
 * keeps its drag state and scroll in its own fields and gathers wheel
 * movement over a frame before applying it.
 */
module LayoutScroller {
  import opened Wrappers
  import Widgets
  import TextureAreas
  import Clipping
  import SG = ScrollGeometry

  /** Pixels per wheel step. */
  const WHEEL_STEP: int := 7

  /** `apply_scroll_restrictions` (note its y-before-x argument order): both axes follow the reference rule. */
  method ApplyScrollRestrictions(positionForContained: TextureAreas.TextureArea, eventPosition: TextureAreas.TextureArea,
                                 scrollY: int, scrollX: int)
    returns (newY: int, newX: int)
    ensures newY == SG.RestrictedScroll(positionForContained.y, positionForContained.h, eventPosition.y, eventPosition.h, scrollY)
    ensures newX == SG.RestrictedScroll(positionForContained.x, positionForContained.w, eventPosition.x, eventPosition.w, scrollX)
    ensures SG.InFrame(positionForContained.y, positionForContained.h, eventPosition.y, eventPosition.h, newY)
    ensures SG.InFrame(positionForContained.x, positionForContained.w, eventPosition.x, eventPosition.w, newX)
  {
    newY, newX := scrollY, scrollX;
    var cx := positionForContained.x + scrollX;
    var cy := positionForContained.y + scrollY;
    var ch: int := positionForContained.h;
    var cw: int := positionForContained.w;
    var eh: int := eventPosition.h;
    var ew: int := eventPosition.w;

    if ch < eh {
      var violatingTop := cy < eventPosition.y;
      var violatingBottom := cy + ch > eventPosition.y + eh;
      if violatingTop {
        newY := newY + (eventPosition.y - cy);
      } else if violatingBottom {
        newY := newY - ((cy + ch) - (eventPosition.y + eh));
      }
    } else {
      var downFromTop := cy > eventPosition.y;
      var upFromBottom := cy + ch < eventPosition.y + eh;
      if downFromTop {
        newY := newY + (eventPosition.y - cy);
      } else if upFromBottom {
        newY := newY - ((cy + ch) - (eventPosition.y + eh));
      }
    }

    if cw < ew {
      var violatingLeft := cx < eventPosition.x;
      var violatingRight := cx + cw > eventPosition.x + ew;
      if violatingLeft {
        newX := newX + (eventPosition.x - cx);
      } else if violatingRight {
        newX := newX - ((cx + cw) - (eventPosition.x + ew));
      }
    } else {
      var leftFromRight := cx > eventPosition.x;
      var rightFromLeft := cx + cw < eventPosition.x + ew;
      if leftFromRight {
        newX := newX + (eventPosition.x - cx);
      } else if rightFromLeft {
        newX := newX - ((cx + cw) - (eventPosition.x + ew));
      }
    }
    SG.RestrictedScrollInFrame(positionForContained.y, positionForContained.h, eventPosition.y, eventPosition.h, scrollY);
    SG.RestrictedScrollInFrame(positionForContained.x, positionForContained.w, eventPosition.x, eventPosition.w, scrollX);
  }

  datatype Settings = Settings(dragDeadzone: nat, scrollXEnabled: bool, scrollYEnabled: bool)

  /** The state the event loop carries: the drag, the scroll, and the wheel movement gathered so far. */
  datatype Frame = Frame(drag: SG.DragState, scrollX: int, scrollY: int, wheelX: int, wheelY: int)

  /** What one event does: the next state and whether its consumption is deferred. */
  datatype StepEffect = StepEffect(next: Frame, defer: bool)

  predicate InsideAt(pos: TextureAreas.TextureArea, clip: Clipping.ClippingArea, x: int, y: int)
  {
    TextureAreas.ContainsPoint(pos, x, y) && Clipping.ContainsPoint(clip, x, y)
  }

  /** One pass of the event loop of `update`. */
  function Step(s: Settings, pos: TextureAreas.TextureArea, clip: Clipping.ClippingArea, f: Frame, u: Widgets.UIEvent): StepEffect
  {
    if !Widgets.Available(u) then StepEffect(f, false)
    else match u.e
      case MouseWheel(m) =>
        if InsideAt(pos, clip, m.x, m.y)
        then StepEffect(f.(wheelX := f.wheelX + m.wheelDx * WHEEL_STEP, wheelY := f.wheelY + m.wheelDy * WHEEL_STEP), false)
        else StepEffect(f, false)
      case Mouse(m) =>
        if !m.down then StepEffect(f.(drag := SG.None), false)
        else
          var o := SG.Press(s.dragDeadzone, s.scrollXEnabled, s.scrollYEnabled, f.drag, m.changed && InsideAt(pos, clip, m.x, m.y), m.x, m.y, f.scrollX, f.scrollY);
          StepEffect(f.(drag := o.drag, scrollX := o.scrollX, scrollY := o.scrollY), !o.drag.None?)
      case _ => StepEffect(f, false)
  }

  function FrameAfter(s: Settings, pos: TextureAreas.TextureArea, clip: Clipping.ClippingArea, f: Frame, us: seq<Widgets.UIEvent>): Frame
  {
    if |us| == 0 then f else Step(s, pos, clip, FrameAfter(s, pos, clip, f, us[..|us| - 1]), us[|us| - 1]).next
  }

  function DeferredAt(s: Settings, pos: TextureAreas.TextureArea, clip: Clipping.ClippingArea, f: Frame, us: seq<Widgets.UIEvent>, k: nat): bool
    requires k < |us|
  {
    Step(s, pos, clip, FrameAfter(s, pos, clip, f, us[..k]), us[k]).defer
  }

  /** The wheel total is the sum of the wheel steps of the available wheel events inside the scroller. */
  function WheelTotal(pos: TextureAreas.TextureArea, clip: Clipping.ClippingArea, us: seq<Widgets.UIEvent>): (t: (int, int))
  {
    if |us| == 0 then (0, 0)
    else
      var t0 := WheelTotal(pos, clip, us[..|us| - 1]);
      var u := us[|us| - 1];
      if Widgets.Available(u) && u.e.MouseWheel? && InsideAt(pos, clip, u.e.wheel.x, u.e.wheel.y)
      then (t0.0 + u.e.wheel.wheelDx * WHEEL_STEP, t0.1 + u.e.wheel.wheelDy * WHEEL_STEP)
      else t0
  }

  /** The gathered wheel movement does not depend on the drag: it is the wheel total, added to what there was. */
  lemma {:induction false} WheelGathered(s: Settings, pos: TextureAreas.TextureArea, clip: Clipping.ClippingArea, f: Frame, us: seq<Widgets.UIEvent>)
    ensures FrameAfter(s, pos, clip, f, us).wheelX == f.wheelX + WheelTotal(pos, clip, us).0
    ensures FrameAfter(s, pos, clip, f, us).wheelY == f.wheelY + WheelTotal(pos, clip, us).1
  {
    if |us| > 0 {
      WheelGathered(s, pos, clip, f, us[..|us| - 1]);
    }
  }

  /** A release always ends the drag and is never consumed; a press is deferred exactly when a drag is pending or running after it. */
  lemma {:induction false} DeferredOnlyWhileDragging(s: Settings, pos: TextureAreas.TextureArea, clip: Clipping.ClippingArea, f: Frame, us: seq<Widgets.UIEvent>, k: nat)
    requires k < |us|
    ensures DeferredAt(s, pos, clip, f, us, k) <==>
      Widgets.Available(us[k]) && us[k].e.Mouse? && us[k].e.mouse.down && !FrameAfter(s, pos, clip, f, us[..k + 1]).drag.None?
  {
    assert us[..k + 1][..k] == us[..k];
  }

  /** The scroll the wheel total gives: the wheel moves the content one way when it overflows the viewport and the other way when it fits. */
  function WheelApplied(contentLen: nat, viewLen: nat, scroll: int, wheel: int): int
  {
    scroll + (if contentLen > viewLen then 1 else -1) * wheel
  }

  /** The finished scroll along one axis. */
  function FinalScroll(restrict: bool, contentPos: int, contentLen: nat, viewPos: int, viewLen: nat, scroll: int, wheel: int): int
  {
    var wheeled := WheelApplied(contentLen, viewLen, scroll, wheel);
    if restrict then SG.RestrictedScroll(contentPos, contentLen, viewPos, viewLen, wheeled) else wheeled
  }

  /** With restriction on, the content ends in frame whatever the wheel and drag did. */
  lemma FinalScrollInFrame(contentPos: int, contentLen: nat, viewPos: int, viewLen: nat, scroll: int, wheel: int)
    ensures SG.InFrame(contentPos, contentLen, viewPos, viewLen, FinalScroll(true, contentPos, contentLen, viewPos, viewLen, scroll, wheel))
  {
    SG.RestrictedScrollInFrame(contentPos, contentLen, viewPos, viewLen, WheelApplied(contentLen, viewLen, scroll, wheel));
  }

  function Finished(s: Settings, pos: TextureAreas.TextureArea, clip: Clipping.ClippingArea, f: Frame, us: seq<Widgets.UIEvent>, k: nat, applyDeferred: bool): Widgets.UIEvent
    requires k < |us|
  {
    if applyDeferred && DeferredAt(s, pos, clip, f, us, k) then Widgets.MarkedByWidget(us[k]) else us[k]
  }

  class Scroller {
    var dragState: SG.DragState
    var dragDeadzone: nat
    var scrollXEnabled: bool
    var scrollYEnabled: bool
    var scrollX: int
    var scrollY: int
    /** Whether to keep the content in frame. */
    var restrictScroll: bool
    var clippingRectForContained: Clipping.ClippingArea

    /** `Scroller::new`: not dragging, no scroll, a dead zone of 10, restriction on. */
    constructor (scrollXEnabled: bool, scrollYEnabled: bool)
      ensures dragState == SG.None && dragDeadzone == 10
      ensures this.scrollXEnabled == scrollXEnabled && this.scrollYEnabled == scrollYEnabled
      ensures scrollX == 0 && scrollY == 0 && restrictScroll && clippingRectForContained == Clipping.None
    {
      dragState := SG.None;
      dragDeadzone := 10;
      this.scrollXEnabled := scrollXEnabled;
      this.scrollYEnabled := scrollYEnabled;
      scrollX := 0;
      scrollY := 0;
      restrictScroll := true;
      clippingRectForContained := Clipping.None;
    }

    function CurrentSettings(): Settings
      reads this
    {
      Settings(dragDeadzone, scrollXEnabled, scrollYEnabled)
    }

    ghost predicate ScannedUpTo(s: Settings, pos: TextureAreas.TextureArea, clip: Clipping.ClippingArea, f0: Frame,
                                us: seq<Widgets.UIEvent>, deferred: seq<bool>, p: nat, wheelX: int, wheelY: int)
      requires p <= |us| == |deferred|
      reads this
    {
      && FrameAfter(s, pos, clip, f0, us[..p]) == Frame(dragState, scrollX, scrollY, wheelX, wheelY)
      && (forall k :: 0 <= k < p ==> deferred[k] == DeferredAt(s, pos, clip, f0, us, k))
    }

    /** One pass of the event loop, on event i; returns the updated wheel totals. */
    method ScanEvent(s: Settings, pos: TextureAreas.TextureArea, clip: Clipping.ClippingArea, ghost f0: Frame, ghost us: seq<Widgets.UIEvent>,
                     events: array<Widgets.UIEvent>, deferred: array<bool>, i: nat, wheelX: int, wheelY: int)
      returns (wheelX': int, wheelY': int)
      requires i < |us| == deferred.Length && events[..] == us
      requires ScannedUpTo(s, pos, clip, f0, us, deferred[..], i, wheelX, wheelY)
      modifies this`dragState, this`scrollX, this`scrollY, deferred
      ensures ScannedUpTo(s, pos, clip, f0, us, deferred[..], i + 1, wheelX', wheelY')
    {
      assert us[..i + 1][..i] == us[..i];
      var effect := Step(s, pos, clip, Frame(dragState, scrollX, scrollY, wheelX, wheelY), events[i]);
      dragState, scrollX, scrollY := effect.next.drag, effect.next.scrollX, effect.next.scrollY;
      wheelX', wheelY' := effect.next.wheelX, effect.next.wheelY;
      deferred[i] := effect.defer;
    }

    /** The second loop of `update`: the deferred consumptions. */
    static method ApplyDeferred(s: Settings, pos: TextureAreas.TextureArea, clip: Clipping.ClippingArea, ghost f0: Frame, ghost us: seq<Widgets.UIEvent>,
                                events: array<Widgets.UIEvent>, deferred: array<bool>)
      requires events.Length == |us| == deferred.Length
      requires events[..] == us
      requires forall k :: 0 <= k < events.Length ==> deferred[k] == DeferredAt(s, pos, clip, f0, us, k)
      modifies events
      ensures forall k :: 0 <= k < events.Length ==> events[k] == Finished(s, pos, clip, f0, us, k, true)
    {
      var j := 0;
      while j < deferred.Length
        invariant 0 <= j <= deferred.Length
        invariant forall k :: 0 <= k < j ==> events[k] == Finished(s, pos, clip, f0, us, k, true)
        invariant forall k :: j <= k < events.Length ==> events[k] == us[k]
      {
        if deferred[j] {
          Widgets.SetConsumed(events, j);
        }
        j := j + 1;
      }
    }

    /**
     * `update`. `contentArea` is what sizing gives as the content's
     * position (rounded), `containedResult` what updating the contained
     * widget returns.
     */
    method Update(event: Widgets.WidgetUpdateEvent, contentArea: Result<Wrappers.Option<TextureAreas.TextureArea>, string>,
                  pos: Wrappers.Option<TextureAreas.TextureArea>, containedResult: Result<bool, string>)
      returns (r: Result<bool, string>)
      modifies this, event.events
      ensures CurrentSettings() == old(CurrentSettings()) && restrictScroll == old(restrictScroll)
      ensures pos.None? ==>
        && r == containedResult && clippingRectForContained == old(clippingRectForContained)
        && dragState == old(dragState) && scrollX == old(scrollX) && scrollY == old(scrollY)
        && event.events[..] == old(event.events[..])
      ensures pos.Some? ==>
        var s := CurrentSettings();
        var clip := event.clippingRect;
        var f0 := Frame(old(dragState), old(scrollX), old(scrollY), 0, 0);
        var us := old(event.events[..]);
        var f := FrameAfter(s, pos.value, clip, f0, us);
        && dragState == f.drag
        && (contentArea.Err? ==>
              && r == Err(contentArea.error) && scrollX == f.scrollX && scrollY == f.scrollY
              && clippingRectForContained == old(clippingRectForContained) && event.events[..] == us)
        && (contentArea == Ok(Wrappers.None) ==>
              && r == containedResult && scrollX == f.scrollX && scrollY == f.scrollY
              && clippingRectForContained == old(clippingRectForContained) && event.events[..] == us)
        && (contentArea.Ok? && contentArea.value.Some? ==>
              var c := contentArea.value.value;
              && scrollX == FinalScroll(restrictScroll, c.x, c.w, pos.value.x, pos.value.w, f.scrollX, f.wheelX)
              && scrollY == FinalScroll(restrictScroll, c.y, c.h, pos.value.y, pos.value.h, f.scrollY, f.wheelY)
              && clippingRectForContained == Clipping.IntersectArea(clip, Wrappers.Some(pos.value))
              && r == containedResult
              && (containedResult.Err? ==> event.events[..] == us)
              && (containedResult.Ok? ==> forall k :: 0 <= k < |us| ==> event.events[k] == Finished(s, pos.value, clip, f0, us, k, true)))
    {
      if pos.None? {
        return containedResult;
      }
      var s := CurrentSettings();
      var clip := event.clippingRect;
      var events := event.events;
      ghost var us := events[..];
      ghost var f0 := Frame(dragState, scrollX, scrollY, 0, 0);
      var deferred := new bool[events.Length](_ => false);
      var wheelX, wheelY := 0, 0;
      var i := 0;
      while i < events.Length
        invariant 0 <= i <= events.Length
        invariant s == CurrentSettings() && restrictScroll == old(restrictScroll)
        invariant clippingRectForContained == old(clippingRectForContained)
        invariant events[..] == us
        invariant ScannedUpTo(s, pos.value, clip, f0, us, deferred[..], i, wheelX, wheelY)
      {
        wheelX, wheelY := ScanEvent(s, pos.value, clip, f0, us, events, deferred, i, wheelX, wheelY);
        i := i + 1;
      }
      assert us[..events.Length] == us;

      if contentArea.Err? {
        return Err(contentArea.error);
      }
      if contentArea.value.None? {
        return containedResult;
      }
      var c := contentArea.value.value;
      var yMultiplier := if c.h > pos.value.h then 1 else -1;
      var xMultiplier := if c.w > pos.value.w then 1 else -1;
      scrollX := scrollX + xMultiplier * wheelX;
      scrollY := scrollY + yMultiplier * wheelY;
      if restrictScroll {
        scrollY, scrollX := ApplyScrollRestrictions(c, pos.value, scrollY, scrollX);
      }
      clippingRectForContained := Clipping.IntersectArea(clip, Wrappers.Some(pos.value));
      if containedResult.Err? {
        return containedResult;
      }
      ApplyDeferred(s, pos.value, clip, f0, us, events, deferred);
      r := containedResult;
    }
  }
}
