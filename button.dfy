/**
 * The button widget (src/ui/widget/button.rs): three contained widgets, one
 * per state, and a `released` flag the application reads after each frame.
 */
module ButtonWidget {
  import opened Wrappers
  import Widgets
  import TextureRects
  import Clipping

  datatype ButtonState = Idle | Hovered | Pressed

  /** Which contained widget sizes the button. */
  datatype ButtonInheritSizing = InheritIdle | InheritHovered | InheritPressed | InheritCurrent

  /** The three contained widgets. */
  datatype ContainedWidget = IdleWidget | HoveredWidget | PressedWidget

  /** `current_widget`: the widget for the current state. */
  function CurrentWidget(state: ButtonState): ContainedWidget
  {
    match state
    case Idle => IdleWidget
    case Hovered => HoveredWidget
    case Pressed => PressedWidget
  }

  /** `inherit_sizing_widget` */
  function InheritSizingWidget(choice: ButtonInheritSizing, state: ButtonState): ContainedWidget
  {
    match choice
    case InheritIdle => IdleWidget
    case InheritHovered => HoveredWidget
    case InheritPressed => PressedWidget
    case InheritCurrent => CurrentWidget(state)
  }

  /**
   * Each state has its own widget, and sizing follows the state only for the
   * `Current` choice; the other choices ignore it.
   */
  lemma WidgetChoice(choice: ButtonInheritSizing, s: ButtonState, t: ButtonState)
    ensures CurrentWidget(s) == CurrentWidget(t) <==> s == t
    ensures choice == InheritCurrent ==> InheritSizingWidget(choice, s) == CurrentWidget(s)
    ensures choice != InheritCurrent ==> InheritSizingWidget(choice, s) == InheritSizingWidget(choice, t)
  {
  }

  /** A mouse event at a point inside the button and inside the clip. */
  predicate Inside(area: TextureRects.TextureRect, clip: Clipping.ClippingArea, u: Widgets.UIEvent)
    requires u.e.Mouse?
  {
    TextureRects.ContainsPoint(area, u.e.mouse.x, u.e.mouse.y) && Clipping.ContainsPoint(clip, u.e.mouse.x, u.e.mouse.y)
  }

  /** The events the update loop looks at: available mouse events. */
  predicate Examined(u: Widgets.UIEvent)
  {
    Widgets.Available(u) && u.e.Mouse?
  }

  /** The button takes a press, and a release that is a change, at a point inside. */
  predicate Takes(area: TextureRects.TextureRect, clip: Clipping.ClippingArea, u: Widgets.UIEvent)
  {
    Examined(u) && Inside(area, clip, u) && (u.e.mouse.down || u.e.mouse.changed)
  }

  /** A release edge inside the button: this sets `released`, whether or not a press came first. */
  predicate Releases(area: TextureRects.TextureRect, clip: Clipping.ClippingArea, u: Widgets.UIEvent)
  {
    Examined(u) && Inside(area, clip, u) && !u.e.mouse.down && u.e.mouse.changed
  }

  /** What one event does to the state. */
  function Step(area: TextureRects.TextureRect, clip: Clipping.ClippingArea, s: ButtonState, u: Widgets.UIEvent): ButtonState
  {
    if !Examined(u) then s
    else if !Inside(area, clip, u) then Idle
    else if u.e.mouse.down then Pressed
    else Hovered
  }

  /** The state after a frame's events, in order. */
  function StateAfter(area: TextureRects.TextureRect, clip: Clipping.ClippingArea, s: ButtonState, us: seq<Widgets.UIEvent>): ButtonState
  {
    if |us| == 0 then s else Step(area, clip, StateAfter(area, clip, s, us[..|us| - 1]), us[|us| - 1])
  }

  /** The event as the update leaves it. */
  function Handled(area: TextureRects.TextureRect, clip: Clipping.ClippingArea, u: Widgets.UIEvent): Widgets.UIEvent
  {
    if Takes(area, clip, u) then Widgets.MarkedByWidget(u) else u
  }

  /** The last examined event decides the state; with none, the state is kept. */
  lemma {:induction false} LastExaminedDecides(area: TextureRects.TextureRect, clip: Clipping.ClippingArea, s: ButtonState, us: seq<Widgets.UIEvent>, j: int)
    requires -1 <= j < |us|
    requires j >= 0 ==> Examined(us[j])
    requires forall k :: j < k < |us| ==> !Examined(us[k])
    ensures StateAfter(area, clip, s, us) == if j < 0 then s else Step(area, clip, s, us[j])
  {
    if |us| > 0 && j < |us| - 1 {
      LastExaminedDecides(area, clip, s, us[..|us| - 1], j);
    } else if |us| > 0 {
      assert j == |us| - 1;
      assert Step(area, clip, StateAfter(area, clip, s, us[..|us| - 1]), us[j]) == Step(area, clip, s, us[j]);
    }
  }

  class Button {
    var state: ButtonState
    /** The `released` cell the application shares with the button. */
    var released: bool
    var sizingInheritChoice: ButtonInheritSizing

    /** `Button::new`: idle, sized by the current widget. */
    constructor (released: bool)
      ensures state == Idle && this.released == released && sizingInheritChoice == InheritCurrent
    {
      state := Idle;
      this.released := released;
      sizingInheritChoice := InheritCurrent;
    }

    /**
     * `update`. `area` is the event's position rounded to the integer grid
     * (None when it has no area); `containedResult` is what updating the
     * current contained widget returns.
     */
    method Update(event: Widgets.WidgetUpdateEvent, area: Option<TextureRects.TextureRect>, containedResult: Result<bool, string>)
      returns (r: Result<bool, string>)
      modifies this, event.events
      ensures sizingInheritChoice == old(sizingInheritChoice)
      ensures area.None? ==> r == Ok(false) && !released && state == old(state) && event.events[..] == old(event.events[..])
      ensures area.Some? ==>
        && (forall i :: 0 <= i < event.events.Length ==> event.events[i] == Handled(area.value, event.clippingRect, old(event.events[i])))
        && state == StateAfter(area.value, event.clippingRect, old(state), old(event.events[..]))
        && (released <==> exists i :: 0 <= i < event.events.Length && Releases(area.value, event.clippingRect, old(event.events[i])))
        && r == (if containedResult.Err? then Err(containedResult.error) else Ok(false))
    {
      released := false;
      if area.None? {
        return Ok(false);
      }
      var rect := area.value;
      var clip := event.clippingRect;
      var events := event.events;
      ghost var before := events[..];
      var i := 0;
      while i < events.Length
        invariant 0 <= i <= events.Length
        invariant forall k :: 0 <= k < i ==> events[k] == Handled(rect, clip, before[k])
        invariant forall k :: i <= k < events.Length ==> events[k] == before[k]
        invariant state == StateAfter(rect, clip, old(state), before[..i])
        invariant released <==> exists k :: 0 <= k < i && Releases(rect, clip, before[k])
        invariant sizingInheritChoice == old(sizingInheritChoice)
      {
        ghost var now0 := events[..];
        var u := events[i];
        assert u == before[i];
        assert before[..i + 1][..i] == before[..i];
        if Widgets.Available(u) && u.e.Mouse? {
          var mouse := u.e.mouse;
          if TextureRects.ContainsPoint(rect, mouse.x, mouse.y) && Clipping.ContainsPoint(clip, mouse.x, mouse.y) {
            if !mouse.down {
              if mouse.changed {
                Widgets.SetConsumed(events, i);
                released := true;
              }
              state := Hovered;
            } else {
              Widgets.SetConsumed(events, i);
              state := Pressed;
            }
          } else {
            state := Idle;
          }
        }
        assert events[..] == now0[i := Handled(rect, clip, before[i])];
        i := i + 1;
      }
      assert before[..events.Length] == before;
      if containedResult.Err? {
        return Err(containedResult.error);
      }
      r := Ok(false);
    }

    /** `draw` draws the widget for the current state. */
    function DrawnWidget(): ContainedWidget
      reads this
    {
      CurrentWidget(state)
    }
  }
}
