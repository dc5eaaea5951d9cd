/**
 * The debug widget (src/ui/widget/debug.rs): draws the missing-texture
 * pattern at its position, and skips one frame's drawing when clicked.
 */
module DebugWidget {
  import opened Wrappers
  import Widgets
  import TextureAreas
  import Clipping

  /** A press (a rising edge) on an available event inside the widget and inside the clip. */
  predicate Clicks(area: TextureAreas.TextureArea, clip: Clipping.ClippingArea, u: Widgets.UIEvent)
  {
    && Widgets.Available(u) && u.e.Mouse?
    && u.e.mouse.down && u.e.mouse.changed
    && TextureAreas.ContainsPoint(area, u.e.mouse.x, u.e.mouse.y)
    && Clipping.ContainsPoint(clip, u.e.mouse.x, u.e.mouse.y)
  }

  class Debug {
    var clickedThisFrame: bool
    var drawPos: Widgets.FRect
    /** `draw_pos` rounded to the integer grid. */
    var drawArea: Option<TextureAreas.TextureArea>

    /** `Default`: not clicked, at an empty position. */
    constructor ()
      ensures !clickedThisFrame && drawPos == Widgets.FRect(0.0, 0.0, 0.0, 0.0) && drawArea.None?
    {
      clickedThisFrame := false;
      drawPos := Widgets.FRect(0.0, 0.0, 0.0, 0.0);
      drawArea := None;
    }

    /**
     * `update`: consumes every click on the widget and records whether there
     * was one. `area` is the event's position rounded to the integer grid.
     */
    method Update(event: Widgets.WidgetUpdateEvent, area: Option<TextureAreas.TextureArea>) returns (r: Result<bool, string>)
      modifies this, event.events
      ensures r == Ok(false)
      ensures drawPos == event.position && drawArea == area
      ensures area.None? ==> !clickedThisFrame && event.events[..] == old(event.events[..])
      ensures area.Some? ==>
        && (forall i :: 0 <= i < event.events.Length ==>
              event.events[i] == if Clicks(area.value, event.clippingRect, old(event.events[i])) then Widgets.MarkedByWidget(old(event.events[i])) else old(event.events[i]))
        && (clickedThisFrame <==> exists i :: 0 <= i < event.events.Length && Clicks(area.value, event.clippingRect, old(event.events[i])))
    {
      clickedThisFrame := false;
      drawPos := event.position;
      drawArea := area;
      if area.None? {
        return Ok(false);
      }
      var pos := area.value;
      var clip := event.clippingRect;
      var events := event.events;
      ghost var before := events[..];
      var i := 0;
      while i < events.Length
        invariant 0 <= i <= events.Length
        invariant drawPos == event.position && drawArea == area
        invariant forall k :: 0 <= k < i ==> events[k] == if Clicks(pos, clip, before[k]) then Widgets.MarkedByWidget(before[k]) else before[k]
        invariant forall k :: i <= k < events.Length ==> events[k] == before[k]
        invariant clickedThisFrame <==> exists k :: 0 <= k < i && Clicks(pos, clip, before[k])
      {
        var u := events[i];
        if Widgets.Available(u) && u.e.Mouse? {
          var mouse := u.e.mouse;
          if mouse.down && mouse.changed && TextureAreas.ContainsPoint(pos, mouse.x, mouse.y) {
            if Clipping.ContainsPoint(clip, mouse.x, mouse.y) {
              Widgets.SetConsumed(events, i);
              clickedThisFrame := true;
            }
          }
        }
        i := i + 1;
      }
      r := Ok(false);
    }

    /** `draw`: the whole missing texture is copied to the draw area, unless there is none or the widget was clicked. */
    function DrawCopy(): (c: Option<TextureAreas.TextureArea>)
      reads this
      ensures c.Some? <==> drawArea.Some? && !clickedThisFrame
      ensures c.Some? ==> c == drawArea
    {
      if clickedThisFrame then None else drawArea
    }
  }
}
