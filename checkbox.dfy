/**
 * The checkbox widget (src/ui/widget/checkbox.rs): a square that flips the
 * shared `checked` cell on each press inside it, and reports in `changed`
 * whether it flipped this frame.
 */
module CheckBoxWidget {
  import opened Wrappers
  import Widgets
  import TextureAreas
  import Clipping

  /** A mouse event at a point inside the box and inside the clip. */
  predicate Inside(area: TextureAreas.TextureArea, clip: Clipping.ClippingArea, u: Widgets.UIEvent)
    requires u.e.Mouse?
  {
    TextureAreas.ContainsPoint(area, u.e.mouse.x, u.e.mouse.y) && Clipping.ContainsPoint(clip, u.e.mouse.x, u.e.mouse.y)
  }

  /** The events the update loop looks at: available mouse events. */
  predicate Examined(u: Widgets.UIEvent)
  {
    Widgets.Available(u) && u.e.Mouse?
  }

  /** A rising edge inside the box: the box is toggled and the event consumed. */
  predicate Toggles(area: TextureAreas.TextureArea, clip: Clipping.ClippingArea, u: Widgets.UIEvent)
  {
    Examined(u) && Inside(area, clip, u) && u.e.mouse.down && u.e.mouse.changed
  }

  /** What one event does to `hovered`. */
  function HoverStep(area: TextureAreas.TextureArea, clip: Clipping.ClippingArea, hovered: bool, u: Widgets.UIEvent): bool
  {
    if Examined(u) then Inside(area, clip, u) else hovered
  }

  /** `hovered` after a run of events. */
  function HoveredAfter(area: TextureAreas.TextureArea, clip: Clipping.ClippingArea, hovered: bool, us: seq<Widgets.UIEvent>): bool
  {
    if |us| == 0 then hovered else HoverStep(area, clip, HoveredAfter(area, clip, hovered, us[..|us| - 1]), us[|us| - 1])
  }

  /** How many toggles a run of events makes. */
  function ToggleCount(area: TextureAreas.TextureArea, clip: Clipping.ClippingArea, us: seq<Widgets.UIEvent>): nat
  {
    if |us| == 0 then 0
    else ToggleCount(area, clip, us[..|us| - 1]) + (if Toggles(area, clip, us[|us| - 1]) then 1 else 0)
  }

  /** The event as the update leaves it. */
  function Handled(area: TextureAreas.TextureArea, clip: Clipping.ClippingArea, u: Widgets.UIEvent): Widgets.UIEvent
  {
    if Toggles(area, clip, u) then Widgets.MarkedByWidget(u) else u
  }

  /** The toggle at event k plays a sound, and the sound fails. */
  predicate SoundFailsAt(area: TextureAreas.TextureArea, clip: Clipping.ClippingArea, hasSound: bool, us: seq<Widgets.UIEvent>, sounds: seq<Result<(), string>>, k: int)
    requires |sounds| == |us|
  {
    0 <= k < |us| && hasSound && Toggles(area, clip, us[k]) && sounds[k].Err?
  }

  /** A frame counts no toggles exactly when none of its events toggles. */
  lemma {:induction false} ToggleCountZero(area: TextureAreas.TextureArea, clip: Clipping.ClippingArea, us: seq<Widgets.UIEvent>)
    ensures ToggleCount(area, clip, us) == 0 <==> forall k :: 0 <= k < |us| ==> !Toggles(area, clip, us[k])
  {
    if |us| > 0 {
      ToggleCountZero(area, clip, us[..|us| - 1]);
      assert forall k :: 0 <= k < |us| - 1 ==> us[..|us| - 1][k] == us[k];
    }
  }

  /** The last examined event decides `hovered`; with none, it is kept. */
  lemma {:induction false} LastExaminedDecides(area: TextureAreas.TextureArea, clip: Clipping.ClippingArea, hovered: bool, us: seq<Widgets.UIEvent>, j: int)
    requires -1 <= j < |us|
    requires j >= 0 ==> Examined(us[j])
    requires forall k :: j < k < |us| ==> !Examined(us[k])
    ensures HoveredAfter(area, clip, hovered, us) == if j < 0 then hovered else Inside(area, clip, us[j])
  {
    if |us| > 0 && j < |us| - 1 {
      LastExaminedDecides(area, clip, hovered, us[..|us| - 1], j);
    }
  }

  /** Extending a run by one event extends the counts by that event's step. */
  lemma PrefixStep(area: TextureAreas.TextureArea, clip: Clipping.ClippingArea, hovered: bool, us: seq<Widgets.UIEvent>, i: nat)
    requires i < |us|
    ensures HoveredAfter(area, clip, hovered, us[..i + 1]) == HoverStep(area, clip, HoveredAfter(area, clip, hovered, us[..i]), us[i])
    ensures ToggleCount(area, clip, us[..i + 1]) == ToggleCount(area, clip, us[..i]) + (if Toggles(area, clip, us[i]) then 1 else 0)
  {
    assert us[..i + 1][..i] == us[..i];
  }

  /** The box's texture areas. */
  datatype Sources = Sources(check: TextureAreas.TextureArea, checkFaded: TextureAreas.TextureArea, uncheck: TextureAreas.TextureArea, uncheckFaded: TextureAreas.TextureArea)

  /** The source `draw` copies from. */
  function DrawSource(sources: Sources, checked: bool, hovered: bool): TextureAreas.TextureArea
  {
    if checked then (if hovered then sources.checkFaded else sources.check)
    else (if hovered then sources.uncheckFaded else sources.uncheck)
  }

  /** Checked or not picks the checked or unchecked part; hovering picks its faded form. */
  lemma DrawSourceTable(sources: Sources)
    ensures DrawSource(sources, true, true) == sources.checkFaded
    ensures DrawSource(sources, true, false) == sources.check
    ensures DrawSource(sources, false, true) == sources.uncheckFaded
    ensures DrawSource(sources, false, false) == sources.uncheck
  {
  }

  /** `min`/`max`: the box is square, with one length for both axes. */
  function SquareLimits(len: real): (r: (real, real))
    ensures r.0 == r.1 == len
  {
    (len, len)
  }

  /** `preferred_width_from_height`, and likewise from width: the other side equals the given one. */
  function PreferredOtherSide(side: real): (r: Result<real, string>)
    ensures r == Ok(side)
  {
    Ok(side)
  }

  class CheckBox {
    const sources: Sources
    const minLen: real
    const maxLen: real
    /** Whether a toggle plays a sound: the public `toggle_sound` field is set. */
    var hasToggleSound: bool
    /** The shared `checked` and `changed` cells. */
    var checked: bool
    var changed: bool
    var drawPos: Widgets.FRect
    /** `draw_pos` rounded to the integer grid. */
    var drawArea: Option<TextureAreas.TextureArea>
    var hovered: bool

    /** `CheckBox::new`: not hovered, no toggle sound, an empty draw position. */
    constructor (sources: Sources, minLen: real, maxLen: real, checked: bool, changed: bool)
      ensures this.sources == sources && this.minLen == minLen && this.maxLen == maxLen
      ensures this.checked == checked && this.changed == changed
      ensures !hovered && !hasToggleSound && drawPos == Widgets.FRect(0.0, 0.0, 0.0, 0.0) && drawArea.None?
    {
      this.sources := sources;
      this.minLen := minLen;
      this.maxLen := maxLen;
      this.checked := checked;
      this.changed := changed;
      hasToggleSound := false;
      drawPos := Widgets.FRect(0.0, 0.0, 0.0, 0.0);
      drawArea := None;
      hovered := false;
    }

    /** Assigning the public `toggle_sound` field: later toggles play a sound exactly when it is set. */
    method SetToggleSound(toggleSound: bool)
      modifies this`hasToggleSound
      ensures hasToggleSound == toggleSound
    {
      hasToggleSound := toggleSound;
    }

    /** The state after the first p events of `us` have been handled. */
    ghost predicate HandledUpTo(area: TextureAreas.TextureArea, clip: Clipping.ClippingArea, us: seq<Widgets.UIEvent>, now: seq<Widgets.UIEvent>, p: nat,
                                hovered0: bool, checked0: bool)
      requires p <= |us| == |now|
      reads this
    {
      && (forall k :: 0 <= k < p ==> now[k] == Handled(area, clip, us[k]))
      && (forall k :: p <= k < |us| ==> now[k] == us[k])
      && hovered == HoveredAfter(area, clip, hovered0, us[..p])
      && checked == (checked0 != (ToggleCount(area, clip, us[..p]) % 2 == 1))
      && changed == (ToggleCount(area, clip, us[..p]) > 0)
    }

    /**
     * `update`. `area` is the event's position rounded to the integer grid;
     * `sounds[k]` is what playing the toggle sound would return at event k.
     * A failing sound ends the update with its error, after its toggle.
     */
    method Update(event: Widgets.WidgetUpdateEvent, area: Option<TextureAreas.TextureArea>, sounds: seq<Result<(), string>>)
      returns (r: Result<bool, string>)
      requires |sounds| == event.events.Length
      modifies this`checked, this`changed, this`drawPos, this`drawArea, this`hovered, event.events
      ensures drawPos == event.position && drawArea == area
      ensures area.None? ==>
        && r == Ok(false) && !changed && checked == old(checked) && hovered == old(hovered)
        && event.events[..] == old(event.events[..])
      ensures area.Some? && r.Ok? ==>
        && r == Ok(false)
        && (forall k :: !SoundFailsAt(area.value, event.clippingRect, hasToggleSound, old(event.events[..]), sounds, k))
        && HandledUpTo(area.value, event.clippingRect, old(event.events[..]), event.events[..], event.events.Length, old(hovered), old(checked))
      ensures area.Some? && r.Err? ==>
        exists k :: && SoundFailsAt(area.value, event.clippingRect, hasToggleSound, old(event.events[..]), sounds, k)
                    && (forall j :: 0 <= j < k ==> !SoundFailsAt(area.value, event.clippingRect, hasToggleSound, old(event.events[..]), sounds, j))
                    && r == Err(sounds[k].error)
                    && HandledUpTo(area.value, event.clippingRect, old(event.events[..]), event.events[..], k + 1, old(hovered), old(checked))
    {
      changed := false;
      drawPos := event.position;
      drawArea := area;
      if area.None? {
        return Ok(false);
      }
      var events := event.events;
      ghost var before := events[..];
      ghost var hovered0, checked0 := hovered, checked;
      var i := 0;
      while i < events.Length
        invariant 0 <= i <= events.Length
        invariant drawPos == event.position && drawArea == area
        invariant HandledUpTo(area.value, event.clippingRect, before, events[..], i, hovered0, checked0)
        invariant forall j :: 0 <= j < i ==> !SoundFailsAt(area.value, event.clippingRect, hasToggleSound, before, sounds, j)
      {
        var failed := HandleEvent(area.value, event.clippingRect, events, i, before, sounds, hovered0, checked0);
        if failed {
          return Err(sounds[i].error);
        }
        i := i + 1;
      }
      r := Ok(false);
    }

    /** One pass of the update loop, on event i. */
    method HandleEvent(rect: TextureAreas.TextureArea, clip: Clipping.ClippingArea, events: array<Widgets.UIEvent>, i: nat,
                       ghost before: seq<Widgets.UIEvent>, sounds: seq<Result<(), string>>, ghost hovered0: bool, ghost checked0: bool)
      returns (failed: bool)
      requires i < events.Length == |before| == |sounds|
      requires HandledUpTo(rect, clip, before, events[..], i, hovered0, checked0)
      modifies this`hovered, this`checked, this`changed, events
      ensures HandledUpTo(rect, clip, before, events[..], i + 1, hovered0, checked0)
      ensures failed == SoundFailsAt(rect, clip, hasToggleSound, before, sounds, i)
    {
      PrefixStep(rect, clip, hovered0, before, i);
      ghost var now0 := events[..];
      var u := events[i];
      assert u == before[i];
      failed := false;
      if Widgets.Available(u) && u.e.Mouse? {
        var mouse := u.e.mouse;
        if TextureAreas.ContainsPoint(rect, mouse.x, mouse.y) && Clipping.ContainsPoint(clip, mouse.x, mouse.y) {
          hovered := true;
          if mouse.down && mouse.changed {
            Widgets.SetConsumed(events, i);
            checked := !checked;
            changed := true;
            failed := hasToggleSound && sounds[i].Err?;
          }
        } else {
          hovered := false;
        }
      }
      assert events[..] == now0[i := Handled(rect, clip, before[i])];
    }

    /** `draw`: one copy of the chosen source to the draw area, or none without an area. */
    function DrawCopy(): (c: Option<(TextureAreas.TextureArea, TextureAreas.TextureArea)>)
      reads this
      ensures c.None? <==> drawArea.None?
      ensures c.Some? ==> c.value.1 == drawArea.value && c.value.0 == DrawSource(sources, checked, hovered)
    {
      match drawArea
      case None => None
      case Some(pos) => Some((DrawSource(sources, checked, hovered), pos))
    }
  }
}
