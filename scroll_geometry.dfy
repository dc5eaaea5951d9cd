/**
 * What the two scrollers (src/ui/widget/scroller.rs and the older
 * src/ui/layout/scroller.rs) have in common: the rule that keeps the
 * scrolled content in frame along one axis, stated as a reference
 * definition, and the drag state machine a press drives.
 */
module ScrollGeometry {
  function Clamp(v: int, lo: int, hi: int): (r: int)
    requires lo <= hi
    ensures lo <= r <= hi
    ensures lo <= v <= hi ==> r == v
  {
    if v < lo then lo else if v > hi then hi else v
  }

  /**
   * Along one axis, content at `contentPos + scroll` with length
   * `contentLen` is in frame when, being shorter than the viewport, it lies
   * inside it, or, being at least as long, it covers it.
   */
  predicate InFrame(contentPos: int, contentLen: nat, viewPos: int, viewLen: nat, scroll: int)
  {
    var p := contentPos + scroll;
    if contentLen < viewLen then viewPos <= p && p + contentLen <= viewPos + viewLen
    else p <= viewPos && viewPos + viewLen <= p + contentLen
  }

  /** The reference rule: move the content to the nearest in-frame position. */
  function RestrictedScroll(contentPos: int, contentLen: nat, viewPos: int, viewLen: nat, scroll: int): int
  {
    var p := contentPos + scroll;
    if contentLen < viewLen then scroll + Clamp(p, viewPos, viewPos + viewLen - contentLen) - p
    else scroll + Clamp(p, viewPos + viewLen - contentLen, viewPos) - p
  }

  /** After restriction the content is in frame. */
  lemma RestrictedScrollInFrame(contentPos: int, contentLen: nat, viewPos: int, viewLen: nat, scroll: int)
    ensures InFrame(contentPos, contentLen, viewPos, viewLen, RestrictedScroll(contentPos, contentLen, viewPos, viewLen, scroll))
  {
  }

  /** Content already in frame is not moved, and only such content is left where it is. */
  lemma RestrictedScrollUnchangedIff(contentPos: int, contentLen: nat, viewPos: int, viewLen: nat, scroll: int)
    ensures RestrictedScroll(contentPos, contentLen, viewPos, viewLen, scroll) == scroll
        <==> InFrame(contentPos, contentLen, viewPos, viewLen, scroll)
  {
  }

  /** Restricting twice is restricting once. */
  lemma RestrictedScrollIdempotent(contentPos: int, contentLen: nat, viewPos: int, viewLen: nat, scroll: int)
    ensures var r := RestrictedScroll(contentPos, contentLen, viewPos, viewLen, scroll);
      RestrictedScroll(contentPos, contentLen, viewPos, viewLen, r) == r
  {
    var r := RestrictedScroll(contentPos, contentLen, viewPos, viewLen, scroll);
    RestrictedScrollInFrame(contentPos, contentLen, viewPos, viewLen, scroll);
    RestrictedScrollUnchangedIff(contentPos, contentLen, viewPos, viewLen, r);
  }

  /** No in-frame scroll is closer to the original one. */
  lemma RestrictedScrollNearest(contentPos: int, contentLen: nat, viewPos: int, viewLen: nat, scroll: int, other: int)
    requires InFrame(contentPos, contentLen, viewPos, viewLen, other)
    ensures var r := RestrictedScroll(contentPos, contentLen, viewPos, viewLen, scroll);
      (if r >= scroll then r - scroll else scroll - r) <= (if other >= scroll then other - scroll else scroll - other)
  {
  }

  /** `DragState`: no drag, a press waiting to move past the dead zone, or a drag with its anchor. */
  datatype DragState = None | DragStart(startX: int, startY: int) | Dragging(dragX: int, dragY: int)

  /** `unsigned_abs` of a difference. */
  function Distance(a: int, b: int): nat
  {
    if a >= b then a - b else b - a
  }

  /** What a held mouse button at (mx, my) does: the drag state and scroll afterwards. */
  datatype DragOutcome = DragOutcome(drag: DragState, scrollX: int, scrollY: int)

  /**
   * The three steps the scrollers take, in order, for a mouse event with the
   * button down: a press that `startsDrag` (a change, inside the scroller
   * and the clip) begins waiting; a wait past the dead zone on an enabled
   * axis becomes a drag anchored at mouse minus scroll; a drag sets each
   * enabled axis's scroll to mouse minus anchor.
   */
  function Press(deadzone: nat, xEnabled: bool, yEnabled: bool, drag: DragState, startsDrag: bool, mx: int, my: int, scrollX: int, scrollY: int): DragOutcome
  {
    var d1 := if drag.None? && startsDrag then DragStart(mx, my) else drag;
    var d2 :=
      if d1.DragStart? && ((Distance(d1.startX, mx) > deadzone && xEnabled) || (Distance(d1.startY, my) > deadzone && yEnabled))
      then Dragging(mx - scrollX, my - scrollY)
      else d1;
    if d2.Dragging? then
      DragOutcome(d2, if xEnabled then mx - d2.dragX else scrollX, if yEnabled then my - d2.dragY else scrollY)
    else DragOutcome(d2, scrollX, scrollY)
  }

  /** From no drag, a press that starts a drag waits at its own position; any other press changes nothing. */
  lemma PressFromNone(deadzone: nat, xEnabled: bool, yEnabled: bool, startsDrag: bool, mx: int, my: int, sx: int, sy: int)
    ensures Press(deadzone, xEnabled, yEnabled, None, startsDrag, mx, my, sx, sy)
         == DragOutcome(if startsDrag then DragStart(mx, my) else None, sx, sy)
  {
  }

  /**
   * A waiting press turns into a drag exactly when the mouse has moved
   * strictly past the dead zone along an enabled axis; the scroll does not
   * jump when it does.
   */
  lemma PressFromDragStart(deadzone: nat, xEnabled: bool, yEnabled: bool, startsDrag: bool, x0: int, y0: int, mx: int, my: int, sx: int, sy: int)
    ensures var o := Press(deadzone, xEnabled, yEnabled, DragStart(x0, y0), startsDrag, mx, my, sx, sy);
      && (o.drag.Dragging? <==> (xEnabled && Distance(x0, mx) > deadzone) || (yEnabled && Distance(y0, my) > deadzone))
      && (o.drag.Dragging? ==> o.drag == Dragging(mx - sx, my - sy))
      && (!o.drag.Dragging? ==> o.drag == DragStart(x0, y0))
      && o.scrollX == sx && o.scrollY == sy
  {
  }

  /** While dragging, the anchor is kept, enabled axes follow the mouse and disabled axes stay put. */
  lemma PressWhileDragging(deadzone: nat, xEnabled: bool, yEnabled: bool, startsDrag: bool, ax: int, ay: int, mx: int, my: int, sx: int, sy: int)
    ensures Press(deadzone, xEnabled, yEnabled, Dragging(ax, ay), startsDrag, mx, my, sx, sy)
         == DragOutcome(Dragging(ax, ay), if xEnabled then mx - ax else sx, if yEnabled then my - ay else sy)
  {
  }
}
