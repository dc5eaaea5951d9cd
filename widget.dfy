/**
 * Widget plumbing (src/ui/widget/mod.rs): the per-frame events a widget
 * sees, with their consumption status, and the update context handed down
 * the widget tree.
 */
module Widgets {
  import CoreEvent
  import Clipping

  /** Who, if anyone, has used an event this frame. */
  datatype ConsumedStatus = None | ConsumedByWidget | ConsumedByLayout

  /** `UIEvent`: an event together with its consumption status. */
  datatype UIEvent = UIEvent(e: CoreEvent.Event, consumedStatus: ConsumedStatus)

  /** `consumed` */
  predicate Consumed(u: UIEvent)
  {
    match u.consumedStatus
    case None => false
    case _ => true
  }

  /** `available` */
  predicate Available(u: UIEvent)
  {
    !Consumed(u)
  }

  /** `UIEvent::new` */
  function NewUIEvent(e: CoreEvent.Event): (u: UIEvent)
    ensures u.e == e && Available(u) && !Consumed(u)
  {
    UIEvent(e, None)
  }

  /** An event is consumed exactly when some widget or layout has taken it, and available exactly when not. */
  lemma ConsumedIff(u: UIEvent)
    ensures Consumed(u) <==> u.consumedStatus == ConsumedByWidget || u.consumedStatus == ConsumedByLayout
    ensures Available(u) <==> u.consumedStatus == None
  {
  }

  /** The event `set_consumed` leaves: taken by a widget, whatever it was before. */
  function MarkedByWidget(u: UIEvent): UIEvent
  {
    UIEvent(u.e, ConsumedByWidget)
  }

  /** `set_consumed` on the i-th event of a frame's event slice. */
  method SetConsumed(events: array<UIEvent>, i: nat)
    requires i < events.Length
    modifies events
    ensures events[..] == old(events[..])[i := MarkedByWidget(old(events[i]))]
    ensures Consumed(events[i]) && events[i].e == old(events[i]).e
  {
    events[i] := MarkedByWidget(events[i]);
  }

  /** `set_consumed_by_layout`; the source asserts (in debug builds) that a layout has not taken the event already. */
  method SetConsumedByLayout(events: array<UIEvent>, i: nat)
    requires i < events.Length
    requires events[i].consumedStatus != ConsumedByLayout
    modifies events
    ensures events[..] == old(events[..])[i := UIEvent(old(events[i]).e, ConsumedByLayout)]
    ensures Consumed(events[i])
  {
    events[i] := UIEvent(events[i].e, ConsumedByLayout);
  }

  /** Marking keeps the event itself and leaves it consumed; marking twice is marking once. */
  lemma MarkingKeepsConsumed(u: UIEvent)
    ensures Consumed(MarkedByWidget(u)) && MarkedByWidget(u).e == u.e
    ensures MarkedByWidget(MarkedByWidget(u)) == MarkedByWidget(u)
  {
  }

  /** A position in the UI, kept in floating point until it is drawn. */
  datatype FRect = FRect(x: real, y: real, w: real, h: real)

  /** `AspectRatioPreferredDirection` */
  datatype AspectRatioPreferredDirection = WidthFromHeight | HeightFromWidth

  /**
   * `WidgetUpdateEvent`: a widget's position, the clip in effect when it is
   * drawn, the aspect-ratio priority, the frame's events (shared, and
   * updated in place) and the time since the previous frame.
   */
  datatype WidgetUpdateEvent = WidgetUpdateEvent(
    position: FRect,
    clippingRect: Clipping.ClippingArea,
    aspectRatioPriority: AspectRatioPreferredDirection,
    events: array<UIEvent>,
    dt: nat)

  /** `sub_event`: the same context at another position. */
  function SubEvent(event: WidgetUpdateEvent, position: FRect): (r: WidgetUpdateEvent)
    ensures r.position == position
    ensures r.clippingRect == event.clippingRect && r.aspectRatioPriority == event.aspectRatioPriority
    ensures r.events == event.events && r.dt == event.dt
  {
    event.(position := position)
  }

  /** `dup`: a sub-event at the same position. */
  function Dup(event: WidgetUpdateEvent): WidgetUpdateEvent
  {
    SubEvent(event, event.position)
  }

  /** Duplicating changes nothing, and a sub-event differs from its parent only in position. */
  lemma DupAndSubEvent(event: WidgetUpdateEvent, p: FRect)
    ensures Dup(event) == event
    ensures SubEvent(event, p) == event.(position := p)
    ensures SubEvent(SubEvent(event, p), event.position) == event
  {
  }
}
