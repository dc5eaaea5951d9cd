# game_system core, modelled in Dafny

game_system is a Rust abstraction layer for 2D interactive programs. It puts
windowing, rendering, audio and input behind a `System` trait, ships an SDL2
backend for it, and adds an immediate-mode UI toolkit. Each frame the
application polls events, wraps them as `UIEvent`s, lets every widget's
`update` look at them and consume some, and then calls each widget's `draw`.

This project models the parts of that core that carry logic:

- **Geometry.** The checked `TextureRect`/`TextureArea` rectangles and their
  half-open point test and intersection (`texture_rect.dfy`,
  `texture_area.dfy`). The clipping rectangle, which can be absent, empty or
  a rectangle, in both the newer and the older API (`clipping_rect.dfy`,
  `lib.dfy`).
- **Resource keys.** The byte layout of texture cache keys
  (`texture_key.dfy`). The point-size binning for rendered text
  (`math.dfy`). The cache-miss run counter that drives cache growth
  (`cache_checker.dfy`).
- **Conversions.** The `PathLike`/`BytesLike` helpers of the core API
  (`core_mod.dfy`) and shift-key translation (`event.dfy`).
- **The SDL2 backends, newer and older.** Event translation, the
  lowest-free-channel search, the `channel_refs` bookkeeping of `sound`,
  `loop_sound` and `stop_loop_sound`, the texture cache-miss accounting, and
  the music queue (`sdl2_backend.dfy`, `sdl2_legacy.dfy`).
- **The UI widgets.** Events and their consumption (`widget.dfy`), and the
  button, checkbox, debug widget, two scrollers, tiled image and border.
  Draws are modelled as the list of copy commands they issue.

Everything SDL, the operating system or the clock would report is an input
to the model. This covers events, whether a channel is playing, the outcome
of a load or a mixer call, and the rounded position of a widget. The Rust
integer types are ranges of unbounded integers (`ints.dfy`). Where the
source converts (`as u32`, `as i32` reinterpretation, `f32::round`), the
model writes the conversion out. The flipped-wheel multiplication
`x * multiplier` is modelled with wrapping, as a release build runs it.

Three facts about the code are worth stating plainly:

- The caches are LRU caches and keep no reference counts.
- The key for a rendered text holds the text, the point size bin and the
  wrap width. It holds no font path and no colour.
- `sound` gives up quietly, with no error, when no channel is free.

Three source files name a type differently from the file that defines it:

- `rust_sdl2/mod.rs` imports a `CacheThrashingChecker`, but
  `cache_checker.rs` defines `CacheMissChecker`.
- `core/mod.rs` imports a `ClippingRect`, but `clipping_rect.rs` defines
  `ClippingArea`.
- `ui/widget/checkbox.rs` and `ui/widget/debug.rs` import
  `texture_area::TextureRect`, but `texture_area.rs` defines only
  `TextureArea`.

In each case the model uses the defining file's own type.

## Model

| member | source | states |
|---|---|---|
| TextureRects.New | src/core/texture_rect.rs:25-35 | the checked constructor fails exactly when a side is zero, and otherwise keeps all four fields |
| TextureRects.Size | src/core/texture_rect.rs:72-74 | the size is the rectangle's width and height |
| TextureRects.SourceFrom | src/core/texture_rect.rs:163-167 | a rectangle converts to the source that copies that area |
| TextureRects.DestinationFrom | src/core/texture_rect.rs:188-192 | a rectangle converts to a destination at that rectangle with no rotation |
| TextureRects.ContainsPoint | src/core/texture_rect.rs:46-53 | the half-open point test: x in [x, x+w) and y in [y, y+h); the intersection lemmas below are stated with it |
| TextureRects.Intersection | src/core/texture_rect.rs:55-70 | the overlap of two rectangles, or None when it has no area; IntersectionContainsPoint, IntersectionNoneIffDisjoint, IntersectionCommutative, IntersectionSelf and IntersectionInsideBoth prove what it means |
| TextureRects.IntersectionContainsPoint | src/core/texture_rect.rs:46-70 | a point is in the intersection if and only if it is in both rectangles |
| TextureRects.IntersectionNoneIffDisjoint | src/core/texture_rect.rs:55-70 | the intersection is None if and only if the rectangles share no point |
| TextureRects.IntersectionCommutative | src/core/texture_rect.rs:55-70 | intersection does not depend on argument order |
| TextureRects.IntersectionSelf | src/core/texture_rect.rs:55-70 | a rectangle intersected with itself is itself |
| TextureRects.IntersectionInsideBoth | src/core/texture_rect.rs:46-70 | every point of the intersection lies in both rectangles |
| TextureAreas.Size | src/core/texture_area.rs:42-44 | the size is the area's width and height |
| TextureAreas.SourceFrom | src/core/texture_area.rs:99-103 | an area converts to the source that copies that area |
| TextureAreas.DestinationFrom | src/core/texture_area.rs:122-135 | an area converts to a destination at that area, unrotated and opaque white |
| TextureAreas.ContainsPoint | src/core/texture_area.rs:16-23 | the half-open point test of an area, the same rule as for a rectangle |
| TextureAreas.Intersection | src/core/texture_area.rs:25-40 | the overlap of two areas, or None when it has no area; the five Intersection lemmas below state its meaning |
| TextureAreas.IntersectionContainsPoint | src/core/texture_area.rs:16-40 | a point is in the intersection if and only if it is in both areas |
| TextureAreas.IntersectionNoneIffDisjoint | src/core/texture_area.rs:16-40 | the intersection is None if and only if the areas share no point |
| TextureAreas.IntersectionCommutative | src/core/texture_area.rs:16-40 | intersection does not depend on argument order |
| TextureAreas.IntersectionSelf | src/core/texture_area.rs:16-40 | an area intersected with itself is itself |
| TextureAreas.IntersectionInsideBoth | src/core/texture_area.rs:16-40 | every point of the intersection lies in both areas |
| Clipping.IntersectAreaCases | src/core/clipping_rect.rs:16-36 | restricting to an absent position gives Zero; an absent clip gives the position; Zero stays Zero |
| Clipping.IntersectionZeroAndNone | src/core/clipping_rect.rs:38-44 | Zero absorbs and None is neutral, on either side |
| Clipping.IntersectionOfAreas | src/core/clipping_rect.rs:45-62 | two rectangle clips give their overlap when it has positive area, and Zero otherwise |
| Clipping.IntersectAreaIsIntersection | src/core/clipping_rect.rs:16-65 | restricting a clip to a position equals intersecting it with that position as a clip |
| Clipping.ContainsPointCases | src/core/clipping_rect.rs:67-76 | Zero contains no point, None contains every point, and a rectangle clip contains exactly its half-open points |
| Clipping.IntersectionContainsPoint | src/core/clipping_rect.rs:38-76 | a point passes the intersection of two clips if and only if it passes both |
| Clipping.IntersectionCommutative | src/core/clipping_rect.rs:38-65 | clip intersection does not depend on argument order |
| Clipping.IntersectionAssociative | src/core/clipping_rect.rs:38-65 | clip intersection is associative, so nested clips may be combined in any grouping |
| Clipping.IntersectArea | src/core/clipping_rect.rs:16-36 | restricting a clip to a widget position: no position gives Zero, and otherwise the clip is narrowed to the position; IntersectAreaCases and IntersectAreaIsIntersection prove it |
| Clipping.Intersection | src/core/clipping_rect.rs:38-65 | Zero absorbs, None is neutral, two areas give their overlap or Zero; IntersectionContainsPoint proves a point passes it exactly when it passes both |
| Clipping.ContainsPoint | src/core/clipping_rect.rs:67-76 | Zero passes no point, None passes every point, an area passes its own points; ContainsPointCases states these |
| LegacyApi.DestinationFromArea | src/lib.rs:198-202 | an integer area converts to an integer destination at that area, unrotated and white |
| LegacyApi.DestinationFromAreaF | src/lib.rs:204-208 | a float area converts to a float destination at that area, unrotated and white |
| LegacyApi.TryIntoNonEmptyStr | src/lib.rs:227-237 | the conversion fails with "empty str" exactly on the empty string and otherwise keeps it |
| LegacyApi.IntersectionZeroAndNone | src/lib.rs:253-258 | Zero absorbs and None is neutral, on either side |
| LegacyApi.IntersectionOfRects | src/lib.rs:259-276 | two rectangle clips give a rectangle or Zero, and Zero exactly when they share no point |
| LegacyApi.IntersectionPasses | src/lib.rs:241-279 | a point passes the intersection of two clips if and only if it passes both |
| LegacyApi.IntersectionCommutative | src/lib.rs:252-279 | clip intersection does not depend on argument order |
| LegacyApi.Intersection | src/lib.rs:252-279 | the older clip intersection, with the same Zero, None and overlap rules; IntersectionPasses proves a point passes it exactly when it passes both |
| CoreApi.PathLikeFromBuf | src/core/mod.rs:269-273 | an owned path becomes the owned variant holding it |
| CoreApi.PathLikeFromPath | src/core/mod.rs:275-285 | a borrowed path becomes the borrowed variant holding it |
| CoreApi.PathLikeFromParts | src/core/mod.rs:287-291 | path components become the components variant holding them |
| CoreApi.GetPath | src/core/mod.rs:253-266 | the path is always the PathLike's path; a borrowed path leaves the caller's buffer alone, the other variants store the owned path in it |
| CoreApi.PathBufFromPathLike | src/core/mod.rs:293-301 | owned and borrowed paths convert back to themselves, and components to their join |
| CoreApi.CollectRelativeParts | src/core/mod.rs:298 | joining relative components puts one '/' between each pair and never ends in '/' |
| CoreApi.CollectExample | src/core/mod.rs:298 | joining "tester" and "abc" gives "tester/abc", the test path of the key encoding |
| CoreApi.Push | src/core/mod.rs:298 | appending one path component: an absolute component replaces the path, and otherwise the two are joined with one separator; CollectRelativeParts and CollectExample prove what collecting with it gives |
| CoreApi.PathBufFrom | src/core/mod.rs:293-301 | the owned path of a PathLike: borrowed and owned paths keep their text and components are collected; PathBufFromPathLike proves the round trip |
| CoreApi.BytesLikeFromVec | src/core/mod.rs:310-314 | an owned vector becomes the owned variant holding it |
| CoreApi.BytesLikeFromSlice | src/core/mod.rs:316-326 | a borrowed slice becomes the borrowed variant holding it |
| CoreApi.VecFromBytesLike | src/core/mod.rs:328-335 | converting bytes to a BytesLike and back gives the same bytes, whether borrowed or owned |
| CoreApi.VecFrom | src/core/mod.rs:328-335 | the owned bytes of a BytesLike, the same bytes for a slice and a vector; VecFromBytesLike proves the round trip |
| CoreApi.TryIntoNonEmptyStr | src/core/mod.rs:342-352 | the conversion fails exactly on the empty string and otherwise keeps it |
| CoreEvent.AsciiMoreToUpperSpec | src/core/event.rs:36-60 | lower-case letters become their capitals, and each listed digit or punctuation key becomes its shifted symbol on a US layout |
| CoreEvent.AsciiMoreToUpperOthers | src/core/event.rs:62 | every other byte is returned unchanged |
| CoreEvent.AsciiMoreToUpperIdempotent | src/core/event.rs:36-64 | shifting twice is shifting once, and the result is never a lower-case letter |
| CoreEvent.AsciiMoreToUpper | src/core/event.rs:36-64 | the US-keyboard shift of a byte: letters and the punctuation keys get their shifted character and every other byte is kept, as the three lemmas above prove |
| TextureKeys.LeU16 | src/core/backends/rust_sdl2/texture_key.rs:56 | the two little-endian bytes, low byte first, make up the u16 |
| TextureKeys.LeU32 | src/core/backends/rust_sdl2/texture_key.rs:82 | the four little-endian bytes, low byte first, make up the u32 |
| TextureKeys.FromLeU16 | src/core/backends/rust_sdl2/texture_key.rs:54-111 | reading two bytes as a u16 inverts writing it |
| TextureKeys.FromLeU32 | src/core/backends/rust_sdl2/texture_key.rs:54-111 | reading four bytes as a u32 inverts writing it |
| TextureKeys.DecodeEncode | src/core/backends/rust_sdl2/texture_key.rs:3-111 | every key can be read back into the resource it names |
| TextureKeys.EncodeDecode | src/core/backends/rust_sdl2/texture_key.rs:3-111 | whatever reads back as a resource is exactly that resource's key |
| TextureKeys.EncodeInjective | src/core/backends/rust_sdl2/texture_key.rs:3-111 | two resources share a key if and only if they are the same resource |
| TextureKeys.TagOfKey | src/core/backends/rust_sdl2/texture_key.rs:3-21 | the first byte of a key names its kind: path, text, wrapped text or debug |
| TextureKeys.DebugKey | src/core/backends/rust_sdl2/texture_key.rs:28-30 | `debug_key` builds the key of the debug texture |
| TextureKeys.CopyBytes | src/core/backends/rust_sdl2/texture_key.rs:41-49 | the bytes are written at the index, the bytes before it are kept, and the index moves past them |
| TextureKeys.FromPathKey | src/core/backends/rust_sdl2/texture_key.rs:32-52 | `from_path` builds the documented key of a file path |
| TextureKeys.FromRenderedText | src/core/backends/rust_sdl2/texture_key.rs:54-77 | `from_rendered_text` builds the documented key of a text and point size |
| TextureKeys.FromRenderedWrappedText | src/core/backends/rust_sdl2/texture_key.rs:79-111 | `from_rendered_wrapped_text` builds the documented key of a text, point size and wrap width |
| TextureKeys.EncodingExamples | src/core/backends/rust_sdl2/texture_key.rs:123-157 | the byte strings the module's tests expect for text, wrapped text and a path key |
| TextureKeys.Encode | src/core/backends/rust_sdl2/texture_key.rs:3-111 | the documented byte layout of a key: a tag byte, then the path, or the little-endian point size, wrap width and text; DecodeEncode, EncodeDecode and EncodeInjective prove no two resources share it |
| TextureKeys.Decode | src/core/backends/rust_sdl2/texture_key.rs:3-21 | a reader of the same layout, the partner of Encode: it reads a key back into its resource and rejects bytes no resource writes |
| PointSizeMath.LeadingZeros | src/core/backends/rust_sdl2/math.rs:4 | a u16 has at most 16 leading zeros |
| PointSizeMath.TrailingZerosOfPower | src/core/backends/rust_sdl2/math.rs:5 | trailing zeros reach bit length minus one exactly for powers of two |
| PointSizeMath.PowerOfTwoByBitLength | src/core/backends/rust_sdl2/math.rs:7-11 | below 2^16 the powers of two are the numbers equal to 2 to their bit length minus one |
| PointSizeMath.PowerOfTwoDetected | src/core/backends/rust_sdl2/math.rs:7-11 | the test `leading + trailing >= 15` holds if and only if the number is a power of two |
| PointSizeMath.TableValue | src/core/backends/rust_sdl2/math.rs:15-37 | outside the power-of-two branch the table gives 2 to the bit length, capped at 2^12 |
| PointSizeMath.CappedNextPowerOfTwoSpec | src/core/backends/rust_sdl2/math.rs:3-39 | the result is a power of two; powers of two are kept; up to 4096 it is the least power of two at least n; above that it is 4096 |
| PointSizeMath.CappedNextPowerOfTwoIdempotent | src/core/backends/rust_sdl2/math.rs:3-39 | binning a binned point size changes nothing |
| PointSizeMath.CappedNextPowerOfTwo | src/core/backends/rust_sdl2/math.rs:3-39 | the point-size bin: a power of two is kept; up to 4096 any other size rises to the next power of two, and above 4096 to 4096; CappedNextPowerOfTwoSpec proves these and CappedNextPowerOfTwoIdempotent that binning twice is binning once |
| CacheChecker.TrailingMissRunIsLongestSuffix | src/core/backends/rust_sdl2/cache_checker.rs:26-34 | the run counted is the longest suffix of frames that all had misses |
| CacheChecker.CacheMissChecker.constructor | src/core/backends/rust_sdl2/cache_checker.rs:6-13 | a new checker has seen no frames, has a zero count and has no miss this frame |
| CacheChecker.CacheMissChecker.CacheMissOccurred | src/core/backends/rust_sdl2/cache_checker.rs:16-18 | the current frame is marked as having missed |
| CacheChecker.CacheMissChecker.Reset | src/core/backends/rust_sdl2/cache_checker.rs:20-23 | all frames so far are forgotten |
| CacheChecker.CacheMissChecker.FrameEnd | src/core/backends/rust_sdl2/cache_checker.rs:26-34 | the frame is closed and the result is the number of consecutive frames up to it that had misses |
| Widgets.NewUIEvent | src/ui/widget/mod.rs:88-93 | a new UI event wraps the event and is available, not consumed |
| Widgets.ConsumedIff | src/ui/widget/mod.rs:61-70 | an event is consumed if and only if a widget or a layout took it, and available if and only if no one did |
| Widgets.Consumed | src/ui/widget/mod.rs:61-66 | an event is consumed when its status is not None; ConsumedIff states this |
| Widgets.Available | src/ui/widget/mod.rs:68-70 | an event is available exactly when it is not consumed |
| Widgets.SetConsumed | src/ui/widget/mod.rs:76-78 | only the i-th event changes; it becomes consumed by a widget and keeps its event |
| Widgets.SetConsumedByLayout | src/ui/widget/mod.rs:80-86 | only the i-th event changes, to consumed by a layout; an event a layout already took is refused as the debug assertion does |
| Widgets.MarkingKeepsConsumed | src/ui/widget/mod.rs:76-78 | marking keeps the event and leaves it consumed; marking twice is marking once |
| Widgets.SubEvent | src/ui/widget/mod.rs:124-134 | a sub-event has the new position and the parent's clip, priority, events and time step |
| Widgets.DupAndSubEvent | src/ui/widget/mod.rs:124-138 | `dup` changes nothing, and a sub-event differs from its parent only in position, so moving back restores the parent |
| Widgets.Dup | src/ui/widget/mod.rs:136-138 | `dup` is the sub-event at the same position; DupAndSubEvent proves it keeps the event unchanged |
| ButtonWidget.WidgetChoice | src/ui/widget/button.rs:62-85 | each state draws its own widget; the sizing widget follows the state only when sizing inherits from the current widget |
| ButtonWidget.CurrentWidget | src/ui/widget/button.rs:62-68 | each state picks its own contained widget; WidgetChoice proves distinct states pick distinct widgets |
| ButtonWidget.InheritSizingWidget | src/ui/widget/button.rs:78-85 | a fixed sizing choice picks that widget whatever the state, and Current follows the state, as WidgetChoice proves |
| ButtonWidget.Step | src/ui/widget/button.rs:153-176 | one event's effect on the state: unexamined events keep it, a mouse event outside makes it Idle, a press inside Pressed and a release inside Hovered; LastExaminedDecides proves the state after a frame |
| ButtonWidget.LastExaminedDecides | src/ui/widget/button.rs:153-176 | the state after a frame is decided by the last available mouse event alone, and is kept when there is none |
| ButtonWidget.Button.constructor | src/ui/widget/button.rs:45-60 | a new button is idle, sized by its current widget, and shares the given `released` cell |
| ButtonWidget.Button.Update | src/ui/widget/button.rs:143-181 | without a position nothing changes; otherwise the state follows the frame's events, `released` holds if and only if some event is a release inside, exactly the taken events become consumed, and a contained error is passed on while success reports nothing consumed |
| ButtonWidget.Button.DrawnWidget | src/ui/widget/button.rs:183-186 | `draw` draws the current state's widget |
| CheckBoxWidget.ToggleCountZero | src/ui/widget/checkbox.rs:97-119 | a frame makes no toggles if and only if none of its events is a press inside the box |
| CheckBoxWidget.LastExaminedDecides | src/ui/widget/checkbox.rs:103 | hovering after a frame is decided by the last available mouse event, and kept when there is none |
| CheckBoxWidget.PrefixStep | src/ui/widget/checkbox.rs:97-119 | handling one more event extends hovering and the toggle count by that event's step |
| CheckBoxWidget.DrawSourceTable | src/ui/widget/checkbox.rs:132-144 | checked or not picks the checked or unchecked texture, and hovering picks its faded form |
| CheckBoxWidget.DrawSource | src/ui/widget/checkbox.rs:132-144 | the texture for the checked and hover state; DrawSourceTable proves which texture each of the four states gets |
| CheckBoxWidget.SquareLimits | src/ui/widget/checkbox.rs:65-71 | the minimum and maximum are square, with the same length for both axes |
| CheckBoxWidget.PreferredOtherSide | src/ui/widget/checkbox.rs:77-83 | the preferred other side equals the given side |
| CheckBoxWidget.CheckBox.constructor | src/ui/widget/checkbox.rs:36-61 | a new box is not hovered, has no toggle sound set, shares the given cells and has an empty position |
| CheckBoxWidget.CheckBox.SetToggleSound | src/ui/widget/checkbox.rs:20 | assigning the public `toggle_sound` field decides whether later toggles play a sound |
| CheckBoxWidget.CheckBox.Update | src/ui/widget/checkbox.rs:85-121 | the position is stored; with an area, hovering follows the last mouse event, `checked` flips once per toggle, `changed` records whether any toggle happened, toggling events are consumed, and the first failing toggle sound ends the update with its error |
| CheckBoxWidget.CheckBox.HandleEvent | src/ui/widget/checkbox.rs:98-116 | handling event i keeps the loop's invariant: the first i+1 events, hovering, `checked` and `changed` are as the specification functions give |
| CheckBoxWidget.CheckBox.DrawCopy | src/ui/widget/checkbox.rs:123-149 | without an area nothing is drawn; otherwise the texture for the checked and hover state is copied to the area |
| DebugWidget.Debug.constructor | src/ui/widget/debug.rs:20-28 | a new debug widget is not clicked and has an empty position |
| DebugWidget.Debug.Update | src/ui/widget/debug.rs:89-112 | the position is stored and nothing is reported consumed; with an area, `clicked_this_frame` holds if and only if some event is a press inside, and exactly those events are consumed |
| DebugWidget.Debug.DrawCopy | src/ui/widget/debug.rs:114-130 | the missing texture is copied to the area if and only if there is an area and no click this frame |
| ScrollGeometry.RestrictedScrollInFrame | src/ui/widget/scroller.rs:134-212 | after restriction the content is in frame: it covers the viewport when larger, and lies inside it when smaller |
| ScrollGeometry.RestrictedScrollUnchangedIff | src/ui/layout/scroller.rs:110-160 | restriction leaves the scroll unchanged if and only if the content is already in frame |
| ScrollGeometry.RestrictedScrollIdempotent | src/ui/layout/scroller.rs:110-160 | restricting twice is restricting once |
| ScrollGeometry.RestrictedScrollNearest | src/ui/layout/scroller.rs:110-160 | no in-frame scroll is closer to the original scroll than the restricted one |
| ScrollGeometry.RestrictedScroll | src/ui/layout/scroller.rs:110-160 | the scroll restriction of one axis, the reference rule both scrollers share; the four RestrictedScroll lemmas prove it puts the content in frame, is idempotent, changes nothing already in frame and moves the least |
| ScrollGeometry.PressFromNone | src/ui/widget/scroller.rs:328-336 | from no drag, a press that may start a drag waits at its own position, and any other press changes nothing |
| ScrollGeometry.PressFromDragStart | src/ui/widget/scroller.rs:338-352 | a waiting press becomes a drag once the mouse leaves the dead zone on an enabled axis, and otherwise keeps waiting |
| ScrollGeometry.PressWhileDragging | src/ui/widget/scroller.rs:354-361 | while dragging the anchor is kept, enabled axes follow the mouse and disabled axes stay put |
| ScrollGeometry.Press | src/ui/widget/scroller.rs:328-361 | one mouse press's effect on the drag state and the scroll; PressFromNone, PressFromDragStart and PressWhileDragging cover its three starting states |
| ScrollerWidget.AxisRestrictionInFrame | src/ui/widget/scroller.rs:134-212 | without a lock, or with content at least as long as the viewport, the restricted content is in frame and follows the reference rule |
| ScrollerWidget.AxisRestrictionLocked | src/ui/widget/scroller.rs:136-140 | content smaller than a locked viewport is placed by the lock alone, whatever the scroll was |
| ScrollerWidget.AxisRestriction | src/ui/widget/scroller.rs:134-212 | a locked axis with short content is placed by the lock, and otherwise the reference rule applies; the two lemmas above prove both |
| ScrollerWidget.ApplyScrollRestrictions | src/ui/widget/scroller.rs:115-213 | each axis gets the restriction with its own lock |
| ScrollerWidget.StepWheelAndRelease | src/ui/widget/scroller.rs:306-326 | a wheel event inside moves the content by wheel times sensitivity, x against the wheel and y with it; a release ends any drag and is consumed only if it ends one; nothing is both consumed and deferred |
| ScrollerWidget.Step | src/ui/widget/scroller.rs:305-372 | one event's effect on the drag, the scroll and the event's consumption; StepWheelAndRelease proves the wheel and release cases and that nothing is both consumed and deferred |
| ScrollerWidget.Scroller.constructor | src/ui/widget/scroller.rs:85-110 | a new scroller has the default dead zone and wheel sensitivity, the given drag and scroll, the given lock on both axes and no clip |
| ScrollerWidget.Scroller.ScanEvent | src/ui/widget/scroller.rs:305-372 | scanning event i keeps the loop's invariant: the first i+1 events and deferrals, the drag and the scroll are as the step function gives |
| ScrollerWidget.Scroller.ScanAll | src/ui/widget/scroller.rs:295-373 | after the event loop the drag and scroll are the frame's result, and each event is consumed now, deferred or untouched as its step says |
| ScrollerWidget.Scroller.ApplyDeferred | src/ui/widget/scroller.rs:413-417 | exactly the deferred events become consumed and the others are kept |
| ScrollerWidget.Scroller.Update | src/ui/widget/scroller.rs:269-420 | without a position only the clip is reset to Zero; otherwise the events, drag and scroll follow the frame's steps, the scroll is restricted, the contained clip is narrowed to the position, deferred consumptions are applied after the contained update, and errors are passed on |
| LayoutScroller.ApplyScrollRestrictions | src/ui/layout/scroller.rs:95-161 | both axes follow the reference rule and end in frame |
| LayoutScroller.WheelGathered | src/ui/layout/scroller.rs:257-264 | the wheel movement gathered does not depend on the drag: it is the sum of the wheel steps inside, added to what there was |
| LayoutScroller.DeferredOnlyWhileDragging | src/ui/layout/scroller.rs:265-310 | an event's consumption is deferred if and only if it is an available press after which a drag is pending or running |
| LayoutScroller.Step | src/ui/layout/scroller.rs:256-313 | one event's effect on the drag, the scroll, the wheel totals and the deferral; WheelGathered and DeferredOnlyWhileDragging prove what a frame of them gives |
| LayoutScroller.FinalScrollInFrame | src/ui/layout/scroller.rs:336-358 | with restriction on, the content ends in frame whatever the wheel and the drag did |
| LayoutScroller.WheelApplied | src/ui/layout/scroller.rs:336-349 | the wheel total moves the scroll with the wheel when content is longer than the view and against it otherwise; FinalScrollInFrame proves restriction then puts the content in frame |
| LayoutScroller.Scroller.constructor | src/ui/layout/scroller.rs:71-90 | a new layout scroller is not dragging, has no scroll, has a dead zone of 10, restricts the scroll and has no clip |
| LayoutScroller.Scroller.ScanEvent | src/ui/layout/scroller.rs:256-313 | scanning event i keeps the loop's invariant for the drag, scroll, wheel totals and deferrals |
| LayoutScroller.Scroller.ApplyDeferred | src/ui/layout/scroller.rs:369-373 | exactly the deferred events become consumed (by a widget, through `set_consumed`) and the others are kept |
| LayoutScroller.Scroller.Update | src/ui/layout/scroller.rs:217-376 | without a position nothing changes; otherwise the drag and the scroll follow the frame, the wheel total is applied, the scroll is restricted when asked, deferred consumptions are applied after the contained update, and errors are passed on |
| Tiling.SegmentsShape | src/ui/widget/tiled_image_display.rs:81-176 | the i-th piece starts i full lengths in, all but the last are full, and the last ends where the span ends |
| Tiling.Contiguous | src/ui/widget/tiled_image_display.rs:81-176 | each piece starts where the one before it ends |
| Tiling.SegmentsCount | src/ui/widget/tiled_image_display.rs:81-176 | the number of pieces is the ceiling of the span over the tile length |
| Tiling.LastPiece | src/ui/widget/tiled_image_display.rs:81-176 | the last piece is the remainder of the span by the tile length, or a full piece when the length divides the span |
| Tiling.SegmentsTotal | src/ui/widget/border.rs:167-205 | the lengths of the pieces add up to the span |
| Tiling.PieceOf | src/ui/widget/tiled_image_display.rs:81-176 | every point of the span lies in some piece |
| Tiling.PieceInSpan | src/ui/widget/tiled_image_display.rs:81-176 | only points of the span lie in a piece |
| Tiling.Disjoint | src/ui/widget/tiled_image_display.rs:81-176 | an earlier piece ends no later than a later one starts |
| Tiling.UniquePiece | src/ui/widget/tiled_image_display.rs:81-176 | no point lies in two pieces |
| Tiling.SegmentsFrom | src/ui/widget/tiled_image_display.rs:81-176 | the pieces a span is cut into by a tile length; the Tiling lemmas above prove they are contiguous, disjoint, cover the span and add up to it |
| TiledImage.TilesNoScaling | src/ui/widget/tiled_image_display.rs:88-127 | each copy has the same size at source and destination, and copies from the source origin |
| TiledImage.TilesSizes | src/ui/widget/tiled_image_display.rs:81-176 | copy k sits at its row and column offset; full columns and rows have the tile size, and the last has the remainder |
| TiledImage.TilesCount | src/ui/widget/tiled_image_display.rs:81-176 | the number of copies is the ceiling of the width over the tile width times the ceiling of the height over the tile height |
| TiledImage.TilesInside | src/ui/widget/tiled_image_display.rs:81-176 | every point of a copy's destination lies in the position |
| TiledImage.TilesCover | src/ui/widget/tiled_image_display.rs:81-176 | every point of the position lies in some copy's destination |
| TiledImage.TilesDisjoint | src/ui/widget/tiled_image_display.rs:81-176 | no point lies in two copies' destinations |
| TiledImage.Tiles | src/ui/widget/tiled_image_display.rs:81-176 | the copies that tile a position; TilesSizes, TilesCount, TilesInside, TilesCover and TilesDisjoint prove they cover it exactly once |
| TiledImage.DrawRow | src/ui/widget/tiled_image_display.rs:88-127 | the inner loop issues the copies of one row, left to right |
| TiledImage.DrawTiles | src/ui/widget/tiled_image_display.rs:81-176 | the two loops issue exactly the tiling of the position |
| TiledImage.TiledImageDisplay.constructor | src/ui/widget/tiled_image_display.rs:40-48 | a new display keeps its background and has an empty position |
| TiledImage.TiledImageDisplay.Update | src/ui/widget/tiled_image_display.rs:52-55 | the position is stored and nothing is consumed |
| TiledImage.TiledImageDisplay.Draw | src/ui/widget/tiled_image_display.rs:57-179 | with no position nothing is drawn; the image or size error is returned; otherwise the tiling from the area's or texture's origin and size is drawn |
| BorderWidget.SideTiling | src/ui/widget/border.rs:167-418 | each side is laid between the corners with whole length textures and one cut piece that ends at the far corner; their lengths add up to the side less both corners, and a side with no room gets no copies |
| BorderWidget.ContainedFirstCornersLast | src/ui/widget/border.rs:158-504 | the contained widget is drawn first and once, every later command is a copy, and the last four are the corners from the corner texture |
| BorderWidget.DrawSide | src/ui/widget/border.rs:167-418 | each side loop issues exactly that side's copies |
| BorderWidget.SideCommands | src/ui/widget/border.rs:167-418 | the copies that lay one side; SideTiling proves their placement and lengths |
| BorderWidget.CornerCommands | src/ui/widget/border.rs:420-500 | the four corner copies, each from the corner texture at its corner of the position |
| BorderWidget.BorderCommands | src/ui/widget/border.rs:158-504 | the whole border draw: the contained widget, four sides, four corners; ContainedFirstCornersLast proves that order |
| BorderWidget.Border.constructor | src/ui/widget/border.rs:42-56 | a new border keeps its two texture areas and has an empty position |
| BorderWidget.Border.Update | src/ui/widget/border.rs:141-156 | the position is stored and the contained widget's result is passed on |
| BorderWidget.Border.Draw | src/ui/widget/border.rs:158-504 | a contained error is returned first; without a position only the contained widget is drawn; a texture error is returned; otherwise the four sides, then the four corners, are drawn |
| CoreSdl2.I32ToByte | src/core/backends/rust_sdl2/mod.rs:826-832 | a keycode becomes a byte if and only if it lies in 0..=255, and keeps its value |
| CoreSdl2.I32ToNonZeroU32 | src/core/backends/rust_sdl2/mod.rs:837-845 | a window dimension that is not positive becomes 1, and a positive one is kept; TranslateWindowSize proves it |
| CoreSdl2.WrappingMulI32 | src/core/backends/rust_sdl2/mod.rs:937-938 | i32 multiplication as a release build runs it, wrapping modulo 2^32; WrapInRange proves in-range products are kept |
| CoreSdl2.TranslateKey | src/core/backends/rust_sdl2/mod.rs:853-885 | a key press or release becomes a key event if and only if its keycode is present and in 0..=255 |
| CoreSdl2.TranslateWindowSize | src/core/backends/rust_sdl2/mod.rs:835-850 | a size change keeps positive dimensions and turns the others into 1 |
| CoreSdl2.TranslateMouse | src/core/backends/rust_sdl2/mod.rs:886-921 | left-button presses and releases are changes of the button state, other buttons give nothing, and motion reports the held state unchanged |
| CoreSdl2.TranslateWheel | src/core/backends/rust_sdl2/mod.rs:922-940 | a wheel event keeps the mouse position, and a flipped wheel negates both steps with i32 wrapping |
| CoreSdl2.WrapInRange | src/core/backends/rust_sdl2/mod.rs:937-938 | wrapping leaves a value that fits in an i32 unchanged |
| CoreSdl2.TranslateNoneIff | src/core/backends/rust_sdl2/mod.rs:825-944 | translation gives nothing if and only if the event is one the backend ignores |
| CoreSdl2.TranslateSdlEvent | src/core/backends/rust_sdl2/mod.rs:825-944 | an SDL event becomes a core event or nothing; TranslateKey, TranslateWindowSize, TranslateMouse, TranslateWheel and TranslateNoneIff prove each kind |
| CoreSdl2.NextEvent | src/core/backends/rust_sdl2/mod.rs:688-695 | events are taken until one translates, and that translation is returned; all events skipped before it translate to nothing |
| CoreSdl2.TextTextureKey | src/core/backends/rust_sdl2/mod.rs:463-470 | a text texture is looked up under the key of its text, binned point size and wrap width |
| CoreSdl2.TextKeysShared | src/core/backends/rust_sdl2/mod.rs:463-470 | two text requests share a key if and only if text, point size bin and wrap width agree |
| CoreSdl2.LowestFreeFromSpec | src/core/backends/rust_sdl2/mod.rs:566-579 | the search from i finds the lowest free channel, given that every channel below i is busy |
| CoreSdl2.LowestFreeChannelSpec | src/core/backends/rust_sdl2/mod.rs:566-579 | the chosen channel is free and all below it are busy; none is chosen only when all are busy |
| CoreSdl2.LowestFreeChannel | src/core/backends/rust_sdl2/mod.rs:566-579 | the lowest channel not playing, or none; LowestFreeChannelSpec proves it |
| CoreSdl2.FindFreeChannel | src/core/backends/rust_sdl2/mod.rs:566-579 | the loop finds the lowest free channel |
| CoreSdl2.LoopingSoundHandle.constructor | src/core/backends/rust_sdl2/mod.rs:951-958 | a new handle holds no channel |
| CoreSdl2.RustSdl2System.constructor | src/core/backends/rust_sdl2/mod.rs:324-346 | a new system holds no chunk on any channel, has a texture cache of 32 with a miss threshold of 2, and a fresh miss checker |
| CoreSdl2.RustSdl2System.Texture | src/core/backends/rust_sdl2/mod.rs:402-421 | an image is looked up under its path key; a cache miss is recorded for the frame, and a failed load on a miss is returned as the error |
| CoreSdl2.RustSdl2System.MissingTexture | src/core/backends/rust_sdl2/mod.rs:772-822 | a miss is recorded, and the call fails if and only if the texture was neither cached nor created |
| CoreSdl2.RustSdl2System.Present | src/core/backends/rust_sdl2/mod.rs:430-448 | a run of missing frames reaching the threshold doubles the cache and the threshold and resets the checker; presenting fails exactly when the debug texture can be neither found nor made |
| CoreSdl2.RustSdl2System.Sound | src/core/backends/rust_sdl2/mod.rs:557-594 | with no free channel nothing happens and Ok is returned; a load error is returned; otherwise the chunk is kept on the lowest free channel and the first mixer error is returned |
| CoreSdl2.RustSdl2System.LoopSound | src/core/backends/rust_sdl2/mod.rs:596-666 | a handle with a channel is only repositioned; otherwise the lowest free channel receives the chunk and the handle takes it only once the loop started |
| CoreSdl2.RustSdl2System.StopLoopSound | src/core/backends/rust_sdl2/mod.rs:668-686 | as written: the channel's chunk is dropped and the handle keeps its channel |
| CoreSdl2.RustSdl2System.StopLoopSoundResetting | src/core/mod.rs:198-208 | as the trait documents: the chunk is dropped and the handle is reset to no channel |
| CoreSdl2.StopThenLoopAsWritten | src/core/backends/rust_sdl2/mod.rs:668-686 | loop, stop, loop again with the code as written leaves the handle on channel 0 with no chunk held: the sound is not restarted |
| CoreSdl2.StopThenLoopResetting | src/core/mod.rs:198-208 | the same sequence with the documented reset holds the chunk again on channel 0 |
| CoreSdl2.MusicContext.constructor | src/core/backends/rust_sdl2/mod.rs:56-59 | no track is current and none is queued |
| CoreSdl2.MusicContext.PlayMusic | src/core/backends/rust_sdl2/mod.rs:737-762 | a load error changes nothing; with a current track and a fade-out the new one is queued; otherwise it becomes current and plays |
| CoreSdl2.MusicContext.StopMusic | src/core/backends/rust_sdl2/mod.rs:725-735 | the queue is dropped; without a fade the current track is dropped at once |
| CoreSdl2.MusicContext.MusicFinishedHook | src/core/backends/rust_sdl2/mod.rs:62-73 | the queued track, if any, becomes current, and the queue empties |
| LegacySdl2.I32AsU32 | src/backends/rust_sdl2/mod.rs:566-568 | `as u32` gives the u32 with the same 32 bits, congruent to the value modulo 2^32 |
| LegacySdl2.I32AsU32RoundTrip | src/backends/rust_sdl2/mod.rs:566-568 | reading the bits back as signed gives the original value; non-negative values are kept and negative ones land above i32::MAX |
| LegacySdl2.TranslateKey | src/backends/rust_sdl2/mod.rs:537-562 | a key press or release becomes a key event if and only if its keycode is present and in 0..=255 |
| LegacySdl2.TranslateWindowSize | src/backends/rust_sdl2/mod.rs:519-534 | a size change keeps positive dimensions and turns the others into 1 |
| LegacySdl2.TranslateMouse | src/backends/rust_sdl2/mod.rs:563-599 | left-button presses and releases are changes of the button state, motion is not, and coordinates become their u32 bits |
| LegacySdl2.TranslateNoneIff | src/backends/rust_sdl2/mod.rs:509-603 | translation gives nothing if and only if the event is one this backend ignores, the mouse wheel included |
| LegacySdl2.TranslateSdlEvent | src/backends/rust_sdl2/mod.rs:509-603 | an SDL event becomes an older-API event or nothing; TranslateKey, TranslateWindowSize, TranslateMouse and TranslateNoneIff prove each kind |
| LegacySdl2.NextEvent | src/backends/rust_sdl2/mod.rs:473-480 | events are taken until one translates, and that translation is returned |
| LegacySdl2.LoopingSoundHandle.constructor | src/backends/rust_sdl2/mod.rs:610-617 | a new handle holds no channel |
| LegacySdl2.RustSdl2System.constructor | src/backends/rust_sdl2/mod.rs:197-200 | a new system holds no chunk on any channel |
| LegacySdl2.RustSdl2System.Sound | src/backends/rust_sdl2/mod.rs:343-380 | with no free channel nothing happens; otherwise the chunk is kept on the lowest free channel and the first error is returned |
| LegacySdl2.RustSdl2System.LoopSound | src/backends/rust_sdl2/mod.rs:383-451 | a handle with a channel is only repositioned; otherwise the lowest free channel receives the chunk and the handle takes it only once the loop started |
| LegacySdl2.RustSdl2System.StopLoopSound | src/backends/rust_sdl2/mod.rs:453-471 | as written: the chunk is dropped and the handle keeps its channel |
| LegacySdl2.RustSdl2System.StopLoopSoundResetting | src/lib.rs:109-119 | as the trait documents: the chunk is dropped and the handle is reset |
| LegacySdl2.StopThenLoopAsWritten | src/backends/rust_sdl2/mod.rs:453-471 | loop, stop, loop again as written does not restart the sound |
| LegacySdl2.StopThenLoopResetting | src/lib.rs:109-119 | with the documented reset the sound is restarted |

## Left out

- The LRU caches themselves (eviction, capacity bookkeeping, the older backend's fixed capacities of 50 sounds and 100 textures) are not modelled. Whether a lookup hits is an input.
- SDL, the mixer, the window and the renderer are not modelled. Events, channel busy flags, load results and mixer call results are inputs.
- Blocking and timing are not modelled: `event_timeout`, `Instant` and frame time steps are only passed along.
- The `MUSIC_CONTEXT` mutex is not modelled. The music context is a single object.
- Fade durations and volume are passed along, not modelled.
- Float layout and the rounding of `FRect` into a `TextureRect`/`TextureArea` are not modelled. Widgets take the rounded position as an input.
- The scroller's `scroll_x_portion`/`scroll_y_portion` outputs are not modelled.
- The scroller's lock is a real fraction, rounded half away from zero.
- ScrollerWidget.Scroller.constructor: the lock fraction is a parameter. The source's value is `MaxLenFailPolicy::NEGATIVE`'s float.
- i32 overflow of wheel step times sensitivity, and of coordinate sums such as x + w, is not modelled. Coordinates are unbounded.
- The `as i32` casts of tile and border sizes are not modelled. Sizes at or above 2^31 would wrap.
- Errors of individual backend copies during a draw are not modelled. That includes the texture fetch in the checkbox and debug draws. A draw returns the commands it issues.
- The scrollers' clip set and restore around the contained draw are not modelled.
- The aspect-ratio priority override in the layout scroller is not modelled.
- `position_for_contained` sizing is not modelled. Its rounded result is the `contentArea` input.
- The contained widget's own update and draw are inputs (`containedResult`, `contained`).
- ButtonWidget.Button.Update: the contained widget is updated through the same events and may consume some; that consumption is not modelled. The stated final events are those the button alone leaves.
- ScrollerWidget.Scroller.Update: the contained widget's consumption of events through the shared events is not modelled. The stated final events are the scroller's own marks and deferred consumptions.
- LayoutScroller.Scroller.Update: the contained widget's consumption of events through the shared events is not modelled. The stated final events are the layout scroller's own marks and deferred consumptions.
- BorderWidget.Border.Update: the contained widget's consumption of events is not modelled. The border itself consumes none.
- CoreSdl2.WrappingMulI32: follows release semantics. A debug build panics on the overflow instead, when the wheel step is i32::MIN.
- CoreSdl2.RustSdl2System.Present: the `debug_assert!` that the texture cache capacity stays below 1000 is not modelled. The `u32` overflow of the doubled miss threshold is not modelled either; the threshold is unbounded.
- CoreSdl2.MusicContext.MusicFinishedHook: assumes the `.unwrap()` on the queued track's play or fade-in succeeds. The source panics when it fails.
- TextureRects.ContainsPoint, TextureRects.Intersection, TextureAreas.ContainsPoint, TextureAreas.Intersection: the `w.get() as i32` casts are not modelled. Sides at or above 2^31 would wrap.
- The border's `preferred_*`, `min` and `max` are not modelled, nor is the child position it computes in update.
- border.rs builds `TextureDestination`s with a `Color`, which texture_rect.rs's `TextureDestination` does not have. The model drops the always-white colour.
- BorderWidget.Border.Draw: a position less than two border widths across would underflow `u32` in the source. The model requires at least that much.
- DebugWidget.Debug.DrawCopy: the `println!` logging a click instead of drawing is not modelled.
- CacheChecker.CacheMissChecker.FrameEnd: the run counter is a `u32` in the source and an unbounded count here. Its overflow cannot occur while `present` resets the checker at the threshold.
- The missing-texture pixel pattern is not modelled. Only whether the texture was found or made matters.
- The direction and distance of the checkbox's toggle sound are not modelled. Only its outcome matters.
- Delegating wrappers have no logic of their own and are not modelled, for example the button's and scroller's sizing passthroughs.
- horizontal_layout, vertical_layout and the sizing module are not part of this model.
- The older backend's `present`, `texture` and `text` are not part of this model.
- color.rs is modelled as constants only.
- `current_widget_mut` is the mutable twin of `current_widget` and is not modelled separately.

## Findings

| source | as written | input that shows it | evidently intended | confidence | as-written member | corrected member |
|---|---|---|---|---|---|---|
| src/core/backends/rust_sdl2/mod.rs:668-686 | `stop_loop_sound` drops the channel's chunk and halts the channel. It never clears `handle.channel`, though the trait (src/core/mod.rs:198-208) says stopping resets the handle. | `loop_sound` on an idle mixer, then `stop_loop_sound`, then `loop_sound` again. The handle still holds channel 0, so the second call only repositions, and no chunk is held. | Stopping clears the handle, so the second `loop_sound` starts the sound on a free channel again. | not executed | CoreSdl2.StopThenLoopAsWritten | CoreSdl2.StopThenLoopResetting |
| src/backends/rust_sdl2/mod.rs:453-471 | The older backend has the same `stop_loop_sound` and also leaves `handle.channel` set, against src/lib.rs:109-119. | The same sequence on the older backend. | The same reset. | not executed | LegacySdl2.StopThenLoopAsWritten | LegacySdl2.StopThenLoopResetting |
