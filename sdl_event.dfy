/**
 * The part of rust-sdl2's event type that both backends translate. It is an
 * external library, so it enters the model as a plain datatype of inputs.
 */
module SdlInput {
  import opened Ints
  import opened Wrappers

  datatype MouseButton = Left | Middle | Right | X1 | X2 | UnknownButton

  datatype WindowEvent = SizeChanged(w: I32, h: I32) | OtherWindowEvent

  datatype MouseWheelDirection = Normal | Flipped | UnknownDirection

  datatype SdlEvent =
    | Quit
    | Window(winEvent: WindowEvent)
    | KeyDown(keycode: Option<I32>)
    | KeyUp(keycode: Option<I32>)
    /** `mousestate.left()` is `leftHeld`. */
    | MouseMotion(leftHeld: bool, x: I32, y: I32)
    | MouseButtonDown(button: MouseButton, x: I32, y: I32)
    | MouseButtonUp(button: MouseButton, x: I32, y: I32)
    | MouseWheel(direction: MouseWheelDirection, x: I32, y: I32, mouseX: I32, mouseY: I32)
    /** Every event kind neither backend looks at. */
    | OtherEvent

  /** Number of mixer channels (`sdl2::sys::mixer::MIX_CHANNELS`). */
  const MIX_CHANNELS: nat := 8

  /** A sound loaded from a file (`sdl2::mixer::Chunk`), known by its path. */
  datatype Chunk = Chunk(path: seq<Byte>)

  /** A music track loaded from a file (`sdl2::mixer::Music`), known by its path. */
  datatype Music = Music(path: seq<Byte>)

  /** What a call into the mixer returned. */
  type Outcome = Result<(), string>
}
