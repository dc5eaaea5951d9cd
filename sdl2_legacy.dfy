/**
 * The older SDL2 backend (src/backends/rust_sdl2/mod.rs), which serves the
 * API of src/lib.rs: its event translation and its channel bookkeeping for
 * sounds. As in the newer backend, what SDL reports is passed in.
 */
module LegacySdl2 {
  import opened Ints
  import opened Wrappers
  import SdlInput
  import LegacyApi
  import CoreSdl2

  /** `x as u32` on an i32: the same 32 bits read as unsigned. */
  function I32AsU32(i: I32): (r: U32)
    ensures r % TWO_32 == i % TWO_32
  {
    if i < 0 then i + TWO_32 else i
  }

  /** The reinterpretation loses nothing: reading the bits back as signed gives the original value. */
  lemma I32AsU32RoundTrip(i: I32)
    ensures var r := I32AsU32(i); (if r > I32_MAX then r - TWO_32 else r) == i
    ensures 0 <= i ==> I32AsU32(i) == i
    ensures i < 0 ==> I32AsU32(i) > I32_MAX
  {
  }

  function KeyCode(keycode: Option<I32>): Option<Byte>
  {
    match keycode
    case Some(v) => CoreSdl2.I32ToByte(v)
    case None => None
  }

  /** `translate_sdl_event` of the older backend: there is no wheel event, and coordinates become u32. */
  function TranslateSdlEvent(e: SdlInput.SdlEvent): Option<LegacyApi.Event>
  {
    match e
    case Quit => Some(LegacyApi.Quit)
    case Window(winEvent) =>
      (match winEvent
       case SizeChanged(w, h) =>
         Some(LegacyApi.WindowEvent(LegacyApi.Window(CoreSdl2.I32ToNonZeroU32(w), CoreSdl2.I32ToNonZeroU32(h))))
       case OtherWindowEvent => None)
    case KeyDown(keycode) =>
      (match KeyCode(keycode)
       case Some(key) => Some(LegacyApi.Key(LegacyApi.KeyEvent(key, true)))
       case None => None)
    case KeyUp(keycode) =>
      (match KeyCode(keycode)
       case Some(key) => Some(LegacyApi.Key(LegacyApi.KeyEvent(key, false)))
       case None => None)
    case MouseMotion(leftHeld, x, y) =>
      Some(LegacyApi.Mouse(LegacyApi.MouseEvent(I32AsU32(x), I32AsU32(y), leftHeld, false)))
    case MouseButtonDown(button, x, y) =>
      if button == SdlInput.Left then Some(LegacyApi.Mouse(LegacyApi.MouseEvent(I32AsU32(x), I32AsU32(y), true, true))) else None
    case MouseButtonUp(button, x, y) =>
      if button == SdlInput.Left then Some(LegacyApi.Mouse(LegacyApi.MouseEvent(I32AsU32(x), I32AsU32(y), false, true))) else None
    case MouseWheel(_, _, _, _, _) => None
    case OtherEvent => None
  }

  /** A key press or release becomes a key event exactly when its keycode is present and in 0..=255. */
  lemma TranslateKey(keycode: Option<I32>, down: bool)
    ensures TranslateSdlEvent(if down then SdlInput.KeyDown(keycode) else SdlInput.KeyUp(keycode))
         == if keycode.Some? && 0 <= keycode.value <= 255
            then Some(LegacyApi.Key(LegacyApi.KeyEvent(keycode.value, down)))
            else None
  {
  }

  /** A size change keeps positive dimensions and turns the others into 1. */
  lemma TranslateWindowSize(w: I32, h: I32)
    ensures TranslateSdlEvent(SdlInput.Window(SdlInput.SizeChanged(w, h)))
         == Some(LegacyApi.WindowEvent(LegacyApi.Window(if w <= 0 then 1 else w, if h <= 0 then 1 else h)))
  {
  }

  /**
   * Left button presses and releases are changes of the button state,
   * motion is not; negative coordinates come out as their two's-complement
   * u32 value.
   */
  lemma TranslateMouse(button: SdlInput.MouseButton, leftHeld: bool, x: I32, y: I32)
    ensures var ux := if x < 0 then x + TWO_32 else x;
            var uy := if y < 0 then y + TWO_32 else y;
      && TranslateSdlEvent(SdlInput.MouseMotion(leftHeld, x, y)) == Some(LegacyApi.Mouse(LegacyApi.MouseEvent(ux, uy, leftHeld, false)))
      && TranslateSdlEvent(SdlInput.MouseButtonDown(button, x, y))
         == (if button == SdlInput.Left then Some(LegacyApi.Mouse(LegacyApi.MouseEvent(ux, uy, true, true))) else None)
      && TranslateSdlEvent(SdlInput.MouseButtonUp(button, x, y))
         == (if button == SdlInput.Left then Some(LegacyApi.Mouse(LegacyApi.MouseEvent(ux, uy, false, true))) else None)
  {
  }

  /** Translation gives nothing exactly for the events this backend ignores, the mouse wheel among them. */
  lemma TranslateNoneIff(e: SdlInput.SdlEvent)
    ensures TranslateSdlEvent(e).None? <==>
      || e.OtherEvent?
      || e.MouseWheel?
      || (e.Window? && e.winEvent.OtherWindowEvent?)
      || ((e.KeyDown? || e.KeyUp?) && !(e.keycode.Some? && 0 <= e.keycode.value <= 255))
      || ((e.MouseButtonDown? || e.MouseButtonUp?) && e.button != SdlInput.Left)
  {
  }

  /**
   * `event`: takes SDL events until one translates. As in the newer
   * backend, running out of given events stands for waiting on.
   */
  method NextEvent(pending: seq<SdlInput.SdlEvent>) returns (e: Option<LegacyApi.Event>, taken: nat)
    ensures taken <= |pending|
    ensures e.Some? ==> taken >= 1 && e == TranslateSdlEvent(pending[taken - 1])
    ensures e.None? ==> taken == |pending|
    ensures forall k :: 0 <= k < |pending| && k < taken - (if e.Some? then 1 else 0) ==> TranslateSdlEvent(pending[k]).None?
  {
    var i := 0;
    while i < |pending|
      invariant i <= |pending|
      invariant forall k :: 0 <= k < i ==> TranslateSdlEvent(pending[k]).None?
    {
      var maybeE := TranslateSdlEvent(pending[i]);
      i := i + 1;
      if maybeE.Some? {
        e, taken := maybeE, i;
        return;
      }
    }
    e, taken := None, i;
  }

  /** The older backend's looping-sound handle. */
  class LoopingSoundHandle {
    var channel: Option<nat>
    const path: seq<Byte>

    /** `LoopingSoundHandle::new`: no channel yet. */
    constructor (path: seq<Byte>)
      ensures this.path == path && channel.None?
    {
      this.path := path;
      channel := None;
    }
  }

  class RustSdl2System {
    /** `channel_refs`: the chunk kept alive for each mixer channel. */
    const channelRefs: array<Option<SdlInput.Chunk>>

    ghost predicate Valid()
      reads this
    {
      channelRefs.Length == SdlInput.MIX_CHANNELS
    }

    /** `new`: `channel_refs` starts out empty. */
    constructor ()
      ensures Valid() && fresh(channelRefs)
      ensures forall i :: 0 <= i < channelRefs.Length ==> channelRefs[i].None?
    {
      channelRefs := new Option<SdlInput.Chunk>[SdlInput.MIX_CHANNELS](_ => None);
    }

    /**
     * `sound`: one play on the lowest free channel, whose chunk is kept in
     * `channel_refs`; with every channel busy it quietly does nothing.
     */
    method Sound(path: seq<Byte>, isPlaying: seq<bool>, loaded: Result<SdlInput.Chunk, string>, setPosition: SdlInput.Outcome, play: SdlInput.Outcome)
      returns (r: SdlInput.Outcome)
      requires Valid() && |isPlaying| == SdlInput.MIX_CHANNELS
      modifies channelRefs
      ensures var ch := CoreSdl2.LowestFreeChannel(isPlaying);
        if ch.None? then r.Ok? && channelRefs[..] == old(channelRefs[..])
        else if loaded.Err? then r == Err(loaded.error) && channelRefs[..] == old(channelRefs[..])
        else
          && ch.value < SdlInput.MIX_CHANNELS
          && channelRefs[..] == old(channelRefs[..])[ch.value := Some(loaded.value)]
          && (r.Err? <==> setPosition.Err? || play.Err?)
          && (r.Err? ==> r == if setPosition.Err? then setPosition else play)
    {
      var channel := CoreSdl2.FindFreeChannel(isPlaying);
      CoreSdl2.LowestFreeChannelSpec(isPlaying);
      match channel {
        case None =>
          r := Ok(());
        case Some(ch) =>
          match loaded {
            case Err(msg) =>
              r := Err(msg);
            case Ok(chunk) =>
              channelRefs[ch] := Some(chunk);
              r := if setPosition.Err? then setPosition else if play.Err? then play else Ok(());
          }
      }
    }

    /**
     * `loop_sound`: a handle holding a channel is only repositioned;
     * otherwise a free channel is reserved, its chunk recorded and the loop
     * started, and the handle takes the channel only once that succeeded.
     */
    method LoopSound(handle: LoopingSoundHandle, isPlaying: seq<bool>, loaded: Result<SdlInput.Chunk, string>, setPosition: SdlInput.Outcome, play: SdlInput.Outcome)
      returns (r: SdlInput.Outcome)
      requires Valid() && |isPlaying| == SdlInput.MIX_CHANNELS
      requires handle.channel.Some? ==> handle.channel.value < SdlInput.MIX_CHANNELS
      modifies channelRefs, handle
      ensures handle.channel.Some? ==> handle.channel.value < SdlInput.MIX_CHANNELS
      ensures old(handle.channel).Some? ==>
        && handle.channel == old(handle.channel)
        && channelRefs[..] == old(channelRefs[..])
        && (r.Err? <==> setPosition.Err?) && (r.Err? ==> r == setPosition)
      ensures old(handle.channel).None? ==>
        var ch := CoreSdl2.LowestFreeChannel(isPlaying);
        if ch.None? || setPosition.Err? || loaded.Err? then
          && handle.channel.None?
          && channelRefs[..] == old(channelRefs[..])
          && r == (if ch.None? then Ok(()) else if setPosition.Err? then setPosition else Err(loaded.error))
        else
          && ch.value < SdlInput.MIX_CHANNELS
          && channelRefs[..] == old(channelRefs[..])[ch.value := Some(loaded.value)]
          && (r.Err? <==> play.Err?) && (r.Err? ==> r == play)
          && handle.channel == (if play.Ok? then ch else None)
    {
      if handle.channel.Some? {
        r := if setPosition.Err? then setPosition else Ok(());
        return;
      }
      var channelToUse := CoreSdl2.FindFreeChannel(isPlaying);
      CoreSdl2.LowestFreeChannelSpec(isPlaying);
      if channelToUse.None? {
        return Ok(());
      }
      var channel := channelToUse.value;
      if setPosition.Err? {
        return setPosition;
      }
      if loaded.Err? {
        return Err(loaded.error);
      }
      channelRefs[channel] := Some(loaded.value);
      if play.Err? {
        return play;
      }
      handle.channel := Some(channel);
      r := Ok(());
    }

    /** `stop_loop_sound`, as written: the chunk reference is dropped, the handle keeps its channel. */
    method StopLoopSound(handle: LoopingSoundHandle)
      requires Valid()
      requires handle.channel.Some? ==> handle.channel.value < SdlInput.MIX_CHANNELS
      modifies channelRefs
      ensures channelRefs[..] == if handle.channel.None? then old(channelRefs[..]) else old(channelRefs[..])[handle.channel.value := None]
    {
      if handle.channel.Some? {
        channelRefs[handle.channel.value] := None;
      }
    }

    /** `stop_loop_sound` as `System::stop_loop_sound` documents it, resetting the handle too. */
    method StopLoopSoundResetting(handle: LoopingSoundHandle)
      requires Valid()
      requires handle.channel.Some? ==> handle.channel.value < SdlInput.MIX_CHANNELS
      modifies channelRefs, handle
      ensures handle.channel.None?
      ensures channelRefs[..] == if old(handle.channel).None? then old(channelRefs[..]) else old(channelRefs[..])[old(handle.channel).value := None]
    {
      if handle.channel.Some? {
        channelRefs[handle.channel.value] := None;
        handle.channel := None;
      }
    }
  }

  /** Loop, stop and loop again with `stop_loop_sound` as written: the sound is not started again. */
  method StopThenLoopAsWritten() returns (handleChannel: Option<nat>, heldChunk: Option<SdlInput.Chunk>)
    ensures handleChannel == Some(0) && heldChunk.None?
  {
    var sys := new RustSdl2System();
    var chunk := SdlInput.Chunk([0x62]);
    var handle := new LoopingSoundHandle(chunk.path);
    var idle := seq(SdlInput.MIX_CHANNELS, _ => false);
    assert CoreSdl2.LowestFreeFrom(idle, 0) == Some(0);
    var r1 := sys.LoopSound(handle, idle, Ok(chunk), Ok(()), Ok(()));
    sys.StopLoopSound(handle);
    var r2 := sys.LoopSound(handle, idle, Ok(chunk), Ok(()), Ok(()));
    handleChannel, heldChunk := handle.channel, sys.channelRefs[0];
  }

  /** The same with the documented reset: the second `loop_sound` starts the sound again. */
  method StopThenLoopResetting() returns (handleChannel: Option<nat>, heldChunk: Option<SdlInput.Chunk>)
    ensures handleChannel == Some(0) && heldChunk == Some(SdlInput.Chunk([0x62]))
  {
    var sys := new RustSdl2System();
    var chunk := SdlInput.Chunk([0x62]);
    var handle := new LoopingSoundHandle(chunk.path);
    var idle := seq(SdlInput.MIX_CHANNELS, _ => false);
    assert CoreSdl2.LowestFreeFrom(idle, 0) == Some(0);
    var r1 := sys.LoopSound(handle, idle, Ok(chunk), Ok(()), Ok(()));
    sys.StopLoopSoundResetting(handle);
    var r2 := sys.LoopSound(handle, idle, Ok(chunk), Ok(()), Ok(()));
    handleChannel, heldChunk := handle.channel, sys.channelRefs[0];
  }
}
