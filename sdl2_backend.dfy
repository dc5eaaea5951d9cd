/**
 * The newer SDL2 backend (src/core/backends/rust_sdl2/mod.rs): event
 * translation, texture-key choice, the texture cache growth rule, channel
 * bookkeeping for sounds and the music queue. SDL itself is outside the
 * model: what its calls report (is a channel playing, did a load or a play
 * succeed, is a texture cached) is passed in as inputs.
 */
module CoreSdl2 {
  import opened Ints
  import opened Wrappers
  import SdlInput
  import CoreEvent
  import TextureKeys
  import PointSizeMath
  import CacheChecker

  // ---------------------------------------------------------------------------
  // Event translation

  /** `i32_to_byte` */
  function I32ToByte(i: I32): (r: Option<Byte>)
    ensures r.Some? <==> 0 <= i <= 255
    ensures r.Some? ==> r.value == i
  {
    if 0 <= i <= 255 then Some(i) else None
  }

  /** `i32_to_nonzero_u32`: sizes that are not positive become 1. */
  function I32ToNonZeroU32(i: I32): NonZeroU32
  {
    if i <= 0 then 1 else i
  }

  /** i32 multiplication as a release build runs it, wrapping on overflow. */
  function WrappingMulI32(a: I32, b: I32): I32
  {
    (a * b - I32_MIN) % TWO_32 + I32_MIN
  }

  function KeyCode(keycode: Option<I32>): Option<Byte>
  {
    match keycode
    case Some(v) => I32ToByte(v)
    case None => None
  }

  /** `translate_sdl_event` */
  function TranslateSdlEvent(e: SdlInput.SdlEvent): Option<CoreEvent.Event>
  {
    match e
    case Quit => Some(CoreEvent.Quit)
    case Window(winEvent) =>
      (match winEvent
       case SizeChanged(w, h) =>
         Some(CoreEvent.WindowEvent(CoreEvent.Window(I32ToNonZeroU32(w), I32ToNonZeroU32(h))))
       case OtherWindowEvent => None)
    case KeyDown(keycode) =>
      (match KeyCode(keycode)
       case Some(key) => Some(CoreEvent.Key(CoreEvent.KeyEvent(key, true)))
       case None => None)
    case KeyUp(keycode) =>
      (match KeyCode(keycode)
       case Some(key) => Some(CoreEvent.Key(CoreEvent.KeyEvent(key, false)))
       case None => None)
    case MouseMotion(leftHeld, x, y) => Some(CoreEvent.Mouse(CoreEvent.MouseEvent(x, y, leftHeld, false)))
    case MouseButtonDown(button, x, y) =>
      if button == SdlInput.Left then Some(CoreEvent.Mouse(CoreEvent.MouseEvent(x, y, true, true))) else None
    case MouseButtonUp(button, x, y) =>
      if button == SdlInput.Left then Some(CoreEvent.Mouse(CoreEvent.MouseEvent(x, y, false, true))) else None
    case MouseWheel(direction, x, y, mouseX, mouseY) =>
      var multiplier := if direction == SdlInput.Flipped then -1 else 1;
      Some(CoreEvent.MouseWheel(CoreEvent.MouseWheelEvent(mouseX, mouseY, WrappingMulI32(x, multiplier), WrappingMulI32(y, multiplier))))
    case OtherEvent => None
  }

  /** A key press or release becomes a key event exactly when its keycode is present and in 0..=255. */
  lemma TranslateKey(keycode: Option<I32>, down: bool)
    ensures TranslateSdlEvent(if down then SdlInput.KeyDown(keycode) else SdlInput.KeyUp(keycode))
         == if keycode.Some? && 0 <= keycode.value <= 255
            then Some(CoreEvent.Key(CoreEvent.KeyEvent(keycode.value, down)))
            else None
  {
  }

  /** A size change keeps positive dimensions and turns the others into 1. */
  lemma TranslateWindowSize(w: I32, h: I32)
    ensures TranslateSdlEvent(SdlInput.Window(SdlInput.SizeChanged(w, h)))
         == Some(CoreEvent.WindowEvent(CoreEvent.Window(if w <= 0 then 1 else w, if h <= 0 then 1 else h)))
  {
  }

  /** Left button presses and releases are changes of the button state; motion reports the state unchanged. */
  lemma TranslateMouse(button: SdlInput.MouseButton, leftHeld: bool, x: I32, y: I32)
    ensures TranslateSdlEvent(SdlInput.MouseMotion(leftHeld, x, y)) == Some(CoreEvent.Mouse(CoreEvent.MouseEvent(x, y, leftHeld, false)))
    ensures TranslateSdlEvent(SdlInput.MouseButtonDown(button, x, y))
         == if button == SdlInput.Left then Some(CoreEvent.Mouse(CoreEvent.MouseEvent(x, y, true, true))) else None
    ensures TranslateSdlEvent(SdlInput.MouseButtonUp(button, x, y))
         == if button == SdlInput.Left then Some(CoreEvent.Mouse(CoreEvent.MouseEvent(x, y, false, true))) else None
  {
  }

  /**
   * A wheel event is placed at the mouse position; a flipped wheel negates
   * both deltas (i32::MIN, which has no negation, wraps to itself).
   */
  lemma TranslateWheel(direction: SdlInput.MouseWheelDirection, dx: I32, dy: I32, mouseX: I32, mouseY: I32)
    ensures var r := TranslateSdlEvent(SdlInput.MouseWheel(direction, dx, dy, mouseX, mouseY));
      r.Some? && r.value.MouseWheel? && r.value.wheel.x == mouseX && r.value.wheel.y == mouseY
      && (direction != SdlInput.Flipped ==> r.value.wheel.wheelDx == dx && r.value.wheel.wheelDy == dy)
      && (direction == SdlInput.Flipped && dx != I32_MIN ==> r.value.wheel.wheelDx == -dx)
      && (direction == SdlInput.Flipped && dy != I32_MIN ==> r.value.wheel.wheelDy == -dy)
  {
    var wdx := WrappingMulI32(dx, if direction == SdlInput.Flipped then -1 else 1);
    var wdy := WrappingMulI32(dy, if direction == SdlInput.Flipped then -1 else 1);
    if direction == SdlInput.Flipped {
      if dx != I32_MIN { WrapInRange(-(dx as int)); }
      if dy != I32_MIN { WrapInRange(-(dy as int)); }
    } else {
      WrapInRange(dx);
      WrapInRange(dy);
    }
  }

  /** Wrapping leaves a value that already fits in an i32 as it is. */
  lemma WrapInRange(v: int)
    requires I32_MIN <= v <= I32_MAX
    ensures (v - I32_MIN) % TWO_32 + I32_MIN == v
  {
  }

  /** Translation gives nothing exactly for the events the backend ignores. */
  lemma TranslateNoneIff(e: SdlInput.SdlEvent)
    ensures TranslateSdlEvent(e).None? <==>
      || e.OtherEvent?
      || (e.Window? && e.winEvent.OtherWindowEvent?)
      || ((e.KeyDown? || e.KeyUp?) && !(e.keycode.Some? && 0 <= e.keycode.value <= 255))
      || ((e.MouseButtonDown? || e.MouseButtonUp?) && e.button != SdlInput.Left)
  {
  }

  /**
   * `event`: takes SDL events until one translates and returns it. The
   * events `wait_event` would deliver are given as a sequence; where the
   * source would go on waiting after the last of them, the model returns
   * None. `taken` is how many events were pulled.
   */
  method NextEvent(pending: seq<SdlInput.SdlEvent>) returns (e: Option<CoreEvent.Event>, taken: nat)
    ensures taken <= |pending|
    ensures e.Some? ==> taken >= 1 && e == TranslateSdlEvent(pending[taken - 1])
    ensures e.None? ==> taken == |pending|
    ensures forall k :: 0 <= k < |pending| && k < taken - (if e.Some? then 1 else 0) ==> TranslateSdlEvent(pending[k]).None?
  {
    taken := 0;
    while taken < |pending|
      invariant taken <= |pending|
      invariant forall k :: 0 <= k < taken ==> TranslateSdlEvent(pending[k]).None?
    {
      var maybeE := TranslateSdlEvent(pending[taken]);
      taken := taken + 1;
      if maybeE.Some? {
        return maybeE, taken;
      }
    }
    return None, taken;
  }

  // ---------------------------------------------------------------------------
  // Texture keys

  /** The resource `text` caches: the point size is rounded to its bin first. */
  function TextKeySource(text: seq<Byte>, pointSize: NonZeroU16, wrapWidth: Option<NonZeroU32>): TextureKeys.KeySource
  {
    var binned := PointSizeMath.CappedNextPowerOfTwo(pointSize);
    match wrapWidth
    case Some(w) => TextureKeys.RenderedWrappedText(text, binned, w)
    case None => TextureKeys.RenderedText(text, binned)
  }

  /** The key `text` looks its texture up under. */
  method TextTextureKey(text: seq<Byte>, pointSize: NonZeroU16, wrapWidth: Option<NonZeroU32>) returns (key: TextureKeys.TextureKey)
    ensures key.data == TextureKeys.Encode(TextKeySource(text, pointSize, wrapWidth))
  {
    var binned := PointSizeMath.CappedNextPowerOfTwo(pointSize);
    match wrapWidth {
      case Some(w) =>
        key := TextureKeys.FromRenderedWrappedText(text, binned, w);
      case None =>
        key := TextureKeys.FromRenderedText(text, binned);
    }
  }

  /** Two text requests share a cached texture exactly when text, point size bin and wrap width agree. */
  lemma TextKeysShared(t1: seq<Byte>, p1: NonZeroU16, w1: Option<NonZeroU32>, t2: seq<Byte>, p2: NonZeroU16, w2: Option<NonZeroU32>)
    ensures TextureKeys.Encode(TextKeySource(t1, p1, w1)) == TextureKeys.Encode(TextKeySource(t2, p2, w2))
        <==> t1 == t2 && w1 == w2 && PointSizeMath.CappedNextPowerOfTwo(p1) == PointSizeMath.CappedNextPowerOfTwo(p2)
  {
    TextureKeys.EncodeInjective(TextKeySource(t1, p1, w1), TextKeySource(t2, p2, w2));
  }

  // ---------------------------------------------------------------------------
  // Channels

  /** The lowest-numbered channel at or after `i` that is not playing. */
  function LowestFreeFrom(isPlaying: seq<bool>, i: nat): Option<nat>
    decreases |isPlaying| - i
  {
    if i >= |isPlaying| then None
    else if !isPlaying[i] then Some(i)
    else LowestFreeFrom(isPlaying, i + 1)
  }

  /** The lowest-numbered channel that is not playing. */
  function LowestFreeChannel(isPlaying: seq<bool>): Option<nat>
  {
    LowestFreeFrom(isPlaying, 0)
  }

  lemma {:induction false} LowestFreeFromSpec(isPlaying: seq<bool>, i: nat)
    requires i <= |isPlaying|
    requires forall j :: 0 <= j < i ==> isPlaying[j]
    ensures var c := LowestFreeFrom(isPlaying, i);
      (c.Some? ==> c.value < |isPlaying| && !isPlaying[c.value] && forall j :: 0 <= j < c.value ==> isPlaying[j])
      && (c.None? <==> forall j :: 0 <= j < |isPlaying| ==> isPlaying[j])
    decreases |isPlaying| - i
  {
    if i < |isPlaying| && isPlaying[i] {
      LowestFreeFromSpec(isPlaying, i + 1);
    }
  }

  /** The chosen channel is free and every channel below it is busy; there is none only when all are busy. */
  lemma LowestFreeChannelSpec(isPlaying: seq<bool>)
    ensures var c := LowestFreeChannel(isPlaying);
      (c.Some? ==> c.value < |isPlaying| && !isPlaying[c.value] && forall j :: 0 <= j < c.value ==> isPlaying[j])
      && (c.None? <==> forall j :: 0 <= j < |isPlaying| ==> isPlaying[j])
  {
    LowestFreeFromSpec(isPlaying, 0);
  }

  /** The `for i in 0..MIX_CHANNELS` search of `sound` and `loop_sound`. */
  method FindFreeChannel(isPlaying: seq<bool>) returns (channel: Option<nat>)
    requires |isPlaying| == SdlInput.MIX_CHANNELS
    ensures channel == LowestFreeChannel(isPlaying)
  {
    channel := None;
    var i := 0;
    while i < SdlInput.MIX_CHANNELS
      invariant 0 <= i <= SdlInput.MIX_CHANNELS
      invariant LowestFreeFrom(isPlaying, i) == LowestFreeChannel(isPlaying)
    {
      if !isPlaying[i] {
        channel := Some(i);
        return;
      }
      i := i + 1;
    }
  }

  /** A looping sound: the channel it holds, once it has one, and the file it plays. */
  class LoopingSoundHandle {
    var channel: Option<nat>
    const path: seq<Byte>

    /** `LoopingSoundHandle::new`: no channel yet. */
    constructor (path: seq<Byte>)
      ensures this.path == path && channel.None?
    {
      this.path := path;
      channel := None;
    }
  }

  // ---------------------------------------------------------------------------
  // The system

  const INITIAL_TEXTURE_CACHE_CAPACITY: nat := 32
  const INITIAL_TEXTURE_CACHE_MISS_THRESHOLD: nat := 2
  /** The audio cache's fixed capacity. */
  const AUDIO_CACHE_CAPACITY: nat := SdlInput.MIX_CHANNELS * 4

  class RustSdl2System {
    /** `channel_refs`: the chunk kept alive for each mixer channel. */
    const channelRefs: array<Option<SdlInput.Chunk>>
    const textureCacheHealthChecker: CacheChecker.CacheMissChecker
    /** The texture cache's capacity (the cache itself is not modelled). */
    var textureCacheCapacity: nat
    var textureCacheMissThreshold: nat

    ghost predicate Valid()
      reads this, textureCacheHealthChecker
    {
      channelRefs.Length == SdlInput.MIX_CHANNELS && textureCacheHealthChecker.Valid()
    }

    /** The state `new` sets up. */
    constructor ()
      ensures Valid() && fresh(channelRefs) && fresh(textureCacheHealthChecker)
      ensures textureCacheCapacity == INITIAL_TEXTURE_CACHE_CAPACITY
      ensures textureCacheMissThreshold == INITIAL_TEXTURE_CACHE_MISS_THRESHOLD
      ensures forall i :: 0 <= i < channelRefs.Length ==> channelRefs[i].None?
      ensures textureCacheHealthChecker.frames == [] && !textureCacheHealthChecker.thisFrameHadCacheMisses
    {
      channelRefs := new Option<SdlInput.Chunk>[SdlInput.MIX_CHANNELS](_ => None);
      textureCacheHealthChecker := new CacheChecker.CacheMissChecker();
      textureCacheCapacity := INITIAL_TEXTURE_CACHE_CAPACITY;
      textureCacheMissThreshold := INITIAL_TEXTURE_CACHE_MISS_THRESHOLD;
    }

    /**
     * `texture`: looks the image up by its path key. On a miss the miss is
     * recorded and the image is loaded; `loaded` is that load's outcome,
     * and a failed load is passed on after the miss was recorded.
     */
    method Texture(imagePath: seq<Byte>, cached: bool, loaded: SdlInput.Outcome) returns (r: Result<TextureKeys.TextureKey, string>)
      requires Valid()
      modifies textureCacheHealthChecker`thisFrameHadCacheMisses
      ensures Valid()
      ensures !cached && loaded.Err? ==> r == Err(loaded.error)
      ensures cached || loaded.Ok? ==> r.Ok? && r.value.data == TextureKeys.Encode(TextureKeys.FromPath(imagePath))
      ensures textureCacheHealthChecker.thisFrameHadCacheMisses == (old(textureCacheHealthChecker.thisFrameHadCacheMisses) || !cached)
    {
      var key := TextureKeys.FromPathKey(imagePath);
      if !cached {
        textureCacheHealthChecker.CacheMissOccurred();
        if loaded.Err? {
          return Err(loaded.error);
        }
      }
      r := Ok(key);
    }

    /**
     * `missing_texture`: looks the debug texture up; on a miss it records
     * the miss and builds the texture, which may fail.
     */
    method MissingTexture(cached: bool, created: bool) returns (r: SdlInput.Outcome)
      requires Valid()
      modifies textureCacheHealthChecker`thisFrameHadCacheMisses
      ensures Valid()
      ensures textureCacheHealthChecker.thisFrameHadCacheMisses == (old(textureCacheHealthChecker.thisFrameHadCacheMisses) || !cached)
      ensures r.Err? <==> !cached && !created
    {
      if !cached {
        textureCacheHealthChecker.CacheMissOccurred();
        if !created {
          return Err("cannot create the debug texture");
        }
      }
      r := Ok(());
    }

    /**
     * `present`: ends the frame. The debug texture is looked up first so
     * that an application drawing only text still registers misses; when the
     * run of frames with misses reaches the threshold, the threshold and the
     * cache capacity double and the checker starts over.
     */
    method Present(debugCached: bool, debugCreated: bool) returns (r: SdlInput.Outcome)
      requires Valid()
      modifies this, textureCacheHealthChecker
      ensures Valid()
      ensures r.Err? <==> !debugCached && !debugCreated
      ensures r.Err? ==>
        && textureCacheCapacity == old(textureCacheCapacity)
        && textureCacheMissThreshold == old(textureCacheMissThreshold)
        && textureCacheHealthChecker.frames == old(textureCacheHealthChecker.frames)
        && textureCacheHealthChecker.thisFrameHadCacheMisses
      ensures r.Ok? ==>
        var frames := old(textureCacheHealthChecker.frames) + [old(textureCacheHealthChecker.thisFrameHadCacheMisses) || !debugCached];
        if CacheChecker.TrailingMissRun(frames) >= old(textureCacheMissThreshold) then
          && textureCacheMissThreshold == 2 * old(textureCacheMissThreshold)
          && textureCacheCapacity == 2 * old(textureCacheCapacity)
          && textureCacheHealthChecker.frames == []
          && textureCacheHealthChecker.lastNFramesHadCacheMisses == 0
          && !textureCacheHealthChecker.thisFrameHadCacheMisses
        else
          && textureCacheMissThreshold == old(textureCacheMissThreshold)
          && textureCacheCapacity == old(textureCacheCapacity)
          && textureCacheHealthChecker.frames == frames
          && !textureCacheHealthChecker.thisFrameHadCacheMisses
    {
      r := MissingTexture(debugCached, debugCreated);
      if r.Err? {
        return;
      }
      var previousNFramesHadCacheMisses := textureCacheHealthChecker.FrameEnd();
      if previousNFramesHadCacheMisses >= textureCacheMissThreshold {
        textureCacheMissThreshold := textureCacheMissThreshold * 2;
        textureCacheCapacity := textureCacheCapacity * 2;
        textureCacheHealthChecker.Reset();
      }
    }

    /**
     * `sound`: plays a chunk once on the lowest free channel, keeping a
     * reference to it there. With every channel busy nothing happens and no
     * error is reported. `loaded` is what the audio cache lookup gives,
     * `setPosition` and `play` what the mixer calls return.
     */
    method Sound(path: seq<Byte>, isPlaying: seq<bool>, loaded: Result<SdlInput.Chunk, string>, setPosition: SdlInput.Outcome, play: SdlInput.Outcome)
      returns (r: SdlInput.Outcome)
      requires Valid() && |isPlaying| == SdlInput.MIX_CHANNELS
      modifies channelRefs
      ensures var ch := LowestFreeChannel(isPlaying);
        if ch.None? then r.Ok? && channelRefs[..] == old(channelRefs[..])
        else if loaded.Err? then r == Err(loaded.error) && channelRefs[..] == old(channelRefs[..])
        else
          && ch.value < SdlInput.MIX_CHANNELS
          && channelRefs[..] == old(channelRefs[..])[ch.value := Some(loaded.value)]
          && r == (if setPosition.Err? then setPosition else if play.Err? then play else Ok(()))
    {
      var channel := FindFreeChannel(isPlaying);
      if channel.None? {
        return Ok(());
      }
      LowestFreeChannelSpec(isPlaying);
      if loaded.Err? {
        return Err(loaded.error);
      }
      var chunk := loaded.value;
      channelRefs[channel.value] := Some(chunk);
      if setPosition.Err? {
        return setPosition;
      }
      if play.Err? {
        return play;
      }
      r := Ok(());
    }

    /**
     * `loop_sound`: keeps a looping sound going. A handle that holds a
     * channel only has its position updated. Otherwise the lowest free
     * channel is reserved (none free: nothing happens), the chunk recorded in
     * `channel_refs`, the loop started, and only then is the channel stored
     * in the handle.
     */
    method LoopSound(handle: LoopingSoundHandle, isPlaying: seq<bool>, loaded: Result<SdlInput.Chunk, string>, setPosition: SdlInput.Outcome, play: SdlInput.Outcome)
      returns (r: SdlInput.Outcome)
      requires Valid() && |isPlaying| == SdlInput.MIX_CHANNELS
      requires handle.channel.Some? ==> handle.channel.value < SdlInput.MIX_CHANNELS
      modifies channelRefs, handle
      ensures handle.channel.Some? ==> handle.channel.value < SdlInput.MIX_CHANNELS
      ensures old(handle.channel).Some? ==>
        && handle.channel == old(handle.channel)
        && channelRefs[..] == old(channelRefs[..])
        && r == (if setPosition.Err? then setPosition else Ok(()))
      ensures old(handle.channel).None? ==>
        var ch := LowestFreeChannel(isPlaying);
        if ch.None? then r.Ok? && handle.channel.None? && channelRefs[..] == old(channelRefs[..])
        else if setPosition.Err? then r == setPosition && handle.channel.None? && channelRefs[..] == old(channelRefs[..])
        else if loaded.Err? then r == Err(loaded.error) && handle.channel.None? && channelRefs[..] == old(channelRefs[..])
        else
          && ch.value < SdlInput.MIX_CHANNELS
          && channelRefs[..] == old(channelRefs[..])[ch.value := Some(loaded.value)]
          && r == (if play.Err? then play else Ok(()))
          && handle.channel == (if play.Ok? then ch else None)
    {
      var channel: nat;
      var newlyPlaying: bool;
      match handle.channel {
        case Some(v) =>
          channel, newlyPlaying := v, false;
        case None =>
          var channelToUse := FindFreeChannel(isPlaying);
          match channelToUse {
            case None =>
              return Ok(());
            case Some(ch) =>
              LowestFreeChannelSpec(isPlaying);
              channel, newlyPlaying := ch, true;
          }
      }
      if setPosition.Err? {
        return setPosition;
      }
      if newlyPlaying {
        if loaded.Err? {
          return Err(loaded.error);
        }
        var chunk := loaded.value;
        channelRefs[channel] := Some(chunk);
        if play.Err? {
          return play;
        }
        handle.channel := Some(channel);
      }
      r := Ok(());
    }

    /**
     * `stop_loop_sound`, as written: drops the channel's chunk reference and
     * stops the channel, but leaves the channel in the handle.
     */
    method StopLoopSound(handle: LoopingSoundHandle)
      requires Valid()
      requires handle.channel.Some? ==> handle.channel.value < SdlInput.MIX_CHANNELS
      modifies channelRefs
      ensures handle.channel.None? ==> channelRefs[..] == old(channelRefs[..])
      ensures handle.channel.Some? ==> channelRefs[..] == old(channelRefs[..])[handle.channel.value := None]
    {
      match handle.channel {
        case None =>
          return;
        case Some(channel) =>
          channelRefs[channel] := None;
      }
    }

    /**
     * `stop_loop_sound` as the trait documents it: the handle is reset as
     * well, so that a later `loop_sound` starts a new looping sound.
     */
    method StopLoopSoundResetting(handle: LoopingSoundHandle)
      requires Valid()
      requires handle.channel.Some? ==> handle.channel.value < SdlInput.MIX_CHANNELS
      modifies channelRefs, handle
      ensures handle.channel.None?
      ensures old(handle.channel).None? ==> channelRefs[..] == old(channelRefs[..])
      ensures old(handle.channel).Some? ==> channelRefs[..] == old(channelRefs[..])[old(handle.channel).value := None]
    {
      match handle.channel {
        case None =>
          return;
        case Some(channel) =>
          channelRefs[channel] := None;
          handle.channel := None;
      }
    }
  }

  /**
   * Start a looping sound on an idle mixer, stop it, and loop it again with
   * `stop_loop_sound` as written: the second `loop_sound` finds the stale
   * channel in the handle, takes the already-playing path and starts
   * nothing, so no chunk is held for the sound any more.
   */
  method StopThenLoopAsWritten() returns (handleChannel: Option<nat>, heldChunk: Option<SdlInput.Chunk>)
    ensures handleChannel == Some(0) && heldChunk.None?
  {
    var sys := new RustSdl2System();
    var chunk := SdlInput.Chunk([0x61]);
    var handle := new LoopingSoundHandle(chunk.path);
    var idle := seq(SdlInput.MIX_CHANNELS, _ => false);
    assert LowestFreeFrom(idle, 0) == Some(0);
    var r1 := sys.LoopSound(handle, idle, Ok(chunk), Ok(()), Ok(()));
    sys.StopLoopSound(handle);
    var r2 := sys.LoopSound(handle, idle, Ok(chunk), Ok(()), Ok(()));
    handleChannel, heldChunk := handle.channel, sys.channelRefs[0];
  }

  /** The same sequence with the documented reset: the second `loop_sound` starts the sound again on a free channel. */
  method StopThenLoopResetting() returns (handleChannel: Option<nat>, heldChunk: Option<SdlInput.Chunk>)
    ensures handleChannel == Some(0) && heldChunk == Some(SdlInput.Chunk([0x61]))
  {
    var sys := new RustSdl2System();
    var chunk := SdlInput.Chunk([0x61]);
    var handle := new LoopingSoundHandle(chunk.path);
    var idle := seq(SdlInput.MIX_CHANNELS, _ => false);
    assert LowestFreeFrom(idle, 0) == Some(0);
    var r1 := sys.LoopSound(handle, idle, Ok(chunk), Ok(()), Ok(()));
    sys.StopLoopSoundResetting(handle);
    var r2 := sys.LoopSound(handle, idle, Ok(chunk), Ok(()), Ok(()));
    handleChannel, heldChunk := handle.channel, sys.channelRefs[0];
  }

  // ---------------------------------------------------------------------------
  // Music

  /**
   * `MusicContext`, the global music state: the track playing now, and the
   * track to start (with its fade-in) once the current one has faded out.
   */
  class MusicContext {
    var currentMusic: Option<SdlInput.Music>
    var nextMusic: Option<(SdlInput.Music, Option<nat>)>

    /** A track is queued only while another one is current and fading out. */
    ghost predicate Valid()
      reads this
    {
      nextMusic.Some? ==> currentMusic.Some?
    }

    /** The initial value of `MUSIC_CONTEXT`. */
    constructor ()
      ensures Valid() && currentMusic.None? && nextMusic.None?
    {
      currentMusic := None;
      nextMusic := None;
    }

    /**
     * `music`: with a track playing and a fade-out requested, the new track
     * is queued and the current one faded out; otherwise the new track starts
     * at once. `loaded` is `Music::from_file`'s result, `fadeOutResult` and
     * `playResult` what the mixer calls return.
     */
    method PlayMusic(loaded: Result<SdlInput.Music, string>, fadeOut: Option<nat>, fadeIn: Option<nat>, fadeOutResult: SdlInput.Outcome, playResult: SdlInput.Outcome)
      returns (r: SdlInput.Outcome)
      requires Valid()
      modifies this
      ensures Valid()
      ensures loaded.Err? ==> r == Err(loaded.error) && currentMusic == old(currentMusic) && nextMusic == old(nextMusic)
      ensures loaded.Ok? && old(currentMusic).Some? && fadeOut.Some? ==>
        nextMusic == Some((loaded.value, fadeIn)) && currentMusic == old(currentMusic)
        && r == (if fadeOutResult.Err? then fadeOutResult else Ok(()))
      ensures loaded.Ok? && !(old(currentMusic).Some? && fadeOut.Some?) ==>
        && r == (if playResult.Err? then playResult else Ok(()))
        && nextMusic == old(nextMusic)
        && currentMusic == (if playResult.Ok? then Some(loaded.value) else old(currentMusic))
    {
      if loaded.Err? {
        return Err(loaded.error);
      }
      var music := loaded.value;
      if currentMusic.Some? && fadeOut.Some? {
        nextMusic := Some((music, fadeIn));
        if fadeOutResult.Err? {
          return fadeOutResult;
        }
        return Ok(());
      }
      if playResult.Err? {
        return playResult;
      }
      currentMusic := Some(music);
      r := Ok(());
    }

    /** `stop_music`: drops the queued track; without a fade the current track is dropped at once. */
    method StopMusic(fadeOut: Option<nat>, fadeOutResult: SdlInput.Outcome) returns (r: SdlInput.Outcome)
      requires Valid()
      modifies this
      ensures Valid() && nextMusic.None?
      ensures fadeOut.Some? ==> currentMusic == old(currentMusic) && r == (if fadeOutResult.Err? then fadeOutResult else Ok(()))
      ensures fadeOut.None? ==> currentMusic.None? && r.Ok?
    {
      nextMusic := None;
      match fadeOut {
        case Some(_) =>
          if fadeOutResult.Err? {
            return fadeOutResult;
          }
        case None =>
          currentMusic := None;
      }
      r := Ok(());
    }

    /**
     * `music_finished_hook`: the current track has ended; the queued one, if
     * any, becomes current. Starting it is unwrapped in the source, so the
     * model takes it to succeed.
     */
    method MusicFinishedHook()
      requires Valid()
      modifies this
      ensures Valid() && nextMusic.None?
      ensures currentMusic == if old(nextMusic).Some? then Some(old(nextMusic).value.0) else None
    {
      currentMusic := None;
      var next := nextMusic;
      nextMusic := None;
      if next.Some? {
        currentMusic := Some(next.value.0);
      }
    }
  }
}
