/**
 * Detection of texture cache thrashing (src/core/backends/rust_sdl2/cache_checker.rs):
 * the checker counts how many consecutive frames, up to the current one, had
 * at least one cache miss.
 */
module CacheChecker {

  /** The number of frames at the end of `frames` that had a miss, counted back to the last frame without one. */
  function TrailingMissRun(frames: seq<bool>): nat
  {
    if |frames| == 0 || !frames[|frames| - 1] then 0
    else 1 + TrailingMissRun(frames[..|frames| - 1])
  }

  /** The run is the longest suffix of missing frames: all of it missed, and the frame before it did not. */
  lemma {:induction false} TrailingMissRunIsLongestSuffix(frames: seq<bool>)
    ensures TrailingMissRun(frames) <= |frames|
    ensures forall k :: |frames| - TrailingMissRun(frames) <= k < |frames| ==> frames[k]
    ensures TrailingMissRun(frames) < |frames| ==> !frames[|frames| - 1 - TrailingMissRun(frames)]
  {
    if |frames| > 0 && frames[|frames| - 1] {
      var prefix := frames[..|frames| - 1];
      TrailingMissRunIsLongestSuffix(prefix);
      assert forall k :: 0 <= k < |prefix| ==> prefix[k] == frames[k];
    }
  }

  class CacheMissChecker {
    var lastNFramesHadCacheMisses: nat
    var thisFrameHadCacheMisses: bool
    /** Whether each frame ended since construction or the last reset had a miss. */
    ghost var frames: seq<bool>

    ghost predicate Valid()
      reads this
    {
      lastNFramesHadCacheMisses == TrailingMissRun(frames)
    }

    /** `Default::default` */
    constructor ()
      ensures Valid() && frames == []
      ensures lastNFramesHadCacheMisses == 0 && !thisFrameHadCacheMisses
    {
      lastNFramesHadCacheMisses := 0;
      thisFrameHadCacheMisses := false;
      frames := [];
    }

    /** `cache_miss_occurred`: marks the current frame as having missed. */
    method CacheMissOccurred()
      requires Valid()
      modifies this`thisFrameHadCacheMisses
      ensures Valid() && thisFrameHadCacheMisses
    {
      thisFrameHadCacheMisses := true;
    }

    /** `reset`: forgets every frame so far. */
    method Reset()
      modifies this
      ensures Valid() && frames == []
      ensures lastNFramesHadCacheMisses == 0 && !thisFrameHadCacheMisses
    {
      lastNFramesHadCacheMisses := 0;
      thisFrameHadCacheMisses := false;
      frames := [];
    }

    /** `frame_end`: closes the current frame and returns the length of the run of missing frames it ends. */
    method FrameEnd() returns (n: nat)
      requires Valid()
      modifies this
      ensures Valid() && frames == old(frames) + [old(thisFrameHadCacheMisses)]
      ensures !thisFrameHadCacheMisses && n == lastNFramesHadCacheMisses
      ensures n == TrailingMissRun(frames)
      ensures n == if old(thisFrameHadCacheMisses) then old(lastNFramesHadCacheMisses) + 1 else 0
    {
      if thisFrameHadCacheMisses {
        lastNFramesHadCacheMisses := lastNFramesHadCacheMisses + 1;
      } else {
        lastNFramesHadCacheMisses := 0;
      }
      frames := frames + [thisFrameHadCacheMisses];
      assert frames[..|frames| - 1] == old(frames);
      thisFrameHadCacheMisses := false;
      n := lastNFramesHadCacheMisses;
    }
  }
}
