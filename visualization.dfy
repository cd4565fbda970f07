/** The frame player of the `ProcessVisualization` overlay: while playing, an
    interval advances the shown frame on each tick and stops at the last frame;
    "Replay Process" restarts from the first frame. */
module Visualization {

  /** The index updater run on each tick for a frame list of length
      `frameCount`: at the last frame it keeps the index and stops playing,
      otherwise it moves to the next frame. The result is the new index and
      whether playing goes on. */
  function Advance(prevIndex: int, frameCount: nat): (r: (int, bool))
    ensures r.1 <==> prevIndex != frameCount - 1
    ensures frameCount >= 1 && 0 <= prevIndex < frameCount ==> 0 <= r.0 < frameCount
    ensures r.0 == if r.1 then prevIndex + 1 else prevIndex
  {
    if prevIndex == frameCount - 1 then (prevIndex, false) else (prevIndex + 1, true)
  }

  /** One interval tick on the state (index, playing): only a playing player
      has an armed interval, so a stopped player does not change. */
  function Tick(state: (int, bool), frameCount: nat): (int, bool)
  {
    if state.1 then Advance(state.0, frameCount) else state
  }

  /** The state after `ticks` interval ticks. */
  function Run(state: (int, bool), frameCount: nat, ticks: nat): (int, bool)
    decreases ticks
  {
    if ticks == 0 then state else Run(Tick(state, frameCount), frameCount, ticks - 1)
  }

  /** A stopped player stays where it is, whatever the number of ticks. */
  lemma {:induction false} StoppedStays(index: int, frameCount: nat, ticks: nat)
    ensures Run((index, false), frameCount, ticks) == (index, false)
  {
    if ticks > 0 {
      StoppedStays(index, frameCount, ticks - 1);
    }
  }

  /** Playing from frame `index`, each tick shows the next frame until the last
      one; after that the player stops at the last frame. */
  lemma {:induction false} PlayingReachesLastFrame(index: nat, frameCount: nat, ticks: nat)
    requires index < frameCount
    ensures Run((index, true), frameCount, ticks) ==
            if index + ticks < frameCount then (index + ticks, true) else (frameCount - 1, false)
    decreases ticks
  {
    if ticks > 0 {
      if index == frameCount - 1 {
        StoppedStays(index, frameCount, ticks - 1);
      } else {
        PlayingReachesLastFrame(index + 1, frameCount, ticks - 1);
      }
    }
  }

  /** From a replay, a list of n >= 1 frames is shown frame by frame: after k
      ticks frame k is shown while k < n, and from n ticks on the player has
      stopped at frame n - 1; the index never leaves [0, n - 1]. */
  lemma ReplayPlaysEveryFrame(frameCount: nat, ticks: nat)
    requires frameCount >= 1
    ensures Run((0, true), frameCount, ticks) ==
            if ticks < frameCount then (ticks, true) else (frameCount - 1, false)
    ensures 0 <= Run((0, true), frameCount, ticks).0 < frameCount
  {
    PlayingReachesLastFrame(0, frameCount, ticks);
  }

  /** With an empty frame list the last index is -1, which the index never
      equals: the player advances forever and never stops. */
  lemma {:induction false} EmptyFramesNeverStop(index: nat, ticks: nat)
    ensures Run((index, true), 0, ticks) == (index + ticks, true)
    decreases ticks
  {
    if ticks > 0 {
      EmptyFramesNeverStop(index + 1, ticks - 1);
    }
  }

  /** The overlay's player state for a fixed frame list. */
  class Player {
    const frameCount: nat
    var currentImageIndex: int
    var isPlaying: bool

    /** The index is a frame index, and a stopped player shows the last frame. */
    ghost predicate Valid()
      reads this
    {
      && 0 <= currentImageIndex
      && (frameCount >= 1 ==> currentImageIndex < frameCount)
      && (!isPlaying ==> frameCount >= 1 && currentImageIndex == frameCount - 1)
    }

    /** The overlay opens on the first frame, playing. */
    constructor (frameCount: nat)
      ensures Valid()
      ensures this.frameCount == frameCount && currentImageIndex == 0 && isPlaying
    {
      this.frameCount := frameCount;
      currentImageIndex := 0;
      isPlaying := true;
    }

    /** The interval fires. It is armed only while playing; the updater then
        moves one frame on, or at the last frame stops playing and keeps the
        index. */
    method OnInterval()
      requires Valid()
      modifies this
      ensures Valid()
      ensures (currentImageIndex, isPlaying) == Tick(old((currentImageIndex, isPlaying)), frameCount)
      ensures old(isPlaying) && old(currentImageIndex) != frameCount - 1 ==>
                currentImageIndex == old(currentImageIndex) + 1 && isPlaying
      ensures old(isPlaying) && old(currentImageIndex) == frameCount - 1 ==>
                currentImageIndex == old(currentImageIndex) && !isPlaying
      ensures !old(isPlaying) ==> currentImageIndex == old(currentImageIndex) && !isPlaying
    {
      if !isPlaying {
        return;
      }
      var next := Advance(currentImageIndex, frameCount);
      currentImageIndex := next.0;
      if !next.1 {
        isPlaying := false;
      }
    }

    /** "Replay Process": back to the first frame, playing. */
    method HandleReplay()
      requires Valid()
      modifies this
      ensures Valid()
      ensures currentImageIndex == 0 && isPlaying
    {
      currentImageIndex := 0;
      isPlaying := true;
    }
  }
}
