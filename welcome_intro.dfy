/**
 * The welcome card's compact player: React state beside an audio element,
 * with a seek gesture during which the element's progress ticks are not
 * adopted and the slider shows the dragged position instead.
 */
module WelcomeIntro {
  import opened Maybe
  import opened TimeFormat
  import opened Transport

  /** How far the skip buttons move, in seconds. */
  const SkipSeconds: real := 10.0

  /**
   * The player. `duration == None` and `elementDuration == None` stand for
   * NaN, the element's duration before its metadata arrives.
   */
  class IntroPlayer {
    // React state
    var isPlaying: bool
    var currentTime: real
    var duration: Option<real>
    var isSeeking: bool
    var seekPreviewTime: Option<real>
    // the audio element
    var elementTime: real
    var elementPaused: bool
    var elementDuration: Option<real>

    /**
     * What every handler keeps: outside a drag the state's position is the
     * element's, and no time is negative.
     */
    ghost predicate Valid()
      reads this
    {
      && (!isSeeking ==> currentTime == elementTime)
      && 0.0 <= currentTime && 0.0 <= elementTime
      && (seekPreviewTime.Some? ==> 0.0 <= seekPreviewTime.value)
      && (duration.Some? ==> 0.0 <= duration.value)
      && (elementDuration.Some? ==> 0.0 <= elementDuration.value)
    }

    /**
     * The button's icon matches the element. Only the card's own handlers
     * keep this: the card listens for `ended` but not for `play` or `pause`,
     * so a pause from outside leaves `isPlaying` stale.
     */
    ghost predicate InSync()
      reads this
    {
      isPlaying == !elementPaused
    }

    /**
     * Mounting: the state starts at zero, paused and not seeking; a duration
     * the element already knows is adopted when it is truthy.
     */
    constructor (knownDuration: Option<real>)
      requires knownDuration.Some? ==> knownDuration.value >= 0.0
      ensures Valid() && InSync()
      ensures !isPlaying && currentTime == 0.0 && !isSeeking && seekPreviewTime == None
      ensures duration == if knownDuration.Some? then knownDuration else Some(0.0)
      ensures elementTime == 0.0 && elementPaused && elementDuration == knownDuration
    {
      isPlaying := false;
      currentTime := 0.0;
      duration := Some(0.0);
      isSeeking := false;
      seekPreviewTime := None;
      elementTime := 0.0;
      elementPaused := true;
      elementDuration := knownDuration;
      if knownDuration.Some? && knownDuration.value != 0.0 {
        duration := knownDuration;
      }
    }

    /**
     * `displayTime`, where the slider sits: the dragged position during a
     * seek that has one; outside a drag, the element's own position.
     */
    function DisplayTime(): (shown: real)
      reads this
      requires Valid()
      ensures 0.0 <= shown
      ensures isSeeking && seekPreviewTime.Some? ==> shown == seekPreviewTime.value
      ensures !isSeeking ==> shown == elementTime
      ensures !(isSeeking && seekPreviewTime.Some?) ==> shown == currentTime
    {
      if isSeeking && seekPreviewTime.Some? then seekPreviewTime.value else currentTime
    }

    /**
     * The position caption: "current → preview" while a drag has a preview,
     * "current" otherwise. Each clock in it reads back as the whole seconds
     * of its time.
     */
    function ProgressLabel(): (caption: string)
      reads this
      requires Valid()
      ensures !(isSeeking && seekPreviewTime.Some?) ==> ShowsSeconds(caption, currentTime.Floor)
      ensures isSeeking && seekPreviewTime.Some? ==>
        var k := |Clock(currentTime)|;
        && k + 3 <= |caption| && caption[k..k + 3] == " → "
        && ShowsSeconds(caption[..k], currentTime.Floor)
        && ShowsSeconds(caption[k + 3..], seekPreviewTime.value.Floor)
    {
      if isSeeking && seekPreviewTime.Some? then
        var now, preview := Clock(currentTime), Clock(seekPreviewTime.value);
        ThreePieces(now, " → ", preview);
        now + " → " + preview
      else
        Clock(currentTime)
    }

    /** The duration caption; an unknown duration reads "0:00". */
    function DurationLabel(): (caption: string)
      reads this
      requires Valid()
      ensures duration.None? ==> caption == "0:00"
      ensures duration.Some? ==> ShowsSeconds(caption, duration.value.Floor)
    {
      FormatTimeGuarded(duration)
    }

    /** The slider's upper end, `duration || 100`; the slider is always usable. */
    function SliderMax(): (max: real)
      reads this
      requires Valid()
      ensures max > 0.0
      ensures duration.Some? && duration.value != 0.0 ==> max == duration.value
      ensures duration.None? || duration.value == 0.0 ==> max == 100.0
    {
      Transport.SliderMax(duration)
    }

    /**
     * `timeupdate` after the element has reached `t`: the state adopts it
     * unless a drag is in progress, in which case the display does not move.
     */
    method OnTimeUpdate(t: real)
      requires Valid() && 0.0 <= t
      modifies this`elementTime, this`currentTime
      ensures Valid()
      ensures elementTime == t
      ensures old(isSeeking) ==> currentTime == old(currentTime) && DisplayTime() == old(DisplayTime())
      ensures !old(isSeeking) ==> currentTime == t && DisplayTime() == t
    {
      elementTime := t;
      if !isSeeking {
        currentTime := elementTime;
      }
    }

    /** `loadedmetadata` / `durationchange`: the state copies the element's duration, NaN included. */
    method OnDurationChange(d: Option<real>)
      requires Valid() && (d.Some? ==> d.value >= 0.0)
      modifies this`elementDuration, this`duration
      ensures Valid()
      ensures elementDuration == d && duration == d
    {
      elementDuration := d;
      duration := elementDuration;
    }

    /** `ended`: the element has stopped and the state follows; the position is kept. */
    method OnEnded()
      requires Valid()
      modifies this`elementPaused, this`isPlaying
      ensures Valid() && InSync()
      ensures elementPaused && !isPlaying
    {
      elementPaused := true;
      isPlaying := false;
    }

    /**
     * Something outside the card pauses the element: the system's media
     * controls, or the browser when the audio output goes away. No listener
     * of the card hears it, so the state is left as it was.
     */
    method ExternalPause()
      requires Valid()
      modifies this`elementPaused
      ensures Valid()
      ensures elementPaused
    {
      elementPaused := true;
    }

    /**
     * The play/pause button. Playing: pause. Paused: `play()`, whose promise
     * resolves or rejects as `playResolves` says; a rejection leaves it paused.
     * The button decides by the state, not the element, and whatever it
     * decides leaves the two in step again, even after a pause from outside.
     * (`play()` only rejects on an element that is paused.)
     */
    method TogglePlayPause(playResolves: bool)
      requires Valid()
      requires !playResolves ==> elementPaused
      modifies this`elementPaused, this`isPlaying
      ensures Valid() && InSync()
      ensures old(isPlaying) ==> !isPlaying && elementPaused
      ensures !old(isPlaying) ==> isPlaying == playResolves && elementPaused == !playResolves
    {
      if isPlaying {
        elementPaused := true;
        isPlaying := false;
      } else if playResolves {
        elementPaused := false;
        isPlaying := true;
      } else {
        isPlaying := false;
      }
    }

    /** Back 10 s, never before the start; the state reads the new position back. */
    method SkipBackward()
      requires Valid()
      modifies this`elementTime, this`currentTime
      ensures Valid()
      ensures elementTime == SkipBackTarget(old(elementTime), SkipSeconds) && currentTime == elementTime
    {
      elementTime := SkipBackTarget(elementTime, SkipSeconds);
      currentTime := elementTime;
    }

    /**
     * Ahead 10 s, never past the end. With the duration still NaN the target
     * is NaN, which the element refuses by throwing, so nothing changes.
     */
    method SkipForward()
      requires Valid()
      modifies this`elementTime, this`currentTime
      ensures Valid()
      ensures old(elementDuration).Some? ==>
        elementTime == SkipAheadTarget(old(elementTime), SkipSeconds, old(elementDuration).value)
        && currentTime == elementTime
      ensures old(elementDuration).None? ==> elementTime == old(elementTime) && currentTime == old(currentTime)
    {
      if elementDuration.Some? {
        elementTime := SkipAheadTarget(elementTime, SkipSeconds, elementDuration.value);
        currentTime := elementTime;
      }
    }

    /** Pressing on the slider starts a drag. */
    method SeekStart()
      requires Valid()
      modifies this`isSeeking
      ensures Valid()
      ensures isSeeking
    {
      isSeeking := true;
    }

    /** Dragging: only the preview moves; during a drag the display follows it. */
    method SeekChange(v: real)
      requires Valid() && 0.0 <= v
      modifies this`seekPreviewTime
      ensures Valid()
      ensures seekPreviewTime == Some(v)
      ensures isSeeking ==> DisplayTime() == v
    {
      seekPreviewTime := Some(v);
    }

    /** Releasing the slider: element and state jump to `v`, and the drag ends without a preview. */
    method SeekCommit(v: real)
      requires Valid() && 0.0 <= v
      modifies this`elementTime, this`currentTime, this`isSeeking, this`seekPreviewTime
      ensures Valid()
      ensures elementTime == v && currentTime == v && !isSeeking && seekPreviewTime == None
      ensures DisplayTime() == v
    {
      elementTime := v;
      currentTime := v;
      isSeeking := false;
      seekPreviewTime := None;
    }
  }

  /** The three pieces of a concatenation, cut back out of it. */
  lemma ThreePieces(a: string, mid: string, b: string)
    ensures var all := a + mid + b;
      && all[..|a|] == a && all[|a|..|a| + |mid|] == mid && all[|a| + |mid|..] == b
  {
  }

  /**
   * A pause from outside leaves the button showing "pause" over a paused
   * element; the next press only pauses again, and after it the two agree.
   */
  method ExternalPauseLeavesStaleIcon(p: IntroPlayer) returns (staleAfterPause: bool, inSyncAfterPress: bool)
    requires p.Valid() && p.InSync() && p.isPlaying
    modifies p
    ensures staleAfterPause && inSyncAfterPress
    ensures !p.isPlaying && p.elementPaused
  {
    p.ExternalPause();
    staleAfterPause := p.isPlaying && p.elementPaused;
    p.TogglePlayPause(false);
    inSyncAfterPress := p.isPlaying == !p.elementPaused;
  }

  /**
   * A whole drag over a playing track: the thumb follows each move while
   * the element's progress ticks arrive in between, and the release lands
   * exactly where the drag ended. The loop stands for no loop of the
   * component: it states a property of the whole drag gesture, for any
   * interleaving of moves and ticks.
   */
  method DragOverTicks(p: IntroPlayer, moves: seq<real>, ticks: seq<real>, release: real)
    returns (shown: seq<real>)
    requires p.Valid() && 0.0 <= release && |moves| == |ticks|
    requires forall k :: 0 <= k < |moves| ==> 0.0 <= moves[k] && 0.0 <= ticks[k]
    modifies p
    ensures p.Valid()
    ensures |shown| == |moves| && forall k :: 0 <= k < |shown| ==> shown[k] == moves[k]
    ensures p.currentTime == release && p.elementTime == release && p.DisplayTime() == release && !p.isSeeking
  {
    p.SeekStart();
    shown := [];
    for i := 0 to |moves|
      invariant p.Valid() && p.isSeeking
      invariant |shown| == i && forall k :: 0 <= k < i ==> shown[k] == moves[k]
    {
      p.SeekChange(moves[i]);
      p.OnTimeUpdate(ticks[i]);
      shown := shown + [p.DisplayTime()];
    }
    p.SeekCommit(release);
  }
}
