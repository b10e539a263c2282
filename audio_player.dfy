/**
 * The bottom-sheet player for a chosen story: React state beside an audio
 * element, the play/stop/seek/volume controls, and the Media Session
 * commands and state it hands to the operating system.
 */
module AudioPlayer {
  import opened Maybe
  import opened Stories
  import opened TimeFormat
  import opened Transport

  /** `navigator.mediaSession.playbackState`. */
  datatype PlaybackState = NoneState | Paused | Playing

  /** The dictionary given to `setPositionState`. */
  datatype PositionState = PositionState(duration: real, playbackRate: real, position: real)

  /** The skip a Media Session seek command asks for, `seekOffset || 10`: a missing or zero offset means 10 s. */
  function SeekOffset(seekOffset: Option<real>): (offset: real)
    requires seekOffset.Some? ==> seekOffset.value >= 0.0
    ensures offset > 0.0
    ensures seekOffset.Some? && seekOffset.value != 0.0 ==> offset == seekOffset.value
    ensures seekOffset.None? || seekOffset.value == 0.0 ==> offset == 10.0
  {
    match seekOffset
    case Some(o) => if o != 0.0 then o else 10.0
    case None => 10.0
  }

  /**
   * What the position effect pushes: nothing without a Media Session or
   * before a positive duration is known, otherwise the current position at
   * normal speed.
   */
  function PositionUpdate(hasMediaSession: bool, duration: real, currentTime: real): (update: Option<PositionState>)
    ensures update.Some? <==> hasMediaSession && duration > 0.0
    ensures update.Some? ==>
      update.value.duration == duration && update.value.position == currentTime && update.value.playbackRate == 1.0
  {
    if hasMediaSession && duration > 0.0 then Some(PositionState(duration, 1.0, currentTime)) else None
  }

  /** What `setPositionState` accepts without throwing: a non-negative duration, a non-zero rate, a position inside the track. */
  predicate Acceptable(state: PositionState)
  {
    state.duration >= 0.0 && state.playbackRate != 0.0 && 0.0 <= state.position <= state.duration
  }

  /** While the position lies inside the track, every pushed position state is one the platform accepts. */
  lemma PushedStateIsAcceptable(hasMediaSession: bool, duration: real, currentTime: real)
    requires 0.0 <= currentTime <= duration
    ensures var update := PositionUpdate(hasMediaSession, duration, currentTime);
      update.Some? ==> Acceptable(update.value)
  {
  }

  class StoryPlayer {
    /** The story shown, or none: then nothing is rendered and no control is wired up. */
    const story: Option<Story>
    /** Whether `"mediaSession" in navigator`. */
    const hasMediaSession: bool
    // React state
    var isPlaying: bool
    var currentTime: real
    var duration: real
    var volume: real
    // the audio element; `elementDuration == None` is NaN, before the metadata arrives
    var elementTime: real
    var elementPaused: bool
    var elementDuration: Option<real>
    var elementVolume: real
    // the Media Session
    var sessionState: PlaybackState
    var positionState: Option<PositionState>

    /** Times and volume in range, the volume the same on both sides, and no session state without a Media Session. */
    ghost predicate Valid()
      reads this
    {
      && 0.0 <= currentTime && 0.0 <= duration && 0.0 <= elementTime
      && (elementDuration.Some? ==> 0.0 <= elementDuration.value)
      && 0.0 <= volume <= 1.0 && elementVolume == volume
      && (!hasMediaSession ==> sessionState == NoneState && positionState == None)
    }

    /** The button shows "pause" exactly when the element is playing. */
    ghost predicate InSync()
      reads this
    {
      isPlaying == !elementPaused
    }

    constructor (shown: Option<Story>, mediaSession: bool)
      ensures story == shown && hasMediaSession == mediaSession
      ensures Valid() && InSync()
      ensures !isPlaying && currentTime == 0.0 && duration == 0.0 && volume == 1.0
      ensures elementTime == 0.0 && elementPaused && elementDuration == None && elementVolume == 1.0
      ensures sessionState == NoneState && positionState == None
    {
      story := shown;
      hasMediaSession := mediaSession;
      isPlaying := false;
      currentTime := 0.0;
      duration := 0.0;
      volume := 1.0;
      elementTime := 0.0;
      elementPaused := true;
      elementDuration := None;
      elementVolume := 1.0;
      sessionState := NoneState;
      positionState := None;
    }

    /** The elapsed-time caption, shown only while a story is open: it reads back as the whole seconds played. */
    function PositionLabel(): (caption: string)
      reads this
      requires Valid() && story.Some?
      ensures ShowsSeconds(caption, currentTime.Floor)
    {
      Clock(currentTime)
    }

    /**
     * The length caption (`formatTime(duration)`, without a guard: the state
     * never holds NaN), shown only while a story is open. It reads back as
     * the whole seconds of the duration.
     */
    function DurationLabel(): (caption: string)
      reads this
      requires Valid() && story.Some?
      ensures ShowsSeconds(caption, duration.Floor)
    {
      Clock(duration)
    }

    /**
     * What the player renders: nothing without a story (`return null`),
     * otherwise the two captions.
     */
    function Captions(): (shown: Option<(string, string)>)
      reads this
      requires Valid()
      ensures shown.None? <==> story.None?
      ensures shown.Some? ==>
        ShowsSeconds(shown.value.0, currentTime.Floor) && ShowsSeconds(shown.value.1, duration.Floor)
    {
      if story.None? then None else Some((PositionLabel(), DurationLabel()))
    }

    /** The slider's upper end, `duration || 100`: the duration once known and non-zero, 100 before. */
    function SliderMax(): (max: real)
      reads this
      requires Valid()
      ensures max > 0.0
      ensures duration != 0.0 ==> max == duration
      ensures duration == 0.0 ==> max == 100.0
    {
      Transport.SliderMax(Some(duration))
    }

    // ----- element listeners, wired up only when a story is shown -----

    /** `timeupdate` after the element has reached `t`: the state copies it. */
    method OnTimeUpdate(t: real)
      requires Valid() && story.Some? && 0.0 <= t
      modifies this`elementTime, this`currentTime
      ensures Valid()
      ensures elementTime == t && currentTime == t
    {
      elementTime := t;
      currentTime := elementTime;
    }

    /** `loadedmetadata`: the element now knows its length and the state copies it. */
    method OnLoadedMetadata(d: real)
      requires Valid() && story.Some? && 0.0 <= d
      modifies this`elementDuration, this`duration
      ensures Valid()
      ensures elementDuration == Some(d) && duration == d
    {
      elementDuration := Some(d);
      duration := elementDuration.value;
    }

    /** `ended`: the element has stopped; the state follows and the session is cleared. */
    method OnEnded()
      requires Valid() && story.Some?
      modifies this`elementPaused, this`isPlaying, this`sessionState
      ensures Valid() && InSync()
      ensures elementPaused && !isPlaying
      ensures sessionState == if hasMediaSession then NoneState else old(sessionState)
    {
      elementPaused := true;
      isPlaying := false;
      if hasMediaSession {
        sessionState := NoneState;
      }
    }

    /** The element's `play` event, whoever started it. */
    method OnPlay()
      requires Valid() && story.Some?
      modifies this`elementPaused, this`isPlaying
      ensures Valid() && InSync()
      ensures !elementPaused && isPlaying
    {
      elementPaused := false;
      isPlaying := true;
    }

    /** The element's `pause` event, whoever caused it. */
    method OnPause()
      requires Valid() && story.Some?
      modifies this`elementPaused, this`isPlaying
      ensures Valid() && InSync()
      ensures elementPaused && !isPlaying
    {
      elementPaused := true;
      isPlaying := false;
    }

    // ----- on-screen controls; without a story there is no element and each is a no-op -----

    /**
     * Play/pause. Pausing reports "paused" to the session; a resolved
     * `play()` reports "playing"; a rejected one leaves the player paused
     * and the session state as it was.
     */
    method TogglePlayPause(playResolves: bool)
      requires Valid()
      modifies this`elementPaused, this`isPlaying, this`sessionState
      ensures Valid()
      ensures story.None? ==> isPlaying == old(isPlaying) && elementPaused == old(elementPaused) && sessionState == old(sessionState)
      ensures old(InSync()) ==> InSync()
      ensures story.Some? && old(isPlaying) ==>
        !isPlaying && elementPaused && sessionState == (if hasMediaSession then Paused else old(sessionState))
      ensures story.Some? && !old(isPlaying) && playResolves ==>
        isPlaying && !elementPaused && sessionState == (if hasMediaSession then Playing else old(sessionState))
      ensures story.Some? && !old(isPlaying) && !playResolves ==>
        !isPlaying && elementPaused == old(elementPaused) && sessionState == old(sessionState)
    {
      if story.None? {
        return;
      }
      if isPlaying {
        elementPaused := true;
        isPlaying := false;
        if hasMediaSession {
          sessionState := Paused;
        }
      } else if playResolves {
        elementPaused := false;
        isPlaying := true;
        if hasMediaSession {
          sessionState := Playing;
        }
      } else {
        isPlaying := false;
      }
    }

    /** Stop: paused at the start on both sides, and the session cleared. */
    method HandleStop()
      requires Valid()
      modifies this`elementPaused, this`elementTime, this`isPlaying, this`currentTime, this`sessionState
      ensures Valid()
      ensures story.None? ==>
        && elementPaused == old(elementPaused) && elementTime == old(elementTime)
        && isPlaying == old(isPlaying) && currentTime == old(currentTime) && sessionState == old(sessionState)
      ensures story.Some? ==>
        && InSync() && elementPaused && elementTime == 0.0 && !isPlaying && currentTime == 0.0
        && sessionState == (if hasMediaSession then NoneState else old(sessionState))
    {
      if story.None? {
        return;
      }
      elementPaused := true;
      elementTime := 0.0;
      isPlaying := false;
      currentTime := 0.0;
      if hasMediaSession {
        sessionState := NoneState;
      }
    }

    /** The progress slider: its value goes to the element and the state alike, unclamped. */
    method HandleSeek(v: real)
      requires Valid() && 0.0 <= v
      modifies this`elementTime, this`currentTime
      ensures Valid()
      ensures story.None? ==> elementTime == old(elementTime) && currentTime == old(currentTime)
      ensures story.Some? ==> elementTime == v && currentTime == v
    {
      if story.None? {
        return;
      }
      elementTime := v;
      currentTime := v;
    }

    /** The volume slider, which only offers 0, 0.1, …, 1: its value goes to the element and the state alike. */
    method HandleVolumeChange(v: real)
      requires Valid() && 0.0 <= v <= 1.0 && (v * 10.0).Floor as real == v * 10.0
      modifies this`elementVolume, this`volume
      ensures Valid()
      ensures story.None? ==> elementVolume == old(elementVolume) && volume == old(volume)
      ensures story.Some? ==> elementVolume == v && volume == v
    {
      if story.None? {
        return;
      }
      elementVolume := v;
      volume := v;
    }

    // ----- Media Session commands, registered only when a story is shown and the API exists -----
    // (The effect's cleanup removes only the element listeners, so these
    // handlers stay registered after the player closes.)

    /**
     * The session's "play" command as written: `play()` is not awaited and
     * the state says "playing" whatever its promise does. (`play()` on an
     * element that is already playing always resolves.)
     */
    method SessionPlay(playResolves: bool)
      requires Valid() && story.Some? && hasMediaSession
      requires !playResolves ==> elementPaused
      modifies this`elementPaused, this`isPlaying
      ensures Valid()
      ensures isPlaying
      ensures elementPaused == (if playResolves then false else old(elementPaused))
    {
      if playResolves {
        elementPaused := false;
      }
      isPlaying := true;
    }

    /** The session's "play" command with the promise awaited, as the on-screen button does it. */
    method SessionPlayAwaited(playResolves: bool)
      requires Valid() && story.Some? && hasMediaSession
      requires !playResolves ==> elementPaused
      modifies this`elementPaused, this`isPlaying
      ensures Valid()
      ensures old(InSync()) ==> InSync()
      ensures isPlaying == playResolves
      ensures elementPaused == (if playResolves then false else old(elementPaused))
    {
      if playResolves {
        elementPaused := false;
        isPlaying := true;
      } else {
        isPlaying := false;
      }
    }

    /** The session's "pause" command; the session state itself is left alone. */
    method SessionPause()
      requires Valid() && story.Some? && hasMediaSession
      modifies this`elementPaused, this`isPlaying
      ensures Valid() && InSync()
      ensures elementPaused && !isPlaying
    {
      elementPaused := true;
      isPlaying := false;
    }

    /** The session's "stop" command: paused at the start on both sides; the session state is left alone. */
    method SessionStop()
      requires Valid() && story.Some? && hasMediaSession
      modifies this`elementPaused, this`elementTime, this`isPlaying, this`currentTime
      ensures Valid() && InSync()
      ensures elementPaused && elementTime == 0.0 && !isPlaying && currentTime == 0.0
    {
      elementPaused := true;
      elementTime := 0.0;
      isPlaying := false;
      currentTime := 0.0;
    }

    /** "seekbackward": the element moves back by the offset, not before 0; the state waits for `timeupdate`. */
    method SessionSeekBackward(seekOffset: Option<real>)
      requires Valid() && story.Some? && hasMediaSession
      requires seekOffset.Some? ==> seekOffset.value >= 0.0
      modifies this`elementTime
      ensures Valid()
      ensures elementTime == SkipBackTarget(old(elementTime), SeekOffset(seekOffset))
      ensures elementTime <= old(elementTime)
    {
      elementTime := SkipBackTarget(elementTime, SeekOffset(seekOffset));
    }

    /**
     * "seekforward": the element moves ahead by the offset, not past the end.
     * While the duration is still NaN the target is NaN, which the element
     * refuses by throwing, so nothing moves.
     */
    method SessionSeekForward(seekOffset: Option<real>)
      requires Valid() && story.Some? && hasMediaSession
      requires seekOffset.Some? ==> seekOffset.value >= 0.0
      modifies this`elementTime
      ensures Valid()
      ensures old(elementDuration).Some? ==>
        elementTime == SkipAheadTarget(old(elementTime), SeekOffset(seekOffset), old(elementDuration).value)
      ensures old(elementDuration).None? ==> elementTime == old(elementTime)
    {
      if elementDuration.Some? {
        elementTime := SkipAheadTarget(elementTime, SeekOffset(seekOffset), elementDuration.value);
      }
    }

    /** "seekto": the element jumps to a truthy `seekTime`; a missing time or a seek to 0 is ignored. */
    method SessionSeekTo(seekTime: Option<real>)
      requires Valid() && story.Some? && hasMediaSession
      requires seekTime.Some? ==> seekTime.value >= 0.0
      modifies this`elementTime
      ensures Valid()
      ensures seekTime.Some? && seekTime.value != 0.0 ==> elementTime == seekTime.value
      ensures seekTime.None? || seekTime.value == 0.0 ==> elementTime == old(elementTime)
    {
      if seekTime.Some? && seekTime.value != 0.0 {
        elementTime := seekTime.value;
      }
    }

    /** The position effect, run after `currentTime` or `duration` changed; an earlier pushed state stays otherwise. */
    method SyncPositionState()
      requires Valid()
      modifies this`positionState
      ensures Valid()
      ensures var update := PositionUpdate(hasMediaSession, duration, currentTime);
        positionState == if update.Some? then update else old(positionState)
      ensures hasMediaSession && 0.0 < duration && currentTime <= duration ==> Acceptable(positionState.value)
    {
      var update := PositionUpdate(hasMediaSession, duration, currentTime);
      if update.Some? {
        if currentTime <= duration {
          PushedStateIsAcceptable(hasMediaSession, duration, currentTime);
        }
        positionState := update;
      }
    }
  }

  /**
   * A session "play" that the browser rejects (say, an autoplay block)
   * leaves the button saying "pause" over a paused element.
   */
  method RejectedSessionPlayDesyncs(story: Story) returns (isPlaying: bool, elementPaused: bool)
    ensures isPlaying && elementPaused
  {
    var p := new StoryPlayer(Some(story), true);
    p.SessionPlay(false);
    isPlaying, elementPaused := p.isPlaying, p.elementPaused;
  }

  /** Once the metadata reports 100 s, the captions read "0:00" and "1:40". */
  method CaptionsAtLoad(story: Story) returns (position: string, length: string)
    ensures position == "0:00" && length == "1:40"
  {
    var p := new StoryPlayer(Some(story), true);
    p.OnLoadedMetadata(100.0);
    assert p.currentTime == 0.0 && p.duration == 100.0;
    position := p.PositionLabel();
    length := p.DurationLabel();
    ClockExamples();
  }
}
