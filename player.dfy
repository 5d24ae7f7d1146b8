/** The `Player` component (src/components/ui/player.tsx:32-175) as an object whose fields
    its handlers update in place. Every method is tied to the corresponding transition in
    PlayerMachine, where the properties of the transitions are proved. */
module PlayerWidget {
  import opened Optional
  import opened TrackData
  import opened PlayerMachine

  class Player {
    var currentTrack: Option<Track>
    var isPlaying: bool
    var volume: real
    var progress: real
    var duration: real
    var currentTime: real
    var isExpanded: bool
    /** `audioRef.current`: the element, absent while no track is shown. */
    var audio: Option<Media>
    /** `intervalRef.current`: the handle of the last polling interval started. */
    var intervalRef: Option<nat>
    /** The browser's live polling intervals and the next handle it will hand out. */
    var liveIntervals: set<nat>
    var nextHandle: nat
    /** The one-shot auto-play timer is scheduled. */
    var autoplayPending: bool

    /** The fields as one value. */
    function State(): PlayerState
      reads this
    {
      PlayerState(currentTrack, isPlaying, volume, progress, duration, currentTime, isExpanded,
                  audio, intervalRef, liveIntervals, nextHandle, autoplayPending)
    }

    ghost predicate Valid()
      reads this
    {
      PlayerMachine.Valid(State())
    }

    /** The state hooks' initial values (lines 33-41). */
    constructor ()
      ensures State() == Initial && Valid()
    {
      currentTrack := None;
      isPlaying := false;
      volume := 80.0;
      progress := 0.0;
      duration := 0.0;
      currentTime := 0.0;
      isExpanded := false;
      audio := None;
      intervalRef := None;
      liveIntervals := {};
      nextHandle := 0;
      autoplayPending := false;
    }

    /** `clearInterval` on the handle in `intervalRef`, if any. */
    method ClearProgressInterval()
      modifies this
      ensures State() == ClearPoll(old(State()))
    {
      if intervalRef.Some? {
        liveIntervals := liveIntervals - {intervalRef.value};
      }
    }

    /** `startProgressInterval` (lines 89-105). */
    method StartProgressInterval()
      modifies this
      ensures State() == StartPolling(old(State()))
    {
      ClearProgressInterval();
      intervalRef := Some(nextHandle);
      liveIntervals := liveIntervals + {nextHandle};
      nextHandle := nextHandle + 1;
    }

    /** `togglePlayPause` (lines 54-64). */
    method TogglePlayPause()
      requires Valid()
      modifies this
      ensures State() == Toggle(old(State())) && Valid()
    {
      if audio.None? {
        return;
      }
      audio := Some(audio.value.(paused := isPlaying));
      isPlaying := !isPlaying;
    }

    /** `handleVolumeChange` (lines 67-74). */
    method HandleVolumeChange(v: real)
      requires Valid()
      modifies this
      ensures State() == VolumeChange(old(State()), v) && Valid()
    {
      volume := v;
      if audio.Some? {
        audio := Some(audio.value.(gain := v / 100.0));
      }
    }

    /** `handleProgressChange` (lines 77-86). */
    method HandleProgressChange(p: real)
      requires Valid()
      modifies this
      ensures State() == Seek(old(State()), p) && Valid()
    {
      ghost var before := State();
      progress := p;
      if audio.Some? && duration != 0.0 {
        var newTime := p / 100.0 * duration;
        audio := Some(audio.value.(position := newTime));
        currentTime := newTime;
        assert Seek(before, p) == before.(progress := p, currentTime := newTime, audio := audio);
      }
    }

    /** One firing of the polling interval (lines 92-104), given what the element reports. */
    method PollTick(position: real, ended: bool)
      requires Valid()
      requires Polling(State()) && audio.Some? ==> duration > 0.0
      modifies this
      ensures State() == Tick(old(State()), position, ended) && Valid()
    {
      if liveIntervals == {} || audio.None? {
        return;
      }
      audio := Some(audio.value.(position := position, ended := ended));
      progress := position / duration * 100.0;
      currentTime := position;
      if ended {
        isPlaying := false;
        progress := 0.0;
        currentTime := 0.0;
      }
    }

    /** The `loadedmetadata` listener (lines 116-118). */
    method HandleLoadedMetadata(d: real)
      requires Valid()
      modifies this
      ensures State() == OnLoadedMetadata(old(State()), d) && Valid()
    {
      if audio.Some? {
        duration := d;
      }
    }

    /** The `play` listener (lines 120-123). */
    method HandlePlay()
      requires Valid()
      modifies this
      ensures State() == OnPlay(old(State())) && Valid()
    {
      if audio.Some? {
        isPlaying := true;
        StartProgressInterval();
      }
    }

    /** The `pause` listener (lines 125-128). */
    method HandlePause()
      requires Valid()
      modifies this
      ensures State() == OnPause(old(State())) && Valid()
    {
      if audio.Some? {
        isPlaying := false;
        ClearProgressInterval();
      }
    }

    /** The `ended` listener (lines 130-135). */
    method HandleEnded()
      requires Valid()
      modifies this
      ensures State() == OnEnded(old(State())) && Valid()
    {
      if audio.Some? {
        isPlaying := false;
        progress := 0.0;
        currentTime := 0.0;
        audio := Some(audio.value.(ended := true));
        ClearProgressInterval();
      }
    }

    /** The page hands over a track; the reset effect (lines 156-175) runs when it differs. */
    method ChangeTrack(t: Option<Track>)
      requires Valid()
      modifies this
      ensures State() == SetTrack(old(State()), t) && Valid()
    {
      if t == currentTrack {
        return;
      }
      // the element rendered for the new track (lines 185-189)
      if t.None? {
        audio := None;
      } else {
        var url := EffectiveSource(t.value);
        if audio.None? {
          audio := Some(Media(url, 0.0, volume / 100.0, false, true));
        } else if audio.value.src != url {
          audio := Some(audio.value.(src := url, position := 0.0, ended := false, paused := true));
        }
      }
      // the reset effect
      progress := 0.0;
      currentTime := 0.0;
      isPlaying := false;
      ClearProgressInterval();
      currentTrack := t;
      autoplayPending := HasSource(t);
    }

    /** The auto-play timer fires, `play()` succeeding or being refused (lines 165-171). */
    method AutoplayFires(succeeds: bool)
      requires Valid()
      modifies this
      ensures State() == FireAutoplay(old(State()), succeeds) && Valid()
    {
      if !autoplayPending {
        return;
      }
      autoplayPending := false;
      if audio.Some? && succeeds {
        audio := Some(audio.value.(paused := false));
        isPlaying := true;
      }
    }

    /** `setIsExpanded` (lines 317, 389, 414). */
    method SetIsExpanded(expanded: bool)
      requires Valid()
      modifies this
      ensures State() == SetExpanded(old(State()), expanded) && Valid()
    {
      isExpanded := expanded;
    }
  }
}
