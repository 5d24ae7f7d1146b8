/** The audio player's playback state machine (src/components/ui/player.tsx:32-175) as pure
    transitions over one state value. The browser's media element is an abstract record, and
    the two timers are explicit: the set of live polling intervals with the handle kept in
    `intervalRef`, and a flag for the one-shot auto-play timer. */
module PlayerMachine {
  import opened Optional
  import opened TrackData

  /** The `<audio>` element as the player uses it: the source URL it loaded, playback
      position in seconds, gain in [0, 1], whether playback reached the end, and whether the
      last request was a pause. */
  datatype Media = Media(src: string, position: real, gain: real, ended: bool, paused: bool)

  /** The component's state fields (lines 33-41), the track it was given, the media element
      (absent while no track is shown, line 178), and the timers. */
  datatype PlayerState = PlayerState(
    track: Option<Track>,
    isPlaying: bool,
    volume: real,
    progress: real,
    duration: real,
    currentTime: real,
    isExpanded: bool,
    audio: Option<Media>,
    intervalRef: Option<nat>,
    liveIntervals: set<nat>,
    nextHandle: nat,
    autoplayPending: bool)

  /** Before any track is given: paused, volume 80, all times 0, collapsed (lines 33-41). */
  const Initial := PlayerState(None, false, 80.0, 0.0, 0.0, 0.0, false, None, None, {}, 0, false)

  /** `currentTrack?.audioSrc` is truthy: the track has a non-empty audio source (line 164). */
  predicate HasSource(t: Option<Track>) {
    t.Some? && t.value.audioSrc.Some? && t.value.audioSrc.value != ""
  }

  /** The URL used when a track has no audio source (line 187). */
  const PlaceholderSource := "https://www.soundhelix.com/examples/mp3/SoundHelix-Song-1.mp3"

  /** `currentTrack.audioSrc || placeholder`: the URL the element is given (line 187). */
  function EffectiveSource(t: Track): (url: string)
    ensures t.audioSrc.Some? && t.audioSrc.value != "" ==> url == t.audioSrc.value
    ensures !(t.audioSrc.Some? && t.audioSrc.value != "") ==> url == PlaceholderSource
  {
    if t.audioSrc.Some? && t.audioSrc.value != "" then t.audioSrc.value else PlaceholderSource
  }

  /** A polling interval is running. */
  predicate Polling(s: PlayerState) {
    s.liveIntervals != {}
  }

  /** What every reachable state satisfies: a live interval is always the one `intervalRef`
      holds, handles are never reused, the element exists exactly while a track is shown and
      polling only with it and loaded from the shown track's URL, auto-play is pending only
      for a track with a source, and the element's gain mirrors the volume slider. */
  ghost predicate Valid(s: PlayerState) {
    (forall h | h in s.liveIntervals :: s.intervalRef == Some(h)) &&
    (s.intervalRef.Some? ==> s.intervalRef.value < s.nextHandle) &&
    (s.track.None? <==> s.audio.None?) &&
    (s.track.Some? && s.audio.Some? ==> s.audio.value.src == EffectiveSource(s.track.value)) &&
    (Polling(s) ==> s.audio.Some?) &&
    (s.autoplayPending ==> HasSource(s.track)) &&
    (s.audio.Some? ==> s.audio.value.gain == s.volume / 100.0)
  }

  lemma InitialValid()
    ensures Valid(Initial)
  {
  }

  /** At most one polling interval is ever running in a valid state. */
  lemma AtMostOnePoll(s: PlayerState)
    requires Valid(s)
    ensures |s.liveIntervals| <= 1
  {
    if s.liveIntervals != {} {
      assert s.liveIntervals == {s.intervalRef.value};
    }
  }

  /** `if (intervalRef.current) clearInterval(intervalRef.current)` (lines 90, 127, 134, 161). */
  function ClearPoll(s: PlayerState): (r: PlayerState)
    ensures Valid(s) ==> r.liveIntervals == {} && Valid(r)
    ensures r.(liveIntervals := s.liveIntervals) == s
    ensures r.liveIntervals <= s.liveIntervals
  {
    if s.intervalRef.Some? then s.(liveIntervals := s.liveIntervals - {s.intervalRef.value}) else s
  }

  /** `startProgressInterval` (lines 89-105): clear the previous interval, then register a
      fresh one and keep its handle. */
  function StartPolling(s: PlayerState): (r: PlayerState)
    ensures r.intervalRef == Some(s.nextHandle) && s.nextHandle in r.liveIntervals
    ensures Valid(s) ==> r.liveIntervals == {s.nextHandle}
    ensures Valid(s) && s.audio.Some? ==> Valid(r)
    ensures r.(liveIntervals := s.liveIntervals, intervalRef := s.intervalRef, nextHandle := s.nextHandle) == s
  {
    var c := ClearPoll(s);
    c.(intervalRef := Some(c.nextHandle), liveIntervals := c.liveIntervals + {c.nextHandle},
       nextHandle := c.nextHandle + 1)
  }

  /** `togglePlayPause` (lines 54-64): with an element, pause it if playing and play it
      otherwise, and flip the flag; without one, nothing. */
  function Toggle(s: PlayerState): (r: PlayerState)
    ensures s.audio.None? ==> r == s
    ensures s.audio.Some? ==>
      r.isPlaying == !s.isPlaying && r.audio.Some? &&
      r.audio.value.paused == s.isPlaying &&
      r.audio.value.(paused := s.audio.value.paused) == s.audio.value
    ensures r.(isPlaying := s.isPlaying, audio := s.audio) == s
    ensures Valid(s) ==> Valid(r)
  {
    if s.audio.None? then s
    else s.(isPlaying := !s.isPlaying, audio := Some(s.audio.value.(paused := s.isPlaying)))
  }

  /** Toggling twice restores the playing flag, and the whole state when the element's
      paused flag agreed with it. */
  lemma ToggleTwice(s: PlayerState)
    ensures Toggle(Toggle(s)).isPlaying == s.isPlaying
    ensures s.audio.Some? && s.audio.value.paused == !s.isPlaying ==> Toggle(Toggle(s)) == s
  {
  }

  /** `handleVolumeChange` (lines 67-74): the slider value becomes the volume and, scaled to
      [0, 1], the element's gain. */
  function VolumeChange(s: PlayerState, v: real): (r: PlayerState)
    ensures r.volume == v
    ensures r.audio.Some? == s.audio.Some?
    ensures r.audio.Some? ==> r.audio.value.gain == v / 100.0 && r.audio.value.(gain := s.audio.value.gain) == s.audio.value
    ensures r.(volume := s.volume, audio := s.audio) == s
    ensures Valid(s) ==> Valid(r)
  {
    s.(volume := v, audio := if s.audio.Some? then Some(s.audio.value.(gain := v / 100.0)) else None)
  }

  /** `handleProgressChange` (lines 77-86): the slider value becomes the progress; with an
      element and a known (non-zero) duration, the time it stands for becomes both the shown
      time and the element's position. */
  function Seek(s: PlayerState, p: real): (r: PlayerState)
    ensures r.progress == p
    ensures s.audio.Some? && s.duration != 0.0 ==>
      r.currentTime == p / 100.0 * s.duration && r.audio.Some? &&
      r.audio.value == s.audio.value.(position := r.currentTime) &&
      r.duration == s.duration && r.progress == r.currentTime / r.duration * 100.0
    ensures !(s.audio.Some? && s.duration != 0.0) ==> r.currentTime == s.currentTime && r.audio == s.audio
    ensures r.(progress := s.progress, currentTime := s.currentTime, audio := s.audio) == s
    ensures Valid(s) ==> Valid(r)
  {
    if s.audio.Some? && s.duration != 0.0 then
      var t := p / 100.0 * s.duration;
      s.(progress := p, currentTime := t, audio := Some(s.audio.value.(position := t)))
    else s.(progress := p)
  }

  /** The resets of the ended handler and of a tick that sees the end (lines 99-101, 131-133). */
  predicate ResetToStart(r: PlayerState) {
    !r.isPlaying && r.progress == 0.0 && r.currentTime == 0.0
  }

  /** One firing of the polling interval (lines 92-104), given the element's position and
      ended flag at that moment. A cleared interval never fires, so without a live interval
      nothing happens. Otherwise the position is copied into time and percentage, and if the
      element has ended, playback is reset (the interval itself keeps running). */
  function Tick(s: PlayerState, position: real, ended: bool): (r: PlayerState)
    requires Polling(s) && s.audio.Some? ==> s.duration > 0.0
    ensures !Polling(s) || s.audio.None? ==> r == s
    ensures Polling(s) && s.audio.Some? ==>
      r.audio == Some(s.audio.value.(position := position, ended := ended)) &&
      (ended ==> ResetToStart(r)) &&
      (!ended ==> r.currentTime == position && r.duration == s.duration && r.progress == r.currentTime / r.duration * 100.0 &&
                  r.isPlaying == s.isPlaying)
    ensures r.(isPlaying := s.isPlaying, progress := s.progress, currentTime := s.currentTime, audio := s.audio) == s
    ensures Valid(s) ==> Valid(r)
  {
    if !Polling(s) || s.audio.None? then s
    else
      var m := s.audio.value.(position := position, ended := ended);
      var copied := s.(audio := Some(m), progress := position / s.duration * 100.0, currentTime := position);
      if ended then copied.(isPlaying := false, progress := 0.0, currentTime := 0.0) else copied
  }

  /** The element's `play` event (lines 120-123): playing, and polling (re)started. */
  function OnPlay(s: PlayerState): (r: PlayerState)
    ensures s.audio.None? ==> r == s
    ensures s.audio.Some? ==> r.isPlaying && Polling(r) && r.intervalRef == Some(s.nextHandle)
    ensures Valid(s) && s.audio.Some? ==> r.liveIntervals == {s.nextHandle}
    ensures r.(isPlaying := s.isPlaying, liveIntervals := s.liveIntervals, intervalRef := s.intervalRef, nextHandle := s.nextHandle) == s
    ensures Valid(s) ==> Valid(r)
  {
    if s.audio.None? then s else StartPolling(s.(isPlaying := true))
  }

  /** The element's `pause` event (lines 125-128): not playing, polling stopped. */
  function OnPause(s: PlayerState): (r: PlayerState)
    ensures s.audio.None? ==> r == s
    ensures s.audio.Some? ==> !r.isPlaying
    ensures Valid(s) && s.audio.Some? ==> !Polling(r)
    ensures r.(isPlaying := s.isPlaying, liveIntervals := s.liveIntervals) == s
    ensures Valid(s) ==> Valid(r)
  {
    if s.audio.None? then s else ClearPoll(s.(isPlaying := false))
  }

  /** The element's `ended` event (lines 130-135): reset to the start and stop polling. */
  function OnEnded(s: PlayerState): (r: PlayerState)
    ensures s.audio.None? ==> r == s
    ensures s.audio.Some? ==> ResetToStart(r) && r.audio == Some(s.audio.value.(ended := true))
    ensures Valid(s) && s.audio.Some? ==> !Polling(r)
    ensures r.(isPlaying := s.isPlaying, progress := s.progress, currentTime := s.currentTime,
               audio := s.audio, liveIntervals := s.liveIntervals) == s
    ensures Valid(s) ==> Valid(r)
  {
    if s.audio.None? then s
    else ClearPoll(s.(isPlaying := false, progress := 0.0, currentTime := 0.0,
                      audio := Some(s.audio.value.(ended := true))))
  }

  /** A tick that sees the end performs the ended handler's resets, without stopping polling. */
  lemma TickAtEndMatchesEnded(s: PlayerState, position: real)
    requires Valid(s) && Polling(s) && s.duration > 0.0
    ensures var t := Tick(s, position, true); var e := OnEnded(s);
      t.isPlaying == e.isPlaying && t.progress == e.progress && t.currentTime == e.currentTime &&
      Polling(t) && !Polling(e)
  {
  }

  /** The element's `loadedmetadata` event (lines 116-118): its duration becomes known. */
  function OnLoadedMetadata(s: PlayerState, d: real): (r: PlayerState)
    ensures s.audio.Some? ==> r.duration == d
    ensures s.audio.None? ==> r == s
    ensures r.(duration := s.duration) == s
    ensures Valid(s) ==> Valid(r)
  {
    if s.audio.None? then s else s.(duration := d)
  }

  /** The element for a newly given track (lines 185-189): none for no track; a fresh one,
      with its gain set from the volume (lines 111-113), when none was shown; the same element
      untouched when the URL it is given does not change; otherwise the same element loading
      the new URL, back at position 0 and paused. */
  function AttachMedia(s: PlayerState, t: Option<Track>): (m: Option<Media>)
    ensures m.Some? <==> t.Some?
    ensures m.Some? ==> m.value.src == EffectiveSource(t.value)
    ensures m.Some? && s.audio.None? ==>
      m.value == Media(EffectiveSource(t.value), 0.0, s.volume / 100.0, false, true)
    ensures m.Some? && s.audio.Some? && s.audio.value.src == EffectiveSource(t.value) ==>
      m == s.audio
    ensures m.Some? && s.audio.Some? && s.audio.value.src != EffectiveSource(t.value) ==>
      m.value.position == 0.0 && !m.value.ended && m.value.paused &&
      m.value.gain == s.audio.value.gain
  {
    if t.None? then None
    else if s.audio.None? then Some(Media(EffectiveSource(t.value), 0.0, s.volume / 100.0, false, true))
    else if s.audio.value.src == EffectiveSource(t.value) then s.audio
    else Some(s.audio.value.(src := EffectiveSource(t.value), position := 0.0, ended := false, paused := true))
  }

  /** The track-change effect (lines 156-175), which runs only when the given track differs
      from the current one: reset progress, time and the playing flag, stop polling, and
      schedule the auto-play attempt exactly when the new track has a source (the cleanup of
      the previous run cancels any earlier attempt). */
  function SetTrack(s: PlayerState, t: Option<Track>): (r: PlayerState)
    ensures t == s.track ==> r == s
    ensures t != s.track ==>
      r.track == t && ResetToStart(r) && r.autoplayPending == HasSource(t) &&
      r.liveIntervals <= s.liveIntervals && r.audio == AttachMedia(s, t)
    ensures t != s.track && Valid(s) ==> !Polling(r)
    ensures r.volume == s.volume && r.duration == s.duration && r.isExpanded == s.isExpanded
    ensures r.intervalRef == s.intervalRef && r.nextHandle == s.nextHandle
    ensures Valid(s) ==> Valid(r)
  {
    if t == s.track then s
    else
      var c := ClearPoll(s.(progress := 0.0, currentTime := 0.0, isPlaying := false));
      c.(track := t, autoplayPending := HasSource(t), audio := AttachMedia(s, t))
  }

  /** The auto-play timer fires (lines 165-171): with an element, `play()` is requested; if
      it succeeds the player is playing, and if it is refused (logged only) nothing else
      changes. A cancelled timer never fires. */
  function FireAutoplay(s: PlayerState, succeeds: bool): (r: PlayerState)
    ensures !s.autoplayPending ==> r == s
    ensures s.autoplayPending ==> !r.autoplayPending
    ensures s.autoplayPending && s.audio.Some? && succeeds ==>
      r.isPlaying && r.audio == Some(s.audio.value.(paused := false))
    ensures s.autoplayPending && !(s.audio.Some? && succeeds) ==> r == s.(autoplayPending := false)
    ensures r.(isPlaying := s.isPlaying, audio := s.audio, autoplayPending := s.autoplayPending) == s
    ensures Valid(s) ==> Valid(r)
  {
    if !s.autoplayPending then s
    else if s.audio.Some? && succeeds then
      s.(autoplayPending := false, isPlaying := true, audio := Some(s.audio.value.(paused := false)))
    else s.(autoplayPending := false)
  }

  /** `setIsExpanded(true)` on the compact bar and its expand button (lines 317, 389) and
      `setIsExpanded(false)` on the backdrop (line 414); nothing else changes. */
  function SetExpanded(s: PlayerState, expanded: bool): (r: PlayerState)
    ensures r.isExpanded == expanded && r.(isExpanded := s.isExpanded) == s
    ensures Valid(s) ==> Valid(r)
  {
    s.(isExpanded := expanded)
  }

  /** Everything that can happen to the player: user input, element events, timer firings
      and the page handing over a track. */
  datatype Event =
    | TogglePlay
    | ChangeVolume(v: real)
    | SeekTo(p: real)
    | PollTick(position: real, ended: bool)
    | MediaPlay
    | MediaPause
    | MediaEnded
    | MetadataLoaded(d: real)
    | ChangeTrack(t: Option<Track>)
    | AutoplayFires(succeeds: bool)
    | Expand(expanded: bool)

  /** The one assumption on the environment: the interval fires only once the duration is
      known (a tick at duration 0 divides by zero, line 94). */
  predicate Enabled(s: PlayerState, e: Event) {
    match e
    case PollTick(_, _) => Polling(s) && s.audio.Some? ==> s.duration > 0.0
    case _ => true
  }

  /** The transition an event causes. */
  function Apply(s: PlayerState, e: Event): (r: PlayerState)
    requires Enabled(s, e)
    ensures Valid(s) ==> Valid(r)
  {
    match e
    case TogglePlay => Toggle(s)
    case ChangeVolume(v) => VolumeChange(s, v)
    case SeekTo(p) => Seek(s, p)
    case PollTick(position, ended) => Tick(s, position, ended)
    case MediaPlay => OnPlay(s)
    case MediaPause => OnPause(s)
    case MediaEnded => OnEnded(s)
    case MetadataLoaded(d) => OnLoadedMetadata(s, d)
    case ChangeTrack(t) => SetTrack(s, t)
    case AutoplayFires(succeeds) => FireAutoplay(s, succeeds)
    case Expand(expanded) => SetExpanded(s, expanded)
  }

  /** Every event of the sequence is enabled in the state it meets. */
  predicate Admissible(s: PlayerState, es: seq<Event>)
    decreases |es|
  {
    es == [] || (Enabled(s, es[0]) && Admissible(Apply(s, es[0]), es[1..]))
  }

  /** The state after a sequence of events. */
  function Run(s: PlayerState, es: seq<Event>): PlayerState
    requires Admissible(s, es)
    decreases |es|
  {
    if es == [] then s else Run(Apply(s, es[0]), es[1..])
  }

  /** Every admissible sequence of events keeps the invariant. */
  lemma {:induction false} RunKeepsValid(s: PlayerState, es: seq<Event>)
    requires Valid(s) && Admissible(s, es)
    ensures Valid(Run(s, es))
    decreases |es|
  {
    if es != [] {
      RunKeepsValid(Apply(s, es[0]), es[1..]);
    }
  }

  /** Whatever happens from the start, at most one polling interval runs, and any that runs
      is the one `intervalRef` holds, so clearing it stops all polling. */
  lemma NeverTwoPolls(es: seq<Event>)
    requires Admissible(Initial, es)
    ensures var s := Run(Initial, es);
      |s.liveIntervals| <= 1 && (Polling(s) ==> s.intervalRef.Some? && s.liveIntervals == {s.intervalRef.value})
  {
    InitialValid();
    RunKeepsValid(Initial, es);
    AtMostOnePoll(Run(Initial, es));
  }

  /** A candidate invariant for the progress percentage: it is the shown time as a share of
      the duration, and 0 while the duration is unknown. The handlers do not keep it. */
  predicate ProgressMatchesTime(s: PlayerState) {
    (s.duration != 0.0 ==> s.progress == s.currentTime / s.duration * 100.0) &&
    (s.duration == 0.0 ==> s.progress == 0.0)
  }

  /** A track with an audio source, 204 seconds ("3:24") long. */
  const SampleA := Track("a", "A", "", "", "3:24", "", "", Some("a.mp3"))
  const SampleB := Track("b", "B", "", "", "2:56", "", "", Some("b.mp3"))

  /** The seek handler keeps the rule only once the duration is known: a seek to 50% before
      the metadata has loaded sets the percentage but leaves the time at 0. */
  lemma SeekBeforeMetadataBreaksProgressRule()
    ensures var s := Seek(SetTrack(Initial, Some(SampleA)), 50.0);
      s.duration == 0.0 && s.progress == 50.0 && s.currentTime == 0.0 && !ProgressMatchesTime(s)
  {
  }

  /** Track A is given, its metadata reports 204 s, auto-play succeeds and the element reports
      `play`; a seek to 50% then stands at 102 s while polling; giving track B resets every
      transient field and stops polling before B's own auto-play attempt runs. */
  lemma PlaybackScenario()
    ensures var s1 := SetTrack(Initial, Some(SampleA));
      var s2 := OnLoadedMetadata(s1, 204.0);
      var s3 := FireAutoplay(s2, true);
      var s4 := OnPlay(s3);
      var s5 := Seek(s4, 50.0);
      var s6 := SetTrack(s5, Some(SampleB));
      s1.autoplayPending && s4.isPlaying && Polling(s4) &&
      s5.isPlaying && s5.currentTime == 102.0 && s5.progress == 50.0 && Polling(s5) &&
      s5.audio.Some? && s5.audio.value.position == 102.0 &&
      ResetToStart(s6) && !Polling(s6) && s6.autoplayPending && s6.duration == 204.0 &&
      s6.audio.Some? && s6.audio.value.src == "b.mp3" && s6.audio.value.position == 0.0
  {
    InitialValid();
  }

  /** Two tracks without a source share the placeholder URL, so switching between them
      leaves the element as it was (still playing, at its old position) while the player's
      own fields are reset and its polling stopped. */
  lemma SameSourceSwitchKeepsElement(s: PlayerState, t: Track)
    requires Valid(s) && s.track.Some? && s.track != Some(t)
    requires t.audioSrc == None && s.track.value.audioSrc == None
    ensures var r := SetTrack(s, Some(t));
      r.audio == s.audio && ResetToStart(r) && !Polling(r)
  {
  }
}
