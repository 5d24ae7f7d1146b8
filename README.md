# Soundwave landing page: selection rule and audio player, modelled in Dafny

The landing page lists eight featured tracks. Clicking a card's play control selects that
track, and clicking it again clears the selection. The selected record goes to a bottom
audio player. The player keeps its own playback state: a playing flag, a volume, a progress
percentage, a duration, the current time and an expanded flag. It also runs a polling
interval that samples the media element. When the track changes to one with an audio source,
it schedules one auto-play attempt. This project models both parts and proves their properties.

- `option.dfy` (`Optional`): the nullable cell as `Option`.
- `track_data.dfy` (`TrackData`): the track record and the fixed featured table. Its ids are
  distinct, and no record has an audio source.
- `index_page.dfy` (`IndexPage`): `find`, the "card is playing" flag, `handlePlayPause` as
  the pure `Select`, and the class `Page` whose method updates the two cells in place.
  Replaying clicks on featured cards keeps the two cells consistent.
- `player_format.dfy` (`PlayerFormat`): `formatTime` and the volume-icon tiers.
- `player_machine.dfy` (`PlayerMachine`): every player transition as a pure function over
  one state value. The media element is an abstract record with its URL, position, gain,
  ended and paused flags. Timers are explicit: the set of live polling intervals, the handle in
  `intervalRef`, and a pending flag for the auto-play timer. An invariant (`Valid`) holds
  after every admissible sequence of events, so at most one poll ever runs.
- `player.dfy` (`PlayerWidget`): the class `Player`, whose fields the handlers update in
  place. Each method's postcondition ties its new state to the corresponding transition.
- `page_player.dfy` (`PagePlayer`): the page hands its record to the player. Because no
  featured record has an audio source, a click never schedules auto-play.

Inputs the browser controls are parameters. These are the position and ended flag a poll
tick observes, the duration that `loadedmetadata` reports, and whether the auto-play
`play()` promise succeeds. The element's `play`, `pause` and `ended` events are methods that
the environment calls.

Consequences of the code worth knowing:
- The comment at src/components/ui/player.tsx:163 reads "Auto-play new track after a short
  delay". The code attempts it only for a track with a non-empty `audioSrc`. The featured
  table gives none, so from this page playback starts only through the play/pause control
  (`PagePlayer.PageNeverSchedulesAutoplay`).
- A natural invariant would be that progress is the current time as a share of the
  duration, and 0 while the duration is 0 (`PlayerMachine.ProgressMatchesTime`). The
  handlers do not keep it. A seek before the metadata has loaded sets the percentage but
  not the time (`PlayerMachine.SeekBeforeMetadataBreaksProgressRule`).
- A reading of src/components/ui/player.tsx:108-153, not a property the model proves: the
  player mounts with no track and no element, so the listener effect first runs with
  nothing to attach to. Its dependencies (`audioRef`, `volume`, `duration`) do not change
  when the element appears, so the effect does not run again then. The element's
  `loadedmetadata` goes unheard and the duration stays 0. With the duration at 0, the guard
  at line 81 keeps every seek off the element. A later volume change attaches the
  listeners, and a `play` then starts ticks that divide by that zero duration (line 94). So
  the page does reach the state that `PlayerMachine.Tick`'s precondition excludes.
- A poll tick that sees the end resets playback but does not stop the interval. The
  `ended` event (line 134), the `pause` event (line 127) and a track change (line 161) stop
  it, as does the listener cleanup (line 150), which the model leaves out
  (`PlayerMachine.TickAtEndMatchesEnded`).
- Every featured track plays the same placeholder URL. Switching between two featured
  tracks therefore does not reload the element: it keeps playing at its old position while
  the player resets its own fields and stops polling
  (`PlayerMachine.SameSourceSwitchKeepsElement`).

## Model

| member | source | states |
|---|---|---|
| `TrackData.FeaturedIdsDistinct` | src/pages/Index.tsx:13-86 | the eight featured ids are pairwise distinct |
| `TrackData.FeaturedHaveNoSource` | src/pages/Index.tsx:13-86 | no featured record carries an audio source |
| `IndexPage.Find` | src/pages/Index.tsx:133 | `find` returns nothing exactly when no record has the id; otherwise it returns a record with that id, and no earlier record has the id |
| `IndexPage.IsPlaying` | src/pages/Index.tsx:195 | a card is drawn as playing exactly when some id is playing and it is the card's id |
| `IndexPage.Select` | src/pages/Index.tsx:125-138 | clicking the selected id clears both cells; any other id becomes the playing id; a featured id brings a featured record with that id; an unknown id leaves the record as it was |
| `IndexPage.SelectKeepsConsistent` | src/pages/Index.tsx:125-138 | a click on a featured card keeps the cells consistent: the record is empty exactly when no id plays, and otherwise it is the featured record of the playing id |
| `IndexPage.ReplayKeepsConsistent` | src/pages/Index.tsx:121-138 | any sequence of clicks on featured cards keeps the cells consistent |
| `IndexPage.ReachableConsistent` | src/pages/Index.tsx:121-138 | from both cells empty, the record is empty exactly when no id plays, and otherwise has the playing id |
| `IndexPage.SameIdTwiceClears` | src/pages/Index.tsx:125-138 | two clicks on the same id from the initial state return to both cells empty, for every id |
| `IndexPage.UnknownIdLeavesNoRecord` | src/pages/Index.tsx:130-136 | from the initial state, every id outside the table becomes the playing id while the record stays empty, which breaks consistency |
| `IndexPage.AtMostOneCardPlaying` | src/pages/Index.tsx:191-196 | two cards drawn as playing are the same card |
| `IndexPage.PlayingCardIsCurrent` | src/pages/Index.tsx:121-138 | in a consistent state a card is drawn as playing exactly when it is the record handed to the player |
| `IndexPage.Page.constructor` | src/pages/Index.tsx:121-122 | both cells start empty |
| `IndexPage.Page.HandlePlayPause` | src/pages/Index.tsx:125-138 | updates the two cells as `Select` does, and keeps them consistent for a featured id |
| `PagePlayer.PageTracksHaveNoSource` | src/pages/Index.tsx:13-86 | a record the page hands over in a consistent state has no audio source |
| `PagePlayer.PageNeverSchedulesAutoplay` | src/components/ui/player.tsx:156-175 | after any click, the player's track is the page's record and no auto-play is pending |
| `PagePlayer.SecondClickHidesPlayer` | src/pages/Index.tsx:126-129 | a second click on the playing card leaves the player with no track, no element, no polling, and playback reset |
| `PlayerFormat.Decimal` | src/components/ui/player.tsx:50 | the decimal text of a count is non-empty, has no leading zero, and reads back as the count |
| `PlayerFormat.PadStart2` | src/components/ui/player.tsx:50 | text of two or more characters is kept; shorter text is left-padded with zeros to length 2 |
| `PlayerFormat.SecondsField` | src/components/ui/player.tsx:48-50 | the padded seconds field is exactly two digits and reads back as the seconds |
| `PlayerFormat.MinutesSeconds` | src/components/ui/player.tsx:47-48 | whole minutes and whole seconds of the remainder satisfy seconds in 0..59 and minutes·60 + seconds = ⌊t⌋ |
| `PlayerFormat.Clock` | src/components/ui/player.tsx:50 | the text is clock text: minutes without leading zeros, a colon and two digits, both fields reading back as given |
| `PlayerFormat.CanonicalUnique` | src/components/ui/player.tsx:50 | decimal text without leading zeros is determined by its value |
| `PlayerFormat.ClockTextUnique` | src/components/ui/player.tsx:50 | clock text is determined by its minutes and seconds, so the contract of `FormatTime` fixes its result |
| `PlayerFormat.NoLeadingZeroMinutes` | src/components/ui/player.tsx:50 | "01:05" is not clock text for 1 minute 5 seconds |
| `PlayerFormat.SplitMinutes` | src/components/ui/player.tsx:47-48 | whole minutes are ⌊t/60⌋, and the whole seconds s satisfy s < 60 and minutes·60 + s = ⌊t⌋ |
| `PlayerFormat.FormatTime` | src/components/ui/player.tsx:44-51 | not-a-number gives clock text for 0:0; a number t gives clock text for ⌊t/60⌋ minutes and ⌊t⌋ − 60·⌊t/60⌋ seconds, which lie in 0..59 |
| `PlayerFormat.ZeroFields` | src/components/ui/player.tsx:45 | "0:00" is clock text for 0 minutes and 0 seconds |
| `PlayerFormat.ClockZero` | src/components/ui/player.tsx:45 | `Clock(0, 0)` is "0:00" |
| `PlayerFormat.FormatTimeNaN` | src/components/ui/player.tsx:45 | not-a-number gives "0:00" |
| `PlayerFormat.FormatTimeZero` | src/components/ui/player.tsx:44-51 | 0 gives "0:00" |
| `PlayerFormat.FormatTimeSixtyFive` | src/components/ui/player.tsx:44-51 | 65 gives "1:05" |
| `PlayerFormat.FormatTimeTrackLength` | src/components/ui/player.tsx:44-51 | 204 gives "3:24" |
| `PlayerFormat.IconFor` | src/components/ui/player.tsx:276-282 | muted exactly at volume 0, low exactly below 50 but not 0, high exactly from 50 |
| `PlayerFormat.IconTiersOnSlider` | src/components/ui/player.tsx:276-288 | on the slider's range [0, 100] the tiers are {0}, (0, 50) and [50, 100] |
| `PlayerMachine.InitialValid` | src/components/ui/player.tsx:33-41 | the initial state satisfies the invariant |
| `PlayerMachine.AtMostOnePoll` | src/components/ui/player.tsx:89-92 | in a valid state at most one polling interval is live |
| `PlayerMachine.ClearPoll` | src/components/ui/player.tsx:90 | clearing the handle in `intervalRef` removes only live intervals; in a valid state none is left; nothing else changes |
| `PlayerMachine.StartPolling` | src/components/ui/player.tsx:89-105 | a fresh handle goes into `intervalRef` and is live; in a valid state it is the only live interval; nothing else changes |
| `PlayerMachine.Toggle` | src/components/ui/player.tsx:54-64 | without an element nothing changes; with one the playing flag flips, and the element is paused if it was playing and played otherwise; nothing else changes; the invariant is kept |
| `PlayerMachine.ToggleTwice` | src/components/ui/player.tsx:54-64 | toggling twice restores the playing flag, and the whole state when the element's paused flag agreed with it |
| `PlayerMachine.VolumeChange` | src/components/ui/player.tsx:67-74 | the volume becomes v and the element's gain v/100; nothing else changes; the invariant is kept |
| `PlayerMachine.Seek` | src/components/ui/player.tsx:77-86 | progress becomes p; with an element and a non-zero duration, the time and the element's position become p/100·duration, so progress is again time/duration·100; otherwise time and element are unchanged; nothing else changes |
| `PlayerMachine.Tick` | src/components/ui/player.tsx:92-104 | without a live interval nothing happens; otherwise the element's position is copied into the time and into progress = time/duration·100, and at the end playback is reset while polling continues |
| `PlayerMachine.OnPlay` | src/components/ui/player.tsx:120-123 | `play` sets the playing flag and starts polling, with a fresh handle as the only live interval |
| `PlayerMachine.OnPause` | src/components/ui/player.tsx:125-128 | `pause` clears the playing flag and stops polling; nothing else changes |
| `PlayerMachine.OnEnded` | src/components/ui/player.tsx:130-135 | `ended` clears playing, progress and time, stops polling, and the element is marked ended; nothing else changes |
| `PlayerMachine.TickAtEndMatchesEnded` | src/components/ui/player.tsx:93-135 | a tick that sees the end makes the same resets as `ended`, but polling keeps running |
| `PlayerMachine.OnLoadedMetadata` | src/components/ui/player.tsx:116-118 | with an element, the reported duration is stored; nothing else changes |
| `PlayerMachine.EffectiveSource` | src/components/ui/player.tsx:187 | the element's URL is the track's non-empty `audioSrc`, otherwise the placeholder |
| `PlayerMachine.AttachMedia` | src/components/ui/player.tsx:185-189 | an element exists exactly when a track is given, loaded from its URL; a new one starts at position 0, not ended, paused, with gain volume/100; a reused one with the same URL is untouched; a reused one with a new URL restarts at 0, paused, keeping its gain |
| `PlayerMachine.SameSourceSwitchKeepsElement` | src/components/ui/player.tsx:156-189 | switching between two tracks without a source leaves the element as it was, while playback fields reset and polling stops |
| `PlayerMachine.SetTrack` | src/components/ui/player.tsx:156-175 | the same track changes nothing; a new one resets progress, time and playing, stops polling, schedules auto-play exactly when it has a source, and keeps volume, duration and the expanded flag |
| `PlayerMachine.FireAutoplay` | src/components/ui/player.tsx:163-171 | a cancelled timer does nothing; a firing one is no longer pending; success with an element plays it and sets the playing flag; refusal changes nothing else |
| `PlayerMachine.SetExpanded` | src/components/ui/player.tsx:317-414 | the expanded flag becomes the given value and nothing else changes |
| `PlayerMachine.Apply` | src/components/ui/player.tsx:54-175 | every event keeps the invariant |
| `PlayerMachine.RunKeepsValid` | src/components/ui/player.tsx:54-175 | every admissible sequence of events keeps the invariant |
| `PlayerMachine.NeverTwoPolls` | src/components/ui/player.tsx:89-105 | after any admissible events from the start, at most one interval is live, and it is the one in `intervalRef` |
| `PlayerMachine.SeekBeforeMetadataBreaksProgressRule` | src/components/ui/player.tsx:77-86 | a seek to 50% before the duration is known leaves progress 50 and time 0 |
| `PlayerMachine.PlaybackScenario` | src/components/ui/player.tsx:77-175 | a 204 s track with auto-play and a `play` event sits at 102 s after a seek to 50% while polling; the next track, with another URL, resets everything except the duration and reloads the element at 0 |
| `PlayerWidget.Player.constructor` | src/components/ui/player.tsx:33-41 | the fields start at the hooks' initial values, which satisfy the invariant |
| `PlayerWidget.Player.ClearProgressInterval` | src/components/ui/player.tsx:90 | the fields change as `ClearPoll` says |
| `PlayerWidget.Player.StartProgressInterval` | src/components/ui/player.tsx:89-105 | the fields change as `StartPolling` says |
| `PlayerWidget.Player.TogglePlayPause` | src/components/ui/player.tsx:54-64 | the fields change as `Toggle` says, keeping the invariant |
| `PlayerWidget.Player.HandleVolumeChange` | src/components/ui/player.tsx:67-74 | the fields change as `VolumeChange` says, keeping the invariant |
| `PlayerWidget.Player.HandleProgressChange` | src/components/ui/player.tsx:77-86 | the fields change as `Seek` says, keeping the invariant |
| `PlayerWidget.Player.PollTick` | src/components/ui/player.tsx:92-104 | the fields change as `Tick` says, keeping the invariant |
| `PlayerWidget.Player.HandleLoadedMetadata` | src/components/ui/player.tsx:116-118 | the fields change as `OnLoadedMetadata` says, keeping the invariant |
| `PlayerWidget.Player.HandlePlay` | src/components/ui/player.tsx:120-123 | the fields change as `OnPlay` says, keeping the invariant |
| `PlayerWidget.Player.HandlePause` | src/components/ui/player.tsx:125-128 | the fields change as `OnPause` says, keeping the invariant |
| `PlayerWidget.Player.HandleEnded` | src/components/ui/player.tsx:130-135 | the fields change as `OnEnded` says, keeping the invariant |
| `PlayerWidget.Player.ChangeTrack` | src/components/ui/player.tsx:156-175 | the fields change as `SetTrack` says, keeping the invariant |
| `PlayerWidget.Player.AutoplayFires` | src/components/ui/player.tsx:163-171 | the fields change as `FireAutoplay` says, keeping the invariant |
| `PlayerWidget.Player.SetIsExpanded` | src/components/ui/player.tsx:317-414 | the fields change as `SetExpanded` says, keeping the invariant |

## Left out

- Markup, styling, icons and layout; the navigation bar, hero section, playlist cards and the featured card's hover flag; the static playlist table (src/pages/Index.tsx:89-118). None of them holds logic.
- The model's featured table leaves the cover-image URLs empty (track_data.dfy:23). The player displays them (src/components/ui/player.tsx:204, 324), but nothing in the model reads them.
- The media element is an abstract record: URL, position, gain, ended and paused. A new URL is modelled as reloading the element at position 0, paused. Decoding and the restart from 0 that `play()` performs on an element that has ended are not modelled.
- The `play()` promise and `console.error` on refusal: success or refusal is a boolean input, and a refusal changes nothing.
- Timer delays (300 ms and 100 ms) and React's scheduling. The two timers are a set of live interval handles and a pending flag, and firing them is an explicit call.
- The listener effect (src/components/ui/player.tsx:108-153) is modelled as running when the element appears. The model treats its listeners as attached while the element exists, and sets the gain to volume/100 on attach. Its dependency list actually keeps it from re-running when the element first appears. Its cleanup stops polling whenever the volume or the duration changes. Stale closures are not modelled either.
- Floating point: all quantities are exact reals. JavaScript's `%` is modelled as the floored remainder, which agrees with it for non-negative times. `Infinity` and negative inputs to `formatTime` are outside the model.
- PlayerMachine.Tick: requires a positive duration whenever a tick can fire. The source divides by a zero duration there (line 94). It stores `Infinity` for a positive position and not-a-number for position 0, and real numbers express neither.
- PlayerFormat.FormatTime: requires a non-negative time outside the not-a-number case, for the reason above.
- PlayerMachine.SetTrack: compares tracks by value, where the effect's `[currentTrack]` dependency compares them by identity. The page only passes the fixed records of its own table, so the two agree there.
- `event?.stopPropagation()` on the compact seek slider (src/components/ui/player.tsx:368) is a DOM event-bubbling detail.
