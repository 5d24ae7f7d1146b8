/** How the page feeds the player: `<Player currentTrack={currentTrack} />`
    (src/pages/Index.tsx:339), so every click ends in a track change of the player. */
module PagePlayer {
  import opened Optional
  import opened TrackData
  import opened IndexPage
  import opened PlayerMachine

  /** The player's track after a click on a play control. */
  function AfterClick(s: PlayerState, sel: Selection, trackId: string): PlayerState {
    SetTrack(s, Select(sel, trackId).currentTrack)
  }

  /** A featured record never has an audio source, so no track the page hands over does. */
  lemma PageTracksHaveNoSource(sel: Selection)
    requires Consistent(sel)
    ensures !HasSource(sel.currentTrack)
  {
    if sel.currentTrack.Some? {
      FeaturedHaveNoSource();
      var k :| 0 <= k < |FeaturedTracks| && FeaturedTracks[k] == sel.currentTrack.value;
    }
  }

  /** Clicking play controls never schedules the player's auto-play attempt: it is only
      made for a track with a source, and the featured table gives none. Playback then starts
      only through the play/pause control. */
  lemma PageNeverSchedulesAutoplay(s: PlayerState, sel: Selection, trackId: string)
    requires Valid(s) && Consistent(sel) && s.track == sel.currentTrack
    ensures !AfterClick(s, sel, trackId).autoplayPending
    ensures AfterClick(s, sel, trackId).track == Select(sel, trackId).currentTrack
  {
    PageTracksHaveNoSource(sel);
    if IsFeaturedId(trackId) {
      SelectKeepsConsistent(sel, trackId);
      PageTracksHaveNoSource(Select(sel, trackId));
    }
  }

  /** A second click on the same card hides the player: no track, no element, no polling. */
  lemma SecondClickHidesPlayer(s: PlayerState, sel: Selection, trackId: string)
    requires Valid(s) && sel.playingTrackId == Some(trackId) && s.track.Some?
    ensures var r := AfterClick(s, sel, trackId);
      r.track == None && r.audio == None && !Polling(r) && ResetToStart(r)
  {
  }
}
