/** The page's exclusive "current track" rule (src/pages/Index.tsx:120-138, 191-196): two
    nullable cells, the id whose card shows as playing and the record handed to the player. */
module IndexPage {
  import opened Optional
  import opened TrackData

  /** `tracks.find(t => t.id === id)`: the first record with that id, if there is one. */
  function Find(tracks: seq<Track>, id: string): (r: Option<Track>)
    ensures r.None? <==> forall i | 0 <= i < |tracks| :: tracks[i].id != id
    ensures r.Some? ==> (r.value.id == id &&
      exists i | 0 <= i < |tracks| :: tracks[i] == r.value && forall j | 0 <= j < i :: tracks[j].id != id)
  {
    if tracks == [] then None
    else if tracks[0].id == id then Some(tracks[0])
    else
      var rest := Find(tracks[1..], id);
      assert forall i | 1 <= i < |tracks| :: tracks[i] == tracks[1..][i - 1];
      if rest.Some? then
        ghost var k :| 0 <= k < |tracks[1..]| && tracks[1..][k] == rest.value &&
          forall j | 0 <= j < k :: tracks[1..][j].id != id;
        assert tracks[k + 1] == rest.value && forall j | 0 <= j < k + 1 :: tracks[j].id != id;
        rest
      else rest
  }

  /** Whether an id names a featured record. */
  predicate IsFeaturedId(id: string) {
    exists i | 0 <= i < |FeaturedTracks| :: FeaturedTracks[i].id == id
  }

  /** A card is drawn as playing when `playingTrackId === track.id` (line 195). */
  function IsPlaying(playingTrackId: Option<string>, track: Track): (b: bool)
    ensures b ==> playingTrackId.Some?
    ensures playingTrackId.Some? ==> (b <==> track.id == playingTrackId.value)
  {
    playingTrackId == Some(track.id)
  }

  /** The two state cells of the page. */
  datatype Selection = Selection(playingTrackId: Option<string>, currentTrack: Option<Track>)

  /** The page's initial state (lines 121-122). */
  const NoSelection := Selection(None, None)

  /** The two cells agree: both empty, or the current record is a featured one whose id is
      the playing id. */
  predicate Consistent(sel: Selection) {
    (sel.currentTrack.None? <==> sel.playingTrackId.None?) &&
    (sel.currentTrack.Some? ==>
      sel.currentTrack.value.id == sel.playingTrackId.value &&
      sel.currentTrack.value in FeaturedTracks)
  }

  /** `handlePlayPause(trackId)` as a function of the two cells (lines 125-138). */
  function Select(sel: Selection, trackId: string): (r: Selection)
    // clicking the selected track clears both cells
    ensures sel.playingTrackId == Some(trackId) ==> r == NoSelection
    // any other id becomes the playing id
    ensures sel.playingTrackId != Some(trackId) ==> r.playingTrackId == Some(trackId)
    // a featured id brings its record along
    ensures sel.playingTrackId != Some(trackId) && IsFeaturedId(trackId) ==>
      r.currentTrack.Some? && r.currentTrack.value.id == trackId && r.currentTrack.value in FeaturedTracks
    // an unknown id leaves the player's record as it was
    ensures sel.playingTrackId != Some(trackId) && !IsFeaturedId(trackId) ==>
      r.currentTrack == sel.currentTrack
  {
    if sel.playingTrackId == Some(trackId) then NoSelection
    else
      var track := Find(FeaturedTracks, trackId);
      Selection(Some(trackId), if track.Some? then track else sel.currentTrack)
  }

  /** The page after a sequence of clicks on play controls. */
  function Replay(sel: Selection, ids: seq<string>): Selection
    decreases |ids|
  {
    if ids == [] then sel else Replay(Select(sel, ids[0]), ids[1..])
  }

  /** One click on a featured card keeps the cells consistent. */
  lemma SelectKeepsConsistent(sel: Selection, trackId: string)
    requires Consistent(sel) && IsFeaturedId(trackId)
    ensures Consistent(Select(sel, trackId))
  {
  }

  /** From the initial state, any clicks on featured cards keep the cells consistent: the
      record is absent exactly when no id is playing, and otherwise has the playing id. */
  lemma {:induction false} ReplayKeepsConsistent(sel: Selection, ids: seq<string>)
    requires Consistent(sel)
    requires forall i | 0 <= i < |ids| :: IsFeaturedId(ids[i])
    ensures Consistent(Replay(sel, ids))
    decreases |ids|
  {
    if ids != [] {
      SelectKeepsConsistent(sel, ids[0]);
      ReplayKeepsConsistent(Select(sel, ids[0]), ids[1..]);
    }
  }

  /** The invariant on every state reachable from the initial one through featured cards. */
  lemma ReachableConsistent(ids: seq<string>)
    requires forall i | 0 <= i < |ids| :: IsFeaturedId(ids[i])
    ensures var sel := Replay(NoSelection, ids);
      (sel.currentTrack.None? <==> sel.playingTrackId.None?) &&
      (sel.currentTrack.Some? ==> sel.currentTrack.value.id == sel.playingTrackId.value)
  {
    ReplayKeepsConsistent(NoSelection, ids);
  }

  /** Clicking the same control twice from the initial state returns to it, for every id. */
  lemma SameIdTwiceClears(trackId: string)
    ensures Replay(NoSelection, [trackId, trackId]) == NoSelection
  {
    var once := Select(NoSelection, trackId);
    assert once.playingTrackId == Some(trackId);
    calc {
      Replay(NoSelection, [trackId, trackId]);
      { assert [trackId, trackId][1..] == [trackId]; }
      Replay(once, [trackId]);
      { assert [trackId][1..] == []; }
      Replay(Select(once, trackId), []);
    }
  }

  /** An id outside the table breaks the agreement: from the initial state it becomes the
      playing id while the player keeps no record. */
  lemma UnknownIdLeavesNoRecord(trackId: string)
    requires !IsFeaturedId(trackId)
    ensures Select(NoSelection, trackId) == Selection(Some(trackId), None)
    ensures !Consistent(Select(NoSelection, trackId))
  {
  }

  /** At most one featured card is drawn as playing, whatever the playing id. */
  lemma AtMostOneCardPlaying(playingTrackId: Option<string>, i: nat, j: nat)
    requires i < |FeaturedTracks| && j < |FeaturedTracks|
    requires IsPlaying(playingTrackId, FeaturedTracks[i]) && IsPlaying(playingTrackId, FeaturedTracks[j])
    ensures i == j
  {
    FeaturedIdsDistinct();
  }

  /** In a consistent state the card drawn as playing is exactly the record the player gets. */
  lemma PlayingCardIsCurrent(sel: Selection, i: nat)
    requires Consistent(sel) && i < |FeaturedTracks|
    ensures IsPlaying(sel.playingTrackId, FeaturedTracks[i]) <==> sel.currentTrack == Some(FeaturedTracks[i])
  {
    if sel.currentTrack.Some? && IsPlaying(sel.playingTrackId, FeaturedTracks[i]) {
      FeaturedIdsDistinct();
      var k :| 0 <= k < |FeaturedTracks| && FeaturedTracks[k] == sel.currentTrack.value;
      assert FeaturedTracks[k].id == FeaturedTracks[i].id;
    }
  }

  /** The page component's two `useState` cells. */
  class Page {
    var playingTrackId: Option<string>
    var currentTrack: Option<Track>

    /** The cells as a value. */
    function Current(): Selection
      reads this
    {
      Selection(playingTrackId, currentTrack)
    }

    /** Both cells start empty (lines 121-122). */
    constructor ()
      ensures Current() == NoSelection
    {
      playingTrackId := None;
      currentTrack := None;
    }

    /** The play control of a card was clicked (lines 125-138). */
    method HandlePlayPause(trackId: string)
      modifies this
      ensures Current() == Select(old(Current()), trackId)
      ensures old(Consistent(Current())) && IsFeaturedId(trackId) ==> Consistent(Current())
    {
      if playingTrackId == Some(trackId) {
        playingTrackId := None;
        currentTrack := None;
      } else {
        playingTrackId := Some(trackId);
        var track := Find(FeaturedTracks, trackId);
        if track.Some? {
          currentTrack := track;
        }
      }
    }
  }
}
