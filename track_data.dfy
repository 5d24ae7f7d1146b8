/** The track record shared by the page and the player, and the page's fixed table of
    featured tracks (src/pages/Index.tsx:13-86). */
module TrackData {
  import opened Optional

  /** A track as the page holds it. The player only reads `id` and `audioSrc`; `duration`
      is a display label such as "3:24", not a number of seconds. */
  datatype Track = Track(
    id: string,
    title: string,
    artist: string,
    coverArt: string,
    duration: string,
    genre: string,
    mood: string,
    audioSrc: Option<string>)

  /** A featured record: the table has no audio source for any of its tracks. */
  function Featured(id: string, title: string, artist: string, duration: string,
                    genre: string, mood: string): (t: Track)
    ensures t.id == id && t.audioSrc == None
  {
    Track(id, title, artist, "", duration, genre, mood, None)
  }

  /** The eight featured tracks, in the page's order (cover image URLs are left empty). */
  const FeaturedTracks: seq<Track> := [
    Featured("1", "Midnight Glow", "Electronic Dreams", "3:24", "Electronic", "Uplifting"),
    Featured("2", "Urban Rhythm", "City Beats", "2:56", "Hip-Hop", "Energetic"),
    Featured("3", "Gentle Wind", "Nature Sounds", "4:12", "Ambient", "Calm"),
    Featured("4", "Sunset Drive", "Coastal Vibes", "3:45", "Indie", "Relaxed"),
    Featured("5", "Digital Dawn", "Future Sound", "3:18", "Electronic", "Focused"),
    Featured("6", "City Lights", "Urban Jazz", "4:02", "Jazz", "Smooth"),
    Featured("7", "Mountain Echo", "Wild Symphony", "5:16", "Orchestral", "Epic"),
    Featured("8", "Neon Dreams", "Synthwave Collective", "3:37", "Synthwave", "Nostalgic")
  ]

  /** No two records of `tracks` share an id. */
  predicate DistinctIds(tracks: seq<Track>) {
    forall i, j | 0 <= i < |tracks| && 0 <= j < |tracks| && tracks[i].id == tracks[j].id :: i == j
  }

  /** The featured ids are "1" to "8", pairwise distinct. */
  lemma FeaturedIdsDistinct()
    ensures DistinctIds(FeaturedTracks)
  {
    forall i, j | 0 <= i < |FeaturedTracks| && 0 <= j < |FeaturedTracks| && FeaturedTracks[i].id == FeaturedTracks[j].id
      ensures i == j
    {
      assert |FeaturedTracks[i].id| == 1 && FeaturedTracks[i].id[0] as int == '1' as int + i;
      assert |FeaturedTracks[j].id| == 1 && FeaturedTracks[j].id[0] as int == '1' as int + j;
    }
  }

  /** No featured record carries an audio source. */
  lemma FeaturedHaveNoSource()
    ensures forall i | 0 <= i < |FeaturedTracks| :: FeaturedTracks[i].audioSrc == None
  {
  }
}
