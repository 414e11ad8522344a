/**
 The metadata poll: each fetched now-playing document yields the track key
 (with `Unknown Artist` / `Unknown Title` defaults), a rating refresh when the
 key changed, and the list of up to five previous tracks.
 */
module MetadataSync {
  import opened Common
  import opened Decimal
  import opened Json
  import opened TrackIdentity
  import opened Base64

  /** The parsed now-playing document: a JSON object. */
  type Snapshot = map<string, Json>

  /** `data[name]`; a missing property reads as `undefined`, which acts like `null` here. */
  function Field(data: Snapshot, name: string): Json {
    if name in data then data[name] else JNull
  }

  const UNKNOWN_ARTIST := "Unknown Artist"
  const UNKNOWN_TITLE := "Unknown Title"

  /** The artist and title a poll derives its key from, defaults applied. */
  function PollArtist(data: Snapshot): string {
    OrDefault(Field(data, "artist"), UNKNOWN_ARTIST)
  }

  function PollTitle(data: Snapshot): string {
    OrDefault(Field(data, "title"), UNKNOWN_TITLE)
  }

  /** The key `updateCurrentTrack` derives for a document. */
  function PollKey(data: Snapshot): (key: string)
    ensures Btoa(Canonical(PollArtist(data), PollTitle(data))) == Some(key)
    ensures |key| > 0 && IsBase64Text(key) && '/' !in key
    ensures !Truthy(Field(data, "artist")) && !Truthy(Field(data, "title")) ==>
              key == CreateSongId(UNKNOWN_ARTIST, UNKNOWN_TITLE)
  {
    CreateSongId(PollArtist(data), PollTitle(data))
  }

  /** Documents with no usable artist and title all map to one key. */
  lemma EmptyMetadataSharesKey(d1: Snapshot, d2: Snapshot)
    requires !Truthy(Field(d1, "artist")) && !Truthy(Field(d1, "title"))
    requires !Truthy(Field(d2, "artist")) && !Truthy(Field(d2, "title"))
    ensures PollKey(d1) == PollKey(d2) == CreateSongId(UNKNOWN_ARTIST, UNKNOWN_TITLE)
  {
  }

  // ----- previous tracks -----

  datatype Track = Track(artist: Json, title: Json)

  const MAX_RECENT: nat := 5

  function ArtistKey(i: nat): string {
    "prev_artist_" + NatToDecimal(i)
  }

  function TitleKey(i: nat): string {
    "prev_title_" + NatToDecimal(i)
  }

  /** The i-th previous track, present when both its artist and its title are truthy. */
  function Slot(data: Snapshot, i: nat): Option<Track> {
    var artist, title := Field(data, ArtistKey(i)), Field(data, TitleKey(i));
    if Truthy(artist) && Truthy(title) then Some(Track(artist, title)) else None
  }

  /** The tracks of slots 1..n that are present, in slot order. */
  function RecentUpTo(data: Snapshot, n: nat): seq<Track>
    decreases n
  {
    if n == 0 then []
    else RecentUpTo(data, n - 1) + (if Slot(data, n).Some? then [Slot(data, n).value] else [])
  }

  /** How many of slots 1..n are present. */
  function PresentCount(data: Snapshot, n: nat): nat
    decreases n
  {
    if n == 0 then 0 else PresentCount(data, n - 1) + (if Slot(data, n).Some? then 1 else 0)
  }

  /** The list `updateRecentTracks` builds. */
  function RecentTracks(data: Snapshot): seq<Track> {
    RecentUpTo(data, MAX_RECENT)
  }

  /** The loop of `updateRecentTracks`: slots 1 to 5, pushing each present pair. */
  method CollectRecentTracks(data: Snapshot) returns (tracks: seq<Track>)
    ensures tracks == RecentTracks(data)
  {
    tracks := [];
    var i: nat := 1;
    while i <= MAX_RECENT
      invariant 1 <= i <= MAX_RECENT + 1
      invariant tracks == RecentUpTo(data, i - 1)
    {
      var artist := Field(data, ArtistKey(i));
      var title := Field(data, TitleKey(i));
      if Truthy(artist) && Truthy(title) {
        tracks := tracks + [Track(artist, title)];
      }
      i := i + 1;
    }
  }

  lemma {:induction false} RecentLength(data: Snapshot, n: nat)
    ensures |RecentUpTo(data, n)| == PresentCount(data, n) <= n
    decreases n
  {
    if n > 0 {
      RecentLength(data, n - 1);
    }
  }

  /** A track is listed exactly when some slot 1..n holds it. */
  lemma {:induction false} RecentMembership(data: Snapshot, n: nat, t: Track)
    ensures t in RecentUpTo(data, n) <==> exists i :: 1 <= i <= n && Slot(data, i) == Some(t)
    decreases n
  {
    if n > 0 {
      RecentMembership(data, n - 1, t);
      if Slot(data, n) == Some(t) {
        assert t in RecentUpTo(data, n);
      }
    }
  }

  /** Slot i's track sits after exactly the present slots before it: slot order is kept. */
  lemma {:induction false} RecentPosition(data: Snapshot, n: nat, i: nat)
    requires 1 <= i <= n
    requires Slot(data, i).Some?
    ensures PresentCount(data, i - 1) < |RecentUpTo(data, n)|
    ensures RecentUpTo(data, n)[PresentCount(data, i - 1)] == Slot(data, i).value
    decreases n
  {
    RecentLength(data, n - 1);
    if i < n {
      RecentPosition(data, n - 1, i);
    }
  }

  /** All five slots present: the list is exactly slots 1 to 5. */
  lemma FullRecentTracks(data: Snapshot)
    requires forall i :: 1 <= i <= 5 ==> Slot(data, i).Some?
    ensures RecentTracks(data) == [Slot(data, 1).value, Slot(data, 2).value, Slot(data, 3).value,
                                   Slot(data, 4).value, Slot(data, 5).value]
  {
  }

  // ----- the poll -----

  /** `currentSongId` and whether the rating panel has been shown. */
  datatype SyncState = SyncState(currentSongId: Option<string>, ratingVisible: bool)

  /** The page loads with no current song and the rating panel hidden. */
  const INITIAL_SYNC := SyncState(None, false)

  /** The metadata fetch either yields a parsed document or fails (network or JSON error). */
  datatype MetadataFetch = Received(data: Snapshot) | FetchFailed

  /** The track panels after a poll: the recent-tracks list, or the error placeholders. */
  datatype TrackPanel = ShowTracks(recent: seq<Track>) | ShowError

  /** `refreshes` holds the song id of every `updateRatingDisplay` the poll starts. */
  datatype PollOutcome = PollOutcome(state: SyncState, refreshes: seq<string>, panel: TrackPanel)

  /** `updateCurrentTrack` and `updateRecentTracks` for a document whose key is `key`. */
  function ApplyDocument(st: SyncState, key: string, recent: seq<Track>): (r: PollOutcome)
    ensures r.state.currentSongId == Some(key)
    ensures r.refreshes == [] <==> st.currentSongId == Some(key)
    ensures r.refreshes != [] ==> r.refreshes == [key] && r.state.ratingVisible
    ensures r.refreshes == [] ==> r.state == st
    ensures r.panel == ShowTracks(recent)
  {
    if st.currentSongId == Some(key) then PollOutcome(st, [], ShowTracks(recent))
    else PollOutcome(SyncState(Some(key), true), [key], ShowTracks(recent))
  }

  /** One run of `fetchMetadata` once its fetch settles. */
  function FetchMetadata(st: SyncState, fetch: MetadataFetch): (r: PollOutcome)
    ensures fetch.Received? ==> r.state.currentSongId == Some(PollKey(fetch.data))
    ensures fetch.Received? ==> (r.refreshes == [] <==> st.currentSongId == Some(PollKey(fetch.data)))
    ensures fetch.Received? ==> r.panel == ShowTracks(RecentTracks(fetch.data))
    ensures r.refreshes == [] || (r.state.currentSongId.Some? && r.refreshes == [r.state.currentSongId.value])
    ensures |r.refreshes| <= 1
    ensures r.refreshes == [] ==> r.state == st
    ensures r.refreshes != [] ==> r.state.ratingVisible
    ensures fetch.FetchFailed? ==> r.refreshes == [] && r.panel == ShowError
  {
    match fetch
    case FetchFailed => PollOutcome(st, [], ShowError)
    case Received(data) => ApplyDocument(st, PollKey(data), RecentTracks(data))
  }

  /** A second poll whose pair matches the first up to case and punctuation changes nothing. */
  lemma RepeatedPollNoRefresh(st: SyncState, d1: Snapshot, d2: Snapshot)
    requires SameUpToCaseAndPunctuation(PollArtist(d1), PollArtist(d2))
    requires SameUpToCaseAndPunctuation(PollTitle(d1), PollTitle(d2))
    ensures var first := FetchMetadata(st, Received(d1));
            var second := FetchMetadata(first.state, Received(d2));
            second.refreshes == [] && second.state == first.state
  {
    SongIdIgnoresCaseAndPunctuation(PollArtist(d1), PollTitle(d1), PollArtist(d2), PollTitle(d2));
  }

  /**
   A second poll starts a refresh exactly when its canonical pair differs
   from the first one's, and then exactly one, for the new key.
   */
  lemma ChangedTrackRefreshesOnce(st: SyncState, d1: Snapshot, d2: Snapshot)
    ensures var first := FetchMetadata(st, Received(d1));
            var second := FetchMetadata(first.state, Received(d2));
            second.refreshes != [] <==> Canonical(PollArtist(d1), PollTitle(d1)) != Canonical(PollArtist(d2), PollTitle(d2))
    ensures var first := FetchMetadata(st, Received(d1));
            var second := FetchMetadata(first.state, Received(d2));
            second.refreshes != [] ==>
              second.refreshes == [PollKey(d2)] && second.state == SyncState(Some(PollKey(d2)), true)
  {
    SongIdEqualIff(PollArtist(d1), PollTitle(d1), PollArtist(d2), PollTitle(d2));
  }

  /** A failed fetch keeps the track state, so the next successful poll compares against the last good key. */
  lemma FailedPollIsTransparent(st: SyncState, data: Snapshot)
    ensures FetchMetadata(FetchMetadata(st, FetchFailed).state, Received(data))
         == FetchMetadata(st, Received(data))
  {
  }

  /** The first successful poll after the page loads always shows the rating panel and refreshes it. */
  lemma FirstPollRefreshes(data: Snapshot)
    ensures var r := FetchMetadata(INITIAL_SYNC, Received(data));
            r.refreshes == [PollKey(data)] && r.state == SyncState(Some(PollKey(data)), true)
  {
  }
}
