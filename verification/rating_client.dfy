/**
 The client side of rating: `rateSong` posts a vote for the current song,
 `updateRatingDisplay` fetches the aggregate and the listener's own vote in
 parallel and redraws the panel only when both answers are ok. Fetches are
 inputs (`Fetched`); the functions return the requests they issue.
 */
module RatingClient {
  import opened Common
  import opened Decimal
  import opened Json
  import opened RatingStore
  import opened RatingApi
  import opened MetadataSync

  /** The panel: the two count texts and which buttons carry `active`. */
  datatype Display = Display(upText: string, downText: string, upActive: bool, downActive: bool)

  /** The panel as the page is served: both counts "0", no button active. */
  const INITIAL_DISPLAY := Display("0", "0", false, false)

  predicate AtMostOneActive(d: Display) {
    !(d.upActive && d.downActive)
  }

  /** A settled `fetch`: a response, or a rejection. */
  datatype Fetched = Responded(response: Response) | Rejected

  /** `response.ok`. */
  predicate IsOk(f: Fetched) {
    f.Responded? && 200 <= f.response.status <= 299
  }

  datatype Request =
    | PostRate(body: RateBody)
    | GetRatingsRequest(songId: string)
    | GetUserRatingRequest(songId: string, userSession: string)

  /** `!!currentSongId`. */
  predicate HasSong(currentSongId: Option<string>) {
    currentSongId.Some? && currentSongId.value != ""
  }

  /** `${userSession}` in a URL: the token, or `"null"`. */
  function SessionText(userSession: Option<string>): string {
    if userSession.Some? then userSession.value else "null"
  }

  /** `userSession` in a JSON body. */
  function SessionJson(userSession: Option<string>): Json {
    if userSession.Some? then JStr(userSession.value) else JNull
  }

  /** The two GETs of `updateRatingDisplay`, for the song current when it is called. */
  function RefreshRequests(currentSongId: Option<string>, userSession: Option<string>): (r: seq<Request>)
    ensures !HasSong(currentSongId) ==> r == []
    ensures HasSong(currentSongId) ==>
              r == [GetRatingsRequest(currentSongId.value),
                    GetUserRatingRequest(currentSongId.value, SessionText(userSession))]
  {
    if !HasSong(currentSongId) then []
    else [GetRatingsRequest(currentSongId.value), GetUserRatingRequest(currentSongId.value, SessionText(userSession))]
  }

  /** `x || 0` written to `textContent`. */
  function CountText(j: Json): string {
    if Truthy(j) then ToJsString(j) else "0"
  }

  /** Reading a property of a parsed body; a missing one is `undefined`. */
  function ThumbsUpField(b: Body): Json {
    if b.Ratings? then b.thumbsUp else JNull
  }

  function ThumbsDownField(b: Body): Json {
    if b.Ratings? then b.thumbsDown else JNull
  }

  function RatingField(b: Body): Json {
    if b.UserRating? then b.rating else JNull
  }

  /** The body of `updateRatingDisplay` once both fetches settle. */
  function ApplyRefresh(d: Display, ratings: Fetched, user: Fetched): (r: Display)
    ensures !(IsOk(ratings) && IsOk(user)) ==> r == d
    ensures IsOk(ratings) && IsOk(user) ==>
              && r.upText == CountText(ThumbsUpField(ratings.response.body))
              && r.downText == CountText(ThumbsDownField(ratings.response.body))
              && (r.upActive <==> RatingField(user.response.body) == JInt(1))
              && (r.downActive <==> RatingField(user.response.body) == JInt(-1))
              && AtMostOneActive(r)
    ensures AtMostOneActive(d) ==> AtMostOneActive(r)
  {
    if IsOk(ratings) && IsOk(user) then
      var rating := RatingField(user.response.body);
      Display(CountText(ThumbsUpField(ratings.response.body)), CountText(ThumbsDownField(ratings.response.body)),
              rating == JInt(1), rating == JInt(-1))
    else d
  }

  datatype ClientStep = ClientStep(requests: seq<Request>, display: Display)

  /** `updateRatingDisplay()`: nothing without a current song. */
  function UpdateRatingDisplay(currentSongId: Option<string>, userSession: Option<string>, d: Display,
                               ratings: Fetched, user: Fetched): (r: ClientStep)
    ensures !HasSong(currentSongId) ==> r == ClientStep([], d)
    ensures HasSong(currentSongId) ==> r.requests == RefreshRequests(currentSongId, userSession)
    ensures HasSong(currentSongId) ==> r.display == ApplyRefresh(d, ratings, user)
  {
    if !HasSong(currentSongId) then ClientStep([], d)
    else ClientStep(RefreshRequests(currentSongId, userSession), ApplyRefresh(d, ratings, user))
  }

  /**
   `rateSong(rating)`: post the vote for the song current at the click, then,
   when the post is ok, run `updateRatingDisplay`, which reads
   `currentSongId` again: `songAfterPost` is its value once the post has
   settled, which a metadata poll may have changed in the meantime.
   */
  function RateSong(currentSongId: Option<string>, songAfterPost: Option<string>, userSession: Option<string>,
                    rating: int, d: Display, post: Fetched, ratings: Fetched, user: Fetched): (r: ClientStep)
    ensures !HasSong(currentSongId) ==> r == ClientStep([], d)
    ensures HasSong(currentSongId) ==>
              && |r.requests| >= 1
              && r.requests[0] == PostRate(RateBody(JStr(currentSongId.value), JInt(rating), SessionJson(userSession)))
    ensures HasSong(currentSongId) && IsOk(post) ==>
              && r.requests == r.requests[..1] + RefreshRequests(songAfterPost, userSession)
              && (HasSong(songAfterPost) ==> r.display == ApplyRefresh(d, ratings, user))
              && (!HasSong(songAfterPost) ==> r.display == d)
    ensures HasSong(currentSongId) && !IsOk(post) ==> r.requests == r.requests[..1] && r.display == d
  {
    if !HasSong(currentSongId) then ClientStep([], d)
    else
      var request := PostRate(RateBody(JStr(currentSongId.value), JInt(rating), SessionJson(userSession)));
      if IsOk(post) then
        var refresh := UpdateRatingDisplay(songAfterPost, userSession, d, ratings, user);
        ClientStep([request] + refresh.requests, refresh.display)
      else ClientStep([request], d)
  }

  /**
   A poll that changes the track while a vote is in flight: the vote goes to
   the old song, and the refresh that follows reads the new one.
   */
  lemma VoteDuringTrackChange(st: SyncState, data: Snapshot, userSession: Option<string>, rating: int,
                              d: Display, post: Fetched, ratings: Fetched, user: Fetched)
    requires HasSong(st.currentSongId) && IsOk(post)
    ensures var after := FetchMetadata(st, Received(data)).state.currentSongId;
            var r := RateSong(st.currentSongId, after, userSession, rating, d, post, ratings, user);
            && r.requests[0] == PostRate(RateBody(JStr(st.currentSongId.value), JInt(rating), SessionJson(userSession)))
            && r.requests[1..] == RefreshRequests(Some(PollKey(data)), userSession)
            && r.requests[1] == GetRatingsRequest(PollKey(data))
  {
    var after := FetchMetadata(st, Received(data)).state.currentSongId;
    assert after == Some(PollKey(data)) && HasSong(after);
  }

  // ----- client against the store -----

  lemma CountTextOfRendered(d: Dialect, n: nat)
    ensures CountText(RenderCount(d, n)) == NatToDecimal(n)
  {
  }

  lemma CountVotesAtMostCount(rows: Rows, s: string, w: Vote)
    ensures CountVotes(rows, s, w) <= CountSong(rows, s)
  {
    UpPlusDownIsTotal(rows, s);
  }

  /**
   A refresh served by the store shows the song's up and down counts in
   decimal and activates the button of the listener's own vote; the
   Postgres and SQLite servers produce the same panel.
   */
  lemma RefreshShowsStore(d: Dialect, rows: Rows, songId: string, userSession: string, before: Display)
    ensures ApplyRefresh(before, Responded(GetRatings(d, rows, songId, None)),
                         Responded(GetUserRating(rows, songId, userSession, None)))
         == Display(NatToDecimal(CountVotes(rows, songId, Up)), NatToDecimal(CountVotes(rows, songId, Down)),
                    Lookup(rows, Key(songId, userSession)) == Some(Up),
                    Lookup(rows, Key(songId, userSession)) == Some(Down))
  {
    CountVotesAtMostCount(rows, songId, Up);
    CountVotesAtMostCount(rows, songId, Down);
    CountTextOfRendered(d, CountVotes(rows, songId, Up));
    CountTextOfRendered(d, CountVotes(rows, songId, Down));
  }

  /** The body the client posts passes validation exactly when it holds a listener token. */
  lemma ClientBodyValidates(songId: string, userSession: Option<string>, rating: int)
    requires songId != "" && (rating == 1 || rating == -1)
    ensures var b := RateBody(JStr(songId), JInt(rating), SessionJson(userSession));
            Validate(b).Valid? <==> userSession.Some? && userSession.value != ""
    ensures var b := RateBody(JStr(songId), JInt(rating), SessionJson(userSession));
            Validate(b).Valid? ==> Validate(b).key == Key(songId, userSession.value)
  {
  }

  /** Voting and then refreshing shows the vote just cast as the active button. */
  lemma VoteThenRefreshShowsVote(d: Dialect, rows: Rows, songId: string, userSession: string, rating: int,
                                 now: nat, before: Display)
    requires songId != "" && userSession != "" && (rating == 1 || rating == -1)
    ensures var b := RateBody(JStr(songId), JInt(rating), JStr(userSession));
            var after := SubmitRating(d, rows, b, now, None).rows;
            var shown := ApplyRefresh(before, Responded(GetRatings(d, after, songId, None)),
                                      Responded(GetUserRating(after, songId, userSession, None)));
            shown.upActive == (rating == 1) && shown.downActive == (rating == -1)
  {
    var b := RateBody(JStr(songId), JInt(rating), JStr(userSession));
    assert Validate(b).Valid? && Validate(b).key == Key(songId, userSession);
    RefreshShowsStore(d, SubmitRating(d, rows, b, now, None).rows, songId, userSession, before);
  }

  // ----- the test scenarios -----

  /** Without a current song neither `rateSong` nor `updateRatingDisplay` fetches anything. */
  lemma NoSongNoFetch(songAfterPost: Option<string>, userSession: Option<string>, rating: int, d: Display, post: Fetched, ratings: Fetched, user: Fetched)
    ensures RateSong(None, songAfterPost, userSession, rating, d, post, ratings, user).requests == []
    ensures UpdateRatingDisplay(None, userSession, d, ratings, user).requests == []
  {
  }

  function OkResponse(b: Body): Fetched {
    Responded(Response(200, b))
  }

  /** Counts 10 and 3 are shown as "10" and "3"; a rating of 1 activates only the up button. */
  lemma DisplayScenarios(before: Display)
    ensures ApplyRefresh(before, OkResponse(Ratings("test_song_id", JInt(10), JInt(3), JInt(13))),
                         OkResponse(UserRating("test_song_id", "test_user_session", JInt(1))))
         == Display("10", "3", true, false)
    ensures ApplyRefresh(before, OkResponse(Ratings("test_song_id", JInt(0), JInt(0), JNull)),
                         OkResponse(UserRating("test_song_id", "test_user_session", JNull)))
         == Display("0", "0", false, false)
  {
    assert NatToDecimal(10) == "10";
    assert NatToDecimal(3) == "3";
  }

  /** A rejected or non-ok fetch leaves the panel as it was. */
  lemma PartialFailureKeepsDisplay(before: Display, ratings: Fetched)
    ensures ApplyRefresh(before, ratings, Rejected) == before
    ensures ApplyRefresh(before, Rejected, ratings) == before
    ensures ApplyRefresh(before, ratings, Responded(Response(500, ErrorBody("boom")))) == before
  {
  }

  /** From the panel as served, no sequence of refreshes ever activates both buttons. */
  lemma RefreshesKeepOneActive(refreshes: seq<(Fetched, Fetched)>)
    ensures AtMostOneActive(ApplyAll(INITIAL_DISPLAY, refreshes))
  {
    ApplyAllKeepsOneActive(INITIAL_DISPLAY, refreshes);
  }

  /** The panel after the given refreshes settle, in order. */
  function ApplyAll(d: Display, refreshes: seq<(Fetched, Fetched)>): Display
    decreases |refreshes|
  {
    if |refreshes| == 0 then d
    else
      var last := refreshes[|refreshes| - 1];
      ApplyRefresh(ApplyAll(d, refreshes[..|refreshes| - 1]), last.0, last.1)
  }

  lemma {:induction false} ApplyAllKeepsOneActive(d: Display, refreshes: seq<(Fetched, Fetched)>)
    requires AtMostOneActive(d)
    ensures AtMostOneActive(ApplyAll(d, refreshes))
    decreases |refreshes|
  {
    if |refreshes| > 0 {
      ApplyAllKeepsOneActive(d, refreshes[..|refreshes| - 1]);
    }
  }
}
