/**
 The three rating endpoints, shared by the production server (Postgres) and
 the SQLite server of the API tests: validation, then one statement against the
 store, then a JSON response. A storage failure is an input (`Fault`) and
 becomes a 500 carrying the driver's message.
 */
module RatingApi {
  import opened Common
  import opened Decimal
  import opened Json
  import opened RatingStore

  const REQUIRED_MESSAGE := "songId, rating, and userSession are required"
  const RATING_MESSAGE := "Rating must be 1 (thumbs up) or -1 (thumbs down)"

  /** The fields of a `POST /api/songs/rate` body; an absent field is `JNull`. */
  datatype RateBody = RateBody(songId: Json, rating: Json, userSession: Json)

  datatype Body =
    | ErrorBody(error: string)
    | Accepted(success: bool, echoedSongId: Json, echoedRating: Json)
    | Ratings(songId: string, thumbsUp: Json, thumbsDown: Json, totalRatings: Json)
    | UserRating(songId: string, userSession: string, rating: Json)

  datatype Response = Response(status: int, body: Body)

  /** The outcome of one storage call: `Some(message)` when the driver reports an error. */
  type Fault = Option<string>

  datatype Validation = Invalid(message: string) | Valid(key: Key, vote: Vote)

  /** The two checks of the rate handler, in order: presence (truthiness), then strict ±1. */
  function Validate(b: RateBody): (r: Validation)
    ensures r == Invalid(REQUIRED_MESSAGE) <==>
              !Truthy(b.songId) || !Truthy(b.rating) || !Truthy(b.userSession)
    ensures r == Invalid(RATING_MESSAGE) <==>
              Truthy(b.songId) && Truthy(b.rating) && Truthy(b.userSession)
              && b.rating != JInt(1) && b.rating != JInt(-1)
    ensures r.Valid? <==>
              Truthy(b.songId) && Truthy(b.userSession) && (b.rating == JInt(1) || b.rating == JInt(-1))
    ensures r.Valid? ==>
              && b.rating == JInt(VoteValue(r.vote))
              && r.key == Key(ToJsString(b.songId), ToJsString(b.userSession))
  {
    if !Truthy(b.songId) || !Truthy(b.rating) || !Truthy(b.userSession) then Invalid(REQUIRED_MESSAGE)
    else if b.rating != JInt(1) && b.rating != JInt(-1) then Invalid(RATING_MESSAGE)
    else Valid(Key(ToJsString(b.songId), ToJsString(b.userSession)), if b.rating == JInt(1) then Up else Down)
  }

  datatype Handled = Handled(response: Response, rows: Rows)

  /** `POST /api/songs/rate`. */
  function SubmitRating(d: Dialect, rows: Rows, b: RateBody, now: nat, fault: Fault): (r: Handled)
    ensures Validate(b).Invalid? ==> r == Handled(Response(400, ErrorBody(Validate(b).message)), rows)
    ensures Validate(b).Valid? && fault.Some? ==> r == Handled(Response(500, ErrorBody(fault.value)), rows)
    ensures Validate(b).Valid? && fault.None? ==>
              && r.response == Response(200, Accepted(true, b.songId, b.rating))
              && Lookup(r.rows, Validate(b).key) == Some(Validate(b).vote)
              && Others(r.rows, Validate(b).key) == Others(rows, Validate(b).key)
    ensures r.response.status == 200 <==> Validate(b).Valid? && fault.None?
    ensures Unique(rows) ==> Unique(r.rows)
  {
    match Validate(b)
    case Invalid(message) => Handled(Response(400, ErrorBody(message)), rows)
    case Valid(key, vote) =>
      if fault.Some? then Handled(Response(500, ErrorBody(fault.value)), rows)
      else Handled(Response(200, Accepted(true, b.songId, b.rating)), Upsert(d, rows, key, vote, now))
  }

  /** A rejected body gets the same answer from both servers, and neither touches the store. */
  lemma DialectsShareValidation(rows: Rows, b: RateBody, now: nat, fault: Fault)
    requires Validate(b).Invalid?
    ensures SubmitRating(Postgres, rows, b, now, fault) == SubmitRating(Sqlite, rows, b, now, fault)
    ensures SubmitRating(Postgres, rows, b, now, fault).rows == rows
  {
  }

  /** How each driver hands back a `SUM`/`COUNT` (a bigint): node-postgres as a string, sqlite3 as a number. */
  function RenderCount(d: Dialect, n: nat): (j: Json)
    ensures d == Sqlite ==> j == JInt(n)
    ensures d == Postgres ==> j.JStr? && AllDigits(j.s) && DecimalValue(j.s) == n
    ensures Truthy(j) <==> d == Postgres || n > 0
  {
    DecimalRoundTrip(n);
    match d
    case Postgres => JStr(NatToDecimal(n))
    case Sqlite => JInt(n)
  }

  function RenderSum(d: Dialect, n: Option<nat>): Json {
    if n.None? then JNull else RenderCount(d, n.value)
  }

  /** `GET /api/songs/:songId/ratings`. */
  function GetRatings(d: Dialect, rows: Rows, songId: string, fault: Fault): (r: Response)
    ensures fault.Some? ==> r == Response(500, ErrorBody(fault.value))
    ensures fault.None? ==> r.status == 200 && r.body.Ratings? && r.body.songId == songId
    ensures fault.None? ==> r.body.totalRatings == RenderCount(d, CountSong(rows, songId))
    ensures fault.None? ==> (r.body.thumbsUp == JNull <==> CountSong(rows, songId) == 0)
    ensures fault.None? ==> (r.body.thumbsDown == JNull <==> CountSong(rows, songId) == 0)
    ensures fault.None? && CountSong(rows, songId) > 0 ==>
              && r.body.thumbsUp == RenderCount(d, CountVotes(rows, songId, Up))
              && r.body.thumbsDown == RenderCount(d, CountVotes(rows, songId, Down))
  {
    if fault.Some? then Response(500, ErrorBody(fault.value))
    else
      var t := Aggregate(rows, songId);
      Response(200, Ratings(songId, RenderSum(d, t.thumbsUp), RenderSum(d, t.thumbsDown), RenderCount(d, t.total)))
  }

  /** The stored vote as JSON: the integer, or `null` when the pair has no row. */
  function VoteJson(v: Option<Vote>): Json {
    if v.None? then JNull else JInt(VoteValue(v.value))
  }

  /** `GET /api/songs/:songId/user-rating/:userSession`. The `rating` column is an integer in both dialects. */
  function GetUserRating(rows: Rows, songId: string, userSession: string, fault: Fault): (r: Response)
    ensures fault.Some? ==> r == Response(500, ErrorBody(fault.value))
    ensures fault.None? ==> r.status == 200 && r.body.UserRating?
    ensures fault.None? ==> r.body.songId == songId && r.body.userSession == userSession
    ensures fault.None? ==> (r.body.rating == JNull <==> Lookup(rows, Key(songId, userSession)).None?)
    ensures fault.None? && Lookup(rows, Key(songId, userSession)) == Some(Up) ==> r.body.rating == JInt(1)
    ensures fault.None? && Lookup(rows, Key(songId, userSession)) == Some(Down) ==> r.body.rating == JInt(-1)
  {
    if fault.Some? then Response(500, ErrorBody(fault.value))
    else Response(200, UserRating(songId, userSession, VoteJson(Lookup(rows, Key(songId, userSession)))))
  }

  // ----- sequences of submissions -----

  datatype Submission = Submission(body: RateBody, now: nat, fault: Fault)

  predicate Stored(s: Submission) {
    Validate(s.body).Valid? && s.fault.None?
  }

  /** The store after handling the submissions in order. */
  function Replay(d: Dialect, rows: Rows, subs: seq<Submission>): Rows
    decreases |subs|
  {
    if |subs| == 0 then rows
    else
      var last := subs[|subs| - 1];
      SubmitRating(d, Replay(d, rows, subs[..|subs| - 1]), last.body, last.now, last.fault).rows
  }

  /** The vote of the last submission stored for a pair. */
  function LastVote(subs: seq<Submission>, k: Key): Option<Vote>
    decreases |subs|
  {
    if |subs| == 0 then None
    else
      var last := subs[|subs| - 1];
      if Stored(last) && Validate(last.body).key == k then Some(Validate(last.body).vote)
      else LastVote(subs[..|subs| - 1], k)
  }

  /** After any submissions: one row per pair, holding the last stored vote; other pairs keep their rows. */
  lemma {:induction false} ReplayLastWriteWins(d: Dialect, rows: Rows, subs: seq<Submission>, k: Key)
    requires Unique(rows)
    ensures Unique(Replay(d, rows, subs))
    ensures LastVote(subs, k).Some? ==> Lookup(Replay(d, rows, subs), k) == LastVote(subs, k)
    ensures LastVote(subs, k).Some? ==> CountKey(Replay(d, rows, subs), k) == 1
    ensures LastVote(subs, k).None? ==> Lookup(Replay(d, rows, subs), k) == Lookup(rows, k)
    ensures LastVote(subs, k).None? ==>
              FindRow(Replay(d, rows, subs), k) == FindRow(rows, k) && CountKey(Replay(d, rows, subs), k) == CountKey(rows, k)
    decreases |subs|
  {
    if |subs| > 0 {
      var prefix := subs[..|subs| - 1];
      var last := subs[|subs| - 1];
      var before := Replay(d, rows, prefix);
      ReplayLastWriteWins(d, rows, prefix, k);
      if Stored(last) {
        var key := Validate(last.body).key;
        if key != k {
          assert FindRow(Replay(d, rows, subs), k) == FindRow(before, k);
          assert Lookup(Replay(d, rows, subs), k) == Lookup(before, k);
          OthersCount(before, Replay(d, rows, subs), key, k);
        }
      }
    }
  }

  /** Two tables with the same rows for every pair other than `key` agree on how many rows `k` has. */
  lemma OthersCount(a: Rows, b: Rows, key: Key, k: Key)
    requires Others(a, key) == Others(b, key) && k != key
    ensures CountKey(a, k) == CountKey(b, k)
  {
    OthersKeepsCount(a, key, k);
    OthersKeepsCount(b, key, k);
  }

  lemma {:induction false} OthersKeepsCount(rows: Rows, key: Key, k: Key)
    requires k != key
    ensures CountKey(Others(rows, key), k) == CountKey(rows, k)
    decreases |rows|
  {
    if |rows| > 0 {
      OthersKeepsCount(rows[1..], key, k);
    }
  }

  // ----- the test scenarios -----

  /** A song nobody voted on: 200, `null` sums, a zero count. */
  lemma UnknownSongAggregate(d: Dialect, rows: Rows, songId: string)
    requires CountSong(rows, songId) == 0
    ensures GetRatings(d, rows, songId, None) == Response(200, Ratings(songId, JNull, JNull, RenderCount(d, 0)))
    ensures d == Sqlite ==> GetRatings(d, rows, songId, None).body.totalRatings == JInt(0)
  {
  }

  /** No row for a song means no row for any of its pairs. */
  lemma {:induction false} NoSongNoRow(rows: Rows, k: Key)
    requires CountSong(rows, k.songId) == 0
    ensures FindRow(rows, k) == None
    decreases |rows|
  {
    if |rows| > 0 {
      NoSongNoRow(rows[1..], k);
    }
  }

  function VoteBody(songId: string, rating: int, userSession: string): RateBody {
    RateBody(JStr(songId), JInt(rating), JStr(userSession))
  }

  /** The counts after three upserts by distinct listeners on a song with no rows. */
  lemma ThreeVoteCounts(d: Dialect, rows: Rows, s: string, t1: nat, t2: nat, t3: nat)
    requires Unique(rows) && CountSong(rows, s) == 0
    ensures var r3 := Upsert(d, Upsert(d, Upsert(d, rows, Key(s, "user_1"), Up, t1), Key(s, "user_2"), Up, t2),
                             Key(s, "user_3"), Down, t3);
            CountVotes(r3, s, Up) == 2 && CountVotes(r3, s, Down) == 1 && CountSong(r3, s) == 3
  {
    var k1, k2, k3 := Key(s, "user_1"), Key(s, "user_2"), Key(s, "user_3");
    UpPlusDownIsTotal(rows, s);
    NoSongNoRow(rows, k1);
    var r1 := Upsert(d, rows, k1, Up, t1);
    UpsertMovesCounts(d, rows, k1, Up, t1, s, Up);
    UpsertMovesCounts(d, rows, k1, Up, t1, s, Down);
    assert CountVotes(r1, s, Up) == 1 && CountVotes(r1, s, Down) == 0;
    NoSongNoRow(rows, k2);
    assert Lookup(r1, k2) == None;
    var r2 := Upsert(d, r1, k2, Up, t2);
    UpsertMovesCounts(d, r1, k2, Up, t2, s, Up);
    UpsertMovesCounts(d, r1, k2, Up, t2, s, Down);
    assert CountVotes(r2, s, Up) == 2 && CountVotes(r2, s, Down) == 0;
    NoSongNoRow(rows, k3);
    assert Lookup(r2, k3) == None;
    var r3 := Upsert(d, r2, k3, Down, t3);
    UpsertMovesCounts(d, r2, k3, Down, t3, s, Up);
    UpsertMovesCounts(d, r2, k3, Down, t3, s, Down);
    UpPlusDownIsTotal(r3, s);
  }

  /** +1 by user_1, +1 by user_2, -1 by user_3 on a fresh song: 2 up, 1 down, 3 in all. */
  lemma AggregationScenario(d: Dialect, rows: Rows, t1: nat, t2: nat, t3: nat)
    requires Unique(rows) && CountSong(rows, "aggregation_test") == 0
    ensures var r1 := SubmitRating(d, rows, VoteBody("aggregation_test", 1, "user_1"), t1, None).rows;
            var r2 := SubmitRating(d, r1, VoteBody("aggregation_test", 1, "user_2"), t2, None).rows;
            var r3 := SubmitRating(d, r2, VoteBody("aggregation_test", -1, "user_3"), t3, None).rows;
            GetRatings(d, r3, "aggregation_test", None)
              == Response(200, Ratings("aggregation_test", RenderCount(d, 2), RenderCount(d, 1), RenderCount(d, 3)))
  {
    var s := "aggregation_test";
    assert Validate(VoteBody(s, 1, "user_1")) == Valid(Key(s, "user_1"), Up);
    assert Validate(VoteBody(s, 1, "user_2")) == Valid(Key(s, "user_2"), Up);
    assert Validate(VoteBody(s, -1, "user_3")) == Valid(Key(s, "user_3"), Down);
    ThreeVoteCounts(d, rows, s, t1, t2, t3);
  }

  /** +1 then -1 for the same pair: the lookup reports -1. */
  lemma UpdateScenario(d: Dialect, rows: Rows, t1: nat, t2: nat)
    ensures var r1 := SubmitRating(d, rows, VoteBody("update_test", 1, "update_user"), t1, None).rows;
            var r2 := SubmitRating(d, r1, VoteBody("update_test", -1, "update_user"), t2, None).rows;
            GetUserRating(r2, "update_test", "update_user", None).body.rating == JInt(-1)
  {
    assert Validate(VoteBody("update_test", -1, "update_user")) == Valid(Key("update_test", "update_user"), Down);
  }

  /** A listener who has not voted gets `null`, even when someone else voted on the song. */
  lemma OtherListenerScenario(d: Dialect, rows: Rows, t: nat)
    requires CountSong(rows, "user_rating_test") == 0
    ensures var r1 := SubmitRating(d, rows, VoteBody("user_rating_test", 1, "specific_user"), t, None).rows;
            && GetUserRating(r1, "user_rating_test", "specific_user", None)
                 == Response(200, UserRating("user_rating_test", "specific_user", JInt(1)))
            && GetUserRating(r1, "user_rating_test", "different_user", None)
                 == Response(200, UserRating("user_rating_test", "different_user", JNull))
  {
    var k := Key("user_rating_test", "specific_user");
    var other := Key("user_rating_test", "different_user");
    assert Validate(VoteBody("user_rating_test", 1, "specific_user")) == Valid(k, Up);
    NoSongNoRow(rows, other);
  }

  /** `rating: 5` is rejected with the ±1 message; `rating: 0` counts as missing. */
  lemma BadRatingScenarios(d: Dialect, rows: Rows, now: nat, fault: Fault)
    ensures SubmitRating(d, rows, VoteBody("test_song_1", 5, "user_test_123"), now, fault)
              == Handled(Response(400, ErrorBody(RATING_MESSAGE)), rows)
    ensures SubmitRating(d, rows, VoteBody("test_song_1", 0, "user_test_123"), now, fault)
              == Handled(Response(400, ErrorBody(REQUIRED_MESSAGE)), rows)
    ensures SubmitRating(d, rows, RateBody(JNull, JInt(5), JStr("user_test_123")), now, fault)
              == Handled(Response(400, ErrorBody(REQUIRED_MESSAGE)), rows)
  {
  }

  /** An accepted submission echoes the song id and rating it was given. */
  lemma EchoScenario(d: Dialect, rows: Rows, now: nat)
    ensures SubmitRating(d, rows, VoteBody("test_song_1", 1, "user_test_123"), now, None).response
              == Response(200, Accepted(true, JStr("test_song_1"), JInt(1)))
  {
  }
}
