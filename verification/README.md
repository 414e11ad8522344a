# Radio Calico rating core, in Dafny

Radio Calico is a web radio player. This project models its core: how the page
names a track, how it follows the station's now-playing document, how it
plays the stream, and how listeners rate tracks.

- **Track identity** (`TrackIdentity`, with `Base64`). `createSongId` joins
  artist and title with `_`, lower-cases the result and turns every UTF-16
  code unit outside `[a-z0-9]` into `_`, one for one. A character above
  U+FFFF is one `char` in Dafny and two code units in JavaScript, so it
  becomes `__`. It then base64-encodes that string
  with `btoa`. The base64 encoder is written out with the RFC 4648 alphabet
  and proved invertible.
- **Metadata sync** (`MetadataSync`). One poll of the now-playing document
  derives the key, with `Unknown Artist` / `Unknown Title` as defaults. A
  rating refresh starts only when the key changes. The poll also lists up to
  five previous tracks.
- **Listener session** (`Session`). The token is cached, stored and reused.
- **Player** (`Player`). HLS error recovery and the play/pause toggle are
  modelled as a state machine over abstract events. It includes the metadata
  polling timer that the toggle starts and stops.
- **Rating store and endpoints** (`RatingStore`, `RatingApi`). There are three
  endpoints: submit, aggregate and per-listener lookup. Each exists in two
  dialects:
  - production Postgres, with `ON CONFLICT ... DO UPDATE`;
  - the SQLite test server, with `INSERT OR REPLACE`.

  The table is a sequence of rows. `UNIQUE(song_id, user_session)` is kept as
  an invariant.
- **Rating panel** (`RatingClient`). `rateSong` and `updateRatingDisplay` are
  modelled as the requests they issue and the panel they leave.

Request and response values are a small JSON datatype (`Json`). This keeps
JavaScript truthiness (`!rating`, `x || 0`) and strict equality
(`rating !== 1`) exact. The two database drivers return `SUM`/`COUNT` in
different types:
- node-postgres returns a bigint as a decimal string (`Decimal`);
- sqlite3 returns a number.

`Common` holds `Option`.

## Model

| member | source | states |
|---|---|---|
| TrackIdentity.CanonString | public/scripts/site.js:125 | the replacement's output is as long as its input in UTF-16 code units and holds only `[a-z0-9_]` |
| TrackIdentity.Canonical | public/scripts/site.js:125 | the string before encoding is the artist's replacement, `_`, then the title's; its length is the pair's JavaScript length plus one; it holds only `[a-z0-9_]` |
| TrackIdentity.CanonStringBmp | public/scripts/site.js:125 | on text without characters above U+FFFF, position i of the output is input character i lower-cased, or `_` |
| TrackIdentity.AstralCharacterTakesTwoUnderscores | public/scripts/site.js:125 | (😀, `x`) canonicalises to `___x` and gets the key `X19feA==`, because the emoji is two code units |
| TrackIdentity.CreateSongId | public/scripts/site.js:124-126 | the key is `btoa` of the canonical string, which never throws here; it is a non-empty base64 text without `+` or `/` |
| TrackIdentity.SongIdEqualIff | public/scripts/site.js:124-126 | two pairs share a key if and only if their canonical strings are equal |
| TrackIdentity.SongIdIgnoresCaseAndPunctuation | public/scripts/site.js:125 | pairs that differ only in letter case, or in which non-`[a-z0-9]` character of the same code-unit width sits at a position, share a key |
| TrackIdentity.SongIdCollisionShape | public/scripts/site.js:124-126 | pairs sharing a key have equal total length in code units and equal canonical strings |
| TrackIdentity.UpperAndLowerCaseShareKey | tests/frontend/rating-system.test.js:34-39 | `TEST ARTIST`/`TEST SONG` and `test artist`/`test song` get the same key |
| TrackIdentity.SeparatorCollision | public/scripts/site.js:125 | (`a b`, `c`) and (`a`, `b c`) get the same key, because the separator is itself a replacement character |
| Base64.Encode | public/scripts/site.js:125 | the output has 4·⌈n/3⌉ characters, all from the base64 alphabet, as `btoa` produces |
| Base64.DecodeEncode | tests/setup/frontend-setup.js:19-20 | decoding the encoding of any byte string gives the bytes back |
| Base64.EncodeInjective | public/scripts/site.js:125 | distinct byte strings have distinct encodings |
| Base64.EncodeAvoidsPlusSlash | tests/frontend/rating-system.test.js:27-32 | bytes of ASCII letters, digits and `_` encode without `+` or `/` |
| Base64.Btoa | public/scripts/site.js:125 | `btoa` fails exactly when a character is above U+00FF; otherwise it encodes the Latin-1 bytes |
| Base64.BtoaInjective | public/scripts/site.js:125 | two strings that both encode have equal encodings only if they are equal |
| MetadataSync.PollKey | public/scripts/site.js:224 | the key is `btoa` of the canonical defaulted pair, a non-empty base64 text without `/` (so it fits in a URL path), and the `Unknown Artist`/`Unknown Title` key when both fields are falsy |
| MetadataSync.EmptyMetadataSharesKey | public/scripts/site.js:224 | every document without a usable artist and title maps to the key of `Unknown Artist`/`Unknown Title` |
| MetadataSync.FetchMetadata | public/scripts/site.js:178-192 | a received document sets `currentSongId` to its key and lists its recent tracks; it starts one refresh, for the new key, exactly when the key differs; no refresh leaves the state unchanged; a failed fetch shows the error panels and starts nothing |
| MetadataSync.ApplyDocument | public/scripts/site.js:224-229 | the key becomes current; a refresh for it starts exactly when it differs from the current one, and the panel is shown then; otherwise the state is unchanged |
| MetadataSync.FirstPollRefreshes | public/scripts/site.js:8 | the first successful poll after loading, with no current song, always shows the panel and starts one refresh |
| MetadataSync.RepeatedPollNoRefresh | public/scripts/site.js:224-229 | a second poll of a pair equal up to case and punctuation starts no refresh and keeps the state |
| MetadataSync.ChangedTrackRefreshesOnce | public/scripts/site.js:224-229 | a second poll starts a refresh if and only if its canonical pair differs from the first poll's, and then exactly one, for the new key |
| MetadataSync.FailedPollIsTransparent | public/scripts/site.js:186-191 | a failed poll between two polls changes nothing about the following one |
| MetadataSync.CollectRecentTracks | public/scripts/site.js:232-241 | the loop over slots 1..5 pushes exactly the present slots, in slot order |
| MetadataSync.RecentLength | public/scripts/site.js:234-240 | the list holds one entry per present slot and at most as many as slots scanned, hence at most 5 |
| MetadataSync.RecentMembership | public/scripts/site.js:234-240 | a track is listed if and only if some slot 1..n holds both its artist and title |
| MetadataSync.RecentPosition | public/scripts/site.js:234-240 | slot i's track sits after exactly the present slots before i |
| MetadataSync.FullRecentTracks | public/scripts/site.js:232-241 | with all five slots present, the list is slots 1 to 5 in order |
| Session.GenerateUserSession | public/scripts/site.js:109-115 | a cached token is returned unchanged; otherwise `user_<random>_<now>` is minted, cached and stored under `radiocalico_user_session` |
| Session.LoadUserSession | public/scripts/site.js:117-122 | afterwards the token is non-empty and equals the stored value; a stored token is adopted verbatim; other storage keys are kept |
| Session.GenerateIsCached | tests/frontend/rating-system.test.js:79-84 | A second `generateUserSession` call returns the same token and leaves the state unchanged, whatever random value and time it is given. |
| Session.LoadIsStable | public/scripts/site.js:117-122 | loading twice gives the same state as loading once |
| Session.MintedTokenMatchesPattern | tests/frontend/rating-system.test.js:72-77 | a minted token with a non-empty `[a-z0-9]` random part matches `^user_[a-z0-9]+_\d+$` |
| Session.ParseMintedToken | public/scripts/site.js:111 | the random part and time are recovered from a minted token |
| Session.StoredTokenIsLoaded | tests/frontend/rating-system.test.js:86-93 | `user_existing_123456789` in storage is loaded verbatim |
| Player.ShownStatus | public/scripts/site.js:23-29 | the status line shows `0:35 / Live` for the playing type and the given message for every other type |
| Player.Initialize | public/scripts/site.js:31-72 | hls.js is attached exactly when supported, native HLS is used exactly when only it is available, and there is no transport when neither is; the fallbacks show "Using native HLS support" or "HLS is not supported in this browser"; nothing is playing or scheduled |
| Player.OnHlsError | public/scripts/site.js:46-63 | a non-fatal error does nothing; a fatal one causes exactly one recovery: network → `startLoad`, media → `recoverMediaError`, other → `destroy`, with the matching status text |
| Player.RecoverableErrorKeepsPlayback | public/scripts/site.js:50-57 | a fatal network or media error leaves playback, polling and the attached transport as they were |
| Player.Step | public/scripts/site.js:42-64 | HLS events never touch playback or polling and do nothing once hls.js is gone; MANIFEST_PARSED shows "Stream loaded and ready"; only HLS errors change the transport; `play()` is requested exactly on a click while not playing |
| Player.TransportChangesOnlyByDestroy | public/scripts/site.js:58-61 | the only transport change an event causes is hls.js being destroyed by a fatal error of another class |
| Player.DestroyedIsFinal | public/scripts/site.js:58-61 | once destroyed, the transport stays destroyed for any later events |
| Player.StartMetadataUpdates | public/scripts/site.js:254-257 | one immediate poll and a new timer, whose fresh handle replaces the held one, with no guard; nothing else in the player changes |
| Player.StartMetadataUpdatesGuarded | public/scripts/site.js:254-257 | the corrected start: it does nothing while a timer is held |
| Player.StopMetadataUpdates | public/scripts/site.js:259-264 | the held timer, if any, is cleared and the handle becomes null; nothing else changes |
| Player.StopIsIdempotent | public/scripts/site.js:259-264 | stopping twice is the same as stopping once |
| Player.OnClick | public/scripts/site.js:266-284 | when not playing, a click asks for `play()` and changes nothing else; when playing, it pauses, shows "Stream paused", clears the held timer and changes nothing else |
| Player.OnPlayResolved | public/scripts/site.js:268-272 | a resolved `play()` means playing, the live status text and one fewer pending play; it polls and schedules a timer with a fresh handle, except that the guarded start does nothing while a timer is held; nothing else changes |
| Player.OnPlayRejected | public/scripts/site.js:273-276 | a rejected `play()` shows "Error playing stream" and leaves `isPlaying` and the timers untouched |
| Player.GuardedRunKeepsTimersTracked | public/scripts/site.js:254-264 | with the guarded start, after any events the only scheduled timer is the held one |
| Player.GuardedPauseStopsPolling | public/scripts/site.js:277-283 | with the guarded start, pausing after any events leaves no timer scheduled |
| Player.AsWrittenDoubleStartLeaksTimer | public/scripts/site.js:254-257 | as written, two clicks before `play()` settles, then a pause, leave a timer still polling |
| Player.GuardedDoubleStartStopsPolling | public/scripts/site.js:254-257 | with the guarded start the same clicks leave nothing scheduled |
| RatingStore.UniqueIffAtMostOneRow | src/db/postgres.js:46-53 | the UNIQUE constraint holds exactly when every (song, session) pair has at most one row |
| RatingStore.Lookup | server.js:108-113 | the lookup is empty exactly when no row has the pair, and otherwise gives the vote of the pair's first row |
| RatingStore.Upsert | server.js:75-78 | in both dialects, afterwards the pair's vote is the one given and it has exactly one row; other pairs' rows are unchanged |
| RatingStore.UpsertTimestamps | tests/api/ratings.test.js:22 | Postgres keeps an existing row's `created_at`; SQLite `INSERT OR REPLACE` stamps the row anew |
| RatingStore.Aggregate | server.js:89-98 | total counts the song's rows; the sums are NULL exactly when there are none; otherwise up counts +1 votes, down counts −1 votes, and up + down = total |
| RatingStore.UpPlusDownIsTotal | src/db/postgres.js:50 | with votes in {1, −1}, the up and down counts add up to the song's row count |
| RatingStore.UpsertMovesCounts | server.js:75-78 | an upsert moves a song's vote counts by the vote it adds and the vote it replaces, and nothing else |
| RatingStore.DialectsAgree | tests/api/ratings.test.js:22 | after an upsert the Postgres and SQLite tables give the same lookups and aggregates |
| RatingApi.Validate | server.js:66-72 | "required" exactly when a field is falsy (rating 0 included); the ±1 message exactly when present but not strictly 1 or −1; accepted exactly otherwise |
| RatingApi.SubmitRating | server.js:63-83 | a failed validation gives 400 with its message and leaves the store alone; a storage fault gives 500; otherwise 200 echoing `songId` and `rating`, with the upsert applied; uniqueness is kept |
| RatingApi.DialectsShareValidation | tests/api/ratings.test.js:14-20 | a rejected body gets the same answer from both servers, and the store is unchanged |
| RatingApi.RenderCount | server.js:89-98 | node-postgres hands a count back as a digit string denoting it, which is always truthy; sqlite3 hands back the number, truthy unless 0 |
| RatingApi.GetRatings | server.js:85-102 | a fault gives 500; otherwise 200 with the song id, the count, NULL for both sums exactly when the song is unrated, and the up/down counts otherwise |
| RatingApi.GetUserRating | server.js:104-118 | a fault gives 500; otherwise 200 with the pair's stored vote as 1 or −1, or `null` when it has none |
| RatingApi.ReplayLastWriteWins | server.js:75-78 | after any submissions, each pair has at most one row; a pair holds its last stored vote; pairs never stored keep their first row and their row count |
| RatingApi.OthersKeepsCount | server.js:75-78 | removing one pair's rows does not change another pair's row count |
| RatingApi.UnknownSongAggregate | tests/api/ratings.test.js:206-217 | a song with no rows gives 200, `null` sums and total 0 |
| RatingApi.AggregationScenario | tests/api/ratings.test.js:179-204 | +1, +1 and −1 from three listeners aggregate to 2 up, 1 down, 3 in all |
| RatingApi.UpdateScenario | tests/api/ratings.test.js:251-265 | +1 then −1 by one listener makes the lookup return −1 |
| RatingApi.OtherListenerScenario | tests/api/ratings.test.js:239-249 | a listener who has not voted gets `null`, even when another listener voted on the song |
| RatingApi.BadRatingScenarios | tests/api/ratings.test.js:128-175 | `rating: 5` gets the ±1 message; `rating: 0` and a missing song id get "required"; the store is unchanged |
| RatingApi.EchoScenario | tests/api/ratings.test.js:73-89 | an accepted submission echoes `success: true`, the song id and the rating |
| RatingClient.RefreshRequests | public/scripts/site.js:158-161 | without a song, nothing; otherwise the aggregate and per-listener GETs for the current song |
| RatingClient.ApplyRefresh | public/scripts/site.js:163-172 | the panel changes only when both responses are ok; then it shows the counts (or "0") and activates each button exactly when the rating is strictly 1 or −1; at most one button is ever active |
| RatingClient.UpdateRatingDisplay | public/scripts/site.js:154-176 | without a current song no request is made; otherwise both GETs are made and the both-ok rule applies |
| RatingClient.RateSong | public/scripts/site.js:128-152 | without a current song nothing is fetched; otherwise the vote is posted for that song, and only an ok post is followed by a refresh for the song current once the post settles |
| RatingClient.VoteDuringTrackChange | public/scripts/site.js:144-160 | when a poll changes the track while a vote is in flight, the vote goes to the old song and the refresh after it to the new one |
| RatingClient.CountTextOfRendered | public/scripts/site.js:167-168 | a count from either driver is shown as its decimal digits |
| RatingClient.RefreshShowsStore | public/scripts/site.js:163-172 | a refresh served by either server shows the song's up and down counts and activates the listener's own vote |
| RatingClient.ClientBodyValidates | public/scripts/site.js:137-141 | the body the client posts passes server validation exactly when it carries a token |
| RatingClient.VoteThenRefreshShowsVote | public/scripts/site.js:144-145 | after an accepted vote, the refresh activates the button of that vote |
| RatingClient.NoSongNoFetch | tests/frontend/rating-system.test.js:214-221 | with `currentSongId` null, neither `rateSong` nor `updateRatingDisplay` issues a request |
| RatingClient.DisplayScenarios | tests/frontend/rating-system.test.js:263-323 | counts 10 and 3 show as "10" and "3"; a 1 activates only the up button; zero counts and `null` show "0", "0" and no active button |
| RatingClient.RefreshesKeepOneActive | public/scripts/site.js:170-171 | from the panel as served, no sequence of refreshes leaves both buttons active |
| RatingClient.PartialFailureKeepsDisplay | tests/frontend/rating-system.test.js:325-334 | a rejected or non-ok response leaves the panel as it was |

## Left out

- Audio element and hls.js internals (`play()`, `canplay`, `playing`, `pause`, `error`, `canPlayType`, volume) are foreign browser and library code. They appear only as abstract events and effects. The audio element's own `playing`/`pause`/`error` listeners, which also set `isPlaying`, are not part of this model.
- Timer cadence (`setInterval` every 30 s) is not modelled. A timer is a handle in a set of scheduled timers.
- DOM, HTML templating, album-art loading and status-text rendering are left out beyond the status string.
- `fetch`, JSON parsing, Express routing and the test mocks are left out. A response is a status and a body, and a network failure is `Rejected`.
- `Math.random` and `Date.now` are parameters of token minting.
- Simultaneous upserts are left out. Each statement is atomic and applied in order.
- Connection pooling and the other endpoints (`/api/users`, `/health`, shutdown) are left out.
- TrackIdentity.Lower: lower-cases ASCII letters only. JavaScript's `toLowerCase` also maps non-ASCII letters. A non-ASCII character therefore becomes one `_` per code unit here. The source differs only for the characters whose lower-case form contains an ASCII letter or digit: the Kelvin sign U+212A becomes `k` there. `İ` (U+0130) becomes `i` plus a combining dot, so there it yields `i_`, two units where the model has one. Characters above U+FFFF are handled code unit by code unit, as in the source.
- Json values: fractional numbers and numbers of 10²¹ or more are not modelled. Arrays and objects are opaque `JComposite` values with a given string form.
- RatingApi.Validate: a non-string `songId` or `userSession` is stored as its JavaScript string form (`ToJsString`). Driver-specific coercion of other values is not modelled.
- The `rows[0] || {0, 0, 0}` fallback of the aggregate handlers is not modelled. An aggregate query always returns one row, so the fallback never applies. An unrated song gets `null` sums, as the SQLite test pins.
- A refresh is not tagged with the song it was started for. The code has no such tag. A late response for an old song is applied like any other.

## Findings

| source | as written | input that shows it | evidently intended | confidence | as-written member | corrected member |
|---|---|---|---|---|---|---|
| public/scripts/site.js:254-257 | `startMetadataUpdates` always schedules a new interval and overwrites `metadataInterval`, so a second resolved `play()` leaks the first timer | click play twice before the first `play()` settles, let both resolve, then click pause: one interval is still polling | starting polling while a timer is held does nothing, so pause stops all polling | not executed | Player.AsWrittenDoubleStartLeaksTimer | Player.GuardedRunKeepsTimersTracked |

Notes on the source:

- Keys can collide across the artist/title boundary. The separator `_` is also the replacement character, so (`a b`, `c`) and (`a`, `b c`) share a key (`TrackIdentity.SeparatorCollision`).
- For a song with no ratings, the aggregate endpoint answers `null` for both sums, not 0. The client shows "0" either way.
