/**
 The `song_ratings` table: rows in rowid order, at most one per
 (song_id, user_session) pair (the UNIQUE constraint), each holding a vote
 of 1 or -1 (the CHECK constraint). The upsert is written in two dialects:
 Postgres `INSERT ... ON CONFLICT (song_id, user_session) DO UPDATE`, which
 rewrites the existing row in place, and SQLite `INSERT OR REPLACE`, which
 deletes the conflicting row and appends a new one.
 */
module RatingStore {
  import opened Common

  datatype Vote = Up | Down

  /** The integer stored in the `rating` column. */
  function VoteValue(v: Vote): int {
    if v == Up then 1 else -1
  }

  datatype Key = Key(songId: string, userSession: string)

  datatype Row = Row(key: Key, vote: Vote, createdAt: nat)

  /** The rows of the table in rowid order. */
  type Rows = seq<Row>

  /** The UNIQUE(song_id, user_session) constraint. */
  ghost predicate Unique(rows: Rows) {
    forall i, j :: 0 <= i < j < |rows| ==> rows[i].key != rows[j].key
  }

  /** The first row for a pair. */
  function FindRow(rows: Rows, k: Key): Option<Row>
    decreases |rows|
  {
    if |rows| == 0 then None
    else if rows[0].key == k then Some(rows[0])
    else FindRow(rows[1..], k)
  }

  /** FindRow finds the pair's first row, and nothing when the pair has none. */
  lemma {:induction false} FindRowIsFirst(rows: Rows, k: Key)
    ensures FindRow(rows, k).None? <==> forall i :: 0 <= i < |rows| ==> rows[i].key != k
    ensures forall i :: 0 <= i < |rows| && rows[i].key == k && (forall j :: 0 <= j < i ==> rows[j].key != k) ==>
                          FindRow(rows, k) == Some(rows[i])
    decreases |rows|
  {
    if |rows| > 0 {
      FindRowIsFirst(rows[1..], k);
      if rows[0].key != k {
        forall i | 0 <= i < |rows| && rows[i].key == k && (forall j :: 0 <= j < i ==> rows[j].key != k)
          ensures FindRow(rows, k) == Some(rows[i])
        {
          assert rows[1..][i - 1] == rows[i];
          forall j | 0 <= j < i - 1 ensures rows[1..][j].key != k {
            assert rows[1..][j] == rows[j + 1];
          }
        }
        if FindRow(rows, k).Some? {
          var i :| 0 <= i < |rows| - 1 && rows[1..][i].key == k;
          assert rows[i + 1].key == k;
        }
      }
    }
  }

  /** `SELECT rating ... WHERE song_id = $1 AND user_session = $2`, first row. */
  function Lookup(rows: Rows, k: Key): (r: Option<Vote>)
    ensures r.None? <==> forall i :: 0 <= i < |rows| ==> rows[i].key != k
    ensures forall i :: 0 <= i < |rows| && rows[i].key == k && (forall j :: 0 <= j < i ==> rows[j].key != k) ==>
                          r == Some(rows[i].vote)
  {
    FindRowIsFirst(rows, k);
    match FindRow(rows, k)
    case None => None
    case Some(r) => Some(r.vote)
  }

  /** The rows for every other pair, in order. */
  function Others(rows: Rows, k: Key): Rows
    decreases |rows|
  {
    if |rows| == 0 then []
    else if rows[0].key == k then Others(rows[1..], k)
    else [rows[0]] + Others(rows[1..], k)
  }

  /** How many rows a pair has. */
  function CountKey(rows: Rows, k: Key): nat
    decreases |rows|
  {
    if |rows| == 0 then 0 else (if rows[0].key == k then 1 else 0) + CountKey(rows[1..], k)
  }

  /** `UPDATE ... SET rating = v WHERE (song_id, user_session) = k`. */
  function SetVote(rows: Rows, k: Key, v: Vote): Rows
    decreases |rows|
  {
    if |rows| == 0 then []
    else [if rows[0].key == k then rows[0].(vote := v) else rows[0]] + SetVote(rows[1..], k, v)
  }

  // ----- facts about the row functions -----

  lemma {:induction false} FindRowIffCount(rows: Rows, k: Key)
    ensures FindRow(rows, k).Some? <==> CountKey(rows, k) > 0
    ensures FindRow(rows, k).Some? ==> FindRow(rows, k).value.key == k
    decreases |rows|
  {
    if |rows| > 0 {
      FindRowIffCount(rows[1..], k);
    }
  }

  lemma UniqueTail(rows: Rows)
    requires |rows| > 0 && Unique(rows)
    ensures Unique(rows[1..])
    ensures CountKey(rows[1..], rows[0].key) == 0
  {
    NoLaterKey(rows[1..], rows[0].key);
  }

  lemma {:induction false} NoLaterKey(rows: Rows, k: Key)
    requires forall i :: 0 <= i < |rows| ==> rows[i].key != k
    ensures CountKey(rows, k) == 0
    decreases |rows|
  {
    if |rows| > 0 {
      NoLaterKey(rows[1..], k);
    }
  }

  lemma {:induction false} UniqueCountAtMostOne(rows: Rows, k: Key)
    requires Unique(rows)
    ensures CountKey(rows, k) <= 1
    decreases |rows|
  {
    if |rows| > 0 {
      UniqueTail(rows);
      UniqueCountAtMostOne(rows[1..], k);
    }
  }

  lemma {:induction false} OthersOfAbsent(rows: Rows, k: Key)
    requires CountKey(rows, k) == 0
    ensures Others(rows, k) == rows
    decreases |rows|
  {
    if |rows| > 0 {
      OthersOfAbsent(rows[1..], k);
    }
  }

  lemma {:induction false} OthersHasNoKey(rows: Rows, k: Key)
    ensures CountKey(Others(rows, k), k) == 0
    ensures FindRow(Others(rows, k), k) == None
    decreases |rows|
  {
    if |rows| > 0 {
      OthersHasNoKey(rows[1..], k);
      FindRowIffCount(Others(rows, k), k);
    }
  }

  lemma {:induction false} OthersAppend(a: Rows, b: Rows, k: Key)
    ensures Others(a + b, k) == Others(a, k) + Others(b, k)
    decreases |a|
  {
    if |a| > 0 {
      assert (a + b)[1..] == a[1..] + b;
      OthersAppend(a[1..], b, k);
    } else {
      assert a + b == b;
    }
  }

  lemma {:induction false} FindRowAppend(a: Rows, b: Rows, k: Key)
    ensures FindRow(a + b, k) == if FindRow(a, k).Some? then FindRow(a, k) else FindRow(b, k)
    decreases |a|
  {
    if |a| > 0 {
      assert (a + b)[1..] == a[1..] + b;
      FindRowAppend(a[1..], b, k);
    } else {
      assert a + b == b;
    }
  }

  lemma {:induction false} CountKeyAppend(a: Rows, b: Rows, k: Key)
    ensures CountKey(a + b, k) == CountKey(a, k) + CountKey(b, k)
    decreases |a|
  {
    if |a| > 0 {
      assert (a + b)[1..] == a[1..] + b;
      CountKeyAppend(a[1..], b, k);
    } else {
      assert a + b == b;
    }
  }

  /** Other pairs' rows are looked up as before once a pair's rows are dropped. */
  lemma {:induction false} FindRowInOthers(rows: Rows, k: Key, k': Key)
    requires k' != k
    ensures FindRow(Others(rows, k), k') == FindRow(rows, k')
    decreases |rows|
  {
    if |rows| > 0 {
      FindRowInOthers(rows[1..], k, k');
    }
  }

  /** Dropping a pair's rows keeps the constraint. */
  lemma {:induction false} OthersUnique(rows: Rows, k: Key)
    requires Unique(rows)
    ensures Unique(Others(rows, k))
    ensures forall k' :: CountKey(Others(rows, k), k') <= CountKey(rows, k')
    decreases |rows|
  {
    if |rows| > 0 {
      UniqueTail(rows);
      OthersUnique(rows[1..], k);
      if rows[0].key != k {
        var o := Others(rows[1..], k);
        assert CountKey(o, rows[0].key) == 0;
        forall i, j | 0 <= i < j < |[rows[0]] + o| ensures ([rows[0]] + o)[i].key != ([rows[0]] + o)[j].key {
          if i == 0 {
            CountKeyElement(o, j - 1);
          }
        }
      }
    }
  }

  /** A row that is present is counted. */
  lemma {:induction false} CountKeyElement(rows: Rows, i: nat)
    requires i < |rows|
    ensures CountKey(rows, rows[i].key) > 0
    decreases |rows|
  {
    if i > 0 {
      CountKeyElement(rows[1..], i - 1);
    }
  }

  /** The constraint holds exactly when every pair has at most one row. */
  lemma UniqueIffAtMostOneRow(rows: Rows)
    ensures Unique(rows) <==> forall k :: CountKey(rows, k) <= 1
  {
    if Unique(rows) {
      forall k ensures CountKey(rows, k) <= 1 {
        UniqueCountAtMostOne(rows, k);
      }
    } else {
      var i, j :| 0 <= i < j < |rows| && rows[i].key == rows[j].key;
      TwoRowsCountTwo(rows, i, j);
    }
  }

  lemma {:induction false} TwoRowsCountTwo(rows: Rows, i: nat, j: nat)
    requires i < j < |rows| && rows[i].key == rows[j].key
    ensures CountKey(rows, rows[i].key) >= 2
    decreases |rows|
  {
    if i > 0 {
      TwoRowsCountTwo(rows[1..], i - 1, j - 1);
    } else {
      CountKeyElement(rows[1..], j - 1);
    }
  }

  lemma {:induction false} SetVoteFacts(rows: Rows, k: Key, v: Vote)
    ensures |SetVote(rows, k, v)| == |rows|
    ensures forall i :: 0 <= i < |rows| ==> SetVote(rows, k, v)[i].key == rows[i].key
    ensures Others(SetVote(rows, k, v), k) == Others(rows, k)
    ensures FindRow(rows, k).Some? ==> FindRow(SetVote(rows, k, v), k) == Some(FindRow(rows, k).value.(vote := v))
    ensures forall k' :: CountKey(SetVote(rows, k, v), k') == CountKey(rows, k')
    decreases |rows|
  {
    if |rows| > 0 {
      SetVoteFacts(rows[1..], k, v);
    }
  }

  // ----- the upsert -----

  datatype Dialect = Postgres | Sqlite

  /** The upsert statement of each dialect, at time `now`. */
  function Upsert(d: Dialect, rows: Rows, k: Key, v: Vote, now: nat): (r: Rows)
    ensures Lookup(r, k) == Some(v)
    ensures Others(r, k) == Others(rows, k)
    ensures forall k' :: k' != k ==> FindRow(r, k') == FindRow(rows, k')
    ensures Unique(rows) ==> Unique(r) && CountKey(r, k) == 1
  {
    var newRow := Row(k, v, now);
    match d
    case Postgres =>
      if FindRow(rows, k).Some? then
        SetVoteFacts(rows, k, v);
        PostgresUpdateFrame(rows, k, v);
        SetVoteKeepsUnique(rows, k, v);
        SetVote(rows, k, v)
      else
        InsertFrame(rows, k, newRow);
        rows + [newRow]
    case Sqlite =>
      OthersHasNoKey(rows, k);
      InsertFrame(Others(rows, k), k, newRow);
      ReplaceFrame(rows, k, newRow);
      Others(rows, k) + [newRow]
  }

  lemma PostgresUpdateFrame(rows: Rows, k: Key, v: Vote)
    ensures forall k' :: k' != k ==> FindRow(SetVote(rows, k, v), k') == FindRow(rows, k')
  {
    forall k' | k' != k ensures FindRow(SetVote(rows, k, v), k') == FindRow(rows, k') {
      SetVoteFind(rows, k, v, k');
    }
  }

  lemma {:induction false} SetVoteFind(rows: Rows, k: Key, v: Vote, k': Key)
    requires k' != k
    ensures FindRow(SetVote(rows, k, v), k') == FindRow(rows, k')
    decreases |rows|
  {
    if |rows| > 0 {
      SetVoteFind(rows[1..], k, v, k');
    }
  }

  lemma SetVoteKeepsUnique(rows: Rows, k: Key, v: Vote)
    requires FindRow(rows, k).Some?
    ensures Unique(rows) ==> Unique(SetVote(rows, k, v)) && CountKey(SetVote(rows, k, v), k) == 1
  {
    SetVoteFacts(rows, k, v);
    FindRowIffCount(rows, k);
    if Unique(rows) {
      UniqueCountAtMostOne(rows, k);
    }
  }

  /** Appending a row for a pair that has none. */
  lemma InsertFrame(rows: Rows, k: Key, newRow: Row)
    requires FindRow(rows, k).None? && newRow.key == k
    ensures Lookup(rows + [newRow], k) == Some(newRow.vote)
    ensures Others(rows + [newRow], k) == Others(rows, k)
    ensures forall k' :: k' != k ==> FindRow(rows + [newRow], k') == FindRow(rows, k')
    ensures Unique(rows) ==> Unique(rows + [newRow]) && CountKey(rows + [newRow], k) == 1
  {
    FindRowAppend(rows, [newRow], k);
    OthersAppend(rows, [newRow], k);
    FindRowIffCount(rows, k);
    CountKeyAppend(rows, [newRow], k);
    forall k' | k' != k ensures FindRow(rows + [newRow], k') == FindRow(rows, k') {
      FindRowAppend(rows, [newRow], k');
    }
    if Unique(rows) {
      forall i | 0 <= i < |rows| ensures rows[i].key != k {
        if rows[i].key == k {
          CountKeyElement(rows, i);
        }
      }
    }
  }

  /** Deleting a pair's rows and appending a new one leaves the other pairs as they were. */
  lemma ReplaceFrame(rows: Rows, k: Key, newRow: Row)
    requires newRow.key == k
    ensures Others(Others(rows, k) + [newRow], k) == Others(rows, k)
    ensures forall k' :: k' != k ==> FindRow(Others(rows, k) + [newRow], k') == FindRow(rows, k')
    ensures Unique(rows) ==> Unique(Others(rows, k))
  {
    OthersHasNoKey(rows, k);
    OthersOfAbsent(Others(rows, k), k);
    OthersAppend(Others(rows, k), [newRow], k);
    assert Others([newRow], k) == [];
    forall k' | k' != k ensures FindRow(Others(rows, k) + [newRow], k') == FindRow(rows, k') {
      FindRowAppend(Others(rows, k), [newRow], k');
      FindRowInOthers(rows, k, k');
    }
    if Unique(rows) {
      OthersUnique(rows, k);
    }
  }

  /** Postgres keeps the original row and its `created_at`; SQLite's replacement row is stamped `now`. */
  lemma UpsertTimestamps(rows: Rows, k: Key, v: Vote, now: nat)
    ensures FindRow(rows, k).Some? ==>
              FindRow(Upsert(Postgres, rows, k, v, now), k) == Some(FindRow(rows, k).value.(vote := v))
    ensures FindRow(Upsert(Sqlite, rows, k, v, now), k) == Some(Row(k, v, now))
  {
    SetVoteFacts(rows, k, v);
    OthersHasNoKey(rows, k);
    FindRowAppend(Others(rows, k), [Row(k, v, now)], k);
  }

  // ----- aggregates -----

  /** `SUM(CASE WHEN rating = v THEN 1 ELSE 0 END)` over a song's rows, counted as a number. */
  function CountVotes(rows: Rows, songId: string, v: Vote): nat
    decreases |rows|
  {
    if |rows| == 0 then 0
    else (if rows[0].key.songId == songId && rows[0].vote == v then 1 else 0) + CountVotes(rows[1..], songId, v)
  }

  /** `COUNT(*) ... WHERE song_id = $1`. */
  function CountSong(rows: Rows, songId: string): nat
    decreases |rows|
  {
    if |rows| == 0 then 0
    else (if rows[0].key.songId == songId then 1 else 0) + CountSong(rows[1..], songId)
  }

  /** Every row is an up or a down vote, so the two sums add up to the count. */
  lemma {:induction false} UpPlusDownIsTotal(rows: Rows, songId: string)
    ensures CountVotes(rows, songId, Up) + CountVotes(rows, songId, Down) == CountSong(rows, songId)
    decreases |rows|
  {
    if |rows| > 0 {
      UpPlusDownIsTotal(rows[1..], songId);
    }
  }

  /** The aggregate row: `SUM` over no rows is `NULL`, `COUNT` is 0. */
  datatype Tally = Tally(thumbsUp: Option<nat>, thumbsDown: Option<nat>, total: nat)

  function Aggregate(rows: Rows, songId: string): (t: Tally)
    ensures t.total == CountSong(rows, songId)
    ensures t.thumbsUp.None? <==> t.total == 0
    ensures t.thumbsDown.None? <==> t.total == 0
    ensures t.total > 0 ==> t.thumbsUp.value + t.thumbsDown.value == t.total
    ensures t.total > 0 ==> t.thumbsUp.value == CountVotes(rows, songId, Up)
    ensures t.total > 0 ==> t.thumbsDown.value == CountVotes(rows, songId, Down)
  {
    UpPlusDownIsTotal(rows, songId);
    var total := CountSong(rows, songId);
    if total == 0 then Tally(None, None, 0)
    else Tally(Some(CountVotes(rows, songId, Up)), Some(CountVotes(rows, songId, Down)), total)
  }

  function Indicator(b: bool): nat {
    if b then 1 else 0
  }

  /** A pair's own row accounts for exactly its vote in the song's sums. */
  lemma {:induction false} CountVotesSplit(rows: Rows, k: Key, s: string, w: Vote)
    requires Unique(rows)
    ensures CountVotes(rows, s, w)
         == CountVotes(Others(rows, k), s, w) + Indicator(k.songId == s && Lookup(rows, k) == Some(w))
    decreases |rows|
  {
    if |rows| > 0 {
      UniqueTail(rows);
      CountVotesSplit(rows[1..], k, s, w);
      if rows[0].key == k {
        OthersOfAbsent(rows[1..], k);
        FindRowIffCount(rows[1..], k);
        OthersIsCountVotesNeutral(rows[1..], k, s, w);
      }
    }
  }

  lemma OthersIsCountVotesNeutral(rows: Rows, k: Key, s: string, w: Vote)
    requires CountKey(rows, k) == 0
    ensures CountVotes(Others(rows, k), s, w) == CountVotes(rows, s, w)
  {
    OthersOfAbsent(rows, k);
  }

  /** How an upsert moves a song's counts: the pair's old vote leaves, the new one enters. */
  lemma UpsertMovesCounts(d: Dialect, rows: Rows, k: Key, v: Vote, now: nat, s: string, w: Vote)
    requires Unique(rows)
    ensures CountVotes(Upsert(d, rows, k, v, now), s, w) + Indicator(k.songId == s && Lookup(rows, k) == Some(w))
         == CountVotes(rows, s, w) + Indicator(k.songId == s && v == w)
  {
    var r := Upsert(d, rows, k, v, now);
    CountVotesSplit(rows, k, s, w);
    CountVotesSplit(r, k, s, w);
  }

  /** The two dialects are interchangeable: same lookups and same aggregates after any upsert. */
  lemma DialectsAgree(rows: Rows, k: Key, v: Vote, now: nat, k': Key, s: string)
    requires Unique(rows)
    ensures Lookup(Upsert(Postgres, rows, k, v, now), k') == Lookup(Upsert(Sqlite, rows, k, v, now), k')
    ensures Aggregate(Upsert(Postgres, rows, k, v, now), s) == Aggregate(Upsert(Sqlite, rows, k, v, now), s)
  {
    UpsertMovesCounts(Postgres, rows, k, v, now, s, Up);
    UpsertMovesCounts(Sqlite, rows, k, v, now, s, Up);
    UpsertMovesCounts(Postgres, rows, k, v, now, s, Down);
    UpsertMovesCounts(Sqlite, rows, k, v, now, s, Down);
    UpPlusDownIsTotal(Upsert(Postgres, rows, k, v, now), s);
    UpPlusDownIsTotal(Upsert(Sqlite, rows, k, v, now), s);
  }
}
