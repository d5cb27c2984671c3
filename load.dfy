/** The upsert loader: `load_players` and `load_scores`.  The database is two tables keyed by
    primary key; each loader runs one `INSERT ... ON DUPLICATE KEY UPDATE` per row of its frame,
    in row order, and counts the rows.  Statements are assumed to succeed. */
module Load {
  import opened Wrappers
  import opened Frames
  import opened Timestamps
  import opened Transform
  import opened Upsert

  // ---------------------------------------------------------------------------------------
  // players

  /** The parameters of one player statement: `(player_id, username, email, registration_date)`. */
  datatype PlayerValues = PlayerValues(
    player_id: int,
    username: Option<string>,
    email: Option<string>,
    registration_date: Option<string>)

  /** A stored player row: every column of `players` but the key. */
  datatype PlayerRow = PlayerRow(
    username: Option<string>,
    email: Option<string>,
    registration_date: Option<string>,
    country: Option<string>,
    level: Option<int>)

  /** Binding one frame row: a missing email or date is passed as NULL; a date as the text
      `YYYY-MM-DD`, which names exactly the day of the timestamp. */
  function PlayerParams(p: Player): (v: PlayerValues)
    ensures v.player_id == p.player_id && v.username == p.username && v.email == p.email
    ensures v.registration_date.None? <==> p.registration_date.None?
    ensures p.registration_date.Some? ==>
              |v.registration_date.value| == 10
              && ParseDate(v.registration_date.value) == Some(DateOf(p.registration_date.value))
  {
    match p.registration_date
    case None => PlayerValues(p.player_id, p.username, p.email, None)
    case Some(t) =>
      DateRoundTrip(t);
      PlayerValues(p.player_id, p.username, p.email, Some(FormatDate(t)))
  }

  /** `int(row['player_id'])`. */
  function PlayerKey(p: Player): (id: int) { p.player_id }

  /** One player statement: `INSERT INTO players (player_id, username, email,
      registration_date) ... ON DUPLICATE KEY UPDATE username, email, registration_date`.
      A new row gets NULL in the columns the statement does not name. */
  function WritePlayer(stored: Option<PlayerRow>, p: Player): (row: PlayerRow) {
    var v := PlayerParams(p);
    match stored
    case None => PlayerRow(v.username, v.email, v.registration_date, None, None)
    case Some(r) => r.(username := v.username, email := v.email, registration_date := v.registration_date)
  }

  /** The players table after `load_players(df)`. */
  function LoadedPlayers(t: map<int, PlayerRow>, df: seq<Player>): (t': map<int, PlayerRow>) {
    UpsertAll(t, df, PlayerKey, WritePlayer)
  }

  /** Repeated player statements for one key: the last one decides the written columns, and
      the other columns are those of the row stored before the batch (NULL if there was none). */
  lemma {:induction false} ReplayPlayers(stored: Option<PlayerRow>, rows: seq<Player>)
    requires rows != []
    ensures Replay(stored, rows, WritePlayer) == Some(WritePlayer(stored, rows[|rows| - 1]))
  {
    var init := rows[..|rows| - 1];
    if init != [] {
      ReplayPlayers(stored, init);
    }
  }

  /** After `load_players`, the key set is the old one united with the frame's ids, and the
      rows of ids outside the frame are unchanged. */
  lemma LoadPlayersKeys(t: map<int, PlayerRow>, df: seq<Player>)
    ensures LoadedPlayers(t, df).Keys == t.Keys + KeySet(df, PlayerKey)
    ensures forall k :: k in t && k !in KeySet(df, PlayerKey) ==> LoadedPlayers(t, df)[k] == t[k]
  {
    UpsertAllKeys(t, df, PlayerKey, WritePlayer);
    forall k | k in t && k !in KeySet(df, PlayerKey)
      ensures LoadedPlayers(t, df)[k] == t[k]
    {
      UpsertAllFrame(t, df, PlayerKey, WritePlayer, k);
    }
  }

  /** Last write wins: the stored username, email and date of an id are those of the last row
      of the frame with that id. */
  lemma LoadPlayersLastWriteWins(t: map<int, PlayerRow>, df: seq<Player>, i: int)
    requires 0 <= i < |df|
    requires forall j :: i < j < |df| ==> df[j].player_id != df[i].player_id
    ensures var k := df[i].player_id;
            var v := PlayerParams(df[i]);
            && k in LoadedPlayers(t, df)
            && LoadedPlayers(t, df)[k].username == df[i].username
            && LoadedPlayers(t, df)[k].email == df[i].email
            && LoadedPlayers(t, df)[k].registration_date == v.registration_date
  {
    var k := df[i].player_id;
    LastRowWithKey(df, PlayerKey, i);
    UpsertAllAt(t, df, PlayerKey, WritePlayer, k);
    ReplayPlayers(Get(t, k), RowsWithKey(df, PlayerKey, k));
  }

  /** `country` and `level` are never written: an existing player keeps them, and a player
      the loader creates has them NULL. */
  lemma LoadPlayersKeepsUnwrittenColumns(t: map<int, PlayerRow>, df: seq<Player>)
    ensures forall k :: k in LoadedPlayers(t, df) ==>
              var r := LoadedPlayers(t, df)[k];
              if k in t then r.country == t[k].country && r.level == t[k].level
              else r.country.None? && r.level.None?
  {
    forall k | k in LoadedPlayers(t, df)
      ensures var r := LoadedPlayers(t, df)[k];
              if k in t then r.country == t[k].country && r.level == t[k].level
              else r.country.None? && r.level.None?
    {
      UpsertAllAt(t, df, PlayerKey, WritePlayer, k);
      var rows := RowsWithKey(df, PlayerKey, k);
      if rows != [] {
        ReplayPlayers(Get(t, k), rows);
      }
    }
  }

  /** Loading the same frame twice leaves the table as loading it once. */
  lemma LoadPlayersIdempotent(t: map<int, PlayerRow>, df: seq<Player>)
    ensures LoadedPlayers(LoadedPlayers(t, df), df) == LoadedPlayers(t, df)
  {
    var once := LoadedPlayers(t, df);
    forall k ensures Get(LoadedPlayers(once, df), k) == Get(once, k) {
      UpsertAllAt(t, df, PlayerKey, WritePlayer, k);
      UpsertAllAt(once, df, PlayerKey, WritePlayer, k);
      var rows := RowsWithKey(df, PlayerKey, k);
      if rows != [] {
        ReplayPlayers(Get(t, k), rows);
        ReplayPlayers(Get(once, k), rows);
      }
    }
    TablesEqual(LoadedPlayers(once, df), once);
  }

  // ---------------------------------------------------------------------------------------
  // scores

  /** The parameters of one score statement: `(score_id, player_id, score, played_at)`. */
  datatype ScoreValues = ScoreValues(
    score_id: int,
    player_id: int,
    score: Option<real>,
    played_at: Option<string>)

  /** A stored score row: every column of `scores` but the key. */
  datatype ScoreRow = ScoreRow(
    player_id: int,
    game: Option<string>,
    score: Option<real>,
    duration_minutes: Option<int>,
    played_at: Option<string>,
    platform: Option<string>)

  /** Binding one frame row: a missing score or time is passed as NULL; a time as the text
      `YYYY-MM-DD HH:MM:SS`, which names the timestamp to the second. */
  function ScoreParams(s: Score): (v: ScoreValues)
    ensures v.score_id == s.score_id && v.player_id == s.player_id && v.score == s.score
    ensures v.played_at.None? <==> s.played_at.None?
    ensures s.played_at.Some? ==>
              |v.played_at.value| == 19
              && ParseDateTime(v.played_at.value) == Some(s.played_at.value.(nanosecond := 0))
  {
    match s.played_at
    case None => ScoreValues(s.score_id, s.player_id, s.score, None)
    case Some(t) =>
      DateTimeRoundTrip(t);
      ScoreValues(s.score_id, s.player_id, s.score, Some(FormatDateTime(t)))
  }

  /** `int(row['score_id'])`. */
  function ScoreKey(s: Score): (id: int) { s.score_id }

  /** One score statement: `INSERT INTO scores (score_id, player_id, score, played_at) ... ON
      DUPLICATE KEY UPDATE score, played_at`.  On a conflict the stored `player_id` stays. */
  function WriteScore(stored: Option<ScoreRow>, s: Score): (row: ScoreRow) {
    var v := ScoreParams(s);
    match stored
    case None => ScoreRow(v.player_id, None, v.score, None, v.played_at, None)
    case Some(r) => r.(score := v.score, played_at := v.played_at)
  }

  /** The scores table after `load_scores(df)`. */
  function LoadedScores(t: map<int, ScoreRow>, df: seq<Score>): (t': map<int, ScoreRow>) {
    UpsertAll(t, df, ScoreKey, WriteScore)
  }

  /** Repeated score statements for one key: the first one decides the row that is inserted
      (and so its `player_id`), the last one decides `score` and `played_at`. */
  lemma {:induction false} ReplayScores(stored: Option<ScoreRow>, rows: seq<Score>)
    requires rows != []
    ensures var last := ScoreParams(rows[|rows| - 1]);
            Replay(stored, rows, WriteScore)
            == Some(WriteScore(stored, rows[0]).(score := last.score, played_at := last.played_at))
  {
    var init := rows[..|rows| - 1];
    if init != [] {
      ReplayScores(stored, init);
    }
  }

  /** After `load_scores`, the key set is the old one united with the frame's ids, and the rows
      of ids outside the frame are unchanged. */
  lemma LoadScoresKeys(t: map<int, ScoreRow>, df: seq<Score>)
    ensures LoadedScores(t, df).Keys == t.Keys + KeySet(df, ScoreKey)
    ensures forall k :: k in t && k !in KeySet(df, ScoreKey) ==> LoadedScores(t, df)[k] == t[k]
  {
    UpsertAllKeys(t, df, ScoreKey, WriteScore);
    forall k | k in t && k !in KeySet(df, ScoreKey)
      ensures LoadedScores(t, df)[k] == t[k]
    {
      UpsertAllFrame(t, df, ScoreKey, WriteScore, k);
    }
  }

  /** Last write wins for the updated columns: the stored score and time of an id are those of
      the last row of the frame with that id. */
  lemma LoadScoresLastWriteWins(t: map<int, ScoreRow>, df: seq<Score>, i: int)
    requires 0 <= i < |df|
    requires forall j :: i < j < |df| ==> df[j].score_id != df[i].score_id
    ensures var k := df[i].score_id;
            var v := ScoreParams(df[i]);
            && k in LoadedScores(t, df)
            && LoadedScores(t, df)[k].score == df[i].score
            && LoadedScores(t, df)[k].played_at == v.played_at
  {
    var k := df[i].score_id;
    LastRowWithKey(df, ScoreKey, i);
    var rows := RowsWithKey(df, ScoreKey, k);
    UpsertAllAt(t, df, ScoreKey, WriteScore, k);
    ReplayScores(Get(t, k), rows);
  }

  /** The other columns are never overwritten: an existing score keeps its `player_id`, `game`,
      `duration_minutes` and `platform`; a score the loader creates takes the `player_id` of the
      first row of the frame with its id, and NULL in the other three. */
  lemma LoadScoresKeepsUnwrittenColumns(t: map<int, ScoreRow>, df: seq<Score>, i: int)
    requires 0 <= i < |df| && IsFirst(df, ScoreKey, i)
    ensures df[i].score_id in LoadedScores(t, df)
    ensures var k := df[i].score_id;
            var r := LoadedScores(t, df)[k];
            if k in t then
              && r.player_id == t[k].player_id && r.game == t[k].game
              && r.duration_minutes == t[k].duration_minutes && r.platform == t[k].platform
            else
              && r.player_id == df[i].player_id
              && r.game.None? && r.duration_minutes.None? && r.platform.None?
  {
    var k := df[i].score_id;
    FirstRowWithKey(df, ScoreKey, i);
    var rows := RowsWithKey(df, ScoreKey, k);
    UpsertAllAt(t, df, ScoreKey, WriteScore, k);
    ReplayScores(Get(t, k), rows);
  }

  /** Loading the same frame twice leaves the table as loading it once. */
  lemma LoadScoresIdempotent(t: map<int, ScoreRow>, df: seq<Score>)
    ensures LoadedScores(LoadedScores(t, df), df) == LoadedScores(t, df)
  {
    var once := LoadedScores(t, df);
    forall k ensures Get(LoadedScores(once, df), k) == Get(once, k) {
      UpsertAllAt(t, df, ScoreKey, WriteScore, k);
      UpsertAllAt(once, df, ScoreKey, WriteScore, k);
      var rows := RowsWithKey(df, ScoreKey, k);
      if rows != [] {
        ReplayScores(Get(t, k), rows);
        ReplayScores(Get(once, k), rows);
      }
    }
    TablesEqual(LoadedScores(once, df), once);
  }

  // ---------------------------------------------------------------------------------------
  // the connection

  /** The two tables behind the connection the loaders write through. */
  class Database {
    var players: map<int, PlayerRow>
    var scores: map<int, ScoreRow>

    constructor (players: map<int, PlayerRow>, scores: map<int, ScoreRow>)
      ensures this.players == players && this.scores == scores
    {
      this.players := players;
      this.scores := scores;
    }

    /** `load_players`: one statement per row, in order; returns the number of rows. */
    method LoadPlayers(df: seq<Player>) returns (count: int)
      modifies this
      ensures players == LoadedPlayers(old(players), df)
      ensures scores == old(scores)
      ensures count == |df|
    {
      count := 0;
      var i := 0;
      while i < |df|
        invariant 0 <= i <= |df|
        invariant count == i
        invariant players == LoadedPlayers(old(players), df[..i])
        invariant scores == old(scores)
      {
        assert df[..i + 1][..i] == df[..i];
        players := UpsertOne(players, df[i], PlayerKey, WritePlayer);
        count := count + 1;
        i := i + 1;
      }
      assert df[..i] == df;
    }

    /** `load_scores`: one statement per row, in order; returns the number of rows. */
    method LoadScores(df: seq<Score>) returns (count: int)
      modifies this
      ensures scores == LoadedScores(old(scores), df)
      ensures players == old(players)
      ensures count == |df|
    {
      count := 0;
      var i := 0;
      while i < |df|
        invariant 0 <= i <= |df|
        invariant count == i
        invariant scores == LoadedScores(old(scores), df[..i])
        invariant players == old(players)
      {
        assert df[..i + 1][..i] == df[..i];
        scores := UpsertOne(scores, df[i], ScoreKey, WriteScore);
        count := count + 1;
        i := i + 1;
      }
      assert df[..i] == df;
    }
  }
}
