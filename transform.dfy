/** The record-cleaning stage: `transform_players` and `transform_scores`.  Each takes a frame
    of raw rows, as read from the CSV files, and returns the cleaned frame.  The two pandas
    parsers the stage calls, `pd.to_datetime` and `pd.to_numeric` with `errors='coerce'`, are
    parameters: any function that either reads a cell or reports it unreadable. */
module Transform {
  import opened Wrappers
  import opened Frames
  import opened Text
  import opened Timestamps

  /** A player row as read from the file; a cell left empty there is `None`. */
  datatype RawPlayer = RawPlayer(
    player_id: int,
    username: Option<string>,
    email: Option<string>,
    registration_date: Option<string>,
    country: Option<string>,
    level: Option<int>)

  /** A cleaned player row: the registration date is parsed or absent. */
  datatype Player = Player(
    player_id: int,
    username: Option<string>,
    email: Option<string>,
    registration_date: Option<Timestamp>,
    country: Option<string>,
    level: Option<int>)

  /** A score row as read from the file. */
  datatype RawScore = RawScore(
    score_id: int,
    player_id: int,
    game: Option<string>,
    score: Option<string>,
    duration_minutes: Option<int>,
    played_at: Option<string>,
    platform: Option<string>)

  /** A score row after coercion of `played_at` and `score`. */
  datatype Score = Score(
    score_id: int,
    player_id: int,
    game: Option<string>,
    score: Option<real>,
    duration_minutes: Option<int>,
    played_at: Option<Timestamp>,
    platform: Option<string>)

  // ---------------------------------------------------------------------------------------
  // Per-cell coercions

  /** A parser run with `errors='coerce'` over one cell: a missing cell stays missing, an
      unreadable one becomes missing, and nothing else is produced. */
  function Coerce<T>(cell: Option<string>, parse: string -> Option<T>): (r: Option<T>) {
    match cell
    case None => None
    case Some(text) => parse(text)
  }

  /** `email.where(email.str.contains('@', na=False), None)`: an address survives exactly when
      it contains `@`, and then unchanged. */
  function ValidEmail(email: Option<string>): (r: Option<string>) {
    if email.Some? && '@' in email.value then email else None
  }

  // ---------------------------------------------------------------------------------------
  // transform_players

  function PlayerId(p: RawPlayer): (id: int) { p.player_id }

  function Username(p: RawPlayer): (name: Option<string>) { p.username }

  function StripUsername(p: RawPlayer): (r: RawPlayer) {
    p.(username := StripCell(p.username))
  }

  /** The last two column rewrites: the date is parsed, a malformed email is nulled, the other
      columns pass through. */
  function FinishPlayer(p: RawPlayer, toDatetime: string -> Option<Timestamp>): (r: Player) {
    Player(p.player_id, p.username, ValidEmail(p.email),
           Coerce(p.registration_date, toDatetime), p.country, p.level)
  }

  /** `transform_players`: drop repeated ids (first kept), strip usernames, drop repeated
      stripped usernames (first kept), parse dates, null malformed emails. */
  function TransformPlayers(df: seq<RawPlayer>, toDatetime: string -> Option<Timestamp>)
    : (out: seq<Player>)
  {
    var byName := DropDuplicates(TrimmedPlayers(df), Username);
    MapRows(byName, p => FinishPlayer(p, toDatetime))
  }

  /** The player frame after the id deduplication and the username strip. */
  function TrimmedPlayers(df: seq<RawPlayer>): (r: seq<RawPlayer>) {
    MapRows(DropDuplicates(df, PlayerId), StripUsername)
  }

  /** The index labels of the cleaned player frame: the input positions it keeps. */
  ghost function PlayerIndex(df: seq<RawPlayer>): (idx: seq<nat>) {
    Compose(Kept(FirstOccurrences(df, PlayerId)), Kept(FirstOccurrences(TrimmedPlayers(df), Username)))
  }

  /** Row `i` is kept: it is the first row with its id, and no earlier row that is also the
      first with its id has the same stripped username.  A row already dropped for a repeated
      id therefore never removes a later row by its username. */
  ghost predicate SurvivesPlayerCleaning(df: seq<RawPlayer>, i: int)
    requires 0 <= i < |df|
  {
    && IsFirst(df, PlayerId, i)
    && forall j :: 0 <= j < i && IsFirst(df, PlayerId, j) ==>
         StripCell(df[j].username) != StripCell(df[i].username)
  }

  /** Row `q` of the trimmed frame is input row `Kept(m1)[q]` with its username stripped. */
  lemma TrimmedPlayersAt(df: seq<RawPlayer>)
    ensures var k1 := Kept(FirstOccurrences(df, PlayerId));
            var t := TrimmedPlayers(df);
            && |t| == |k1|
            && forall q :: 0 <= q < |t| ==> t[q] == StripUsername(df[k1[q]])
  {
  }

  /** The kept positions are ascending and each cleaned row is its input row, cleaned. */
  lemma PlayerIndexShape(df: seq<RawPlayer>, toDatetime: string -> Option<Timestamp>)
    ensures var out := TransformPlayers(df, toDatetime);
            var idx := PlayerIndex(df);
            && |out| == |idx| <= |df|
            && Ascending(idx)
            && (forall k :: 0 <= k < |idx| ==>
                  idx[k] < |df| && out[k] == FinishPlayer(StripUsername(df[idx[k]]), toDatetime))
  {
    var m1 := FirstOccurrences(df, PlayerId);
    var k1 := Kept(m1);
    var t := TrimmedPlayers(df);
    var m2 := FirstOccurrences(t, Username);
    var k2 := Kept(m2);
    var byName := Where(t, m2);
    var out := TransformPlayers(df, toDatetime);
    var idx := PlayerIndex(df);
    KeptAscending(m1);
    KeptAscending(m2);
    ComposeAscending(k1, k2);
    TrimmedPlayersAt(df);
    assert out == MapRows(byName, p => FinishPlayer(p, toDatetime));
    forall k | 0 <= k < |idx|
      ensures idx[k] < |df| && out[k] == FinishPlayer(StripUsername(df[idx[k]]), toDatetime)
    {
      assert byName[k] == t[k2[k]];
    }
  }

  /** A kept row survives both deduplications. */
  lemma PlayerIndexSound(df: seq<RawPlayer>, i: int)
    requires 0 <= i < |df| && i in PlayerIndex(df)
    ensures SurvivesPlayerCleaning(df, i)
  {
    var m1 := FirstOccurrences(df, PlayerId);
    var k1 := Kept(m1);
    var t := TrimmedPlayers(df);
    var m2 := FirstOccurrences(t, Username);
    var k2 := Kept(m2);
    var idx := PlayerIndex(df);
    KeptAscending(m1);
    FirstOccurrencesAt(df, PlayerId);
    FirstOccurrencesAt(t, Username);
    TrimmedPlayersAt(df);
    var k :| 0 <= k < |idx| && idx[k] == i;
    var p := k2[k];
    assert k1[p] == i;
    assert m1[i];
    assert m2[p];
    forall j | 0 <= j < i && IsFirst(df, PlayerId, j)
      ensures StripCell(df[j].username) != StripCell(df[i].username)
    {
      assert m1[j];
      KeptAt(m1, j);
      var q := |Kept(m1[..j])|;
      AscendingOrder(k1, q, p);
      assert IsFirst(t, Username, p);
      assert Username(t[q]) != Username(t[p]);
    }
  }

  /** A surviving row sits in the trimmed frame at place `|Kept(m1[..i])|`, and no earlier
      row there has its username. */
  lemma SurvivorFirstByName(df: seq<RawPlayer>, i: int)
    requires 0 <= i < |df| && SurvivesPlayerCleaning(df, i)
    ensures var m1 := FirstOccurrences(df, PlayerId);
            var p := |Kept(m1[..i])|;
            && p < |TrimmedPlayers(df)| && Kept(m1)[p] == i
            && IsFirst(TrimmedPlayers(df), Username, p)
  {
    var m1 := FirstOccurrences(df, PlayerId);
    var k1 := Kept(m1);
    var t := TrimmedPlayers(df);
    KeptAscending(m1);
    FirstOccurrencesAt(df, PlayerId);
    TrimmedPlayersAt(df);
    KeptAt(m1, i);
    var p := |Kept(m1[..i])|;
    forall q | 0 <= q < p
      ensures Username(t[q]) != Username(t[p])
    {
      AscendingOrder(k1, q, p);
      assert m1[k1[q]];
    }
  }

  /** A row that survives both deduplications is kept. */
  lemma PlayerIndexComplete(df: seq<RawPlayer>, i: int)
    requires 0 <= i < |df| && SurvivesPlayerCleaning(df, i)
    ensures i in PlayerIndex(df)
  {
    var m1 := FirstOccurrences(df, PlayerId);
    var t := TrimmedPlayers(df);
    var m2 := FirstOccurrences(t, Username);
    var p := |Kept(m1[..i])|;
    assert p < |t| && Kept(m1)[p] == i && IsFirst(t, Username, p) by {
      SurvivorFirstByName(df, i);
    }
    assert m2[p] by {
      FirstOccurrencesAt(t, Username);
    }
    var k := |Kept(m2[..p])|;
    assert k < |Kept(m2)| && Kept(m2)[k] == p by {
      KeptAt(m2, p);
    }
    assert PlayerIndex(df)[k] == i;
  }

  /** The cleaned players are the input rows the two deduplications keep, in input order, each
      cleaned on its own; row `i` is kept exactly when it survives both deduplications. */
  lemma TransformPlayersRows(df: seq<RawPlayer>, toDatetime: string -> Option<Timestamp>)
    ensures var out := TransformPlayers(df, toDatetime);
            var idx := PlayerIndex(df);
            && |out| == |idx| <= |df|
            && Ascending(idx)
            && (forall k :: 0 <= k < |idx| ==>
                  idx[k] < |df| && out[k] == FinishPlayer(StripUsername(df[idx[k]]), toDatetime))
            && (forall i :: 0 <= i < |df| ==> (i in idx <==> SurvivesPlayerCleaning(df, i)))
  {
    PlayerIndexShape(df, toDatetime);
    forall i | 0 <= i < |df|
      ensures i in PlayerIndex(df) <==> SurvivesPlayerCleaning(df, i)
    {
      if i in PlayerIndex(df) {
        PlayerIndexSound(df, i);
      }
      if SurvivesPlayerCleaning(df, i) {
        PlayerIndexComplete(df, i);
      }
    }
  }

  /** No two cleaned players share an id. */
  lemma PlayersHaveUniqueIds(df: seq<RawPlayer>, toDatetime: string -> Option<Timestamp>)
    ensures var out := TransformPlayers(df, toDatetime);
            forall a, b :: 0 <= a < b < |out| ==> out[a].player_id != out[b].player_id
  {
    TransformPlayersRows(df, toDatetime);
    var out := TransformPlayers(df, toDatetime);
    var idx := PlayerIndex(df);
    forall a, b | 0 <= a < b < |out|
      ensures out[a].player_id != out[b].player_id
    {
      assert idx[b] in idx;
      assert IsFirst(df, PlayerId, idx[b]);
      assert PlayerId(df[idx[a]]) != PlayerId(df[idx[b]]);
    }
  }

  /** Every cleaned username is stripped, and no two cleaned players share one (two missing
      usernames count as equal, as they do for `drop_duplicates`). */
  lemma PlayersHaveUniqueStrippedUsernames(df: seq<RawPlayer>,
                                           toDatetime: string -> Option<Timestamp>)
    ensures var out := TransformPlayers(df, toDatetime);
            && (forall k :: 0 <= k < |out| && out[k].username.Some? ==>
                  IsStripped(out[k].username.value))
            && (forall a, b :: 0 <= a < b < |out| ==> out[a].username != out[b].username)
  {
    TransformPlayersRows(df, toDatetime);
    var out := TransformPlayers(df, toDatetime);
    var idx := PlayerIndex(df);
    forall a, b | 0 <= a < b < |out|
      ensures out[a].username != out[b].username
    {
      assert idx[a] in idx && idx[b] in idx;
      assert SurvivesPlayerCleaning(df, idx[a]);
      assert SurvivesPlayerCleaning(df, idx[b]);
    }
  }

  /** Cleaned fields: an email is kept exactly when it contains `@`, a date is present exactly
      when its cell parses, and id, country and level pass through. */
  lemma PlayersCleanedFields(df: seq<RawPlayer>, toDatetime: string -> Option<Timestamp>)
    ensures var out := TransformPlayers(df, toDatetime);
            var idx := PlayerIndex(df);
            forall k :: 0 <= k < |out| ==>
              var row := df[idx[k]];
              && out[k].player_id == row.player_id
              && out[k].username == StripCell(row.username)
              && (out[k].email.Some? <==> row.email.Some? && '@' in row.email.value)
              && (out[k].email.Some? ==> out[k].email == row.email)
              && (out[k].registration_date.Some? <==>
                    row.registration_date.Some? && toDatetime(row.registration_date.value).Some?)
              && (out[k].registration_date.Some? ==>
                    out[k].registration_date == toDatetime(row.registration_date.value))
              && out[k].country == row.country && out[k].level == row.level
  {
    TransformPlayersRows(df, toDatetime);
  }

  // ---------------------------------------------------------------------------------------
  // transform_scores

  function ScoreId(s: RawScore): (id: int) { s.score_id }

  /** The two coercions of `transform_scores`: `played_at` by `pd.to_datetime`, `score` by
      `pd.to_numeric`. */
  function CoerceScore(s: RawScore, toDatetime: string -> Option<Timestamp>,
                       toNumeric: string -> Option<real>): (r: Score)
  {
    Score(s.score_id, s.player_id, s.game, Coerce(s.score, toNumeric), s.duration_minutes,
          Coerce(s.played_at, toDatetime), s.platform)
  }

  /** `df['score'] > 0`: false for a missing score, as a comparison with NaN is. */
  predicate HasPositiveScore(s: Score) {
    s.score.Some? && s.score.value > 0.0
  }

  /** `transform_scores`: drop repeated score ids (first kept), coerce, then keep the rows
      with a positive score and a known player. */
  function TransformScores(df: seq<RawScore>, validPlayerIds: set<int>,
                           toDatetime: string -> Option<Timestamp>,
                           toNumeric: string -> Option<real>): (out: seq<Score>)
  {
    Filter(PositiveScores(df, toDatetime, toNumeric), (s: Score) => s.player_id in validPlayerIds)
  }

  /** The score frame after the score-id deduplication and the two coercions. */
  function CoercedScores(df: seq<RawScore>, toDatetime: string -> Option<Timestamp>,
                         toNumeric: string -> Option<real>): (r: seq<Score>)
  {
    MapRows(DropDuplicates(df, ScoreId), s => CoerceScore(s, toDatetime, toNumeric))
  }

  /** The score frame after the positivity filter. */
  function PositiveScores(df: seq<RawScore>, toDatetime: string -> Option<Timestamp>,
                          toNumeric: string -> Option<real>): (r: seq<Score>)
  {
    Filter(CoercedScores(df, toDatetime, toNumeric), HasPositiveScore)
  }

  /** The index labels of the cleaned score frame. */
  ghost function ScoreIndex(df: seq<RawScore>, validPlayerIds: set<int>,
                            toDatetime: string -> Option<Timestamp>,
                            toNumeric: string -> Option<real>): (idx: seq<nat>)
  {
    var m2 := Mask(CoercedScores(df, toDatetime, toNumeric), HasPositiveScore);
    var m3 := Mask(PositiveScores(df, toDatetime, toNumeric), (s: Score) => s.player_id in validPlayerIds);
    Compose(Kept(FirstOccurrences(df, ScoreId)), Compose(Kept(m2), Kept(m3)))
  }

  /** A coerced score row passes both filters. */
  predicate Accepted(s: Score, validPlayerIds: set<int>) {
    HasPositiveScore(s) && s.player_id in validPlayerIds
  }

  /** Row `i` is kept: it is the first row with its score id, and that row itself passes the
      filters once coerced.  Later rows with the same id are never considered. */
  ghost predicate SurvivesScoreCleaning(df: seq<RawScore>, validPlayerIds: set<int>,
                                        toDatetime: string -> Option<Timestamp>,
                                        toNumeric: string -> Option<real>, i: int)
    requires 0 <= i < |df|
  {
    IsFirst(df, ScoreId, i) && Accepted(CoerceScore(df[i], toDatetime, toNumeric), validPlayerIds)
  }

  /** Row `p` of the coerced frame is input row `Kept(m1)[p]`, coerced; row `q` of the positive
      frame is coerced row `Kept(m2)[q]`. */
  lemma ScoreStagesAt(df: seq<RawScore>, toDatetime: string -> Option<Timestamp>,
                      toNumeric: string -> Option<real>)
    ensures var k1 := Kept(FirstOccurrences(df, ScoreId));
            var c := CoercedScores(df, toDatetime, toNumeric);
            var k2 := Kept(Mask(c, HasPositiveScore));
            var pos := PositiveScores(df, toDatetime, toNumeric);
            && |c| == |k1| && |pos| == |k2|
            && (forall p :: 0 <= p < |c| ==> c[p] == CoerceScore(df[k1[p]], toDatetime, toNumeric))
            && (forall q :: 0 <= q < |pos| ==> pos[q] == c[k2[q]])
  {
  }

  /** The kept positions are ascending and each cleaned row is its input row, coerced. */
  lemma ScoreIndexShape(df: seq<RawScore>, validPlayerIds: set<int>,
                        toDatetime: string -> Option<Timestamp>,
                        toNumeric: string -> Option<real>)
    ensures var out := TransformScores(df, validPlayerIds, toDatetime, toNumeric);
            var idx := ScoreIndex(df, validPlayerIds, toDatetime, toNumeric);
            && |out| == |idx| <= |df|
            && Ascending(idx)
            && (forall k :: 0 <= k < |idx| ==>
                  idx[k] < |df| && out[k] == CoerceScore(df[idx[k]], toDatetime, toNumeric))
  {
    var m1 := FirstOccurrences(df, ScoreId);
    var c := CoercedScores(df, toDatetime, toNumeric);
    var m2 := Mask(c, HasPositiveScore);
    var pos := PositiveScores(df, toDatetime, toNumeric);
    var m3 := Mask(pos, (s: Score) => s.player_id in validPlayerIds);
    var k1, k2, k3 := Kept(m1), Kept(m2), Kept(m3);
    var out := TransformScores(df, validPlayerIds, toDatetime, toNumeric);
    KeptAscending(m1);
    KeptAscending(m2);
    KeptAscending(m3);
    ComposeAscending(k2, k3);
    ComposeAscending(k1, Compose(k2, k3));
    ScoreStagesAt(df, toDatetime, toNumeric);
    assert out == Where(pos, m3);
    forall k | 0 <= k < |out|
      ensures out[k] == CoerceScore(df[k1[k2[k3[k]]]], toDatetime, toNumeric)
    {
      assert out[k] == pos[k3[k]];
    }
  }

  /** A kept row is the first with its id and passes the filters. */
  lemma ScoreIndexSound(df: seq<RawScore>, validPlayerIds: set<int>,
                        toDatetime: string -> Option<Timestamp>,
                        toNumeric: string -> Option<real>, i: int)
    requires 0 <= i < |df| && i in ScoreIndex(df, validPlayerIds, toDatetime, toNumeric)
    ensures SurvivesScoreCleaning(df, validPlayerIds, toDatetime, toNumeric, i)
  {
    var m1 := FirstOccurrences(df, ScoreId);
    var c := CoercedScores(df, toDatetime, toNumeric);
    var m2 := Mask(c, HasPositiveScore);
    var pos := PositiveScores(df, toDatetime, toNumeric);
    var m3 := Mask(pos, (s: Score) => s.player_id in validPlayerIds);
    var k1, k2, k3 := Kept(m1), Kept(m2), Kept(m3);
    var idx := ScoreIndex(df, validPlayerIds, toDatetime, toNumeric);
    FirstOccurrencesAt(df, ScoreId);
    ScoreStagesAt(df, toDatetime, toNumeric);
    var k :| 0 <= k < |idx| && idx[k] == i;
    var q := k3[k];
    var p := k2[q];
    assert k1[p] == i;
    assert m1[i];
    assert m2[p] && c[p] == CoerceScore(df[i], toDatetime, toNumeric);
    assert m3[q] && pos[q] == c[p];
  }

  /** A row that is the first with its id and passes the filters is kept. */
  lemma ScoreIndexComplete(df: seq<RawScore>, validPlayerIds: set<int>,
                           toDatetime: string -> Option<Timestamp>,
                           toNumeric: string -> Option<real>, i: int)
    requires 0 <= i < |df| && SurvivesScoreCleaning(df, validPlayerIds, toDatetime, toNumeric, i)
    ensures i in ScoreIndex(df, validPlayerIds, toDatetime, toNumeric)
  {
    var m1 := FirstOccurrences(df, ScoreId);
    var c := CoercedScores(df, toDatetime, toNumeric);
    var m2 := Mask(c, HasPositiveScore);
    var pos := PositiveScores(df, toDatetime, toNumeric);
    var m3 := Mask(pos, (s: Score) => s.player_id in validPlayerIds);
    var k1, k2, k3 := Kept(m1), Kept(m2), Kept(m3);
    var idx := ScoreIndex(df, validPlayerIds, toDatetime, toNumeric);
    FirstOccurrencesAt(df, ScoreId);
    ScoreStagesAt(df, toDatetime, toNumeric);
    assert m1[i];
    KeptAt(m1, i);
    var p := |Kept(m1[..i])|;
    assert m2[p];
    KeptAt(m2, p);
    var q := |Kept(m2[..p])|;
    assert m3[q];
    KeptAt(m3, q);
    var k := |Kept(m3[..q])|;
    assert idx[k] == i;
  }

  /** The cleaned scores are the input rows that survive, in input order, each coerced; row `i`
      is kept exactly when it is the first with its score id and passes the filters. */
  lemma TransformScoresRows(df: seq<RawScore>, validPlayerIds: set<int>,
                            toDatetime: string -> Option<Timestamp>,
                            toNumeric: string -> Option<real>)
    ensures var out := TransformScores(df, validPlayerIds, toDatetime, toNumeric);
            var idx := ScoreIndex(df, validPlayerIds, toDatetime, toNumeric);
            && |out| == |idx| <= |df|
            && Ascending(idx)
            && (forall k :: 0 <= k < |idx| ==>
                  idx[k] < |df| && out[k] == CoerceScore(df[idx[k]], toDatetime, toNumeric))
            && (forall i :: 0 <= i < |df| ==>
                  (i in idx <==> SurvivesScoreCleaning(df, validPlayerIds, toDatetime, toNumeric, i)))
  {
    ScoreIndexShape(df, validPlayerIds, toDatetime, toNumeric);
    forall i | 0 <= i < |df|
      ensures i in ScoreIndex(df, validPlayerIds, toDatetime, toNumeric)
              <==> SurvivesScoreCleaning(df, validPlayerIds, toDatetime, toNumeric, i)
    {
      if i in ScoreIndex(df, validPlayerIds, toDatetime, toNumeric) {
        ScoreIndexSound(df, validPlayerIds, toDatetime, toNumeric, i);
      }
      if SurvivesScoreCleaning(df, validPlayerIds, toDatetime, toNumeric, i) {
        ScoreIndexComplete(df, validPlayerIds, toDatetime, toNumeric, i);
      }
    }
  }

  /** No two cleaned scores share a score id. */
  lemma ScoresHaveUniqueIds(df: seq<RawScore>, validPlayerIds: set<int>,
                            toDatetime: string -> Option<Timestamp>,
                            toNumeric: string -> Option<real>)
    ensures var out := TransformScores(df, validPlayerIds, toDatetime, toNumeric);
            forall a, b :: 0 <= a < b < |out| ==> out[a].score_id != out[b].score_id
  {
    TransformScoresRows(df, validPlayerIds, toDatetime, toNumeric);
    var out := TransformScores(df, validPlayerIds, toDatetime, toNumeric);
    var idx := ScoreIndex(df, validPlayerIds, toDatetime, toNumeric);
    forall a, b | 0 <= a < b < |out|
      ensures out[a].score_id != out[b].score_id
    {
      assert idx[b] in idx;
      assert IsFirst(df, ScoreId, idx[b]);
      assert ScoreId(df[idx[a]]) != ScoreId(df[idx[b]]);
    }
  }

  /** Every cleaned score is present and strictly positive and names a known player. */
  lemma ScoresPassFilters(df: seq<RawScore>, validPlayerIds: set<int>,
                          toDatetime: string -> Option<Timestamp>,
                          toNumeric: string -> Option<real>)
    ensures var out := TransformScores(df, validPlayerIds, toDatetime, toNumeric);
            forall k :: 0 <= k < |out| ==>
              out[k].score.Some? && out[k].score.value > 0.0 && out[k].player_id in validPlayerIds
  {
    TransformScoresRows(df, validPlayerIds, toDatetime, toNumeric);
    var out := TransformScores(df, validPlayerIds, toDatetime, toNumeric);
    var idx := ScoreIndex(df, validPlayerIds, toDatetime, toNumeric);
    forall k | 0 <= k < |out|
      ensures out[k].score.Some? && out[k].score.value > 0.0 && out[k].player_id in validPlayerIds
    {
      assert idx[k] in idx;
    }
  }

  /** Cleaned fields: `score` is what `toNumeric` reads from the raw cell and `played_at` what
      `toDatetime` reads, each missing when its cell is missing; the other columns pass through. */
  lemma ScoresCleanedFields(df: seq<RawScore>, validPlayerIds: set<int>,
                            toDatetime: string -> Option<Timestamp>,
                            toNumeric: string -> Option<real>)
    ensures var out := TransformScores(df, validPlayerIds, toDatetime, toNumeric);
            var idx := ScoreIndex(df, validPlayerIds, toDatetime, toNumeric);
            forall k :: 0 <= k < |out| ==>
              var row := df[idx[k]];
              && out[k].score_id == row.score_id && out[k].player_id == row.player_id
              && (row.score.None? ==> out[k].score.None?)
              && (row.score.Some? ==> out[k].score == toNumeric(row.score.value))
              && (row.played_at.None? ==> out[k].played_at.None?)
              && (row.played_at.Some? ==> out[k].played_at == toDatetime(row.played_at.value))
              && out[k].game == row.game && out[k].duration_minutes == row.duration_minutes
              && out[k].platform == row.platform
  {
    TransformScoresRows(df, validPlayerIds, toDatetime, toNumeric);
  }

  /** Deduplication comes before the filters: when the first row with some score id fails a
      filter, no row with that id is kept, even if a later row with the id would pass. */
  lemma ScoresNoResurrection(df: seq<RawScore>, validPlayerIds: set<int>,
                             toDatetime: string -> Option<Timestamp>,
                             toNumeric: string -> Option<real>, i: int)
    requires 0 <= i < |df| && IsFirst(df, ScoreId, i)
    requires !Accepted(CoerceScore(df[i], toDatetime, toNumeric), validPlayerIds)
    ensures var out := TransformScores(df, validPlayerIds, toDatetime, toNumeric);
            forall k :: 0 <= k < |out| ==> out[k].score_id != df[i].score_id
  {
    TransformScoresRows(df, validPlayerIds, toDatetime, toNumeric);
    var out := TransformScores(df, validPlayerIds, toDatetime, toNumeric);
    var idx := ScoreIndex(df, validPlayerIds, toDatetime, toNumeric);
    forall k | 0 <= k < |out|
      ensures out[k].score_id != df[i].score_id
    {
      var j := idx[k];
      assert j in idx;
      assert IsFirst(df, ScoreId, j);
      if j == i {
        assert false;
      }
    }
  }

  // ---------------------------------------------------------------------------------------
  // The composition in the pipeline's entry point

  /** `set(df_players_clean['player_id'])`. */
  function PlayerIds(players: seq<Player>): (ids: set<int>) {
    set k | 0 <= k < |players| :: players[k].player_id
  }

  /** With the valid ids taken from the cleaned players, every cleaned score refers to a
      cleaned player. */
  lemma CleanScoresReferenceCleanPlayers(players: seq<RawPlayer>, scores: seq<RawScore>,
                                         toDatetime: string -> Option<Timestamp>,
                                         toNumeric: string -> Option<real>)
    ensures var cleanPlayers := TransformPlayers(players, toDatetime);
            var cleanScores := TransformScores(scores, PlayerIds(cleanPlayers), toDatetime, toNumeric);
            forall k :: 0 <= k < |cleanScores| ==> cleanScores[k].player_id in PlayerIds(cleanPlayers)
  {
    var cleanPlayers := TransformPlayers(players, toDatetime);
    var cleanScores := TransformScores(scores, PlayerIds(cleanPlayers), toDatetime, toNumeric);
    ScoresPassFilters(scores, PlayerIds(cleanPlayers), toDatetime, toNumeric);
  }
}
