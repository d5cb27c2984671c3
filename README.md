# gametracker ETL core in Dafny

gametracker is a small extract–transform–load pipeline for game statistics. It reads raw
player and score records from CSV files, cleans them, and upserts them into a MySQL database.
This project models and proves properties of the two stages that hold logic:

- **Record cleaning** (`src/transform.py`).
  - `transform_players` drops rows with a repeated `player_id`, keeping the first.
  - It then strips whitespace from `username` and drops rows with a repeated stripped username, keeping the first.
  - Finally it parses `registration_date` and nulls every `email` without an `@`.
  - `transform_scores` drops rows with a repeated `score_id`, keeping the first.
  - It then parses `played_at` and `score`, keeps only strictly positive scores, and keeps only rows whose `player_id` is in a given set.
  - Both are pure functions over sequences of rows (module `Transform`). They are built from frame primitives in module `Frames`:
    - boolean-mask selection;
    - the surviving index labels;
    - `drop_duplicates(keep='first')`.
  - Python's `str.strip` is modelled in module `Text`.
- **Upsert loading** (`src/load.py`).
  - `load_players` and `load_scores` run one `INSERT ... ON DUPLICATE KEY UPDATE` per row, in row order, and count the rows.
  - The database is a class `Load.Database`. It has one `map` field per table, keyed by primary key.
  - The loaders are methods with `while` loops. They are proved to leave each table equal to a left fold of per-row upserts (module `Upsert`), and to return the row count.
  - Lemmas about that fold state the table-level promises: last write wins, keys and frame, untouched columns, and idempotence.
  - Dates are written with `strftime`. Module `Timestamps` models those formats and proves that the written text reads back as the same day or the same second.

Cells that pandas holds as NaN/NaT/None are `Option` values, and `None == None`. This matches
`drop_duplicates`, which treats two missing usernames as duplicates.

`pd.to_datetime` and `pd.to_numeric` with `errors='coerce'` are function parameters. Each
reads a cell into `Some(value)` or reports it unreadable with `None`. Parsed timestamps have
pandas' range, years 1677 to 2262, so `%Y` always prints four digits.

Three behaviours of the SQL and of the loader shape the model:

- On a key conflict, the SQL overwrites only the columns it names:
  - For players these are `username`, `email` and `registration_date`.
  - For scores these are `score` and `played_at`.
  - So an existing score keeps its `player_id`.
- Within one batch, a repeated new `score_id` is inserted by its first row and updated by its
  later rows. The stored row therefore has the first row's `player_id` and the last row's
  `score` and `played_at` (`Load.ReplayScores`).
- The loader passes `username` as it is, not through the null check applied to `email`.

## Model

| member | source | states |
|---|---|---|
| Frames.Kept | src/transform.py:14-47 | the index labels kept by a boolean mask are in range and select only rows whose mask entry is true |
| Frames.KeptAscending | src/transform.py:14 | the kept index labels are strictly increasing, i.e. selection preserves row order |
| Frames.KeptAt | src/transform.py:45 | every row whose mask entry is true is kept, at the rank given by the true entries before it |
| Frames.Where | src/transform.py:45 | `df[mask]` has one row per kept label, and row k is the input row at the k-th kept label |
| Frames.FirstOccurrencesAt | src/transform.py:14 | `~duplicated(keep='first')` is true at a row exactly when no earlier row has its key |
| Frames.DropDuplicatesUnique | src/transform.py:14 | after `drop_duplicates(subset=key)` no two rows share a key |
| Frames.DropDuplicatesFirstWins | src/transform.py:14 | the first row with each key is kept and every kept row is a first row; the set of keys is unchanged |
| Text.TrimStart | src/transform.py:16 | strips exactly the leading Python whitespace: the result is a suffix that starts with a non-space, and everything dropped is whitespace |
| Text.TrimEnd | src/transform.py:16 | the same for trailing whitespace |
| Text.StripIsTrimmedSlice | src/transform.py:16 | `str.strip` yields a slice of the input with no whitespace at either end, and only whitespace outside it |
| Text.StripIdempotent | src/transform.py:16 | stripping leaves stripped text unchanged, so stripping twice equals stripping once |
| Text.StripCell | src/transform.py:16 | `.str.strip()` on a column keeps a missing cell missing, and a present cell becomes exactly its text stripped, which has no whitespace at either end |
| Transform.TransformPlayersRows | src/transform.py:11-24 | the cleaned players are the input rows surviving both deduplications, in input order, with at most as many rows as the input. Row i survives exactly when it is the first with its id and no earlier first-by-id row has the same stripped username. Each output row is its input row with the username stripped, the date parsed and the email checked |
| Transform.PlayersHaveUniqueIds | src/transform.py:14 | no two cleaned players share a `player_id` |
| Transform.PlayersHaveUniqueStrippedUsernames | src/transform.py:16-18 | every cleaned username is stripped, and no two cleaned players share one |
| Transform.PlayersCleanedFields | src/transform.py:20-24 | each cleaned field: id, country and level pass through; the username is stripped; the email is kept exactly when it contains `@`; the date is present exactly when it parses, and then it is the parsed value |
| Transform.TransformScoresRows | src/transform.py:36-47 | the cleaned scores are the input rows that are first with their `score_id`, have a positive parsed score and a listed player, in input order. Each is coerced field by field |
| Transform.ScoresHaveUniqueIds | src/transform.py:39 | no two cleaned scores share a `score_id` |
| Transform.ScoresPassFilters | src/transform.py:43-47 | every cleaned score is present and strictly positive, and its `player_id` is in `valid_player_ids` |
| Transform.ScoresCleanedFields | src/transform.py:41-43 | each cleaned score's `score` is what `to_numeric` reads from its raw cell and its `played_at` what `to_datetime` reads, each missing when the cell is missing; `score_id`, `player_id`, `game`, `duration_minutes` and `platform` pass through |
| Transform.ScoresNoResurrection | src/transform.py:39-47 | when the first row with a `score_id` fails a filter, no row with that id is kept, because deduplication comes first |
| Transform.CleanScoresReferenceCleanPlayers | src/main.py:13-15 | with `valid_player_ids` taken from the cleaned players, every cleaned score names a cleaned player |
| Timestamps.FormatDate | src/load.py:28 | `strftime('%Y-%m-%d')` is ten characters, digits with `-` at positions 4 and 7 |
| Timestamps.FormatDateTime | src/load.py:60 | `strftime('%Y-%m-%d %H:%M:%S')` is the date text, a space, then zero-padded two-digit hour, minute and second separated by `:` |
| Timestamps.DateRoundTrip | src/load.py:28 | the written registration date reads back as the same calendar day |
| Timestamps.DateTimeRoundTrip | src/load.py:60 | the written play time reads back as the same timestamp truncated to the second |
| Timestamps.FormatDateExact | src/load.py:28 | two timestamps give the same date text exactly when they fall on the same day |
| Timestamps.FormatDateTimeExact | src/load.py:60 | two timestamps give the same date-time text exactly when they agree to the second |
| Upsert.UpsertOne | src/load.py:13-21 | one upsert adds the row's key, leaves every other key's row unchanged, and stores the written row under the key |
| Upsert.UpsertAllAt | src/load.py:23-31 | after the loop, each key's row is the old row with that key's statements replayed in input order |
| Upsert.UpsertAllKeys | src/load.py:23-31 | after the loop, the key set is the old one united with the frame's keys |
| Upsert.UpsertAllFrame | src/load.py:23-31 | a key no row carries keeps its old row |
| Upsert.LastRowWithKey | src/load.py:23-31 | the last statement for a key is the last row of the frame with that key |
| Upsert.FirstRowWithKey | src/load.py:55-63 | the first statement for a key is the first row of the frame with that key |
| Load.PlayerParams | src/load.py:24-29 | id, username and email are passed unchanged; a missing date is passed as NULL; a present one as ten-character text naming its day, never empty |
| Load.ReplayPlayers | src/load.py:17-20 | repeated player statements for one key: the last decides username, email and date, and the rest is the row stored before the batch |
| Load.LoadPlayersKeys | src/load.py:13-21 | after `load_players` the key set is the old one united with the frame's ids, and players outside the frame are unchanged |
| Load.LoadPlayersLastWriteWins | src/load.py:13-30 | each id's stored username, email and date are those of the last frame row with that id |
| Load.LoadPlayersKeepsUnwrittenColumns | src/load.py:14-20 | `country` and `level` are never written: kept for existing players, NULL for new ones |
| Load.LoadPlayersIdempotent | src/load.py:17-20 | loading the same player frame twice gives the table of loading it once |
| Load.ScoreParams | src/load.py:56-61 | ids and score are passed unchanged, a missing score or time as NULL; a present time as nineteen-character text naming it to the second |
| Load.ReplayScores | src/load.py:50-52 | repeated score statements for one key: the first decides the inserted row and so its `player_id`, and the last decides `score` and `played_at` |
| Load.LoadScoresKeys | src/load.py:46-53 | after `load_scores` the key set is the old one united with the frame's ids, and scores outside the frame are unchanged |
| Load.LoadScoresLastWriteWins | src/load.py:46-62 | each id's stored score and time are those of the last frame row with that id |
| Load.LoadScoresKeepsUnwrittenColumns | src/load.py:47-52 | an existing score keeps `player_id`, `game`, `duration_minutes` and `platform`; a new one takes the first frame row's `player_id` and NULL in the other three |
| Load.LoadScoresIdempotent | src/load.py:50-52 | loading the same score frame twice gives the table of loading it once |
| Load.Database.LoadPlayers | src/load.py:4-34 | the players table becomes the per-row upsert fold of the frame, the scores table is untouched, and the returned count is the number of rows |
| Load.Database.LoadScores | src/load.py:37-66 | the scores table becomes the per-row upsert fold of the frame, the players table is untouched, and the returned count is the number of rows |

## Left out

- `src/report.py`: the aggregation runs in SQL. What is left is float formatting, the clock, file writing and cursor handling.
- `src/main.py`: only its derivation of `valid_player_ids` is modelled, in `Transform.CleanScoresReferenceCleanPlayers`. The CSV paths, `extract` and the connection context manager are not.
- `pd.to_datetime` and `pd.to_numeric` are parameters applied cell by cell. pandas infers one date format for a whole column, which the model does not capture.
- `to_numeric` can yield infinities, and the model's score is an exact `real`. Only the comparison with zero uses the score.
- MySQL also fires `ON DUPLICATE KEY UPDATE` on the UNIQUE index on `username`. The model keys each table on its primary key only, because the schema is not part of this model.
- Columns that the INSERT does not name take their schema defaults. These are `country` and `level` for players, and `game`, `duration_minutes` and `platform` for scores. The model uses NULL, because the schema is not part of this model.
- The `int(...)` and `float(...)` conversions in the loader, and their failures, are left out. Ids are integers in the model.
- Cells of a type other than text in a text column are left out. There `.str.strip()` turns such a cell into NaN, and `.str.contains('@', na=False)` gives False for it, so its email becomes None.
- The error path for a column that holds no text at all is left out. Examples are every `username` or every `email` empty in the file, or all numeric. pandas then reads the column as numbers, and `.str` on it raises `AttributeError`, so `transform_players` fails at src/transform.py:16 or src/transform.py:24. The model always holds these cells as optional text and returns a frame.
- A missing `username` is passed to the driver as NaN. The model passes it as NULL.
- Transactions, commits, cursors and driver errors are left out. Every statement is taken to succeed.
- `print` diagnostics are left out.
