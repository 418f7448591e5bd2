# NBA info backend: caches, rate limiter and search post-processing in Dafny

This project models the sequential logic of the Python backend of the
nba_info_display application, a web client for NBA standings, games and
players. Four pieces are modelled.

- **Call queue** (`backend/callQueue.py`). This is the rate limiter every
  request to the statistics service goes through. `addCall` grants a slot
  (`Call`) at `max(now, last_request + delay)`. It then moves `last_request`
  to that slot and counts the call. `reset` forgets the history.
- **Boxscore lookup** (`backend/boxscores.py`). Results are cached per game
  for 30 seconds. On a cache miss the id is checked: a non-string raises
  `TypeError`, and anything other than ten digits raises `ValueError`. Then
  the answers of the two boxscore endpoints decide the outcome: nothing, a
  summary-only result, or a result filled from the team rows. Only results
  that are returned are cached.
- **Standings lookup** (`backend/standings.py`). Results are cached per
  season for 60 seconds. A failed request returns `{}`. The league table is
  reduced to twelve renamed columns plus a logo URL built from the team id,
  then split, in table order, into the East and West conferences.
- **Player search** (`searchPlayers` in `backend/players.py`). Each player
  found by the name lookup becomes a record with a headshot URL. The
  records are then sorted stably on `not active`, so active players come
  first.

Clock readings (`monotonic()`, `time()`) are a `now: real` parameter. What
the remote endpoints answer is a parameter too:

- `BoxscoreSource` for the two boxscore endpoints;
- `Option<seq<RawStandingsRow>>` for the league table;
- `seq<FoundPlayer>` for the player-name lookup.

A Python exception becomes `Raised(error)` in `Wrappers.Outcome`. A
returned value becomes `Returned(value)`.

The stateful objects are Dafny classes. `CallQueue`, `Boxscores` and
`Standings` keep their fields and dictionaries (`map`s) as fields. Their
methods are proved against the pure functions `ScheduledTime`, `MissResult`
and `BuildStandings`, and the properties are proved about those functions.

- `CallQueue` keeps a ghost history of the slots it granted since the last
  reset. Its invariant says consecutive slots are at least `delay` apart.
- Both caches keep an invariant: every cached key has an access time.
  - In `Boxscores`, only validated game ids are ever recorded, and every cached
    score has the documented shape.
  - In `Standings`, every cached result is a full result whose `season` is its
    own key.

`PlayerStats` (backend/players.py:61-62) is an empty class: the code has no
player-comparison logic, and none is modelled.

## Model

| member | source | states |
|---|---|---|
| `CallQueues.ScheduledTime` | backend/callQueue.py:23-28 | the granted slot is no earlier than `now` and no earlier than `last_request + delay`, and it equals one of the two: it is their maximum |
| `CallQueues.ReadyAtOnceIffDelayElapsed` | backend/callQueue.py:8-9 | with `Call.IsReady` (`now >= ready_time`, as `isReady` compares the clock with `ready_time`), a new call is ready at the moment it is made exactly when `now - last_request >= delay`; otherwise its slot is `last_request + delay` |
| `CallQueues.ReadyStaysReady` | backend/callQueue.py:8-9 | `isReady` compares the clock with `ready_time`, so a call that is ready stays ready later |
| `CallQueues.ReadyTimes` | backend/callQueue.py:21-32 | a run of `addCall` made at the given times yields one slot per call, each the `ScheduledTime` after the slot before it |
| `CallQueues.ReadyTimesSpaced` | backend/callQueue.py:21-32 | in any run of `addCall`, consecutive slots are at least `delay` apart, no slot is before its call, and the first slot is at least `delay` after the previous one |
| `CallQueues.SpacedWindow` | backend/callQueue.py:24-28 | rate limit over a window: a slot `j - i` calls after another is at least `(j - i) * delay` later |
| `CallQueues.SpacedMonotone` | backend/callQueue.py:24-28 | with a non-negative delay, slots never go backwards |
| `CallQueues.CallQueue.constructor` | backend/callQueue.py:12-16 | the queue starts with the given delay, `last_request` 0 and no calls |
| `CallQueues.CallQueue.AddCall` | backend/callQueue.py:21-32 | the slot is `ScheduledTime`; afterwards `last_request` is that slot, `total_calls` has gone up by one, `delay` is unchanged and the spacing invariant still holds |
| `CallQueues.CallQueue.Reset` | backend/callQueue.py:34-37 | `last_request` and `total_calls` go back to 0; `delay` is unchanged |
| `Decimal.NatToDecimal` | backend/players.py:20 | an id is rendered as at least one decimal digit, with no leading zero |
| `Decimal.DecimalRoundTrip` | backend/standings.py:45 | reading the rendered digits back gives the id |
| `Decimal.IntToDecimalInjective` | backend/standings.py:45 | two ids render alike exactly when they are equal |
| `Decimal.TemplateInjective` | backend/players.py:20 | a URL made of a fixed prefix, a rendered id and a fixed suffix determines the id |
| `Boxscores.TeamFromRows` | backend/boxscores.py:80-94 | `team_i` takes id and city from team row `i` when that row exists, and is otherwise exactly `sample_team` (id and city `None`); `team_stats` and `player_stats` stay empty |
| `Boxscores.ValidGameId` | backend/boxscores.py:52-53 | a game id passes validation exactly when it has ten characters, all ASCII digits |
| `Boxscores.FillTeams` | backend/boxscores.py:86-94 | the loop over the team rows fills `team_0` and `team_1` from rows 0 and 1 in order; a third row raises `KeyError` |
| `Boxscores.MissResult` | backend/boxscores.py:49-97 | on a cache miss: `TypeError` exactly for a non-string; `ValueError` exactly for a string that is not ten digits; `None` exactly when there are no player rows or both requests fail; a returned score has `score_exists` exactly when the traditional boxscore was found, empty teams otherwise, and teams from the rows in order |
| `Boxscores.Boxscores.constructor` | backend/boxscores.py:17-22 | both caches start empty, the call queue is kept and the wait time is 30 seconds |
| `Boxscores.Boxscores.GetBoxscore` | backend/boxscores.py:45-100 | a fresh cache entry (at most 30 s old) is returned before any validation, with nothing changed; otherwise the result is `MissResult`; the access time becomes `now` once a request has produced data; exactly the returned non-None score is cached |
| `Boxscores.TomatoIsRejected` | backend/unit_boxscores.py:23-26 | the id "tomato" raises `ValueError` |
| `Standings.LogoHrefInjective` | backend/standings.py:45 | `img_href` is `https://cdn.nba.com/logos/nba/<id>/primary/D/logo.svg`, and distinct team ids get distinct logo URLs |
| `Standings.Project` | backend/standings.py:29-45 | one output record per table row, carrying all twelve renamed columns of that row (name, city, id, conference, clinch, seed, wins, losses, pct, gamesBack, streak, diff) and the logo URL of its own id |
| `Standings.ProjectIgnoresOtherColumns` | backend/standings.py:44 | columns outside the twelve selected ones do not affect the output |
| `Standings.BuildStandings` | backend/standings.py:47-61 | a result exists exactly when the table has both an East and a West row (otherwise `conferences["East"]` or `["West"]` raises `KeyError`); its `season` is the requested season id |
| `Standings.ConferenceSplit` | backend/standings.py:45-61 | `east` holds every East row of the projected table and nothing else, in table order; the same holds for `west`; every record's `img_href` is its own team's logo |
| `Standings.Standings.constructor` | backend/standings.py:9-15 | both caches start empty and the wait is 60 seconds |
| `Standings.Standings.GetStandings` | backend/standings.py:17-65 | a fresh cache entry (at most 60 s old) is returned unchanged; a failed request returns `{}` and changes nothing; after a successful request `last_access` becomes `now`, and the result is cached only once it is built, so a missing conference raises `KeyError` with the access time updated and the result not cached |
| `Sequences.Keep` | backend/standings.py:47-55 | selection by a predicate returns only qualifying rows, and returns none exactly when no row qualifies |
| `Sequences.KeepSelectsInOrder` | backend/standings.py:47-55 | the selected rows are every qualifying row, in their original order (a group-by group keeps row order) |
| `Sequences.KeepSplitsMultiset` | backend/players.py:22 | splitting records by a key and by its negation loses and duplicates nothing |
| `Players.HeadshotUrlInjective` | backend/players.py:20 | `player_headshot` is `https://cdn.nba.com/headshots/nba/latest/1040x760/<id>.png`, and distinct player ids get distinct URLs |
| `Players.ToRecord` | backend/players.py:16-21 | one found player becomes the record with its `id`, `full_name`, `is_active` and headshot URL |
| `Players.Records` | backend/players.py:14-21 | the append loop gives one record per found player |
| `Players.RecordsAt` | backend/players.py:15-21 | record `k` has the `id`, `full_name` and `is_active` of found player `k` as `player_id`, `player_name` and `active`, and the headshot URL of that id |
| `Players.SortKey` | backend/players.py:9-10 | the sort key is `not active`, so active players (key False) sort first |
| `Players.ActiveFirst` | backend/players.py:22 | the sorted records are the same records (same multiset, same length) as the input |
| `Players.ActiveFirstIsStableSort` | backend/players.py:9-10 | putting the active records first, then the inactive ones, each group in input order, is a stable sort by `not active`: same records, ordered by the key, and each key's records in input order |
| `Players.StableSortIsUnique` | backend/players.py:22 | any result that meets the stable-sort promise equals `ActiveFirst`, so `ActiveFirst` is exactly what `res.sort(key=_sortFunc)` produces |
| `Players.SortedMeansActiveFirst` | backend/players.py:9-10 | in a sequence ordered by `_sortFunc`, every active player comes before every inactive player |
| `Players.SearchResultProperties` | backend/players.py:12-23 | the sorted search result has one record per found player, is a stable sort of the records, puts active players first, and every record is the record of a found player |
| `Players.SearchPlayers` | backend/players.py:12-23 | the append loop builds the records in lookup order and the sort yields `ActiveFirst` of them, with the properties above |

## Left out

- Remote requests are not modelled: the `nba_api` endpoints `BoxScoreTraditionalV3`, `BoxScoreSummaryV3` and `LeagueStandingsV3`, and `find_players_by_full_name`. Their answers are parameters, so the model says nothing about what the service returns. The constants `_LEAGUE_ID` and `_SEASON_TYPE` only shape the standings request and are not modelled.
- pandas is not modelled. The rename, column selection, new column and `groupby(...).to_dict(orient="records")` are modelled by their effect on a sequence of records. Rows whose conference is missing (NaN), which `groupby` drops, cannot occur, because every conference is a string here.
- Clocks and sleeping are not modelled. Time is a `real` parameter, not a floating-point value.
- Boxscores.Boxscores.GetBoxscore: the source reads the clock once for the cache check and again after the requests. The model uses the single instant `now` for both readings.
- Standings.Standings.GetStandings: the source reads `time()` once for the cache check and again after the request. The model uses the single instant `now` for both readings.
- Boxscores.MissResult: `str.isnumeric` also accepts non-ASCII numerals. The model accepts only the ASCII digits `0`-`9`, so it rejects some ids that Python accepts.
- Boxscores.MissResult: a non-string argument is a single `NotStr` value. The model does not distinguish an unhashable argument, which already raises `TypeError` in the cache check. The outcome is the same `TypeError`.
- `_getTeamStatsDf` (backend/boxscores.py:24-43) selects and renames fourteen statistic columns that `getBoxscore` never reads. A `TeamRow` keeps only the team id and city.
- The `threading.Lock` in `CallQueue` is not modelled. `AddCall` and `Reset` are atomic; concurrency is out of scope.
- `CallQueue.__repr__` is not modelled: it only formats floats as a string.
- `Call` is a value (a datatype), because nothing updates its `ready_time` after construction.
- `Statline` is modelled as a record datatype only; `int | float` fields are reals. `PlayerStatsOut`, `PlayerStatInterface` and the empty `PlayerStats` have no behaviour and are not modelled.
- The `player_name` argument of `searchPlayers` is only passed to the lookup, so the model takes the lookup's result instead.
- backend/games.py is not part of this model. `getGamesFromDay` fetches and then returns nothing, and its only logic is the call-queue wait.
- backend/main.py is not part of this model: routes, CORS, dotenv and date parsing. It calls `Standings(call_queue)`, but the constructor takes no argument; the constructor is modelled as written.
- backend/news.py, the frontend and the unit tests are not modelled: schemas, UI and live-service tests. The unit tests serve only as evidence for the properties.
