/** The boxscore lookup of backend/boxscores.py: a per-game cache kept for 30
    seconds, game-id validation, and the skeleton built from what the two
    boxscore endpoints return. The endpoints' answers and the clock are
    parameters. */
module Boxscores {
  import opened Wrappers
  import Decimal
  import CallQueues

  /** The argument handed to getBoxscore: a Python `str`, or anything else. */
  datatype GameIdArg = Str(s: string) | NotStr

  /** Ten characters, all of them digits. */
  predicate ValidGameId(s: string)
  {
    |s| == 10 && Decimal.AllDigits(s)
  }

  /** One row of the traditional boxscore's team table, reduced to the two
      columns the lookup reads. */
  datatype TeamRow = TeamRow(teamId: int, teamCity: string)

  /** What the remote service answers for a valid id:
      - FullBoxscore: the traditional boxscore exists, with this many player
        rows and these team rows;
      - SummaryOnly: the traditional boxscore fails but the summary exists;
      - NotFound: both requests fail. */
  datatype BoxscoreSource =
    | FullBoxscore(playerRows: nat, teamRows: seq<TeamRow>)
    | SummaryOnly
    | NotFound

  /** A `team_i` entry: the empty dict, or the four-key team dict. */
  datatype TeamEntry =
    | EmptyTeam
    | Team(teamId: Option<int>, teamCity: Option<string>,
           teamStats: map<string, real>, playerStats: map<string, real>)

  /** The result dict: `team_0`, `team_1` and `score_exists`. */
  datatype Score = Score(team0: TeamEntry, team1: TeamEntry, scoreExists: bool)

  /** `sample_team`: no id, no city, empty statistics. */
  const SampleTeam: TeamEntry := Team(None, None, map[], map[])

  /** The entry for team `i` once the rows are read: row `i` fills id and city
      if present; otherwise the entry stays the sample. */
  function TeamFromRows(rows: seq<TeamRow>, i: nat): (t: TeamEntry)
    ensures t.Team? && t.teamStats == map[] && t.playerStats == map[]
    ensures i < |rows| <==> t.teamId.Some?
    ensures i < |rows| ==> t.teamId == Some(rows[i].teamId) && t.teamCity == Some(rows[i].teamCity)
    ensures i >= |rows| ==> t == SampleTeam
  {
    if i < |rows| then Team(Some(rows[i].teamId), Some(rows[i].teamCity), map[], map[])
    else SampleTeam
  }

  /** The shape every stored or returned score has. */
  predicate WellFormed(s: Score)
  {
    && (s.scoreExists ==> s.team0.Team? && s.team1.Team?)
    && (!s.scoreExists ==> s.team0 == EmptyTeam && s.team1 == EmptyTeam)
    && (s.team0.Team? ==> s.team0.teamStats == map[] && s.team0.playerStats == map[])
    && (s.team1.Team? ==> s.team1.teamStats == map[] && s.team1.playerStats == map[])
  }

  /** Whether the lookup gets as far as recording an access time: the id is a
      valid string and one of the two requests produced data. */
  predicate Fetched(gameId: GameIdArg, source: BoxscoreSource)
  {
    && gameId.Str? && ValidGameId(gameId.s)
    && (source.SummaryOnly? || (source.FullBoxscore? && source.playerRows > 0))
  }

  /** What getBoxscore answers when the cache does not: the type and value
      checks, then the remote outcome. More than two team rows fail at
      `score["team_2"]`. */
  function MissResult(gameId: GameIdArg, source: BoxscoreSource): (r: Outcome<Option<Score>>)
    ensures r == Raised(TypeError) <==> gameId.NotStr?
    ensures r == Raised(ValueError) <==> gameId.Str? && !ValidGameId(gameId.s)
    ensures r == Raised(KeyError) <==> Fetched(gameId, source) && source.FullBoxscore? && |source.teamRows| > 2
    ensures r == Returned(None) <==>
              gameId.Str? && ValidGameId(gameId.s) && !Fetched(gameId, source)
    ensures r.Returned? && r.value.Some? ==>
              && Fetched(gameId, source)
              && WellFormed(r.value.value)
              && (r.value.value.scoreExists <==> source.FullBoxscore?)
    ensures r.Returned? && r.value.Some? && source.FullBoxscore? ==>
              && r.value.value.team0 == TeamFromRows(source.teamRows, 0)
              && r.value.value.team1 == TeamFromRows(source.teamRows, 1)
  {
    if gameId.NotStr? then Raised(TypeError)
    else if !ValidGameId(gameId.s) then Raised(ValueError)
    else match source
      case NotFound => Returned(None)
      case SummaryOnly => Returned(Some(Score(EmptyTeam, EmptyTeam, false)))
      case FullBoxscore(players, rows) =>
        if players == 0 then Returned(None)
        else if |rows| > 2 then Raised(KeyError)
        else Returned(Some(Score(TeamFromRows(rows, 0), TeamFromRows(rows, 1), true)))
  }

  /** The loop over the team table: row `i` fills `team_i`; a third row has no
      `team_2` to fill and raises KeyError. */
  method FillTeams(rows: seq<TeamRow>) returns (r: Outcome<(TeamEntry, TeamEntry)>)
    ensures r.Returned? <==> |rows| <= 2
    ensures r.Raised? ==> r.error == KeyError
    ensures r.Returned? ==> r.value == (TeamFromRows(rows, 0), TeamFromRows(rows, 1))
  {
    var team0, team1 := SampleTeam, SampleTeam;
    var i := 0;
    while i < |rows|
      invariant 0 <= i <= |rows| && i <= 2
      invariant team0 == if i > 0 then TeamFromRows(rows, 0) else SampleTeam
      invariant team1 == if i > 1 then TeamFromRows(rows, 1) else SampleTeam
    {
      if i == 0 {
        team0 := team0.(teamId := Some(rows[i].teamId), teamCity := Some(rows[i].teamCity));
      } else if i == 1 {
        team1 := team1.(teamId := Some(rows[i].teamId), teamCity := Some(rows[i].teamCity));
      } else {
        return Raised(KeyError);
      }
      i := i + 1;
    }
    r := Returned((team0, team1));
  }

  /** The lookup service (class Boxscores). */
  class Boxscores {
    var boxscores: map<string, Score>
    var lastAccess: map<string, real>
    const callQueue: CallQueues.CallQueue
    const waitTime: real

    /** Every cached game has an access time; only validated ids are ever
        recorded, and cached scores have the documented shape. */
    ghost predicate Valid()
      reads this
    {
      && waitTime == 30.0
      && boxscores.Keys <= lastAccess.Keys
      && (forall id :: id in lastAccess ==> ValidGameId(id))
      && (forall id :: id in boxscores ==> WellFormed(boxscores[id]))
    }

    constructor (callQueue: CallQueues.CallQueue)
      ensures Valid()
      ensures boxscores == map[] && lastAccess == map[]
      ensures this.callQueue == callQueue
    {
      boxscores := map[];
      lastAccess := map[];
      this.callQueue := callQueue;
      waitTime := 30.0;
    }

    /** The cache answers: the game is cached and was fetched at most
        `waitTime` seconds before `now`. */
    predicate CacheHit(gameId: GameIdArg, now: real)
      reads this
      requires Valid()
    {
      gameId.Str? && gameId.s in boxscores && now - lastAccess[gameId.s] <= waitTime
    }

    method GetBoxscore(gameId: GameIdArg, now: real, source: BoxscoreSource)
      returns (r: Outcome<Option<Score>>)
      requires Valid()
      modifies this
      ensures Valid()
      ensures old(CacheHit(gameId, now)) ==>
                && r == Returned(Some(old(boxscores)[gameId.s]))
                && boxscores == old(boxscores) && lastAccess == old(lastAccess)
      ensures !old(CacheHit(gameId, now)) ==>
                && r == MissResult(gameId, source)
                && lastAccess == (if Fetched(gameId, source) then old(lastAccess)[gameId.s := now]
                                  else old(lastAccess))
                && boxscores == (if r.Returned? && r.value.Some? then old(boxscores)[gameId.s := r.value.value]
                                 else old(boxscores))
    {
      if gameId.Str? && gameId.s in boxscores && now - lastAccess[gameId.s] <= waitTime {
        return Returned(Some(boxscores[gameId.s]));
      }
      if gameId.NotStr? {
        return Raised(TypeError);
      }
      var id := gameId.s;
      if |id| != 10 || !Decimal.AllDigits(id) {
        return Raised(ValueError);
      }
      var scoreExists := true;
      match source {
        case FullBoxscore(players, _) =>
          if players == 0 {
            return Returned(None);
          }
        case SummaryOnly =>
          scoreExists := false;
        case NotFound =>
          return Returned(None);
      }
      lastAccess := lastAccess[id := now];
      var score := Score(EmptyTeam, EmptyTeam, scoreExists);
      if scoreExists {
        var teams := FillTeams(source.teamRows);
        if teams.Raised? {
          return Raised(teams.error);
        }
        score := score.(team0 := teams.value.0, team1 := teams.value.1);
      }
      boxscores := boxscores[id := score];
      r := Returned(Some(score));
    }
  }

  /** The id from the unit tests that must be refused: "tomato" is neither ten
      characters long nor numeric. */
  lemma TomatoIsRejected()
    ensures MissResult(Str("tomato"), NotFound) == Raised(ValueError)
  {
  }
}
