/** The standings lookup of backend/standings.py: a per-season cache kept for
    60 seconds, the projection of the league table to twelve renamed columns
    plus a logo URL, and its split into the two conferences. The league table
    (or the failure to get it) and the clock are parameters. */
module Standings {
  import opened Wrappers
  import Decimal
  import Sequences

  /** One row of the league standings table, with the twelve columns the
      lookup keeps and the others it drops. */
  datatype RawStandingsRow = RawStandingsRow(
    teamName: string, teamCity: string, teamId: int, conference: string,
    clinchIndicator: string, playoffRank: int, wins: int, losses: int,
    winPct: real, conferenceGamesBack: real, currentStreak: int,
    diffPointsPg: real, otherColumns: map<string, string>)

  /** One output record: the renamed columns and `img_href`. */
  datatype StandingsRow = StandingsRow(
    name: string, city: string, id: int, conference: string, clinch: string,
    seed: int, wins: int, losses: int, pct: real, gamesBack: real,
    streak: int, diff: real, imgHref: string)

  /** The answer: `{}` after a failed request, or the season and the two
      conferences' records. */
  datatype StandingsResponse =
    | EmptyResponse
    | SeasonStandings(season: string, east: seq<StandingsRow>, west: seq<StandingsRow>)

  const LogoPrefix := "https://cdn.nba.com/logos/nba/"
  const LogoSuffix := "/primary/D/logo.svg"

  function LogoHref(teamId: int): string
  {
    LogoPrefix + Decimal.IntToDecimal(teamId) + LogoSuffix
  }

  /** Each team id has its own logo URL. */
  lemma LogoHrefInjective(a: int, b: int)
    ensures LogoHref(a) == LogoHref(b) <==> a == b
  {
    Decimal.TemplateInjective(LogoPrefix, LogoSuffix, a, b);
  }

  /** The rename, the column selection and the `img_href` column for one row. */
  function ProjectRow(raw: RawStandingsRow): StandingsRow
  {
    StandingsRow(raw.teamName, raw.teamCity, raw.teamId, raw.conference,
                 raw.clinchIndicator, raw.playoffRank, raw.wins, raw.losses,
                 raw.winPct, raw.conferenceGamesBack, raw.currentStreak,
                 raw.diffPointsPg, LogoHref(raw.teamId))
  }

  /** The projected table, row for row. */
  function Project(raws: seq<RawStandingsRow>): (rows: seq<StandingsRow>)
    ensures |rows| == |raws|
    ensures forall k :: 0 <= k < |raws| ==>
              && rows[k].id == raws[k].teamId && rows[k].conference == raws[k].conference
              && rows[k].name == raws[k].teamName && rows[k].city == raws[k].teamCity
              && rows[k].clinch == raws[k].clinchIndicator && rows[k].seed == raws[k].playoffRank
              && rows[k].wins == raws[k].wins && rows[k].losses == raws[k].losses
              && rows[k].pct == raws[k].winPct && rows[k].gamesBack == raws[k].conferenceGamesBack
              && rows[k].streak == raws[k].currentStreak && rows[k].diff == raws[k].diffPointsPg
              && HasOwnLogo(rows[k])
  {
    if raws == [] then [] else [ProjectRow(raws[0])] + Project(raws[1..])
  }

  /** Two tables that differ only in the dropped columns project alike. */
  lemma {:induction false} ProjectIgnoresOtherColumns(raws: seq<RawStandingsRow>, others: seq<RawStandingsRow>)
    requires |raws| == |others|
    requires forall k :: 0 <= k < |raws| ==> others[k] == raws[k].(otherColumns := others[k].otherColumns)
    ensures Project(raws) == Project(others)
  {
    if raws != [] {
      ProjectIgnoresOtherColumns(raws[1..], others[1..]);
    }
  }

  predicate IsEast(row: StandingsRow) { row.conference == "East" }
  predicate IsWest(row: StandingsRow) { row.conference == "West" }

  /** Whether the table has a group for conference `c`. */
  predicate HasConference(raws: seq<RawStandingsRow>, c: string)
  {
    exists k :: 0 <= k < |raws| && raws[k].conference == c
  }

  /** The result built from a fetched table, or None where the lookup of the
      "East" or "West" group raises KeyError. */
  function BuildStandings(seasonId: string, raws: seq<RawStandingsRow>): (r: Option<StandingsResponse>)
    ensures r.Some? <==> HasConference(raws, "East") && HasConference(raws, "West")
    ensures r.Some? ==> r.value.SeasonStandings? && r.value.season == seasonId
  {
    var rows := Project(raws);
    var east, west := Sequences.Keep(rows, IsEast), Sequences.Keep(rows, IsWest);
    assert HasConference(raws, "East") <==> exists k :: 0 <= k < |rows| && IsEast(rows[k]);
    assert HasConference(raws, "West") <==> exists k :: 0 <= k < |rows| && IsWest(rows[k]);
    if east == [] || west == [] then None
    else Some(SeasonStandings(seasonId, east, west))
  }

  /** `east` is every East row of the projected table and nothing else, in
      table order; likewise `west`; every record carries its team's logo. */
  lemma ConferenceSplit(seasonId: string, raws: seq<RawStandingsRow>)
    requires HasConference(raws, "East") && HasConference(raws, "West")
    ensures Sequences.IsOrderedSelection(BuildStandings(seasonId, raws).value.east, Project(raws), IsEast)
    ensures Sequences.IsOrderedSelection(BuildStandings(seasonId, raws).value.west, Project(raws), IsWest)
    ensures LogosMatch(BuildStandings(seasonId, raws).value.east)
    ensures LogosMatch(BuildStandings(seasonId, raws).value.west)
  {
    var rows := Project(raws);
    KeptRowsKeepLogos(rows, IsEast);
    KeptRowsKeepLogos(rows, IsWest);
  }

  /** Whether a record's `img_href` is the logo URL of its own team id. */
  predicate HasOwnLogo(row: StandingsRow)
  {
    row.imgHref == LogoHref(row.id)
  }

  /** Every record's `img_href` is the logo URL of its own team id. */
  ghost predicate LogosMatch(rows: seq<StandingsRow>)
  {
    forall k :: 0 <= k < |rows| ==> HasOwnLogo(rows[k])
  }

  lemma KeptRowsKeepLogos(rows: seq<StandingsRow>, p: StandingsRow -> bool)
    requires LogosMatch(rows)
    ensures LogosMatch(Sequences.Keep(rows, p))
    ensures Sequences.IsOrderedSelection(Sequences.Keep(rows, p), rows, p)
  {
    var _ := Sequences.KeepSelectsInOrder(rows, p);
    Sequences.KeepPreserves(rows, p, HasOwnLogo);
  }

  /** The lookup service (class Standings). */
  class Standings {
    var items: map<string, StandingsResponse>
    var lastAccess: map<string, real>
    const pullWaitSeconds: real

    /** Every cached season has an access time, and a cached result is a full
        result for that very season. */
    ghost predicate Valid()
      reads this
    {
      && pullWaitSeconds == 60.0
      && items.Keys <= lastAccess.Keys
      && (forall id :: id in items ==> items[id].SeasonStandings? && items[id].season == id)
    }

    constructor ()
      ensures Valid()
      ensures items == map[] && lastAccess == map[]
    {
      items := map[];
      lastAccess := map[];
      pullWaitSeconds := 60.0;
    }

    /** The cache answers: the season is cached and was fetched at most
        `pullWaitSeconds` before `now`. */
    predicate CacheHit(seasonId: string, now: real)
      reads this
      requires Valid()
    {
      seasonId in items && now - lastAccess[seasonId] <= pullWaitSeconds
    }

    /** `fetched` is the league table, or None when the request fails. */
    method GetStandings(seasonId: string, now: real, fetched: Option<seq<RawStandingsRow>>)
      returns (r: Outcome<StandingsResponse>)
      requires Valid()
      modifies this
      ensures Valid()
      ensures old(CacheHit(seasonId, now)) ==>
                && r == Returned(old(items)[seasonId])
                && items == old(items) && lastAccess == old(lastAccess)
      ensures !old(CacheHit(seasonId, now)) && fetched.None? ==>
                && r == Returned(EmptyResponse)
                && items == old(items) && lastAccess == old(lastAccess)
      ensures !old(CacheHit(seasonId, now)) && fetched.Some? ==>
                && lastAccess == old(lastAccess)[seasonId := now]
                && match BuildStandings(seasonId, fetched.value)
                   case Some(res) => r == Returned(res) && items == old(items)[seasonId := res]
                   case None => r == Raised(KeyError) && items == old(items)
    {
      if seasonId in items && now - lastAccess[seasonId] <= pullWaitSeconds {
        return Returned(items[seasonId]);
      }
      if fetched.None? {
        return Returned(EmptyResponse);
      }
      lastAccess := lastAccess[seasonId := now];
      var built := BuildStandings(seasonId, fetched.value);
      if built.None? {
        return Raised(KeyError);
      }
      items := items[seasonId := built.value];
      r := Returned(built.value);
    }
  }
}
