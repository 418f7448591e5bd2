/** Player search post-processing (searchPlayers in backend/players.py): each
    player found by the name lookup becomes a record with a headshot URL, and
    the records are sorted so that active players come first, stably. The
    lookup's answer is a parameter. */
module Players {
  import Decimal
  import opened Sequences

  /** One player as the static players table returns it. */
  datatype FoundPlayer = FoundPlayer(id: int, fullName: string, firstName: string,
                                     lastName: string, isActive: bool)

  /** One search result record. */
  datatype PlayerRecord = PlayerRecord(playerId: int, playerName: string, active: bool,
                                       playerHeadshot: string)

  /** The statistics line declared for player statistics (class Statline);
      `int | float` fields are reals. */
  datatype Statline = Statline(
    pts: real, ast: real, reb: real, blk: real, stl: real, tov: real, pf: real,
    fga: real, fgm: real, fgPct: real, fg3a: real, fg3m: real, fg3Pct: real,
    fta: real, ftm: real, ftPct: real, oreb: real, dreb: real, efgPct: real)

  const HeadshotPrefix := "https://cdn.nba.com/headshots/nba/latest/1040x760/"
  const HeadshotSuffix := ".png"

  function HeadshotUrl(id: int): string
  {
    HeadshotPrefix + Decimal.IntToDecimal(id) + HeadshotSuffix
  }

  /** Each player id has its own headshot URL. */
  lemma HeadshotUrlInjective(a: int, b: int)
    ensures HeadshotUrl(a) == HeadshotUrl(b) <==> a == b
  {
    Decimal.TemplateInjective(HeadshotPrefix, HeadshotSuffix, a, b);
  }

  function ToRecord(p: FoundPlayer): PlayerRecord
  {
    PlayerRecord(p.id, p.fullName, p.isActive, HeadshotUrl(p.id))
  }

  /** The records of the found players, in lookup order. */
  function Records(ps: seq<FoundPlayer>): (rs: seq<PlayerRecord>)
    ensures |rs| == |ps|
  {
    if ps == [] then [] else [ToRecord(ps[0])] + Records(ps[1..])
  }

  /** The sort key (`_sortFunc`): False for active players, which Python
      orders before True. */
  predicate SortKey(r: PlayerRecord)
  {
    !r.active
  }

  predicate IsActive(r: PlayerRecord)
  {
    r.active
  }

  /** Ordered by the key: once an inactive player appears, all later ones are
      inactive too. */
  ghost predicate SortedByKey(rs: seq<PlayerRecord>)
  {
    forall i, j :: 0 <= i < j < |rs| && SortKey(rs[i]) ==> SortKey(rs[j])
  }

  /** What a stable sort by SortKey promises of `out` given `input`: the same
      records, ordered by the key, and each key's records in input order. */
  ghost predicate IsStableSortByKey(out: seq<PlayerRecord>, input: seq<PlayerRecord>)
  {
    && multiset(out) == multiset(input)
    && SortedByKey(out)
    && Keep(out, IsActive) == Keep(input, IsActive)
    && Keep(out, SortKey) == Keep(input, SortKey)
  }

  /** The active records followed by the inactive ones, each in input order. */
  function ActiveFirst(rs: seq<PlayerRecord>): (r: seq<PlayerRecord>)
    ensures multiset(r) == multiset(rs) && |r| == |rs|
  {
    KeepSplitsMultiset(rs, IsActive, SortKey);
    var r := Keep(rs, IsActive) + Keep(rs, SortKey);
    assert |r| == |multiset(r)| == |multiset(rs)| == |rs|;
    r
  }

  /** ActiveFirst is a stable sort by the key. */
  lemma ActiveFirstIsStableSort(rs: seq<PlayerRecord>)
    ensures IsStableSortByKey(ActiveFirst(rs), rs)
  {
    var act, inact := Keep(rs, IsActive), Keep(rs, SortKey);
    var out := act + inact;
    KeepSplitsMultiset(rs, IsActive, SortKey);
    KeepAppend(act, inact, IsActive);
    KeepAppend(act, inact, SortKey);
    KeepAll(act, IsActive);
    KeepNone(act, SortKey);
    KeepNone(inact, IsActive);
    KeepAll(inact, SortKey);
  }

  /** A sequence sorted by the key is its active part followed by its
      inactive part. */
  lemma {:induction false} SortedSplits(rs: seq<PlayerRecord>)
    requires SortedByKey(rs)
    ensures rs == Keep(rs, IsActive) + Keep(rs, SortKey)
  {
    if rs != [] {
      if rs[0].active {
        SortedSplits(rs[1..]);
      } else {
        KeepNone(rs, IsActive);
        KeepAll(rs, SortKey);
      }
    }
  }

  /** Only one order satisfies the stable-sort promise, so the sort's output
      is exactly ActiveFirst. */
  lemma StableSortIsUnique(out: seq<PlayerRecord>, input: seq<PlayerRecord>)
    requires IsStableSortByKey(out, input)
    ensures out == ActiveFirst(input)
  {
    SortedSplits(out);
  }

  /** What searchPlayers promises of the sorted records: one per found
      player, active players first, each group in lookup order. */
  lemma SearchResultProperties(found: seq<FoundPlayer>)
    ensures |ActiveFirst(Records(found))| == |found|
    ensures IsStableSortByKey(ActiveFirst(Records(found)), Records(found))
    ensures ActivePlayersFirst(ActiveFirst(Records(found)))
    ensures forall r :: r in ActiveFirst(Records(found)) ==> FromFound(r, found)
  {
    var built := Records(found);
    var res := ActiveFirst(built);
    ActiveFirstIsStableSort(built);
    assert |res| == |multiset(res)| == |multiset(built)| == |found|;
    SortedMeansActiveFirst(res);
    RecordsComeFromFound(found, res);
  }

  lemma SortedMeansActiveFirst(rs: seq<PlayerRecord>)
    requires SortedByKey(rs)
    ensures ActivePlayersFirst(rs)
  {
    forall i, j | 0 <= i < |rs| && 0 <= j < |rs| && rs[i].active && !rs[j].active
      ensures i < j
    {
      if j < i {
        assert SortKey(rs[j]);
      }
    }
  }

  /** `r` is the record of one of the found players. */
  ghost predicate FromFound(r: PlayerRecord, found: seq<FoundPlayer>)
  {
    exists k :: 0 <= k < |found| && r == ToRecord(found[k])
  }

  lemma RecordsComeFromFound(found: seq<FoundPlayer>, res: seq<PlayerRecord>)
    requires multiset(res) == multiset(Records(found))
    ensures forall r :: r in res ==> FromFound(r, found)
  {
    var built := Records(found);
    forall r | r in res
      ensures FromFound(r, found)
    {
      assert r in multiset(built);
      assert r in built;
      var k :| 0 <= k < |built| && built[k] == r;
      RecordsAt(found, k);
    }
  }

  /** Every active player precedes every inactive player. */
  ghost predicate ActivePlayersFirst(rs: seq<PlayerRecord>)
  {
    forall i, j :: 0 <= i < |rs| && 0 <= j < |rs| && rs[i].active && !rs[j].active ==> i < j
  }

  /** searchPlayers: build the records in lookup order, then sort them by
      SortKey. */
  method SearchPlayers(found: seq<FoundPlayer>) returns (res: seq<PlayerRecord>)
    ensures res == ActiveFirst(Records(found))
    ensures |res| == |found|
    ensures IsStableSortByKey(res, Records(found))
    ensures ActivePlayersFirst(res)
    ensures forall r :: r in res ==> FromFound(r, found)
  {
    res := [];
    var i := 0;
    while i < |found|
      invariant 0 <= i <= |found|
      invariant res == Records(found[..i])
    {
      RecordsAppend(found[..i], found[i]);
      assert found[..i + 1] == found[..i] + [found[i]];
      res := res + [ToRecord(found[i])];
      i := i + 1;
    }
    assert found[..i] == found;
    res := ActiveFirst(res);
    SearchResultProperties(found);
  }

  lemma {:induction false} RecordsAppend(ps: seq<FoundPlayer>, p: FoundPlayer)
    ensures Records(ps + [p]) == Records(ps) + [ToRecord(p)]
  {
    if ps != [] {
      assert (ps + [p])[1..] == ps[1..] + [p];
      RecordsAppend(ps[1..], p);
    }
  }

  /** Record `k` is made from found player `k`: its id, full name and active
      flag, and the headshot URL of its id. */
  lemma {:induction false} RecordsAt(ps: seq<FoundPlayer>, k: nat)
    requires k < |ps|
    ensures Records(ps)[k] == ToRecord(ps[k])
    ensures Records(ps)[k].playerId == ps[k].id && Records(ps)[k].playerName == ps[k].fullName
    ensures Records(ps)[k].active == ps[k].isActive
    ensures Records(ps)[k].playerHeadshot == HeadshotUrl(ps[k].id)
  {
    if k > 0 {
      RecordsAt(ps[1..], k - 1);
    }
  }
}
