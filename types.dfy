/** The data model shared by the balancing engine, the swap editor and the
    parser: roles, tiers, per-role ranks, players and match results. */
module Types {

  /** The three role categories; a team has one TANK, two DPS and two SUPPORT. */
  datatype Role = TANK | DPS | SUPPORT

  /** The eight ranked tiers, lowest first, and the unranked sentinel. */
  datatype Tier = BRONZE | SILVER | GOLD | PLATINUM | DIAMOND | MASTER | GRANDMASTER | CHAMPION | UNRANKED

  /** A player's standing in one role. `div` is the division (1 best .. 5 worst,
      0 when unranked); `score` is derived from tier and division. */
  datatype Rank = Rank(tier: Tier, div: nat, score: int, isPreferred: bool)

  /** A participant with one rank per role. The id is an opaque value. */
  datatype Player = Player(id: real, name: string, tank: Rank, dps: Rank, sup: Rank)

  /** Players per role. The source keys these lists by the role names. */
  datatype RoleAssignment = RoleAssignment(tank: seq<Player>, dps: seq<Player>, support: seq<Player>)

  datatype TeamResult = TeamResult(name: string, assignment: RoleAssignment, algoScore: int, realScore: int)

  datatype MatchResultData = MatchResultData(teamA: TeamResult, teamB: TeamResult, diff: int)

  /** Position of a tier in the ranked order; the unranked sentinel sits at -1. */
  function Ordinal(t: Tier): (k: int)
    ensures -1 <= k <= 7 && (k == -1 <==> t == UNRANKED)
  {
    match t
    case BRONZE => 0
    case SILVER => 1
    case GOLD => 2
    case PLATINUM => 3
    case DIAMOND => 4
    case MASTER => 5
    case GRANDMASTER => 6
    case CHAMPION => 7
    case UNRANKED => -1
  }

  /** The documented rank invariant: a ranked tier has division 1..5 and score
      tier*600 + (6 - div)*100; an unranked rank has division 0 and score 0. */
  predicate RankInvariant(r: Rank)
  {
    if r.tier == UNRANKED then r.div == 0 && r.score == 0
    else 1 <= r.div <= 5 && r.score == Ordinal(r.tier) * 600 + (6 - r.div) * 100
  }

  function Abs(x: int): (r: int)
    ensures r >= 0 && (r == x || r == -x)
  {
    if x < 0 then -x else x
  }

  /** The players of an assignment, tank first, then DPS, then support. */
  function Members(a: RoleAssignment): seq<Player>
  {
    a.tank + a.dps + a.support
  }

  /** The documented shape of an assignment: 1 TANK, 2 DPS, 2 SUPPORT. */
  predicate WellShaped(a: RoleAssignment)
  {
    |a.tank| == 1 && |a.dps| == 2 && |a.support| == 2
  }

  /** The documented meaning of `diff`: the real-score gap between the teams. */
  predicate DiffIsRealGap(m: MatchResultData)
  {
    m.diff == Abs(m.teamA.realScore - m.teamB.realScore)
  }

  // ---------------------------------------------------------------------------
  // Replacing one entry of a list, seen as a bag.

  lemma UpdateReplacesOne<T>(s: seq<T>, i: nat, p: T)
    requires i < |s|
    ensures s[i] in multiset(s)
    ensures multiset(s[i := p]) == multiset(s) - multiset{s[i]} + multiset{p}
  {
    assert s == s[..i] + [s[i]] + s[i + 1..];
    assert s[i := p] == s[..i] + [p] + s[i + 1..];
  }

  lemma ReplaceInFirst<T>(x: seq<T>, x': seq<T>, y: seq<T>, q: T, p: T)
    requires q in multiset(x) && multiset(x') == multiset(x) - multiset{q} + multiset{p}
    ensures multiset(x' + y) == multiset(x + y) - multiset{q} + multiset{p}
  {
  }

  lemma ReplaceInSecond<T>(x: seq<T>, y: seq<T>, y': seq<T>, q: T, p: T)
    requires q in multiset(y) && multiset(y') == multiset(y) - multiset{q} + multiset{p}
    ensures multiset(x + y') == multiset(x + y) - multiset{q} + multiset{p}
  {
  }
}
