/** The page state of the React front end: the roster, the current match result,
    the pending swap source and the add-player form. */
module App {

  import opened Types
  import opened Wrappers
  import opened JsText
  import opened Constants
  import SplitSearch

  /** `{teamIdx, role, index}`: one player slot of a match result. */
  datatype SlotRef = SlotRef(teamIdx: nat, role: Role, index: nat)

  /** The add-player form; divisions are the selected digit, taken as a number. */
  datatype FormInputs = FormInputs(
    name: string,
    tTier: Tier, tDiv: nat, tPref: bool,
    dTier: Tier, dDiv: nat, dPref: bool,
    sTier: Tier, sDiv: nat, sPref: bool)

  // ---------------------------------------------------------------------------
  // Slots of a result.

  function RoleSlots(a: RoleAssignment, role: Role): seq<Player>
  {
    match role
    case TANK => a.tank
    case DPS => a.dps
    case SUPPORT => a.support
  }

  function WithRoleSlots(a: RoleAssignment, role: Role, s: seq<Player>): (b: RoleAssignment)
    ensures RoleSlots(b, role) == s
    ensures forall r :: r != role ==> RoleSlots(b, r) == RoleSlots(a, r)
  {
    match role
    case TANK => a.(tank := s)
    case DPS => a.(dps := s)
    case SUPPORT => a.(support := s)
  }

  /** `['teamA', 'teamB'][teamIdx]`. */
  function Team(m: MatchResultData, teamIdx: nat): TeamResult
    requires teamIdx < 2
  {
    if teamIdx == 0 then m.teamA else m.teamB
  }

  /** The slot exists in the result. */
  predicate HasSlot(m: MatchResultData, s: SlotRef)
  {
    s.teamIdx < 2 && s.index < |RoleSlots(Team(m, s.teamIdx).assignment, s.role)|
  }

  /** The slot exists in every result of 1 tank, 2 DPS and 2 supports per team. */
  predicate InTemplate(s: SlotRef)
  {
    s.teamIdx < 2 && s.index < (if s.role == TANK then 1 else 2)
  }

  predicate ResultWellShaped(m: MatchResultData)
  {
    WellShaped(m.teamA.assignment) && WellShaped(m.teamB.assignment)
  }

  function Get(m: MatchResultData, s: SlotRef): Player
    requires HasSlot(m, s)
  {
    RoleSlots(Team(m, s.teamIdx).assignment, s.role)[s.index]
  }

  /** `newResult[team].assignment[role][index] = p`. */
  function Set(m: MatchResultData, s: SlotRef, p: Player): (r: MatchResultData)
    requires HasSlot(m, s)
  {
    var t := Team(m, s.teamIdx);
    var slots := RoleSlots(t.assignment, s.role)[s.index := p];
    var t' := t.(assignment := WithRoleSlots(t.assignment, s.role, slots));
    if s.teamIdx == 0 then m.(teamA := t') else m.(teamB := t')
  }

  lemma SetKeepsSlots(m: MatchResultData, s: SlotRef, p: Player, c: SlotRef)
    requires HasSlot(m, s)
    ensures HasSlot(Set(m, s, p), c) == HasSlot(m, c)
    ensures HasSlot(m, c) ==> Get(Set(m, s, p), c) == if c == s then p else Get(m, c)
  {
  }

  /** The second click of `handleSlotClick`: both slots read from the old
      result, then written crosswise into the copy. */
  function SwapSlots(m: MatchResultData, a: SlotRef, b: SlotRef): MatchResultData
    requires HasSlot(m, a) && HasSlot(m, b)
  {
    SetKeepsSlots(m, a, Get(m, b), b);
    Set(Set(m, a, Get(m, b)), b, Get(m, a))
  }

  /** The two slots trade players; every other slot keeps its player. */
  lemma SwapExchanges(m: MatchResultData, a: SlotRef, b: SlotRef, c: SlotRef)
    requires HasSlot(m, a) && HasSlot(m, b)
    ensures HasSlot(SwapSlots(m, a, b), c) == HasSlot(m, c)
    ensures HasSlot(m, c) ==>
      Get(SwapSlots(m, a, b), c) == (if c == b then Get(m, a) else if c == a then Get(m, b) else Get(m, c))
  {
    var p := Get(m, b);
    SetKeepsSlots(m, a, p, b);
    SetKeepsSlots(m, a, p, c);
    SetKeepsSlots(Set(m, a, p), b, Get(m, a), c);
  }

  /** The same swap twice restores the result. */
  lemma {:induction false} SwapTwiceRestores(m: MatchResultData, a: SlotRef, b: SlotRef)
    requires HasSlot(m, a) && HasSlot(m, b)
    ensures HasSlot(SwapSlots(m, a, b), a) && HasSlot(SwapSlots(m, a, b), b)
    ensures SwapSlots(SwapSlots(m, a, b), a, b) == m
  {
    var m1 := SwapSlots(m, a, b);
    SwapExchanges(m, a, b, a);
    SwapExchanges(m, a, b, b);
    var m2 := SwapSlots(m1, a, b);
    forall c | HasSlot(m, c) ensures HasSlot(m2, c) && Get(m2, c) == Get(m, c) {
      SwapExchanges(m, a, b, c);
      SwapExchanges(m1, a, b, c);
    }
    SwapKeepsFrame(m, a, b);
    SwapKeepsFrame(m1, a, b);
    SameSlotsSameResult(m, m2);
  }

  /** Two results that agree on names, scores, gap and every slot are equal. */
  lemma SameSlotsSameResult(m: MatchResultData, n: MatchResultData)
    requires SameFrame(m, n)
    requires forall c :: HasSlot(m, c) ==> HasSlot(n, c) && Get(n, c) == Get(m, c)
    ensures m == n
  {
    forall t: nat, role: Role | t < 2
      ensures RoleSlots(Team(n, t).assignment, role) == RoleSlots(Team(m, t).assignment, role)
    {
      var s, s' := RoleSlots(Team(m, t).assignment, role), RoleSlots(Team(n, t).assignment, role);
      forall i | 0 <= i < |s| ensures s'[i] == s[i] {
        assert HasSlot(m, SlotRef(t, role, i));
      }
    }
    assert RoleSlots(Team(n, 0).assignment, TANK) == RoleSlots(Team(m, 0).assignment, TANK);
    assert RoleSlots(Team(n, 0).assignment, DPS) == RoleSlots(Team(m, 0).assignment, DPS);
    assert RoleSlots(Team(n, 0).assignment, SUPPORT) == RoleSlots(Team(m, 0).assignment, SUPPORT);
    assert RoleSlots(Team(n, 1).assignment, TANK) == RoleSlots(Team(m, 1).assignment, TANK);
    assert RoleSlots(Team(n, 1).assignment, DPS) == RoleSlots(Team(m, 1).assignment, DPS);
    assert RoleSlots(Team(n, 1).assignment, SUPPORT) == RoleSlots(Team(m, 1).assignment, SUPPORT);
  }

  /** Names, scores and `diff` are the same, and every role list has the same length. */
  predicate SameFrame(m: MatchResultData, n: MatchResultData)
  {
    m.diff == n.diff
    && m.teamA.name == n.teamA.name && m.teamA.algoScore == n.teamA.algoScore && m.teamA.realScore == n.teamA.realScore
    && m.teamB.name == n.teamB.name && m.teamB.algoScore == n.teamB.algoScore && m.teamB.realScore == n.teamB.realScore
    && forall t: nat, role: Role :: t < 2 ==>
         |RoleSlots(Team(m, t).assignment, role)| == |RoleSlots(Team(n, t).assignment, role)|
  }

  /** A swap copies names, scores and `diff` unchanged and keeps the shape. */
  lemma SwapKeepsFrame(m: MatchResultData, a: SlotRef, b: SlotRef)
    requires HasSlot(m, a) && HasSlot(m, b)
    ensures SameFrame(m, SwapSlots(m, a, b))
    ensures ResultWellShaped(m) ==> ResultWellShaped(SwapSlots(m, a, b))
  {
    var m1 := Set(m, a, Get(m, b));
    SetKeepsFrame(m, a, Get(m, b));
    SetKeepsSlots(m, a, Get(m, b), b);
    SetKeepsFrame(m1, b, Get(m, a));
  }

  /** Writing one slot keeps names, scores, `diff` and the shape. */
  lemma SetKeepsFrame(m: MatchResultData, s: SlotRef, p: Player)
    requires HasSlot(m, s)
    ensures SameFrame(m, Set(m, s, p))
    ensures ResultWellShaped(m) ==> ResultWellShaped(Set(m, s, p))
  {
    var t := Team(m, s.teamIdx);
    var slots := RoleSlots(t.assignment, s.role)[s.index := p];
    var b := WithRoleSlots(t.assignment, s.role, slots);
    assert forall r :: |RoleSlots(b, r)| == |RoleSlots(t.assignment, r)|;
  }

  /** All ten players of a result, team A then team B. */
  function AllPlayers(m: MatchResultData): seq<Player>
  {
    Members(m.teamA.assignment) + Members(m.teamB.assignment)
  }

  lemma SetTeamReplacesOne(a: RoleAssignment, role: Role, i: nat, p: Player)
    requires i < |RoleSlots(a, role)|
    ensures var b := WithRoleSlots(a, role, RoleSlots(a, role)[i := p]);
      multiset(Members(b)) == multiset(Members(a)) - multiset{RoleSlots(a, role)[i]} + multiset{p}
  {
    var s := RoleSlots(a, role);
    var s' := s[i := p];
    var q := s[i];
    UpdateReplacesOne(s, i, p);
    assert q in multiset(s);
    match role
    case TANK =>
      ReplaceInFirst(s, s', a.dps, q, p);
      ReplaceInFirst(s + a.dps, s' + a.dps, a.support, q, p);
    case DPS =>
      ReplaceInSecond(a.tank, s, s', q, p);
      ReplaceInFirst(a.tank + s, a.tank + s', a.support, q, p);
    case SUPPORT =>
      ReplaceInSecond(a.tank + a.dps, s, s', q, p);
  }

  lemma SetReplacesOne(m: MatchResultData, s: SlotRef, p: Player)
    requires HasSlot(m, s)
    ensures multiset(AllPlayers(Set(m, s, p))) == multiset(AllPlayers(m)) - multiset{Get(m, s)} + multiset{p}
  {
    var t := Team(m, s.teamIdx);
    var q := Get(m, s);
    SetTeamReplacesOne(t.assignment, s.role, s.index, p);
    var t' := Team(Set(m, s, p), s.teamIdx);
    GetIsMember(t.assignment, s.role, s.index);
    if s.teamIdx == 0 {
      assert Set(m, s, p).teamB == m.teamB;
      ReplaceInFirst(Members(t.assignment), Members(t'.assignment), Members(m.teamB.assignment), q, p);
    } else {
      assert Set(m, s, p).teamA == m.teamA;
      ReplaceInSecond(Members(m.teamA.assignment), Members(t.assignment), Members(t'.assignment), q, p);
    }
  }

  lemma GetIsMember(a: RoleAssignment, role: Role, i: nat)
    requires i < |RoleSlots(a, role)|
    ensures RoleSlots(a, role)[i] in multiset(Members(a))
  {
    assert RoleSlots(a, role)[i] in RoleSlots(a, role);
  }

  lemma GetIsPlayer(m: MatchResultData, s: SlotRef)
    requires HasSlot(m, s)
    ensures Get(m, s) in multiset(AllPlayers(m))
  {
    var t := Team(m, s.teamIdx).assignment;
    assert Get(m, s) in RoleSlots(t, s.role);
    assert Get(m, s) in Members(t);
  }

  /** A swap moves players between slots; the ten players stay the same. */
  lemma SwapKeepsPlayers(m: MatchResultData, a: SlotRef, b: SlotRef)
    requires HasSlot(m, a) && HasSlot(m, b)
    ensures multiset(AllPlayers(SwapSlots(m, a, b))) == multiset(AllPlayers(m))
  {
    var pa, pb := Get(m, a), Get(m, b);
    var m1 := Set(m, a, pb);
    SetReplacesOne(m, a, pb);
    SetKeepsSlots(m, a, pb, b);
    SetReplacesOne(m1, b, pa);
    assert Get(m1, b) == pb;
    GetIsPlayer(m, a);
    ReplaceAndRestore(multiset(AllPlayers(m)), multiset(AllPlayers(m1)), multiset(AllPlayers(SwapSlots(m, a, b))), pa, pb);
  }

  lemma ReplaceAndRestore(ms: multiset<Player>, ms1: multiset<Player>, ms2: multiset<Player>, pa: Player, pb: Player)
    requires pa in ms && ms1 == ms - multiset{pa} + multiset{pb} && ms2 == ms1 - multiset{pb} + multiset{pa}
    ensures ms2 == ms
  {
  }

  // ---------------------------------------------------------------------------
  // The page.

  /** A rank as the form builds it: the selected tier and division, scored by `getScore`. */
  function FormRank(tier: Tier, div: nat, pref: bool): (r: Rank)
    ensures r.tier == tier && r.div == div && r.isPreferred == pref
    ensures r.score == GetScore(TierIndex(tier), div)
  {
    Rank(tier, div, GetScore(TierIndex(tier), div), pref)
  }

  class Page {
    var players: seq<Player>
    var result: Option<MatchResultData>
    var swapSource: Option<SlotRef>
    var inputs: FormInputs

    /** Every result on the page has the template's shape, and a pending swap
        source names one of its slots. */
    predicate Valid()
      reads this
    {
      (result.Some? ==> ResultWellShaped(result.value))
      && (swapSource.Some? ==> InTemplate(swapSource.value))
    }

    constructor (initial: FormInputs)
      ensures Valid()
      ensures players == [] && result.None? && swapSource.None? && inputs == initial
    {
      players := [];
      result := None;
      swapSource := None;
      inputs := initial;
    }

    /** `handleSlotClick`: the first click selects a slot, clicking it again
        deselects it, a click on another slot swaps the two players. */
    method HandleSlotClick(teamIdx: nat, role: Role, idx: nat)
      requires Valid() && InTemplate(SlotRef(teamIdx, role, idx))
      modifies this
      ensures Valid() && players == old(players) && inputs == old(inputs)
      ensures old(result).None? ==> result == old(result) && swapSource == old(swapSource)
      ensures old(result).Some? && old(swapSource).None? ==>
        result == old(result) && swapSource == Some(SlotRef(teamIdx, role, idx))
      ensures old(result).Some? && old(swapSource) == Some(SlotRef(teamIdx, role, idx)) ==>
        result == old(result) && swapSource.None?
      ensures old(result).Some? && old(swapSource).Some? && old(swapSource) != Some(SlotRef(teamIdx, role, idx)) ==>
        HasSlot(old(result).value, old(swapSource).value) && HasSlot(old(result).value, SlotRef(teamIdx, role, idx))
        && result == Some(SwapSlots(old(result).value, old(swapSource).value, SlotRef(teamIdx, role, idx)))
        && swapSource.None?
    {
      var target := SlotRef(teamIdx, role, idx);
      if result.None? {
        return;
      }
      if swapSource.Some? {
        if swapSource.value == target {
          swapSource := None;
          return;
        }
        var newResult := result.value;
        var source := swapSource.value;
        var sourcePlayer := Get(newResult, source);
        var targetPlayer := Get(newResult, target);
        var afterFirst := Set(newResult, source, targetPlayer);
        SetKeepsSlots(newResult, source, targetPlayer, target);
        newResult := Set(afterFirst, target, sourcePlayer);
        SwapKeepsFrame(result.value, source, target);
        result := Some(newResult);
        swapSource := None;
      } else {
        swapSource := Some(target);
      }
    }

    /** `addPlayer`: a blank name does nothing; otherwise one player built from
        the form is appended and the name and preference toggles are reset. */
    method AddPlayer(now: real)
      requires Valid()
      modifies this
      ensures Valid() && result == old(result) && swapSource == old(swapSource)
      ensures Trim(old(inputs.name)) == [] ==> players == old(players) && inputs == old(inputs)
      ensures Trim(old(inputs.name)) != [] ==>
        players == old(players) + [Player(now, old(inputs.name),
          FormRank(old(inputs.tTier), old(inputs.tDiv), old(inputs.tPref)),
          FormRank(old(inputs.dTier), old(inputs.dDiv), old(inputs.dPref)),
          FormRank(old(inputs.sTier), old(inputs.sDiv), old(inputs.sPref)))]
        && inputs == old(inputs).(name := [], tPref := false, dPref := false, sPref := false)
    {
      if Trim(inputs.name) == [] {
        return;
      }
      var newPlayer := Player(now, inputs.name,
        Rank(inputs.tTier, inputs.tDiv, GetScore(TierIndex(inputs.tTier), inputs.tDiv), inputs.tPref),
        Rank(inputs.dTier, inputs.dDiv, GetScore(TierIndex(inputs.dTier), inputs.dDiv), inputs.dPref),
        Rank(inputs.sTier, inputs.sDiv, GetScore(TierIndex(inputs.sTier), inputs.sDiv), inputs.sPref));
      players := players + [newPlayer];
      inputs := inputs.(name := [], tPref := false, dPref := false, sPref := false);
    }

    /** `handleRunMatching`: clear the result, then balance the roster; a roster
        that is not ten players leaves the result cleared. */
    method RunMatching()
      requires Valid()
      modifies this
      ensures Valid() && players == old(players) && inputs == old(inputs) && swapSource == old(swapSource)
      ensures |players| != SplitSearch.ROSTER_SIZE ==> result.None?
      ensures SplitSearch.Balance(players).Balanced? ==> result == Some(SplitSearch.Balance(players).result)
    {
      result := None;
      var outcome := SplitSearch.BalanceTeams(players);
      if outcome.Balanced? {
        SplitSearch.BalanceSplitsRoster(players);
        result := Some(outcome.result);
      } else {
        SplitSearch.BalanceNeedsTenPlayers(players);
      }
    }
  }
}
