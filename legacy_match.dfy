/** The match editor of the earlier engine: the two generated lineups held in
    `MATCH_STATE`, edited by swapping slots (by click or by dropping a name on
    a slot), rebuilt by `run` and `rebalance`, and rescored from the players
    whenever the match is drawn. */
module LegacyMatch {

  import opened Types
  import opened Wrappers
  import opened LegacyScore
  import opened LegacyBalance
  import opened SplitSearch

  /** `{team, role, idx}`: a slot of one of the two lineups. */
  datatype SlotRef = SlotRef(team: nat, role: Role, idx: nat)

  /** The list a lineup holds for a role. */
  function RoleList(l: Lineup, role: Role): seq<PlayerRow>
  {
    match role
    case TANK => l.tank
    case DPS => l.dps
    case SUPPORT => l.support
  }

  /** The lineup with the list of `role` replaced. */
  function WithRoleList(l: Lineup, role: Role, list: seq<PlayerRow>): (r: Lineup)
    ensures RoleList(r, role) == list
    ensures forall other :: other != role ==> RoleList(r, other) == RoleList(l, other)
  {
    match role
    case TANK => l.(tank := list)
    case DPS => l.(dps := list)
    case SUPPORT => l.(support := list)
  }

  /** The slot exists in the two lineups. */
  predicate ValidRef(teams: seq<Lineup>, r: SlotRef)
  {
    |teams| == 2 && r.team < 2 && r.idx < |RoleList(teams[r.team], r.role)|
  }

  /** `MATCH_STATE.teams[team][role][idx]`. */
  function At(teams: seq<Lineup>, r: SlotRef): PlayerRow
    requires ValidRef(teams, r)
  {
    RoleList(teams[r.team], r.role)[r.idx]
  }

  /** The assignment `MATCH_STATE.teams[team][role][idx] = p`. */
  function Put(teams: seq<Lineup>, r: SlotRef, p: PlayerRow): (t: seq<Lineup>)
    requires ValidRef(teams, r)
    ensures |t| == 2 && SameShape(teams, t)
  {
    var l := teams[r.team];
    teams[r.team := WithRoleList(l, r.role, RoleList(l, r.role)[r.idx := p])]
  }

  /** Both lineups hold lists of the same lengths in every role. */
  predicate SameShape(s: seq<Lineup>, t: seq<Lineup>)
  {
    |s| == |t| && forall k, role :: 0 <= k < |s| ==> |RoleList(s[k], role)| == |RoleList(t[k], role)|
  }

  /** What `swapSlots(a, b)` leaves in `MATCH_STATE.teams`: both entries are read
      first, then `b`'s player is written to `a` and `a`'s to `b`. */
  function Swapped(teams: seq<Lineup>, a: SlotRef, b: SlotRef): seq<Lineup>
    requires ValidRef(teams, a) && ValidRef(teams, b)
  {
    Put(Put(teams, a, At(teams, b)), b, At(teams, a))
  }

  /** Reading a slot after a write: the written player at that slot, the old
      player everywhere else. */
  lemma ReadAfterPut(teams: seq<Lineup>, r: SlotRef, p: PlayerRow, s: SlotRef)
    requires ValidRef(teams, r) && ValidRef(teams, s)
    ensures ValidRef(Put(teams, r, p), s)
    ensures At(Put(teams, r, p), s) == if s == r then p else At(teams, s)
  {
  }

  /** `swapSlots` exchanges the two slots' players and leaves every other slot
      and the shape of both lineups as they were. */
  lemma SwapExchanges(teams: seq<Lineup>, a: SlotRef, b: SlotRef)
    requires ValidRef(teams, a) && ValidRef(teams, b)
    ensures SameShape(teams, Swapped(teams, a, b))
    ensures At(Swapped(teams, a, b), a) == At(teams, b)
    ensures At(Swapped(teams, a, b), b) == At(teams, a)
    ensures forall s :: ValidRef(teams, s) && s != a && s != b ==>
              ValidRef(Swapped(teams, a, b), s) && At(Swapped(teams, a, b), s) == At(teams, s)
  {
    var t1 := Put(teams, a, At(teams, b));
    ReadAfterPut(teams, a, At(teams, b), b);
    ReadAfterPut(t1, b, At(teams, a), a);
    ReadAfterPut(t1, b, At(teams, a), b);
    forall s | ValidRef(teams, s) && s != a && s != b
      ensures ValidRef(Swapped(teams, a, b), s) && At(Swapped(teams, a, b), s) == At(teams, s)
    {
      ReadAfterPut(teams, a, At(teams, b), s);
      ReadAfterPut(t1, b, At(teams, a), s);
    }
  }

  /** Two lineup pairs of the same shape that agree on every slot are equal. */
  lemma SlotsDetermineTeams(s: seq<Lineup>, t: seq<Lineup>)
    requires |s| == 2 && SameShape(s, t)
    requires forall r :: ValidRef(s, r) ==> At(s, r) == At(t, r)
    ensures s == t
  {
    forall k, role | 0 <= k < 2
      ensures RoleList(s[k], role) == RoleList(t[k], role)
    {
      forall i | 0 <= i < |RoleList(s[k], role)|
        ensures RoleList(s[k], role)[i] == RoleList(t[k], role)[i]
      {
        assert ValidRef(s, SlotRef(k, role, i));
      }
    }
    forall k | 0 <= k < 2 ensures s[k] == t[k] {
      assert RoleList(s[k], TANK) == RoleList(t[k], TANK);
      assert RoleList(s[k], DPS) == RoleList(t[k], DPS);
      assert RoleList(s[k], SUPPORT) == RoleList(t[k], SUPPORT);
    }
  }

  /** Repeating a swap restores the lineups. */
  lemma SwapIsSelfInverse(teams: seq<Lineup>, a: SlotRef, b: SlotRef)
    requires ValidRef(teams, a) && ValidRef(teams, b)
    ensures ValidRef(Swapped(teams, a, b), a) && ValidRef(Swapped(teams, a, b), b)
    ensures Swapped(Swapped(teams, a, b), a, b) == teams
  {
    var once := Swapped(teams, a, b);
    SwapExchanges(teams, a, b);
    SwapExchanges(once, a, b);
    var twice := Swapped(once, a, b);
    forall r | ValidRef(twice, r) ensures At(twice, r) == At(teams, r) {
      if r != a && r != b {
        assert ValidRef(teams, r);
      }
    }
    SlotsDetermineTeams(twice, teams);
  }

  /** Swapping a slot with itself changes nothing. */
  lemma SwapWithItself(teams: seq<Lineup>, a: SlotRef)
    requires ValidRef(teams, a)
    ensures Swapped(teams, a, a) == teams
  {
    var once := Swapped(teams, a, a);
    SwapExchanges(teams, a, a);
    forall r | ValidRef(once, r) ensures At(once, r) == At(teams, r) {
      if r != a {
        assert ValidRef(teams, r);
      }
    }
    SlotsDetermineTeams(once, teams);
  }

  /** The players of one lineup, role by role. */
  function LineupPlayers(l: Lineup): seq<PlayerRow>
  {
    l.tank + l.dps + l.support
  }

  /** The ten players in the order `rebalance` collects them: team 1's tank,
      DPS and support, then team 2's. */
  function RosterOf(teams: seq<Lineup>): seq<PlayerRow>
    requires |teams| == 2
  {
    LineupPlayers(teams[0]) + LineupPlayers(teams[1])
  }

  /** A write replaces exactly one player of the lineup's multiset. */
  lemma LineupPut(l: Lineup, role: Role, i: nat, p: PlayerRow)
    requires i < |RoleList(l, role)|
    ensures RoleList(l, role)[i] in multiset(LineupPlayers(l))
    ensures multiset(LineupPlayers(WithRoleList(l, role, RoleList(l, role)[i := p])))
            == multiset(LineupPlayers(l)) - multiset{RoleList(l, role)[i]} + multiset{p}
  {
    var list := RoleList(l, role);
    var list' := list[i := p];
    var x := list[i];
    UpdateReplacesOne(list, i, p);
    match role
    case TANK =>
      ReplaceInFirst(list, list', l.dps, x, p);
      ReplaceInFirst(list + l.dps, list' + l.dps, l.support, x, p);
    case DPS =>
      ReplaceInSecond(l.tank, list, list', x, p);
      ReplaceInFirst(l.tank + list, l.tank + list', l.support, x, p);
    case SUPPORT =>
      ReplaceInSecond(l.tank + l.dps, list, list', x, p);
  }

  /** Taking `x` out of a bag that holds it and putting `y` in, then the
      reverse, gives the bag back; and the change commutes with adding more. */
  lemma ReplaceInBag<T>(m: multiset<T>, n: multiset<T>, x: T, y: T)
    requires x in m
    ensures (m - multiset{x} + multiset{y}) + n == (m + n) - multiset{x} + multiset{y}
    ensures n + (m - multiset{x} + multiset{y}) == (n + m) - multiset{x} + multiset{y}
    ensures m - multiset{x} + multiset{y} - multiset{y} + multiset{x} == m
  {
  }

  /** A write replaces exactly one player of the roster's multiset. */
  lemma RosterPut(teams: seq<Lineup>, r: SlotRef, p: PlayerRow)
    requires ValidRef(teams, r)
    ensures At(teams, r) in multiset(RosterOf(teams))
    ensures multiset(RosterOf(Put(teams, r, p))) == multiset(RosterOf(teams)) - multiset{At(teams, r)} + multiset{p}
  {
    var t := Put(teams, r, p);
    var l := teams[r.team];
    var x := At(teams, r);
    LineupPut(l, r.role, r.idx, p);
    var a, b := LineupPlayers(teams[0]), LineupPlayers(teams[1]);
    if r.team == 0 {
      assert RosterOf(t) == LineupPlayers(t[0]) + b;
      ReplaceInFirst(a, LineupPlayers(t[0]), b, x, p);
    } else {
      assert RosterOf(t) == a + LineupPlayers(t[1]);
      ReplaceInSecond(a, b, LineupPlayers(t[1]), x, p);
    }
  }

  /** A swap keeps the same ten players. */
  lemma SwapKeepsPlayers(teams: seq<Lineup>, a: SlotRef, b: SlotRef)
    requires ValidRef(teams, a) && ValidRef(teams, b)
    ensures multiset(RosterOf(Swapped(teams, a, b))) == multiset(RosterOf(teams))
  {
    var pa, pb := At(teams, a), At(teams, b);
    var t1 := Put(teams, a, pb);
    RosterPut(teams, a, pb);
    ReadAfterPut(teams, a, pb, b);
    RosterPut(t1, b, pa);
    ReplaceInBag(multiset(RosterOf(teams)), multiset{}, pa, pb);
  }

  // ---------------------------------------------------------------------------
  // `findPlayerByName`.

  /** The position of a role in the order `Object.entries` lists a lineup. */
  function RoleOrder(role: Role): nat
  {
    match role
    case TANK => 0
    case DPS => 1
    case SUPPORT => 2
  }

  const ROLE_ORDER: seq<Role> := [TANK, DPS, SUPPORT]

  /** `s` is visited before `r`: earlier team, then earlier role, then earlier index. */
  predicate VisitedBefore(s: SlotRef, r: SlotRef)
  {
    s.team < r.team
    || (s.team == r.team && RoleOrder(s.role) < RoleOrder(r.role))
    || (s.team == r.team && s.role == r.role && s.idx < r.idx)
  }

  /** The slot holds a player called `name`. */
  predicate Holds(teams: seq<Lineup>, r: SlotRef, name: string)
  {
    ValidRef(teams, r) && At(teams, r).name == name
  }

  /** The first slot, in visiting order, whose player is called `name`. */
  ghost predicate IsFirstHolder(teams: seq<Lineup>, r: SlotRef, name: string)
  {
    Holds(teams, r, name) && forall s :: VisitedBefore(s, r) ==> !Holds(teams, s, name)
  }

  /** Every slot before `r` in visiting order misses `name` (the loops' progress). */
  ghost predicate MissedBefore(teams: seq<Lineup>, r: SlotRef, name: string)
  {
    forall s :: VisitedBefore(s, r) ==> !Holds(teams, s, name)
  }

  /** The index loop over one role list: the first index whose player is
      called `name`, or -1. */
  method FindInList(list: seq<PlayerRow>, name: string) returns (i: int)
    ensures -1 <= i < |list|
    ensures i == -1 ==> forall j :: 0 <= j < |list| ==> list[j].name != name
    ensures i != -1 ==> list[i].name == name && forall j :: 0 <= j < i ==> list[j].name != name
  {
    i := 0;
    while i < |list|
      invariant 0 <= i <= |list|
      invariant forall j :: 0 <= j < i ==> list[j].name != name
    {
      if list[i].name == name {
        return;
      }
      i := i + 1;
    }
    i := -1;
  }

  /** Moving from the end of one role list to the start of the next. */
  lemma NextRole(teams: seq<Lineup>, ti: nat, ri: nat, name: string)
    requires |teams| == 2 && ti < 2 && ri < 3
    requires MissedBefore(teams, SlotRef(ti, ROLE_ORDER[ri], 0), name)
    requires forall j :: 0 <= j < |RoleList(teams[ti], ROLE_ORDER[ri])| ==>
               RoleList(teams[ti], ROLE_ORDER[ri])[j].name != name
    ensures ri + 1 < 3 ==> MissedBefore(teams, SlotRef(ti, ROLE_ORDER[ri + 1], 0), name)
    ensures ri + 1 == 3 ==> forall s: SlotRef :: s.team <= ti ==> !Holds(teams, s, name)
  {
    var here := SlotRef(ti, ROLE_ORDER[ri], 0);
    forall s: SlotRef | s.team == ti && s.role == ROLE_ORDER[ri] ensures !Holds(teams, s, name) {
    }
    forall s | VisitedBefore(s, here) ensures !Holds(teams, s, name) {
    }
    assert forall role :: RoleOrder(role) == ri ==> role == ROLE_ORDER[ri];
  }

  // ---------------------------------------------------------------------------
  // The editor.

  /** `MATCH_STATE` (with `started` false while it is still null) and the
      click selection `CLICK_PICK`. */
  class Editor {
    var started: bool
    var teams: seq<Lineup>
    var editMode: bool
    var clickPick: Option<SlotRef>

    /** Two lineups, as every assignment of `MATCH_STATE` makes them. */
    predicate Valid()
      reads this
    {
      |teams| == 2
    }

    /** The page before any match was generated. */
    constructor()
      ensures Valid() && !started && !editMode && clickPick.None?
    {
      started := false;
      teams := [Lineup([], [], []), Lineup([], [], [])];
      editMode := false;
      clickPick := None;
    }

    /** `findPlayerByName`: the first slot, team by team, role by role, index
        by index, whose player is called `name`; None when there is none. */
    method FindPlayerByName(name: string) returns (found: Option<SlotRef>)
      requires Valid()
      ensures found.None? ==> forall r :: !Holds(teams, r, name)
      ensures found.Some? ==> IsFirstHolder(teams, found.value, name)
    {
      var ti := 0;
      while ti < 2
        invariant 0 <= ti <= 2
        invariant forall s: SlotRef :: s.team < ti ==> !Holds(teams, s, name)
      {
        var ri := 0;
        while ri < 3
          invariant 0 <= ri <= 3
          invariant ri < 3 ==> MissedBefore(teams, SlotRef(ti, ROLE_ORDER[ri], 0), name)
          invariant ri == 3 ==> forall s: SlotRef :: s.team <= ti ==> !Holds(teams, s, name)
        {
          var role := ROLE_ORDER[ri];
          var list := RoleList(teams[ti], role);
          var i := FindInList(list, name);
          if i != -1 {
            var r := SlotRef(ti, role, i);
            forall s | VisitedBefore(s, r) ensures !Holds(teams, s, name) {
              if s.team == ti && s.role == role {
              } else {
                assert VisitedBefore(s, SlotRef(ti, role, 0));
              }
            }
            return Some(r);
          }
          NextRole(teams, ti, ri, name);
          ri := ri + 1;
        }
        ti := ti + 1;
      }
      return None;
    }

    /** `swapSlots(a, b)`: the two slots trade players in place. */
    method SwapSlots(a: SlotRef, b: SlotRef)
      requires Valid() && ValidRef(teams, a) && ValidRef(teams, b)
      modifies this
      ensures Valid() && teams == Swapped(old(teams), a, b)
      ensures started == old(started) && editMode == old(editMode) && clickPick == old(clickPick)
    {
      var pa := At(teams, a);
      var pb := At(teams, b);
      teams := Put(teams, a, pb);
      teams := Put(teams, b, pa);
    }

    /** `moveByNameToSlot`: the named player's first slot trades places with the
        target; nothing happens when no slot holds the name or the player is
        already there. */
    method MoveByNameToSlot(name: string, target: SlotRef) returns (ghost from: Option<SlotRef>)
      requires Valid() && ValidRef(teams, target)
      modifies this
      ensures Valid()
      ensures from.None? ==> (forall r :: !Holds(old(teams), r, name)) && teams == old(teams)
      ensures from.Some? ==> IsFirstHolder(old(teams), from.value, name)
                             && teams == Swapped(old(teams), from.value, target)
      ensures started == old(started) && editMode == old(editMode) && clickPick == old(clickPick)
    {
      var cur := FindPlayerByName(name);
      from := cur;
      if cur.None? {
        return;
      }
      if cur.value == target {
        SwapWithItself(teams, target);
        return;
      }
      SwapSlots(cur.value, target);
    }

    /** A click on a slot in edit mode: the first click selects it, a click on
        the selected slot clears the selection, a click on another slot swaps
        the two and clears the selection. */
    method ClickSlot(r: SlotRef)
      requires Valid() && ValidRef(teams, r)
      requires clickPick.Some? ==> ValidRef(teams, clickPick.value)
      modifies this
      ensures Valid() && started == old(started) && editMode == old(editMode)
      ensures old(clickPick).None? ==> clickPick == Some(r) && teams == old(teams)
      ensures old(clickPick) == Some(r) ==> clickPick.None? && teams == old(teams)
      ensures old(clickPick).Some? && old(clickPick) != Some(r) ==>
                clickPick.None? && teams == Swapped(old(teams), old(clickPick).value, r)
    {
      if clickPick.Some? && clickPick.value != r {
        SwapSlots(clickPick.value, r);
        clickPick := None;
        return;
      }
      if clickPick.Some? && clickPick.value == r {
        clickPick := None;
        return;
      }
      clickPick := Some(r);
    }

    /** `run`: with exactly ten players and a valid split, the two lineups of
        the best split, edit mode on and no selection; otherwise the editor is
        left as it was. */
    method Run(players: seq<PlayerRow>, cache: ScoreCache, ghost score: string -> int)
      requires Valid() && cache.Valid() && IsRankScore(score)
      modifies this, cache
      ensures Valid() && cache.Valid()
      ensures BestSplit10With(players, score).None? ==>
                started == old(started) && teams == old(teams) && editMode == old(editMode) && clickPick == old(clickPick)
      ensures BestSplit10With(players, score).Some? ==>
                var best := BestSplit10With(players, score).value;
                started && editMode && clickPick.None?
                && teams == [CloneAssignPlayers(best.teamA), CloneAssignPlayers(best.teamB)]
    {
      if |players| != ROSTER_SIZE {
        BestSplit10NeedsTen(players, score);
        return;
      }
      var best := BestSplit10(players, cache, score);
      if best.None? {
        return;
      }
      Install(best.value);
      started := true;
    }

    /** The lineups of a split, edit mode on and no selection. */
    method Install(best: Split)
      requires Valid()
      modifies this
      ensures Valid() && editMode && clickPick.None? && started == old(started)
      ensures teams == [CloneAssignPlayers(best.teamA), CloneAssignPlayers(best.teamB)]
    {
      teams := [CloneAssignPlayers(best.teamA), CloneAssignPlayers(best.teamB)];
      editMode := true;
      clickPick := None;
    }

    /** `rebalance`: the ten players currently placed, collected team by team and
        role by role, split afresh; nothing changes before the first `run` or
        when no split is valid. */
    method Rebalance(cache: ScoreCache, ghost score: string -> int)
      requires Valid() && cache.Valid() && IsRankScore(score)
      modifies this, cache
      ensures Valid() && cache.Valid() && started == old(started)
      ensures !old(started) || BestSplit10With(RosterOf(old(teams)), score).None? ==>
                teams == old(teams) && editMode == old(editMode) && clickPick == old(clickPick)
      ensures old(started) && BestSplit10With(RosterOf(old(teams)), score).Some? ==>
                var best := BestSplit10With(RosterOf(old(teams)), score).value;
                editMode && clickPick.None?
                && teams == [CloneAssignPlayers(best.teamA), CloneAssignPlayers(best.teamB)]
    {
      if !started {
        return;
      }
      var players := teams[0].tank + teams[0].dps + teams[0].support
                     + teams[1].tank + teams[1].dps + teams[1].support;
      assert players == RosterOf(teams);
      var best := BestSplit10(players, cache, score);
      if best.None? {
        return;
      }
      Install(best.value);
    }

    /** The numbers `renderMatch` shows: each lineup rescored from its players
        and the gap between the two values. */
    method Priorities(cache: ScoreCache, ghost score: string -> int) returns (pr0: Priority, pr1: Priority, diff: int)
      requires Valid() && cache.Valid() && IsRankScore(score)
      modifies cache
      ensures cache.Valid()
      ensures pr0 == LineupPriority(teams[0], score) && pr1 == LineupPriority(teams[1], score)
      ensures diff == Abs(pr0.value - pr1.value)
    {
      pr0 := ComputePriorityFromPlayers(teams[0], cache, score);
      pr1 := ComputePriorityFromPlayers(teams[1], cache, score);
      diff := Abs(pr0.value - pr1.value);
    }
  }

  // ---------------------------------------------------------------------------
  // What a generated match looks like.

  /** The players of a lineup built from an assignment are the assignment's. */
  lemma ClonedPlayers(a: LegacyAssignment)
    ensures LineupPlayers(CloneAssignPlayers(a)) == SlotPlayers(a)
  {
  }

  /** The lineups `run` and `rebalance` install hold exactly the ten players
      they were given. */
  lemma InstalledPlayers(players: seq<PlayerRow>, score: string -> int)
    requires BestSplit10With(players, score).Some?
    ensures var best := BestSplit10With(players, score).value;
            multiset(RosterOf([CloneAssignPlayers(best.teamA), CloneAssignPlayers(best.teamB)])) == multiset(players)
  {
    var best := BestSplit10With(players, score).value;
    var _ := BestSplit10Partitions(players, score);
    ClonedPlayers(best.teamA);
    ClonedPlayers(best.teamB);
  }

  /** Drawing the installed lineups shows the split's own priorities and gap:
      rescoring from the players agrees with the search. */
  lemma InstalledPriorities(players: seq<PlayerRow>, score: string -> int)
    requires BestSplit10With(players, score).Some?
    ensures var best := BestSplit10With(players, score).value;
            LineupPriority(CloneAssignPlayers(best.teamA), score) == best.priA
            && LineupPriority(CloneAssignPlayers(best.teamB), score) == best.priB
            && Abs(best.priA.value - best.priB.value) == best.diff
  {
    var best := BestSplit10With(players, score).value;
    var _ := BestSplit10Partitions(players, score);
    var _, _ := BestSplit10IsFirstMinimum(players, score);
    RescoringAgrees(best.teamA, score);
    RescoringAgrees(best.teamB, score);
  }

  /** `rebalance` keeps the ten players: whatever swaps happened before, the new
      lineups hold the players that were placed. */
  lemma RebalanceKeepsPlayers(teams: seq<Lineup>, score: string -> int)
    requires |teams| == 2 && BestSplit10With(RosterOf(teams), score).Some?
    ensures var best := BestSplit10With(RosterOf(teams), score).value;
            multiset(RosterOf([CloneAssignPlayers(best.teamA), CloneAssignPlayers(best.teamB)]))
            == multiset(RosterOf(teams))
  {
    InstalledPlayers(RosterOf(teams), score);
  }
}
