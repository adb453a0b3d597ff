/** The role-assignment search of the balancing hook: every ordering of a
    five-player team is laid over the slot template TANK, DPS, DPS, SUPPORT,
    SUPPORT, scored, and the first ordering with the highest preference-adjusted
    score is kept. */
module RoleSearch {

  import opened Types
  import opened Wrappers

  /** The slot template: one tank, two DPS, two supports. */
  const ROLE_SLOTS: seq<Role> := [TANK, DPS, DPS, SUPPORT, SUPPORT]
  /** Added once for each player placed in a role they marked as preferred. */
  const PREFERENCE_BONUS: int := 100000000
  /** Taken once for each player who marked some other role as preferred. */
  const PREFERENCE_PENALTY: int := 50000000

  /** What the search returns for one team. */
  datatype AssignmentResult = AssignmentResult(assignment: RoleAssignment, algoScore: int, realScore: int)

  /** `getRoleData`: the player's rank for a role. The source's fall-through to an
      unranked rank is unreachable for the three roles and is not modelled. */
  function GetRoleData(player: Player, role: Role): Rank
  {
    match role
    case TANK => player.tank
    case DPS => player.dps
    case SUPPORT => player.sup
  }

  /** The player marked some role other than `role` as preferred. This holds even
      when `role` itself is marked too: the source tests the other two roles only. */
  predicate PrefersOther(player: Player, role: Role)
  {
    (role != TANK && player.tank.isPreferred)
    || (role != DPS && player.dps.isPreferred)
    || (role != SUPPORT && player.sup.isPreferred)
  }

  // ---------------------------------------------------------------------------
  // permute: insert the first element at every position of every permutation
  // of the rest.

  function Last<T>(s: seq<T>): T
    requires s != []
  {
    s[|s| - 1]
  }

  /** The first `n` insertions of `x` into `perm`, at positions 0 .. n-1. */
  function Insertions<T>(x: T, perm: seq<T>, n: nat): (r: seq<seq<T>>)
    requires n <= |perm| + 1
    ensures |r| == n
    ensures forall i :: 0 <= i < n ==> r[i] == perm[..i] + [x] + perm[i..]
  {
    if n == 0 then [] else Insertions(x, perm, n - 1) + [perm[..n - 1] + [x] + perm[n - 1..]]
  }

  /** Every insertion of `x` into every sequence of `perms`, in the source's order. */
  function InsertEverywhere<T>(x: T, perms: seq<seq<T>>): seq<seq<T>>
  {
    if perms == [] then []
    else InsertEverywhere(x, perms[..|perms| - 1]) + Insertions(x, Last(perms), |Last(perms)| + 1)
  }

  /** The sequence of orderings `permute` returns. */
  function Permutations<T>(s: seq<T>): seq<seq<T>>
  {
    if s == [] then [[]] else InsertEverywhere(s[0], Permutations(s[1..]))
  }

  lemma {:induction false} InsertEverywhereMembers<T>(x: T, perms: seq<seq<T>>, p: seq<T>)
    ensures p in InsertEverywhere(x, perms) <==>
              exists q, i :: q in perms && 0 <= i <= |q| && p == q[..i] + [x] + q[i..]
  {
    if perms != [] {
      var init := perms[..|perms| - 1];
      InsertEverywhereMembers(x, init, p);
      var q := Last(perms);
      var ins := Insertions(x, q, |q| + 1);
      if p in InsertEverywhere(x, perms) {
        if p !in InsertEverywhere(x, init) {
          assert p in ins;
          var i :| 0 <= i < |ins| && ins[i] == p;
          assert q in perms && p == q[..i] + [x] + q[i..];
        } else {
          var q', i :| q' in init && 0 <= i <= |q'| && p == q'[..i] + [x] + q'[i..];
          assert q' in perms;
        }
      } else {
        forall q', i | q' in perms && 0 <= i <= |q'|
          ensures p != q'[..i] + [x] + q'[i..]
        {
          if q' == q {
            assert ins[i] == q'[..i] + [x] + q'[i..];
          } else {
            var j :| 0 <= j < |perms| && perms[j] == q';
            assert j < |perms| - 1;
            assert q' in init;
          }
        }
      }
    }
  }

  /** The sequence and position an inserted ordering came from. */
  lemma InsertionSource<T>(x: T, perms: seq<seq<T>>, p: seq<T>) returns (q: seq<T>, i: nat)
    requires p in InsertEverywhere(x, perms)
    ensures q in perms && i <= |q| && p == q[..i] + [x] + q[i..]
  {
    InsertEverywhereMembers(x, perms, p);
    q, i :| q in perms && 0 <= i <= |q| && p == q[..i] + [x] + q[i..];
  }

  /** Every ordering `permute` produces rearranges its input. */
  lemma {:induction false} PermutationsAreRearrangements<T>(s: seq<T>, p: seq<T>)
    requires p in Permutations(s)
    ensures multiset(p) == multiset(s) && |p| == |s|
  {
    if s != [] {
      var q, i := InsertionSource(s[0], Permutations(s[1..]), p);
      PermutationsAreRearrangements(s[1..], q);
      InsertionAddsOne(q, i, s[0]);
      assert s == [s[0]] + s[1..];
    }
  }

  lemma InsertionAddsOne<T>(q: seq<T>, i: nat, x: T)
    requires i <= |q|
    ensures multiset(q[..i] + [x] + q[i..]) == multiset(q) + multiset{x}
  {
    assert q == q[..i] + q[i..];
  }

  /** Removing one occurrence of `x` from a rearrangement of `[x] + rest` leaves a
      rearrangement of `rest`. */
  lemma RemoveOccurrence<T>(p: seq<T>, i: nat, x: T, rest: seq<T>)
    requires i < |p| && p[i] == x && multiset(p) == multiset([x] + rest)
    ensures multiset(p[..i] + p[i + 1..]) == multiset(rest)
  {
    var q := p[..i] + p[i + 1..];
    assert p == p[..i] + [x] + p[i + 1..];
    assert multiset(q) + multiset([x]) == multiset(p);
    assert multiset([x] + rest) == multiset(rest) + multiset([x]);
    forall y ensures multiset(q)[y] == multiset(rest)[y] {
      assert (multiset(q) + multiset([x]))[y] == (multiset(rest) + multiset([x]))[y];
    }
  }

  /** Every rearrangement of the input is among the orderings `permute` produces. */
  lemma {:induction false} RearrangementsArePermutations<T>(s: seq<T>, p: seq<T>)
    requires multiset(p) == multiset(s)
    ensures p in Permutations(s)
  {
    if s == [] {
      assert |p| == |multiset(p)| == 0;
    } else {
      var x := s[0];
      assert s == [x] + s[1..];
      var q, i := TakeOut(p, x, s[1..]);
      RearrangementsArePermutations(s[1..], q);
      InsertEverywhereMembers(x, Permutations(s[1..]), p);
      assert Permutations(s) == InsertEverywhere(x, Permutations(s[1..]));
    }
  }

  /** A rearrangement of `[x] + rest` is `x` inserted into a rearrangement of `rest`. */
  lemma TakeOut<T>(p: seq<T>, x: T, rest: seq<T>) returns (q: seq<T>, i: nat)
    requires multiset(p) == multiset([x] + rest)
    ensures i <= |q| && p == q[..i] + [x] + q[i..] && multiset(q) == multiset(rest)
  {
    assert x in multiset(p);
    i :| i < |p| && p[i] == x;
    q := p[..i] + p[i + 1..];
    RemoveOccurrence(p, i, x, rest);
    assert q[..i] == p[..i] && q[i..] == p[i + 1..];
    assert p == p[..i] + [x] + p[i + 1..];
  }

  function Factorial(n: nat): nat
  {
    if n == 0 then 1 else n * Factorial(n - 1)
  }

  lemma {:induction false} FactorialPositive(n: nat)
    ensures Factorial(n) > 0
  {
    if n > 0 {
      FactorialPositive(n - 1);
    }
  }

  lemma {:induction false} InsertEverywhereCount<T>(x: T, perms: seq<seq<T>>, n: nat)
    requires forall i :: 0 <= i < |perms| ==> |perms[i]| == n
    ensures |InsertEverywhere(x, perms)| == |perms| * (n + 1)
  {
    if perms != [] {
      var init := perms[..|perms| - 1];
      InsertEverywhereCount(x, init, n);
      var m := |init|;
      calc {
        |InsertEverywhere(x, perms)|;
        |InsertEverywhere(x, init)| + |Insertions(x, Last(perms), n + 1)|;
        m * (n + 1) + (n + 1);
        { assert m * (n + 1) + (n + 1) == (m + 1) * (n + 1); }
        (m + 1) * (n + 1);
      }
    }
  }

  /** `permute` on n elements produces n! orderings (120 for a team). */
  lemma {:induction false} PermutationsCount<T>(s: seq<T>)
    ensures |Permutations(s)| == Factorial(|s|)
  {
    if s != [] {
      PermutationsCount(s[1..]);
      var ps := Permutations(s[1..]);
      forall i | 0 <= i < |ps| ensures |ps[i]| == |s| - 1 {
        PermutationsAreRearrangements(s[1..], ps[i]);
      }
      InsertEverywhereCount(s[0], ps, |s| - 1);
      assert |Permutations(s)| == |ps| * |s|;
      assert |ps| == Factorial(|s| - 1);
      assert Factorial(|s|) == |s| * Factorial(|s| - 1);
    }
  }

  /** `permute`, with the result built by appending as the source pushes. */
  method Permute<T>(arr: seq<T>) returns (allPermutations: seq<seq<T>>)
    ensures allPermutations == Permutations(arr)
    decreases |arr|
  {
    if |arr| == 0 {
      return [[]];
    }
    var first := arr[0];
    var rest := arr[1..];
    var permsWithoutFirst := Permute(rest);
    allPermutations := [];
    for k := 0 to |permsWithoutFirst|
      invariant allPermutations == InsertEverywhere(first, permsWithoutFirst[..k])
    {
      var perm := permsWithoutFirst[k];
      assert permsWithoutFirst[..k + 1][..k] == permsWithoutFirst[..k];
      ghost var before := allPermutations;
      for i := 0 to |perm| + 1
        invariant allPermutations == before + Insertions(first, perm, i)
      {
        var withFirst := perm[..i] + [first] + perm[i..];
        allPermutations := allPermutations + [withFirst];
      }
      ghost var upTo := permsWithoutFirst[..k + 1];
      assert upTo[..|upTo| - 1] == permsWithoutFirst[..k] && Last(upTo) == perm;
      assert InsertEverywhere(first, upTo) == before + Insertions(first, perm, |perm| + 1);
    }
    assert permsWithoutFirst[..|permsWithoutFirst|] == permsWithoutFirst;
  }

  // ---------------------------------------------------------------------------
  // Scoring one ordering.

  /** Pushes a player onto the list of a role. */
  function AddToRole(a: RoleAssignment, role: Role, player: Player): RoleAssignment
  {
    match role
    case TANK => a.(tank := a.tank + [player])
    case DPS => a.(dps := a.dps + [player])
    case SUPPORT => a.(support := a.support + [player])
  }

  /** What one slot adds to the preference-adjusted score. */
  function SlotAlgoScore(player: Player, role: Role): int
  {
    var rank := GetRoleData(player, role);
    rank.score
      + (if rank.isPreferred then PREFERENCE_BONUS else 0)
      - (if PrefersOther(player, role) then PREFERENCE_PENALTY else 0)
  }

  /** Raw score of the first `n` slots of an ordering. */
  function RealScoreUpTo(perm: seq<Player>, n: nat): int
    requires n <= |perm| && n <= |ROLE_SLOTS|
  {
    if n == 0 then 0 else RealScoreUpTo(perm, n - 1) + GetRoleData(perm[n - 1], ROLE_SLOTS[n - 1]).score
  }

  /** Preference-adjusted score of the first `n` slots of an ordering. */
  function AlgoScoreUpTo(perm: seq<Player>, n: nat): int
    requires n <= |perm| && n <= |ROLE_SLOTS|
  {
    if n == 0 then 0 else AlgoScoreUpTo(perm, n - 1) + SlotAlgoScore(perm[n - 1], ROLE_SLOTS[n - 1])
  }

  /** The role lists after the first `n` slots have been filled. */
  function AssignmentUpTo(perm: seq<Player>, n: nat): RoleAssignment
    requires n <= |perm| && n <= |ROLE_SLOTS|
  {
    if n == 0 then RoleAssignment([], [], [])
    else AddToRole(AssignmentUpTo(perm, n - 1), ROLE_SLOTS[n - 1], perm[n - 1])
  }

  /** The assignment and both scores of one ordering of a team. */
  function Evaluate(perm: seq<Player>): AssignmentResult
    requires |perm| == |ROLE_SLOTS|
  {
    AssignmentResult(AssignmentUpTo(perm, |perm|), AlgoScoreUpTo(perm, |perm|), RealScoreUpTo(perm, |perm|))
  }

  /** Filling the slots one by one gives the template's role lists. */
  lemma AssignmentUpToTemplate(perm: seq<Player>)
    requires |perm| == |ROLE_SLOTS|
    ensures AssignmentUpTo(perm, 5) == RoleAssignment([perm[0]], [perm[1], perm[2]], [perm[3], perm[4]])
  {
    assert AssignmentUpTo(perm, 1) == RoleAssignment([perm[0]], [], []);
    assert AssignmentUpTo(perm, 2) == RoleAssignment([perm[0]], [perm[1]], []);
    assert AssignmentUpTo(perm, 3) == RoleAssignment([perm[0]], [perm[1], perm[2]], []);
    assert AssignmentUpTo(perm, 4) == RoleAssignment([perm[0]], [perm[1], perm[2]], [perm[3]]);
  }

  /** An ordering is laid over the template slot by slot: 1 tank, 2 DPS, 2 supports,
      holding exactly the ordering's players. */
  lemma EvaluateAssignment(perm: seq<Player>)
    requires |perm| == |ROLE_SLOTS|
    ensures Evaluate(perm).assignment == RoleAssignment([perm[0]], [perm[1], perm[2]], [perm[3], perm[4]])
    ensures WellShaped(Evaluate(perm).assignment)
    ensures multiset(Members(Evaluate(perm).assignment)) == multiset(perm)
  {
    AssignmentUpToTemplate(perm);
    var a := RoleAssignment([perm[0]], [perm[1], perm[2]], [perm[3], perm[4]]);
    assert Members(a) == perm;
  }

  // ---------------------------------------------------------------------------
  // The scores of an assignment, stated on the role lists rather than the ordering.

  function SumScores(players: seq<Player>, role: Role): int
  {
    if players == [] then 0 else SumScores(players[..|players| - 1], role) + GetRoleData(Last(players), role).score
  }

  function CountPreferred(players: seq<Player>, role: Role): nat
  {
    if players == [] then 0
    else CountPreferred(players[..|players| - 1], role) + (if GetRoleData(Last(players), role).isPreferred then 1 else 0)
  }

  function CountPrefersOther(players: seq<Player>, role: Role): nat
  {
    if players == [] then 0
    else CountPrefersOther(players[..|players| - 1], role) + (if PrefersOther(Last(players), role) then 1 else 0)
  }

  /** Sum of each player's rank in the role they were given. */
  function RealScoreOf(a: RoleAssignment): int
  {
    SumScores(a.tank, TANK) + SumScores(a.dps, DPS) + SumScores(a.support, SUPPORT)
  }

  /** Number of players placed in a role they marked as preferred. */
  function PreferencesHonoured(a: RoleAssignment): nat
  {
    CountPreferred(a.tank, TANK) + CountPreferred(a.dps, DPS) + CountPreferred(a.support, SUPPORT)
  }

  /** Number of players who marked some role other than the one they were given. */
  function PreferencesElsewhere(a: RoleAssignment): nat
  {
    CountPrefersOther(a.tank, TANK) + CountPrefersOther(a.dps, DPS) + CountPrefersOther(a.support, SUPPORT)
  }

  lemma ListSums(p: Player, q: Player, role: Role)
    ensures SumScores([p], role) == GetRoleData(p, role).score
    ensures SumScores([p, q], role) == GetRoleData(p, role).score + GetRoleData(q, role).score
    ensures CountPreferred([p], role) == (if GetRoleData(p, role).isPreferred then 1 else 0)
    ensures CountPreferred([p, q], role) == CountPreferred([p], role) + (if GetRoleData(q, role).isPreferred then 1 else 0)
    ensures CountPrefersOther([p], role) == (if PrefersOther(p, role) then 1 else 0)
    ensures CountPrefersOther([p, q], role) == CountPrefersOther([p], role) + (if PrefersOther(q, role) then 1 else 0)
  {
    assert [p, q][..1] == [p] && [p][..0] == [];
  }

  /** The two scores of an ordering: the real score is the sum of the assigned
      ranks, and the algorithm score adds 100000000 per honoured preference and
      takes 50000000 per player who prefers another role. */
  lemma {:induction false} EvaluateScores(perm: seq<Player>)
    requires |perm| == |ROLE_SLOTS|
    ensures var r := Evaluate(perm);
      && r.realScore == RealScoreOf(r.assignment)
      && r.algoScore == r.realScore + PREFERENCE_BONUS * PreferencesHonoured(r.assignment)
                        - PREFERENCE_PENALTY * PreferencesElsewhere(r.assignment)
  {
    EvaluateAssignment(perm);
    RealScoreSlots(perm);
    AlgoScoreSlots(perm);
    TemplateScores(perm);
  }

  function One(b: bool): nat
  {
    if b then 1 else 0
  }

  /** The three totals of the template's role lists, slot by slot. */
  lemma TemplateScores(perm: seq<Player>)
    requires |perm| == |ROLE_SLOTS|
    ensures var a := RoleAssignment([perm[0]], [perm[1], perm[2]], [perm[3], perm[4]]);
      && RealScoreOf(a) == perm[0].tank.score + perm[1].dps.score + perm[2].dps.score
                           + perm[3].sup.score + perm[4].sup.score
      && PreferencesHonoured(a) == One(perm[0].tank.isPreferred) + One(perm[1].dps.isPreferred)
                                   + One(perm[2].dps.isPreferred) + One(perm[3].sup.isPreferred)
                                   + One(perm[4].sup.isPreferred)
      && PreferencesElsewhere(a) == One(PrefersOther(perm[0], TANK)) + One(PrefersOther(perm[1], DPS))
                                    + One(PrefersOther(perm[2], DPS)) + One(PrefersOther(perm[3], SUPPORT))
                                    + One(PrefersOther(perm[4], SUPPORT))
  {
    ListSums(perm[0], perm[0], TANK);
    ListSums(perm[1], perm[2], DPS);
    ListSums(perm[3], perm[4], SUPPORT);
  }

  lemma RealScoreSlots(perm: seq<Player>)
    requires |perm| == |ROLE_SLOTS|
    ensures RealScoreUpTo(perm, 5) == perm[0].tank.score + perm[1].dps.score + perm[2].dps.score
                                      + perm[3].sup.score + perm[4].sup.score
  {
    assert RealScoreUpTo(perm, 1) == perm[0].tank.score;
    assert RealScoreUpTo(perm, 2) == perm[0].tank.score + perm[1].dps.score;
    assert RealScoreUpTo(perm, 3) == perm[0].tank.score + perm[1].dps.score + perm[2].dps.score;
    assert RealScoreUpTo(perm, 4) == perm[0].tank.score + perm[1].dps.score + perm[2].dps.score
                                     + perm[3].sup.score;
  }

  lemma AlgoScoreSlots(perm: seq<Player>)
    requires |perm| == |ROLE_SLOTS|
    ensures AlgoScoreUpTo(perm, 5) == SlotAlgoScore(perm[0], TANK) + SlotAlgoScore(perm[1], DPS)
                                      + SlotAlgoScore(perm[2], DPS) + SlotAlgoScore(perm[3], SUPPORT)
                                      + SlotAlgoScore(perm[4], SUPPORT)
  {
    assert AlgoScoreUpTo(perm, 1) == SlotAlgoScore(perm[0], TANK);
    assert AlgoScoreUpTo(perm, 2) == SlotAlgoScore(perm[0], TANK) + SlotAlgoScore(perm[1], DPS);
    assert AlgoScoreUpTo(perm, 3) == SlotAlgoScore(perm[0], TANK) + SlotAlgoScore(perm[1], DPS)
                                     + SlotAlgoScore(perm[2], DPS);
    assert AlgoScoreUpTo(perm, 4) == SlotAlgoScore(perm[0], TANK) + SlotAlgoScore(perm[1], DPS)
                                     + SlotAlgoScore(perm[2], DPS) + SlotAlgoScore(perm[3], SUPPORT);
  }

  // ---------------------------------------------------------------------------
  // Selection: the first ordering with the maximal algorithm score.

  predicate AllTeamSized(perms: seq<seq<Player>>)
  {
    forall i :: 0 <= i < |perms| ==> |perms[i]| == |ROLE_SLOTS|
  }

  /** Index of the ordering the strict `>` scan keeps among the first `n`. */
  function BestIndex(perms: seq<seq<Player>>, n: nat): (k: nat)
    requires 0 < n <= |perms| && AllTeamSized(perms)
    ensures k < n
  {
    if n == 1 then 0
    else
      var k := BestIndex(perms, n - 1);
      if Evaluate(perms[n - 1]).algoScore > Evaluate(perms[k]).algoScore then n - 1 else k
  }

  /** The kept ordering scores at least as high as each of the first `n`, and
      strictly higher than every one before it. */
  lemma {:induction false} BestIndexIsBest(perms: seq<seq<Player>>, n: nat)
    requires 0 < n <= |perms| && AllTeamSized(perms)
    ensures var k := BestIndex(perms, n);
      && (forall i :: 0 <= i < n ==> Evaluate(perms[i]).algoScore <= Evaluate(perms[k]).algoScore)
      && (forall i :: 0 <= i < k ==> Evaluate(perms[i]).algoScore < Evaluate(perms[k]).algoScore)
  {
    if n > 1 {
      BestIndexIsBest(perms, n - 1);
    }
  }

  lemma TeamPermutationsAreTeamSized(team: seq<Player>)
    requires |team| == |ROLE_SLOTS|
    ensures AllTeamSized(Permutations(team)) && |Permutations(team)| > 0
  {
    forall i | 0 <= i < |Permutations(team)| ensures |Permutations(team)[i]| == 5 {
      PermutationsAreRearrangements(team, Permutations(team)[i]);
    }
    PermutationsCount(team);
    FactorialPositive(|team|);
  }

  /** A team of five is tried in 120 orderings. */
  lemma TeamPermutationsCount(team: seq<Player>)
    requires |team| == |ROLE_SLOTS|
    ensures |Permutations(team)| == 120
  {
    PermutationsCount(team);
    assert Factorial(5) == 120;
  }

  /** What `getBestRoleAssignment` returns for a team of five. The second branch
      is never taken (`TeamPermutationsAreTeamSized`); it keeps the definition
      from dragging that lemma into every proof that mentions it. */
  function BestRoleAssignment(team: seq<Player>): AssignmentResult
    requires |team| == |ROLE_SLOTS|
  {
    var perms := Permutations(team);
    if |perms| > 0 && AllTeamSized(perms) then Evaluate(perms[BestIndex(perms, |perms|)]) else Evaluate(team)
  }

  /** The chosen assignment has 1 tank, 2 DPS and 2 supports, and holds exactly
      the five team members; its scores are those of `EvaluateScores`. */
  lemma BestRoleAssignmentIsValid(team: seq<Player>)
    requires |team| == |ROLE_SLOTS|
    ensures var r := BestRoleAssignment(team);
      && WellShaped(r.assignment)
      && multiset(Members(r.assignment)) == multiset(team)
      && r.realScore == RealScoreOf(r.assignment)
      && r.algoScore == r.realScore + PREFERENCE_BONUS * PreferencesHonoured(r.assignment)
                        - PREFERENCE_PENALTY * PreferencesElsewhere(r.assignment)
  {
    TeamPermutationsAreTeamSized(team);
    var perms := Permutations(team);
    var k := BestIndex(perms, |perms|);
    EvaluateAssignment(perms[k]);
    EvaluateScores(perms[k]);
    PermutationsAreRearrangements(team, perms[k]);
  }

  /** The chosen assignment is that of the first ordering reaching the highest
      algorithm score among all orderings tried. */
  lemma BestRoleAssignmentIsFirstMaximum(team: seq<Player>)
    requires |team| == |ROLE_SLOTS|
    ensures var perms := Permutations(team);
      exists k :: 0 <= k < |perms| && |perms[k]| == 5 && BestRoleAssignment(team) == Evaluate(perms[k])
        && (forall i :: 0 <= i < |perms| ==> |perms[i]| == 5 && Evaluate(perms[i]).algoScore <= Evaluate(perms[k]).algoScore)
        && (forall i :: 0 <= i < k ==> Evaluate(perms[i]).algoScore < Evaluate(perms[k]).algoScore)
  {
    TeamPermutationsAreTeamSized(team);
    var perms := Permutations(team);
    var k := BestIndex(perms, |perms|);
    BestIndexIsBest(perms, |perms|);
    assert BestRoleAssignment(team) == Evaluate(perms[k]);
  }

  /** No way of laying the team over the template scores higher. */
  lemma BestRoleAssignmentIsOptimal(team: seq<Player>, other: seq<Player>)
    requires |team| == |ROLE_SLOTS| && multiset(other) == multiset(team)
    ensures |other| == |ROLE_SLOTS|
    ensures Evaluate(other).algoScore <= BestRoleAssignment(team).algoScore
  {
    assert |other| == |multiset(other)| == |team|;
    TeamPermutationsAreTeamSized(team);
    RearrangementsArePermutations(team, other);
    var perms := Permutations(team);
    var j :| 0 <= j < |perms| && perms[j] == other;
    BestIndexIsBest(perms, |perms|);
  }

  /** The body of `getBestRoleAssignment`'s outer loop: lay one ordering over
      the slots, adding up both scores and pushing each player onto a role list. */
  method ScoreOrdering(perm: seq<Player>) returns (assignment: RoleAssignment, algoScore: int, realScore: int)
    requires |perm| == |ROLE_SLOTS|
    ensures AssignmentResult(assignment, algoScore, realScore) == Evaluate(perm)
  {
    algoScore := 0;
    realScore := 0;
    assignment := RoleAssignment([], [], []);

    for i := 0 to 5
      invariant algoScore == AlgoScoreUpTo(perm, i)
      invariant realScore == RealScoreUpTo(perm, i)
      invariant assignment == AssignmentUpTo(perm, i)
    {
      var role := ROLE_SLOTS[i];
      var player := perm[i];
      var rank := GetRoleData(player, role);

      realScore := realScore + rank.score;
      algoScore := algoScore + rank.score;

      if rank.isPreferred {
        algoScore := algoScore + PREFERENCE_BONUS;
      }

      var prefersOther :=
        (role != TANK && player.tank.isPreferred)
        || (role != DPS && player.dps.isPreferred)
        || (role != SUPPORT && player.sup.isPreferred);

      if prefersOther {
        algoScore := algoScore - PREFERENCE_PENALTY;
      }

      assignment := AddToRole(assignment, role, player);
    }
  }

  /** `getBestRoleAssignment`: scan all orderings, keep the first with the highest
      algorithm score (strict `>` against a best that starts at -Infinity). */
  method GetBestRoleAssignment(teamPlayers: seq<Player>) returns (best: AssignmentResult)
    requires |teamPlayers| == |ROLE_SLOTS|
    ensures best == BestRoleAssignment(teamPlayers)
  {
    var permutations := Permute(teamPlayers);
    TeamPermutationsAreTeamSized(teamPlayers);
    var bestAssignment: Option<RoleAssignment> := None;
    var maxAlgoScore: Option<int> := None;  // -Infinity
    var bestRealScore := 0;
    ghost var bestIdx := 0;

    for k := 0 to |permutations|
      invariant k == 0 <==> maxAlgoScore.None?
      invariant k > 0 ==> bestIdx == BestIndex(permutations, k)
      invariant k > 0 ==> bestAssignment == Some(Evaluate(permutations[bestIdx]).assignment)
      invariant k > 0 ==> maxAlgoScore == Some(Evaluate(permutations[bestIdx]).algoScore)
      invariant k > 0 ==> bestRealScore == Evaluate(permutations[bestIdx]).realScore
    {
      var perm := permutations[k];
      var currentAssignment, currentAlgoScore, currentRealScore := ScoreOrdering(perm);

      if maxAlgoScore.None? || currentAlgoScore > maxAlgoScore.value {
        maxAlgoScore := Some(currentAlgoScore);
        bestAssignment := Some(currentAssignment);
        bestRealScore := currentRealScore;
        bestIdx := k;
      }
    }

    best := AssignmentResult(bestAssignment.value, maxAlgoScore.value, bestRealScore);
  }
}
