/** The team-split search of the balancing hook: every five-player subset of the
    ten-player roster is tried as team A (the rest is team B), each side gets its
    best role assignment, and the pair with the smallest (algoDiff, realDiff) in
    lexicographic order is kept, the first one found on ties. Players are
    identified by their position in the roster, as the source identifies them by
    object reference. */
module SplitSearch {

  import opened Types
  import opened Wrappers
  import opened RoleSearch

  const ROSTER_SIZE: nat := 10
  const TEAM_SIZE: nat := 5

  /** The two sides of one candidate split, with both gaps. */
  datatype Candidate = Candidate(resA: AssignmentResult, resB: AssignmentResult, algoDiff: int, realDiff: int)

  datatype BalanceError = WrongPlayerCount(count: nat) | NoValidCombination

  datatype Outcome = Balanced(result: MatchResultData) | Failed(error: BalanceError)

  // ---------------------------------------------------------------------------
  // The subsets `combine` visits.

  /** Every index list `combine(src, len, start, picked)` completes, in visiting order. */
  function Combinations(n: nat, len: nat, start: nat, picked: seq<nat>): seq<seq<nat>>
    decreases len, 1, 0
  {
    if len == 0 then [picked] else CombinationsBelow(n, len, start, picked, n - len + 1)
  }

  /** The lists completed by the loop iterations `start <= i < end`. */
  function CombinationsBelow(n: nat, len: nat, start: nat, picked: seq<nat>, end: int): seq<seq<nat>>
    requires len > 0
    decreases len, 0, end - start
  {
    if end <= start then []
    else CombinationsBelow(n, len, start, picked, end - 1) + Combinations(n, len - 1, end, picked + [end - 1])
  }

  predicate Ascending(s: seq<nat>)
  {
    forall i, j :: 0 <= i < j < |s| ==> s[i] < s[j]
  }

  /** A subset of the roster as `combine` hands it over: five ascending positions. */
  predicate IsPick(pick: seq<nat>)
  {
    |pick| == TEAM_SIZE && Ascending(pick) && forall i :: 0 <= i < |pick| ==> pick[i] < ROSTER_SIZE
  }

  lemma {:induction false} CombinationsBelowArePicks(n: nat, len: nat, start: nat, picked: seq<nat>, end: int, p: seq<nat>)
    requires len > 0 && start <= n && end <= n - len + 1
    requires Ascending(picked) && forall i :: 0 <= i < |picked| ==> picked[i] < start
    requires p in CombinationsBelow(n, len, start, picked, end)
    ensures |p| == |picked| + len && Ascending(p) && forall i :: 0 <= i < |p| ==> p[i] < n
    decreases len, 0, end - start
  {
    if end > start {
      if p in CombinationsBelow(n, len, start, picked, end - 1) {
        CombinationsBelowArePicks(n, len, start, picked, end - 1, p);
      } else {
        CombinationsArePicks(n, len - 1, end, picked + [end - 1], p);
      }
    }
  }

  /** Every list `combine` completes extends `picked` by ascending positions below `n`. */
  lemma {:induction false} CombinationsArePicks(n: nat, len: nat, start: nat, picked: seq<nat>, p: seq<nat>)
    requires start <= n
    requires Ascending(picked) && forall i :: 0 <= i < |picked| ==> picked[i] < start
    requires p in Combinations(n, len, start, picked)
    ensures |p| == |picked| + len && Ascending(p) && forall i :: 0 <= i < |p| ==> p[i] < n
    decreases len, 1, 0
  {
    if len > 0 {
      CombinationsBelowArePicks(n, len, start, picked, n - len + 1, p);
    }
  }

  /** The subsets `combine(players, 5, 0, [])` visits for a roster of `n`. */
  function Visited(n: nat): seq<seq<nat>>
  {
    Combinations(n, TEAM_SIZE, 0, [])
  }

  /** Every subset the top-level call visits is a five-position pick. */
  lemma AllVisitedArePicks(n: nat, pick: seq<nat>)
    requires n == ROSTER_SIZE && pick in Visited(n)
    ensures IsPick(pick)
  {
    CombinationsArePicks(n, TEAM_SIZE, 0, [], pick);
  }

  lemma {:induction false} AscendingSpread(s: seq<nat>)
    requires Ascending(s) && |s| > 0
    ensures s[|s| - 1] >= s[0] + |s| - 1
  {
    if |s| > 1 {
      AscendingSpread(s[..|s| - 1]);
    }
  }

  lemma AscendingTail(s: seq<nat>, n: nat)
    requires |s| > 0 && Ascending(s) && forall i :: 0 <= i < |s| ==> s[i] < n
    ensures Ascending(s[1..]) && forall i :: 0 <= i < |s[1..]| ==> s[0] + 1 <= s[1..][i] < n
  {
    forall i | 0 <= i < |s[1..]| ensures s[0] + 1 <= s[1..][i] < n {
      assert s[1..][i] == s[i + 1];
    }
  }

  lemma {:induction false} CombinationsBelowInclude(n: nat, len: nat, start: nat, picked: seq<nat>, end: int, i: nat, p: seq<nat>)
    requires len > 0 && start <= i < end
    requires p in Combinations(n, len - 1, i + 1, picked + [i])
    ensures p in CombinationsBelow(n, len, start, picked, end)
    decreases end - start
  {
    if i < end - 1 {
      CombinationsBelowInclude(n, len, start, picked, end - 1, i, p);
    }
  }

  /** `combine` misses nothing: every ascending completion of `picked` is visited. */
  lemma {:induction false} CombinationsComplete(n: nat, len: nat, start: nat, picked: seq<nat>, s: seq<nat>)
    requires |s| == len && Ascending(s) && forall i :: 0 <= i < |s| ==> start <= s[i] < n
    ensures picked + s in Combinations(n, len, start, picked)
    decreases len
  {
    if len == 0 {
      assert picked + s == picked;
    } else {
      var i := s[0];
      assert i <= n - len by {
        AscendingSpread(s);
      }
      assert picked + s in Combinations(n, len - 1, i + 1, picked + [i]) by {
        AscendingTail(s, n);
        CombinationsComplete(n, len - 1, i + 1, picked + [i], s[1..]);
        assert (picked + [i]) + s[1..] == picked + s;
      }
      CombinationsBelowInclude(n, len, start, picked, n - len + 1, i, picked + s);
    }
  }

  /** Every five-position subset of the roster is visited as team A. Since its
      complement is also such a subset, each split is visited twice, once with
      the sides swapped. */
  lemma EveryPickIsVisited(n: nat, pick: seq<nat>)
    requires |pick| == TEAM_SIZE && Ascending(pick) && forall i :: 0 <= i < |pick| ==> pick[i] < n
    ensures pick in Visited(n)
  {
    CombinationsComplete(n, TEAM_SIZE, 0, [], pick);
    assert [] + pick == pick;
  }

  // ---------------------------------------------------------------------------
  // The two teams of a pick.

  /** `picked`: the players at the picked positions, in pick order. */
  function TeamOf<T>(players: seq<T>, pick: seq<nat>): (team: seq<T>)
    requires forall i :: 0 <= i < |pick| ==> pick[i] < |players|
    ensures |team| == |pick|
  {
    if pick == [] then [] else TeamOf(players, pick[..|pick| - 1]) + [players[Last(pick)]]
  }

  /** The players at the first `n` positions that `kept` lets through, in
      roster order. */
  function KeptUpTo<T>(players: seq<T>, kept: nat -> bool, n: nat): seq<T>
    requires n <= |players|
  {
    if n == 0 then []
    else KeptUpTo(players, kept, n - 1) + (if kept(n - 1) then [players[n - 1]] else [])
  }

  /** The positions `src.filter(p => !teamA.includes(p))` keeps. */
  function Unpicked(pick: seq<nat>): nat -> bool
  {
    i => i !in pick
  }

  /** Team B: every player whose position was not picked, in roster order. */
  function Others<T>(players: seq<T>, pick: seq<nat>): seq<T>
  {
    KeptUpTo(players, Unpicked(pick), |players|)
  }

  lemma {:induction false} KeptUpToAll<T>(players: seq<T>, kept: nat -> bool, n: nat)
    requires n <= |players| && forall i: nat :: i < n ==> kept(i)
    ensures KeptUpTo(players, kept, n) == players[..n]
  {
    if n > 0 {
      KeptUpToAll(players, kept, n - 1);
      assert players[..n] == players[..n - 1] + [players[n - 1]];
    }
  }

  lemma {:induction false} KeptUpToSame<T>(players: seq<T>, kept: nat -> bool, other: nat -> bool, n: nat)
    requires n <= |players| && forall i: nat :: i < n ==> kept(i) == other(i)
    ensures KeptUpTo(players, kept, n) == KeptUpTo(players, other, n)
  {
    if n > 0 {
      KeptUpToSame(players, kept, other, n - 1);
    }
  }

  /** Dropping position `x` from what is kept takes exactly `players[x]` out. */
  lemma {:induction false} KeptUpToOneMore<T>(players: seq<T>, kept: nat -> bool, other: nat -> bool, x: nat, n: nat)
    requires x < n <= |players| && kept(x) && !other(x)
    requires forall i: nat :: i < n && i != x ==> kept(i) == other(i)
    ensures multiset(KeptUpTo(players, kept, n)) == multiset(KeptUpTo(players, other, n)) + multiset{players[x]}
  {
    if n - 1 == x {
      KeptUpToSame(players, kept, other, n - 1);
      KeptUpToDropLast(players, kept, other, n);
    } else {
      KeptUpToOneMore(players, kept, other, x, n - 1);
      KeptUpToSameLast(players, kept, other, n, multiset{players[x]});
    }
  }

  /** The last position is the one dropped, and the positions before it agree. */
  lemma KeptUpToDropLast<T>(players: seq<T>, kept: nat -> bool, other: nat -> bool, n: nat)
    requires 0 < n <= |players| && kept(n - 1) && !other(n - 1)
    requires KeptUpTo(players, kept, n - 1) == KeptUpTo(players, other, n - 1)
    ensures multiset(KeptUpTo(players, kept, n)) == multiset(KeptUpTo(players, other, n)) + multiset{players[n - 1]}
  {
    assert KeptUpTo(players, kept, n) == KeptUpTo(players, other, n - 1) + [players[n - 1]];
  }

  /** Both keep or both drop the last position: the difference carries over. */
  lemma KeptUpToSameLast<T>(players: seq<T>, kept: nat -> bool, other: nat -> bool, n: nat, m: multiset<T>)
    requires 0 < n <= |players| && kept(n - 1) == other(n - 1)
    requires multiset(KeptUpTo(players, kept, n - 1)) == multiset(KeptUpTo(players, other, n - 1)) + m
    ensures multiset(KeptUpTo(players, kept, n)) == multiset(KeptUpTo(players, other, n)) + m
  {
    var last := if kept(n - 1) then [players[n - 1]] else [];
    SameTail(KeptUpTo(players, kept, n - 1), KeptUpTo(players, other, n - 1), last, m);
  }

  lemma SameTail<T>(a: seq<T>, b: seq<T>, tail: seq<T>, m: multiset<T>)
    requires multiset(a) == multiset(b) + m
    ensures multiset(a + tail) == multiset(b + tail) + m
  {
  }

  /** The two teams together are exactly the roster: nobody is left out or
      counted twice. */
  lemma {:induction false} TeamsPartitionRoster<T>(players: seq<T>, pick: seq<nat>)
    requires Ascending(pick) && forall i :: 0 <= i < |pick| ==> pick[i] < |players|
    ensures multiset(TeamOf(players, pick)) + multiset(Others(players, pick)) == multiset(players)
    ensures |Others(players, pick)| == |players| - |pick|
  {
    if pick == [] {
      KeptUpToAll(players, Unpicked(pick), |players|);
      assert players[..|players|] == players;
    } else {
      var init := pick[..|pick| - 1];
      TeamsPartitionRoster(players, init);
      OthersWithoutLast(players, pick);
      assert |multiset(Others(players, init))| == |multiset(Others(players, pick))| + 1;
    }
  }

  /** Team B of a pick is team B of the pick without its last position, less
      the player there. */
  lemma OthersWithoutLast<T>(players: seq<T>, pick: seq<nat>)
    requires pick != [] && Ascending(pick) && forall i :: 0 <= i < |pick| ==> pick[i] < |players|
    ensures multiset(Others(players, pick[..|pick| - 1]))
            == multiset(Others(players, pick)) + multiset{players[Last(pick)]}
  {
    var init := pick[..|pick| - 1];
    var x := Last(pick);
    assert pick == init + [x];
    assert x !in init by {
      forall j | 0 <= j < |init| ensures init[j] != x { assert pick[j] < pick[|pick| - 1]; }
    }
    forall i: nat | i != x ensures Unpicked(init)(i) == Unpicked(pick)(i) {
      assert (i in pick) == (i in init);
    }
    KeptUpToOneMore(players, Unpicked(init), Unpicked(pick), x, |players|);
  }

  /** For a pick, team A and team B have five players each and split the roster. */
  lemma PickSplitsRoster<T>(players: seq<T>, pick: seq<nat>)
    requires |players| == ROSTER_SIZE && IsPick(pick)
    ensures |TeamOf(players, pick)| == TEAM_SIZE && |Others(players, pick)| == TEAM_SIZE
    ensures multiset(TeamOf(players, pick)) + multiset(Others(players, pick)) == multiset(players)
  {
    TeamsPartitionRoster(players, pick);
  }

  lemma OthersOfPickAreFive<T>(players: seq<T>, pick: seq<nat>)
    requires |players| == ROSTER_SIZE && IsPick(pick)
    ensures |Others(players, pick)| == TEAM_SIZE
  {
    TeamsPartitionRoster(players, pick);
  }

  // ---------------------------------------------------------------------------
  // Scoring and selecting.

  /** Both sides' best assignments and the two gaps of one split. */
  function Score(players: seq<Player>, pick: seq<nat>): Candidate
    requires |players| == ROSTER_SIZE && IsPick(pick)
  {
    OthersOfPickAreFive(players, pick);
    var resA := BestRoleAssignment(TeamOf(players, pick));
    var resB := BestRoleAssignment(Others(players, pick));
    Candidate(resA, resB, Abs(resA.algoScore - resB.algoScore), Abs(resA.realScore - resB.realScore))
  }

  /** The selection order: smaller algoDiff first, then smaller realDiff. */
  predicate LexLess(c: Candidate, d: Candidate)
  {
    c.algoDiff < d.algoDiff || (c.algoDiff == d.algoDiff && c.realDiff < d.realDiff)
  }

  /** The update test of `combine`, against a best that starts at +Infinity. */
  predicate Improves(c: Candidate, best: Option<Candidate>)
  {
    best.None? || LexLess(c, best.value)
  }

  /** A way of scoring the lists `combine` completes. */
  type Scorer = seq<nat> -> Candidate

  /** `score` applied to each of `picks`, in visiting order. */
  function ScoresBy(score: Scorer, picks: seq<seq<nat>>): (cands: seq<Candidate>)
    ensures |cands| == |picks|
  {
    if picks == [] then [] else ScoresBy(score, picks[..|picks| - 1]) + [score(Last(picks))]
  }

  lemma {:induction false} ScoresByAt(score: Scorer, picks: seq<seq<nat>>, i: nat)
    requires i < |picks|
    ensures ScoresBy(score, picks)[i] == score(picks[i])
  {
    if i < |picks| - 1 {
      ScoresByAt(score, picks[..|picks| - 1], i);
    }
  }

  lemma {:induction false} ScoresByAppend(score: Scorer, a: seq<seq<nat>>, b: seq<seq<nat>>)
    ensures ScoresBy(score, a + b) == ScoresBy(score, a) + ScoresBy(score, b)
  {
    if b == [] {
      assert a + b == a;
    } else {
      ScoresByAppend(score, a, b[..|b| - 1]);
      assert (a + b)[..|a + b| - 1] == a + b[..|b| - 1];
    }
  }

  /** Stands in for the score of a list that is not a five-position pick of a
      ten-player roster; `combine` never completes one. */
  const UNSCORED: Candidate :=
    var none := AssignmentResult(RoleAssignment([], [], []), 0, 0);
    Candidate(none, none, 0, 0)

  /** The scorer `combine` applies for a roster: `Score` on every pick. */
  function ScorerOf(players: seq<Player>): Scorer
  {
    pick => if |players| == ROSTER_SIZE && IsPick(pick) then Score(players, pick) else UNSCORED
  }

  /** The scores of the visited picks, in visiting order. */
  function Scores(players: seq<Player>, picks: seq<seq<nat>>): seq<Candidate>
  {
    ScoresBy(ScorerOf(players), picks)
  }

  /** Each visited pick is scored by `Score`. */
  lemma ScoresAt(players: seq<Player>, picks: seq<seq<nat>>, i: nat)
    requires |players| == ROSTER_SIZE && i < |picks| && IsPick(picks[i])
    ensures Scores(players, picks)[i] == Score(players, picks[i])
  {
    ScoresByAt(ScorerOf(players), picks, i);
  }

  /** The best-so-far after `combine` has weighed `cands`, starting from `best`. */
  function Scan(best: Option<Candidate>, cands: seq<Candidate>): Option<Candidate>
  {
    if cands == [] then best
    else
      var before := Scan(best, cands[..|cands| - 1]);
      if Improves(Last(cands), before) then Some(Last(cands)) else before
  }

  lemma {:induction false} ScanAppend(best: Option<Candidate>, a: seq<Candidate>, b: seq<Candidate>)
    ensures Scan(best, a + b) == Scan(Scan(best, a), b)
  {
    if b == [] {
      assert a + b == a;
    } else {
      ScanAppend(best, a, b[..|b| - 1]);
      assert (a + b)[..|a + b| - 1] == a + b[..|b| - 1];
    }
  }

  /** Visiting `a` and then `b` is visiting `a + b`. */
  lemma ScanScoresAppend(score: Scorer, best: Option<Candidate>, a: seq<seq<nat>>, b: seq<seq<nat>>)
    ensures Scan(best, ScoresBy(score, a + b)) == Scan(Scan(best, ScoresBy(score, a)), ScoresBy(score, b))
  {
    ScoresByAppend(score, a, b);
    ScanAppend(best, ScoresBy(score, a), ScoresBy(score, b));
  }

  lemma ScanOne(best: Option<Candidate>, c: Candidate)
    ensures Scan(best, [c]) == if Improves(c, best) then Some(c) else best
  {
    assert [c][..0] == [];
  }

  predicate IsFirstMinimum(cands: seq<Candidate>, k: int)
  {
    0 <= k < |cands|
    && (forall i :: 0 <= i < |cands| ==> !LexLess(cands[i], cands[k]))
    && (forall i :: 0 <= i < k ==> LexLess(cands[k], cands[i]))
  }

  /** From +Infinity, the scan ends on the first candidate whose gaps are minimal. */
  lemma {:induction false} ScanSelectsFirstMinimum(cands: seq<Candidate>)
    requires cands != []
    ensures exists k :: IsFirstMinimum(cands, k) && Scan(None, cands) == Some(cands[k])
  {
    var init := cands[..|cands| - 1];
    if init == [] {
      assert Scan(None, cands) == Some(cands[0]);
      assert IsFirstMinimum(cands, 0);
    } else {
      ScanSelectsFirstMinimum(init);
      var k :| IsFirstMinimum(init, k) && Scan(None, init) == Some(init[k]);
      if LexLess(Last(cands), init[k]) {
        assert IsFirstMinimum(cands, |cands| - 1);
      } else {
        assert IsFirstMinimum(cands, k);
      }
    }
  }

  /** What `balanceTeams` computes for a roster. */
  function Balance(players: seq<Player>): Outcome
  {
    if |players| != ROSTER_SIZE then Failed(WrongPlayerCount(|players|))
    else
      var best := Scan(None, Scores(players, Visited(|players|)));
      if best.None? then Failed(NoValidCombination)
      else Balanced(MatchResultData(
        TeamResult("TEAM 1", best.value.resA.assignment, best.value.resA.algoScore, best.value.resA.realScore),
        TeamResult("TEAM 2", best.value.resB.assignment, best.value.resB.algoScore, best.value.resB.realScore),
        best.value.realDiff))
  }

  /** A roster of any size other than ten is refused with its size. */
  lemma BalanceNeedsTenPlayers(players: seq<Player>)
    ensures Balance(players).Failed? <==> |players| != ROSTER_SIZE
    ensures |players| != ROSTER_SIZE ==> Balance(players) == Failed(WrongPlayerCount(|players|))
  {
    if |players| == ROSTER_SIZE {
      EveryPickIsVisited(|players|, [0, 1, 2, 3, 4]);
      ScanSelectsFirstMinimum(Scores(players, Visited(|players|)));
    }
  }

  /** The scan over all visited picks ends on a pick no other pick beats. */
  lemma {:induction false} ScanKeepsMinimalPick(players: seq<Player>) returns (pick: seq<nat>)
    requires |players| == ROSTER_SIZE
    ensures IsPick(pick)
    ensures Scan(None, Scores(players, Visited(|players|))) == Some(Score(players, pick))
    ensures forall other :: IsPick(other) ==> !LexLess(Score(players, other), Score(players, pick))
  {
    var picks := Visited(|players|);
    var cands := Scores(players, picks);
    EveryPickIsVisited(|players|, [0, 1, 2, 3, 4]);
    ScanSelectsFirstMinimum(cands);
    var k :| IsFirstMinimum(cands, k) && Scan(None, cands) == Some(cands[k]);
    AllVisitedArePicks(|players|, picks[k]);
    ScoresAt(players, picks, k);
    pick := picks[k];
    forall other | IsPick(other) ensures !LexLess(Score(players, other), Score(players, pick)) {
      EveryPickIsVisited(|players|, other);
      var j :| 0 <= j < |picks| && picks[j] == other;
      ScoresAt(players, picks, j);
    }
  }

  /** The kept split is one whose (algoDiff, realDiff) is lexicographically
      smallest among all ways of choosing five of the ten players as team A. */
  lemma BalanceIsOptimal(players: seq<Player>)
    requires |players| == ROSTER_SIZE
    ensures Balance(players).Balanced?
    ensures exists pick :: (IsPick(pick) && BalanceKeeps(players, pick)
      && forall other :: IsPick(other) ==> !LexLess(Score(players, other), Score(players, pick)))
  {
    var pick := ScanKeepsMinimalPick(players);
    assert BalanceKeeps(players, pick);
  }

  /** The result of `Balance` is the one of `pick`: its two teams, their scores
      and the real-score gap as `diff`. */
  predicate BalanceKeeps(players: seq<Player>, pick: seq<nat>)
    requires |players| == ROSTER_SIZE && IsPick(pick)
  {
    var c := Score(players, pick);
    Balance(players) == Balanced(MatchResultData(
      TeamResult("TEAM 1", c.resA.assignment, c.resA.algoScore, c.resA.realScore),
      TeamResult("TEAM 2", c.resB.assignment, c.resB.algoScore, c.resB.realScore),
      c.realDiff))
  }

  /** The result splits the roster into two teams of 1 tank, 2 DPS and 2
      supports, names them TEAM 1 and TEAM 2, and reports the real-score gap. */
  lemma BalanceSplitsRoster(players: seq<Player>)
    requires |players| == ROSTER_SIZE
    ensures Balance(players).Balanced?
    ensures var m := Balance(players).result;
      && m.teamA.name == "TEAM 1" && m.teamB.name == "TEAM 2"
      && WellShaped(m.teamA.assignment) && WellShaped(m.teamB.assignment)
      && multiset(Members(m.teamA.assignment)) + multiset(Members(m.teamB.assignment)) == multiset(players)
      && DiffIsRealGap(m)
  {
    BalanceIsOptimal(players);
    var pick :| IsPick(pick) && BalanceKeeps(players, pick)
      && forall other :: IsPick(other) ==> !LexLess(Score(players, other), Score(players, pick));
    PickSplitsRoster(players, pick);
    BestRoleAssignmentIsValid(TeamOf(players, pick));
    BestRoleAssignmentIsValid(Others(players, pick));
  }

  // ---------------------------------------------------------------------------
  // The search as the source runs it.

  /** `score` gives `Score` on every pick of the roster `src`. */
  ghost predicate ScoresPicks(src: seq<Player>, score: Scorer)
  {
    |src| == ROSTER_SIZE && forall p {:trigger score(p), IsPick(p)} :: IsPick(p) ==> score(p) == Score(src, p)
  }

  lemma ScorerOfScoresPicks(src: seq<Player>)
    requires |src| == ROSTER_SIZE
    ensures ScoresPicks(src, ScorerOf(src))
  {
  }

  /** The best so far after weighing one more candidate. */
  function Keep(best: Option<Candidate>, c: Candidate): Option<Candidate>
  {
    if Improves(c, best) then Some(c) else best
  }

  /** What `combine(src, len, start, picked)` leaves as the best so far,
      following its recursion: a completed pick is weighed, otherwise the loop
      runs over every next position. */
  function CombineResult(score: Scorer, n: nat, len: nat, start: nat, picked: seq<nat>, best: Option<Candidate>): Option<Candidate>
    decreases len, 1, 0
  {
    if len == 0 then Keep(best, score(picked))
    else LoopResult(score, n, len, start, picked, best, n - len + 1)
  }

  /** The best so far after the loop iterations `start <= i < end` of `combine`. */
  function LoopResult(score: Scorer, n: nat, len: nat, start: nat, picked: seq<nat>, best: Option<Candidate>, end: int): Option<Candidate>
    requires len > 0
    decreases len, 0, end - start
  {
    if end <= start then best
    else CombineResult(score, n, len - 1, end, picked + [end - 1], LoopResult(score, n, len, start, picked, best, end - 1))
  }

  /** The recursion of `combine` weighs the lists `Combinations` visits, in order. */
  lemma {:induction false} CombineResultIsScan(score: Scorer, n: nat, len: nat, start: nat, picked: seq<nat>, best: Option<Candidate>)
    ensures CombineResult(score, n, len, start, picked, best) == Scan(best, ScoresBy(score, Combinations(n, len, start, picked)))
    decreases len, 1, 0
  {
    if len == 0 {
      assert ScoresBy(score, [picked]) == [score(picked)];
      ScanOne(best, score(picked));
    } else {
      LoopResultIsScan(score, n, len, start, picked, best, n - len + 1);
    }
  }

  lemma {:induction false} LoopResultIsScan(score: Scorer, n: nat, len: nat, start: nat, picked: seq<nat>, best: Option<Candidate>, end: int)
    requires len > 0
    ensures LoopResult(score, n, len, start, picked, best, end) == Scan(best, ScoresBy(score, CombinationsBelow(n, len, start, picked, end)))
    decreases len, 0, end - start
  {
    if end > start {
      var before := LoopResult(score, n, len, start, picked, best, end - 1);
      var done := CombinationsBelow(n, len, start, picked, end - 1);
      var more := Combinations(n, len - 1, end, picked + [end - 1]);
      LoopStep(score, n, len, start, picked, best, end);
      CombineResultIsScan(score, n, len - 1, end, picked + [end - 1], before);
      LoopResultIsScan(score, n, len, start, picked, best, end - 1);
      ScanInTwo(score, best, before, done, more, LoopResult(score, n, len, start, picked, best, end));
    }
  }

  /** Scanning two runs of lists one after the other is scanning them joined. */
  lemma ScanInTwo(score: Scorer, best: Option<Candidate>, before: Option<Candidate>, done: seq<seq<nat>>, more: seq<seq<nat>>, result: Option<Candidate>)
    requires before == Scan(best, ScoresBy(score, done))
    requires result == Scan(before, ScoresBy(score, more))
    ensures result == Scan(best, ScoresBy(score, done + more))
  {
    ScanScoresAppend(score, best, done, more);
  }

  /** One iteration of `combine`'s loop: it runs the recursive call on the best
      so far, and visits that call's lists after the earlier ones. */
  lemma LoopStep(score: Scorer, n: nat, len: nat, start: nat, picked: seq<nat>, best: Option<Candidate>, end: int)
    requires len > 0 && end > start
    ensures LoopResult(score, n, len, start, picked, best, end)
         == CombineResult(score, n, len - 1, end, picked + [end - 1], LoopResult(score, n, len, start, picked, best, end - 1))
    ensures CombinationsBelow(n, len, start, picked, end)
         == CombinationsBelow(n, len, start, picked, end - 1) + Combinations(n, len - 1, end, picked + [end - 1])
  {
  }

  /** The `len === 0` step of `combine`: score the completed pick and keep it
      when it beats the best so far. */
  method Weigh(src: seq<Player>, picked: seq<nat>, best: Option<Candidate>, ghost score: Scorer)
    returns (result: Option<Candidate>)
    requires ScoresPicks(src, score) && IsPick(picked)
    ensures result == Keep(best, score(picked))
  {
    var teamA := TeamOf(src, picked);
    var teamB := Others(src, picked);
    PickSplitsRoster(src, picked);

    var resA := GetBestRoleAssignment(teamA);
    var resB := GetBestRoleAssignment(teamB);

    var algoDiff := Abs(resA.algoScore - resB.algoScore);
    var realDiff := Abs(resA.realScore - resB.realScore);
    ghost var cand := Candidate(resA, resB, algoDiff, realDiff);
    assert cand == Score(src, picked);
    assert score(picked) == cand;

    if best.None? || algoDiff < best.value.algoDiff || (algoDiff == best.value.algoDiff && realDiff < best.value.realDiff) {
      result := Some(Candidate(resA, resB, algoDiff, realDiff));
    } else {
      result := best;
    }
  }

  /** `combine`: visit every completion of `picked`, updating the best so far. */
  method Combine(src: seq<Player>, len: nat, start: nat, picked: seq<nat>, best: Option<Candidate>, ghost score: Scorer)
    returns (result: Option<Candidate>)
    requires ScoresPicks(src, score) && |picked| + len == TEAM_SIZE && start <= |src|
    requires Ascending(picked) && forall i :: 0 <= i < |picked| ==> picked[i] < start
    ensures result == CombineResult(score, |src|, len, start, picked, best)
    decreases len, 1
  {
    if len == 0 {
      result := Weigh(src, picked, best, score);
    } else {
      result := Extend(src, len, start, picked, best, score);
    }
  }

  /** The loop of `combine` for `len > 0`: try each next position in turn. */
  method Extend(src: seq<Player>, len: nat, start: nat, picked: seq<nat>, best: Option<Candidate>, ghost score: Scorer)
    returns (result: Option<Candidate>)
    requires ScoresPicks(src, score) && |picked| + len == TEAM_SIZE && start <= |src| && len > 0
    requires Ascending(picked) && forall i :: 0 <= i < |picked| ==> picked[i] < start
    ensures result == CombineResult(score, |src|, len, start, picked, best)
    decreases len, 0
  {
    result := best;
    var i := start;
    while i <= |src| - len
      invariant start <= i && (i <= |src| - len + 1 || i == start)
      invariant result == LoopResult(score, |src|, len, start, picked, best, i)
    {
      PickOneMore(picked, start, i);
      result := Combine(src, len - 1, i + 1, picked + [i], result, score);
      i := i + 1;
    }
    if i == start && i > |src| - len + 1 {
      assert LoopResult(score, |src|, len, start, picked, best, |src| - len + 1) == best;
    }
  }

  lemma PickOneMore(picked: seq<nat>, start: nat, i: nat)
    requires Ascending(picked) && (forall j :: 0 <= j < |picked| ==> picked[j] < start) && start <= i
    ensures Ascending(picked + [i]) && forall j :: 0 <= j < |picked + [i]| ==> (picked + [i])[j] < i + 1
  {
  }

  /** `balanceTeams`, without its timer, alert and React-state plumbing. */
  method BalanceTeams(players: seq<Player>) returns (outcome: Outcome)
    ensures outcome == Balance(players)
  {
    if |players| != ROSTER_SIZE {
      return Failed(WrongPlayerCount(|players|));
    }
    ScorerOfScoresPicks(players);
    var best := Combine(players, TEAM_SIZE, 0, [], None, ScorerOf(players));
    CombineResultIsScan(ScorerOf(players), |players|, TEAM_SIZE, 0, [], None);
    if best.None? {
      return Failed(NoValidCombination);
    }
    var finalTeamA := TeamResult("TEAM 1", best.value.resA.assignment, best.value.resA.algoScore, best.value.resA.realScore);
    var finalTeamB := TeamResult("TEAM 2", best.value.resB.assignment, best.value.resB.algoScore, best.value.resB.realScore);
    outcome := Balanced(MatchResultData(finalTeamA, finalTeamB, best.value.realDiff));
  }
}
