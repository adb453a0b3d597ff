/** The earlier engine's search: backtracking permutations, role assignment by
    the lexicographic (tank, DPS, support) maximum, the weighted priority value
    and the best split of ten player rows into two teams. */
module LegacyBalance {

  import opened Types
  import opened Wrappers
  import opened LegacyScore
  import opened LegacyBits
  import opened SplitSearch
  import RoleSearch

  /** A row of the player table: a name and one rank text per role. */
  datatype PlayerRow = PlayerRow(name: string, tankRank: string, dpsRank: string, supportRank: string)

  // ---------------------------------------------------------------------------
  // `permute`: backtracking over used flags.

  function Falses(n: nat): (used: seq<bool>)
    ensures |used| == n
  {
    seq(n, _ => false)
  }

  /** What `bt` emits from a state (used flags, current prefix): a full prefix
      as it is, otherwise the extensions by every unused entry in index order. */
  function Arrangements<T>(a: seq<T>, used: seq<bool>, c: seq<T>): seq<seq<T>>
    requires |used| == |a| && |c| <= |a|
    decreases |a| - |c|, 1, 0
  {
    if |c| == |a| then [c] else Extensions(a, used, c, 0)
  }

  /** The part of `bt`'s loop from position `i` on. */
  function Extensions<T>(a: seq<T>, used: seq<bool>, c: seq<T>, i: nat): seq<seq<T>>
    requires |used| == |a| && |c| < |a| && i <= |a|
    decreases |a| - |c|, 0, |a| - i
  {
    if i == |a| then []
    else (if used[i] then [] else Arrangements(a, used[i := true], c + [a[i]])) + Extensions(a, used, c, i + 1)
  }

  /** `bt`: the flags come back as they were and `r` is extended by everything
      emitted from this state. The prefix `c` is passed as a value. */
  method Backtrack<T>(a: seq<T>, u: array<bool>, c: seq<T>, r: seq<seq<T>>) returns (out: seq<seq<T>>)
    requires u.Length == |a| && |c| <= |a|
    modifies u
    ensures u[..] == old(u[..])
    ensures out == r + Arrangements(a, old(u[..]), c)
    decreases |a| - |c|
  {
    if |c| == |a| {
      return r + [c];
    }
    ghost var used := u[..];
    out := r;
    var i := 0;
    while i < |a|
      invariant i <= |a| && u[..] == used
      invariant out + Extensions(a, used, c, i) == r + Extensions(a, used, c, 0)
    {
      if !u[i] {
        u[i] := true;
        assert u[..] == used[i := true];
        ghost var before := out;
        out := Backtrack(a, u, c + [a[i]], out);
        u[i] := false;
        assert u[..] == used;
        ghost var here := Arrangements(a, used[i := true], c + [a[i]]);
        assert Extensions(a, used, c, i) == here + Extensions(a, used, c, i + 1);
        assert out + Extensions(a, used, c, i + 1) == before + (here + Extensions(a, used, c, i + 1));
      } else {
        assert Extensions(a, used, c, i) == [] + Extensions(a, used, c, i + 1);
      }
      i := i + 1;
    }
  }

  /** `permute`: every arrangement of `a`, starting with nothing used. */
  method Permute<T>(a: seq<T>) returns (r: seq<seq<T>>)
    ensures r == Arrangements(a, Falses(|a|), [])
  {
    var u := new bool[|a|](_ => false);
    assert u[..] == Falses(|a|);
    r := Backtrack(a, u, [], []);
  }

  /** The entries at unused positions from `i` on. */
  function UnusedFrom<T>(a: seq<T>, used: seq<bool>, i: nat): multiset<T>
    requires |used| == |a| && i <= |a|
    decreases |a| - i
  {
    if i == |a| then multiset{} else (if used[i] then multiset{} else multiset{a[i]}) + UnusedFrom(a, used, i + 1)
  }

  /** Marking position `j` used removes exactly `a[j]` from what is unused. */
  lemma {:induction false} UnusedFromTake<T>(a: seq<T>, used: seq<bool>, i: nat, j: nat)
    requires |used| == |a| && i <= |a| && j < |a| && !used[j]
    ensures j < i ==> UnusedFrom(a, used[j := true], i) == UnusedFrom(a, used, i)
    ensures i <= j ==> UnusedFrom(a, used[j := true], i) + multiset{a[j]} == UnusedFrom(a, used, i)
    decreases |a| - i
  {
    if i < |a| {
      var used' := used[j := true];
      var rest, rest' := UnusedFrom(a, used, i + 1), UnusedFrom(a, used', i + 1);
      UnusedFromTake(a, used, i + 1, j);
      if i == j {
        assert UnusedFrom(a, used', i) == rest';
        assert UnusedFrom(a, used, i) == multiset{a[j]} + rest;
      } else {
        var here := if used[i] then multiset{} else multiset{a[i]};
        assert used'[i] == used[i];
        assert UnusedFrom(a, used', i) == here + rest';
        assert UnusedFrom(a, used, i) == here + rest;
      }
    }
  }

  lemma {:induction false} UnusedFromNothingUsed<T>(a: seq<T>, i: nat)
    requires i <= |a|
    ensures UnusedFrom(a, Falses(|a|), i) == multiset(a[i..])
    decreases |a| - i
  {
    if i < |a| {
      UnusedFromNothingUsed(a, i + 1);
      assert a[i..] == [a[i]] + a[i + 1..];
    }
  }

  /** Every emitted arrangement is the prefix followed by a rearrangement of
      the unused entries. */
  lemma {:induction false} ArrangementsRearrange<T>(a: seq<T>, used: seq<bool>, c: seq<T>, p: seq<T>)
    requires |used| == |a| && |c| <= |a| && |c| + |UnusedFrom(a, used, 0)| == |a|
    requires p in Arrangements(a, used, c)
    ensures multiset(p) == multiset(c) + UnusedFrom(a, used, 0)
    decreases |a| - |c|, 1, 0
  {
    if |c| < |a| {
      ExtensionsRearrange(a, used, c, 0, p);
    }
  }

  lemma {:induction false} ExtensionsRearrange<T>(a: seq<T>, used: seq<bool>, c: seq<T>, i: nat, p: seq<T>)
    requires |used| == |a| && |c| < |a| && i <= |a| && |c| + |UnusedFrom(a, used, 0)| == |a|
    requires p in Extensions(a, used, c, i)
    ensures multiset(p) == multiset(c) + UnusedFrom(a, used, 0)
    decreases |a| - |c|, 0, |a| - i
  {
    if i < |a| {
      if !used[i] && p in Arrangements(a, used[i := true], c + [a[i]]) {
        UnusedFromTake(a, used, 0, i);
        ArrangementsRearrange(a, used[i := true], c + [a[i]], p);
      } else {
        ExtensionsRearrange(a, used, c, i + 1, p);
      }
    }
  }

  /** From a prefix and `m` unused entries, `bt` emits m! arrangements. */
  lemma {:induction false} ArrangementsCount<T>(a: seq<T>, used: seq<bool>, c: seq<T>)
    requires |used| == |a| && |c| <= |a| && |c| + |UnusedFrom(a, used, 0)| == |a|
    ensures |Arrangements(a, used, c)| == RoleSearch.Factorial(|UnusedFrom(a, used, 0)|)
    decreases |a| - |c|, 1, 0, 0
  {
    if |c| < |a| {
      ExtensionsCount(a, used, c, 0);
    }
  }

  lemma {:induction false} ExtensionsCount<T>(a: seq<T>, used: seq<bool>, c: seq<T>, i: nat)
    requires |used| == |a| && |c| < |a| && i <= |a| && |c| + |UnusedFrom(a, used, 0)| == |a|
    ensures |Extensions(a, used, c, i)|
            == |UnusedFrom(a, used, i)| * RoleSearch.Factorial(|UnusedFrom(a, used, 0)| - 1)
    decreases |a| - |c|, 0, |a| - i, 1
  {
    if i < |a| {
      ExtensionsCount(a, used, c, i + 1);
      var f := RoleSearch.Factorial(|UnusedFrom(a, used, 0)| - 1);
      var rest := |UnusedFrom(a, used, i + 1)|;
      var later := Extensions(a, used, c, i + 1);
      assert |later| == rest * f;
      if !used[i] {
        var here := Arrangements(a, used[i := true], c + [a[i]]);
        assert Extensions(a, used, c, i) == here + later;
        ExtensionsCountHere(a, used, c, i);
        OneMoreCopy(rest, f);
      } else {
        assert Extensions(a, used, c, i) == later;
        assert UnusedFrom(a, used, i) == UnusedFrom(a, used, i + 1);
      }
    }
  }

  /** Taking the unused entry at `i` next leaves one fewer entry to arrange. */
  lemma {:induction false} ExtensionsCountHere<T>(a: seq<T>, used: seq<bool>, c: seq<T>, i: nat)
    requires |used| == |a| && |c| < |a| && i < |a| && !used[i] && |c| + |UnusedFrom(a, used, 0)| == |a|
    ensures |Arrangements(a, used[i := true], c + [a[i]])| == RoleSearch.Factorial(|UnusedFrom(a, used, 0)| - 1)
    ensures |UnusedFrom(a, used, i)| == |UnusedFrom(a, used, i + 1)| + 1
    decreases |a| - |c|, 0, |a| - i, 0
  {
    UnusedFromTake(a, used, 0, i);
    assert |UnusedFrom(a, used[i := true], 0)| == |UnusedFrom(a, used, 0)| - 1;
    ArrangementsCount(a, used[i := true], c + [a[i]]);
  }

  lemma OneMoreCopy(rest: int, f: int)
    ensures (rest + 1) * f == f + rest * f
  {
  }

  /** Every arrangement `permute` returns is a rearrangement of its input. */
  lemma PermuteRearranges<T>(a: seq<T>, p: seq<T>)
    requires p in Arrangements(a, Falses(|a|), [])
    ensures multiset(p) == multiset(a) && |p| == |a|
  {
    UnusedFromNothingUsed(a, 0);
    assert a[0..] == a;
    ArrangementsRearrange(a, Falses(|a|), [], p);
    assert |multiset(p)| == |p|;
  }

  /** `permute` returns |a|! arrangements. */
  lemma PermuteCount<T>(a: seq<T>)
    ensures |Arrangements(a, Falses(|a|), [])| == RoleSearch.Factorial(|a|)
  {
    UnusedFromNothingUsed(a, 0);
    assert a[0..] == a;
    ArrangementsCount(a, Falses(|a|), []);
  }

  /** Every arrangement has the input's length. */
  lemma ArrangementLengths<T>(a: seq<T>)
    ensures forall k :: 0 <= k < |Arrangements(a, Falses(|a|), [])| ==> |Arrangements(a, Falses(|a|), [])[k]| == |a|
  {
    var perms := Arrangements(a, Falses(|a|), []);
    forall k | 0 <= k < |perms| ensures |perms[k]| == |a| {
      PermuteRearranges(a, perms[k]);
    }
  }

  // ---------------------------------------------------------------------------
  // `assignRoles`.

  /** A player placed in a role, with the role's score. */
  datatype Slot = Slot(player: PlayerRow, value: int)

  /** The `{TANK, DPS, SUPPORT}` lists of (player, score) pairs. */
  datatype LegacyAssignment = LegacyAssignment(tank: seq<Slot>, dps: seq<Slot>, support: seq<Slot>)

  /** One permutation's outcome: the three role sums and the assignment. */
  datatype Scored = Scored(sumT: int, sumD: int, sumS: int, assign: LegacyAssignment)

  /** The rank text a player row holds for a role. */
  function RankText(p: PlayerRow, role: Role): string
  {
    match role
    case TANK => p.tankRank
    case DPS => p.dpsRank
    case SUPPORT => p.supportRank
  }

  /** The score of placing `p` in `role`. The search is stated for any scoring
      of rank texts; the engine scores with `RankScoreText`, through the cache. */
  function SlotValue(p: PlayerRow, role: Role, score: string -> int): int
  {
    score(RankText(p, role))
  }

  /** The score of the `i`-th slot of a permutation. */
  function ValueAt(perm: seq<PlayerRow>, i: nat, score: string -> int): int
    requires i < TEAM_SIZE <= |perm|
  {
    SlotValue(perm[i], RoleSearch.ROLE_SLOTS[i], score)
  }

  /** Pushes the pair onto the role's list and adds the value to the role's sum. */
  function AddSlot(s: Scored, role: Role, p: PlayerRow, v: int): Scored
  {
    match role
    case TANK => s.(sumT := s.sumT + v, assign := s.assign.(tank := s.assign.tank + [Slot(p, v)]))
    case DPS => s.(sumD := s.sumD + v, assign := s.assign.(dps := s.assign.dps + [Slot(p, v)]))
    case SUPPORT => s.(sumS := s.sumS + v, assign := s.assign.(support := s.assign.support + [Slot(p, v)]))
  }

  /** The inner loop after `n` slots: None once a slot scored <= 0 (`ok = false`). */
  function ScoreUpTo(perm: seq<PlayerRow>, n: nat, score: string -> int): Option<Scored>
    requires n <= TEAM_SIZE <= |perm|
  {
    if n == 0 then Some(Scored(0, 0, 0, LegacyAssignment([], [], [])))
    else
      match ScoreUpTo(perm, n - 1, score)
      case None => None
      case Some(s) =>
        var v := ValueAt(perm, n - 1, score);
        if v <= 0 then None else Some(AddSlot(s, RoleSearch.ROLE_SLOTS[n - 1], perm[n - 1], v))
  }

  /** A permutation's outcome: its first five players over the slot template. */
  function Evaluate(perm: seq<PlayerRow>, score: string -> int): Option<Scored>
    requires |perm| >= TEAM_SIZE
  {
    ScoreUpTo(perm, TEAM_SIZE, score)
  }

  /** The outcome of a permutation written out without the loop: valid exactly
      when all five slot scores are positive, and then the template's placement
      (one tank, two DPS, two support) with its three sums. */
  function WrittenOut(perm: seq<PlayerRow>, score: string -> int): Option<Scored>
    requires |perm| >= TEAM_SIZE
  {
    var v0, v1, v2 := ValueAt(perm, 0, score), ValueAt(perm, 1, score), ValueAt(perm, 2, score);
    var v3, v4 := ValueAt(perm, 3, score), ValueAt(perm, 4, score);
    if v0 > 0 && v1 > 0 && v2 > 0 && v3 > 0 && v4 > 0
    then Some(Scored(v0, v1 + v2, v3 + v4,
                     LegacyAssignment([Slot(perm[0], v0)],
                                      [Slot(perm[1], v1), Slot(perm[2], v2)],
                                      [Slot(perm[3], v3), Slot(perm[4], v4)])))
    else None
  }

  /** The loop computes the written-out outcome. */
  lemma EvaluateWrittenOut(perm: seq<PlayerRow>, score: string -> int)
    requires |perm| >= TEAM_SIZE
    ensures Evaluate(perm, score) == WrittenOut(perm, score)
  {
    var v0, v1, v2 := ValueAt(perm, 0, score), ValueAt(perm, 1, score), ValueAt(perm, 2, score);
    var v3, v4 := ValueAt(perm, 3, score), ValueAt(perm, 4, score);
    var t0, d1, d2, s3, s4 := Slot(perm[0], v0), Slot(perm[1], v1), Slot(perm[2], v2), Slot(perm[3], v3), Slot(perm[4], v4);
    assert ScoreUpTo(perm, 0, score) == Some(Scored(0, 0, 0, LegacyAssignment([], [], [])));
    assert RoleSearch.ROLE_SLOTS == [TANK, DPS, DPS, SUPPORT, SUPPORT];
    assert [] + [t0] == [t0] && [] + [d1] == [d1] && [d1] + [d2] == [d1, d2];
    assert [] + [s3] == [s3] && [s3] + [s4] == [s3, s4];
    if v0 <= 0 {
      RejectedStaysRejected(perm, 1, score);
      return;
    }
    assert ScoreUpTo(perm, 1, score) == Some(Scored(v0, 0, 0, LegacyAssignment([t0], [], [])));
    if v1 <= 0 {
      RejectedStaysRejected(perm, 2, score);
      return;
    }
    assert ScoreUpTo(perm, 2, score) == Some(Scored(v0, v1, 0, LegacyAssignment([t0], [d1], [])));
    if v2 <= 0 {
      RejectedStaysRejected(perm, 3, score);
      return;
    }
    assert ScoreUpTo(perm, 3, score) == Some(Scored(v0, v1 + v2, 0, LegacyAssignment([t0], [d1, d2], [])));
    if v3 <= 0 {
      RejectedStaysRejected(perm, 4, score);
      return;
    }
    assert ScoreUpTo(perm, 4, score) == Some(Scored(v0, v1 + v2, v3, LegacyAssignment([t0], [d1, d2], [s3])));
  }

  /** One of the permutation's five slots scores <= 0. */
  predicate SomeSlotFails(perm: seq<PlayerRow>, score: string -> int)
    requires |perm| >= TEAM_SIZE
  {
    exists i :: 0 <= i < TEAM_SIZE && ValueAt(perm, i, score) <= 0
  }

  /** A permutation is rejected exactly when one of its five slots scores <= 0. */
  lemma RejectedIffSomeSlotFails(perm: seq<PlayerRow>, score: string -> int)
    requires |perm| >= TEAM_SIZE
    ensures Evaluate(perm, score).None? <==> SomeSlotFails(perm, score)
  {
    EvaluateWrittenOut(perm, score);
    if exists i :: 0 <= i < TEAM_SIZE && ValueAt(perm, i, score) <= 0 {
      var i :| 0 <= i < TEAM_SIZE && ValueAt(perm, i, score) <= 0;
      assert i == 0 || i == 1 || i == 2 || i == 3 || i == 4;
    } else {
      assert ValueAt(perm, 0, score) > 0 && ValueAt(perm, 1, score) > 0 && ValueAt(perm, 2, score) > 0;
      assert ValueAt(perm, 3, score) > 0 && ValueAt(perm, 4, score) > 0;
    }
  }

  /** Once a slot has failed, the permutation stays rejected. */
  lemma {:induction false} RejectedStaysRejected(perm: seq<PlayerRow>, n: nat, score: string -> int)
    requires n <= TEAM_SIZE <= |perm| && ScoreUpTo(perm, n, score).None?
    ensures Evaluate(perm, score).None?
    decreases TEAM_SIZE - n
  {
    if n < TEAM_SIZE {
      RejectedStaysRejected(perm, n + 1, score);
    }
  }

  /** `cmp(a, b) > 0`: larger tank sum, then DPS sum, then support sum. */
  predicate LexGreater(x: Scored, y: Scored)
  {
    x.sumT > y.sumT
    || (x.sumT == y.sumT && x.sumD > y.sumD)
    || (x.sumT == y.sumT && x.sumD == y.sumD && x.sumS > y.sumS)
  }

  /** The update `if (!best || cmp(cur, best) > 0) best = cur`, after skipping
      rejected permutations. */
  function Keep(best: Option<Scored>, cur: Option<Scored>): Option<Scored>
  {
    if cur.Some? && (best.None? || LexGreater(cur.value, best.value)) then cur else best
  }

  predicate AllLong<T>(perms: seq<seq<T>>)
  {
    forall k :: 0 <= k < |perms| ==> |perms[k]| >= TEAM_SIZE
  }

  /** The best after the first `j` permutations. */
  function BestUpTo(perms: seq<seq<PlayerRow>>, j: nat, score: string -> int): Option<Scored>
    requires AllLong(perms) && j <= |perms|
  {
    if j == 0 then None else Keep(BestUpTo(perms, j - 1, score), Evaluate(perms[j - 1], score))
  }

  /** The permutations `assignRoles` walks. */
  function TeamArrangements(team: seq<PlayerRow>): (perms: seq<seq<PlayerRow>>)
    requires |team| >= TEAM_SIZE
    ensures AllLong(perms)
  {
    ArrangementLengths(team);
    Arrangements(team, Falses(|team|), [])
  }

  /** What `assignRoles(team)` returns under a scoring. */
  function AssignRolesWith(team: seq<PlayerRow>, score: string -> int): Option<LegacyAssignment>
    requires |team| >= TEAM_SIZE
  {
    var perms := TeamArrangements(team);
    match BestUpTo(perms, |perms|, score)
    case None => None
    case Some(b) => Some(b.assign)
  }

  /** `scoreCached` of the player's rank text for a role. */
  method CachedValue(p: PlayerRow, role: Role, cache: ScoreCache, ghost score: string -> int) returns (v: int)
    requires cache.Valid() && IsRankScore(score)
    modifies cache
    ensures cache.Valid()
    ensures v == SlotValue(p, role, score)
  {
    v := cache.Get(RankText(p, role));
  }

  /** The inner loop of `assignRoles` for one permutation, scores read through the cache. */
  method ScorePermutation(perm: seq<PlayerRow>, cache: ScoreCache, ghost score: string -> int) returns (cur: Option<Scored>)
    requires |perm| >= TEAM_SIZE && cache.Valid() && IsRankScore(score)
    modifies cache
    ensures cache.Valid()
    ensures cur == Evaluate(perm, score)
  {
    var tank, dps, support := [], [], [];
    var sumT, sumD, sumS := 0, 0, 0;
    var i := 0;
    while i < TEAM_SIZE
      invariant i <= TEAM_SIZE && cache.Valid()
      invariant ScoreUpTo(perm, i, score) == Some(Scored(sumT, sumD, sumS, LegacyAssignment(tank, dps, support)))
    {
      var role := RoleSearch.ROLE_SLOTS[i];
      var p := perm[i];
      var val := CachedValue(p, role, cache, score);
      if val <= 0 {
        RejectedStaysRejected(perm, i + 1, score);
        return None;
      }
      if role == TANK {
        tank := tank + [Slot(p, val)];
        sumT := sumT + val;
      } else if role == DPS {
        dps := dps + [Slot(p, val)];
        sumD := sumD + val;
      } else {
        support := support + [Slot(p, val)];
        sumS := sumS + val;
      }
      i := i + 1;
    }
    cur := Some(Scored(sumT, sumD, sumS, LegacyAssignment(tank, dps, support)));
  }

  /** `assignRoles`: the best valid permutation's assignment, or None. */
  method AssignRoles(team: seq<PlayerRow>, cache: ScoreCache, ghost score: string -> int)
    returns (result: Option<LegacyAssignment>)
    requires |team| >= TEAM_SIZE && cache.Valid() && IsRankScore(score)
    modifies cache
    ensures cache.Valid()
    ensures result == AssignRolesWith(team, score)
  {
    var perms := Permute(team);
    assert perms == TeamArrangements(team);
    var best: Option<Scored> := None;
    var j := 0;
    while j < |perms|
      invariant j <= |perms| && cache.Valid()
      invariant best == BestUpTo(perms, j, score)
    {
      var cur := ScorePermutation(perms[j], cache, score);
      if cur.Some? && (best.None? || LexGreater(cur.value, best.value)) {
        best := cur;
      }
      j := j + 1;
    }
    result := if best.None? then None else Some(best.value.assign);
  }

  /** The scan ends empty exactly when every permutation was rejected. */
  lemma {:induction false} BestUpToNone(perms: seq<seq<PlayerRow>>, j: nat, score: string -> int)
    requires AllLong(perms) && j <= |perms|
    ensures BestUpTo(perms, j, score).None? <==> forall k :: 0 <= k < j ==> Evaluate(perms[k], score).None?
  {
    if j > 0 {
      BestUpToNone(perms, j - 1, score);
    }
  }

  /** The scan ends on the first permutation whose sums are lexicographically maximal. */
  lemma {:induction false} BestUpToFirstMaximum(perms: seq<seq<PlayerRow>>, j: nat, score: string -> int) returns (k: nat)
    requires AllLong(perms) && j <= |perms| && BestUpTo(perms, j, score).Some?
    ensures k < j && Evaluate(perms[k], score) == BestUpTo(perms, j, score)
    ensures forall i :: 0 <= i < j && Evaluate(perms[i], score).Some? ==>
              !LexGreater(Evaluate(perms[i], score).value, BestUpTo(perms, j, score).value)
    ensures forall i :: 0 <= i < k && Evaluate(perms[i], score).Some? ==>
              LexGreater(BestUpTo(perms, j, score).value, Evaluate(perms[i], score).value)
  {
    var before := BestUpTo(perms, j - 1, score);
    var cur := Evaluate(perms[j - 1], score);
    if before.None? {
      BestUpToNone(perms, j - 1, score);
      k := j - 1;
    } else {
      k := BestUpToFirstMaximum(perms, j - 1, score);
      if cur.Some? && LexGreater(cur.value, before.value) {
        k := j - 1;
      }
    }
  }

  /** `assignRoles` is null exactly when every permutation puts someone in a
      role scoring <= 0. */
  lemma AssignRolesNull(team: seq<PlayerRow>, score: string -> int)
    requires |team| >= TEAM_SIZE
    ensures var perms := TeamArrangements(team);
            AssignRolesWith(team, score).None? <==>
            forall k :: 0 <= k < |perms| ==> SomeSlotFails(perms[k], score)
  {
    var perms := TeamArrangements(team);
    if BestUpTo(perms, |perms|, score).None? {
      BestUpToNone(perms, |perms|, score);
      forall k | 0 <= k < |perms|
        ensures SomeSlotFails(perms[k], score)
      {
        RejectedIffSomeSlotFails(perms[k], score);
      }
    } else {
      var k := BestUpToFirstMaximum(perms, |perms|, score);
      RejectedIffSomeSlotFails(perms[k], score);
    }
  }

  /** `assignRoles` returns the assignment of the first permutation whose
      (tank, DPS, support) sums are the lexicographic maximum over all valid
      permutations. */
  lemma AssignRolesIsFirstMaximum(team: seq<PlayerRow>, score: string -> int) returns (k: nat)
    requires |team| >= TEAM_SIZE && AssignRolesWith(team, score).Some?
    ensures var perms := TeamArrangements(team);
            k < |perms| && Evaluate(perms[k], score).Some?
            && Evaluate(perms[k], score).value.assign == AssignRolesWith(team, score).value
            && (forall i :: 0 <= i < |perms| && Evaluate(perms[i], score).Some? ==>
                  !LexGreater(Evaluate(perms[i], score).value, Evaluate(perms[k], score).value))
            && (forall i :: 0 <= i < k && Evaluate(perms[i], score).Some? ==>
                  LexGreater(Evaluate(perms[k], score).value, Evaluate(perms[i], score).value))
  {
    var perms := TeamArrangements(team);
    k := BestUpToFirstMaximum(perms, |perms|, score);
  }

  function PlayersOf(slots: seq<Slot>): (players: seq<PlayerRow>)
    ensures |players| == |slots|
  {
    if slots == [] then [] else PlayersOf(slots[..|slots| - 1]) + [slots[|slots| - 1].player]
  }

  /** The players of an assignment, tank first, then DPS, then support. */
  function SlotPlayers(a: LegacyAssignment): seq<PlayerRow>
  {
    PlayersOf(a.tank) + PlayersOf(a.dps) + PlayersOf(a.support)
  }

  /** Each slot holds the player's own score for the role. */
  predicate Honest(slots: seq<Slot>, role: Role, score: string -> int)
  {
    forall i :: 0 <= i < |slots| ==> slots[i].value > 0 && slots[i].value == SlotValue(slots[i].player, role, score)
  }

  /** The documented shape: one tank, two DPS, two support, every value
      positive and equal to the player's score in that role. */
  predicate WellFormed(a: LegacyAssignment, score: string -> int)
  {
    |a.tank| == 1 && |a.dps| == 2 && |a.support| == 2
    && Honest(a.tank, TANK, score) && Honest(a.dps, DPS, score) && Honest(a.support, SUPPORT, score)
  }

  lemma EvaluationIsWellFormed(perm: seq<PlayerRow>, score: string -> int)
    requires |perm| >= TEAM_SIZE && Evaluate(perm, score).Some?
    ensures WellFormed(Evaluate(perm, score).value.assign, score)
    ensures SlotPlayers(Evaluate(perm, score).value.assign) == perm[..TEAM_SIZE]
  {
    EvaluateWrittenOut(perm, score);
    var t0 := Slot(perm[0], ValueAt(perm, 0, score));
    var d1, d2 := Slot(perm[1], ValueAt(perm, 1, score)), Slot(perm[2], ValueAt(perm, 2, score));
    var s3, s4 := Slot(perm[3], ValueAt(perm, 3, score)), Slot(perm[4], ValueAt(perm, 4, score));
    assert Evaluate(perm, score).value.assign == LegacyAssignment([t0], [d1, d2], [s3, s4]);
    PlayersOfFew(t0, d1, d2);
    PlayersOfFew(t0, s3, s4);
    assert perm[..TEAM_SIZE] == [perm[0]] + [perm[1], perm[2]] + [perm[3], perm[4]];
  }

  lemma PlayersOfFew(x: Slot, y: Slot, z: Slot)
    ensures PlayersOf([x]) == [x.player] && PlayersOf([y, z]) == [y.player, z.player]
  {
    assert [y, z][..1] == [y];
  }

  /** A five-player team's assignment is well formed and places exactly the team. */
  lemma AssignRolesPlacesTheTeam(team: seq<PlayerRow>, score: string -> int)
    requires |team| == TEAM_SIZE && AssignRolesWith(team, score).Some?
    ensures WellFormed(AssignRolesWith(team, score).value, score)
    ensures multiset(SlotPlayers(AssignRolesWith(team, score).value)) == multiset(team)
  {
    var perms := TeamArrangements(team);
    var k := AssignRolesIsFirstMaximum(team, score);
    var perm := perms[k];
    PermuteRearranges(team, perm);
    EvaluationIsWellFormed(perm, score);
    assert perm[..TEAM_SIZE] == perm;
  }

  // ---------------------------------------------------------------------------
  // `teamPriorityValue`.

  /** A priority value and the three role sums it is made of. */
  datatype Priority = Priority(value: int, sumT: int, sumD: int, sumS: int)

  /** `sumT*1e6 + sumD*1e3 + sumS`; the sums are integers far inside the range
      where doubles are exact. */
  function Weighted(t: int, d: int, s: int): int
  {
    t * 1000000 + d * 1000 + s
  }

  function SumValues(slots: seq<Slot>): int
  {
    if slots == [] then 0 else SumValues(slots[..|slots| - 1]) + slots[|slots| - 1].value
  }

  /** `teamPriorityValue`: the role sums of an assignment and their weighted value. */
  function TeamPriorityValue(a: LegacyAssignment): (p: Priority)
    ensures p.value == Weighted(p.sumT, p.sumD, p.sumS)
  {
    var t := SumValues(a.tank);
    var d := SumValues(a.dps);
    var s := SumValues(a.support);
    Priority(Weighted(t, d, s), t, d, s)
  }

  /** The priority of a permutation's assignment carries the permutation's sums. */
  lemma PriorityOfEvaluation(perm: seq<PlayerRow>, score: string -> int)
    requires |perm| >= TEAM_SIZE && Evaluate(perm, score).Some?
    ensures var s := Evaluate(perm, score).value;
            TeamPriorityValue(s.assign) == Priority(Weighted(s.sumT, s.sumD, s.sumS), s.sumT, s.sumD, s.sumS)
  {
    EvaluateWrittenOut(perm, score);
    var a := Evaluate(perm, score).value.assign;
    assert a.tank[..0] == [] && a.dps[..1] == [a.dps[0]] && a.support[..1] == [a.support[0]];
    assert SumValues(a.tank) == a.tank[0].value;
    assert SumValues(a.dps[..1]) == a.dps[0].value;
    assert SumValues(a.support[..1]) == a.support[0].value;
  }

  /** Scores as `rankScoreText` produces them: multiples of 100, at most 4700. */
  ghost predicate ScoreLike(score: string -> int)
  {
    forall s :: score(s) % 100 == 0 && score(s) <= 4700
  }

  lemma RankScoreTextIsScoreLike()
    ensures ScoreLike(RankScoreText)
  {
  }

  /** Role sums of a valid permutation: multiples of 100, DPS and support
      between 0 and 9400. */
  predicate SumsInRange(s: Scored)
  {
    s.sumT % 100 == 0 && s.sumD % 100 == 0 && s.sumS % 100 == 0
    && 0 <= s.sumD <= 9400 && 0 <= s.sumS <= 9400
  }

  lemma EvaluationInRange(perm: seq<PlayerRow>, score: string -> int)
    requires |perm| >= TEAM_SIZE && ScoreLike(score) && Evaluate(perm, score).Some?
    ensures SumsInRange(Evaluate(perm, score).value)
  {
    EvaluateWrittenOut(perm, score);
  }

  /** With sums in range the weighted value orders exactly as the lexicographic
      (tank, DPS, support) comparison: the weights never let a lower role
      outweigh a higher one. */
  lemma {:induction false} WeightedIsLexicographic(x: Scored, y: Scored)
    requires SumsInRange(x) && SumsInRange(y)
    ensures Weighted(x.sumT, x.sumD, x.sumS) > Weighted(y.sumT, y.sumD, y.sumS) <==> LexGreater(x, y)
  {
    var t1, d1, s1 := x.sumT / 100, x.sumD / 100, x.sumS / 100;
    var t2, d2, s2 := y.sumT / 100, y.sumD / 100, y.sumS / 100;
    assert x.sumT == 100 * t1 && x.sumD == 100 * d1 && x.sumS == 100 * s1;
    assert y.sumT == 100 * t2 && y.sumD == 100 * d2 && y.sumS == 100 * s2;
    assert Weighted(x.sumT, x.sumD, x.sumS) == 100000000 * t1 + 100000 * d1 + 100 * s1;
    assert Weighted(y.sumT, y.sumD, y.sumS) == 100000000 * t2 + 100000 * d2 + 100 * s2;
  }

  /** So the assignment `assignRoles` picks has the largest priority value of
      all valid permutations. */
  lemma AssignRolesMaximisesPriority(team: seq<PlayerRow>, score: string -> int, i: nat)
    requires |team| >= TEAM_SIZE && ScoreLike(score) && AssignRolesWith(team, score).Some?
    requires i < |TeamArrangements(team)| && Evaluate(TeamArrangements(team)[i], score).Some?
    ensures TeamPriorityValue(Evaluate(TeamArrangements(team)[i], score).value.assign).value
            <= TeamPriorityValue(AssignRolesWith(team, score).value).value
  {
    var perms := TeamArrangements(team);
    var k := AssignRolesIsFirstMaximum(team, score);
    PriorityOfEvaluation(perms[i], score);
    PriorityOfEvaluation(perms[k], score);
    EvaluationInRange(perms[i], score);
    EvaluationInRange(perms[k], score);
    WeightedIsLexicographic(Evaluate(perms[i], score).value, Evaluate(perms[k], score).value);
  }

  // ---------------------------------------------------------------------------
  // `cloneAssignPlayers` and `computePriorityFromPlayers`.

  /** A team as the editor holds it: players only, per role. */
  datatype Lineup = Lineup(tank: seq<PlayerRow>, dps: seq<PlayerRow>, support: seq<PlayerRow>)

  /** `cloneAssignPlayers`: drops the scores. */
  function CloneAssignPlayers(a: LegacyAssignment): Lineup
  {
    Lineup(PlayersOf(a.tank), PlayersOf(a.dps), PlayersOf(a.support))
  }

  /** The players' scores in `role`, summed. */
  function RoleSum(players: seq<PlayerRow>, role: Role, score: string -> int): int
  {
    if players == [] then 0
    else RoleSum(players[..|players| - 1], role, score) + SlotValue(players[|players| - 1], role, score)
  }

  /** What `computePriorityFromPlayers` returns for a lineup. */
  function LineupPriority(l: Lineup, score: string -> int): (p: Priority)
    ensures p.value == Weighted(p.sumT, p.sumD, p.sumS)
  {
    var t := RoleSum(l.tank, TANK, score);
    var d := RoleSum(l.dps, DPS, score);
    var s := RoleSum(l.support, SUPPORT, score);
    Priority(Weighted(t, d, s), t, d, s)
  }

  /** One `for ... of` loop of `computePriorityFromPlayers`. */
  method SumRole(players: seq<PlayerRow>, role: Role, cache: ScoreCache, ghost score: string -> int) returns (sum: int)
    requires cache.Valid() && IsRankScore(score)
    modifies cache
    ensures cache.Valid()
    ensures sum == RoleSum(players, role, score)
  {
    sum := 0;
    var i := 0;
    while i < |players|
      invariant i <= |players| && cache.Valid()
      invariant sum == RoleSum(players[..i], role, score)
    {
      var v := CachedValue(players[i], role, cache, score);
      assert players[..i + 1][..i] == players[..i];
      sum := sum + v;
      i := i + 1;
    }
    assert players[..i] == players;
  }

  /** `computePriorityFromPlayers`: rescoring a lineup through the cache. */
  method ComputePriorityFromPlayers(l: Lineup, cache: ScoreCache, ghost score: string -> int) returns (p: Priority)
    requires cache.Valid() && IsRankScore(score)
    modifies cache
    ensures cache.Valid()
    ensures p == LineupPriority(l, score)
  {
    var sumT := SumRole(l.tank, TANK, cache, score);
    var sumD := SumRole(l.dps, DPS, cache, score);
    var sumS := SumRole(l.support, SUPPORT, cache, score);
    p := Priority(sumT * 1000000 + sumD * 1000 + sumS, sumT, sumD, sumS);
  }

  lemma {:induction false} HonestSlotsSum(slots: seq<Slot>, role: Role, score: string -> int)
    requires Honest(slots, role, score)
    ensures RoleSum(PlayersOf(slots), role, score) == SumValues(slots)
  {
    if slots != [] {
      var init := slots[..|slots| - 1];
      assert Honest(init, role, score);
      HonestSlotsSum(init, role, score);
    }
  }

  /** Rescoring the players of a well-formed assignment gives back its
      priority: the editor's recomputation agrees with the search's value. */
  lemma RescoringAgrees(a: LegacyAssignment, score: string -> int)
    requires WellFormed(a, score)
    ensures LineupPriority(CloneAssignPlayers(a), score) == TeamPriorityValue(a)
  {
    HonestSlotsSum(a.tank, TANK, score);
    HonestSlotsSum(a.dps, DPS, score);
    HonestSlotsSum(a.support, SUPPORT, score);
  }

  // ---------------------------------------------------------------------------
  // `bestSplit10`.

  /** A kept split: both assignments, their priorities and the gap. */
  datatype Split = Split(teamA: LegacyAssignment, teamB: LegacyAssignment, priA: Priority, priB: Priority, diff: int)

  /** One candidate of `bestSplit10`: None when either side has no valid assignment. */
  function SplitOf(players: seq<PlayerRow>, pick: seq<nat>, score: string -> int): Option<Split>
    requires |players| == ROSTER_SIZE && IsPick(pick)
  {
    OthersOfPickAreFive(players, pick);
    PairSplit(AssignRolesWith(TeamOf(players, pick), score), AssignRolesWith(Others(players, pick), score))
  }

  /** The two sides' assignments weighed against each other; None when either side has none. */
  function PairSplit(a: Option<LegacyAssignment>, b: Option<LegacyAssignment>): Option<Split>
  {
    if a.None? || b.None? then None
    else
      var pa := TeamPriorityValue(a.value);
      var pb := TeamPriorityValue(b.value);
      Some(Split(a.value, b.value, pa, pb, Abs(pa.value - pb.value)))
  }

  /** `if (!best || diff < best.diff) best = ...`, after skipping rejected candidates. */
  function KeepSplit(best: Option<Split>, cur: Option<Split>): Option<Split>
  {
    if cur.Some? && (best.None? || cur.value.diff < best.value.diff) then cur else best
  }

  predicate EachPick(picks: seq<seq<nat>>)
  {
    forall k :: 0 <= k < |picks| ==> IsPick(picks[k])
  }

  /** The outcome of every candidate, in the order the loop visits them. */
  function SplitsOf(players: seq<PlayerRow>, picks: seq<seq<nat>>, score: string -> int): (cands: seq<Option<Split>>)
    requires |players| == ROSTER_SIZE && EachPick(picks)
  {
    seq(|picks|, k requires 0 <= k < |picks| => SplitOf(players, picks[k], score))
  }

  /** The split kept after the loop has seen `cands`. */
  function ScanSplits(cands: seq<Option<Split>>): Option<Split>
  {
    if cands == [] then None else KeepSplit(ScanSplits(cands[..|cands| - 1]), cands[|cands| - 1])
  }

  /** Every list `chooseIndices(10, 5)` returns is a pick. */
  lemma ChosenArePicks(n: nat)
    requires n == ROSTER_SIZE
    ensures EachPick(Chosen(n, TEAM_SIZE))
  {
    forall k | 0 <= k < |Chosen(n, TEAM_SIZE)| ensures IsPick(Chosen(n, TEAM_SIZE)[k]) {
      ChosenAreChoices(n, TEAM_SIZE, Pow2(n), k);
    }
  }

  /** The candidates `bestSplit10` walks, in mask order. */
  function Candidates(players: seq<PlayerRow>): (picks: seq<seq<nat>>)
    requires |players| == ROSTER_SIZE
    ensures EachPick(picks)
  {
    ChosenArePicks(|players|);
    Chosen(|players|, TEAM_SIZE)
  }

  /** What `bestSplit10(players)` returns under a scoring. */
  function BestSplit10With(players: seq<PlayerRow>, score: string -> int): Option<Split>
  {
    if |players| != ROSTER_SIZE then None
    else ScanSplits(SplitsOf(players, Candidates(players), score))
  }

  /** The body of `bestSplit10`'s loop up to the comparison: both sides
      assigned (skipping the candidate when either has none) and weighed. */
  method WeighCandidate(a: seq<PlayerRow>, b: seq<PlayerRow>, cache: ScoreCache, ghost score: string -> int)
    returns (cur: Option<Split>)
    requires |a| >= TEAM_SIZE && |b| >= TEAM_SIZE && cache.Valid() && IsRankScore(score)
    modifies cache
    ensures cache.Valid()
    ensures cur == PairSplit(AssignRolesWith(a, score), AssignRolesWith(b, score))
  {
    var aAssign := AssignRoles(a, cache, score);
    if aAssign.None? {
      return None;
    }
    var bAssign := AssignRoles(b, cache, score);
    if bAssign.None? {
      return None;
    }
    cur := PairSplit(aAssign, bAssign);
  }

  /** One iteration of `bestSplit10`'s loop. */
  method WeighSplit(players: seq<PlayerRow>, idxs: seq<nat>, best: Option<Split>, cache: ScoreCache,
                    ghost score: string -> int)
    returns (next: Option<Split>)
    requires |players| == ROSTER_SIZE && IsPick(idxs) && cache.Valid() && IsRankScore(score)
    modifies cache
    ensures cache.Valid()
    ensures next == KeepSplit(best, SplitOf(players, idxs, score))
  {
    OthersOfPickAreFive(players, idxs);
    var cur := WeighCandidate(TeamOf(players, idxs), Others(players, idxs), cache, score);
    if cur.Some? && (best.None? || cur.value.diff < best.value.diff) {
      next := cur;
    } else {
      next := best;
    }
  }

  /** `bestSplit10`: null unless there are ten players; otherwise the first
      candidate with the smallest priority gap among those where both sides
      have a valid assignment. */
  method BestSplit10(players: seq<PlayerRow>, cache: ScoreCache, ghost score: string -> int)
    returns (best: Option<Split>)
    requires cache.Valid() && IsRankScore(score)
    modifies cache
    ensures cache.Valid()
    ensures best == BestSplit10With(players, score)
  {
    if |players| != ROSTER_SIZE {
      return None;
    }
    var allA := ChooseIndices(|players|, TEAM_SIZE);
    assert allA == Candidates(players);
    ghost var cands := SplitsOf(players, allA, score);
    best := None;
    var j := 0;
    while j < |allA|
      invariant j <= |allA| && cache.Valid()
      invariant best == ScanSplits(cands[..j])
    {
      best := WeighSplit(players, allA[j], best, cache, score);
      assert cands[j] == SplitOf(players, allA[j], score);
      ScanSplitsStep(cands, j);
      j := j + 1;
    }
    assert cands[..j] == cands;
  }

  /** One more candidate seen: the loop's comparison applied once more. */
  lemma ScanSplitsStep(cands: seq<Option<Split>>, j: nat)
    requires j < |cands|
    ensures ScanSplits(cands[..j + 1]) == KeepSplit(ScanSplits(cands[..j]), cands[j])
  {
    assert cands[..j + 1][..j] == cands[..j];
  }

  lemma {:induction false} ScanSplitsNone(cands: seq<Option<Split>>)
    ensures ScanSplits(cands).None? <==> forall k :: 0 <= k < |cands| ==> cands[k].None?
  {
    if cands != [] {
      var init := cands[..|cands| - 1];
      ScanSplitsNone(init);
      assert forall k :: 0 <= k < |init| ==> init[k] == cands[k];
    }
  }

  lemma {:induction false} ScanSplitsFirstMinimum(cands: seq<Option<Split>>) returns (k: nat)
    requires ScanSplits(cands).Some?
    ensures k < |cands| && cands[k] == ScanSplits(cands)
    ensures forall i :: 0 <= i < |cands| && cands[i].Some? ==> ScanSplits(cands).value.diff <= cands[i].value.diff
    ensures forall i :: 0 <= i < k && cands[i].Some? ==> ScanSplits(cands).value.diff < cands[i].value.diff
  {
    var init := cands[..|cands| - 1];
    assert forall i :: 0 <= i < |init| ==> init[i] == cands[i];
    var before := ScanSplits(init);
    if before.None? {
      ScanSplitsNone(init);
      k := |cands| - 1;
    } else {
      k := ScanSplitsFirstMinimum(init);
      var cur := cands[|cands| - 1];
      if cur.Some? && cur.value.diff < before.value.diff {
        k := |cands| - 1;
      }
    }
  }

  /** A roster that is not ten players long gets no split. */
  lemma BestSplit10NeedsTen(players: seq<PlayerRow>, score: string -> int)
    requires |players| != ROSTER_SIZE
    ensures BestSplit10With(players, score).None?
  {
  }

  /** With ten players there is no split exactly when no choice of five
      positions has a valid assignment on both sides. */
  lemma BestSplit10Null(players: seq<PlayerRow>, score: string -> int)
    requires |players| == ROSTER_SIZE
    ensures BestSplit10With(players, score).None? <==>
            forall pick: seq<nat> :: IsPick(pick) ==> SplitOf(players, pick, score).None?
  {
    var picks := Candidates(players);
    var cands := SplitsOf(players, picks, score);
    ScanSplitsNone(cands);
    if forall k :: 0 <= k < |cands| ==> cands[k].None? {
      forall pick: seq<nat> | IsPick(pick) ensures SplitOf(players, pick, score).None? {
        ChosenAreComplete(|players|, TEAM_SIZE, pick);
        var i :| 0 <= i < |picks| && picks[i] == pick;
        assert cands[i].None?;
      }
    }
    if forall pick: seq<nat> :: IsPick(pick) ==> SplitOf(players, pick, score).None? {
      forall k | 0 <= k < |cands| ensures cands[k].None? {
        assert IsPick(picks[k]);
      }
    }
  }

  /** The split returned is the first candidate whose gap is minimal over every
      choice of five positions: it is the `k`-th candidate in mask order, every
      earlier candidate with both sides assigned has a strictly larger gap, and
      its gap is |valueA - valueB| of its own two priorities. */
  lemma BestSplit10IsFirstMinimum(players: seq<PlayerRow>, score: string -> int) returns (pick: seq<nat>, k: nat)
    requires BestSplit10With(players, score).Some?
    ensures |players| == ROSTER_SIZE && IsPick(pick) && SplitOf(players, pick, score) == BestSplit10With(players, score)
    ensures k < |Candidates(players)| && pick == Candidates(players)[k]
    ensures forall j :: 0 <= j < k && SplitOf(players, Candidates(players)[j], score).Some? ==>
              BestSplit10With(players, score).value.diff < SplitOf(players, Candidates(players)[j], score).value.diff
    ensures var best := BestSplit10With(players, score).value;
            best.diff == Abs(best.priA.value - best.priB.value)
            && best.priA == TeamPriorityValue(best.teamA) && best.priB == TeamPriorityValue(best.teamB)
    ensures forall other: seq<nat> :: IsPick(other) && SplitOf(players, other, score).Some? ==>
              BestSplit10With(players, score).value.diff <= SplitOf(players, other, score).value.diff
  {
    k := FirstMinimumCandidate(players, score);
    pick := Candidates(players)[k];
    SplitOfIsWeighed(players, pick, score);
    forall other: seq<nat> | IsPick(other) && SplitOf(players, other, score).Some?
      ensures BestSplit10With(players, score).value.diff <= SplitOf(players, other, score).value.diff
    {
      BestSplit10BeatsEvery(players, score, other);
    }
  }

  /** The result is the split of some candidate, and every earlier candidate
      with both sides assigned has a strictly larger gap. */
  lemma FirstMinimumCandidate(players: seq<PlayerRow>, score: string -> int) returns (k: nat)
    requires BestSplit10With(players, score).Some?
    ensures |players| == ROSTER_SIZE && k < |Candidates(players)|
    ensures SplitOf(players, Candidates(players)[k], score) == BestSplit10With(players, score)
    ensures forall j :: 0 <= j < k && SplitOf(players, Candidates(players)[j], score).Some? ==>
              BestSplit10With(players, score).value.diff < SplitOf(players, Candidates(players)[j], score).value.diff
  {
    var picks := Candidates(players);
    var cands := SplitsOf(players, picks, score);
    k := ScanSplitsFirstMinimum(cands);
    assert forall j :: 0 <= j < |picks| ==> cands[j] == SplitOf(players, picks[j], score);
  }

  /** A split that is kept carries the gap between its own two priorities. */
  lemma SplitOfIsWeighed(players: seq<PlayerRow>, pick: seq<nat>, score: string -> int)
    requires |players| == ROSTER_SIZE && IsPick(pick) && SplitOf(players, pick, score).Some?
    ensures var s := SplitOf(players, pick, score).value;
            s.diff == Abs(s.priA.value - s.priB.value)
            && s.priA == TeamPriorityValue(s.teamA) && s.priB == TeamPriorityValue(s.teamB)
  {
  }

  /** No candidate with both sides assigned has a smaller gap than the result. */
  lemma BestSplit10BeatsEvery(players: seq<PlayerRow>, score: string -> int, other: seq<nat>)
    requires BestSplit10With(players, score).Some? && IsPick(other)
    requires |players| == ROSTER_SIZE && SplitOf(players, other, score).Some?
    ensures BestSplit10With(players, score).value.diff <= SplitOf(players, other, score).value.diff
  {
    var picks := Candidates(players);
    var cands := SplitsOf(players, picks, score);
    var k := ScanSplitsFirstMinimum(cands);
    ChosenAreComplete(|players|, TEAM_SIZE, other);
    var i :| 0 <= i < |picks| && picks[i] == other;
    assert cands[i] == SplitOf(players, other, score);
  }

  /** The two teams of the returned split are the picked five and the other
      five, each well formed, and together they are the roster. */
  lemma BestSplit10Partitions(players: seq<PlayerRow>, score: string -> int) returns (pick: seq<nat>)
    requires BestSplit10With(players, score).Some?
    ensures |players| == ROSTER_SIZE && IsPick(pick)
    ensures var best := BestSplit10With(players, score).value;
            WellFormed(best.teamA, score) && WellFormed(best.teamB, score)
            && multiset(SlotPlayers(best.teamA)) == multiset(TeamOf(players, pick))
            && multiset(SlotPlayers(best.teamB)) == multiset(Others(players, pick))
            && multiset(SlotPlayers(best.teamA)) + multiset(SlotPlayers(best.teamB)) == multiset(players)
  {
    var k;
    pick, k := BestSplit10IsFirstMinimum(players, score);
    PickSplitsRoster(players, pick);
    AssignRolesPlacesTheTeam(TeamOf(players, pick), score);
    AssignRolesPlacesTheTeam(Others(players, pick), score);
  }
}
