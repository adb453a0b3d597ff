# owkr-match team balancer, modelled in Dafny

owkr-match builds two balanced five-a-side Overwatch teams from ten players. Each
player has one rank per role: tank, DPS and support. Each rank is a tier
(bronze … champion, or unranked), a division 1..5 and a preference flag. This
project models the two balancing engines of the repository and the code around
them:

- **The current engine.** `src/hooks/use-balance.ts`, with `src/constants/index.ts`
  and `src/types/index.ts`. Every team is scored over all 120 orderings against the
  slot template TANK, DPS, DPS, SUPPORT, SUPPORT. Preferences give a bonus of
  100000000 and a penalty of 50000000. All 252 five-player subsets are weighed,
  and the pair with the lexicographically smallest (algoDiff, realDiff) wins.
  Modules `Types`, `Constants`, `RoleSearch` and `SplitSearch`.
- **The page state of `src/App.tsx`.** This covers the two-click slot swap, adding
  a player from the form, and starting a match. It is the class `App.Page`.
- **The earlier single-page engine, `script.js`.** Ranks are free text scored by
  a regular expression and cached in a map (`LegacyScore`). Teams are assigned
  by backtracking permutation. The maximum (sumT, sumD, sumS) is kept, and any
  slot scoring ≤ 0 is rejected (`LegacyBalance`). Splits are enumerated by
  bitmask (`LegacyBits`) and weighed by the priority sumT·10⁶ + sumD·10³ + sumS.
  The match editor swaps slots in place (`LegacyMatch.Editor`), and the paste
  parser reads one player line (`LegacyPaste`).
- **The rank and line parser, `src/utils/parser/index.ts`.** This covers tier-alias
  lookup with prefix fallback, role words, segments with `!` and a default
  division 3, rank construction, the per-line player builder and the multi-line
  de-duplication. Modules `RankParser` and `LineParser`.

JavaScript string built-ins are in `JsText`: trim, split, case mapping, the `\s`
and `\b` classes. `Wrappers` holds `Option`. Loops and in-place updates of the
source are methods with loop invariants, each proved equal to a specification
function. The properties are proved about those functions.

Where the repository's documentation and its code disagree, the model follows the code:

- all 252 subsets are weighed, not 126, so each split is met twice with the
  teams exchanged;
- the search never stops early;
- the −50000000 penalty also applies when the assigned role is itself preferred;
- a swap copies `algoScore`, `realScore` and `diff` unchanged instead of
  recomputing them.

## Model

| member | source | states |
|---|---|---|
| Types.Ordinal | src/types/index.ts:9-18 | the eight ranked tiers take places 0..7 in order, and UNRANKED is the only tier off that order |
| Constants.TierIndex | src/constants/index.ts:3 | `TIERS.indexOf`: a listed tier's position (and `TIERS` holds that tier there); -1 exactly for a tier not in the list |
| Constants.GetScore | src/constants/index.ts:11-14 | index -1 scores 2250 whatever the division; a ranked tier with division 1..5 scores within [100, 4700]; every ranked score is a multiple of 100 |
| Constants.ScoreIncreasesWithTier | src/constants/index.ts:13 | for a fixed division, a higher tier scores strictly more |
| Constants.ScoreDecreasesWithDivision | src/constants/index.ts:13 | for a fixed tier, a larger division number scores strictly less |
| Constants.TiersDoNotOverlap | src/constants/index.ts:13 | every division of one tier scores below every division of the next tier |
| Constants.DecodeScoreRoundTrip | src/constants/index.ts:13 | the score determines its tier and division: decoding it gives them back |
| Constants.FormatRank | src/constants/index.ts:16-20 | "-" exactly for an unranked rank; otherwise the text starts with the tier label's first character and ends in '★' exactly when the rank is preferred |
| Constants.TierOfInitial | src/constants/index.ts:5-9 | a label initial that is recognised names a ranked tier whose label starts with it |
| Constants.FormatRankRoundTrip | src/constants/index.ts:16-20 | the short text of a ranked rank reads back as its tier, division and preference, so no two ranks share one |
| Constants.RankFromTiersMeetsInvariant | src/types/index.ts:20-32 | a rank built from a listed tier, a division 1..5 and `getScore` meets the documented invariant (score tier·600 + (6-div)·100) |
| RoleSearch.Permute | src/hooks/use-balance.ts:18-31 | the recursive insert-everywhere construction returns exactly the specification sequence `Permutations(arr)` |
| RoleSearch.PermutationsAreRearrangements | src/hooks/use-balance.ts:18-31 | every ordering produced has the same players with the same multiplicities |
| RoleSearch.RearrangementsArePermutations | src/hooks/use-balance.ts:18-31 | every rearrangement of the input is among the orderings produced |
| RoleSearch.PermutationsCount | src/hooks/use-balance.ts:18-31 | n players give n! orderings |
| RoleSearch.TeamPermutationsCount | src/hooks/use-balance.ts:37 | a team of five is tried in all 120 orderings |
| RoleSearch.EvaluateAssignment | src/hooks/use-balance.ts:43-63 | slot i of an ordering goes to ROLE_SLOTS[i]: one tank, two DPS, two supports, holding exactly the five players of the ordering |
| RoleSearch.EvaluateScores | src/hooks/use-balance.ts:45-63 | realScore is the sum of the assigned-role scores; algoScore is realScore + 100000000 per assigned-role preference − 50000000 per player preferring another role, including a player whose assigned role is also preferred |
| RoleSearch.ScoreOrdering | src/hooks/use-balance.ts:39-63 | the five-slot loop that pushes players and adds scores computes the specification's assignment and both scores |
| RoleSearch.BestIndexIsBest | src/hooks/use-balance.ts:65-69 | the kept index has the maximum algoScore, and every earlier ordering scores strictly less (strict `>` keeps the first maximum) |
| RoleSearch.BestRoleAssignmentIsValid | src/hooks/use-balance.ts:72-76 | for any five players an assignment is produced; it is 1/2/2-shaped, holds exactly the team, and carries its own realScore and algoScore |
| RoleSearch.BestRoleAssignmentIsFirstMaximum | src/hooks/use-balance.ts:39-70 | the result is the evaluation of some ordering whose algoScore no ordering exceeds and every earlier ordering falls short of |
| RoleSearch.BestRoleAssignmentIsOptimal | src/hooks/use-balance.ts:39-70 | no rearrangement of the team scores a higher algoScore than the result |
| RoleSearch.GetBestRoleAssignment | src/hooks/use-balance.ts:17-77 | the permutation loop with its running maximum returns `BestRoleAssignment(team)` |
| SplitSearch.CombinationsArePicks | src/hooks/use-balance.ts:94-120 | every index list `combine` reaches is ascending, below the roster size, and one element longer per level |
| SplitSearch.EveryPickIsVisited | src/hooks/use-balance.ts:115-122 | every ascending choice of five of the ten indices is visited |
| SplitSearch.TeamsPartitionRoster | src/hooks/use-balance.ts:95-97 | team A (the picked players) and team B (`filter` of the rest) together hold exactly the roster, and team B has the remaining count |
| SplitSearch.PickSplitsRoster | src/hooks/use-balance.ts:95-97 | for ten players, each side of a split has five players and the two sides make up the roster |
| SplitSearch.ScanSelectsFirstMinimum | src/hooks/use-balance.ts:103-112 | the scan keeps a candidate no candidate beats in (algoDiff, realDiff) order, and every earlier candidate is strictly worse |
| SplitSearch.BalanceNeedsTenPlayers | src/hooks/use-balance.ts:80-83 | balancing fails exactly when the roster is not ten players, and then reports the size |
| SplitSearch.ScanKeepsMinimalPick | src/hooks/use-balance.ts:94-122 | for ten players the kept candidate is the score of a legal pick that no other pick beats lexicographically |
| SplitSearch.BalanceIsOptimal | src/hooks/use-balance.ts:94-129 | a ten-player roster always balances, and the result is the split of a pick minimising (algoDiff, realDiff) over all picks |
| SplitSearch.BalanceSplitsRoster | src/hooks/use-balance.ts:106-129 | the teams are named TEAM 1 and TEAM 2, both are 1/2/2-shaped, together they hold exactly the roster, and `diff` is the real-score gap |
| SplitSearch.CombineResultIsScan | src/hooks/use-balance.ts:94-120 | the recursive search with a running best equals a left-to-right scan of the scores of all visited picks |
| SplitSearch.LoopResultIsScan | src/hooks/use-balance.ts:115-117 | the `for` loop over the next index equals the scan over the picks it generates, in order |
| SplitSearch.Weigh | src/hooks/use-balance.ts:95-113 | weighing one complete pick replaces the best exactly when the new pair improves on it |
| SplitSearch.Combine | src/hooks/use-balance.ts:94-120 | the recursive `combine` ends with the best the specification's search gives |
| SplitSearch.Extend | src/hooks/use-balance.ts:115-117 | the loop of `combine` ends with the best the specification's search gives |
| SplitSearch.BalanceTeams | src/hooks/use-balance.ts:79-129 | the size check, the full search and the result construction return `Balance(players)` |
| App.SetKeepsSlots | src/App.tsx:71-73 | writing one slot leaves the set of slots alone, changes that slot to the new player, and no other slot |
| App.SwapExchanges | src/App.tsx:64-73 | after a swap the two slots hold each other's player and every other slot is unchanged |
| App.SwapTwiceRestores | src/App.tsx:64-73 | repeating the same swap restores the original result |
| App.SwapKeepsFrame | src/App.tsx:64-75 | a swap keeps team names, scores and `diff`, and keeps a 1/2/2 result 1/2/2 |
| App.SwapKeepsPlayers | src/App.tsx:69-73 | a swap keeps the multiset of players |
| App.FormRank | src/App.tsx:32-34 | a form rank keeps the chosen tier, division and preference and scores `getScore(TIERS.indexOf(tier), div)` |
| App.Page.constructor | src/App.tsx:15-25 | the page starts with no players, no result, no swap source and the given form inputs |
| App.Page.HandleSlotClick | src/App.tsx:58-80 | with no result nothing changes; a first click records the source; clicking the source again clears it; a click on another slot swaps the two and clears the source; the player list and form never change |
| App.Page.AddPlayer | src/App.tsx:27-38 | a blank name changes nothing; otherwise one player with the given id, the typed name and the three form ranks is appended, and name and preference flags are reset |
| App.Page.RunMatching | src/App.tsx:53-56 | the result is cleared; a roster that is not ten players leaves it cleared, and a balanced roster sets it to `Balance(players)` |
| LegacyScore.LongestPrefixIsLongest | script.js:14-23 | -1 exactly when no alias prefixes the token; otherwise the length of a prefixing alias, and no prefixing alias is longer |
| LegacyScore.FirstNamedTierIsFirst | script.js:28-32 | the alias-map walk finds nothing exactly when no tier is named, and otherwise finds a named tier with no named tier before it in table order |
| LegacyScore.GrandmasterReadsAsGold | script.js:24-30 | as written, "gm" and "grandmaster" read as GOLD |
| LegacyScore.GrandmasterCorrected | script.js:14-32 | with the longest alias winning, "gm" and "grandmaster" read as GRANDMASTER |
| LegacyScore.NormalizeRecognisesSameTokens | script.js:28-32 | the corrected lookup recognises exactly the tokens the as-written lookup does |
| LegacyScore.EveryAliasNamesItsTier | script.js:14-30 | as written, each listed alias, typed in any case and with blanks, names its own tier unless it starts with "G", in which case it names GOLD (so "gm" and "grandmaster" read as GOLD); with the corrected lookup every alias names its own tier |
| LegacyScore.AsWrittenAgreesOffG | script.js:14-30 | for every token whose canonical form does not start with "G", the as-written walk and the corrected lookup give the same tier |
| LegacyScore.LabelNamesItsTier | script.js:26-30 | each display label reads back as its own tier, as written and corrected |
| LegacyScore.FirstMatchFrom | script.js:35 | `String.match`: -1 exactly when the rank pattern matches nowhere, otherwise the leftmost position where it matches |
| LegacyScore.RankScoreText | script.js:34-41 | the score is 0 or lies in [100, 4700], and is a multiple of 100 |
| LegacyScore.RankScoreTextPositive | script.js:28-41 | the score is positive exactly when the leftmost pattern match has a tier word the as-written alias walk recognises, and it is then the score of the tier that walk finds and of the digit |
| LegacyScore.LeadingGScoresAsGold | script.js:28-41 | as written, a text whose first tier word starts with "g" in either case scores as GOLD with its digit, so "gm 2" scores 1600 rather than grandmaster's 4000 |
| LegacyScore.PackRankRoundTrip | script.js:33 | `packRank` text scores tier·600 + (6-div)·100 |
| LegacyScore.ShortRankText | script.js:277-284 | the short text is "-" or a Hangul tier letter followed by a division digit |
| LegacyScore.ShortRankTextDash | script.js:277-284 | the short text is "-" exactly when the text scores 0 |
| LegacyScore.ShortRankKeepsScore | script.js:277-284 | the short text scores what the full text scores |
| LegacyScore.ScoreCache.constructor | script.js:44 | the cache starts empty |
| LegacyScore.ScoreCache.Get | script.js:44-51 | whether cached or not, the answer is the text's score, the text is then cached, and every cached value stays its key's score |
| LegacyBalance.Backtrack | script.js:56-63 | the backtracking step leaves the `used` flags as it found them and appends exactly the arrangements extending the current prefix |
| LegacyBalance.Permute | script.js:54-65 | `permute` returns the specification's arrangements of the team |
| LegacyBalance.PermuteRearranges | script.js:54-65 | each arrangement is a rearrangement of the team |
| LegacyBalance.PermuteCount | script.js:54-65 | n players give n! arrangements |
| LegacyBalance.ArrangementLengths | script.js:54-65 | each arrangement is as long as the team |
| LegacyBalance.EvaluateWrittenOut | script.js:74-87 | the slot loop agrees with the five template slots written out, rejecting at the first value ≤ 0 |
| LegacyBalance.RejectedIffSomeSlotFails | script.js:82 | an ordering is rejected exactly when one of its five slots scores ≤ 0 |
| LegacyBalance.CachedValue | script.js:78-81 | the cached lookup of a slot's rank text gives the slot's score |
| LegacyBalance.ScorePermutation | script.js:76-87 | the slot loop with its break returns the ordering's evaluation |
| LegacyBalance.AssignRoles | script.js:66-91 | the loop over all arrangements with a running best returns the specification's assignment |
| LegacyBalance.AssignRolesNull | script.js:90 | `null` exactly when every ordering puts someone in a role scoring ≤ 0 |
| LegacyBalance.AssignRolesIsFirstMaximum | script.js:68-88 | the result comes from an ordering no ordering beats in (sumT, sumD, sumS) order, and every earlier valid ordering is strictly worse |
| LegacyBalance.AssignRolesPlacesTheTeam | script.js:74-90 | the result is 1/2/2 with every value positive and equal to the player's score, and it places exactly the team |
| LegacyBalance.PriorityOfEvaluation | script.js:92-98 | the priority of an assignment is its weighted value and its three role sums |
| LegacyBalance.WeightedIsLexicographic | script.js:92-98 | for role sums within the score range, comparing sumT·10⁶ + sumD·10³ + sumS is comparing (sumT, sumD, sumS) lexicographically |
| LegacyBalance.AssignRolesMaximisesPriority | script.js:66-98 | no valid ordering of the team has a higher priority value than the chosen assignment |
| LegacyBalance.SumRole | script.js:271-273 | the loop adds up the role's cached scores over the list |
| LegacyBalance.ComputePriorityFromPlayers | script.js:269-275 | the priority recomputed from plain lineups is `LineupPriority` |
| LegacyBalance.RescoringAgrees | script.js:269-275 | recomputing from the cloned players gives the same priority as the assignment's own values |
| LegacyBalance.WeighCandidate | script.js:120-123 | both teams assigned, the pair and its priority gap, or nothing when a side has no assignment |
| LegacyBalance.WeighSplit | script.js:117-127 | one loop step keeps the new split exactly when it has a smaller gap |
| LegacyBalance.BestSplit10 | script.js:113-130 | the bitmask loop returns `BestSplit10With(players)` |
| LegacyBalance.BestSplit10NeedsTen | script.js:114 | a roster that is not ten players gives `null` |
| LegacyBalance.BestSplit10Null | script.js:113-130 | `null` exactly when no choice of five has a valid assignment on both sides |
| LegacyBalance.BestSplit10IsFirstMinimum | script.js:119-127 | the result is the split of the `k`-th candidate in mask order; every earlier candidate with both sides assigned has a strictly larger gap, no pick has a smaller gap, and its gap is the priority difference of its two teams |
| LegacyBalance.BestSplit10BeatsEvery | script.js:124-127 | the result's gap is at most that of any valid split |
| LegacyBalance.BestSplit10Partitions | script.js:118-122 | both teams are well formed and hold exactly the picked players and the rest, which together are the roster |
| LegacyBits.ClearLowestBit | script.js:101 | `x & (x-1)` is smaller and has one set bit fewer |
| LegacyBits.CountBits | script.js:101 | the loop counts the set bits |
| LegacyBits.ChooseIndices | script.js:102-111 | the mask loop returns `Chosen(n, k)` |
| LegacyBits.BitsBelowMembers | script.js:107 | an index is listed exactly when it is below n and its bit is set |
| LegacyBits.BitsBelowAscending | script.js:107 | the listed indices ascend |
| LegacyBits.ChosenAreChoices | script.js:102-111 | every list is k ascending indices below n |
| LegacyBits.ChosenAreDistinct | script.js:102-111 | no list appears twice |
| LegacyBits.ChosenAreComplete | script.js:102-111 | every ascending list of k indices below n appears |
| LegacyMatch.ReadAfterPut | script.js:305-306 | writing a slot changes that slot only |
| LegacyMatch.SwapExchanges | script.js:302-307 | after a swap the two slots hold each other's player, the shape is unchanged and every other slot is unchanged |
| LegacyMatch.SwapIsSelfInverse | script.js:302-307 | swapping twice restores the teams |
| LegacyMatch.SwapWithItself | script.js:310 | swapping a slot with itself changes nothing, so the early return of `moveByNameToSlot` only saves work |
| LegacyMatch.SwapKeepsPlayers | script.js:302-307 | a swap keeps the multiset of the ten players |
| LegacyMatch.FindInList | script.js:297 | the first index holding the name, or -1 when none does |
| LegacyMatch.Editor.constructor | script.js:259-260 | no match yet, not in edit mode, nothing picked |
| LegacyMatch.Editor.FindPlayerByName | script.js:293-301 | nothing when no slot holds the name; otherwise the first slot holding it, team by team and role by role |
| LegacyMatch.Editor.SwapSlots | script.js:302-307 | the teams become the swapped teams and nothing else changes |
| LegacyMatch.Editor.MoveByNameToSlot | script.js:308-312 | an unknown name changes nothing; otherwise the name's first slot and the target are swapped |
| LegacyMatch.Editor.ClickSlot | script.js:360-373 | a first click picks the slot; clicking the picked slot unpicks it; a click on another slot swaps the two and unpicks |
| LegacyMatch.Editor.Run | script.js:420-433 | without a best split nothing changes; otherwise the match starts in edit mode with the two cloned teams and nothing picked |
| LegacyMatch.Editor.Install | script.js:430-431 | the state becomes the two cloned teams in edit mode with nothing picked |
| LegacyMatch.Editor.Rebalance | script.js:434-443 | before a match, or without a best split, nothing changes; otherwise the flattened ten players are split again and installed |
| LegacyMatch.Editor.Priorities | script.js:321-324 | the render-time recomputation gives each team's lineup priority and their gap |
| LegacyMatch.ClonedPlayers | script.js:262-268 | cloning keeps the players and drops the values |
| LegacyMatch.InstalledPlayers | script.js:428-430 | the installed teams hold exactly the roster |
| LegacyMatch.InstalledPriorities | script.js:321-324 | right after a run the recomputed priorities and gap are the split's own |
| LegacyMatch.RebalanceKeepsPlayers | script.js:436-440 | rebalancing keeps the multiset of the ten players |
| LegacyPaste.FirstHead | script.js:194 | `roleHeadRe` finds nothing exactly when no position starts a role head, and otherwise finds the leftmost one |
| LegacyPaste.SortRoles | script.js:222-228 | the loop over segments returns `SortSegments`: labelled segments fill their role, the rest are kept in order, and an unreadable labelled segment fails |
| LegacyPaste.FillRoles | script.js:229-241 | the fill loop returns `Fill`, failing at the first unreadable segment |
| LegacyPaste.BuildRow | script.js:205-243 | sorting, filling and the final check return `RowOf` |
| LegacyPaste.ParsePastedLine | script.js:191-244 | the parser returns `PastedLine(line)` with role words ending at JavaScript's ASCII `\b` and tier words read by the as-written alias walk |
| LegacyPaste.SortingFailureSticks | script.js:225 | once a labelled segment fails, the whole line fails |
| LegacyPaste.FillFailureSticks | script.js:233-238 | once a filled segment fails, the fill fails |
| LegacyPaste.ParsedRowIsPacked | script.js:191-244 | a parsed row has a name and three `packRank` texts |
| LegacyPaste.PackedScores | script.js:33-41 | every `packRank` text scores at least 100 |
| LegacyPaste.PastedTeamIsAssigned | script.js:82 | five pasted rows always get a role assignment, because no slot scores ≤ 0 |
| LegacyPaste.LabelledWithoutTank | script.js:222-228 | segments labelled only DPS or support leave nothing unlabelled and no tank |
| LegacyPaste.RejectedWithoutTank | script.js:229-243 | such a line has no tank and is rejected |
| LegacyPaste.TankThenBlankAsWritten | script.js:194 | as written, "탱" followed by a blank is never a role head |
| LegacyPaste.TankThenBlankCorrected | script.js:194 | when a role word ends at a non-letter, "탱" followed by a blank is a role head |
| LegacyPaste.SampleRejectedAsWritten | script.js:191-244 | as written, "홍길동 탱 다이아3/딜 마스터2/힐 골드1" is rejected |
| LegacyPaste.HangulLineCorrected | script.js:191-244 | with the corrected head, a "name 탱 r1/딜 r2/힐 r3" line gives the name and the three packed ranks |
| LegacyPaste.HangulTierLine | script.js:191-244 | with the corrected head only: for tier words followed by a division, such a line gives the tier labels and divisions |
| LegacyPaste.StrictReading | script.js:214-216 | a segment matching the strict pattern is read by it |
| RankParser.ExactIndex | src/utils/parser/index.ts:31-33 | -1 exactly when no key equals the token, otherwise a key that does |
| RankParser.RelatedIndex | src/utils/parser/index.ts:36-40 | -1 exactly when no key is related, otherwise the first key, in table order, that prefixes the token or is prefixed by it |
| RankParser.FindTierIndex | src/utils/parser/index.ts:9-43 | the result is -1 or a tier index 0..7 |
| RankParser.KeysOwned | src/utils/parser/index.ts:12-29 | every key of the table maps to the tier its word belongs to |
| RankParser.ExactAliasFindsItsTier | src/utils/parser/index.ts:31-33 | an exact alias gives its mapped index |
| RankParser.FallbackFindsFirstRelated | src/utils/parser/index.ts:35-42 | without an exact hit, -1 exactly when no key is related; otherwise the index of the first related key |
| RankParser.UnknownInitialFindsNothing | src/utils/parser/index.ts:9-43 | a token whose first character starts no key gives -1 |
| RankParser.TankWords | src/utils/parser/index.ts:53 | the tank patterns match exactly the words starting "탱" or "t" |
| RankParser.DpsWords | src/utils/parser/index.ts:54 | the DPS patterns match exactly the words starting "딜" or "d" |
| RankParser.SupportWords | src/utils/parser/index.ts:55 | the support patterns match exactly the words starting "힐", "s" or "heal" |
| RankParser.ParseRoleByInitial | src/utils/parser/index.ts:50-62 | tank is checked first, then DPS, then support, by prefix, and nothing otherwise |
| RankParser.FirstParenWord | src/utils/parser/index.ts:70 | nothing exactly when no parenthesised word occurs; otherwise one that does |
| RankParser.ExtractEstimatedTier | src/utils/parser/index.ts:69-78 | nothing exactly when there is no parenthesised word or it mentions 배치, 예상 or 중; otherwise a non-empty word that mentions none |
| RankParser.SegmentWith | src/utils/parser/index.ts:85-115 | preferred exactly when the segment holds '!'; an unranked segment gets division 3, or nothing when no estimate is given |
| RankParser.UnrankedSegment | src/utils/parser/index.ts:89-99 | an estimated tier keeps the preference and gets division 3; without an estimate the result is nothing |
| RankParser.RankedSegment | src/utils/parser/index.ts:101-112 | the preference is kept; under the corrected digit rule the division is 1..5 |
| RankParser.MissingDivisionIsThree | src/utils/parser/index.ts:108 | a segment without a division gets division 3 |
| RankParser.WordAndDigitSegment | src/utils/parser/index.ts:104-111 | a known tier word and a digit give that tier and division |
| RankParser.UnknownWordSegment | src/utils/parser/index.ts:104-114 | an unknown tier word gives nothing |
| RankParser.ParseRankSegment | src/utils/parser/index.ts:85-115 | as written, any digit is a division, so every parsed division is 0..9 |
| RankParser.ParseRankSegmentCorrected | src/utils/parser/index.ts:85-115 | corrected, with divisions limited to 1..5, every parsed division is 1..5 |
| RankParser.CreateRank | src/utils/parser/index.ts:124-134 | index -1 gives the unranked rank (div 0, score 0, not preferred); otherwise the tier at that index, the division, `getScore` and the preference |
| RankParser.CreateRankKeepsInvariant | src/utils/parser/index.ts:124-134 | a rank created from a valid index and a division 1..5 meets the documented invariant |
| RankParser.ParsedRankKeepsInvariant | src/utils/parser/index.ts:85-134 | a rank built from a segment the parser accepts meets the documented invariant exactly when its division is 1..5 |
| RankParser.CorrectedRankKeepsInvariant | src/utils/parser/index.ts:85-134 | corrected, every rank built from a parsed segment meets the documented invariant |
| RankParser.NineAsWritten | src/utils/parser/index.ts:105-110 | as written, a tier word followed by "9" parses to division 9, breaking the invariant and scoring like division 3 of the tier below |
| RankParser.NineCorrected | src/utils/parser/index.ts:105 | corrected, with divisions limited to 1..5, such a segment is rejected |
| LineParser.FirstTagIsLeftmost | src/utils/parser/index.ts:156 | the name match is the leftmost `name#digits` match, and none exists exactly when no position matches |
| LineParser.TaggedLine | src/utils/parser/index.ts:153-160 | the matched name holds a '#' and starts with a non-blank |
| LineParser.ReadSlashParts | src/utils/parser/index.ts:172-212 | the loop over slash parts returns the three ranks of `SlashFoldWith` |
| LineParser.LabelledPartSetsItsRole | src/utils/parser/index.ts:176-199 | a part with a role word sets that role when its rank parses and leaves the order counter alone |
| LineParser.UnlabelledPartFillsNext | src/utils/parser/index.ts:200-211 | a part without a role word fills the next role in order when it parses, and always advances the counter |
| LineParser.RoleWordNamesRole | src/utils/parser/index.ts:176-181 | the role word names the role of its first character |
| LineParser.ParseLineToPlayer | src/utils/parser/index.ts:152-276 | the method returns `PlayerOfLine(line)` with the id drawn given as a parameter |
| LineParser.PlayerOfLineShape | src/utils/parser/index.ts:156-159 | a line without a tag gives nothing; a player has a non-empty blank-free name holding '#', and some role with a non-zero score |
| LineParser.PlayerOfLineScores | src/utils/parser/index.ts:265-267 | a tagged line gives a player exactly when some role scores non-zero |
| LineParser.ParseMultipleLines | src/utils/parser/index.ts:283-303 | the loop returns the de-duplicated results of the admitted lines, in order |
| LineParser.KeepNamesDistinct | src/utils/parser/index.ts:296-298 | no two kept players share a name |
| LineParser.KeepCoversNames | src/utils/parser/index.ts:296-298 | every name some line yields is kept |
| LineParser.KeepOnlyCandidates | src/utils/parser/index.ts:295-297 | every kept player is some line's result |
| LineParser.KeepsFirstOfName | src/utils/parser/index.ts:296-298 | the first player with a given name is the one kept |
| LineParser.KeepExtends | src/utils/parser/index.ts:288-300 | the players kept from a prefix of the lines stay a prefix of the result |
| LineParser.ParseRoleOfWord | src/utils/parser/index.ts:50-62 | a one- or two-character role word parses to the role of its initial |
| LineParser.WordDigitRank | src/utils/parser/index.ts:189-192 | a Latin tier word and a digit give the created rank, or nothing for an unknown word |
| LineParser.LetterLabelAsWritten | src/utils/parser/index.ts:176 | as written, a role letter glued to an unknown word leaves the ranks and the counter unchanged |
| LineParser.LetterLabelCorrected | src/utils/parser/index.ts:176 | when a role letter must not be followed by a letter, a tier word starting with t, d or s fills the next role |
| LineParser.LetterLedLineAsWritten | src/utils/parser/index.ts:170-212 | as written, "dia3/sil2/gold1"-shaped lines drop the first two ranks and put the third in the tank slot |
| LineParser.LetterLedLineCorrected | src/utils/parser/index.ts:170-212 | with the corrected role rule, the three ranks fill tank, DPS and support in order |

## Left out

- The React components, JSX, animation and styling, and the DOM code of
  `script.js`: element building, drag and drop, toasts, the start-up wiring and
  the markup of `renderMatch`. These are display only. The recomputation rule of
  `renderMatch` is kept, as `LegacyMatch.Editor.Priorities`.
- `useState`/`useCallback`, `setTimeout`, `alert`, `try/catch` and `setIsBalancing`
  around `balanceTeams`. The search is modelled as the pure `SplitSearch.Balance`
  and the method `SplitSearch.BalanceTeams`. A refused roster is a `Failed` value
  instead of an alert.
- `handlePaste` in `src/App.tsx`. It only strings together `parseLineToPlayer` and a
  list append, and the parser itself is modelled.
- The authentication API, local storage, the clipboard image hook and
  `src/utils/tier.ts`. These are network, browser I/O and image paths.
- `Date.now()` and `Math.random()` ids. `App.Page.AddPlayer` takes the clock
  reading `now`, and `LineParser.ParseLineToPlayer` takes the `id`, as parameters.
  `LineParser.ParseMultipleLines` takes one id per line.
- LineParser.ParseLineToPlayer: the space-separated branch, a global `matchAll`
  over a regular expression, is not modelled. It is a parameter (`spaced`) of the
  line readers, so every property of the slash branch holds for any reading of
  that branch.
- RankParser.FindTierIndex: a token such as "constructor" hits an
  `Object.prototype` member in the exact lookup. The model only sees the table's own
  keys.
- `toLocaleString` and other display formatting.
- Floating point: the priorities sum·10⁶ + sum·10³ + sum and the ids are JavaScript
  numbers. The model uses exact integers. The sums stay far below 2⁵³, so nothing
  rounds. An id is an opaque `real`.
- Types.Rank: `tier: Tier | string` and `div: number | string` in the source. The
  model has a closed tier datatype and a natural division, so the "?" fallback of
  `formatRank` for an unknown tier string cannot arise. The string "3" that
  `src/App.tsx` keeps for its initial form divisions is the number 3.
- RoleSearch.GetBestRoleAssignment: requires exactly five players. `balanceTeams`
  only ever passes five, a shorter team makes the source read an undefined player,
  and a longer one would only use its first five slots.
- App.Page.HandleSlotClick: requires the clicked slot to be one of the 1/2/2
  template slots the page renders. A slot outside the lists would make the source
  store `undefined`.
- LegacyBits.ChooseIndices: requires n ≤ 30. `1<<n` is a 32-bit shift in
  JavaScript and wraps from n = 31 on; the engine only calls it with n = 10.
- Character handling: `toUpperCase`/`toLowerCase` are modelled on ASCII letters,
  and Hangul has no case. Strings are sequences of Unicode scalar values, not
  UTF-16 code units, so characters outside the Basic Multilingual Plane count
  once rather than twice.
- LegacyScore.ScoreCache.Get: the `String(s || "")` conversion of a missing rank
  text is taken as already done. Rank texts are strings in the model.
- HangulTierLine: it is proved for the corrected role head only. As written,
  such a line is rejected, which `LegacyPaste.SampleRejectedAsWritten` shows for
  one sample line; the model has no general lemma for the as-written outcome.
- `shortRankText`'s "?" fallback: every recognised tier has a short letter, so
  it is unreachable and not modelled.

## Findings

| source | as written | input that shows it | evidently intended | confidence | as-written member | corrected member |
|---|---|---|---|---|---|---|
| script.js:24-30 | the alias map is walked in table order and the first alias the token starts with wins; GOLD's "G" comes before GRANDMASTER's "GM" | "gm 2", "grandmaster 1" | these name GRANDMASTER (the longest matching alias decides) | high; not executed | LegacyScore.GrandmasterReadsAsGold | LegacyScore.GrandmasterCorrected |
| script.js:194 | `\b` after a Hangul role word needs an ASCII word character on one side, so "탱" followed by a blank or the end is never a role head | "홍길동 탱 다이아3/딜 마스터2/힐 골드1" | a role word ends at the next non-letter | high; not executed | LegacyPaste.TankThenBlankAsWritten | LegacyPaste.TankThenBlankCorrected |
| script.js:191-244 | because of the row above, the Hangul sample line is rejected (the tank segment is folded into the name) | "홍길동 탱 다이아3/딜 마스터2/힐 골드1" | the line gives 홍길동 with 다이아 3, 마스터 2, 골드 1 | high; not executed | LegacyPaste.SampleRejectedAsWritten | LegacyPaste.HangulLineCorrected |
| src/utils/parser/index.ts:105 | the division is `(\d)?`, any digit, so division 9 (or 0, 6, 7, 8) is accepted | "다이아9" | divisions are 1..5; other digits are rejected | medium; not executed | RankParser.NineAsWritten | RankParser.NineCorrected |
| src/utils/parser/index.ts:176 | a lone role letter `t`, `d` or `s` is taken as a role word even when a letter follows it, eating the first letter of the tier word | "dia3" | a role letter counts only when no letter follows it | medium; not executed | LineParser.LetterLabelAsWritten | LineParser.LetterLabelCorrected |
| src/utils/parser/index.ts:170-212 | because of the row above, a line whose first two parts are tier words starting with d or s loses those ranks | "abc#1234 dia3/sil2/gold1" | the three ranks fill tank, DPS and support | medium; not executed | LineParser.LetterLedLineAsWritten | LineParser.LetterLedLineCorrected |

The operations model the code as written: `LegacyScore.RankScoreText`,
`LegacyScore.ShortRankText` and the score cache read tier words with the
as-written walk `NormalizeTierTokenAsWritten`, `LegacyPaste.ParsePastedLine`
ends role words at the ASCII `\b`, and `RankParser.ParseRankSegment` takes any
digit. The corrected rules sit beside them under their own names:

- `LegacyScore.NormalizeTierToken` takes the longest alias.
- `LegacyPaste.PastedLine(line, LetterBoundary)` ends role words at a non-letter.
- `RankParser.ParseRankSegmentCorrected` takes divisions 1..5.
- `LineParser.CORRECTED` is the reading that combines the corrected rules, and
  `LineParser.AS_WRITTEN` the one the code has.
