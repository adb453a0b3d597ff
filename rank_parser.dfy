/** The rank vocabulary of the chat-log parser: the tier-alias table with its
    prefix fallback, role words, estimated tiers written in parentheses, one
    rank segment such as "다이아3!" or "미배치(골)", and the rank built from it. */
module RankParser {

  import opened Types
  import opened Wrappers
  import opened JsText
  import opened Constants

  /** A position in `TIERS`. */
  type TierIdx = i: int | 0 <= i < 8

  // ---------------------------------------------------------------------------
  // Tier lookup.

  /** `tierMap`: each alias, lower-case, with the index of its tier, in the
      order the object literal lists them (the order `Object.entries` yields). */
  const TIER_MAP: seq<(string, TierIdx)> := [
    ("브론즈", 0), ("브론", 0), ("브", 0), ("bronze", 0), ("br", 0),
    ("실버", 1), ("실", 1), ("silver", 1), ("si", 1),
    ("골드", 2), ("골", 2), ("gold", 2), ("go", 2),
    ("플래티넘", 3), ("플레티넘", 3), ("플래", 3), ("플레", 3), ("플", 3), ("platinum", 3), ("plat", 3), ("pl", 3),
    ("다이아몬드", 4), ("다이아", 4), ("다이", 4), ("다", 4), ("diamond", 4), ("dia", 4), ("di", 4),
    ("마스터", 5), ("마스", 5), ("마", 5), ("master", 5), ("ma", 5),
    ("그랜드마스터", 6), ("그마", 6), ("그", 6), ("grandmaster", 6), ("gm", 6),
    ("챔피언", 7), ("챔피", 7), ("챔", 7), ("champion", 7), ("champ", 7), ("ch", 7)
  ]

  /** The first position at or after `i` whose alias is `u`, or -1. */
  function ExactIndex(u: string, i: nat): (k: int)
    requires i <= |TIER_MAP|
    ensures k == -1 <==> forall j :: i <= j < |TIER_MAP| ==> TIER_MAP[j].0 != u
    ensures k != -1 ==> i <= k < |TIER_MAP| && TIER_MAP[k].0 == u
    decreases |TIER_MAP| - i
  {
    if i == |TIER_MAP| then -1
    else if TIER_MAP[i].0 == u then i
    else ExactIndex(u, i + 1)
  }

  /** `normalized.startsWith(key) || key.startsWith(normalized)`. */
  predicate Related(u: string, key: string)
  {
    key <= u || u <= key
  }

  /** The first position at or after `i` whose alias is related to `u`, or -1. */
  function RelatedIndex(u: string, i: nat): (k: int)
    requires i <= |TIER_MAP|
    ensures k == -1 <==> forall j :: i <= j < |TIER_MAP| ==> !Related(u, TIER_MAP[j].0)
    ensures k != -1 ==> i <= k < |TIER_MAP| && Related(u, TIER_MAP[k].0)
                        && forall j :: i <= j < k ==> !Related(u, TIER_MAP[j].0)
    decreases |TIER_MAP| - i
  {
    if i == |TIER_MAP| then -1
    else if Related(u, TIER_MAP[i].0) then i
    else RelatedIndex(u, i + 1)
  }

  /** `findTierIndex`: lower-cased and trimmed, the token's own entry if it is
      an alias; otherwise the tier of the first alias that it starts with or
      that starts with it; otherwise -1. */
  function FindTierIndex(tierStr: string): (r: int)
    ensures -1 <= r < |TIERS|
  {
    var u := Trim(Lower(tierStr));
    var e := ExactIndex(u, 0);
    if e != -1 then TIER_MAP[e].1
    else
      var f := RelatedIndex(u, 0);
      if f == -1 then -1 else TIER_MAP[f].1
  }

  /** The tier an alias belongs to, told apart by its first character and, for
      the two tiers whose Latin aliases start with "g", by its second. */
  function KeyOwner(key: string): int
  {
    if key == [] then -1
    else
      var c := key[0];
      if c == '브' || c == 'b' then 0
      else if c == '실' || c == 's' then 1
      else if c == '골' || (c == 'g' && |key| > 1 && key[1] == 'o') then 2
      else if c == '플' || c == 'p' then 3
      else if c == '다' || c == 'd' then 4
      else if c == '마' || c == 'm' then 5
      else if c == '그' || c == 'g' then 6
      else if c == '챔' || c == 'c' then 7
      else -1
  }

  /** Every alias is owned by the tier it maps to, so no alias is listed for two tiers. */
  lemma KeysOwned()
    ensures forall j :: 0 <= j < |TIER_MAP| ==> KeyOwner(TIER_MAP[j].0) == TIER_MAP[j].1
  {
    BronzeToGoldOwned();
    PlatinumToDiamondOwned();
    MasterToChampionOwned();
  }

  lemma BronzeToGoldOwned()
    ensures forall j :: 0 <= j < 13 ==> KeyOwner(TIER_MAP[j].0) == TIER_MAP[j].1
  {
  }

  lemma PlatinumToDiamondOwned()
    ensures forall j :: 13 <= j < 28 ==> KeyOwner(TIER_MAP[j].0) == TIER_MAP[j].1
  {
  }

  lemma MasterToChampionOwned()
    ensures forall j :: 28 <= j < |TIER_MAP| ==> KeyOwner(TIER_MAP[j].0) == TIER_MAP[j].1
  {
  }

  /** The characters an alias can start with. */
  predicate IsKeyInitial(c: char)
  {
    c == '브' || c == '실' || c == '골' || c == '플' || c == '다' || c == '마' || c == '그' || c == '챔'
    || c == 'b' || c == 's' || c == 'g' || c == 'p' || c == 'd' || c == 'm' || c == 'c'
  }

  lemma KeyInitials()
    ensures forall j :: 0 <= j < |TIER_MAP| ==> TIER_MAP[j].0 != [] && IsKeyInitial(TIER_MAP[j].0[0])
  {
    KeysOwned();
  }

  /** An exact alias, in any case and with surrounding blanks, gives its tier. */
  lemma ExactAliasFindsItsTier(tierStr: string, j: nat)
    requires j < |TIER_MAP| && Trim(Lower(tierStr)) == TIER_MAP[j].0
    ensures FindTierIndex(tierStr) == TIER_MAP[j].1
  {
    KeysOwned();
  }

  /** Without an exact alias the token reads as the tier of the first related
      alias in table order, and as -1 when no alias is related. */
  lemma FallbackFindsFirstRelated(tierStr: string)
    requires forall j :: 0 <= j < |TIER_MAP| ==> TIER_MAP[j].0 != Trim(Lower(tierStr))
    ensures FindTierIndex(tierStr) == -1 <==>
            forall j :: 0 <= j < |TIER_MAP| ==> !Related(Trim(Lower(tierStr)), TIER_MAP[j].0)
    ensures FindTierIndex(tierStr) != -1 ==>
            exists k :: 0 <= k < |TIER_MAP| && FindTierIndex(tierStr) == TIER_MAP[k].1
                        && Related(Trim(Lower(tierStr)), TIER_MAP[k].0)
                        && forall j :: 0 <= j < k ==> !Related(Trim(Lower(tierStr)), TIER_MAP[j].0)
  {
    var u := Trim(Lower(tierStr));
    var f := RelatedIndex(u, 0);
    if f != -1 {
      assert FindTierIndex(tierStr) == TIER_MAP[f].1;
    }
  }

  /** A token that starts with no alias's first character names no tier. */
  lemma UnknownInitialFindsNothing(tierStr: string)
    requires Trim(Lower(tierStr)) != [] && !IsKeyInitial(Trim(Lower(tierStr))[0])
    ensures FindTierIndex(tierStr) == -1
  {
    NoAliasStartsWith(Trim(Lower(tierStr)));
  }

  lemma NoAliasStartsWith(u: string)
    requires u != [] && !IsKeyInitial(u[0])
    ensures ExactIndex(u, 0) == -1 && RelatedIndex(u, 0) == -1
  {
    KeyInitials();
    forall j | 0 <= j < |TIER_MAP|
      ensures TIER_MAP[j].0 != u && !Related(u, TIER_MAP[j].0)
    {
      assert TIER_MAP[j].0[0] != u[0];
    }
  }

  // ---------------------------------------------------------------------------
  // Role words.

  const TANK_PATTERNS: seq<string> := ["탱커", "탱", "t", "tank"]
  const DPS_PATTERNS: seq<string> := ["딜러", "딜", "d", "dps", "damage"]
  const SUPPORT_PATTERNS: seq<string> := ["힐러", "힐", "s", "support", "sup", "heal", "healer"]

  /** `patterns.some(p => normalized.startsWith(p))`. */
  predicate AnyPrefix(patterns: seq<string>, u: string)
  {
    exists i :: 0 <= i < |patterns| && patterns[i] <= u
  }

  /** `parseRole`: lower-cased and trimmed, the first role family, tank first,
      one of whose patterns the word starts with. */
  function ParseRole(roleStr: string): Option<Role>
  {
    var u := Trim(Lower(roleStr));
    if AnyPrefix(TANK_PATTERNS, u) then Some(TANK)
    else if AnyPrefix(DPS_PATTERNS, u) then Some(DPS)
    else if AnyPrefix(SUPPORT_PATTERNS, u) then Some(SUPPORT)
    else None
  }

  lemma TankWords(u: string)
    ensures AnyPrefix(TANK_PATTERNS, u) <==> "탱" <= u || "t" <= u
  {
    if AnyPrefix(TANK_PATTERNS, u) {
      var i :| 0 <= i < |TANK_PATTERNS| && TANK_PATTERNS[i] <= u;
      assert u[0] == TANK_PATTERNS[i][0];
    }
    if "탱" <= u { assert TANK_PATTERNS[1] <= u; }
    if "t" <= u { assert TANK_PATTERNS[2] <= u; }
  }

  lemma DpsWords(u: string)
    ensures AnyPrefix(DPS_PATTERNS, u) <==> "딜" <= u || "d" <= u
  {
    if AnyPrefix(DPS_PATTERNS, u) {
      var i :| 0 <= i < |DPS_PATTERNS| && DPS_PATTERNS[i] <= u;
      assert u[0] == DPS_PATTERNS[i][0];
    }
    if "딜" <= u { assert DPS_PATTERNS[1] <= u; }
    if "d" <= u { assert DPS_PATTERNS[2] <= u; }
  }

  lemma SupportWords(u: string)
    ensures AnyPrefix(SUPPORT_PATTERNS, u) <==> "힐" <= u || "s" <= u || "heal" <= u
  {
    if AnyPrefix(SUPPORT_PATTERNS, u) {
      var i :| 0 <= i < |SUPPORT_PATTERNS| && SUPPORT_PATTERNS[i] <= u;
      if i == 6 {
        assert u[..4] == "heal";
      } else {
        assert u[0] == SUPPORT_PATTERNS[i][0];
      }
    }
    if "힐" <= u { assert SUPPORT_PATTERNS[1] <= u; }
    if "s" <= u { assert SUPPORT_PATTERNS[2] <= u; }
    if "heal" <= u { assert SUPPORT_PATTERNS[5] <= u; }
  }

  /** The longer patterns add nothing: a word is a tank word exactly when it
      starts with "탱" or "t", and so on for the other families. */
  lemma ParseRoleByInitial(roleStr: string)
    ensures var u := Trim(Lower(roleStr));
            ParseRole(roleStr) ==
              if "탱" <= u || "t" <= u then Some(TANK)
              else if "딜" <= u || "d" <= u then Some(DPS)
              else if "힐" <= u || "s" <= u || "heal" <= u then Some(SUPPORT)
              else None
  {
    var u := Trim(Lower(roleStr));
    TankWords(u);
    DpsWords(u);
    SupportWords(u);
  }

  // ---------------------------------------------------------------------------
  // Estimated tiers.

  /** A parenthesised run of tier letters starting at `p`: its inner word. */
  function ParenWordAt(s: string, p: nat): (w: Option<string>)
    requires p <= |s|
    ensures w.Some? ==> w.value != [] && forall i :: 0 <= i < |w.value| ==> IsTierLetter(w.value[i])
  {
    if p + 1 < |s| && s[p] == '(' && IsTierLetter(s[p + 1]) then
      var q := LetterRunEnd(s, p + 1);
      if q < |s| && s[q] == ')' then Some(s[p + 1..q]) else None
    else None
  }

  /** `text.match(/\(([가-힣a-zA-Z]+)\)/)` searching from `p`: the inner word of the leftmost match. */
  function FirstParenWord(s: string, p: nat): (w: Option<string>)
    requires p <= |s|
    ensures w.None? <==> forall i :: p <= i <= |s| ==> ParenWordAt(s, i).None?
    ensures w.Some? ==> exists i :: p <= i <= |s| && ParenWordAt(s, i) == w
    decreases |s| - p
  {
    if ParenWordAt(s, p).Some? then ParenWordAt(s, p)
    else if p == |s| then None
    else FirstParenWord(s, p + 1)
  }

  /** `inner.match(/배치|예상|중/)`: a placement or estimate marker. */
  predicate MarksPlacement(inner: string)
  {
    Contains(inner, "배치") || Contains(inner, "예상") || Contains(inner, "중")
  }

  /** `extractEstimatedTier`: the first parenthesised word, unless it marks a
      placement or an estimate rather than naming a tier. */
  function ExtractEstimatedTier(text: string): (r: Option<string>)
    ensures r.Some? ==> r.value != [] && !MarksPlacement(r.value)
    ensures r.None? <==> FirstParenWord(text, 0).None? || MarksPlacement(FirstParenWord(text, 0).value)
  {
    match FirstParenWord(text, 0)
    case None => None
    case Some(inner) => if MarksPlacement(inner) then None else Some(inner)
  }

  // ---------------------------------------------------------------------------
  // One rank segment.

  /** Which digits the division pattern takes: `\d` as written, or `[1-5]`. */
  datatype DigitRule = AnyDigit | RankDigit

  predicate TakesDigit(rule: DigitRule, c: char)
  {
    match rule
    case AnyDigit => IsDigit(c)
    case RankDigit => '1' <= c <= '5'
  }

  /** `/^([가-힣a-zA-Z]+)\s*(\d)?$/`: the whole text is a tier word, blanks and
      at most one digit. Giving back letters cannot help: the character after
      a shorter run would be a letter, which neither a blank nor a digit is. */
  function TierDivMatch(s: string, rule: DigitRule): (m: Option<(string, Option<char>)>)
    ensures m.Some? ==> m.value.0 != [] && (m.value.1.Some? ==> TakesDigit(rule, m.value.1.value))
  {
    if s != [] && IsTierLetter(s[0]) then
      var q := LetterRunEnd(s, 0);
      var r := SpaceRunEnd(s, q);
      if r == |s| then Some((s[..q], None))
      else if r + 1 == |s| && TakesDigit(rule, s[r]) then Some((s[..q], Some(s[r])))
      else None
    else None
  }

  /** `cleanSegment.match(/미배치|unranked/i)`. */
  predicate MentionsUnranked(s: string)
  {
    Contains(s, "미배치") || Contains(Lower(s), "unranked")
  }

  /** What `parseRankSegment` returns: a tier index, a division and the preference flag. */
  datatype Parsed = Parsed(tierIdx: TierIdx, div: nat, isPreferred: bool)

  /** `parseRankSegment`, with the division digits `rule` admits. */
  function SegmentWith(segment: string, rule: DigitRule): (r: Option<Parsed>)
    ensures r.Some? ==> (r.value.isPreferred <==> '!' in segment)
    ensures r.Some? && MentionsUnranked(Trim(ReplaceChar(segment, '!', ""))) ==> r.value.div == 3
    ensures (MentionsUnranked(Trim(ReplaceChar(segment, '!', "")))
             && ExtractEstimatedTier(Trim(ReplaceChar(segment, '!', ""))).None?) ==> r.None?
    ensures r.Some? && rule == RankDigit ==> 1 <= r.value.div <= 5
    ensures r.Some? ==> r.value.div <= 9
  {
    var isPreferred := '!' in segment;
    var clean := Trim(ReplaceChar(segment, '!', ""));
    if MentionsUnranked(clean) then UnrankedSegment(clean, isPreferred)
    else RankedSegment(clean, rule, isPreferred)
  }

  /** An unranked segment: the tier it estimates in parentheses, division 3. */
  function UnrankedSegment(clean: string, isPreferred: bool): (r: Option<Parsed>)
    ensures r.Some? ==> r.value.isPreferred == isPreferred && r.value.div == 3
    ensures ExtractEstimatedTier(clean).None? ==> r.None?
  {
    match ExtractEstimatedTier(clean)
    case None => None
    case Some(estimated) =>
      var t := FindTierIndex(estimated);
      if t != -1 then Some(Parsed(t, 3, isPreferred)) else None
  }

  /** A ranked segment: "(예상)" dropped, a tier word and an optional division. */
  function RankedSegment(clean: string, rule: DigitRule, isPreferred: bool): (r: Option<Parsed>)
    ensures r.Some? ==> r.value.isPreferred == isPreferred
    ensures r.Some? && rule == RankDigit ==> 1 <= r.value.div <= 5
    ensures r.Some? ==> r.value.div <= 9
  {
    var withoutEstimate := Trim(ReplaceAll(clean, "(예상)", ""));
    match TierDivMatch(withoutEstimate, rule)
    case None => None
    case Some(m) =>
      var t := FindTierIndex(m.0);
      if t == -1 then None
      else Some(Parsed(t, if m.1.Some? then DigitValue(m.1.value) else 3, isPreferred))
  }

  /** `parseRankSegment`: the division is any digit, so it is 0..9. */
  function ParseRankSegment(segment: string): (r: Option<Parsed>)
    ensures r.Some? ==> r.value.div <= 9
  {
    SegmentWith(segment, AnyDigit)
  }

  /** `parseRankSegment` corrected: the division is limited to 1..5. */
  function ParseRankSegmentCorrected(segment: string): (r: Option<Parsed>)
    ensures r.Some? ==> 1 <= r.value.div <= 5
  {
    SegmentWith(segment, RankDigit)
  }

  /** A segment without a written division reads as division 3. */
  lemma MissingDivisionIsThree(segment: string, rule: DigitRule)
    requires !MentionsUnranked(Trim(ReplaceChar(segment, '!', "")))
    requires var m := TierDivMatch(Trim(ReplaceAll(Trim(ReplaceChar(segment, '!', "")), "(예상)", "")), rule);
             m.Some? && m.value.1.None?
    ensures SegmentWith(segment, rule).Some? ==> SegmentWith(segment, rule).value.div == 3
  {
  }

  /** A tier word followed by blanks and a digit: the word's tier and the digit's value. */
  lemma WordAndDigitSegment(word: string, gap: string, d: char, rule: DigitRule)
    requires word != [] && forall i :: 0 <= i < |word| ==> IsTierLetter(word[i])
    requires forall i :: 0 <= i < |gap| ==> IsSpace(gap[i])
    requires TakesDigit(rule, d) && FindTierIndex(word) != -1
    requires !MentionsUnranked(word + gap + [d])
    ensures SegmentWith(word + gap + [d], rule) == Some(Parsed(FindTierIndex(word), DigitValue(d), false))
  {
    var s := word + gap + [d];
    WordAndDigitPlain(word, gap, d);
    WordAndDigitMatch(word, gap, d, rule);
    PlainSegment(s, rule, word, d);
  }

  /** A word that is no tier alias, followed by blanks and a digit, reads as nothing. */
  lemma UnknownWordSegment(word: string, gap: string, d: char, rule: DigitRule)
    requires word != [] && forall i :: 0 <= i < |word| ==> IsTierLetter(word[i])
    requires forall i :: 0 <= i < |gap| ==> IsSpace(gap[i])
    requires TakesDigit(rule, d) && FindTierIndex(word) == -1
    requires !MentionsUnranked(word + gap + [d])
    ensures SegmentWith(word + gap + [d], rule).None?
  {
    var s := word + gap + [d];
    WordAndDigitPlain(word, gap, d);
    WordAndDigitMatch(word, gap, d, rule);
    PlainSegmentUnknown(s, rule, word, d);
  }

  lemma PlainSegmentUnknown(s: string, rule: DigitRule, word: string, d: char)
    requires Trim(ReplaceChar(s, '!', "")) == s && Trim(ReplaceAll(s, "(예상)", "")) == s
    requires !MentionsUnranked(s) && TierDivMatch(s, rule) == Some((word, Some(d))) && FindTierIndex(word) == -1
    ensures SegmentWith(s, rule).None?
  {
  }

  /** A segment that cleaning leaves as it is and that matches as a word and a digit. */
  lemma PlainSegment(s: string, rule: DigitRule, word: string, d: char)
    requires '!' !in s && Trim(ReplaceChar(s, '!', "")) == s && Trim(ReplaceAll(s, "(예상)", "")) == s
    requires IsDigit(d) && !MentionsUnranked(s) && TierDivMatch(s, rule) == Some((word, Some(d))) && FindTierIndex(word) != -1
    ensures SegmentWith(s, rule) == Some(Parsed(FindTierIndex(word), DigitValue(d), false))
  {
  }

  /** Such a segment has no '!' and no '(' and is already trimmed, so cleaning keeps it. */
  lemma WordAndDigitPlain(word: string, gap: string, d: char)
    requires word != [] && forall i :: 0 <= i < |word| ==> IsTierLetter(word[i])
    requires forall i :: 0 <= i < |gap| ==> IsSpace(gap[i])
    requires IsDigit(d)
    ensures '!' !in word + gap + [d]
    ensures Trim(ReplaceChar(word + gap + [d], '!', "")) == word + gap + [d]
    ensures Trim(ReplaceAll(word + gap + [d], "(예상)", "")) == word + gap + [d]
  {
    var s := word + gap + [d];
    WordAndDigitChars(word, gap, d);
    ReplaceCharAbsent(s, '!');
    assert !IsSpace(s[0]) by { assert s[0] == word[0]; }
    TrimKeepsEnds(s);
    ReplaceAllAbsent(s, "(예상)", "");
  }

  lemma WordAndDigitChars(word: string, gap: string, d: char)
    requires forall i :: 0 <= i < |word| ==> IsTierLetter(word[i])
    requires forall i :: 0 <= i < |gap| ==> IsSpace(gap[i])
    requires IsDigit(d)
    ensures forall i :: 0 <= i < |word + gap + [d]| ==> (word + gap + [d])[i] != '!' && (word + gap + [d])[i] != '('
    ensures '!' !in word + gap + [d]
  {
    var s := word + gap + [d];
    var n := |word|;
    forall i | 0 <= i < |s| ensures s[i] != '!' && s[i] != '(' {
      if i < n { assert s[i] == word[i]; } else if i < n + |gap| { assert s[i] == gap[i - n]; }
    }
  }

  lemma WordAndDigitMatch(word: string, gap: string, d: char, rule: DigitRule)
    requires word != [] && forall i :: 0 <= i < |word| ==> IsTierLetter(word[i])
    requires forall i :: 0 <= i < |gap| ==> IsSpace(gap[i])
    requires TakesDigit(rule, d)
    ensures TierDivMatch(word + gap + [d], rule) == Some((word, Some(d)))
  {
    var s := word + gap + [d];
    var n := |word|;
    assert !IsSpace(d) && !IsTierLetter(d) by { assert IsDigit(d); }
    assert forall i :: n <= i < n + |gap| ==> s[i] == gap[i - n];
    LetterRunFrom(s, 0, n);
    assert s[..n] == word;
    SpaceRun(s, n, n + |gap|);
  }

  lemma {:induction false} ReplaceCharAbsent(s: string, c: char)
    requires c !in s
    ensures ReplaceChar(s, c, "") == s
  {
    if s != [] {
      ReplaceCharAbsent(s[1..], c);
    }
  }

  lemma {:induction false} ReplaceAllAbsent(s: string, pat: string, rep: string)
    requires pat != [] && forall i :: 0 <= i < |s| ==> s[i] != pat[0]
    ensures ReplaceAll(s, pat, rep) == s
  {
    if s != [] {
      assert s[0] != pat[0];
      assert !(pat <= s);
      ReplaceAllAbsent(s[1..], pat, rep);
    }
  }

  lemma TrimKeepsEnds(s: string)
    requires s != [] && !IsSpace(s[0]) && !IsSpace(s[|s| - 1])
    ensures Trim(s) == s
  {
  }

  // ---------------------------------------------------------------------------
  // Ranks.

  /** `createRank`: -1 gives the unranked rank; otherwise the listed tier, the
      division, its score and the preference flag. */
  function CreateRank(tierIdx: int, div: nat, isPreferred: bool): (r: Rank)
    requires -1 <= tierIdx < |TIERS|
    ensures tierIdx == -1 ==> r == Rank(UNRANKED, 0, 0, false)
    ensures tierIdx != -1 ==> r.tier != UNRANKED && Ordinal(r.tier) == tierIdx && r.div == div
                              && r.score == GetScore(tierIdx, div) && r.isPreferred == isPreferred
  {
    if tierIdx == -1 then Rank(UNRANKED, 0, 0, false)
    else Rank(TIERS[tierIdx], div, GetScore(tierIdx, div), isPreferred)
  }

  /** A listed tier with a division 1..5 makes a rank meeting the documented invariant. */
  lemma CreateRankKeepsInvariant(tierIdx: int, div: nat, isPreferred: bool)
    requires -1 <= tierIdx < |TIERS| && (tierIdx != -1 ==> 1 <= div <= 5)
    ensures RankInvariant(CreateRank(tierIdx, div, isPreferred))
  {
  }

  /** A segment `parseRankSegment` accepts makes a rank meeting the documented
      invariant exactly when its division is 1..5; divisions 0 and 6..9 break it. */
  lemma ParsedRankKeepsInvariant(segment: string)
    requires ParseRankSegment(segment).Some?
    ensures var p := ParseRankSegment(segment).value;
            RankInvariant(CreateRank(p.tierIdx, p.div, p.isPreferred)) <==> 1 <= p.div <= 5
  {
    var p := ParseRankSegment(segment).value;
    ListedRankInvariant(p.tierIdx, p.div, p.isPreferred);
  }

  /** A listed tier makes a rank meeting the invariant exactly when the division is 1..5. */
  lemma ListedRankInvariant(tierIdx: TierIdx, div: nat, isPreferred: bool)
    ensures RankInvariant(CreateRank(tierIdx, div, isPreferred)) <==> 1 <= div <= 5
  {
    if 1 <= div <= 5 {
      CreateRankKeepsInvariant(tierIdx, div, isPreferred);
    }
  }

  /** Every segment the corrected reading accepts makes a rank meeting the invariant. */
  lemma CorrectedRankKeepsInvariant(segment: string)
    requires ParseRankSegmentCorrected(segment).Some?
    ensures var p := ParseRankSegmentCorrected(segment).value;
            RankInvariant(CreateRank(p.tierIdx, p.div, p.isPreferred))
  {
  }

  // ---------------------------------------------------------------------------
  // Divisions outside 1..5.

  /** As written, `\d` takes any digit: a tier word followed by "9" reads as
      division 9, a rank outside the documented invariant, and above bronze it
      scores exactly what division 3 of the tier below does ("골드9" and "실버3"). */
  lemma NineAsWritten(word: string)
    requires word != [] && forall i :: 0 <= i < |word| ==> IsTierLetter(word[i])
    requires FindTierIndex(word) != -1 && !MentionsUnranked(word + "" + ['9'])
    ensures ParseRankSegment(word + "" + ['9']) == Some(Parsed(FindTierIndex(word), 9, false))
    ensures !RankInvariant(CreateRank(FindTierIndex(word), 9, false))
    ensures FindTierIndex(word) >= 1 ==>
            CreateRank(FindTierIndex(word), 9, false).score == CreateRank(FindTierIndex(word) - 1, 3, false).score
  {
    WordAndDigitSegment(word, "", '9', AnyDigit);
    DivisionNine(FindTierIndex(word));
  }

  lemma DivisionNine(t: int)
    requires 0 <= t < |TIERS|
    ensures !RankInvariant(CreateRank(t, 9, false))
    ensures t >= 1 ==> CreateRank(t, 9, false).score == CreateRank(t - 1, 3, false).score
  {
  }

  /** Corrected, the division digit is 1..5, and a tier word followed by "9" reads as no rank. */
  lemma NineCorrected(word: string)
    requires word != [] && forall i :: 0 <= i < |word| ==> IsTierLetter(word[i])
    requires !MentionsUnranked(word + "" + ['9'])
    ensures ParseRankSegmentCorrected(word + "" + ['9']).None?
  {
    var s := word + "" + ['9'];
    WordAndDigitPlain(word, "", '9');
    NineNotTaken(word);
    PlainSegmentUnmatched(s, RankDigit);
  }

  lemma NineNotTaken(word: string)
    requires word != [] && forall i :: 0 <= i < |word| ==> IsTierLetter(word[i])
    ensures TierDivMatch(word + "" + ['9'], RankDigit).None?
  {
    var s := word + "" + ['9'];
    var n := |word|;
    LetterRunFrom(s, 0, n);
    assert SpaceRunEnd(s, n) == n;
  }

  /** A segment that cleaning leaves as it is and that does not match reads as no rank. */
  lemma PlainSegmentUnmatched(s: string, rule: DigitRule)
    requires Trim(ReplaceChar(s, '!', "")) == s && Trim(ReplaceAll(s, "(예상)", "")) == s
    requires !MentionsUnranked(s) && TierDivMatch(s, rule).None?
    ensures SegmentWith(s, rule).None?
  {
  }
}
