/** The score model of the earlier single-page engine: ranks are free text such
    as "다이아 3" or "gm 2"; a tier word followed by a division 1..5 is scored
    tier*600 + (6 - div)*100, anything else scores 0. Scores are memoised in a
    map that only caches. */
module LegacyScore {

  import opened Types
  import opened Wrappers
  import opened JsText

  /** The aliases of each ranked tier, upper-cased, in table order. */
  function Aliases(t: Tier): (aliases: seq<string>)
    requires t != UNRANKED
    ensures aliases != []
  {
    match t
    case BRONZE => ["브", "브론즈", "BRONZE", "BR", "B"]
    case SILVER => ["실", "실버", "SILVER", "SIL", "S"]
    case GOLD => ["골", "골드", "GOLD", "G"]
    case PLATINUM => ["플레", "플", "플래티넘", "PLATINUM", "PLAT", "PL"]
    case DIAMOND => ["다", "다이아", "DIAMOND", "DIA", "D"]
    case MASTER => ["마", "마스터", "MASTER", "M"]
    case GRANDMASTER => ["그마", "그랜드마스터", "그", "GRANDMASTER", "GM"]
    case CHAMPION => ["챔", "챔피언", "CHAMPION", "CH"]
  }

  const TIER_COUNT: nat := 8

  /** The ranked tiers in table order, lowest first. */
  function TierAt(i: nat): (t: Tier)
    requires i < TIER_COUNT
    ensures t != UNRANKED && Ordinal(t) == i
  {
    if i == 0 then BRONZE else if i == 1 then SILVER else if i == 2 then GOLD
    else if i == 3 then PLATINUM else if i == 4 then DIAMOND else if i == 5 then MASTER
    else if i == 6 then GRANDMASTER else CHAMPION
  }

  /** The display label of each ranked tier. */
  function TierLabel(t: Tier): (word: string)
    requires t != UNRANKED
    ensures word != [] && forall i :: 0 <= i < |word| ==> IsHangul(word[i])
  {
    match t
    case BRONZE => "브론즈"
    case SILVER => "실버"
    case GOLD => "골드"
    case PLATINUM => "플래티넘"
    case DIAMOND => "다이아"
    case MASTER => "마스터"
    case GRANDMASTER => "그랜드마스터"
    case CHAMPION => "챔피언"
  }

  /** The token as the lookup compares it: blanks removed, upper-cased. */
  function Canonical(tok: string): string
  {
    Upper(RemoveSpaces(tok))
  }

  /** The length of the longest of `aliases` that prefixes `u`, or -1. */
  function LongestPrefix(u: string, aliases: seq<string>): (n: int)
    ensures n >= -1
  {
    if aliases == [] then -1
    else
      var rest := LongestPrefix(u, aliases[..|aliases| - 1]);
      if Last(aliases) <= u && rest < |Last(aliases)| then |Last(aliases)| else rest
  }

  /** -1 exactly when no alias prefixes `u`; otherwise the length of a prefixing
      alias, and no prefixing alias is longer. */
  lemma {:induction false} LongestPrefixIsLongest(u: string, aliases: seq<string>)
    ensures var n := LongestPrefix(u, aliases);
      && (n == -1 <==> forall j :: 0 <= j < |aliases| ==> !(aliases[j] <= u))
      && (n != -1 ==> exists j :: 0 <= j < |aliases| && aliases[j] <= u && |aliases[j]| == n)
      && (forall j :: 0 <= j < |aliases| && aliases[j] <= u ==> |aliases[j]| <= n)
  {
    if aliases != [] {
      var init := aliases[..|aliases| - 1];
      LongestPrefixIsLongest(u, init);
      assert forall j :: 0 <= j < |init| ==> init[j] == aliases[j];
    }
  }

  function Last<T>(s: seq<T>): T
    requires s != []
  {
    s[|s| - 1]
  }

  /** Some alias of `t` is a prefix of `u` (by `LongestPrefixIsLongest`). */
  predicate NamesTier(u: string, t: Tier)
    requires t != UNRANKED
  {
    LongestPrefix(u, Aliases(t)) != -1
  }

  // ---------------------------------------------------------------------------
  // Tier-word lookup, as written. The flattened alias map keeps insertion order
  // (no key is integer-like and none repeats), so its walk visits the aliases
  // tier by tier: the first alias found belongs to the first tier, in table
  // order, that has any alias the token starts with.

  /** The first tier at or after position `i` that `u` names. */
  function FirstNamedTier(u: string, i: nat): (t: Option<Tier>)
    requires i <= TIER_COUNT
    ensures t.Some? ==> t.value != UNRANKED
    decreases TIER_COUNT - i
  {
    if i == TIER_COUNT then None
    else if NamesTier(u, TierAt(i)) then Some(TierAt(i))
    else FirstNamedTier(u, i + 1)
  }

  /** The lookup finds nothing exactly when no tier from `i` on is named, and
      otherwise finds a named tier with no named tier before it. */
  lemma {:induction false} FirstNamedTierIsFirst(u: string, i: nat)
    requires i <= TIER_COUNT
    ensures var t := FirstNamedTier(u, i);
      && (t.None? <==> forall j :: i <= j < TIER_COUNT ==> !NamesTier(u, TierAt(j)))
      && (t.Some? ==> i <= Ordinal(t.value) && NamesTier(u, t.value)
                      && forall j :: i <= j < Ordinal(t.value) ==> !NamesTier(u, TierAt(j)))
    decreases TIER_COUNT - i
  {
    if i < TIER_COUNT && !NamesTier(u, TierAt(i)) {
      FirstNamedTierIsFirst(u, i + 1);
    }
  }

  /** `normalizeTierToken` as the code reads; `None` stands for the empty string. */
  function NormalizeTierTokenAsWritten(tok: string): (t: Option<Tier>)
    ensures t.Some? ==> t.value != UNRANKED
  {
    FirstNamedTier(Canonical(tok), 0)
  }

  /** "gm" and "grandmaster" start with GOLD's alias "G", which the table lists
      first, so as written both read as GOLD. */
  lemma GrandmasterReadsAsGold(tok: string)
    requires tok == "gm" || tok == "grandmaster"
    ensures NormalizeTierTokenAsWritten(tok) == Some(GOLD)
  {
    RemoveSpacesKeepsBlankFree(tok);
    ReadsAsGold(Upper(tok));
  }

  /** As written, every canonical token starting with "G" reads as GOLD. */
  lemma ReadsAsGold(u: string)
    requires u != [] && u[0] == 'G'
    ensures FirstNamedTier(u, 0) == Some(GOLD)
  {
    LeadingGNamesNeither(u);
    LeadingGNamesGold(u);
    assert FirstNamedTier(u, 2) == Some(GOLD);
  }

  /** No BRONZE or SILVER alias starts with "G". */
  lemma LeadingGNamesNeither(u: string)
    requires u != [] && u[0] == 'G'
    ensures !NamesTier(u, BRONZE) && !NamesTier(u, SILVER)
  {
    NoAliasLeadsWith(u, Aliases(BRONZE));
    NoAliasLeadsWith(u, Aliases(SILVER));
  }

  /** GOLD's alias "G" prefixes such a token. */
  lemma LeadingGNamesGold(u: string)
    requires u != [] && u[0] == 'G'
    ensures NamesTier(u, GOLD)
  {
    LongestPrefixIsLongest(u, Aliases(GOLD));
    assert Aliases(GOLD)[3] <= u;
  }

  /** No alias starting with a different character prefixes `u`. */
  lemma NoAliasLeadsWith(u: string, aliases: seq<string>)
    requires u != [] && forall j :: 0 <= j < |aliases| ==> aliases[j] != [] && aliases[j][0] != u[0]
    ensures LongestPrefix(u, aliases) == -1
  {
    LongestPrefixIsLongest(u, aliases);
  }

  // ---------------------------------------------------------------------------
  // Tier-word lookup, corrected: the tier owning the longest alias the token starts with.

  /** Among the tiers at or after position `i`, the first one whose longest
      matching alias is at least as long as every other tier's, and that length. */
  function LongestNamedTier(u: string, i: nat): (r: (Option<Tier>, int))
    requires i <= TIER_COUNT
    ensures r.0.None? <==> r.1 == -1
    ensures r.0.Some? ==> r.0.value != UNRANKED && i <= Ordinal(r.0.value)
                          && r.1 == LongestPrefix(u, Aliases(r.0.value)) && r.1 >= 0
    decreases TIER_COUNT - i
  {
    if i == TIER_COUNT then (None, -1)
    else
      var here := LongestPrefix(u, Aliases(TierAt(i)));
      var rest := LongestNamedTier(u, i + 1);
      if here >= 0 && here >= rest.1 then (Some(TierAt(i)), here) else rest
  }

  /** No tier at or after position `i` has a longer alias prefixing `u`. */
  lemma {:induction false} LongestNamedTierIsLongest(u: string, i: nat)
    requires i <= TIER_COUNT
    ensures forall j :: i <= j < TIER_COUNT ==> LongestPrefix(u, Aliases(TierAt(j))) <= LongestNamedTier(u, i).1
    decreases TIER_COUNT - i
  {
    if i < TIER_COUNT {
      var best := LongestNamedTier(u, i).1;
      assert LongestPrefix(u, Aliases(TierAt(i))) <= best;
      assert LongestNamedTier(u, i + 1).1 <= best;
      LongestNamedTierIsLongest(u, i + 1);
    }
  }

  /** The tier a token names: the one owning the longest alias it starts with. */
  function NormalizeTierToken(tok: string): (t: Option<Tier>)
    ensures t.Some? ==> t.value != UNRANKED
  {
    LongestNamedTier(Canonical(tok), 0).0
  }

  /** Both readings recognise exactly the same tokens; they differ only in which tier. */
  lemma NormalizeRecognisesSameTokens(tok: string)
    ensures NormalizeTierToken(tok).None? <==> NormalizeTierTokenAsWritten(tok).None?
  {
    var u := Canonical(tok);
    LongestNamedTierIsLongest(u, 0);
    FirstNamedTierIsFirst(u, 0);
    if NormalizeTierToken(tok).None? {
      forall j | 0 <= j < TIER_COUNT ensures !NamesTier(u, TierAt(j)) {
        assert LongestPrefix(u, Aliases(TierAt(j))) <= -1;
      }
    }
  }

  /** The tier an alias belongs to, told apart by its first character and, for
      the two tiers whose Latin aliases share "G", by its length. */
  function AliasOwner(a: string): Tier
    requires a != []
  {
    var c := a[0];
    if c == '브' || c == 'B' then BRONZE
    else if c == '실' || c == 'S' then SILVER
    else if c == '골' || (c == 'G' && (|a| == 1 || |a| == 4)) then GOLD
    else if c == '플' || c == 'P' then PLATINUM
    else if c == '다' || c == 'D' then DIAMOND
    else if c == '마' || c == 'M' then MASTER
    else if c == '그' || c == 'G' then GRANDMASTER
    else CHAMPION
  }

  lemma AliasesOwned(t: Tier, a: string)
    requires t != UNRANKED && a in Aliases(t)
    ensures a != [] && AliasOwner(a) == t
  {
    var k :| 0 <= k < |Aliases(t)| && Aliases(t)[k] == a;
    AliasOwnedAt(t, k);
  }

  /** The alias at position `k` of a tier's list belongs to that tier (checked
      for the four lower and the four higher tiers apart). */
  lemma AliasOwnedAt(t: Tier, k: nat)
    requires t != UNRANKED && k < |Aliases(t)|
    ensures Aliases(t)[k] != [] && AliasOwner(Aliases(t)[k]) == t
  {
    if t == BRONZE || t == SILVER || t == GOLD || t == PLATINUM {
      LowTierAliasOwned(t, k);
    } else {
      HighTierAliasOwned(t, k);
    }
  }

  lemma LowTierAliasOwned(t: Tier, k: nat)
    requires (t == BRONZE || t == SILVER || t == GOLD || t == PLATINUM) && k < |Aliases(t)|
    ensures Aliases(t)[k] != [] && AliasOwner(Aliases(t)[k]) == t
  {
  }

  lemma HighTierAliasOwned(t: Tier, k: nat)
    requires (t == DIAMOND || t == MASTER || t == GRANDMASTER || t == CHAMPION) && k < |Aliases(t)|
    ensures Aliases(t)[k] != [] && AliasOwner(Aliases(t)[k]) == t
  {
  }

  /** The tier the corrected lookup picks for an alias owns that very alias. */
  lemma {:induction false} LongestMatchIsExact(i: nat, u: string)
    requires i < TIER_COUNT && u in Aliases(TierAt(i))
    ensures LongestNamedTier(u, 0).0.Some?
    ensures u in Aliases(LongestNamedTier(u, 0).0.value)
  {
    var r := LongestNamedTier(u, 0);
    LongestNamedTierIsLongest(u, 0);
    LongestPrefixOfMember(u, Aliases(TierAt(i)));
    var owner := r.0.value;
    var j := LongestPrefixWitness(u, Aliases(owner));
    // The owner's alias prefixes `u` and is no shorter, so it is `u` itself.
    FullPrefixIsWhole(Aliases(owner)[j], u);
  }

  /** Every alias, typed as it is listed, reads as its own tier under the
      corrected lookup. As written it does too, except that an alias starting
      with "G" ("GM" and "GRANDMASTER" as well as GOLD's own) reads as GOLD. */
  lemma EveryAliasNamesItsTier(t: Tier, tok: string)
    requires t != UNRANKED && Canonical(tok) in Aliases(t)
    ensures NormalizeTierToken(tok) == Some(t)
    ensures NormalizeTierTokenAsWritten(tok) == if "G" <= Canonical(tok) then Some(GOLD) else Some(t)
  {
    var u := Canonical(tok);
    assert TierAt(Ordinal(t)) == t;
    LongestMatchIsExact(Ordinal(t), u);
    AliasesOwned(t, u);
    AliasesOwned(LongestNamedTier(u, 0).0.value, u);
    if "G" <= u {
      ReadsAsGold(u);
    } else {
      AsWrittenAgreesOffG(tok);
    }
  }

  /** Off the one shared initial "G", every alias of a tier begins with a
      character no other tier's aliases begin with, so the two lookups agree. */
  lemma AsWrittenAgreesOffG(tok: string)
    requires Canonical(tok) != [] && Canonical(tok)[0] != 'G'
    ensures NormalizeTierTokenAsWritten(tok) == NormalizeTierToken(tok)
  {
    var u := Canonical(tok);
    NormalizeRecognisesSameTokens(tok);
    if NormalizeTierToken(tok).Some? {
      FirstNamedTierIsFirst(u, 0);
      var t1 := FirstNamedTier(u, 0).value;
      var t2 := LongestNamedTier(u, 0).0.value;
      NamedOffG(u, t1);
      NamedOffG(u, t2);
    }
  }

  /** A tier naming a token whose initial is not "G" is the owner of that initial. */
  lemma NamedOffG(u: string, t: Tier)
    requires u != [] && u[0] != 'G' && t != UNRANKED && LongestPrefix(u, Aliases(t)) != -1
    ensures t == AliasOwner([u[0]])
  {
    var j := LongestPrefixWitness(u, Aliases(t));
    AliasOwnedAt(t, j);
    var a := Aliases(t)[j];
    assert a[0] == u[0];
    OwnerByInitial(a);
  }

  /** Off "G", an alias's owner depends on its first character alone. */
  lemma OwnerByInitial(a: string)
    requires a != [] && a[0] != 'G'
    ensures AliasOwner(a) == AliasOwner([a[0]])
  {
  }

  lemma LongestPrefixOfMember(u: string, aliases: seq<string>)
    requires u in aliases
    ensures LongestPrefix(u, aliases) >= |u|
  {
    var k :| 0 <= k < |aliases| && aliases[k] == u;
    LongestPrefixIsLongest(u, aliases);
  }

  lemma LongestPrefixWitness(u: string, aliases: seq<string>) returns (j: nat)
    requires LongestPrefix(u, aliases) != -1
    ensures j < |aliases| && aliases[j] <= u && |aliases[j]| == LongestPrefix(u, aliases)
  {
    LongestPrefixIsLongest(u, aliases);
    j :| 0 <= j < |aliases| && aliases[j] <= u && |aliases[j]| == LongestPrefix(u, aliases);
  }

  lemma FullPrefixIsWhole(a: string, u: string)
    requires a <= u && |a| >= |u|
    ensures a == u
  {
  }

  lemma GrandmasterCorrected(tok: string)
    requires tok == "gm" || tok == "grandmaster"
    ensures NormalizeTierToken(tok) == Some(GRANDMASTER)
  {
    if tok == "gm" {
      TypedAliasIsListed(tok, 4);
    } else {
      TypedAliasIsListed(tok, 3);
    }
    EveryAliasNamesItsTier(GRANDMASTER, tok);
  }

  /** "gm" and "grandmaster" canonicalise to GRANDMASTER's Latin aliases. */
  lemma TypedAliasIsListed(tok: string, k: nat)
    requires (tok == "gm" && k == 4) || (tok == "grandmaster" && k == 3)
    ensures Canonical(tok) == Aliases(GRANDMASTER)[k]
  {
    RemoveSpacesKeepsBlankFree(tok);
  }

  // ---------------------------------------------------------------------------
  // The rank pattern `([가-힣A-Za-z]+)\s*([1-5])\b`, first match.

  predicate IsDivisionDigit(c: char) { '1' <= c <= '5' }

  /** A match of the pattern: the tier word and the division digit. */
  datatype RankToken = RankToken(word: string, digit: char)

  /** The match starting at `p`, if any. The letter run and the blank run are
      greedy, and giving back letters or blanks cannot help (the next character
      would then be a letter or a blank, never a digit), so at most one match
      starts at each position. */
  function MatchAt(s: string, p: nat): (m: Option<RankToken>)
    requires p <= |s|
    ensures m.Some? ==> m.value.word != [] && IsDivisionDigit(m.value.digit)
  {
    if p < |s| && IsTierLetter(s[p]) then
      var q := LetterRunEnd(s, p);
      var r := SpaceRunEnd(s, q);
      if r < |s| && IsDivisionDigit(s[r]) && IsBoundary(s, r + 1) then Some(RankToken(s[p..q], s[r]))
      else None
    else None
  }

  /** Where `s.match(pattern)` finds its match, searching from `p`: the leftmost
      position with a match, or -1. */
  function FirstMatchFrom(s: string, p: nat): (k: int)
    requires p <= |s|
    ensures k == -1 <==> forall i :: p <= i <= |s| ==> MatchAt(s, i).None?
    ensures k != -1 ==> p <= k <= |s| && MatchAt(s, k).Some?
                        && forall i :: p <= i < k ==> MatchAt(s, i).None?
  {
    var found := MatchesAt(s);
    assert forall i :: p <= i <= |s| ==> (found(i) <==> MatchAt(s, i).Some?);
    match FirstIndex(p, |s|, found)
    case None => -1
    case Some(k) => k
  }

  /** Whether a match of the pattern starts at `i`. */
  function MatchesAt(s: string): nat -> bool
  {
    (i: nat) => i <= |s| && MatchAt(s, i).Some?
  }

  /** The score of a recognised tier and division digit. */
  function TokenScore(t: Tier, digit: char): (score: int)
    requires t != UNRANKED && IsDivisionDigit(digit)
    ensures 100 <= score <= 4700 && score % 100 == 0
  {
    Ordinal(t) * 600 + (6 - DigitValue(digit)) * 100
  }

  /** `rankScoreText`: the score of the first tier-word/division match, 0 when
      there is none or its word names no tier. */
  function RankScoreText(s: string): (score: int)
    ensures score == 0 || 100 <= score <= 4700
    ensures score % 100 == 0
  {
    var k := FirstMatchFrom(s, 0);
    if k == -1 then 0
    else
      var m := MatchAt(s, k).value;
      match NormalizeTierTokenAsWritten(m.word)
      case None => 0
      case Some(t) => TokenScore(t, m.digit)
  }

  /** A positive score is exactly a leftmost match whose word names a tier, and
      the score is then that tier's and that division's. */
  lemma RankScoreTextPositive(s: string)
    ensures RankScoreText(s) > 0 <==>
            exists p :: 0 <= p <= |s| && MatchAt(s, p).Some? && NormalizeTierTokenAsWritten(MatchAt(s, p).value.word).Some?
                        && forall i :: 0 <= i < p ==> MatchAt(s, i).None?
    ensures RankScoreText(s) > 0 ==>
            exists p :: 0 <= p <= |s| && MatchAt(s, p).Some? && NormalizeTierTokenAsWritten(MatchAt(s, p).value.word).Some?
                        && RankScoreText(s) == TokenScore(NormalizeTierTokenAsWritten(MatchAt(s, p).value.word).value, MatchAt(s, p).value.digit)
  {
    var k := FirstMatchFrom(s, 0);
    forall p | 0 <= p <= |s| && MatchAt(s, p).Some? && forall i :: 0 <= i < p ==> MatchAt(s, i).None?
      ensures p == k
    {
      LeftmostIsFirst(s, p);
    }
  }

  /** The leftmost match is the one `FirstMatchFrom` finds. */
  lemma LeftmostIsFirst(s: string, p: nat)
    requires p <= |s| && MatchAt(s, p).Some?
    requires forall i :: 0 <= i < p ==> MatchAt(s, i).None?
    ensures FirstMatchFrom(s, 0) == p
  {
    var k := FirstMatchFrom(s, 0);
    assert k != -1;
    assert !(p < k) && !(k < p);
  }

  // ---------------------------------------------------------------------------
  // The short form shown on a slot.

  /** The one-letter tier abbreviation of the slot view. */
  function ShortLetter(t: Tier): (c: char)
    requires t != UNRANKED
    ensures IsHangul(c)
  {
    match t
    case BRONZE => '브'
    case SILVER => '실'
    case GOLD => '골'
    case PLATINUM => '플'
    case DIAMOND => '다'
    case MASTER => '마'
    case GRANDMASTER => '그'
    case CHAMPION => '챔'
  }

  /** `shortRankText`: the abbreviation and the division digit of the first
      tier-word/division match, "-" when there is none or its word names no tier. */
  function ShortRankText(s: string): (r: string)
    ensures r == "-" || (|r| == 2 && IsHangul(r[0]) && IsDivisionDigit(r[1]))
  {
    var k := FirstMatchFrom(s, 0);
    if k == -1 then "-"
    else
      var m := MatchAt(s, k).value;
      match NormalizeTierTokenAsWritten(m.word)
      case None => "-"
      case Some(t) => [ShortLetter(t), m.digit]
  }

  /** The short form is "-" exactly when the text scores 0. */
  lemma ShortRankTextDash(s: string)
    ensures ShortRankText(s) == "-" <==> RankScoreText(s) == 0
  {
  }

  /** Each abbreviation is itself an alias of its tier. */
  lemma ShortLetterIsAlias(t: Tier)
    requires t != UNRANKED
    ensures [ShortLetter(t)] in Aliases(t)
  {
    match t
    case BRONZE => assert Aliases(t)[0] == [ShortLetter(t)];
    case SILVER => assert Aliases(t)[0] == [ShortLetter(t)];
    case GOLD => assert Aliases(t)[0] == [ShortLetter(t)];
    case PLATINUM => assert Aliases(t)[1] == [ShortLetter(t)];
    case DIAMOND => assert Aliases(t)[0] == [ShortLetter(t)];
    case MASTER => assert Aliases(t)[0] == [ShortLetter(t)];
    case GRANDMASTER => assert Aliases(t)[2] == [ShortLetter(t)];
    case CHAMPION => assert Aliases(t)[0] == [ShortLetter(t)];
  }

  /** The short text of a tier and digit scores as that tier and digit. */
  lemma ShortTextScore(t: Tier, d: char)
    requires t != UNRANKED && IsDivisionDigit(d)
    ensures RankScoreText([ShortLetter(t), d]) == TokenScore(t, d)
  {
    var c := ShortLetter(t);
    var s := [c, d];
    assert LetterRunEnd(s, 1) == 1;
    assert LetterRunEnd(s, 0) == 1;
    assert SpaceRunEnd(s, 1) == 1;
    assert s[0..1] == [c];
    assert MatchAt(s, 0) == Some(RankToken([c], d));
    RemoveSpacesKeepsBlankFree([c]);
    UpperKeepsUncased([c]);
    ShortLetterIsAlias(t);
    EveryAliasNamesItsTier(t, [c]);
    assert Canonical([c])[0] == c;
  }

  /** Shortening keeps the score: the short form reads back as the same tier
      and division, so it scores what the full text scores. */
  lemma ShortRankKeepsScore(s: string)
    ensures RankScoreText(ShortRankText(s)) == RankScoreText(s)
  {
    var k := FirstMatchFrom(s, 0);
    if ShortRankText(s) == "-" {
      ShortRankTextDash(s);
      assert MatchAt("-", 0).None? && MatchAt("-", 1).None?;
      assert FirstMatchFrom("-", 0) == -1;
    } else {
      var m := MatchAt(s, k).value;
      ShortTextScore(NormalizeTierTokenAsWritten(m.word).value, m.digit);
    }
  }

  // ---------------------------------------------------------------------------
  // Rank text as the engine writes it.

  /** `packRank`: the tier label, a blank, the division. */
  function PackRank(t: Tier, div: nat): (text: string)
    requires t != UNRANKED && 1 <= div <= 5
  {
    TierLabel(t) + " " + [DigitChar(div)]
  }

  /** Each label reads back as its own tier, under either lookup. */
  lemma LabelNamesItsTier(t: Tier)
    requires t != UNRANKED
    ensures NormalizeTierTokenAsWritten(TierLabel(t)) == Some(t)
    ensures NormalizeTierToken(TierLabel(t)) == Some(t)
  {
    var name := TierLabel(t);
    RemoveSpacesKeepsBlankFree(name);
    UpperKeepsUncased(name);
    assert name in Aliases(t);
    EveryAliasNamesItsTier(t, name);
    assert Canonical(name)[0] == name[0];
  }

  /** Packing a rank and scoring the text gives the tier-and-division score. */
  lemma PackRankRoundTrip(t: Tier, div: nat)
    requires t != UNRANKED && 1 <= div <= 5
    ensures RankScoreText(PackRank(t, div)) == Ordinal(t) * 600 + (6 - div) * 100
  {
    WordBlankDigitMatches(TierLabel(t), DigitChar(div));
    LabelNamesItsTier(t);
  }

  /** As written, a text whose first tier word starts with "g" in either case
      scores as GOLD, whatever else the word spells ("gm", "grandmaster"). */
  lemma LeadingGScoresAsGold(s: string)
    requires FirstMatchFrom(s, 0) != -1
    requires "G" <= Canonical(MatchAt(s, FirstMatchFrom(s, 0)).value.word)
    ensures RankScoreText(s) == TokenScore(GOLD, MatchAt(s, FirstMatchFrom(s, 0)).value.digit)
  {
    ReadsAsGold(Canonical(MatchAt(s, FirstMatchFrom(s, 0)).value.word));
  }

  /** A Hangul word, a blank and a division digit: the pattern matches at the
      start, taking the whole word and the digit. */
  lemma WordBlankDigitMatches(name: string, d: char)
    requires name != [] && IsDivisionDigit(d) && forall m :: 0 <= m < |name| ==> IsHangul(name[m])
    ensures MatchAt(name + " " + [d], 0) == Some(RankToken(name, d))
    ensures FirstMatchFrom(name + " " + [d], 0) == 0
  {
    var s := name + " " + [d];
    var n := |name|;
    assert s[n] == ' ' && s[n + 1] == d && |s| == n + 2;
    assert LetterRunEnd(s, n) == n;
    LetterRunFrom(s, 0, n);
    assert SpaceRunEnd(s, n + 1) == n + 1;
    assert SpaceRunEnd(s, n) == n + 1;
    assert s[0..n] == name;
  }

  // ---------------------------------------------------------------------------
  // The score memo.

  /** Every value of `m` is its key's score. */
  ghost predicate AllScored(m: map<string, int>)
  {
    forall key :: key in m ==> m[key] == RankScoreText(key)
  }

  /** Storing a text's score keeps every value its key's score. */
  lemma StoreKeepsScored(m: map<string, int>, s: string)
    requires AllScored(m)
    ensures AllScored(m[s := RankScoreText(s)])
  {
    var m' := m[s := RankScoreText(s)];
    forall key | key in m' ensures m'[key] == RankScoreText(key) {
      if key != s {
        assert m'[key] == m[key];
      }
    }
  }

  /** `SCORE_CACHE`: rank text to its score. */
  class ScoreCache {
    var entries: map<string, int>

    /** Every cached value is the text's score. */
    ghost predicate Valid()
      reads this
    {
      AllScored(entries)
    }

    constructor()
      ensures Valid() && entries == map[]
    {
      entries := map[];
    }

    /** `scoreCached`: the cached value when present, otherwise the computed
        score, which is then stored. Either way the answer is the score. */
    method Get(s: string) returns (v: int)
      requires Valid()
      modifies this
      ensures Valid()
      ensures v == RankScoreText(s)
      ensures entries == old(entries)[s := v]
    {
      if s in entries {
        v := entries[s];
        assert entries == entries[s := v];
      } else {
        v := RankScoreText(s);
        StoreKeepsScored(entries, s);
        entries := entries[s := v];
      }
    }
  }

  /** `score` agrees with `RankScoreText` on every text. The equation is only
      drawn on for texts whose score is already in question. */
  ghost predicate IsRankScore(score: string -> int)
  {
    forall s {:trigger RankScoreText(s)} :: score(s) == RankScoreText(s)
  }
}
