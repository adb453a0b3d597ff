/** The score model: tier list, tier labels, the (tier, division) score and the
    short rank text shown in result cards. */
module Constants {

  import opened Types
  import opened JsText
  import opened Wrappers

  /** `TIERS`, lowest first. */
  const TIERS: seq<Tier> := [BRONZE, SILVER, GOLD, PLATINUM, DIAMOND, MASTER, GRANDMASTER, CHAMPION]

  /** `TIERS.indexOf(t)`: the tier's position, or -1 when it is not listed. */
  function TierIndex(t: Tier): (k: int)
    ensures -1 <= k < |TIERS|
    ensures k >= 0 ==> TIERS[k] == t
    ensures k == -1 <==> t !in TIERS
  {
    if t == UNRANKED then -1 else Ordinal(t)
  }

  /** `TIER_LABEL_MAP`: the Korean display label of each tier. */
  function TierLabel(t: Tier): (text: string)
    ensures |text| >= 2
  {
    match t
    case BRONZE => "브론즈"
    case SILVER => "실버"
    case GOLD => "골드"
    case PLATINUM => "플레"
    case DIAMOND => "다이아"
    case MASTER => "마스터"
    case GRANDMASTER => "그마"
    case CHAMPION => "챔피언"
    case UNRANKED => "미배치"
  }

  /** `getScore`: 600 per tier step plus 100 per division step above division 6;
      the index -1 (a tier missing from `TIERS`) scores the fixed 2250. */
  function GetScore(tierIdx: int, div: int): (score: int)
    ensures tierIdx == -1 ==> score == 2250
    ensures 0 <= tierIdx < |TIERS| && 1 <= div <= 5 ==> 100 <= score <= 4700
    ensures tierIdx != -1 ==> score % 100 == 0
  {
    if tierIdx == -1 then 2250 else tierIdx * 600 + (6 - div) * 100
  }

  /** For a fixed division, a higher tier scores strictly more. */
  lemma ScoreIncreasesWithTier(t1: int, t2: int, div: int)
    requires 0 <= t1 < t2 < |TIERS|
    ensures GetScore(t1, div) < GetScore(t2, div)
  {
  }

  /** For a fixed tier, a higher division number scores strictly less. */
  lemma ScoreDecreasesWithDivision(t: int, d1: int, d2: int)
    requires 0 <= t < |TIERS| && d1 < d2
    ensures GetScore(t, d1) > GetScore(t, d2)
  {
  }

  /** No division bonus closes a tier gap: the best division of a tier scores
      below the worst division of the next tier. */
  lemma TiersDoNotOverlap(t: int, d1: int, d2: int)
    requires 0 <= t < |TIERS| - 1 && 1 <= d1 <= 5 && 1 <= d2 <= 5
    ensures GetScore(t, d1) < GetScore(t + 1, d2)
  {
  }

  /** Recovers (tier index, division) from a ranked score. */
  function DecodeScore(score: int): (td: (int, int))
  {
    var t := (score - 100) / 600;
    (t, 6 - (score - t * 600) / 100)
  }

  /** Scores of ranked tiers determine tier and division: `getScore` is injective
      on 0..7 x 1..5, which is the "no overlap" property in its strongest form. */
  lemma {:induction false} DecodeScoreRoundTrip(t: int, d: int)
    requires 0 <= t < |TIERS| && 1 <= d <= 5
    ensures DecodeScore(GetScore(t, d)) == (t, d)
  {
    var s := GetScore(t, d);
    assert s - 100 == t * 600 + (5 - d) * 100;
    assert 0 <= (5 - d) * 100 < 600;
    assert (s - 100) / 600 == t;
  }

  /** `formatRank`: "-" for an unranked rank, otherwise the label's first
      character, the division and a star when the role is preferred. */
  function FormatRank(r: Rank): (text: string)
    ensures text == "-" <==> r.tier == UNRANKED
    ensures r.tier != UNRANKED ==> |text| >= 2 && text[0] == TierLabel(r.tier)[0]
    ensures r.tier != UNRANKED ==> (text[|text| - 1] == '★' <==> r.isPreferred)
  {
    if r.tier == UNRANKED then "-"
    else [TierLabel(r.tier)[0]] + NatToString(r.div) + (if r.isPreferred then "★" else "")
  }

  /** The tier whose label starts with `c`, if any (the short-form initials are distinct). */
  function TierOfInitial(c: char): (t: Option<Tier>)
    ensures t.Some? ==> t.value != UNRANKED && TierLabel(t.value)[0] == c
  {
    if c == '브' then Some(BRONZE)
    else if c == '실' then Some(SILVER)
    else if c == '골' then Some(GOLD)
    else if c == '플' then Some(PLATINUM)
    else if c == '다' then Some(DIAMOND)
    else if c == '마' then Some(MASTER)
    else if c == '그' then Some(GRANDMASTER)
    else if c == '챔' then Some(CHAMPION)
    else None
  }

  /** Reads a short rank text back into (tier, division, preferred). */
  function ParseShortRank(text: string): Option<(Tier, nat, bool)>
  {
    if |text| < 2 then None
    else
      var pref := text[|text| - 1] == '★';
      var digits := if pref then text[1..|text| - 1] else text[1..];
      var t := TierOfInitial(text[0]);
      if t.None? || digits == [] || exists i :: 0 <= i < |digits| && !IsDigit(digits[i]) then None
      else Some((t.value, DigitsValue(digits), pref))
  }

  /** The short rank text loses nothing: tier, division and preference can be read back. */
  lemma {:induction false} FormatRankRoundTrip(r: Rank)
    requires r.tier != UNRANKED
    ensures ParseShortRank(FormatRank(r)) == Some((r.tier, r.div, r.isPreferred))
  {
    var text := FormatRank(r);
    var digits := NatToString(r.div);
    assert text == [TierLabel(r.tier)[0]] + digits + (if r.isPreferred then "★" else "");
    assert IsDigit(digits[|digits| - 1]);
    if r.isPreferred {
      assert text[1..|text| - 1] == digits;
    } else {
      assert text[1..] == digits;
    }
    NatToStringRoundTrip(r.div);
  }

  /** A rank built from a listed tier and a division 1..5 meets the documented invariant. */
  lemma RankFromTiersMeetsInvariant(t: Tier, div: nat, pref: bool)
    requires t != UNRANKED && 1 <= div <= 5
    ensures RankInvariant(Rank(t, div, GetScore(TierIndex(t), div), pref))
  {
  }
}
