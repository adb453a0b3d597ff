/** The paste parser of the earlier engine: one pasted line such as
    "name/탱 다이아3/딜 마스터2/힐 골드1" or "name/다이아3/마스터2/골드1" becomes a
    player row with one packed rank text per role, or is rejected. */
module LegacyPaste {

  import opened Types
  import opened Wrappers
  import opened JsText
  import opened LegacyScore
  import opened LegacyBalance
  import opened SplitSearch
  import RoleSearch

  // ---------------------------------------------------------------------------
  // Cleaning and splitting.

  /** ` ` and `​` become a blank, the full-width slash a slash. */
  function CleanChar(c: char): char
  {
    if c == '\U{A0}' || c == '\U{200B}' then ' ' else if c == '\U{FF0F}' then '/' else c
  }

  /** `String(line).replace(/ |​/g, " ").replace(/／/g, "/").trim()`. */
  function CleanLine(line: string): string
  {
    Trim(seq(|line|, i requires 0 <= i < |line| => CleanChar(line[i])))
  }

  /** The trimmed, non-empty entries of a list of pieces. */
  function NonBlank(pieces: seq<string>): (parts: seq<string>)
    ensures forall i :: 0 <= i < |parts| ==> parts[i] != []
  {
    if pieces == [] then []
    else
      var t := Trim(pieces[0]);
      (if t == [] then [] else [t]) + NonBlank(pieces[1..])
  }

  /** `s.split('/').map(s => s.trim()).filter(Boolean)`. */
  function Pieces(s: string): (parts: seq<string>)
    ensures forall i :: 0 <= i < |parts| ==> parts[i] != []
  {
    NonBlank(JsText.Split(s, '/'))
  }

  /** `s.replace(/[\/\s]+$/, '')`: the trailing run of slashes and blanks removed. */
  function DropTrailingSeparators(s: string): string
  {
    if s != [] && (IsSpace(s[|s| - 1]) || s[|s| - 1] == '/') then DropTrailingSeparators(s[..|s| - 1]) else s
  }

  // ---------------------------------------------------------------------------
  // The role-head pattern `(^|[\s/])(탱|탱커|tank|t|딜|딜러|dps|d|힐|힐러|sup|support|s)\b`, case-insensitive.

  const ROLE_WORDS: seq<string> := ["탱", "탱커", "tank", "t", "딜", "딜러", "dps", "d", "힐", "힐러", "sup", "support", "s"]

  /** How the end of a role word is recognised. `AsciiBoundary` is JavaScript's
      `\b`, for which only ASCII letters, digits and `_` are word characters;
      `LetterBoundary` also counts Hangul syllables as word characters. */
  datatype WordEnd = AsciiBoundary | LetterBoundary

  predicate IsLetterOrWordChar(c: char) { IsWordChar(c) || IsHangul(c) }

  predicate EndsWord(s: string, j: nat, e: WordEnd)
    requires j <= |s|
  {
    match e
    case AsciiBoundary => IsBoundary(s, j)
    case LetterBoundary => (j > 0 && IsLetterOrWordChar(s[j - 1])) != (j < |s| && IsLetterOrWordChar(s[j]))
  }

  /** `w` occurs at `p`, ignoring ASCII case. */
  predicate WordAt(s: string, p: nat, w: string)
  {
    p + |w| <= |s| && Lower(s[p..p + |w|]) == w
  }

  /** One of the role words matches at `p` and ends at a boundary. */
  predicate RoleWordAt(s: string, p: nat, e: WordEnd)
  {
    exists k :: 0 <= k < |ROLE_WORDS| && WordAt(s, p, ROLE_WORDS[k]) && EndsWord(s, p + |ROLE_WORDS[k]|, e)
  }

  /** The pattern matches starting at `i`: at the start of the text, or at a blank or slash. */
  predicate HeadAt(s: string, i: nat, e: WordEnd)
    requires i <= |s|
  {
    (i == 0 && RoleWordAt(s, 0, e))
    || (i < |s| && (IsSpace(s[i]) || s[i] == '/') && RoleWordAt(s, i + 1, e))
  }

  /** The first true entry at or after `i`, or -1. */
  function FirstTrue(b: seq<bool>, i: nat): (k: int)
    requires i <= |b|
    ensures k == -1 <==> forall j :: i <= j < |b| ==> !b[j]
    ensures k != -1 ==> i <= k < |b| && b[k] && forall j :: i <= j < k ==> !b[j]
    decreases |b| - i
  {
    if i == |b| then -1 else if b[i] then i else FirstTrue(b, i + 1)
  }

  /** `s.match(roleHeadRe).index`; -1 when the pattern does not match. */
  function FirstHead(s: string, e: WordEnd): (k: int)
    ensures k == -1 || 0 <= k <= |s|
    ensures k == -1 <==> forall j :: 0 <= j <= |s| ==> !HeadAt(s, j, e)
    ensures k != -1 ==> HeadAt(s, k, e) && forall j :: 0 <= j < k ==> !HeadAt(s, j, e)
  {
    var marks := seq(|s| + 1, j requires 0 <= j <= |s| => HeadAt(s, j, e));
    assert forall j :: 0 <= j <= |s| ==> marks[j] == HeadAt(s, j, e);
    FirstTrue(marks, 0)
  }

  /** The name and the rank segments of a line. */
  datatype Header = Header(name: string, slots: seq<string>)

  /** The two ways the code splits a line: a first slash piece that holds no
      role head is the name and the other pieces are the segments; otherwise the
      name is everything before the first role head. */
  function SplitHeader(raw: string, e: WordEnd): (h: Option<Header>)
    ensures h.Some? ==> h.value.name != []
  {
    var parts := Pieces(raw);
    if |parts| >= 2 && FirstHead(parts[0], e) == -1 then Some(Header(parts[0], parts[1..]))
    else SplitAtFirstHead(raw, e)
  }

  /** The name is everything before the first role head, the segments are the
      slash pieces of the rest; no head or an empty name rejects the line. */
  function SplitAtFirstHead(raw: string, e: WordEnd): (h: Option<Header>)
    ensures h.Some? ==> h.value.name != []
  {
    var idx := FirstHead(raw, e);
    if idx == -1 then None
    else
      var name := Trim(DropTrailingSeparators(raw[..idx]));
      if name == [] then None else Some(Header(name, Pieces(Trim(raw[idx..]))))
  }

  // ---------------------------------------------------------------------------
  // One segment.

  /** `String(s).trim().split(/\s+/)[0]`: the first word. */
  function HeadToken(s: string): string
  {
    var t := Trim(s);
    t[..NonSpaceRunEnd(t, 0)]
  }

  /** `_pickRoleLabel`: the role the first word names (`ROLE_LABELS`, tank first). */
  function PickRoleLabel(seg: string): Option<Role>
  {
    var head := Lower(HeadToken(seg));
    if head in ["탱", "탱커", "tank", "t"] then Some(TANK)
    else if head in ["딜", "딜러", "dps", "d"] then Some(DPS)
    else if head in ["힐", "힐러", "sup", "support", "s"] then Some(SUPPORT)
    else None
  }

  /** The segment without its first word and the blanks after it. */
  function DropHead(seg: string): string
  {
    var j := NonSpaceRunEnd(seg, 0);
    if j == 0 then seg else seg[SpaceRunEnd(seg, j)..]
  }

  /** A tier and a division, as `_parseTierTokenFree` returns them. */
  datatype RankPick = RankPick(tier: Tier, div: nat)

  predicate ValidPick(r: RankPick)
  {
    r.tier != UNRANKED && 1 <= r.div <= 5
  }

  /** A rank that `packRank` can write. */
  type ValidRank = r: RankPick | ValidPick(r) witness RankPick(BRONZE, 1)

  /** The first tier letter at or after `i` (`/([가-힣A-Za-z]+)/`), or -1. */
  function FirstLetter(s: string, i: nat): (k: int)
    requires i <= |s|
    ensures k == -1 || (i <= k < |s| && IsTierLetter(s[k]))
    decreases |s| - i
  {
    if i == |s| then -1 else if IsTierLetter(s[i]) then i else FirstLetter(s, i + 1)
  }

  /** The first division digit standing alone at or after `i` (`/\b([1-5])\b/`), or -1. */
  function FirstLoneDigit(s: string, i: nat): (k: int)
    requires i <= |s|
    ensures k == -1 || (i <= k < |s| && IsDivisionDigit(s[k]))
    decreases |s| - i
  {
    if i == |s| then -1
    else if IsDivisionDigit(s[i]) && IsBoundary(s, i) && IsBoundary(s, i + 1) then i
    else FirstLoneDigit(s, i + 1)
  }

  /** A tier word and a division digit read as a rank, when the word names a tier. */
  function ReadPick(word: string, digit: char): (r: Option<ValidRank>)
    requires IsDivisionDigit(digit)
  {
    var t := NormalizeTierTokenAsWritten(word);
    if t.None? then None else Some(RankPick(t.value, DigitValue(digit)))
  }

  /** `_parseTierTokenFree`: the first tier word directly followed by a division;
      failing that, the first tier word and the first lone division digit. */
  function FreeTierToken(text: string): (r: Option<ValidRank>)
  {
    var s := Trim(text);
    var k := FirstMatchFrom(s, 0);
    var strict := if k == -1 then None else ReadPick(MatchAt(s, k).value.word, MatchAt(s, k).value.digit);
    if strict.Some? then strict
    else
      var w := FirstLetter(s, 0);
      var d := FirstLoneDigit(s, 0);
      if w == -1 || d == -1 then None else ReadPick(s[w..LetterRunEnd(s, w)], s[d])
  }

  // ---------------------------------------------------------------------------
  // The segments of a line.

  /** The packed rank chosen so far for each role (`picked`). */
  datatype Picked = Picked(tank: Option<string>, dps: Option<string>, support: Option<string>)

  function Choose(p: Picked, role: Role, text: string): (q: Picked)
  {
    match role
    case TANK => p.(tank := Some(text))
    case DPS => p.(dps := Some(text))
    case SUPPORT => p.(support := Some(text))
  }

  function Chosen(p: Picked, role: Role): Option<string>
  {
    match role
    case TANK => p.tank
    case DPS => p.dps
    case SUPPORT => p.support
  }

  /** `["TANK", "DPS", "SUPPORT"].filter(r => !picked[r])`. */
  function Missing(p: Picked): seq<Role>
  {
    (if p.tank.None? then [TANK] else []) + (if p.dps.None? then [DPS] else [])
    + (if p.support.None? then [SUPPORT] else [])
  }

  function Pack(r: ValidRank): string
  {
    PackRank(r.tier, r.div)
  }

  /** The state after the labelled-segment loop: ranks picked and unlabelled segments. */
  datatype Sorting = Sorting(picked: Picked, remain: seq<string>)

  /** The first loop over `slots`: a labelled segment sets its role's rank (a
      later one overwrites an earlier one) or rejects the line when its rank does
      not read; an unlabelled one is kept for later. */
  function SortSegments(slots: seq<string>, read: string -> Option<ValidRank>): Option<Sorting>
  {
    if slots == [] then Some(Sorting(Picked(None, None, None), []))
    else SortNext(SortSegments(slots[..|slots| - 1], read), slots[|slots| - 1], read)
  }

  /** One iteration of the first loop, on segment `seg`. */
  function SortNext(sorted: Option<Sorting>, seg: string, read: string -> Option<ValidRank>): Option<Sorting>
  {
    match sorted
    case None => None
    case Some(st) =>
      match PickRoleLabel(seg)
      case None => Some(st.(remain := st.remain + [seg]))
      case Some(role) =>
        match read(DropHead(seg))
        case None => None
        case Some(tk) => Some(st.(picked := Choose(st.picked, role, Pack(tk))))
  }

  /** The second loop after `n` steps: the `i`-th unlabelled segment is read as
      the rank of the `i`-th missing role. */
  function Fill(p: Picked, order: seq<Role>, remain: seq<string>, n: nat, read: string -> Option<ValidRank>): Option<Picked>
    requires n <= |order| && n <= |remain|
  {
    if n == 0 then Some(p)
    else
      match Fill(p, order, remain, n - 1, read)
      case None => None
      case Some(q) =>
        match read(remain[n - 1])
        case None => None
        case Some(tk) => Some(Choose(q, order[n - 1], Pack(tk)))
  }

  function Min(a: nat, b: nat): nat { if a <= b then a else b }

  /** What `parsePastedLine(line)` returns, with role words ending as `e` says. */
  function PastedLine(line: string, e: WordEnd): Option<PlayerRow>
  {
    var raw := CleanLine(line);
    if raw == [] then None
    else
      match SplitHeader(raw, e)
      case None => None
      case Some(h) => RowOf(h, FreeTierToken)
  }

  /** The row a name and its segments make: labelled segments first, then the
      missing roles in order from the unlabelled ones; every role must be set. */
  function RowOf(h: Header, read: string -> Option<ValidRank>): Option<PlayerRow>
  {
    match SortSegments(h.slots, read)
    case None => None
    case Some(st) =>
      var order := Missing(st.picked);
      match Fill(st.picked, order, st.remain, Min(|order|, |st.remain|), read)
      case None => None
      case Some(p) =>
        if p.tank.Some? && p.dps.Some? && p.support.Some?
        then Some(PlayerRow(h.name, p.tank.value, p.dps.value, p.support.value))
        else None
  }

  // ---------------------------------------------------------------------------
  // The parser as the code runs it.

  lemma {:induction false} SortingFailureSticks(slots: seq<string>, n: nat, read: string -> Option<ValidRank>)
    requires n <= |slots| && SortSegments(slots[..n], read).None?
    ensures SortSegments(slots, read).None?
    decreases |slots| - n
  {
    if n < |slots| {
      assert slots[..n + 1][..n] == slots[..n];
      SortingFailureSticks(slots, n + 1, read);
    } else {
      assert slots[..n] == slots;
    }
  }

  lemma {:induction false} FillFailureSticks(p: Picked, order: seq<Role>, remain: seq<string>, n: nat, m: nat, read: string -> Option<ValidRank>)
    requires n <= m <= |order| && m <= |remain| && Fill(p, order, remain, n, read).None?
    ensures Fill(p, order, remain, m, read).None?
    decreases m - n
  {
    if n < m {
      FillFailureSticks(p, order, remain, n + 1, m, read);
    }
  }

  /** The prefix one segment longer is sorted by one more step. */
  lemma SortPrefixStep(slots: seq<string>, i: nat, read: string -> Option<ValidRank>)
    requires i < |slots|
    ensures SortSegments(slots[..i + 1], read) == SortNext(SortSegments(slots[..i], read), slots[i], read)
  {
    assert slots[..i + 1][..i] == slots[..i];
  }

  /** The first loop: labelled segments read into `picked`, the others kept
      in `remain`; `read` is the rank reader (`_parseTierTokenFree`). */
  method SortRoles(slots: seq<string>, read: string -> Option<ValidRank>) returns (r: Option<Sorting>)
    ensures r == SortSegments(slots, read)
  {
    var picked := Picked(None, None, None);
    var remain: seq<string> := [];
    var i := 0;
    while i < |slots|
      invariant i <= |slots| && SortSegments(slots[..i], read) == Some(Sorting(picked, remain))
    {
      var seg := slots[i];
      SortPrefixStep(slots, i, read);
      var role := PickRoleLabel(seg);
      if role.Some? {
        var tk := read(DropHead(seg));
        if tk.None? {
          SortingFailureSticks(slots, i + 1, read);
          return None;
        }
        picked := Choose(picked, role.value, Pack(tk.value));
      } else {
        remain := remain + [seg];
      }
      i := i + 1;
    }
    assert slots[..i] == slots;
    return Some(Sorting(picked, remain));
  }

  /** The second loop: the first `n` missing roles filled in order from the
      unlabelled segments. */
  method FillRoles(picked: Picked, order: seq<Role>, remain: seq<string>, n: nat, read: string -> Option<ValidRank>)
    returns (r: Option<Picked>)
    requires n <= |order| && n <= |remain|
    ensures r == Fill(picked, order, remain, n, read)
  {
    var p := picked;
    var i := 0;
    while i < n
      invariant i <= n && Fill(picked, order, remain, i, read) == Some(p)
    {
      var tk := read(remain[i]);
      if tk.None? {
        FillFailureSticks(picked, order, remain, i + 1, n, read);
        return None;
      }
      p := Choose(p, order[i], Pack(tk.value));
      i := i + 1;
    }
    return Some(p);
  }

  /** `parsePastedLine`, with role words ending at JavaScript's ASCII `\b` and
      tier words read by the table walk as written. When no segment is
      labelled the code fills TANK, DPS, SUPPORT in that order, which is
      exactly the list of missing roles. */
  method ParsePastedLine(line: string) returns (r: Option<PlayerRow>)
    ensures r == PastedLine(line, AsciiBoundary)
  {
    var raw := CleanLine(line);
    if raw == [] {
      return None;
    }
    var header := SplitHeader(raw, AsciiBoundary);
    if header.None? {
      return None;
    }
    r := BuildRow(header.value.name, header.value.slots, FreeTierToken);
  }

  /** The part of `parsePastedLine` after the name is split off. */
  method BuildRow(name: string, slots: seq<string>, read: string -> Option<ValidRank>) returns (r: Option<PlayerRow>)
    ensures r == RowOf(Header(name, slots), read)
  {
    var sorted := SortRoles(slots, read);
    if sorted.None? {
      return None;
    }
    var picked, remain := sorted.value.picked, sorted.value.remain;
    var filled: Option<Picked>;
    if picked.tank.None? && picked.dps.None? && picked.support.None? {
      assert Missing(picked) == [TANK, DPS, SUPPORT];
      filled := FillRoles(picked, [TANK, DPS, SUPPORT], remain, Min(|remain|, 3), read);
    } else {
      filled := FillRoles(picked, Missing(picked), remain, Min(|Missing(picked)|, |remain|), read);
    }
    assert filled == Fill(picked, Missing(picked), remain, Min(|Missing(picked)|, |remain|), read);
    if filled.None? {
      return None;
    }
    var p := filled.value;
    if p.tank.None? || p.dps.None? || p.support.None? {
      return None;
    }
    return Some(PlayerRow(name, p.tank.value, p.dps.value, p.support.value));
  }

  // ---------------------------------------------------------------------------
  // What a parsed row holds.

  /** The text `packRank` writes for some ranked tier and division 1..5. */
  ghost predicate IsPacked(text: string)
  {
    exists t: Tier, d: nat :: t != UNRANKED && 1 <= d <= 5 && text == PackRank(t, d)
  }

  ghost predicate PickedPacked(p: Picked)
  {
    (p.tank.Some? ==> IsPacked(p.tank.value)) && (p.dps.Some? ==> IsPacked(p.dps.value))
    && (p.support.Some? ==> IsPacked(p.support.value))
  }

  lemma ChoosePacked(p: Picked, role: Role, r: ValidRank)
    requires PickedPacked(p)
    ensures PickedPacked(Choose(p, role, Pack(r)))
  {
    assert IsPacked(Pack(r)) by {
      assert Pack(r) == PackRank(r.tier, r.div);
    }
  }

  lemma {:induction false} SortingPacked(slots: seq<string>, read: string -> Option<ValidRank>)
    requires SortSegments(slots, read).Some?
    ensures PickedPacked(SortSegments(slots, read).value.picked)
  {
    if slots != [] {
      var init := slots[..|slots| - 1];
      SortingPacked(init, read);
      var seg := slots[|slots| - 1];
      var role := PickRoleLabel(seg);
      if role.Some? {
        ChoosePacked(SortSegments(init, read).value.picked, role.value, read(DropHead(seg)).value);
      }
    }
  }

  lemma {:induction false} FillPacked(p: Picked, order: seq<Role>, remain: seq<string>, n: nat, read: string -> Option<ValidRank>)
    requires n <= |order| && n <= |remain| && PickedPacked(p) && Fill(p, order, remain, n, read).Some?
    ensures PickedPacked(Fill(p, order, remain, n, read).value)
  {
    if n > 0 {
      FillPacked(p, order, remain, n - 1, read);
      ChoosePacked(Fill(p, order, remain, n - 1, read).value, order[n - 1], read(remain[n - 1]).value);
    }
  }

  /** A packed rank scores its tier and division, so at least 100. */
  lemma PackedScores(text: string)
    requires IsPacked(text)
    ensures 100 <= RankScoreText(text)
  {
    var t: Tier, d: nat :| t != UNRANKED && 1 <= d <= 5 && text == PackRank(t, d);
    PackRankRoundTrip(t, d);
  }

  /** The same bound for any scorer that agrees with `rankScoreText`. */
  lemma PackedSlotScores(text: string, score: string -> int)
    requires IsPacked(text) && IsRankScore(score)
    ensures 100 <= score(text)
  {
    PackedScores(text);
  }

  /** A parsed row has a name and, in every role, a packed rank. */
  lemma ParsedRowIsPacked(line: string, e: WordEnd)
    requires PastedLine(line, e).Some?
    ensures PastedLine(line, e).value.name != [] && RowPacked(PastedLine(line, e).value)
  {
    var raw := CleanLine(line);
    var h := SplitHeader(raw, e).value;
    var st := SortSegments(h.slots, FreeTierToken).value;
    SortingPacked(h.slots, FreeTierToken);
    var order := Missing(st.picked);
    FillPacked(st.picked, order, st.remain, Min(|order|, |st.remain|), FreeTierToken);
  }

  /** Every rank of the row is a packed rank. */
  ghost predicate RowPacked(p: PlayerRow)
  {
    IsPacked(p.tankRank) && IsPacked(p.dpsRank) && IsPacked(p.supportRank)
  }

  /** Five pasted players always get a role assignment from `assignRoles`:
      no slot can score <= 0, and there is at least one permutation. */
  lemma PastedTeamIsAssigned(team: seq<PlayerRow>, score: string -> int)
    requires |team| == TEAM_SIZE && IsRankScore(score)
    requires forall i :: 0 <= i < |team| ==> RowPacked(team[i])
    ensures AssignRolesWith(team, score).Some?
  {
    var perms := TeamArrangements(team);
    PermuteCount(team);
    RoleSearch.FactorialPositive(|team|);
    var perm := perms[0];
    PermuteRearranges(team, perm);
    forall i | 0 <= i < TEAM_SIZE ensures ValueAt(perm, i, score) > 0 {
      RearrangedSlotScores(team, perm, i, score);
    }
    AssignRolesNull(team, score);
  }

  /** Every slot of a rearranged pasted team scores above zero. */
  lemma RearrangedSlotScores(team: seq<PlayerRow>, perm: seq<PlayerRow>, i: nat, score: string -> int)
    requires |perm| == TEAM_SIZE && i < TEAM_SIZE && multiset(perm) == multiset(team) && IsRankScore(score)
    requires forall k :: 0 <= k < |team| ==> RowPacked(team[k])
    ensures ValueAt(perm, i, score) > 0
  {
    var role := RoleSearch.ROLE_SLOTS[i];
    MovedRowPacked(team, perm, i);
    RowTextPacked(perm[i], role);
    PackedSlotScores(RankText(perm[i], role), score);
  }

  /** A row taken from a team of packed rows is packed. */
  lemma MovedRowPacked(team: seq<PlayerRow>, perm: seq<PlayerRow>, i: nat)
    requires i < |perm| && multiset(perm) == multiset(team)
    requires forall k :: 0 <= k < |team| ==> RowPacked(team[k])
    ensures RowPacked(perm[i])
  {
    assert perm[i] in multiset(team);
    var j :| 0 <= j < |team| && team[j] == perm[i];
  }

  /** Each rank text of a packed row is packed. */
  lemma RowTextPacked(p: PlayerRow, role: Role)
    requires RowPacked(p)
    ensures IsPacked(RankText(p, role))
  {
  }

  // ---------------------------------------------------------------------------
  // The Hangul role heads.

  /** As written: JavaScript's `\b` counts only ASCII letters, digits and `_` as
      word characters, so after a word ending in Hangul (탱, 탱커, 딜, 딜러, 힐, 힐러) it holds only when an ASCII
      word character follows. "탱 다이아3" never opens a role head. */
  lemma HangulRoleWordNeverEnds(s: string, p: nat, w: string)
    requires w != [] && IsHangul(w[|w| - 1]) && WordAt(s, p, w)
    requires p + |w| == |s| || !IsWordChar(s[p + |w|])
    ensures !EndsWord(s, p + |w|, AsciiBoundary)
  {
    var j := p + |w|;
    assert Lower(s[p..j])[|w| - 1] == LowerChar(s[j - 1]);
  }

  /** Corrected: counting Hangul as letters, any role word followed by a blank,
      a slash or the end of the text ends at a boundary. */
  lemma RoleWordEndsAtSeparator(s: string, p: nat, k: nat)
    requires k < |ROLE_WORDS| && WordAt(s, p, ROLE_WORDS[k])
    requires p + |ROLE_WORDS[k]| == |s| || IsSpace(s[p + |ROLE_WORDS[k]|]) || s[p + |ROLE_WORDS[k]|] == '/'
    ensures RoleWordAt(s, p, LetterBoundary)
  {
    var w := ROLE_WORDS[k];
    RoleWordEndsInLetter(k);
    LastOfWordIsLetter(s, p, w);
    assert RoleWordAt(s, p, LetterBoundary) by {
      assert WordAt(s, p, ROLE_WORDS[k]) && EndsWord(s, p + |ROLE_WORDS[k]|, LetterBoundary);
    }
  }

  /** Every role word ends in a Hangul syllable or a lower-case ASCII letter. */
  lemma RoleWordEndsInLetter(k: nat)
    requires k < |ROLE_WORDS|
    ensures ROLE_WORDS[k] != []
    ensures IsHangul(ROLE_WORDS[k][|ROLE_WORDS[k]| - 1]) || IsAsciiLower(ROLE_WORDS[k][|ROLE_WORDS[k]| - 1])
  {
  }

  /** The text under a word that ends in a letter ends in a letter. */
  lemma LastOfWordIsLetter(s: string, p: nat, w: string)
    requires w != [] && WordAt(s, p, w) && (IsHangul(w[|w| - 1]) || IsAsciiLower(w[|w| - 1]))
    ensures IsLetterOrWordChar(s[p + |w| - 1])
  {
    var j := p + |w|;
    assert Lower(s[p..j])[|w| - 1] == LowerChar(s[j - 1]);
  }

  /** A role word starts with one of six letters, in either case. */
  lemma RoleWordStart(s: string, p: nat, e: WordEnd)
    requires RoleWordAt(s, p, e)
    ensures p < |s| && LowerChar(s[p]) in "탱딜힐tds"
  {
    var k :| 0 <= k < |ROLE_WORDS| && WordAt(s, p, ROLE_WORDS[k]) && EndsWord(s, p + |ROLE_WORDS[k]|, e);
    var w := ROLE_WORDS[k];
    assert w[0] in "탱딜힐tds" by {
      assert k < 4 || 4 <= k < 8 || 8 <= k;
    }
    assert Lower(s[p..p + |w|])[0] == LowerChar(s[p]);
  }

  /** As written, "탱" followed by a blank is not a role head. */
  lemma TankThenBlankAsWritten(s: string, p: nat)
    requires p + 1 < |s| && s[p] == '탱' && IsSpace(s[p + 1])
    ensures !RoleWordAt(s, p, AsciiBoundary)
  {
    forall k | 0 <= k < |ROLE_WORDS|
      ensures !(WordAt(s, p, ROLE_WORDS[k]) && EndsWord(s, p + |ROLE_WORDS[k]|, AsciiBoundary))
    {
      var w := ROLE_WORDS[k];
      WordAtLetters(s, p, w);
      if k == 0 && WordAt(s, p, w) && p + 1 < |s| && !IsWordChar(s[p + 1]) {
        HangulRoleWordNeverEnds(s, p, w);
      }
    }
  }

  /** A word found at `p` shows its first two letters there, lower-cased. */
  lemma WordAtLetters(s: string, p: nat, w: string)
    ensures WordAt(s, p, w) && |w| >= 1 ==> w[0] == LowerChar(s[p])
    ensures WordAt(s, p, w) && |w| >= 2 ==> w[1] == LowerChar(s[p + 1])
  {
    if WordAt(s, p, w) && |w| >= 1 {
      assert Lower(s[p..p + |w|])[0] == LowerChar(s[p]);
      if |w| >= 2 {
        assert Lower(s[p..p + |w|])[1] == LowerChar(s[p + 1]);
      }
    }
  }

  /** Corrected, "탱" followed by a blank is a role head. */
  lemma TankThenBlankCorrected(s: string, p: nat)
    requires p + 1 < |s| && s[p] == '탱' && IsSpace(s[p + 1])
    ensures RoleWordAt(s, p, LetterBoundary)
  {
    assert s[p..p + 1] == [s[p]];
    assert Lower(s[p..p + 1]) == "탱";
    RoleWordEndsAtSeparator(s, p, 0);
  }

  /** A line that labels its ranks with Hangul role words:
      "홍길동 탱 다이아3/딜 마스터2/힐 골드1". */
  const SAMPLE_NAME: string := "홍길동"
  const SAMPLE_TANK: string := "탱 다이아3"
  const SAMPLE_DPS: string := "딜 마스터2"
  const SAMPLE_SUPPORT: string := "힐 골드1"
  /** Its first slash piece. */
  const SAMPLE_HEAD: string := SAMPLE_NAME + " " + SAMPLE_TANK
  const SAMPLE: string := SAMPLE_HEAD + "/" + SAMPLE_DPS + "/" + SAMPLE_SUPPORT

  /** At the blank before "탱" the role-head pattern fails as written and holds corrected. */
  lemma SampleHeadDiffers()
    ensures !HeadAt(SAMPLE_HEAD, 3, AsciiBoundary) && HeadAt(SAMPLE_HEAD, 3, LetterBoundary)
  {
    var s := SAMPLE_HEAD;
    assert s[3] == ' ' && s[4] == '탱' && s[5] == ' ';
    TankThenBlankAsWritten(s, 4);
    TankThenBlankCorrected(s, 4);
  }

  /** No role word starts at a character outside "탱딜힐tdsTDS". */
  lemma NoRoleWordAt(s: string, p: nat, e: WordEnd)
    requires p < |s| && LowerChar(s[p]) !in "탱딜힐tds"
    ensures !RoleWordAt(s, p, e)
  {
    if RoleWordAt(s, p, e) {
      RoleWordStart(s, p, e);
    }
  }

  /** As written the sample's first piece holds no role head at all. */
  lemma SampleHeadAsWritten()
    ensures FirstHead(SAMPLE_HEAD, AsciiBoundary) == -1
  {
    SampleHeadHasNoHead();
  }

  /** Inside a word (not at the start, no blank or slash) the pattern cannot start. */
  lemma NotHeadInsideWord(s: string, j: nat, e: WordEnd)
    requires 0 < j <= |s| && (j < |s| ==> !IsSpace(s[j]) && s[j] != '/')
    ensures !HeadAt(s, j, e)
  {
  }

  lemma SampleHeadHasNoHead()
    ensures forall j :: 0 <= j <= |SAMPLE_HEAD| ==> !HeadAt(SAMPLE_HEAD, j, AsciiBoundary)
  {
    SampleHeadStart();
    SampleHeadDiffers();
    SampleHeadRank();
    SampleHeadInsideWords();
  }

  lemma SampleHeadStart()
    ensures !HeadAt(SAMPLE_HEAD, 0, AsciiBoundary)
  {
    NoRoleWordAt(SAMPLE_HEAD, 0, AsciiBoundary);
  }

  lemma SampleHeadRank()
    ensures !HeadAt(SAMPLE_HEAD, 5, AsciiBoundary)
  {
    NoRoleWordAt(SAMPLE_HEAD, 6, AsciiBoundary);
  }

  lemma SampleHeadInsideWords()
    ensures forall j :: 0 < j <= |SAMPLE_HEAD| && j != 3 && j != 5 ==> !HeadAt(SAMPLE_HEAD, j, AsciiBoundary)
  {
    forall j | 0 < j <= |SAMPLE_HEAD| && j != 3 && j != 5 ensures !HeadAt(SAMPLE_HEAD, j, AsciiBoundary) {
      NotHeadInsideWord(SAMPLE_HEAD, j, AsciiBoundary);
    }
  }

  // ---------------------------------------------------------------------------
  // The sample line as a whole.

  lemma TrimKeeps(s: string)
    requires s != [] ==> !IsSpace(s[0]) && !IsSpace(s[|s| - 1])
    ensures Trim(s) == s
  {
  }

  lemma CleanKeeps(s: string)
    requires '\U{A0}' !in s && '\U{200B}' !in s && '\U{FF0F}' !in s
    requires s != [] ==> !IsSpace(s[0]) && !IsSpace(s[|s| - 1])
    ensures CleanLine(s) == s
  {
    var c := seq(|s|, i requires 0 <= i < |s| => CleanChar(s[i]));
    forall i | 0 <= i < |s| ensures c[i] == s[i] {
      assert s[i] in s;
    }
    assert c == s;
    TrimKeeps(s);
  }

  lemma {:induction false} SplitFromPlain(a: string, rest: string, sep: char, cur: string)
    requires sep !in a && forall j :: 0 <= j < |cur| ==> cur[j] != sep
    ensures SplitFrom(a + rest, sep, cur) == SplitFrom(rest, sep, cur + a)
    decreases |a|
  {
    if a == [] {
      assert a + rest == rest && cur + a == cur;
    } else {
      assert (a + rest)[0] == a[0] && (a + rest)[1..] == a[1..] + rest;
      assert a[0] in a;
      SplitFromPlain(a[1..], rest, sep, cur + [a[0]]);
      assert cur + [a[0]] + a[1..] == cur + a;
    }
  }

  /** Splitting at a separator that `a` does not hold puts `a` first. */
  lemma SplitAtSeparator(a: string, b: string, sep: char)
    requires sep !in a
    ensures JsText.Split(a + [sep] + b, sep) == [a] + JsText.Split(b, sep)
  {
    SplitFromPlain(a, [sep] + b, sep, []);
    assert a + ([sep] + b) == a + [sep] + b;
    assert [] + a == a;
  }

  lemma SplitWithoutSeparator(a: string, sep: char)
    requires sep !in a
    ensures JsText.Split(a, sep) == [a]
  {
    SplitFromPlain(a, [], sep, []);
    assert a + [] == a && [] + a == a;
  }

  /** Three slash-free pieces with no blank at either end split back apart. */
  lemma PiecesOfThree(a: string, b: string, c: string)
    requires '/' !in a && '/' !in b && '/' !in c && a != [] && b != [] && c != []
    requires !IsSpace(a[0]) && !IsSpace(a[|a| - 1]) && !IsSpace(b[0]) && !IsSpace(b[|b| - 1])
    requires !IsSpace(c[0]) && !IsSpace(c[|c| - 1])
    ensures Pieces(a + "/" + b + "/" + c) == [a, b, c]
  {
    SplitWithoutSeparator(c, '/');
    SplitAtSeparator(b, c, '/');
    assert b + "/" + c == b + ['/'] + c;
    SplitAtSeparator(a, b + "/" + c, '/');
    assert a + "/" + b + "/" + c == a + ['/'] + (b + "/" + c);
    TrimKeeps(a);
    TrimKeeps(b);
    TrimKeeps(c);
    var parts := [a, b, c];
    assert NonBlank(parts[2..]) == [c];
    assert NonBlank(parts[1..]) == [b, c];
  }

  lemma SamplePieces()
    ensures Pieces(SAMPLE) == [SAMPLE_HEAD, SAMPLE_DPS, SAMPLE_SUPPORT]
  {
    PiecesOfThree(SAMPLE_HEAD, SAMPLE_DPS, SAMPLE_SUPPORT);
  }

  lemma SampleIsClean()
    ensures CleanLine(SAMPLE) == SAMPLE
  {
    CleanKeeps(SAMPLE);
  }

  /** A segment "word rest" whose word is blank-free has that word as its head token. */
  lemma HeadTokenOf(w: string, r: string)
    requires w != [] && r != [] && forall m :: 0 <= m < |w| ==> !IsSpace(w[m])
    requires !IsSpace(r[|r| - 1])
    ensures HeadToken(w + " " + r) == w
  {
    var seg := w + " " + r;
    TrimKeeps(seg);
    NonSpaceRun(seg, 0, |w|);
  }

  lemma SampleTankLabel()
    ensures PickRoleLabel(SAMPLE_TANK) == Some(TANK)
  {
    var r := "다이아3";
    assert SAMPLE_TANK == "탱 " + r;
    TankSegment(r);
  }

  lemma SampleDpsLabel()
    ensures PickRoleLabel(SAMPLE_DPS) == Some(DPS)
  {
    var r := "마스터2";
    assert SAMPLE_DPS == "딜 " + r;
    DpsSegment(r);
  }

  lemma SampleSupportLabel()
    ensures PickRoleLabel(SAMPLE_SUPPORT) == Some(SUPPORT)
  {
    var r := "골드1";
    assert SAMPLE_SUPPORT == "힐 " + r;
    SupportSegment(r);
  }

  /** Segments that are all labelled, none of them for the tank role, sort
      into no tank rank and nothing left over. */
  lemma {:induction false} LabelledWithoutTank(slots: seq<string>, read: string -> Option<ValidRank>)
    requires SortSegments(slots, read).Some?
    requires forall i :: 0 <= i < |slots| ==> PickRoleLabel(slots[i]) in {Some(DPS), Some(SUPPORT)}
    ensures SortSegments(slots, read).value.remain == []
    ensures SortSegments(slots, read).value.picked.tank.None?
  {
    if slots != [] {
      var init, last := slots[..|slots| - 1], slots[|slots| - 1];
      assert SortSegments(slots, read) == SortNext(SortSegments(init, read), last, read);
      forall i | 0 <= i < |init| ensures PickRoleLabel(init[i]) in {Some(DPS), Some(SUPPORT)} {
        assert init[i] == slots[i];
      }
      LabelledWithoutTank(init, read);
      LabelledStepKeeps(SortSegments(init, read).value, last, read, PickRoleLabel(last).value);
    }
  }

  /** A segment labelled for damage or support keeps the tank rank and the
      unlabelled segments as they were. */
  lemma LabelledStepKeeps(st: Sorting, seg: string, read: string -> Option<ValidRank>, role: Role)
    requires PickRoleLabel(seg) == Some(role) && role != TANK && SortNext(Some(st), seg, read).Some?
    ensures SortNext(Some(st), seg, read).value.remain == st.remain
    ensures SortNext(Some(st), seg, read).value.picked.tank == st.picked.tank
  {
  }

  /** A line whose segments are all labelled, none for the tank, is rejected:
      no unlabelled segment is left to fill the tank rank. */
  lemma RejectedWithoutTank(h: Header, read: string -> Option<ValidRank>)
    requires forall i :: 0 <= i < |h.slots| ==> PickRoleLabel(h.slots[i]) in {Some(DPS), Some(SUPPORT)}
    ensures RowOf(h, read).None?
  {
    if SortSegments(h.slots, read).Some? {
      LabelledWithoutTank(h.slots, read);
    }
  }

  /** As written, the sample's name swallows its tank segment. */
  lemma SampleHeaderAsWritten()
    ensures SplitHeader(SAMPLE, AsciiBoundary) == Some(Header(SAMPLE_HEAD, [SAMPLE_DPS, SAMPLE_SUPPORT]))
  {
    SamplePieces();
    SampleHeadAsWritten();
    var parts := [SAMPLE_HEAD, SAMPLE_DPS, SAMPLE_SUPPORT];
    assert parts[1..] == [SAMPLE_DPS, SAMPLE_SUPPORT];
  }

  /** As written the sample line is rejected. */
  lemma SampleRejectedAsWritten()
    ensures PastedLine(SAMPLE, AsciiBoundary).None?
  {
    SampleIsClean();
    SampleHeaderAsWritten();
    SampleDpsLabel();
    SampleSupportLabel();
    RejectedWhenOnlyDpsAndSupport(SAMPLE, AsciiBoundary, SAMPLE_HEAD, SAMPLE_DPS, SAMPLE_SUPPORT);
  }

  /** A line whose split leaves only a DPS and a support segment after the
      name is rejected. */
  lemma RejectedWhenOnlyDpsAndSupport(line: string, e: WordEnd, head: string, dps: string, sup: string)
    requires CleanLine(line) == line && line != []
    requires SplitHeader(line, e) == Some(Header(head, [dps, sup]))
    requires PickRoleLabel(dps) == Some(DPS) && PickRoleLabel(sup) == Some(SUPPORT)
    ensures PastedLine(line, e).None?
  {
    var h := Header(head, [dps, sup]);
    forall i | 0 <= i < |h.slots| ensures PickRoleLabel(h.slots[i]) in {Some(DPS), Some(SUPPORT)} {
      assert h.slots[i] == if i == 0 then dps else sup;
    }
    RejectedWithoutTank(h, FreeTierToken);
    PastedLineFromHeader(line, e, h);
  }

  /** Once the line is cleaned and split, the row depends only on the header. */
  lemma PastedLineFromHeader(line: string, e: WordEnd, h: Header)
    requires CleanLine(line) != [] && SplitHeader(CleanLine(line), e) == Some(h)
    ensures PastedLine(line, e) == RowOf(h, FreeTierToken)
  {
  }

  /** When the strict reading succeeds it is the result. */
  lemma StrictReading(text: string, m: RankToken)
    requires text != [] && !IsSpace(text[0]) && !IsSpace(text[|text| - 1]) && MatchAt(text, 0) == Some(m)
    requires ReadPick(m.word, m.digit).Some?
    ensures FreeTierToken(text) == ReadPick(m.word, m.digit)
  {
    TrimKeeps(text);
  }

  /** A run of tier letters directly followed by a division digit matches at once. */
  lemma WordAndDigitMatch(s: string, name: string, d: char)
    requires s == name + [d] && name != [] && IsDivisionDigit(d)
    requires forall m :: 0 <= m < |name| ==> IsTierLetter(name[m])
    ensures MatchAt(s, 0) == Some(RankToken(name, d))
  {
    var n := |name|;
    assert s[0] == name[0] && s[n] == d;
    LetterRunFrom(s, 0, n);
    assert SpaceRunEnd(s, n) == n;
    assert s[0..n] == name;
  }

  /** A tier word directly followed by a division digit reads as that tier and division. */
  lemma WordAndDigitRead(text: string, name: string, d: char, t: Tier)
    requires text == name + [d] && name != [] && IsDivisionDigit(d)
    requires forall m :: 0 <= m < |name| ==> IsTierLetter(name[m])
    requires NormalizeTierTokenAsWritten(name) == Some(t)
    ensures FreeTierToken(text) == Some(RankPick(t, DigitValue(d)))
  {
    WordAndDigitShape(text, name, d);
    WordAndDigitPick(name, d, t);
    StrictReading(text, RankToken(name, d));
  }

  lemma WordAndDigitShape(text: string, name: string, d: char)
    requires text == name + [d] && name != [] && IsDivisionDigit(d)
    requires forall m :: 0 <= m < |name| ==> IsTierLetter(name[m])
    ensures !IsSpace(text[0]) && !IsSpace(text[|text| - 1]) && MatchAt(text, 0) == Some(RankToken(name, d))
  {
    WordAndDigitMatch(text, name, d);
    assert text[|text| - 1] == d && text[0] == name[0];
  }

  lemma WordAndDigitPick(name: string, d: char, t: Tier)
    requires IsDivisionDigit(d) && NormalizeTierTokenAsWritten(name) == Some(t)
    ensures ReadPick(name, d) == Some(RankPick(t, DigitValue(d)))
  {
  }

  /** A labelled segment "word rank" without its word is the rank. */
  lemma DropHeadOf(w: string, r: string)
    requires w != [] && r != [] && !IsSpace(r[0]) && forall m :: 0 <= m < |w| ==> !IsSpace(w[m])
    ensures DropHead(w + " " + r) == r
  {
    var seg := w + " " + r;
    NonSpaceRun(seg, 0, |w|);
    SpaceRun(seg, |w|, |w| + 1);
    assert seg[|w| + 1..] == r;
  }

  // ---------------------------------------------------------------------------
  // Lines labelled in Hangul, corrected.

  /** A name or rank text with no blank, slash or character the cleaning step rewrites. */
  predicate PlainText(s: string)
  {
    s != [] && forall i :: 0 <= i < |s| ==> !IsSpace(s[i]) && s[i] != '/' && s[i] != '\U{200B}' && s[i] != '\U{FF0F}'
  }

  /** "name 탱 r1/딜 r2/힐 r3". */
  function HangulLine(name: string, r1: string, r2: string, r3: string): string
  {
    name + " " + ("탱 " + r1) + "/" + ("딜 " + r2) + "/" + ("힐 " + r3)
  }

  lemma PlainHasNone(s: string)
    requires PlainText(s)
    ensures '\U{A0}' !in s && '\U{200B}' !in s && '\U{FF0F}' !in s && '/' !in s
    ensures !IsSpace(s[0]) && !IsSpace(s[|s| - 1])
  {
    forall c | c in s ensures c != '\U{A0}' && c != '\U{200B}' && c != '\U{FF0F}' && c != '/' {
      var i :| 0 <= i < |s| && s[i] == c;
    }
  }

  lemma HangulLineClean(name: string, r1: string, r2: string, r3: string)
    requires PlainText(name) && PlainText(r1) && PlainText(r2) && PlainText(r3)
    ensures CleanLine(HangulLine(name, r1, r2, r3)) == HangulLine(name, r1, r2, r3)
  {
    PlainHasNone(name);
    PlainHasNone(r1);
    PlainHasNone(r2);
    PlainHasNone(r3);
    var line := HangulLine(name, r1, r2, r3);
    assert line[0] == name[0] && line[|line| - 1] == r3[|r3| - 1];
    CleanKeeps(line);
  }

  /** The first slash piece of `HangulLine`, and the line as three pieces. */
  lemma HangulLinePieces(name: string, r1: string, r2: string, r3: string)
    requires PlainText(name) && PlainText(r1) && PlainText(r2) && PlainText(r3)
    ensures Pieces(HangulLine(name, r1, r2, r3)) == [name + " " + ("탱 " + r1), "딜 " + r2, "힐 " + r3]
    ensures Pieces(("탱 " + r1) + "/" + ("딜 " + r2) + "/" + ("힐 " + r3)) == ["탱 " + r1, "딜 " + r2, "힐 " + r3]
  {
    var t, d, u := "탱 " + r1, "딜 " + r2, "힐 " + r3;
    var h := name + " " + t;
    HeadedPiece("탱 ", r1);
    HeadedPiece("딜 ", r2);
    HeadedPiece("힐 ", r3);
    PlainHasNone(name);
    var head := name + " 탱 ";
    assert '/' !in head && head[0] == name[0];
    HeadedPiece(head, r1);
    assert h == head + r1;
    assert HangulLine(name, r1, r2, r3) == h + "/" + d + "/" + u;
    PiecesOfThree(h, d, u);
    PiecesOfThree(t, d, u);
  }

  /** A head without slashes and not starting with a blank, followed by plain
      text, is a piece that splitting and trimming leave as it is. */
  lemma HeadedPiece(head: string, r: string)
    requires head != [] && '/' !in head && !IsSpace(head[0]) && PlainText(r)
    ensures '/' !in head + r && !IsSpace((head + r)[0]) && !IsSpace((head + r)[|head + r| - 1])
  {
    PlainHasNone(r);
    assert (head + r)[|head + r| - 1] == r[|r| - 1];
  }

  /** Corrected, the role head of `HangulLine` is the blank after the name. */
  lemma HangulLineHead(name: string, r1: string, r2: string, r3: string)
    requires PlainText(name) && PlainText(r1) && LowerChar(name[0]) !in "탱딜힐tds"
    ensures FirstHead(HangulLine(name, r1, r2, r3), LetterBoundary) == |name|
    ensures FirstHead(name + " " + ("탱 " + r1), LetterBoundary) != -1
  {
    var line := HangulLine(name, r1, r2, r3);
    var h := name + " " + ("탱 " + r1);
    var n := |name|;
    assert line[..n] == name && line[n] == ' ' && line[n + 1] == '탱' && line[n + 2] == ' ';
    assert h[..n] == name && h[n] == ' ' && h[n + 1] == '탱' && h[n + 2] == ' ';
    HeadAfterName(line, name);
    HeadAfterName(h, name);
  }

  /** A text that starts with a name and then " 탱 " has its first role head,
      corrected, at the blank after the name. */
  lemma HeadAfterName(line: string, name: string)
    requires PlainText(name) && LowerChar(name[0]) !in "탱딜힐tds"
    requires |name| + 2 < |line| && line[..|name|] == name
    requires line[|name|] == ' ' && line[|name| + 1] == '탱' && IsSpace(line[|name| + 2])
    ensures FirstHead(line, LetterBoundary) == |name|
  {
    var n := |name|;
    TankThenBlankCorrected(line, n + 1);
    assert HeadAt(line, n, LetterBoundary);
    assert line[0] == name[0];
    NoRoleWordAt(line, 0, LetterBoundary);
    forall j | 0 < j < n ensures !HeadAt(line, j, LetterBoundary) {
      assert line[j] == name[j];
      NotHeadInsideWord(line, j, LetterBoundary);
    }
  }

  /** The name is everything before the first role head when the first slash
      piece holds one. */
  lemma SplitAtHead(raw: string, e: WordEnd, idx: nat, name: string, slots: seq<string>)
    requires |Pieces(raw)| >= 2 && FirstHead(Pieces(raw)[0], e) != -1
    requires FirstHead(raw, e) == idx
    requires Trim(DropTrailingSeparators(raw[..idx])) == name && name != []
    requires Pieces(Trim(raw[idx..])) == slots
    ensures SplitHeader(raw, e) == Some(Header(name, slots))
  {
    assert SplitHeader(raw, e) == SplitAtFirstHead(raw, e);
  }

  lemma HangulLineName(name: string, r1: string, r2: string, r3: string)
    requires PlainText(name)
    ensures Trim(DropTrailingSeparators(HangulLine(name, r1, r2, r3)[..|name|])) == name
  {
    assert HangulLine(name, r1, r2, r3)[..|name|] == name;
    PlainHasNone(name);
    assert DropTrailingSeparators(name) == name;
    TrimKeeps(name);
  }

  lemma HangulLineRest(name: string, r1: string, r2: string, r3: string)
    requires PlainText(r3)
    ensures Trim(HangulLine(name, r1, r2, r3)[|name|..]) == ("탱 " + r1) + "/" + ("딜 " + r2) + "/" + ("힐 " + r3)
  {
    var rest := ("탱 " + r1) + "/" + ("딜 " + r2) + "/" + ("힐 " + r3);
    var tail := HangulLine(name, r1, r2, r3)[|name|..];
    assert tail == " " + rest;
    PlainHasNone(r3);
    assert rest[0] == '탱' && rest[|rest| - 1] == r3[|r3| - 1];
    BlankThenText(tail, rest);
  }

  /** One leading blank before a text that starts and ends with no blank is trimmed away. */
  lemma BlankThenText(tail: string, rest: string)
    requires tail == " " + rest && rest != [] && !IsSpace(rest[0]) && !IsSpace(rest[|rest| - 1])
    ensures Trim(tail) == rest
  {
    assert tail[1..] == rest;
    assert TrimStart(tail) == rest;
    TrimKeeps(rest);
  }

  /** Corrected, `HangulLine` splits into its name and its three labelled segments. */
  lemma HangulLineHeader(name: string, r1: string, r2: string, r3: string)
    requires PlainText(name) && PlainText(r1) && PlainText(r2) && PlainText(r3)
    requires LowerChar(name[0]) !in "탱딜힐tds"
    ensures SplitHeader(HangulLine(name, r1, r2, r3), LetterBoundary)
         == Some(Header(name, ["탱 " + r1, "딜 " + r2, "힐 " + r3]))
  {
    HangulLinePieces(name, r1, r2, r3);
    HangulLineHead(name, r1, r2, r3);
    HangulLineName(name, r1, r2, r3);
    HangulLineRest(name, r1, r2, r3);
    SplitAtHead(HangulLine(name, r1, r2, r3), LetterBoundary, |name|, name, ["탱 " + r1, "딜 " + r2, "힐 " + r3]);
  }

  lemma TankDrop(r: string)
    requires r != [] && !IsSpace(r[0])
    ensures DropHead("탱 " + r) == r
  {
    assert "탱 " + r == "탱" + " " + r by { assert "탱 " == "탱" + " "; }
    DropHeadOf("탱", r);
  }

  lemma TankSegment(r: string)
    requires r != [] && !IsSpace(r[0]) && !IsSpace(r[|r| - 1])
    ensures PickRoleLabel("탱 " + r) == Some(TANK)
  {
    var seg := "탱 " + r;
    assert seg == "탱" + " " + r by { assert "탱 " == "탱" + " "; }
    HeadTokenOf("탱", r);
    assert Lower(HeadToken(seg)) == "탱" by { assert Lower("탱") == "탱"; }
  }

  lemma DpsDrop(r: string)
    requires r != [] && !IsSpace(r[0])
    ensures DropHead("딜 " + r) == r
  {
    assert "딜 " + r == "딜" + " " + r by { assert "딜 " == "딜" + " "; }
    DropHeadOf("딜", r);
  }

  lemma DpsSegment(r: string)
    requires r != [] && !IsSpace(r[0]) && !IsSpace(r[|r| - 1])
    ensures PickRoleLabel("딜 " + r) == Some(DPS)
  {
    var seg := "딜 " + r;
    assert seg == "딜" + " " + r by { assert "딜 " == "딜" + " "; }
    HeadTokenOf("딜", r);
    assert Lower(HeadToken(seg)) == "딜" by { assert Lower("딜") == "딜"; }
  }

  lemma SupportDrop(r: string)
    requires r != [] && !IsSpace(r[0])
    ensures DropHead("힐 " + r) == r
  {
    assert "힐 " + r == "힐" + " " + r by { assert "힐 " == "힐" + " "; }
    DropHeadOf("힐", r);
  }

  lemma SupportSegment(r: string)
    requires r != [] && !IsSpace(r[0]) && !IsSpace(r[|r| - 1])
    ensures PickRoleLabel("힐 " + r) == Some(SUPPORT)
  {
    var seg := "힐 " + r;
    assert seg == "힐" + " " + r by { assert "힐 " == "힐" + " "; }
    HeadTokenOf("힐", r);
    assert Lower(HeadToken(seg)) == "힐" by { assert Lower("힐") == "힐"; }
  }

  /** One step of the labelled-segment loop over a labelled segment whose rank reads. */
  lemma SortLabelled(slots: seq<string>, read: string -> Option<ValidRank>, st: Sorting, role: Role, tk: ValidRank)
    requires slots != [] && SortSegments(slots[..|slots| - 1], read) == Some(st)
    requires PickRoleLabel(slots[|slots| - 1]) == Some(role) && read(DropHead(slots[|slots| - 1])) == Some(tk)
    ensures SortSegments(slots, read) == Some(st.(picked := Choose(st.picked, role, Pack(tk))))
  {
  }

  /** Three segments labelled tank, damage and support, in that order, set all three ranks. */
  lemma SortThreeLabelled(s1: string, s2: string, s3: string, read: string -> Option<ValidRank>, k1: ValidRank, k2: ValidRank, k3: ValidRank)
    requires PickRoleLabel(s1) == Some(TANK) && read(DropHead(s1)) == Some(k1)
    requires PickRoleLabel(s2) == Some(DPS) && read(DropHead(s2)) == Some(k2)
    requires PickRoleLabel(s3) == Some(SUPPORT) && read(DropHead(s3)) == Some(k3)
    ensures SortSegments([s1, s2, s3], read) == Some(Sorting(Picked(Some(Pack(k1)), Some(Pack(k2)), Some(Pack(k3))), []))
  {
    var slots := [s1, s2, s3];
    var st0 := Sorting(Picked(None, None, None), []);
    assert SortSegments([], read) == Some(st0);
    assert [s1][..0] == [];
    SortLabelled([s1], read, st0, TANK, k1);
    var st1 := Sorting(Picked(Some(Pack(k1)), None, None), []);
    assert [s1, s2][..1] == [s1];
    SortLabelled([s1, s2], read, st1, DPS, k2);
    var st2 := Sorting(Picked(Some(Pack(k1)), Some(Pack(k2)), None), []);
    assert slots[..2] == [s1, s2];
    SortLabelled(slots, read, st2, SUPPORT, k3);
  }

  /** Segments that set all three ranks leave nothing to fill: the row holds those ranks. */
  lemma RowOfSorted(h: Header, read: string -> Option<ValidRank>, a: string, b: string, c: string)
    requires SortSegments(h.slots, read) == Some(Sorting(Picked(Some(a), Some(b), Some(c)), []))
    ensures RowOf(h, read) == Some(PlayerRow(h.name, a, b, c))
  {
    assert Missing(Picked(Some(a), Some(b), Some(c))) == [];
  }

  /** Three labelled segments whose ranks read give the row with those ranks. */
  lemma LabelledRow(name: string, r1: string, r2: string, r3: string, read: string -> Option<ValidRank>,
                    k1: ValidRank, k2: ValidRank, k3: ValidRank)
    requires PlainText(r1) && PlainText(r2) && PlainText(r3)
    requires read(r1) == Some(k1) && read(r2) == Some(k2) && read(r3) == Some(k3)
    ensures RowOf(Header(name, ["탱 " + r1, "딜 " + r2, "힐 " + r3]), read)
         == Some(PlayerRow(name, Pack(k1), Pack(k2), Pack(k3)))
  {
    PlainHasNone(r1);
    PlainHasNone(r2);
    PlainHasNone(r3);
    TankSegment(r1);
    DpsSegment(r2);
    SupportSegment(r3);
    TankDrop(r1);
    DpsDrop(r2);
    SupportDrop(r3);
    SortThreeLabelled("탱 " + r1, "딜 " + r2, "힐 " + r3, read, k1, k2, k3);
    RowOfSorted(Header(name, ["탱 " + r1, "딜 " + r2, "힐 " + r3]), read, Pack(k1), Pack(k2), Pack(k3));
  }

  /** Corrected, a line labelled in Hangul reads each labelled rank into its role. */
  lemma HangulLineCorrected(name: string, r1: string, r2: string, r3: string, k1: ValidRank, k2: ValidRank, k3: ValidRank)
    requires PlainText(name) && PlainText(r1) && PlainText(r2) && PlainText(r3)
    requires LowerChar(name[0]) !in "탱딜힐tds"
    requires FreeTierToken(r1) == Some(k1) && FreeTierToken(r2) == Some(k2) && FreeTierToken(r3) == Some(k3)
    ensures PastedLine(HangulLine(name, r1, r2, r3), LetterBoundary) == Some(PlayerRow(name, Pack(k1), Pack(k2), Pack(k3)))
  {
    var line := HangulLine(name, r1, r2, r3);
    HangulLineClean(name, r1, r2, r3);
    HangulLineHeader(name, r1, r2, r3);
    LabelledRow(name, r1, r2, r3, FreeTierToken, k1, k2, k3);
    assert line != [] by { assert line[0] == name[0]; }
    PastedLineFromHeader(line, LetterBoundary, Header(name, ["탱 " + r1, "딜 " + r2, "힐 " + r3]));
  }

  /** A tier word directly followed by a division digit is plain text that reads as that rank. */
  lemma TierWordText(name: string, d: char, t: Tier)
    requires name != [] && IsDivisionDigit(d) && NormalizeTierTokenAsWritten(name) == Some(t)
    requires forall m :: 0 <= m < |name| ==> IsTierLetter(name[m])
    ensures PlainText(name + [d])
    ensures FreeTierToken(name + [d]) == Some(RankPick(t, DigitValue(d)))
  {
    TierWordPlain(name, d);
    WordAndDigitRead(name + [d], name, d, t);
  }

  lemma TierWordPlain(name: string, d: char)
    requires IsDivisionDigit(d) && forall m :: 0 <= m < |name| ==> IsTierLetter(name[m])
    ensures PlainText(name + [d])
  {
    var s := name + [d];
    forall i | 0 <= i < |s| ensures !IsSpace(s[i]) && s[i] != '/' && s[i] != '\U{200B}' && s[i] != '\U{FF0F}' {
      if i < |name| {
        assert s[i] == name[i] && IsTierLetter(name[i]);
      } else {
        assert s[i] == d;
      }
    }
  }

  /** Corrected, "name 탱 <tier><digit>/딜 <tier><digit>/힐 <tier><digit>" gives
      the player with those three ranks. */
  lemma HangulTierLine(name: string, w1: string, w2: string, w3: string, d1: char, d2: char, d3: char, t1: Tier, t2: Tier, t3: Tier)
    requires PlainText(name) && LowerChar(name[0]) !in "탱딜힐tds"
    requires w1 != [] && IsDivisionDigit(d1) && NormalizeTierTokenAsWritten(w1) == Some(t1) && forall m :: 0 <= m < |w1| ==> IsTierLetter(w1[m])
    requires w2 != [] && IsDivisionDigit(d2) && NormalizeTierTokenAsWritten(w2) == Some(t2) && forall m :: 0 <= m < |w2| ==> IsTierLetter(w2[m])
    requires w3 != [] && IsDivisionDigit(d3) && NormalizeTierTokenAsWritten(w3) == Some(t3) && forall m :: 0 <= m < |w3| ==> IsTierLetter(w3[m])
    ensures PastedLine(HangulLine(name, w1 + [d1], w2 + [d2], w3 + [d3]), LetterBoundary)
         == Some(PlayerRow(name, PackRank(t1, DigitValue(d1)), PackRank(t2, DigitValue(d2)), PackRank(t3, DigitValue(d3))))
  {
    TierWordText(w1, d1, t1);
    TierWordText(w2, d2, t2);
    TierWordText(w3, d3, t3);
    HangulLineCorrected(name, w1 + [d1], w2 + [d2], w3 + [d3],
      RankPick(t1, DigitValue(d1)), RankPick(t2, DigitValue(d2)), RankPick(t3, DigitValue(d3)));
  }
}
