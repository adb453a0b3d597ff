/** The chat-log line parser: a "name#1234" tag, then either slash-separated
    rank segments, each optionally led by a role word, or a free-form rest;
    and the multi-line reader that keeps the first player of each name. */
module LineParser {

  import opened Types
  import opened Wrappers
  import opened JsText
  import opened RankParser

  // ---------------------------------------------------------------------------
  // The name tag `([^\s]+\s*#\s*\d+)`.

  /** The end of `\s*#\s*\d+` matched from `q`, if it matches there. */
  function TagEnd(s: string, q: nat): (u: Option<nat>)
    requires q <= |s|
    ensures u.Some? ==> q < u.value <= |s|
  {
    var r := SpaceRunEnd(s, q);
    if r < |s| && s[r] == '#' then
      var t := SpaceRunEnd(s, r + 1);
      if t < |s| && IsDigit(s[t]) then Some(DigitRunEnd(s, t)) else None
    else None
  }

  /** `[^\s]+` from `p`, giving back characters from the end of its run: the
      longest end in `p+1..q` after which the tag follows, and the match's end. */
  function NameEndFrom(s: string, p: nat, q: nat): (m: Option<(nat, nat)>)
    requires p <= q <= |s|
    ensures m.Some? ==> p < m.value.0 <= q && m.value.0 < m.value.1 <= |s|
    ensures m.Some? ==> TagEnd(s, m.value.0) == Some(m.value.1)
    decreases q
  {
    if q <= p then None
    else
      match TagEnd(s, q)
      case Some(u) => Some((q, u))
      case None => NameEndFrom(s, p, q - 1)
  }

  /** The match starting at `p`: its end, after a non-blank run and the tag. */
  function TagMatchAt(s: string, p: nat): (m: Option<(nat, nat)>)
    requires p <= |s|
    ensures m.Some? ==> p < m.value.0 < m.value.1 <= |s|
  {
    if p < |s| && !IsSpace(s[p]) then NameEndFrom(s, p, NonSpaceRunEnd(s, p)) else None
  }

  /** Whether a tag match starts at `i`. */
  function TagAt(s: string): nat -> bool
  {
    (i: nat) => i <= |s| && TagMatchAt(s, i).Some?
  }

  /** The leftmost match: where it starts and where it ends. */
  function FirstTag(s: string): (m: Option<(nat, nat)>)
    ensures m.Some? ==> m.value.0 <= |s| && TagMatchAt(s, m.value.0).Some? && m.value.1 == TagMatchAt(s, m.value.0).value.1
  {
    match FirstIndex(0, |s|, TagAt(s))
    case None => None
    case Some(k) => Some((k, TagMatchAt(s, k).value.1))
  }

  /** No tag match starts at `i`. */
  predicate NoTagAt(s: string, i: nat)
    requires i <= |s|
  {
    TagMatchAt(s, i).None?
  }

  /** The search finds a match exactly when there is one, and no match starts
      before the one it finds. */
  lemma FirstTagIsLeftmost(s: string)
    ensures FirstTag(s).None? <==> forall i :: 0 <= i <= |s| ==> NoTagAt(s, i)
    ensures FirstTag(s).Some? ==> forall i :: 0 <= i < FirstTag(s).value.0 ==> NoTagAt(s, i)
  {
    var found := TagAt(s);
    assert forall i :: 0 <= i <= |s| ==> (found(i) <==> !NoTagAt(s, i));
  }

  /** A tag match holds the '#' between the name and the digits. */
  lemma TagMatchHasHash(s: string, p: nat)
    requires p <= |s| && TagMatchAt(s, p).Some?
    ensures '#' in s[p..TagMatchAt(s, p).value.1]
  {
    var q := TagMatchAt(s, p).value.0;
    var r := SpaceRunEnd(s, q);
    assert s[p..TagMatchAt(s, p).value.1][r - p] == s[r] == '#';
  }

  /** Removing blanks keeps every other character. */
  lemma {:induction false} RemoveSpacesKeeps(s: string, c: char)
    requires c in s && !IsSpace(c)
    ensures c in RemoveSpaces(s)
  {
    if s[0] != c {
      assert c in s[1..];
      RemoveSpacesKeeps(s[1..], c);
    }
  }

  // ---------------------------------------------------------------------------
  // Slash-separated segments.

  /** `.map(p => p.trim()).filter(p => p.length > 0)`. */
  function TrimmedNonEmpty(parts: seq<string>): (r: seq<string>)
    ensures |r| <= |parts|
    ensures forall i :: 0 <= i < |r| ==> r[i] != []
  {
    if parts == [] then []
    else (if Trim(parts[0]) == [] then [] else [Trim(parts[0])]) + TrimmedNonEmpty(parts[1..])
  }

  /** `remainText.split('/')`, trimmed, empty pieces dropped. */
  function SlashParts(remain: string): seq<string>
  {
    TrimmedNonEmpty(JsText.Split(remain, '/'))
  }

  /** Whether a lone Latin role letter may be followed by another letter: as
      written it may ("diamond3" starts with the DPS letter), or not. */
  datatype LabelRule = Unguarded | LetterGuarded

  /** `^(탱(?:커)?|딜(?:러)?|힐(?:러)?|t|d|s)`, case-insensitive: the length
      of the role word a part starts with, 0 when it starts with none. */
  function RoleWordLength(part: string, rule: LabelRule): (n: nat)
    ensures n <= 2 && n <= |part|
  {
    if "탱커" <= part || "딜러" <= part || "힐러" <= part then 2
    else if "탱" <= part || "딜" <= part || "힐" <= part then 1
    else if part != [] && IsRoleLetter(part[0])
            && (rule == Unguarded || |part| == 1 || !IsAsciiLetter(part[1]))
    then 1
    else 0
  }

  predicate IsRoleLetter(c: char)
  {
    LowerChar(c) == 't' || LowerChar(c) == 'd' || LowerChar(c) == 's'
  }

  /** `currentRole` and `rankPart`: the role the leading word names and the
      text after the word and its blanks, trimmed; a part without a role
      word is all rank text. */
  function LabelOf(part: string, rule: LabelRule): (Option<Role>, string)
  {
    var n := RoleWordLength(part, rule);
    if n == 0 then (None, part)
    else (ParseRole(part[..n]), Trim(part[SpaceRunEnd(part, n)..]))
  }

  /** The end of a `\(배치\s*중\)` match at `i`, if any. */
  function PlacementNoteAt(s: string, i: nat): (e: Option<nat>)
    requires i <= |s|
    ensures e.Some? ==> i < e.value <= |s|
  {
    if "(배치" <= s[i..] then
      var j := SpaceRunEnd(s, i + 3);
      if "중)" <= s[j..] then Some(j + 2) else None
    else None
  }

  /** `s.replace(/\(배치\s*중\)/g, '')`. */
  function RemovePlacementNotes(s: string): (r: string)
    ensures |r| <= |s|
    decreases |s|
  {
    if s == [] then []
    else
      match PlacementNoteAt(s, 0)
      case Some(e) => RemovePlacementNotes(s[e..])
      case None => [s[0]] + RemovePlacementNotes(s[1..])
  }

  /** The two readings the model carries: the code as written, and the one
      that guards the Latin role letters and takes divisions 1..5 only. */
  datatype Reading = Reading(labels: LabelRule, digits: DigitRule)

  const AS_WRITTEN: Reading := Reading(Unguarded, AnyDigit)
  const CORRECTED: Reading := Reading(LetterGuarded, RankDigit)

  /** `createUnrankedRank()`. */
  const UNRANKED_RANK: Rank := Rank(UNRANKED, 0, 0, false)

  /** The three ranks and `roleIndex`, the role the next unlabelled part fills. */
  datatype Ranks = Ranks(tank: Rank, dps: Rank, sup: Rank, roleIndex: nat)

  const NO_RANKS: Ranks := Ranks(UNRANKED_RANK, UNRANKED_RANK, UNRANKED_RANK, 0)

  function SetRole(st: Ranks, role: Role, r: Rank): Ranks
  {
    match role
    case TANK => st.(tank := r)
    case DPS => st.(dps := r)
    case SUPPORT => st.(sup := r)
  }

  /** An unlabelled rank fills role `idx` (0 tank, 1 DPS, 2 support); later ones are dropped. */
  function SetIndex(st: Ranks, idx: nat, r: Rank): Ranks
  {
    if idx == 0 then st.(tank := r)
    else if idx == 1 then st.(dps := r)
    else if idx == 2 then st.(sup := r)
    else st
  }

  /** The rank a part's rank text gives once placement notes are removed, if it reads. */
  function PartRank(text: string, rule: DigitRule): Option<Rank>
  {
    match SegmentWith(Trim(RemovePlacementNotes(text)), rule)
    case None => None
    case Some(p) => Some(CreateRank(p.tierIdx, p.div, p.isPreferred))
  }

  /** One pass of the slash loop, given the role the part's label names and
      the rank its text reads as: a labelled rank sets its role, an unlabelled
      one the role `roleIndex` names; an unlabelled part advances `roleIndex`
      whether or not its rank reads. */
  function Place(st: Ranks, role: Option<Role>, rank: Option<Rank>): Ranks
  {
    var placed :=
      match rank
      case None => st
      case Some(r) => if role.Some? then SetRole(st, role.value, r) else SetIndex(st, st.roleIndex, r);
    if role.None? then placed.(roleIndex := st.roleIndex + 1) else placed
  }

  /** How a part is split into its role and its rank text, and how that text reads. */
  type Labeller = string -> (Option<Role>, string)
  type RankReader = string -> Option<Rank>

  function LabelsBy(rule: LabelRule): Labeller
  {
    part => LabelOf(part, rule)
  }

  function RanksBy(rule: DigitRule): RankReader
  {
    text => PartRank(text, rule)
  }

  /** The slash loop over `parts`, from three unranked roles. */
  function SlashFoldWith(parts: seq<string>, labeller: Labeller, rank: RankReader): Ranks
  {
    if parts == [] then NO_RANKS
    else
      var last := labeller(parts[|parts| - 1]);
      Place(SlashFoldWith(parts[..|parts| - 1], labeller, rank), last.0, rank(last.1))
  }

  function SlashFold(parts: seq<string>, reading: Reading): Ranks
  {
    SlashFoldWith(parts, LabelsBy(reading.labels), RanksBy(reading.digits))
  }

  /** One pass of the slash loop on a part. */
  function SlashStep(st: Ranks, part: string, reading: Reading): Ranks
  {
    var lab := LabelOf(part, reading.labels);
    Place(st, lab.0, PartRank(lab.1, reading.digits))
  }

  /** The fold is the steps in order. */
  lemma SlashFoldSteps(parts: seq<string>, part: string, reading: Reading)
    ensures SlashFold(parts + [part], reading) == SlashStep(SlashFold(parts, reading), part, reading)
  {
    assert (parts + [part])[..|parts|] == parts;
  }

  /** The slash loop of `parseLineToPlayer`, with the role word and rank
      segment readers it calls given as `labeller` and `rank`. */
  method ReadSlashParts(parts: seq<string>, labeller: Labeller, rank: RankReader) returns (tank: Rank, dps: Rank, sup: Rank)
    ensures var st := SlashFoldWith(parts, labeller, rank); tank == st.tank && dps == st.dps && sup == st.sup
  {
    tank, dps, sup := UNRANKED_RANK, UNRANKED_RANK, UNRANKED_RANK;
    var roleIndex := 0;
    var i := 0;
    while i < |parts|
      invariant 0 <= i <= |parts|
      invariant Ranks(tank, dps, sup, roleIndex) == SlashFoldWith(parts[..i], labeller, rank)
    {
      var part := parts[i];
      var currentRole, rankPart := labeller(part).0, labeller(part).1;
      var parsed := rank(rankPart);
      if parsed.Some? {
        if currentRole == Some(TANK) {
          tank := parsed.value;
        } else if currentRole == Some(DPS) {
          dps := parsed.value;
        } else if currentRole == Some(SUPPORT) {
          sup := parsed.value;
        } else if roleIndex == 0 {
          tank := parsed.value;
        } else if roleIndex == 1 {
          dps := parsed.value;
        } else if roleIndex == 2 {
          sup := parsed.value;
        }
      }
      if currentRole.None? {
        roleIndex := roleIndex + 1;
      }
      assert parts[..i + 1][..i] == parts[..i];
      i := i + 1;
    }
    assert parts[..|parts|] == parts;
  }

  // ---------------------------------------------------------------------------
  // One line.

  /** The free-form branch (`matchAll` over role/tier/division groups), taken
      as given: the three ranks it reads from the text after the tag. */
  type SpacedReader = string -> (Rank, Rank, Rank)

  /** The readers a line is parsed with: the role word split, the rank
      segment reading and the free-form branch. */
  datatype Readers = Readers(labeller: Labeller, rank: RankReader, spaced: SpacedReader)

  /** The readers `parseLineToPlayer` uses under a reading. */
  function ReadersOf(reading: Reading, spaced: SpacedReader): Readers
  {
    Readers(LabelsBy(reading.labels), RanksBy(reading.digits), spaced)
  }

  /** The three ranks of the text after the tag: the slash loop when there
      are at least two slash parts, otherwise the free-form branch. */
  function LineRanks(remain: string, rd: Readers): (Rank, Rank, Rank)
  {
    var parts := SlashParts(remain);
    if |parts| >= 2 then
      var st := SlashFoldWith(parts, rd.labeller, rd.rank);
      (st.tank, st.dps, st.sup)
    else rd.spaced(remain)
  }

  /** The trimmed line's first tag match and the trimmed text after it
      (`remainText`), or nothing when the line has no tag. */
  function TaggedLine(line: string): (t: Option<(string, string)>)
    ensures t.Some? ==> '#' in t.value.0 && !IsSpace(t.value.0[0])
  {
    var clean := Trim(line);
    match FirstTag(clean)
    case None => None
    case Some(m) =>
      TagMatchHasHash(clean, m.0);
      var text := clean[m.0..m.1];
      Some((text, Trim(Slice(clean, IndexOf(clean, text) + |text|))))
  }

  /** The player a tagged line gives, unless every role scores zero. */
  function PlayerOf(id: real, text: string, ranks: (Rank, Rank, Rank)): Option<Player>
  {
    if ranks.0.score == 0 && ranks.1.score == 0 && ranks.2.score == 0 then None
    else Some(Player(id, RemoveSpaces(text), ranks.0, ranks.1, ranks.2))
  }

  /** What `parseLineToPlayer(line)` returns, with the id it draws given as `id`. */
  function PlayerOfLine(line: string, id: real, rd: Readers): Option<Player>
  {
    match TaggedLine(line)
    case None => None
    case Some(t) => PlayerOf(id, t.0, LineRanks(t.1, rd))
  }

  /** `parseLineToPlayer`. */
  method ParseLineToPlayer(line: string, id: real, rd: Readers) returns (r: Option<Player>)
    ensures r == PlayerOfLine(line, id, rd)
  {
    var nameMatch := TaggedLine(line);
    if nameMatch.None? {
      return None;
    }
    var name := RemoveSpaces(nameMatch.value.0);
    var remain := nameMatch.value.1;
    var tank, dps, sup;
    var slashParts := SlashParts(remain);
    if |slashParts| >= 2 {
      tank, dps, sup := ReadSlashParts(slashParts, rd.labeller, rd.rank);
    } else {
      var ranks := rd.spaced(remain);
      tank, dps, sup := ranks.0, ranks.1, ranks.2;
    }
    assert (tank, dps, sup) == LineRanks(remain, rd);
    if tank.score == 0 && dps.score == 0 && sup.score == 0 {
      return None;
    }
    r := Some(Player(id, name, tank, dps, sup));
  }

  /** A line without a tag gives no player; a player has a blank-free name
      holding the tag's '#', and some role with a non-zero score. */
  lemma PlayerOfLineShape(line: string, id: real, rd: Readers)
    ensures TaggedLine(line).None? ==> PlayerOfLine(line, id, rd).None?
    ensures PlayerOfLine(line, id, rd).Some? ==>
              var p := PlayerOfLine(line, id, rd).value;
              p.id == id && p.name != [] && '#' in p.name
              && (forall i :: 0 <= i < |p.name| ==> !IsSpace(p.name[i]))
              && (p.tank.score != 0 || p.dps.score != 0 || p.sup.score != 0)
  {
    var t := TaggedLine(line);
    if t.Some? {
      var ranks := LineRanks(t.value.1, rd);
      assert PlayerOfLine(line, id, rd) == PlayerOf(id, t.value.0, ranks);
      PlayerOfShape(id, t.value.0, ranks);
    }
  }

  /** The player built from a tag holding '#' has a blank-free name holding
      '#', and some role with a non-zero score. */
  lemma PlayerOfShape(id: real, text: string, ranks: (Rank, Rank, Rank))
    requires '#' in text
    ensures PlayerOf(id, text, ranks).Some? ==>
              var p := PlayerOf(id, text, ranks).value;
              p.id == id && p.name != [] && '#' in p.name
              && (forall i :: 0 <= i < |p.name| ==> !IsSpace(p.name[i]))
              && (p.tank.score != 0 || p.dps.score != 0 || p.sup.score != 0)
  {
    RemoveSpacesKeeps(text, '#');
  }

  /** A tagged line gives a player exactly when some role scores. */
  lemma PlayerOfLineScores(line: string, id: real, rd: Readers, text: string, remain: string)
    requires TaggedLine(line) == Some((text, remain))
    ensures var ranks := LineRanks(remain, rd);
            PlayerOfLine(line, id, rd).Some? <==>
              ranks.0.score != 0 || ranks.1.score != 0 || ranks.2.score != 0
  {
  }

  // ---------------------------------------------------------------------------
  // The slash loop's rules.

  /** A labelled part whose rank reads sets that role and leaves `roleIndex`. */
  lemma LabelledPartSetsItsRole(st: Ranks, part: string, reading: Reading, role: Role)
    requires RoleWordLength(part, reading.labels) > 0 && RoleOfInitial(part[0]) == Some(role)
    ensures var n := RoleWordLength(part, reading.labels);
            var r := PartRank(Trim(part[SpaceRunEnd(part, n)..]), reading.digits);
            SlashStep(st, part, reading) == if r.Some? then SetRole(st, role, r.value) else st
  {
    RoleWordNamesRole(part, reading.labels);
  }

  /** An unlabelled part fills the role `roleIndex` names when its rank reads,
      and advances `roleIndex` either way. */
  lemma UnlabelledPartFillsNext(st: Ranks, part: string, reading: Reading)
    requires RoleWordLength(part, reading.labels) == 0
    ensures var r := PartRank(part, reading.digits);
            SlashStep(st, part, reading)
              == (if r.Some? then SetIndex(st, st.roleIndex, r.value) else st).(roleIndex := st.roleIndex + 1)
  {
    assert LabelOf(part, reading.labels) == (None, part);
    assert SlashStep(st, part, reading) == Place(st, None, PartRank(part, reading.digits));
  }

  /** The role a role word names, by its first character. */
  function RoleOfInitial(c: char): Option<Role>
  {
    if c == '탱' || LowerChar(c) == 't' then Some(TANK)
    else if c == '딜' || LowerChar(c) == 'd' then Some(DPS)
    else if c == '힐' || LowerChar(c) == 's' then Some(SUPPORT)
    else None
  }

  /** A word that starts with a role initial and does not end in a blank names that role. */
  lemma ParseRoleOfWord(w: string)
    requires 1 <= |w| <= 2 && RoleOfInitial(w[0]).Some? && !IsSpace(LowerChar(w[|w| - 1]))
    ensures ParseRole(w) == RoleOfInitial(w[0])
  {
    var u := Lower(w);
    assert u[0] == LowerChar(w[0]) && !IsSpace(u[0]);
    TrimKeepsEnds(u);
    TankWords(u);
    DpsWords(u);
    SupportWords(u);
    assert !("heal" <= u);
  }

  /** Every role word the pattern picks names a role: the one its first character says. */
  lemma RoleWordNamesRole(part: string, rule: LabelRule)
    requires RoleWordLength(part, rule) > 0
    ensures LabelOf(part, rule).0 == RoleOfInitial(part[0]) && RoleOfInitial(part[0]).Some?
  {
    var w := part[..RoleWordLength(part, rule)];
    assert w[0] == part[0];
    ParseRoleOfWord(w);
  }

  // ---------------------------------------------------------------------------
  // Several lines.

  predicate FourDigitsAt(s: string, i: nat)
    requires i + 4 <= |s|
  {
    IsDigit(s[i]) && IsDigit(s[i + 1]) && IsDigit(s[i + 2]) && IsDigit(s[i + 3])
  }

  /** `/\d{4,}/`: four digits in a row somewhere. */
  predicate HasFourDigits(s: string)
  {
    exists i: nat :: i <= |s| - 4 && FourDigitsAt(s, i)
  }

  /** The lines `parseMultipleLines` hands to the line parser: ones with a '#'
      and four digits in a row, that are not an "역할 아이콘" or "—" metadata line. */
  predicate Admitted(line: string)
  {
    Contains(line, "#") && HasFourDigits(line) && !Contains(line, "역할 아이콘") && !Contains(line, "—")
  }

  /** What a line gives: the player an admitted line parses to. */
  function LineResult(line: string, id: real, rd: Readers): Option<Player>
  {
    if Admitted(line) then PlayerOfLine(line, id, rd) else None
  }

  /** What each line gives, the id of line `i` being `ids(i)`. */
  function LineResults(lines: seq<string>, ids: nat -> real, rd: Readers): (rs: seq<Option<Player>>)
    ensures |rs| == |lines|
    ensures forall i :: 0 <= i < |lines| ==> rs[i] == LineResult(lines[i], ids(i), rd)
  {
    seq(|lines|, i requires 0 <= i < |lines| => LineResult(lines[i], ids(i), rd))
  }

  function Names(ps: seq<Player>): set<string>
  {
    set i | 0 <= i < |ps| :: ps[i].name
  }

  /** The players kept from the line results, in line order: each one unless
      an earlier kept player has its name. */
  function Keep(rs: seq<Option<Player>>): seq<Player>
  {
    if rs == [] then []
    else
      var kept := Keep(rs[..|rs| - 1]);
      match rs[|rs| - 1]
      case None => kept
      case Some(p) => if p.name in Names(kept) then kept else kept + [p]
  }

  /** The names among the line results. */
  function CandidateNames(rs: seq<Option<Player>>): set<string>
  {
    if rs == [] then {}
    else
      CandidateNames(rs[..|rs| - 1])
      + match rs[|rs| - 1] case None => {} case Some(p) => {p.name}
  }

  lemma NamesAppend(ps: seq<Player>, p: Player)
    ensures Names(ps + [p]) == Names(ps) + {p.name}
  {
    var qs := ps + [p];
    assert qs[|ps|].name == p.name;
    forall n | n in Names(ps) ensures n in Names(qs) {
      var i :| 0 <= i < |ps| && ps[i].name == n;
      assert qs[i] == ps[i];
    }
  }

  /** `parseMultipleLines`, with the id drawn for line `i` given as `ids(i)`. */
  method ParseMultipleLines(text: string, ids: nat -> real, rd: Readers) returns (players: seq<Player>)
    ensures players == Keep(LineResults(JsText.Split(text, '\n'), ids, rd))
  {
    var lines := JsText.Split(text, '\n');
    ghost var rs := LineResults(lines, ids, rd);
    players := [];
    var seenNames: set<string> := {};
    var i := 0;
    while i < |lines|
      invariant 0 <= i <= |lines|
      invariant players == Keep(rs[..i])
      invariant seenNames == Names(players)
    {
      var line := lines[i];
      KeepNext(rs, i);
      assert rs[i] == LineResult(line, ids(i), rd);
      if !Contains(line, "#") || !HasFourDigits(line) {
        i := i + 1;
        continue;
      }
      if Contains(line, "역할 아이콘") || Contains(line, "—") {
        i := i + 1;
        continue;
      }
      var player := ParseLineToPlayer(line, ids(i), rd);
      if player.Some? && player.value.name !in seenNames {
        NamesAppend(players, player.value);
        players := players + [player.value];
        seenNames := seenNames + {player.value.name};
      }
      i := i + 1;
    }
    assert rs[..|lines|] == rs;
  }

  /** One more line result. */
  lemma KeepNext(rs: seq<Option<Player>>, i: nat)
    requires i < |rs|
    ensures Keep(rs[..i + 1]) == match rs[i]
                                 case None => Keep(rs[..i])
                                 case Some(p) => if p.name in Names(Keep(rs[..i])) then Keep(rs[..i]) else Keep(rs[..i]) + [p]
  {
    assert rs[..i + 1][..i] == rs[..i];
  }

  predicate DistinctNames(ps: seq<Player>)
  {
    forall i, j :: 0 <= i < j < |ps| ==> ps[i].name != ps[j].name
  }

  /** No two kept players share a name. */
  lemma {:induction false} KeepNamesDistinct(rs: seq<Option<Player>>)
    ensures DistinctNames(Keep(rs))
  {
    if rs != [] {
      var prev := Keep(rs[..|rs| - 1]);
      KeepNamesDistinct(rs[..|rs| - 1]);
      if rs[|rs| - 1].Some? && rs[|rs| - 1].value.name !in Names(prev) {
        var p := rs[|rs| - 1].value;
        var kept := prev + [p];
        assert Keep(rs) == kept;
        forall i, j | 0 <= i < j < |kept| ensures kept[i].name != kept[j].name {
          assert kept[i] == prev[i];
          if j == |prev| {
            assert prev[i].name in Names(prev);
          } else {
            assert kept[j] == prev[j];
          }
        }
      } else {
        assert Keep(rs) == prev;
      }
    }
  }

  /** Every name among the line results is a kept player's name, and no other. */
  lemma {:induction false} KeepCoversNames(rs: seq<Option<Player>>)
    ensures Names(Keep(rs)) == CandidateNames(rs)
  {
    if rs != [] {
      var prev := Keep(rs[..|rs| - 1]);
      KeepCoversNames(rs[..|rs| - 1]);
      if rs[|rs| - 1].Some? {
        var p := rs[|rs| - 1].value;
        if p.name !in Names(prev) {
          NamesAppend(prev, p);
        }
      }
    }
  }

  /** Every kept player is one of the line results. */
  lemma {:induction false} KeepOnlyCandidates(rs: seq<Option<Player>>)
    ensures forall j :: 0 <= j < |Keep(rs)| ==> Some(Keep(rs)[j]) in rs
  {
    if rs != [] {
      var front := rs[..|rs| - 1];
      KeepOnlyCandidates(front);
      forall j | 0 <= j < |Keep(rs)| ensures Some(Keep(rs)[j]) in rs {
        if j < |Keep(front)| {
          assert Keep(rs)[j] == Keep(front)[j];
          assert Some(Keep(front)[j]) in front;
        } else {
          assert Keep(rs)[j] == rs[|rs| - 1].value;
        }
      }
    }
  }

  /** Keeping more lines only appends. */
  lemma {:induction false} KeepExtends(rs: seq<Option<Player>>, n: nat)
    requires n <= |rs|
    ensures Keep(rs[..n]) <= Keep(rs)
    decreases |rs|
  {
    if n < |rs| {
      KeepExtends(rs[..|rs| - 1], n);
      assert rs[..|rs| - 1][..n] == rs[..n];
    } else {
      assert rs[..n] == rs;
    }
  }

  /** The first result with a given name is kept. */
  lemma KeepsFirstOfName(rs: seq<Option<Player>>, i: nat)
    requires i < |rs| && rs[i].Some?
    requires forall k :: 0 <= k < i && rs[k].Some? ==> rs[k].value.name != rs[i].value.name
    ensures rs[i].value in Keep(rs)
  {
    var p := rs[i].value;
    var front := rs[..i];
    assert rs[..i + 1][..i] == front;
    NoNameNoCandidate(front, p.name);
    KeepCoversNames(front);
    KeepExtends(rs, i + 1);
    assert Keep(rs[..i + 1]) == Keep(front) + [p];
    assert p == Keep(rs[..i + 1])[|Keep(front)|];
  }

  lemma {:induction false} NoNameNoCandidate(rs: seq<Option<Player>>, name: string)
    requires forall k :: 0 <= k < |rs| && rs[k].Some? ==> rs[k].value.name != name
    ensures name !in CandidateNames(rs)
  {
    if rs != [] {
      NoNameNoCandidate(rs[..|rs| - 1], name);
    }
  }

  // ---------------------------------------------------------------------------
  // A lone Latin role letter.

  /** Without a '(' there is no placement note to remove. */
  lemma {:induction false} NoNotesWithoutParen(s: string)
    requires forall i :: 0 <= i < |s| ==> s[i] != '('
    ensures RemovePlacementNotes(s) == s
  {
    if s != [] {
      assert PlacementNoteAt(s, 0).None? by { assert s[0] != '('; }
      NoNotesWithoutParen(s[1..]);
    }
  }

  /** A Latin word: the letters a tier word written in English has. */
  predicate LatinWord(w: string)
  {
    w != [] && forall i :: 0 <= i < |w| ==> IsAsciiLetter(w[i])
  }

  /** A Latin word and a digit, already trimmed and free of notes, read as the
      word's tier, or as nothing when the word names none. */
  lemma WordDigitRank(w: string, d: char, rule: DigitRule)
    requires LatinWord(w) && TakesDigit(rule, d) && !MentionsUnranked(w + [d])
    ensures FindTierIndex(w) == -1 ==> PartRank(w + [d], rule).None?
    ensures FindTierIndex(w) != -1 ==>
              PartRank(w + [d], rule) == Some(CreateRank(FindTierIndex(w), DigitValue(d), false))
  {
    var s := w + [d];
    assert w + "" + [d] == s;
    assert IsDigit(d) by { assert TakesDigit(rule, d); }
    WordDigitText(w, d);
    if FindTierIndex(w) == -1 {
      UnknownWordSegment(w, "", d, rule);
    } else {
      WordAndDigitSegment(w, "", d, rule);
    }
  }

  /** A Latin word and a digit hold no placement note and no outer blank. */
  lemma WordDigitText(w: string, d: char)
    requires LatinWord(w) && IsDigit(d)
    ensures Trim(RemovePlacementNotes(w + [d])) == w + [d]
  {
    var s := w + [d];
    forall i | 0 <= i < |s| ensures s[i] != '(' {
      if i < |w| { assert s[i] == w[i]; }
    }
    NoNotesWithoutParen(s);
    assert !IsSpace(s[0]) by { assert s[0] == w[0]; }
    TrimKeepsEnds(s);
  }

  /** A Latin word whose first letter starts no alias names no tier. */
  lemma LatinWordNoTier(w: string)
    requires LatinWord(w) && !IsKeyInitial(LowerChar(w[0]))
    ensures FindTierIndex(w) == -1
  {
    var l := Lower(w);
    assert !IsSpace(l[0]) && !IsSpace(l[|l| - 1]) by {
      assert IsAsciiLetter(w[0]) && IsAsciiLetter(w[|w| - 1]);
    }
    TrimKeepsEnds(l);
    UnknownInitialFindsNothing(w);
  }

  /** A role letter followed by a letter: as written it is a role label and
      the rest is the rank text. */
  lemma RoleLetterBeforeLetter(part: string)
    requires |part| >= 2 && IsRoleLetter(part[0]) && IsAsciiLetter(part[1]) && !IsSpace(part[|part| - 1])
    ensures LabelOf(part, Unguarded) == (RoleOfInitial(part[0]), part[1..]) && RoleOfInitial(part[0]).Some?
  {
    var rest := part[1..];
    RoleLetterWord(part);
    assert SpaceRunEnd(part, 1) == 1 by {
      assert !IsSpace(part[1]);
    }
    assert rest[0] == part[1] && rest[|rest| - 1] == part[|part| - 1];
    TrimKeepsEnds(rest);
    OneLetterLabel(part, rest);
    RoleLetterNamesRole(part[..1]);
  }

  /** A lone role letter names the role of its initial. */
  lemma RoleLetterNamesRole(w: string)
    requires |w| == 1 && IsRoleLetter(w[0])
    ensures ParseRole(w) == RoleOfInitial(w[0]) && RoleOfInitial(w[0]).Some?
  {
    assert !IsSpace(LowerChar(w[0]));
    ParseRoleOfWord(w);
  }

  lemma OneLetterLabel(part: string, rest: string)
    requires RoleWordLength(part, Unguarded) == 1 && SpaceRunEnd(part, 1) == 1
    requires part[1..] == rest && Trim(rest) == rest
    ensures LabelOf(part, Unguarded) == (ParseRole(part[..1]), rest)
  {
  }

  lemma RoleLetterWord(part: string)
    requires part != [] && IsRoleLetter(part[0])
    ensures RoleWordLength(part, Unguarded) == 1 && part[..1] == [part[0]]
  {
  }

  /** The guarded rule sees no label there. */
  lemma GuardedRoleLetter(part: string)
    requires |part| >= 2 && IsRoleLetter(part[0]) && IsAsciiLetter(part[1])
    ensures RoleWordLength(part, LetterGuarded) == 0
  {
  }

  /** As written, a part such as "diamond3", whose role letter is followed by
      the rest of a tier word, is read as a DPS label over "iamond3": when that
      rest names no tier, the part changes nothing, not even the next role. */
  lemma LetterLabelAsWritten(st: Ranks, c: char, w: string, d: char)
    requires IsRoleLetter(c) && LatinWord(w) && !IsKeyInitial(LowerChar(w[0]))
    requires IsDigit(d) && !MentionsUnranked(w + [d])
    ensures SlashStep(st, [c] + (w + [d]), AS_WRITTEN) == st
  {
    var part := [c] + (w + [d]);
    assert part[1] == w[0] && part[1..] == w + [d] && part[|part| - 1] == d;
    RoleLetterBeforeLetter(part);
    LatinWordNoTier(w);
    WordDigitRank(w, d, AnyDigit);
  }

  /** With the guard, the same part is unlabelled and its whole word is read:
      the tier it names fills the next role. */
  lemma LetterLabelCorrected(st: Ranks, word: string, d: char)
    requires LatinWord(word) && |word| >= 2 && IsRoleLetter(word[0])
    requires '1' <= d <= '5' && !MentionsUnranked(word + [d]) && FindTierIndex(word) != -1
    ensures SlashStep(st, word + [d], CORRECTED)
              == SetIndex(st, st.roleIndex, CreateRank(FindTierIndex(word), DigitValue(d), false))
                   .(roleIndex := st.roleIndex + 1)
  {
    var part := word + [d];
    assert part[0] == word[0] && part[1] == word[1];
    GuardedRoleLetter(part);
    UnlabelledPartFillsNext(st, part, CORRECTED);
    WordDigitRank(word, d, RankDigit);
  }

  lemma NoRoleWord(part: string, rule: LabelRule)
    requires part != [] && IsAsciiLetter(part[0]) && !IsRoleLetter(part[0])
    ensures RoleWordLength(part, rule) == 0
  {
  }

  /** A Latin tier word that starts with no role letter is unlabelled under
      either rule, and its tier fills the next role. */
  lemma PlainWordPart(st: Ranks, w: string, d: char, reading: Reading)
    requires LatinWord(w) && !IsRoleLetter(w[0]) && TakesDigit(reading.digits, d)
    requires !MentionsUnranked(w + [d]) && FindTierIndex(w) != -1
    ensures SlashStep(st, w + [d], reading)
              == SetIndex(st, st.roleIndex, CreateRank(FindTierIndex(w), DigitValue(d), false))
                   .(roleIndex := st.roleIndex + 1)
  {
    assert (w + [d])[0] == w[0];
    NoRoleWord(w + [d], reading.labels);
    UnlabelledPartFillsNext(st, w + [d], reading);
    WordDigitRank(w, d, reading.digits);
  }

  /** Three parts, read by any readers. */
  lemma ThreeStepsWith(p1: string, p2: string, p3: string, labeller: Labeller, rank: RankReader)
    ensures var st1 := Place(NO_RANKS, labeller(p1).0, rank(labeller(p1).1));
            var st2 := Place(st1, labeller(p2).0, rank(labeller(p2).1));
            SlashFoldWith([p1, p2, p3], labeller, rank) == Place(st2, labeller(p3).0, rank(labeller(p3).1))
  {
    assert SlashFoldWith([p1], labeller, rank) == Place(NO_RANKS, labeller(p1).0, rank(labeller(p1).1)) by {
      assert [p1][..0] == [];
    }
    assert SlashFoldWith([p1, p2], labeller, rank)
        == Place(SlashFoldWith([p1], labeller, rank), labeller(p2).0, rank(labeller(p2).1)) by {
      assert [p1, p2][..1] == [p1];
    }
    assert [p1, p2, p3][..2] == [p1, p2];
  }

  lemma ThreeSteps(p1: string, p2: string, p3: string, reading: Reading)
    ensures SlashFold([p1, p2, p3], reading)
              == SlashStep(SlashStep(SlashStep(NO_RANKS, p1, reading), p2, reading), p3, reading)
  {
    ThreeStepsWith(p1, p2, p3, LabelsBy(reading.labels), RanksBy(reading.digits));
  }

  /** A Latin word that starts with a role letter, as "diamond" and "silver" do. */
  predicate LetterLedWord(word: string)
  {
    LatinWord(word) && |word| >= 2 && IsRoleLetter(word[0])
  }

  /** As written, "diamond3/silver2/gold1" loses its first two ranks: they are
      read as DPS and support labels over "iamond3" and "ilver2", which name no
      tier, and the labels do not advance the role counter, so "gold1" lands
      on tank and the player has no DPS or support rank. */
  lemma LetterLedLineAsWritten(word1: string, d1: char, word2: string, d2: char, w3: string, d3: char)
    requires LetterLedWord(word1) && !IsKeyInitial(LowerChar(word1[1])) && IsDigit(d1)
    requires LetterLedWord(word2) && !IsKeyInitial(LowerChar(word2[1])) && IsDigit(d2)
    requires !MentionsUnranked(word1[1..] + [d1]) && !MentionsUnranked(word2[1..] + [d2])
    requires LatinWord(w3) && !IsRoleLetter(w3[0]) && IsDigit(d3)
    requires !MentionsUnranked(w3 + [d3]) && FindTierIndex(w3) != -1
    ensures SlashFold([word1 + [d1], word2 + [d2], w3 + [d3]], AS_WRITTEN)
              == Ranks(CreateRank(FindTierIndex(w3), DigitValue(d3), false), UNRANKED_RANK, UNRANKED_RANK, 1)
  {
    ThreeSteps(word1 + [d1], word2 + [d2], w3 + [d3], AS_WRITTEN);
    LetterLedAsWritten(NO_RANKS, word1, d1);
    LetterLedAsWritten(NO_RANKS, word2, d2);
    PlainWordPart(NO_RANKS, w3, d3, AS_WRITTEN);
  }

  lemma LetterLedAsWritten(st: Ranks, word: string, d: char)
    requires LetterLedWord(word) && !IsKeyInitial(LowerChar(word[1])) && IsDigit(d)
    requires !MentionsUnranked(word[1..] + [d])
    ensures SlashStep(st, word + [d], AS_WRITTEN) == st
  {
    assert word + [d] == [word[0]] + (word[1..] + [d]);
    assert LatinWord(word[1..]) by {
      assert forall i :: 0 <= i < |word[1..]| ==> word[1..][i] == word[i + 1];
    }
    LetterLabelAsWritten(st, word[0], word[1..], d);
  }

  /** With the guard and divisions 1..5, the same line fills tank, DPS and
      support in order. */
  lemma LetterLedLineCorrected(word1: string, d1: char, word2: string, d2: char, w3: string, d3: char)
    requires LetterLedWord(word1) && '1' <= d1 <= '5' && !MentionsUnranked(word1 + [d1]) && FindTierIndex(word1) != -1
    requires LetterLedWord(word2) && '1' <= d2 <= '5' && !MentionsUnranked(word2 + [d2]) && FindTierIndex(word2) != -1
    requires LatinWord(w3) && !IsRoleLetter(w3[0]) && '1' <= d3 <= '5'
    requires !MentionsUnranked(w3 + [d3]) && FindTierIndex(w3) != -1
    ensures SlashFold([word1 + [d1], word2 + [d2], w3 + [d3]], CORRECTED)
              == Ranks(CreateRank(FindTierIndex(word1), DigitValue(d1), false),
                       CreateRank(FindTierIndex(word2), DigitValue(d2), false),
                       CreateRank(FindTierIndex(w3), DigitValue(d3), false), 3)
  {
    ThreeSteps(word1 + [d1], word2 + [d2], w3 + [d3], CORRECTED);
    var st1 := SlashStep(NO_RANKS, word1 + [d1], CORRECTED);
    LetterLabelCorrected(NO_RANKS, word1, d1);
    LetterLabelCorrected(st1, word2, d2);
    PlainWordPart(SlashStep(st1, word2 + [d2], CORRECTED), w3, d3, CORRECTED);
  }
}
