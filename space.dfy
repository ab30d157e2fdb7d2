/** The category a board space belongs to, as used for summaries. */
module PropertySets {
  datatype PropertySet =
    | Brown | LightBlue | Pink | Orange | Red | Yellow | Green | DarkBlue
    | Station | Utility | Chance | CommunityChest | Tax | Other

  /** The colour groups in board order. */
  const COLOURS: seq<PropertySet> := [Brown, LightBlue, Pink, Orange, Red, Yellow, Green, DarkBlue]
}

/**
 * The fixed 40-space board: what each space is, where it sits, and the searches
 * used to resolve card effects (first index of a space, next matching space ahead).
 */
module Spaces {
  import opened Decimal
  import PS = PropertySets

  /** An unsigned 8-bit value, the width of every number a space carries. */
  type Byte = x: int | 0 <= x < 256

  datatype Option<T> = None | Some(value: T)

  datatype Space =
    | Go
    | Visit
    | FreeParking
    | GoToJail
    | Property(group: Byte, index: Byte)
    | Rail(rail: Byte)
    | Utility(utility: Byte)
    | CommunityChest(chest: Byte)
    | Chance(chance: Byte)
    | Tax(tax: Byte)

  const SPACECOUNT: nat := 40

  const SPACES: seq<Space> := [
    Go, Property(0, 0), CommunityChest(0), Property(0, 1), Tax(0),
    Rail(0), Property(1, 0), Chance(0), Property(1, 1), Property(1, 2),
    Visit, Property(2, 0), Utility(0), Property(2, 1), Property(2, 2),
    Rail(1), Property(3, 0), CommunityChest(1), Property(3, 1), Property(3, 2),
    FreeParking, Property(4, 0), Chance(1), Property(4, 1), Property(4, 2),
    Rail(2), Property(5, 0), Property(5, 1), Utility(1), Property(5, 2),
    GoToJail, Property(6, 0), Property(6, 1), CommunityChest(2), Property(6, 2),
    Rail(3), Chance(2), Property(7, 0), Tax(1), Property(7, 1)
  ]

  /** Board positions of the spaces the game rules refer to by kind. */
  const GO: nat := 0
  const VISIT: nat := 10
  const GOTOJAIL: nat := 30

  /** Category of a space; a property group above 7 is a programming error. */
  function SetOf(s: Space): (r: PS.PropertySet)
    requires s.Property? ==> s.group < 8
    ensures s.Property? ==> r == PS.COLOURS[s.group]
    ensures r == PS.Other <==> s in {Go, Visit, FreeParking, GoToJail}
    ensures r == PS.Station <==> s.Rail?
    ensures r == PS.Utility <==> s.Utility?
    ensures r == PS.Chance <==> s.Chance?
    ensures r == PS.CommunityChest <==> s.CommunityChest?
    ensures r == PS.Tax <==> s.Tax?
  {
    match s
    case Go => PS.Other
    case Visit => PS.Other
    case FreeParking => PS.Other
    case GoToJail => PS.Other
    case Property(g, _) =>
      if g == 0 then PS.Brown else if g == 1 then PS.LightBlue else if g == 2 then PS.Pink
      else if g == 3 then PS.Orange else if g == 4 then PS.Red else if g == 5 then PS.Yellow
      else if g == 6 then PS.Green else PS.DarkBlue
    case Rail(_) => PS.Station
    case Utility(_) => PS.Utility
    case CommunityChest(_) => PS.CommunityChest
    case Chance(_) => PS.Chance
    case Tax(_) => PS.Tax
  }

  /** Every board space has a category: no property on the board has a group above 7. */
  lemma BoardGroupsInRange(p: nat)
    requires p < SPACECOUNT
    ensures SPACES[p].Property? ==> SPACES[p].group < 8
  {
  }

  /** The 8-bit additions in `ShortDesc` do not overflow. */
  predicate Describable(s: Space)
  {
    match s
    case Property(g, i) => g + 'A' as int < 256 && i < 255
    case Rail(i) => i < 255
    case Utility(i) => i < 255
    case CommunityChest(i) => i < 255
    case Chance(i) => i < 255
    case Tax(i) => i < 255
    case _ => true
  }

  /** Short label: "Go", "Jail", "Free", "ToJail", a group letter with a 1-based index, "R1", "U1", "CC1", "CH1", "T1". */
  function ShortDesc(s: Space): (r: string)
    requires Describable(s)
    ensures |r| >= 2
  {
    match s
    case Go => "Go"
    case Visit => "Jail"
    case FreeParking => "Free"
    case GoToJail => "ToJail"
    case Property(g, i) => [(g + 'A' as int) as char] + NatToString(i + 1)
    case Rail(i) => ['R'] + NatToString(i + 1)
    case Utility(i) => ['U'] + NatToString(i + 1)
    case CommunityChest(i) => ['C', 'C'] + NatToString(i + 1)
    case Chance(i) => ['C', 'H'] + NatToString(i + 1)
    case Tax(i) => ['T'] + NatToString(i + 1)
  }

  predicate AllDigits(s: string)
  {
    forall k :: 0 <= k < |s| ==> '0' <= s[k] <= '9'
  }

  /** A 1-based decimal number naming a 0-based byte index. */
  function ParseIndex(s: string): (r: Option<Byte>)
    ensures r.Some? ==> AllDigits(s) && StringToNat(s) == r.value + 1
  {
    if s != [] && AllDigits(s) && 1 <= StringToNat(s) <= 256 then Some(StringToNat(s) - 1) else None
  }

  /** Reads a short label back; the inverse of `ShortDesc` on the colour groups of the board. */
  function ParseShortDesc(s: string): (r: Option<Space>)
  {
    if s == "Go" then Some(Go)
    else if s == "Jail" then Some(Visit)
    else if s == "Free" then Some(FreeParking)
    else if s == "ToJail" then Some(GoToJail)
    else if |s| >= 2 && s[..2] == "CC" then
      match ParseIndex(s[2..]) case Some(i) => Some(Space.CommunityChest(i)) case None => None
    else if |s| >= 2 && s[..2] == "CH" then
      match ParseIndex(s[2..]) case Some(i) => Some(Space.Chance(i)) case None => None
    else if |s| >= 1 && s[0] == 'R' then
      match ParseIndex(s[1..]) case Some(i) => Some(Space.Rail(i)) case None => None
    else if |s| >= 1 && s[0] == 'U' then
      match ParseIndex(s[1..]) case Some(i) => Some(Space.Utility(i)) case None => None
    else if |s| >= 1 && s[0] == 'T' then
      match ParseIndex(s[1..]) case Some(i) => Some(Space.Tax(i)) case None => None
    else if |s| >= 1 && 'A' <= s[0] <= 'H' then
      match ParseIndex(s[1..]) case Some(i) => Some(Space.Property(s[0] as int - 'A' as int, i)) case None => None
    else None
  }

  lemma {:induction false} ParseIndexRoundTrip(i: Byte)
    requires i < 255
    ensures ParseIndex(NatToString(i + 1)) == Some(i)
  {
    NatToStringRoundTrip(i + 1);
  }

  /** A label made of a one-letter prefix and a 1-based index. */
  lemma LetterLabel(c: char, i: Byte)
    requires i < 255
    ensures ([c] + NatToString(i + 1))[0] == c && ([c] + NatToString(i + 1))[1..] == NatToString(i + 1)
    ensures ([c] + NatToString(i + 1)) !in {"Go", "Jail", "Free", "ToJail"}
    ensures |[c] + NatToString(i + 1)| < 2 || ([c] + NatToString(i + 1))[..2] !in {"CC", "CH"}
  {
    var r := [c] + NatToString(i + 1);
    assert r[1] == NatToString(i + 1)[0];
  }

  /** A label made of a two-letter prefix and a 1-based index. */
  lemma PairLabel(c: char, d: char, i: Byte)
    requires i < 255
    ensures ([c, d] + NatToString(i + 1))[..2] == [c, d] && ([c, d] + NatToString(i + 1))[2..] == NatToString(i + 1)
    ensures ([c, d] + NatToString(i + 1)) !in {"Go", "Jail", "Free", "ToJail"}
  {
    var r := [c, d] + NatToString(i + 1);
    assert r[2] == NatToString(i + 1)[0];
  }

  lemma RailLabel(i: Byte)
    requires i < 255
    ensures ParseShortDesc(['R'] + NatToString(i + 1)) == Some(Space.Rail(i))
  {
    LetterLabel('R', i);
    ParseIndexRoundTrip(i);
  }

  lemma UtilityLabel(i: Byte)
    requires i < 255
    ensures ParseShortDesc(['U'] + NatToString(i + 1)) == Some(Space.Utility(i))
  {
    LetterLabel('U', i);
    ParseIndexRoundTrip(i);
  }

  lemma TaxLabel(i: Byte)
    requires i < 255
    ensures ParseShortDesc(['T'] + NatToString(i + 1)) == Some(Space.Tax(i))
  {
    LetterLabel('T', i);
    ParseIndexRoundTrip(i);
  }

  lemma ChestLabel(i: Byte)
    requires i < 255
    ensures ParseShortDesc(['C', 'C'] + NatToString(i + 1)) == Some(Space.CommunityChest(i))
  {
    PairLabel('C', 'C', i);
    ParseIndexRoundTrip(i);
  }

  lemma ChanceLabel(i: Byte)
    requires i < 255
    ensures ParseShortDesc(['C', 'H'] + NatToString(i + 1)) == Some(Space.Chance(i))
  {
    PairLabel('C', 'H', i);
    ParseIndexRoundTrip(i);
  }

  lemma PropertyLabel(g: Byte, i: Byte)
    requires g < 8 && i < 255
    ensures ParseShortDesc([(g + 'A' as int) as char] + NatToString(i + 1)) == Some(Space.Property(g, i))
  {
    LetterLabel((g + 'A' as int) as char, i);
    ParseIndexRoundTrip(i);
  }

  /** Short labels of colour-group spaces read back to the space they describe. */
  lemma ShortDescRoundTrip(s: Space)
    requires Describable(s) && (s.Property? ==> s.group < 8)
    ensures ParseShortDesc(ShortDesc(s)) == Some(s)
  {
    match s
    case Property(g, i) => PropertyLabel(g, i);
    case Rail(i) => RailLabel(i);
    case Utility(i) => UtilityLabel(i);
    case Tax(i) => TaxLabel(i);
    case CommunityChest(i) => ChestLabel(i);
    case Chance(i) => ChanceLabel(i);
    case _ =>
  }

  /** Every board space can be labelled. */
  lemma BoardDescribable(p: nat)
    requires p < SPACECOUNT
    ensures Describable(SPACES[p])
  {
    PositionOfAt(p);
  }

  /** The short label of the space at board position `p`. */
  function Label(p: nat): (r: string)
    requires p < SPACECOUNT
    ensures |r| >= 2
  {
    BoardDescribable(p);
    ShortDesc(SPACES[p])
  }

  /** A board label is made of letters and digits only. */
  lemma LabelAvoids(p: nat, stops: set<char>)
    requires p < SPACECOUNT
    requires forall c :: c in stops ==> !('0' <= c <= '9') && !('A' <= c <= 'Z') && !('a' <= c <= 'z')
    ensures Avoids(Label(p), stops)
  {
    BoardGroupsInRange(p);
    BoardDescribable(p);
    match SPACES[p]
    case Property(g, i) => DigitsAvoid(i + 1, stops);
    case Rail(i) => DigitsAvoid(i + 1, stops);
    case Utility(i) => DigitsAvoid(i + 1, stops);
    case CommunityChest(i) => DigitsAvoid(i + 1, stops);
    case Chance(i) => DigitsAvoid(i + 1, stops);
    case Tax(i) => DigitsAvoid(i + 1, stops);
    case _ =>
  }

  /** Distinct board spaces have distinct short labels: the label names its position. */
  lemma LabelInjective(i: nat, j: nat)
    requires i < SPACECOUNT && j < SPACECOUNT && Label(i) == Label(j)
    ensures i == j
  {
    BoardGroupsInRange(i);
    BoardGroupsInRange(j);
    BoardDescribable(i);
    BoardDescribable(j);
    ShortDescRoundTrip(SPACES[i]);
    ShortDescRoundTrip(SPACES[j]);
    PositionOfAt(i);
    PositionOfAt(j);
  }

  /** Where each space of the board sits; -1 for spaces that are not on the board. */
  ghost function PositionOf(s: Space): int
  {
    match s
    case Go => 0
    case Visit => 10
    case FreeParking => 20
    case GoToJail => 30
    case Rail(r) => if r < 4 then 5 + 10 * r else -1
    case Utility(u) => if u == 0 then 12 else if u == 1 then 28 else -1
    case CommunityChest(c) => if c == 0 then 2 else if c == 1 then 17 else if c == 2 then 33 else -1
    case Chance(c) => if c == 0 then 7 else if c == 1 then 22 else if c == 2 then 36 else -1
    case Tax(t) => if t == 0 then 4 else if t == 1 then 38 else -1
    case Property(g, k) =>
      var row :=
        if g == 0 then [1, 3] else if g == 1 then [6, 8, 9] else if g == 2 then [11, 13, 14]
        else if g == 3 then [16, 18, 19] else if g == 4 then [21, 23, 24] else if g == 5 then [26, 27, 29]
        else if g == 6 then [31, 32, 34] else if g == 7 then [37, 39] else [];
      if k < |row| then row[k] else -1
  }

  lemma PositionOfAt(p: nat)
    requires p < SPACECOUNT
    ensures PositionOf(SPACES[p]) == p
  {
  }

  /** No space appears twice on the board. */
  lemma SpacesDistinct(i: nat, j: nat)
    requires i < SPACECOUNT && j < SPACECOUNT && SPACES[i] == SPACES[j]
    ensures i == j
  {
    PositionOfAt(i);
    PositionOfAt(j);
  }

  /** The special spaces sit exactly where the rules expect them. */
  lemma BoardLayout(p: nat)
    requires p < SPACECOUNT
    ensures SPACES[p] == Go <==> p == GO
    ensures SPACES[p] == Visit <==> p == VISIT
    ensures SPACES[p] == FreeParking <==> p == 20
    ensures SPACES[p] == GoToJail <==> p == GOTOJAIL
    ensures SPACES[p].Chance? <==> p in {7, 22, 36}
    ensures SPACES[p].CommunityChest? <==> p in {2, 17, 33}
    ensures SPACES[p].Rail? <==> p in {5, 15, 25, 35}
    ensures SPACES[p].Utility? <==> p in {12, 28}
  {
    PositionOfAt(p);
  }

  /** First index at or after `from` that holds `s`. */
  function FindFrom(s: Space, from: nat): (r: nat)
    requires exists k :: from <= k < SPACECOUNT && SPACES[k] == s
    ensures from <= r < SPACECOUNT && SPACES[r] == s
    ensures forall k :: from <= k < r ==> SPACES[k] != s
    decreases SPACECOUNT - from
  {
    if SPACES[from] == s then from else FindFrom(s, from + 1)
  }

  /** GoToJail is the one space at index 30. */
  lemma GoToJailAt(p: nat)
    requires p < SPACECOUNT
    ensures SPACES[p] == GoToJail <==> p == GOTOJAIL
  {
    BoardLayout(p);
  }

  /** `find`: the index of the first board space equal to `s`; a missing space is a programming error. */
  function Find(s: Space): (r: nat)
    requires s in SPACES
    ensures r < SPACECOUNT && SPACES[r] == s
    ensures forall k :: 0 <= k < r ==> SPACES[k] != s
  {
    FindFrom(s, 0)
  }

  /** `find` inverts board indexing. */
  lemma FindIsIndex(p: nat)
    requires p < SPACECOUNT
    ensures Find(SPACES[p]) == p
  {
    SpacesDistinct(Find(SPACES[p]), p);
  }

  /** The space `k` steps ahead of `position` on `board` satisfies `check`. */
  predicate Hit(board: seq<Space>, position: nat, check: Space -> bool, k: nat)
    requires |board| == SPACECOUNT
  {
    check(board[(position + k) % SPACECOUNT])
  }

  /** Some space 1..39 steps ahead of `position` on `board` satisfies `check`. */
  ghost predicate SomeAhead(board: seq<Space>, position: nat, check: Space -> bool)
    requires |board| == SPACECOUNT
  {
    exists k :: 1 <= k < SPACECOUNT && Hit(board, position, check, k)
  }

  /** The scan of `find_next` from offset `k` on. */
  function ScanFrom(board: seq<Space>, position: nat, check: Space -> bool, k: nat): (r: nat)
    requires |board| == SPACECOUNT && 1 <= k <= SPACECOUNT
    requires exists j :: k <= j < SPACECOUNT && Hit(board, position, check, j)
    ensures k <= r < SPACECOUNT && Hit(board, position, check, r)
    ensures forall j :: k <= j < r ==> !Hit(board, position, check, j)
    decreases SPACECOUNT - k
  {
    if Hit(board, position, check, k) then k
    else
      assert exists j :: k + 1 <= j < SPACECOUNT && Hit(board, position, check, j) by {
        var j :| k <= j < SPACECOUNT && Hit(board, position, check, j);
        assert j != k;
      }
      ScanFrom(board, position, check, k + 1)
  }

  /** Circular distance going forward from `position` to `target`. */
  function Steps(position: nat, target: nat): nat
  {
    (target + SPACECOUNT - position % SPACECOUNT) % SPACECOUNT
  }

  lemma StepsAhead(position: nat, k: nat)
    requires 1 <= k < SPACECOUNT
    ensures (position + k) % SPACECOUNT != position % SPACECOUNT
    ensures Steps(position, (position + k) % SPACECOUNT) == k
  {
    var q := position % SPACECOUNT;
    var a := position / SPACECOUNT;
    assert position == SPACECOUNT * a + q;
    if q + k < SPACECOUNT {
      assert (position + k) % SPACECOUNT == q + k;
    } else {
      assert position + k == SPACECOUNT * (a + 1) + (q + k - SPACECOUNT);
      assert (position + k) % SPACECOUNT == q + k - SPACECOUNT;
    }
  }

  lemma StepsBack(position: nat, target: nat)
    requires target < SPACECOUNT && target != position % SPACECOUNT
    ensures 1 <= Steps(position, target) < SPACECOUNT
    ensures (position + Steps(position, target)) % SPACECOUNT == target
  {
    var q := position % SPACECOUNT;
    var a := position / SPACECOUNT;
    assert position == SPACECOUNT * a + q;
    if q < target {
      assert Steps(position, target) == target - q;
    } else {
      assert Steps(position, target) == target + SPACECOUNT - q;
      assert position + target + SPACECOUNT - q == SPACECOUNT * (a + 1) + target;
    }
  }

  /** The first space strictly ahead of `position` on `board`, going round, that satisfies `check`. */
  function NextOn(board: seq<Space>, position: nat, check: Space -> bool): (r: nat)
    requires |board| == SPACECOUNT && SomeAhead(board, position, check)
    ensures r < SPACECOUNT && check(board[r]) && r != position % SPACECOUNT
    ensures 1 <= Steps(position, r) && forall j :: 1 <= j < Steps(position, r) ==> !Hit(board, position, check, j)
  {
    var k := ScanFrom(board, position, check, 1);
    StepsAhead(position, k);
    (position + k) % SPACECOUNT
  }

  /**
   * `find_next`: the first space strictly ahead of `position`, going round the board,
   * that satisfies `check`; the space at `position` itself is never considered, and a
   * board without such a space is a programming error.
   */
  function FindNext(position: nat, check: Space -> bool): (r: nat)
    requires SomeAhead(SPACES, position, check)
    ensures r < SPACECOUNT && check(SPACES[r]) && r != position % SPACECOUNT
    ensures 1 <= Steps(position, r) && forall j :: 1 <= j < Steps(position, r) ==> !Hit(SPACES, position, check, j)
  {
    NextOn(SPACES, position, check)
  }

  function IsRail(s: Space): bool { s.Rail? }

  function IsUtility(s: Space): bool { s.Utility? }

  /** Steps from `position` to the nearest rail ahead. */
  function RailSteps(position: nat): (k: nat)
    ensures 1 <= k <= 10 && (position + k) % 10 == 5
  {
    if position % 10 < 5 then 5 - position % 10 else 15 - position % 10
  }

  /** No rail is nearer than `RailSteps`. */
  lemma RailStepsLeast(position: nat, j: nat)
    requires 1 <= j && (position + j) % 10 == 5
    ensures RailSteps(position) <= j
  {
    var q := position % 10;
    var a := position / 10;
    assert position == 10 * a + q;
    assert position + j == 10 * a + (q + j);
  }

  /** Rails stand on every position ending in 5. */
  ghost predicate RailsEveryTen(board: seq<Space>)
  {
    |board| == SPACECOUNT && forall t :: 0 <= t < SPACECOUNT ==> (board[t].Rail? <==> t % 10 == 5)
  }

  lemma BoardRails()
    ensures RailsEveryTen(SPACES)
  {
    forall t | 0 <= t < SPACECOUNT
      ensures SPACES[t].Rail? <==> t % 10 == 5
    {
      BoardLayout(t);
    }
  }

  lemma ModTen(x: nat)
    ensures x % SPACECOUNT % 10 == x % 10
  {
    var a := x / SPACECOUNT;
    var b := x % SPACECOUNT;
    assert x == 10 * (4 * a) + b;
  }

  lemma NearestRailOn(board: seq<Space>, position: nat)
    requires RailsEveryTen(board)
    ensures SomeAhead(board, position, IsRail)
    ensures NextOn(board, position, IsRail) == (position + RailSteps(position)) % SPACECOUNT
  {
    var k := RailSteps(position);
    ModTen(position + k);
    assert Hit(board, position, IsRail, k);
    var r := NextOn(board, position, IsRail);
    var n := Steps(position, r);
    StepsBack(position, r);
    assert IsRail(board[r]);
    ModTen(position + n);
    RailStepsLeast(position, n);
  }

  /** `next_rail`: the nearest rail strictly ahead, wrapping past Go. */
  function NextRail(position: nat): (r: nat)
    ensures r < SPACECOUNT && SPACES[r].Rail?
    ensures r == (position + RailSteps(position)) % SPACECOUNT
  {
    BoardRails();
    NearestRailOn(SPACES, position);
    var r := FindNext(position, IsRail);
    assert IsRail(SPACES[r]);
    r
  }

  /** Utilities stand on positions 12 and 28 only. */
  ghost predicate UtilitiesAt(board: seq<Space>)
  {
    |board| == SPACECOUNT && forall t :: 0 <= t < SPACECOUNT ==> (board[t].Utility? <==> t in {12, 28})
  }

  lemma BoardUtilities()
    ensures UtilitiesAt(SPACES)
  {
    forall t | 0 <= t < SPACECOUNT
      ensures SPACES[t].Utility? <==> t in {12, 28}
    {
      BoardLayout(t);
    }
  }

  /** Steps from `position` to the nearest utility ahead. */
  function UtilitySteps(position: nat): (k: nat)
    ensures 1 <= k < SPACECOUNT && (position + k) % SPACECOUNT in {12, 28}
  {
    var q := position % SPACECOUNT;
    var a := position / SPACECOUNT;
    assert position == SPACECOUNT * a + q;
    if q < 12 then 12 - q else if q < 28 then 28 - q else 52 - q
  }

  /** No utility is nearer than `UtilitySteps`. */
  lemma UtilityStepsLeast(position: nat, j: nat)
    requires 1 <= j && (position + j) % SPACECOUNT in {12, 28}
    ensures UtilitySteps(position) <= j
  {
    var q := position % SPACECOUNT;
    var a := position / SPACECOUNT;
    assert position == SPACECOUNT * a + q;
    assert position + j == SPACECOUNT * a + (q + j);
  }

  lemma NearestUtilityOn(board: seq<Space>, position: nat)
    requires UtilitiesAt(board)
    ensures SomeAhead(board, position, IsUtility)
    ensures NextOn(board, position, IsUtility) == (position + UtilitySteps(position)) % SPACECOUNT
  {
    var k := UtilitySteps(position);
    assert Hit(board, position, IsUtility, k);
    var r := NextOn(board, position, IsUtility);
    var n := Steps(position, r);
    StepsBack(position, r);
    assert IsUtility(board[r]);
    UtilityStepsLeast(position, n);
  }

  /** `next_util`: the nearest utility strictly ahead, wrapping past Go. */
  function NextUtil(position: nat): (r: nat)
    ensures r < SPACECOUNT && SPACES[r].Utility?
    ensures r == (position + UtilitySteps(position)) % SPACECOUNT
  {
    BoardUtilities();
    NearestUtilityOn(SPACES, position);
    var r := FindNext(position, IsUtility);
    assert IsUtility(SPACES[r]);
    r
  }

  /** The rail the "advance to the nearest station" card reaches from each Chance space. */
  lemma NearestRailFromChance()
    ensures NextRail(7) == 15 && NextRail(22) == 25 && NextRail(36) == 5
  {
    assert RailSteps(7) == 8 && RailSteps(22) == 3 && RailSteps(36) == 9;
  }

  /** The utility the "advance to the nearest utility" card reaches from each Chance space. */
  lemma NearestUtilityFromChance()
    ensures NextUtil(7) == 12 && NextUtil(22) == 28 && NextUtil(36) == 12
  {
    assert UtilitySteps(7) == 5 && UtilitySteps(22) == 6 && UtilitySteps(36) == 16;
  }
}
