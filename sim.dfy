/**
 * The Monte Carlo simulator's turn logic. A `Game` value holds the counters the
 * simulator keeps; the functions below say what each step of a turn does to it,
 * and the class `Board` performs those steps in place.
 */
module Simulation {
  import opened Spaces
  import CH = ChanceCards
  import CC = ChestCards
  import Dice
  import States
  import MR = MoveReasons

  /** How a card is chosen: take the front of the deck and put it at the back, or a card the caller fixes. */
  datatype ChanceChoice = NextChance | FixedChance(chcard: CH.CHCard)
  datatype ChestChoice = NextChest | FixedChest(cccard: CC.CCCard)

  /** What stays fixed for a board: the jail strategy and the two card choosers. */
  datatype Rules = Rules(strategy: States.Strategy, chChoose: ChanceChoice, ccChoose: ChestChoice)

  type Throw = (Dice.DiceValue, Dice.DiceValue)

  /** The state a board updates. */
  datatype Game = Game(
    position: nat,
    jailroll: nat,
    ccdeck: seq<CC.CCCard>,
    chdeck: seq<CH.CHCard>,
    arrivals: seq<nat>,
    arrivalReason: seq<seq<nat>>,
    moves: nat,
    turns: nat,
    doubles: seq<nat>,
    rollFreq: seq<nat>)

  // ---------------------------------------------------------------------------
  // Counting

  /** The total of a row of counters, as `iter().sum()` adds them up. */
  function CountSum(s: seq<nat>): nat
  {
    if s == [] then 0 else s[0] + CountSum(s[1..])
  }

  /** Adding one to an entry adds one to the sum. */
  lemma {:induction false} CountSumBump(s: seq<nat>, i: nat)
    requires i < |s|
    ensures CountSum(s[i := s[i] + 1]) == CountSum(s) + 1
  {
    var t := s[i := s[i] + 1];
    if i == 0 {
      assert t[1..] == s[1..];
    } else {
      assert t[1..] == s[1..][i - 1 := s[i] + 1];
      CountSumBump(s[1..], i - 1);
    }
  }

  /** The per-space row sums of the arrival-reason table. */
  function RowSums(rows: seq<seq<nat>>): (r: seq<nat>)
    ensures |r| == |rows| && forall p :: 0 <= p < |rows| ==> r[p] == CountSum(rows[p])
  {
    seq(|rows|, p requires 0 <= p < |rows| => CountSum(rows[p]))
  }

  /** Every arrival reason recorded anywhere. */
  function ReasonTotal(rows: seq<seq<nat>>): nat
  {
    CountSum(RowSums(rows))
  }

  /** Adding one to a cell of the table adds one to the total. */
  lemma ReasonBump(rows: seq<seq<nat>>, p: nat, c: nat)
    requires p < |rows| && c < |rows[p]|
    ensures ReasonTotal(rows[p := rows[p][c := rows[p][c] + 1]]) == ReasonTotal(rows) + 1
  {
    var row := rows[p][c := rows[p][c] + 1];
    CountSumBump(rows[p], c);
    CountSumBump(RowSums(rows), p);
    assert RowSums(rows[p := row]) == RowSums(rows)[p := CountSum(rows[p]) + 1];
  }

  // ---------------------------------------------------------------------------
  // The decks

  /** `pop_front` then `push_back`: the front card moves to the back. */
  function Rotate<T>(deck: seq<T>): (r: seq<T>)
    requires deck != []
    ensures |r| == |deck| && multiset(r) == multiset(deck)
    ensures r[|r| - 1] == deck[0] && forall k :: 0 <= k < |r| - 1 ==> r[k] == deck[k + 1]
  {
    assert deck == [deck[0]] + deck[1..];
    deck[1..] + [deck[0]]
  }

  /** The deck after `k` draws. */
  function Rotations<T>(deck: seq<T>, k: nat): (r: seq<T>)
    requires deck != []
    ensures |r| == |deck|
  {
    if k == 0 then deck else Rotate(Rotations(deck, k - 1))
  }

  /** After `k` draws the first `k` cards have moved, in order, behind the rest. */
  lemma {:induction false} RotationsSplit<T>(deck: seq<T>, k: nat)
    requires deck != [] && k <= |deck|
    ensures Rotations(deck, k) == deck[k..] + deck[..k]
  {
    if k > 0 {
      RotationsSplit(deck, k - 1);
      var before := deck[k - 1..] + deck[..k - 1];
      assert before[0] == deck[k - 1];
      assert before[1..] == deck[k..] + deck[..k - 1];
      assert deck[..k] == deck[..k - 1] + [deck[k - 1]];
    }
  }

  /** A full cycle of draws brings the deck back to its order, so each card is drawn once per cycle. */
  lemma DeckCycles<T>(deck: seq<T>)
    requires deck != []
    ensures Rotations(deck, |deck|) == deck
    ensures forall k :: 0 <= k < |deck| ==> Rotations(deck, k)[0] == deck[k]
  {
    RotationsSplit(deck, |deck|);
    forall k | 0 <= k < |deck|
      ensures Rotations(deck, k)[0] == deck[k]
    {
      RotationsSplit(deck, k);
    }
  }

  lemma RotateOnBoard(deck: seq<CH.CHCard>)
    requires deck != []
    ensures CH.CardsOnBoard(deck) ==> CH.CardsOnBoard(Rotate(deck))
  {
  }

  /** `(self.chcardchoose)(self)`: the card drawn, and the deck afterwards. */
  function PickChance(deck: seq<CH.CHCard>, choice: ChanceChoice): (r: (CH.CHCard, seq<CH.CHCard>))
    requires deck != []
    ensures r.1 != [] && multiset(r.1) == multiset(deck)
    ensures CH.CardsOnBoard(deck) ==> CH.CardsOnBoard(r.1)
    ensures CH.CardsOnBoard(deck) && (choice.FixedChance? ==> CH.CardOnBoard(choice.chcard)) ==> CH.CardOnBoard(r.0)
  {
    match choice
    case NextChance =>
      RotateOnBoard(deck);
      (deck[0], Rotate(deck))
    case FixedChance(card) => (card, deck)
  }

  /** `(self.cccardchoose)(self)`. */
  function PickChest(deck: seq<CC.CCCard>, choice: ChestChoice): (r: (CC.CCCard, seq<CC.CCCard>))
    requires deck != []
    ensures r.1 != [] && multiset(r.1) == multiset(deck)
  {
    match choice
    case NextChest => (deck[0], Rotate(deck))
    case FixedChest(card) => (card, deck)
  }

  // ---------------------------------------------------------------------------
  // Where cards send the player

  /**
   * How many more moves a jump from `s` can set off: two from Chance (Back3 from 36
   * reaches Community Chest), one from Community Chest or GoToJail, none elsewhere.
   */
  function Depth(s: Space): (d: nat)
    ensures d <= 2 && (d == 0 <==> !s.Chance? && !s.CommunityChest? && s != GoToJail)
  {
    if s.Chance? then 2 else if s.CommunityChest? || s == GoToJail then 1 else 0
  }

  /** The board index a Chance card sends the player to from `position`, or none for a blank. */
  function ChanceDest(card: CH.CHCard, position: nat): (r: Option<nat>)
    requires position < SPACECOUNT && SPACES[position].Chance? && CH.CardOnBoard(card)
    ensures r.None? <==> card == CH.Inconsequential
    ensures r.Some? ==> r.value < SPACECOUNT && Depth(SPACES[r.value]) < Depth(SPACES[position])
  {
    BoardLayout(position);
    match card
    case GoGo => FoundSpaces(); Some(GO)
    case GoJail => FoundSpaces(); Some(VISIT)
    case GoProperty(group, n) => Some(Find(Property(group, n)))
    case GoRail(n) => Some(Find(Rail(n)))
    case GoNextRail => Some(NextRail(position))
    case GoNextUtil => Some(NextUtil(position))
    case Back3 =>
      BoardLayout(position - 3);
      Some(position - 3)
    case Inconsequential => None
  }

  /** The board index a Community Chest card sends the player to, or none for a blank. */
  function ChestDest(card: CC.CCCard): (r: Option<nat>)
    ensures r.None? <==> card == CC.Inconsequential
    ensures r.Some? ==> r.value < SPACECOUNT && Depth(SPACES[r.value]) == 0
  {
    match card
    case GoGo => Some(GO)
    case GoJail => Some(VISIT)
    case Inconsequential => None
  }

  /** `find(Go)` and `find(Jail)`, which the cards and GoToJail use, are the indices 0 and 10. */
  lemma FoundSpaces()
    ensures Find(Go) == GO && Find(Visit) == VISIT
    ensures Depth(SPACES[GO]) == 0 && Depth(SPACES[VISIT]) == 0
  {
    var go, visit := Find(Go), Find(Visit);
    BoardLayout(go);
    BoardLayout(visit);
  }

  // ---------------------------------------------------------------------------
  // A new board

  /** `n` zero counters. */
  function Zeros(n: nat): (r: seq<nat>)
    ensures |r| == n && forall i :: 0 <= i < n ==> r[i] == 0
  {
    seq(n, _ => 0)
  }

  /** `rows` rows of `width` zero counters. */
  function ZeroRows(rows: nat, width: nat): (r: seq<seq<nat>>)
    ensures |r| == rows && forall i :: 0 <= i < rows ==> r[i] == Zeros(width)
  {
    seq(rows, _ => Zeros(width))
  }

  lemma {:induction false} CountSumZeros(n: nat)
    ensures CountSum(Zeros(n)) == 0
  {
    if n > 0 {
      assert Zeros(n)[1..] == Zeros(n - 1);
      CountSumZeros(n - 1);
    }
  }

  /** The state of `Board::new` once both decks are shuffled: at Go, out of jail, nothing counted. */
  function NewGame(ccdeck: seq<CC.CCCard>, chdeck: seq<CH.CHCard>): (g: Game)
    ensures Shaped(g) && g.position == GO && g.jailroll == 0 && g.turns == 0 && g.moves == 0
    ensures g.ccdeck == ccdeck && g.chdeck == chdeck
  {
    Game(GO, 0, ccdeck, chdeck, Zeros(SPACECOUNT), ZeroRows(SPACECOUNT, MR.COUNT), 0, 0, Zeros(3), Zeros(11))
  }

  /** A new board with a full deck of each kind is sound under the front-of-deck choosers. */
  lemma NewGameSound(ccdeck: seq<CC.CCCard>, chdeck: seq<CH.CHCard>, strategy: States.Strategy)
    requires multiset(ccdeck) == multiset(CC.SPECIALS + CC.PADDING)
    requires multiset(chdeck) == multiset(CH.SPECIALS + CH.PADDING)
    ensures Sound(NewGame(ccdeck, chdeck), Rules(strategy, NextChance, NextChest))
  {
    NewGameReady(ccdeck, chdeck, strategy);
    CountSumZeros(SPACECOUNT);
    CountSumZeros(3);
    CountSumZeros(11);
    ZeroReasons();
  }

  lemma NewGameReady(ccdeck: seq<CC.CCCard>, chdeck: seq<CH.CHCard>, strategy: States.Strategy)
    requires multiset(ccdeck) == multiset(CC.SPECIALS + CC.PADDING)
    requires multiset(chdeck) == multiset(CH.SPECIALS + CH.PADDING)
    ensures Ready(NewGame(ccdeck, chdeck), Rules(strategy, NextChance, NextChest))
  {
    CH.ShuffledOnBoard(chdeck);
    SameSize(ccdeck, CC.SPECIALS + CC.PADDING);
    SameSize(chdeck, CH.SPECIALS + CH.PADDING);
  }

  lemma SameSize<T>(a: seq<T>, b: seq<T>)
    requires multiset(a) == multiset(b)
    ensures |a| == |b|
  {
    assert |multiset(a)| == |multiset(b)|;
  }

  lemma ZeroReasons()
    ensures ReasonTotal(ZeroRows(SPACECOUNT, MR.COUNT)) == 0
  {
    CountSumZeros(MR.COUNT);
    CountSumZeros(SPACECOUNT);
    assert RowSums(ZeroRows(SPACECOUNT, MR.COUNT)) == Zeros(SPACECOUNT);
  }

  // ---------------------------------------------------------------------------
  // Well-formed games

  /** The fixed sizes: 40 spaces, 7 reasons, 3 double counts, 11 totals. */
  predicate Shaped(g: Game)
  {
    g.position < SPACECOUNT
    && |g.arrivals| == SPACECOUNT && |g.arrivalReason| == SPACECOUNT
    && (forall p :: 0 <= p < SPACECOUNT ==> |g.arrivalReason[p]| == MR.COUNT)
    && |g.doubles| == 3 && |g.rollFreq| == 11
  }

  /** Sizes hold, both decks have a card to draw, and every Chance card names a board space. */
  ghost predicate Ready(g: Game, rules: Rules)
  {
    Shaped(g) && g.ccdeck != [] && g.chdeck != [] && CH.CardsOnBoard(g.chdeck)
    && (rules.chChoose.FixedChance? ==> CH.CardOnBoard(rules.chChoose.chcard))
  }

  /**
   * The counters agree: one arrival and one roll per move, at most one reason per
   * move, at most one double count per turn, and a jail roll only while in jail.
   */
  ghost predicate Sound(g: Game, rules: Rules)
  {
    Ready(g, rules)
    && CountSum(g.arrivals) == g.moves && CountSum(g.rollFreq) == g.moves
    && ReasonTotal(g.arrivalReason) <= g.moves
    && CountSum(g.doubles) <= g.turns
    && Jailed(g)
  }

  /** The jail roll counts at most three waits, and is only set at the Visit space. */
  predicate Jailed(g: Game)
  {
    g.jailroll <= 3 && (g.jailroll > 0 ==> g.position == VISIT)
  }

  // ---------------------------------------------------------------------------
  // One move

  /** The arrival-reason table after an arrival at `p` for `reason`: a plain roll has no column. */
  function Recorded(rows: seq<seq<nat>>, p: nat, reason: MR.MoveReason): (r: seq<seq<nat>>)
    requires p < |rows| && |rows[p]| == MR.COUNT
    ensures |r| == |rows| && forall q :: 0 <= q < |rows| ==> |r[q]| == |rows[q]|
  {
    var d := MR.Discriminant(reason);
    if d >= 0 then rows[p := rows[p][d := rows[p][d] + 1]] else rows
  }

  /** `update_arrivals`: count an arrival at the current space, and its reason unless it is a plain roll. */
  function AfterArrival(g: Game, reason: MR.MoveReason): (r: Game)
    requires Shaped(g)
    ensures Shaped(r)
  {
    var p := g.position;
    g.(arrivals := g.arrivals[p := g.arrivals[p] + 1],
       moves := g.moves + 1,
       arrivalReason := Recorded(g.arrivalReason, p, reason))
  }

  /** Exactly one arrival and one move are counted, and a reason for everything but a roll. */
  lemma ArrivalCounts(g: Game, reason: MR.MoveReason)
    requires Shaped(g)
    ensures var r := AfterArrival(g, reason);
      r.moves == g.moves + 1
      && r.arrivals == g.arrivals[r.position := g.arrivals[r.position] + 1]
      && CountSum(r.arrivals) == CountSum(g.arrivals) + 1
      && ReasonTotal(r.arrivalReason) == ReasonTotal(g.arrivalReason) + (if reason == MR.Roll then 0 else 1)
      && (reason == MR.Roll ==> r.arrivalReason == g.arrivalReason)
  {
    CountSumBump(g.arrivals, g.position);
    if reason != MR.Roll {
      ReasonBump(g.arrivalReason, g.position, MR.Discriminant(reason));
    }
  }

  /** The jail roll `move_to` leaves on arrival: 1 when sent to the Visit space by anything but a roll. */
  function ArrivalJailroll(elem: nat, reason: MR.MoveReason): nat
    requires elem < SPACECOUNT
  {
    if SPACES[elem] == Visit && reason != MR.Roll then 1 else 0
  }

  /**
   * `move_to`: stand on `elem`; a GoToJail space or a card may send the player on,
   * and only the space where the chain stops records the arrival.
   */
  function AfterMove(g: Game, elem: nat, reason: MR.MoveReason, rules: Rules): (r: Game)
    requires Ready(g, rules) && elem < SPACECOUNT
    ensures Ready(r, rules)
    ensures r.position == elem || Depth(SPACES[r.position]) < Depth(SPACES[elem])
    ensures r.turns == g.turns && r.doubles == g.doubles && r.rollFreq == g.rollFreq
    decreases Depth(SPACES[elem]), 3
  {
    var g2 := AfterJump(g.(position := elem), rules);
    if g2.position == elem then AfterArrival(g2.(jailroll := ArrivalJailroll(elem, reason)), reason)
    else g2
  }

  /** The `match` of `move_to` on the space just reached: GoToJail, a card, or nothing. */
  function AfterJump(g: Game, rules: Rules): (r: Game)
    requires Ready(g, rules)
    ensures Ready(r, rules)
    ensures r.position == g.position || Depth(SPACES[r.position]) < Depth(SPACES[g.position])
    ensures r.turns == g.turns && r.doubles == g.doubles && r.rollFreq == g.rollFreq
    decreases Depth(SPACES[g.position]), 2
  {
    var space := SPACES[g.position];
    if space == GoToJail then AfterMove(g, VISIT, MR.GoToJail, rules)
    else if space.CommunityChest? then AfterChest(g, rules)
    else if space.Chance? then AfterChance(g, rules)
    else g
  }

  /** `draw_chance`: draw a card and follow it with reason `CHCard`; a blank leaves the player where they are. */
  function AfterChance(g: Game, rules: Rules): (r: Game)
    requires Ready(g, rules) && SPACES[g.position].Chance?
    ensures Ready(r, rules)
    ensures r.position == g.position || Depth(SPACES[r.position]) < Depth(SPACES[g.position])
    ensures r.turns == g.turns && r.doubles == g.doubles && r.rollFreq == g.rollFreq
    decreases Depth(SPACES[g.position]), 1
  {
    var drawn := PickChance(g.chdeck, rules.chChoose);
    AfterCard(g.(chdeck := drawn.1), ChanceDest(drawn.0, g.position), MR.CHCard, rules)
  }

  /** `draw_community_chest`: the same with reason `CCCard`. */
  function AfterChest(g: Game, rules: Rules): (r: Game)
    requires Ready(g, rules) && SPACES[g.position].CommunityChest?
    ensures Ready(r, rules)
    ensures r.position == g.position || Depth(SPACES[r.position]) < Depth(SPACES[g.position])
    ensures r.turns == g.turns && r.doubles == g.doubles && r.rollFreq == g.rollFreq
    decreases Depth(SPACES[g.position]), 1
  {
    var drawn := PickChest(g.ccdeck, rules.ccChoose);
    AfterCard(g.(ccdeck := drawn.1), ChestDest(drawn.0), MR.CCCard, rules)
  }

  /** The `match` on the card drawn: move to its destination with `reason`, or stay for a blank. */
  function AfterCard(g: Game, dest: Option<nat>, reason: MR.MoveReason, rules: Rules): (r: Game)
    requires Ready(g, rules)
    requires dest.Some? ==> dest.value < SPACECOUNT && Depth(SPACES[dest.value]) < Depth(SPACES[g.position])
    ensures Ready(r, rules)
    ensures r.position == g.position || Depth(SPACES[r.position]) < Depth(SPACES[g.position])
    ensures r.turns == g.turns && r.doubles == g.doubles && r.rollFreq == g.rollFreq
    decreases Depth(SPACES[g.position]), 0
  {
    match dest
    case None => g
    case Some(target) => AfterMove(g, target, reason, rules)
  }

  // ---------------------------------------------------------------------------
  // What one move records

  /** One arrival was counted, at the space where the player now stands, which is never GoToJail. */
  ghost predicate Arrived(g: Game, r: Game)
    requires Shaped(g) && Shaped(r)
  {
    r.moves == g.moves + 1
    && r.arrivals == g.arrivals[r.position := g.arrivals[r.position] + 1]
    && SPACES[r.position] != GoToJail
    && r.jailroll <= 1 && (r.jailroll == 1 ==> r.position == VISIT)
  }

  /** Nothing was counted and the jail roll is as it was. */
  predicate Unmoved(g: Game, r: Game)
  {
    r.moves == g.moves && r.arrivals == g.arrivals && r.arrivalReason == g.arrivalReason && r.jailroll == g.jailroll
  }

  /** A jump or draw either counts nothing, or counts one arrival with a reason. */
  ghost predicate Drawn(g: Game, r: Game)
    requires Shaped(g) && Shaped(r)
  {
    if r.position == g.position then Unmoved(g, r)
    else Arrived(g, r) && ReasonTotal(r.arrivalReason) == ReasonTotal(g.arrivalReason) + 1
  }

  /**
   * `move_to` counts exactly one arrival, at the end of the chain of jumps. When
   * nothing jumps the given reason is recorded there; every jump records a card or
   * GoToJail reason instead, so only an unjumped roll leaves no reason.
   */
  lemma {:induction false} MoveArrivesOnce(g: Game, elem: nat, reason: MR.MoveReason, rules: Rules)
    requires Ready(g, rules) && elem < SPACECOUNT
    ensures var r := AfterMove(g, elem, reason, rules);
      Arrived(g, r)
      && ReasonTotal(r.arrivalReason) == ReasonTotal(g.arrivalReason) + (if r.position == elem && reason == MR.Roll then 0 else 1)
      && (r.position == elem ==>
            r.arrivalReason == Recorded(g.arrivalReason, elem, reason) && r.jailroll == ArrivalJailroll(elem, reason))
    decreases Depth(SPACES[elem]), 3
  {
    var g1 := g.(position := elem);
    JumpArrives(g1, rules);
    var g2 := AfterJump(g1, rules);
    if g2.position == elem {
      Settle(g, g2, elem, reason);
    } else {
      Jumped(g, g2, elem, reason);
    }
  }

  /** When the chain of jumps moved on, its arrival is the one `move_to` counts. */
  lemma Jumped(g: Game, g2: Game, elem: nat, reason: MR.MoveReason)
    requires Shaped(g) && Shaped(g2) && elem < SPACECOUNT && g2.position != elem
    requires Drawn(g.(position := elem), g2)
    ensures Arrived(g, g2) && ReasonTotal(g2.arrivalReason) == ReasonTotal(g.arrivalReason) + 1
  {
  }

  /** The `match` of `move_to` counts nothing, or one arrival with a reason. */
  lemma {:induction false} JumpArrives(g: Game, rules: Rules)
    requires Ready(g, rules)
    ensures Drawn(g, AfterJump(g, rules))
    decreases Depth(SPACES[g.position]), 2
  {
    var space := SPACES[g.position];
    if space == GoToJail {
      FoundSpaces();
      MoveArrivesOnce(g, VISIT, MR.GoToJail, rules);
    } else if space.CommunityChest? {
      ChestArrives(g, rules);
    } else if space.Chance? {
      ChanceArrives(g, rules);
    }
  }

  lemma {:induction false} ChanceArrives(g: Game, rules: Rules)
    requires Ready(g, rules) && SPACES[g.position].Chance?
    ensures Drawn(g, AfterChance(g, rules))
    decreases Depth(SPACES[g.position]), 1
  {
    var drawn := PickChance(g.chdeck, rules.chChoose);
    CardArrives(g.(chdeck := drawn.1), ChanceDest(drawn.0, g.position), MR.CHCard, rules);
  }

  lemma {:induction false} ChestArrives(g: Game, rules: Rules)
    requires Ready(g, rules) && SPACES[g.position].CommunityChest?
    ensures Drawn(g, AfterChest(g, rules))
    decreases Depth(SPACES[g.position]), 1
  {
    var drawn := PickChest(g.ccdeck, rules.ccChoose);
    CardArrives(g.(ccdeck := drawn.1), ChestDest(drawn.0), MR.CCCard, rules);
  }

  /** A card that moves the player counts one arrival, with a reason other than a roll. */
  lemma {:induction false} CardArrives(g: Game, dest: Option<nat>, reason: MR.MoveReason, rules: Rules)
    requires Ready(g, rules) && reason != MR.Roll
    requires dest.Some? ==> dest.value < SPACECOUNT && Depth(SPACES[dest.value]) < Depth(SPACES[g.position])
    ensures Drawn(g, AfterCard(g, dest, reason, rules))
    decreases Depth(SPACES[g.position]), 0
  {
    if dest.Some? {
      MoveArrivesOnce(g, dest.value, reason, rules);
    }
  }

  /** The Visit space is the only one at index 10. */
  lemma VisitAt(p: nat)
    requires p < SPACECOUNT && SPACES[p] == Visit
    ensures p == VISIT
  {
    SpacesDistinct(p, VISIT);
  }

  /** Arriving on a space nothing jumps from counts the arrival with the reason given. */
  lemma Settle(g: Game, g2: Game, elem: nat, reason: MR.MoveReason)
    requires Shaped(g) && Shaped(g2) && Unmoved(g, g2) && g2.position == elem && SPACES[elem] != GoToJail
    ensures var r := AfterArrival(g2.(jailroll := ArrivalJailroll(elem, reason)), reason);
      Arrived(g, r)
      && ReasonTotal(r.arrivalReason) == ReasonTotal(g.arrivalReason) + (if reason == MR.Roll then 0 else 1)
      && r.arrivalReason == Recorded(g.arrivalReason, elem, reason) && r.jailroll == ArrivalJailroll(elem, reason)
  {
    if ArrivalJailroll(elem, reason) == 1 {
      VisitAt(elem);
    }
    ArrivalCounts(g2.(jailroll := ArrivalJailroll(elem, reason)), reason);
  }

  // ---------------------------------------------------------------------------
  // One turn

  /** Counting the throw `total`: `rollfreq[total - 2] += 1`. */
  function AfterThrow(g: Game, total: int): (r: Game)
    requires Shaped(g) && 2 <= total <= 12
    ensures Shaped(r)
  {
    g.(rollFreq := g.rollFreq[total - 2 := g.rollFreq[total - 2] + 1])
  }

  /** The space `total` steps ahead of `position`, going round past Go. */
  function Ahead(position: nat, total: nat): (r: nat)
    ensures r < SPACECOUNT && (r - position - total) % SPACECOUNT == 0
  {
    (position + total) % SPACECOUNT
  }

  /** A roll's move: `move_to((position + total) % 40, Roll)`. */
  function Advance(g: Game, total: nat, rules: Rules): (r: Game)
    requires Ready(g, rules)
    ensures Ready(r, rules)
    ensures r.turns == g.turns && r.doubles == g.doubles && r.rollFreq == g.rollFreq
  {
    AfterMove(g, Ahead(g.position, total), MR.Roll, rules)
  }

  /**
   * A roll from jail under `JailWait`, after the throw is counted: a double moves by
   * the total; otherwise the wait grows, and the fourth value frees the player at the
   * Visit space as a plain roll.
   */
  function AfterJailRoll(g: Game, total: nat, double: bool, rules: Rules): (r: Game)
    requires Ready(g, rules)
    ensures Ready(r, rules)
    ensures r.turns == g.turns && r.doubles == g.doubles && r.rollFreq == g.rollFreq
  {
    if double then Advance(g, total, rules)
    else if g.jailroll + 1 == 4 then AfterArrival(g.(jailroll := 0), MR.Roll)
    else AfterArrival(g.(jailroll := g.jailroll + 1), MR.NoDouble)
  }

  /** The total of a throw. */
  function Total(throw: Throw): (t: nat)
    ensures 2 <= t <= 12
  {
    throw.0 + throw.1
  }

  /**
   * The loop of `turn_with_dice` once `count` doubles have been thrown this turn:
   * the game after the remaining rolls, and the number of doubles at the end.
   * `dice` is the caller's closure, given the board and the doubles so far.
   */
  function AfterRolls(g: Game, rules: Rules, dice: (Game, nat) -> Throw, count: nat): (r: (Game, nat))
    requires Ready(g, rules) && count < 3
    ensures Ready(r.0, rules) && count <= r.1 <= 3
    ensures r.0.turns == g.turns && r.0.doubles == g.doubles
    decreases 3 - count
  {
    var total := Total(dice(g, count));
    var double := dice(g, count).0 == dice(g, count).1;
    var g1 := AfterThrow(g, total);
    if g.jailroll > 0 && rules.strategy == States.JailWait then (AfterJailRoll(g1, total, double, rules), count)
    else if double && count == 2 then (AfterMove(g1, VISIT, MR.TripleDouble, rules), 3)
    else if !double then (Advance(g1, total, rules), count)
    else if Advance(g1, total, rules).jailroll > 0 then (Advance(g1, total, rules), count + 1)
    else AfterRolls(Advance(g1, total, rules), rules, dice, count + 1)
  }

  /** `turn_with_dice`: count the turn, roll, and count a run of `k` doubles in `doubles[k - 1]`. */
  function AfterTurn(g: Game, rules: Rules, dice: (Game, nat) -> Throw): (r: Game)
    requires Ready(g, rules)
    ensures Ready(r, rules) && r.turns == g.turns + 1
  {
    var rolled := AfterRolls(g.(turns := g.turns + 1), rules, dice, 0);
    AfterRun(rolled.0, rolled.1)
  }

  /** `doubles[n - 1] += 1` for a turn that threw `n` doubles, none for a turn without. */
  function AfterRun(g: Game, n: nat): (r: Game)
    requires Shaped(g) && n <= 3
    ensures Shaped(r)
  {
    if n > 0 then g.(doubles := g.doubles[n - 1 := g.doubles[n - 1] + 1]) else g
  }

  /** One round of `AfterRolls`, case by case: the ending rolls and the roll that goes on. */
  lemma RollsCases(g: Game, rules: Rules, dice: (Game, nat) -> Throw, count: nat, total: nat, double: bool)
    requires Ready(g, rules) && count < 3
    requires total == Total(dice(g, count)) && double == (dice(g, count).0 == dice(g, count).1)
    ensures Ready(AfterThrow(g, total), rules)
    ensures g.jailroll > 0 && rules.strategy == States.JailWait ==>
      AfterRolls(g, rules, dice, count) == (AfterJailRoll(AfterThrow(g, total), total, double, rules), count)
    ensures !(g.jailroll > 0 && rules.strategy == States.JailWait) && double && count == 2 ==>
      AfterRolls(g, rules, dice, count) == (AfterMove(AfterThrow(g, total), VISIT, MR.TripleDouble, rules), 3)
    ensures !(g.jailroll > 0 && rules.strategy == States.JailWait) && !double ==>
      AfterRolls(g, rules, dice, count) == (Advance(AfterThrow(g, total), total, rules), count)
    ensures !(g.jailroll > 0 && rules.strategy == States.JailWait) && double && count < 2 ==>
      var g2 := Advance(AfterThrow(g, total), total, rules);
      AfterRolls(g, rules, dice, count) == if g2.jailroll > 0 then (g2, count + 1) else AfterRolls(g2, rules, dice, count + 1)
  {
  }

  // ---------------------------------------------------------------------------
  // What a turn records

  /**
   * `k` moves were made: each counted one arrival and one roll, and at most one
   * reason; no roll count went down, and the jail roll is still in range.
   */
  ghost predicate Tallied(g: Game, r: Game, k: nat)
    requires Shaped(g) && Shaped(r)
  {
    r.moves == g.moves + k
    && CountSum(r.arrivals) == CountSum(g.arrivals) + k
    && CountSum(r.rollFreq) == CountSum(g.rollFreq) + k
    && ReasonTotal(r.arrivalReason) <= ReasonTotal(g.arrivalReason) + k
    && (forall t :: 0 <= t < |g.rollFreq| ==> g.rollFreq[t] <= r.rollFreq[t])
    && Jailed(r)
  }

  /** A move, after its throw was counted, tallies one move. */
  lemma MoveTally(g: Game, total: nat, elem: nat, reason: MR.MoveReason, rules: Rules)
    requires Ready(g, rules) && 2 <= total <= 12 && elem < SPACECOUNT
    ensures Ready(AfterThrow(g, total), rules)
    ensures var r := AfterMove(AfterThrow(g, total), elem, reason, rules);
      Tallied(g, r, 1) && r.rollFreq[total - 2] > g.rollFreq[total - 2]
  {
    var g1 := AfterThrow(g, total);
    MoveArrivesOnce(g1, elem, reason, rules);
    var r := AfterMove(g1, elem, reason, rules);
    TallyOne(g, g1, r, total);
  }

  /** One counted throw and one arrival tally one move. */
  lemma TallyOne(g: Game, g1: Game, r: Game, total: nat)
    requires Shaped(g) && Shaped(r) && 2 <= total <= 12 && g1 == AfterThrow(g, total)
    requires Arrived(g1, r) && r.rollFreq == g1.rollFreq && Jailed(r)
    requires ReasonTotal(r.arrivalReason) <= ReasonTotal(g1.arrivalReason) + 1
    ensures Tallied(g, r, 1) && r.rollFreq[total - 2] > g.rollFreq[total - 2]
  {
    CountSumBump(g.rollFreq, total - 2);
    CountSumBump(g1.arrivals, r.position);
  }

  /** A roll's move tallies one move, and counts its throw. */
  lemma AdvanceTally(g: Game, total: nat, rules: Rules)
    requires Ready(g, rules) && 2 <= total <= 12
    ensures Ready(AfterThrow(g, total), rules)
    ensures var r := Advance(AfterThrow(g, total), total, rules);
      Tallied(g, r, 1) && r.rollFreq[total - 2] > g.rollFreq[total - 2]
  {
    var g1 := AfterThrow(g, total);
    MoveTally(g, total, Ahead(g1.position, total), MR.Roll, rules);
  }

  /** A roll from jail tallies one move. */
  lemma JailRollTally(g: Game, total: nat, double: bool, rules: Rules)
    requires Ready(g, rules) && 2 <= total <= 12 && Jailed(g) && g.jailroll > 0
    ensures Ready(AfterThrow(g, total), rules)
    ensures Tallied(g, AfterJailRoll(AfterThrow(g, total), total, double, rules), 1)
  {
    var g1 := AfterThrow(g, total);
    if double {
      MoveTally(g, total, Ahead(g1.position, total), MR.Roll, rules);
    } else {
      CountSumBump(g.rollFreq, total - 2);
      var reason := if g.jailroll + 1 == 4 then MR.Roll else MR.NoDouble;
      ArrivalCounts(g1.(jailroll := if g.jailroll + 1 == 4 then 0 else g.jailroll + 1), reason);
    }
  }

  /** Tallies add up over consecutive moves. */
  lemma TallyChain(g: Game, m: Game, r: Game, j: nat, k: nat)
    requires Shaped(g) && Shaped(m) && Shaped(r) && Tallied(g, m, j) && Tallied(m, r, k)
    ensures Tallied(g, r, j + k)
  {
  }

  /**
   * The rolls made from `g` with `count` doubles so far reached `r` with `n` doubles:
   * between one and three moves, each tallied. A run of `n` doubles gives at least
   * that many moves and at most one more; the third double ends in jail. The first
   * throw, of `total`, is counted in `rollfreq`.
   */
  ghost predicate RollsCounted(g: Game, r: Game, n: nat, count: nat, total: nat)
    requires Shaped(g) && Shaped(r) && 2 <= total <= 12
  {
    g.moves < r.moves <= g.moves + 3 - count
    && Tallied(g, r, r.moves - g.moves)
    && n - count <= r.moves - g.moves <= n - count + 1
    && (n == 3 ==> r.position == VISIT && r.jailroll == 1)
    && r.rollFreq[total - 2] > g.rollFreq[total - 2]
  }

  lemma {:induction false} RollsTally(g: Game, rules: Rules, dice: (Game, nat) -> Throw, count: nat)
    requires Ready(g, rules) && count < 3 && Jailed(g)
    ensures var rolled := AfterRolls(g, rules, dice, count);
      RollsCounted(g, rolled.0, rolled.1, count, Total(dice(g, count)))
    decreases 3 - count, 1
  {
    var total := Total(dice(g, count));
    var double := dice(g, count).0 == dice(g, count).1;
    var g1 := AfterThrow(g, total);
    if g.jailroll > 0 && rules.strategy == States.JailWait {
      RollsFromJail(g, rules, dice, count);
    } else if double && count == 2 {
      RollsTriple(g, rules, dice, count);
    } else if !double {
      RollsSingle(g, rules, dice, count);
    } else {
      assert Ready(g1, rules);
      if Advance(g1, total, rules).jailroll > 0 {
        RollsToJail(g, rules, dice, count);
      } else {
        RollsAgain(g, rules, dice, count);
      }
    }
  }

  lemma RollsFromJail(g: Game, rules: Rules, dice: (Game, nat) -> Throw, count: nat)
    requires Ready(g, rules) && count < 3 && Jailed(g)
    requires g.jailroll > 0 && rules.strategy == States.JailWait
    ensures var rolled := AfterRolls(g, rules, dice, count);
      RollsCounted(g, rolled.0, rolled.1, count, Total(dice(g, count)))
  {
    var total := Total(dice(g, count));
    var double := dice(g, count).0 == dice(g, count).1;
    var g1 := AfterThrow(g, total);
    assert AfterRolls(g, rules, dice, count) == (AfterJailRoll(g1, total, double, rules), count);
    JailRollTally(g, total, double, rules);
  }

  lemma RollsTriple(g: Game, rules: Rules, dice: (Game, nat) -> Throw, count: nat)
    requires Ready(g, rules) && count == 2 && Jailed(g)
    requires !(g.jailroll > 0 && rules.strategy == States.JailWait)
    requires dice(g, count).0 == dice(g, count).1
    ensures var rolled := AfterRolls(g, rules, dice, count);
      RollsCounted(g, rolled.0, rolled.1, count, Total(dice(g, count)))
  {
    var total := Total(dice(g, count));
    var g1 := AfterThrow(g, total);
    assert AfterRolls(g, rules, dice, count) == (AfterMove(g1, VISIT, MR.TripleDouble, rules), 3);
    MoveTally(g, total, VISIT, MR.TripleDouble, rules);
    FoundSpaces();
    MoveArrivesOnce(g1, VISIT, MR.TripleDouble, rules);
  }

  lemma RollsSingle(g: Game, rules: Rules, dice: (Game, nat) -> Throw, count: nat)
    requires Ready(g, rules) && count < 3 && Jailed(g)
    requires !(g.jailroll > 0 && rules.strategy == States.JailWait)
    requires dice(g, count).0 != dice(g, count).1
    ensures var rolled := AfterRolls(g, rules, dice, count);
      RollsCounted(g, rolled.0, rolled.1, count, Total(dice(g, count)))
  {
    var total := Total(dice(g, count));
    var g1 := AfterThrow(g, total);
    assert AfterRolls(g, rules, dice, count) == (Advance(g1, total, rules), count);
    AdvanceTally(g, total, rules);
  }

  lemma RollsToJail(g: Game, rules: Rules, dice: (Game, nat) -> Throw, count: nat)
    requires Ready(g, rules) && count < 2 && Jailed(g)
    requires !(g.jailroll > 0 && rules.strategy == States.JailWait)
    requires dice(g, count).0 == dice(g, count).1
    requires Ready(AfterThrow(g, Total(dice(g, count))), rules)
    requires Advance(AfterThrow(g, Total(dice(g, count))), Total(dice(g, count)), rules).jailroll > 0
    ensures var rolled := AfterRolls(g, rules, dice, count);
      RollsCounted(g, rolled.0, rolled.1, count, Total(dice(g, count)))
  {
    var total := Total(dice(g, count));
    var g1 := AfterThrow(g, total);
    assert AfterRolls(g, rules, dice, count) == (Advance(g1, total, rules), count + 1);
    AdvanceTally(g, total, rules);
  }

  lemma {:induction false} RollsAgain(g: Game, rules: Rules, dice: (Game, nat) -> Throw, count: nat)
    requires Ready(g, rules) && count < 2 && Jailed(g)
    requires !(g.jailroll > 0 && rules.strategy == States.JailWait)
    requires dice(g, count).0 == dice(g, count).1
    requires Ready(AfterThrow(g, Total(dice(g, count))), rules)
    requires Advance(AfterThrow(g, Total(dice(g, count))), Total(dice(g, count)), rules).jailroll == 0
    ensures var rolled := AfterRolls(g, rules, dice, count);
      RollsCounted(g, rolled.0, rolled.1, count, Total(dice(g, count)))
    decreases 3 - count, 0
  {
    var total := Total(dice(g, count));
    var g2 := Advance(AfterThrow(g, total), total, rules);
    assert AfterRolls(g, rules, dice, count) == AfterRolls(g2, rules, dice, count + 1);
    AdvanceTally(g, total, rules);
    RollsTally(g2, rules, dice, count + 1);
    var rolled := AfterRolls(g2, rules, dice, count + 1);
    RollsStep(g, g2, rolled.0, rolled.1, count, total, Total(dice(g2, count + 1)));
  }

  /** A first move, tallied, followed by rolls counted from its result. */
  lemma RollsStep(g: Game, g2: Game, r: Game, n: nat, count: nat, total: nat, next: nat)
    requires Shaped(g) && Shaped(g2) && Shaped(r) && 2 <= total <= 12 && 2 <= next <= 12
    requires Tallied(g, g2, 1) && g2.rollFreq[total - 2] > g.rollFreq[total - 2]
    requires RollsCounted(g2, r, n, count + 1, next)
    ensures RollsCounted(g, r, n, count, total)
  {
    TallyChain(g, g2, r, 1, r.moves - g2.moves);
  }

  /** A turn keeps every counter consistent: one turn more, at most one more run of doubles. */
  lemma TurnKeepsSound(g: Game, rules: Rules, dice: (Game, nat) -> Throw)
    requires Sound(g, rules)
    ensures Sound(AfterTurn(g, rules, dice), rules)
  {
    var g0 := g.(turns := g.turns + 1);
    RollsTally(g0, rules, dice, 0);
    var rolled := AfterRolls(g0, rules, dice, 0);
    CountRun(g, rolled.0, rolled.1, rules);
    assert AfterTurn(g, rules, dice) == AfterRun(rolled.0, rolled.1);
  }

  /** Counting the run of doubles after tallied rolls leaves a sound game. */
  lemma CountRun(g: Game, g1: Game, n: nat, rules: Rules)
    requires Sound(g, rules) && Ready(g1, rules) && n <= 3
    requires g1.turns == g.turns + 1 && g1.doubles == g.doubles && g.moves <= g1.moves
    requires Tallied(g.(turns := g.turns + 1), g1, g1.moves - g.moves)
    ensures Sound(AfterRun(g1, n), rules)
  {
    if n > 0 {
      CountSumBump(g1.doubles, n - 1);
    }
  }

  // ---------------------------------------------------------------------------
  // Single turns

  /** The game a turn starts its rolls from: `turns += 1`. */
  function Started(g: Game): (r: Game)
    ensures r.turns == g.turns + 1
  {
    g.(turns := g.turns + 1)
  }

  /** A turn is its rolls followed by the count of its run of doubles. */
  lemma TurnIsRolls(g: Game, rules: Rules, dice: (Game, nat) -> Throw)
    requires Ready(g, rules)
    ensures Ready(Started(g), rules)
    ensures var rolled := AfterRolls(Started(g), rules, dice, 0);
      AfterTurn(g, rules, dice) == AfterRun(rolled.0, rolled.1)
  {
  }

  /** A turn outside jail whose first throw is not a double is that one roll's move. */
  lemma SingleRoll(g: Game, rules: Rules, dice: (Game, nat) -> Throw)
    requires Ready(g, rules) && !(g.jailroll > 0 && rules.strategy == States.JailWait)
    requires dice(Started(g), 0).0 != dice(Started(g), 0).1
    ensures var total := Total(dice(Started(g), 0));
      Ready(AfterThrow(Started(g), total), rules)
      && AfterTurn(g, rules, dice) == Advance(AfterThrow(Started(g), total), total, rules)
  {
    var g0 := Started(g);
    TurnIsRolls(g, rules, dice);
    var total := Total(dice(g0, 0));
    var g1 := AfterThrow(g0, total);
    assert AfterRolls(g0, rules, dice, 0) == (Advance(g1, total, rules), 0);
  }

  /**
   * A miss from jail under `JailWait` counts an arrival at the Visit space: a
   * `NoDouble` while waits remain, and a plain roll on the third miss, which frees
   * the player. No double is counted.
   */
  lemma JailWaitMiss(g: Game, rules: Rules, dice: (Game, nat) -> Throw)
    requires Ready(g, rules) && rules.strategy == States.JailWait && Jailed(g) && g.jailroll > 0
    requires dice(Started(g), 0).0 != dice(Started(g), 0).1
    ensures var r := AfterTurn(g, rules, dice);
      r.position == VISIT && r.jailroll == (if g.jailroll == 3 then 0 else g.jailroll + 1)
      && r.moves == g.moves + 1 && r.arrivals == g.arrivals[VISIT := g.arrivals[VISIT] + 1]
      && r.arrivalReason == Recorded(g.arrivalReason, VISIT, if g.jailroll == 3 then MR.Roll else MR.NoDouble)
      && r.doubles == g.doubles
  {
    var g0 := Started(g);
    TurnIsRolls(g, rules, dice);
    var total := Total(dice(g0, 0));
    var g1 := AfterThrow(g0, total);
    assert AfterRolls(g0, rules, dice, 0) == (AfterJailRoll(g1, total, false, rules), 0);
  }

  /**
   * A double from jail under `JailWait` moves the player by its total and ends the
   * turn without counting a double; when the space reached sends nowhere, the
   * arrival is a plain roll there and the jail roll is cleared.
   */
  lemma JailWaitDouble(g: Game, rules: Rules, dice: (Game, nat) -> Throw)
    requires Ready(g, rules) && rules.strategy == States.JailWait && Jailed(g) && g.jailroll > 0
    requires dice(Started(g), 0).0 == dice(Started(g), 0).1
    ensures var r := AfterTurn(g, rules, dice);
      var target := Ahead(VISIT, Total(dice(Started(g), 0)));
      r.moves == g.moves + 1 && r.doubles == g.doubles
      && (Depth(SPACES[target]) == 0 ==>
            r.position == target && r.jailroll == 0
            && r.arrivals == g.arrivals[target := g.arrivals[target] + 1] && r.arrivalReason == g.arrivalReason)
  {
    var g0 := Started(g);
    TurnIsRolls(g, rules, dice);
    var total := Total(dice(g0, 0));
    var g1 := AfterThrow(g0, total);
    assert AfterRolls(g0, rules, dice, 0) == (AfterJailRoll(g1, total, true, rules), 0);
    MoveArrivesOnce(g1, Ahead(g1.position, total), MR.Roll, rules);
  }

  /**
   * A roll that is not a double, outside jail, lands `total` spaces ahead; when that
   * space sends nowhere the arrival is a plain roll there and the turn ends.
   */
  lemma RollLands(g: Game, rules: Rules, dice: (Game, nat) -> Throw)
    requires Ready(g, rules) && !(g.jailroll > 0 && rules.strategy == States.JailWait)
    requires dice(Started(g), 0).0 != dice(Started(g), 0).1
    requires Depth(SPACES[Ahead(g.position, Total(dice(Started(g), 0)))]) == 0
    ensures var r := AfterTurn(g, rules, dice);
      var target := Ahead(g.position, Total(dice(Started(g), 0)));
      r.position == target && r.jailroll == 0 && r.moves == g.moves + 1
      && r.arrivals == g.arrivals[target := g.arrivals[target] + 1] && r.arrivalReason == g.arrivalReason
      && r.doubles == g.doubles
  {
    SingleRoll(g, rules, dice);
    var total := Total(dice(Started(g), 0));
    var g1 := AfterThrow(Started(g), total);
    var target := Ahead(g1.position, total);
    MoveArrivesOnce(g1, target, MR.Roll, rules);
    assert AfterMove(g1, target, MR.Roll, rules).position == target;
    assert Recorded(g1.arrivalReason, target, MR.Roll) == g.arrivalReason;
  }

  /**
   * A double of 2 from space 28 reaches GoToJail at 30, which sends the player to the
   * Visit space with reason `GoToJail` and a jail roll of 1; that ends the turn with
   * one double counted.
   */
  lemma GoToJailLands(g: Game, rules: Rules, dice: (Game, nat) -> Throw)
    requires Ready(g, rules) && g.position == 28 && g.jailroll == 0
    requires dice(Started(g), 0) == (1, 1)
    ensures var r := AfterTurn(g, rules, dice);
      r.position == VISIT && r.jailroll == 1 && r.moves == g.moves + 1
      && r.arrivals == g.arrivals[VISIT := g.arrivals[VISIT] + 1]
      && r.arrivalReason == Recorded(g.arrivalReason, VISIT, MR.GoToJail)
      && r.doubles == g.doubles[0 := g.doubles[0] + 1]
  {
    var g0 := Started(g);
    TurnIsRolls(g, rules, dice);
    var g1 := AfterThrow(g0, 2);
    BoardLayout(30);
    FoundSpaces();
    var jailed := g1.(position := 30);
    MoveArrivesOnce(jailed, VISIT, MR.GoToJail, rules);
    assert AfterJump(jailed, rules) == AfterMove(jailed, VISIT, MR.GoToJail, rules);
    assert Advance(g1, 2, rules) == AfterMove(jailed, VISIT, MR.GoToJail, rules);
    assert AfterRolls(g0, rules, dice, 0) == (Advance(g1, 2, rules), 1);
  }

  /**
   * From space 31 a throw of 5 reaches Chance at 36; Back3 sends the player to
   * Community Chest at 33, where a blank card leaves them. One arrival is counted,
   * at 33 with reason `CHCard`.
   */
  lemma ChanceToChest(g: Game, rules: Rules, dice: (Game, nat) -> Throw)
    requires Ready(g, rules) && g.position == 31 && g.jailroll == 0
    requires rules.chChoose == FixedChance(CH.Back3) && rules.ccChoose == FixedChest(CC.Inconsequential)
    requires dice(Started(g), 0) == (2, 3)
    ensures var r := AfterTurn(g, rules, dice);
      r.position == 33 && r.moves == g.moves + 1
      && r.arrivals == g.arrivals[33 := g.arrivals[33] + 1]
      && r.arrivalReason == Recorded(g.arrivalReason, 33, MR.CHCard)
      && r.doubles == g.doubles
  {
    SingleRoll(g, rules, dice);
    var g1 := AfterThrow(Started(g), 5);
    var at36 := g1.(position := 36);
    var at33 := at36.(position := 33);
    BoardLayout(36);
    BoardLayout(33);
    assert PickChest(at33.ccdeck, rules.ccChoose) == (CC.Inconsequential, at33.ccdeck);
    assert AfterChest(at33, rules) == at33;
    assert AfterJump(at33, rules) == AfterChest(at33, rules);
    MoveArrivesOnce(at36, 33, MR.CHCard, rules);
    ChanceBack(at36, rules);
    assert Advance(g1, 5, rules) == AfterJump(at36, rules);
  }

  /** A Back3 card drawn at Chance 36 moves the player to 33 with reason `CHCard`. */
  lemma ChanceBack(g: Game, rules: Rules)
    requires Ready(g, rules) && g.position == 36 && rules.chChoose == FixedChance(CH.Back3)
    ensures SPACES[36].Chance? && AfterJump(g, rules) == AfterMove(g, 33, MR.CHCard, rules)
  {
    BoardLayout(36);
    assert PickChance(g.chdeck, rules.chChoose) == (CH.Back3, g.chdeck);
    assert ChanceDest(CH.Back3, 36) == Some(33);
    assert AfterChance(g, rules) == AfterMove(g, 33, MR.CHCard, rules);
  }

  /**
   * As above, but the Community Chest card at 33 is Go: the one arrival counted is
   * at Go, with reason `CCCard`.
   */
  lemma ChanceToChestToGo(g: Game, rules: Rules, dice: (Game, nat) -> Throw)
    requires Ready(g, rules) && g.position == 31 && g.jailroll == 0
    requires rules.chChoose == FixedChance(CH.Back3) && rules.ccChoose == FixedChest(CC.GoGo)
    requires dice(Started(g), 0) == (2, 3)
    ensures var r := AfterTurn(g, rules, dice);
      r.position == GO && r.moves == g.moves + 1
      && r.arrivals == g.arrivals[GO := g.arrivals[GO] + 1]
      && r.arrivalReason == Recorded(g.arrivalReason, GO, MR.CCCard)
      && r.doubles == g.doubles
  {
    SingleRoll(g, rules, dice);
    var g1 := AfterThrow(Started(g), 5);
    var at36 := g1.(position := 36);
    FoundSpaces();
    MoveArrivesOnce(at36.(position := 33), GO, MR.CCCard, rules);
    BackToGo(at36, rules);
    assert Advance(g1, 5, rules) == AfterJump(at36, rules);
  }

  /** At Chance 36, Back3 and then a Go card at 33 amount to a move from 33 to Go with reason `CCCard`. */
  lemma BackToGo(g: Game, rules: Rules)
    requires Ready(g, rules) && g.position == 36
    requires rules.chChoose == FixedChance(CH.Back3) && rules.ccChoose == FixedChest(CC.GoGo)
    ensures SPACES[36].Chance? && GO < SPACECOUNT
    ensures AfterJump(g, rules) == AfterMove(g.(position := 33), GO, MR.CCCard, rules)
  {
    var at33 := g.(position := 33);
    BoardLayout(36);
    BoardLayout(33);
    FoundSpaces();
    assert PickChest(at33.ccdeck, rules.ccChoose) == (CC.GoGo, at33.ccdeck);
    assert AfterChest(at33, rules) == AfterMove(at33, GO, MR.CCCard, rules);
    assert AfterJump(at33, rules) == AfterChest(at33, rules);
    assert AfterMove(g, 33, MR.CHCard, rules) == AfterJump(at33, rules);
    ChanceBack(g, rules);
  }

  /**
   * Five turns under `JailWait` from space 28: a double of 2 to GoToJail, three
   * misses of 3 (the third frees the player at the Visit space), then a roll of 3 to
   * space 13. Five moves are counted, four of them at the Visit space, with the
   * reasons `GoToJail` once and `NoDouble` twice.
   */
  lemma JailRollsFail(g: Game, rules: Rules, one: (Game, nat) -> Throw, miss: (Game, nat) -> Throw)
    requires Ready(g, rules) && rules.strategy == States.JailWait && g.position == 28 && g.jailroll == 0
    requires forall h, c :: one(h, c) == (1, 1)
    requires forall h, c :: miss(h, c) == (1, 2)
    ensures var g1 := AfterTurn(g, rules, one);
      var g2 := AfterTurn(g1, rules, miss);
      var g3 := AfterTurn(g2, rules, miss);
      var g4 := AfterTurn(g3, rules, miss);
      var r := AfterTurn(g4, rules, miss);
      g1.position == g2.position == g3.position == g4.position == VISIT
      && g1.jailroll == 1 && g2.jailroll == 2 && g3.jailroll == 3 && g4.jailroll == 0
      && r.position == 13 && r.jailroll == 0
      && r.turns == g.turns + 5 && r.moves == g.moves + 5
      && r.arrivals == g.arrivals[VISIT := g.arrivals[VISIT] + 4][13 := g.arrivals[13] + 1]
      && r.arrivalReason
         == Recorded(Recorded(Recorded(g.arrivalReason, VISIT, MR.GoToJail), VISIT, MR.NoDouble), VISIT, MR.NoDouble)
      && ReasonTotal(r.arrivalReason) == ReasonTotal(g.arrivalReason) + 3
  {
    var g1 := AfterTurn(g, rules, one);
    GoToJailLands(g, rules, one);
    var g2 := AfterTurn(g1, rules, miss);
    JailWaitMiss(g1, rules, miss);
    var g3 := AfterTurn(g2, rules, miss);
    JailWaitMiss(g2, rules, miss);
    var g4 := AfterTurn(g3, rules, miss);
    JailWaitMiss(g3, rules, miss);
    var r := AfterTurn(g4, rules, miss);
    VisitThree(g4, rules, miss);
    JailRun(g, g1, g2, g3, g4, r);
  }

  /** Out of jail at the Visit space, a throw of 1 and 2 lands on space 13, a property, and ends the turn. */
  lemma VisitThree(g: Game, rules: Rules, dice: (Game, nat) -> Throw)
    requires Ready(g, rules) && g.position == VISIT && g.jailroll == 0
    requires dice(Started(g), 0) == (1, 2)
    ensures var r := AfterTurn(g, rules, dice);
      r.position == 13 && r.jailroll == 0 && r.turns == g.turns + 1 && r.moves == g.moves + 1
      && r.arrivals == g.arrivals[13 := g.arrivals[13] + 1] && r.arrivalReason == g.arrivalReason
  {
    assert Ahead(g.position, Total(dice(Started(g), 0))) == 13;
    BoardLayout(13);
    RollLands(g, rules, dice);
  }

  /** The counters of the five turns of `JailRollsFail`, one turn at a time. */
  lemma JailRun(g: Game, g1: Game, g2: Game, g3: Game, g4: Game, r: Game)
    requires Shaped(g) && Shaped(g1) && Shaped(g2) && Shaped(g3) && Shaped(g4) && Shaped(r)
    requires g1.moves == g.moves + 1 && g1.arrivals == g.arrivals[VISIT := g.arrivals[VISIT] + 1]
    requires g1.arrivalReason == Recorded(g.arrivalReason, VISIT, MR.GoToJail)
    requires g2.moves == g1.moves + 1 && g2.arrivals == g1.arrivals[VISIT := g1.arrivals[VISIT] + 1]
    requires g2.arrivalReason == Recorded(g1.arrivalReason, VISIT, MR.NoDouble)
    requires g3.moves == g2.moves + 1 && g3.arrivals == g2.arrivals[VISIT := g2.arrivals[VISIT] + 1]
    requires g3.arrivalReason == Recorded(g2.arrivalReason, VISIT, MR.NoDouble)
    requires g4.moves == g3.moves + 1 && g4.arrivals == g3.arrivals[VISIT := g3.arrivals[VISIT] + 1]
    requires g4.arrivalReason == Recorded(g3.arrivalReason, VISIT, MR.Roll)
    requires r.moves == g4.moves + 1 && r.arrivals == g4.arrivals[13 := g4.arrivals[13] + 1]
    requires r.arrivalReason == g4.arrivalReason
    ensures r.moves == g.moves + 5
    ensures r.arrivals == g.arrivals[VISIT := g.arrivals[VISIT] + 4][13 := g.arrivals[13] + 1]
    ensures r.arrivalReason
         == Recorded(Recorded(Recorded(g.arrivalReason, VISIT, MR.GoToJail), VISIT, MR.NoDouble), VISIT, MR.NoDouble)
    ensures ReasonTotal(r.arrivalReason) == ReasonTotal(g.arrivalReason) + 3
  {
    ReasonBump(g.arrivalReason, VISIT, 2);
    ReasonBump(g1.arrivalReason, VISIT, 4);
    ReasonBump(g2.arrivalReason, VISIT, 4);
  }

  /**
   * Under `JailWait`, a double of 4 from jail frees the player: they move to space 14,
   * a property, with a plain roll and the jail roll cleared.
   */
  lemma JailDoubleOut(g: Game, rules: Rules, dice: (Game, nat) -> Throw)
    requires Ready(g, rules) && rules.strategy == States.JailWait && Jailed(g) && g.jailroll > 0
    requires dice(Started(g), 0) == (2, 2)
    ensures var r := AfterTurn(g, rules, dice);
      r.position == 14 && r.jailroll == 0 && r.turns == g.turns + 1 && r.moves == g.moves + 1
      && r.arrivals == g.arrivals[14 := g.arrivals[14] + 1] && r.arrivalReason == g.arrivalReason
  {
    assert Ahead(VISIT, Total(dice(Started(g), 0))) == 14;
    BoardLayout(14);
    JailWaitDouble(g, rules, dice);
  }

  /**
   * Two turns under `JailWait` from space 28: a double of 2 to GoToJail, then a double
   * of 4 out of jail to space 14. Two moves are counted, one at the Visit space with
   * reason `GoToJail` and one at space 14.
   */
  lemma JailRollsSucceedFirst(g: Game, rules: Rules, one: (Game, nat) -> Throw, four: (Game, nat) -> Throw)
    requires Ready(g, rules) && rules.strategy == States.JailWait && g.position == 28 && g.jailroll == 0
    requires forall h, c :: one(h, c) == (1, 1)
    requires forall h, c :: four(h, c) == (2, 2)
    ensures var g1 := AfterTurn(g, rules, one);
      var r := AfterTurn(g1, rules, four);
      g1.position == VISIT && g1.jailroll == 1
      && r.position == 14 && r.jailroll == 0
      && r.turns == g.turns + 2 && r.moves == g.moves + 2
      && r.arrivals == g.arrivals[VISIT := g.arrivals[VISIT] + 1][14 := g.arrivals[14] + 1]
      && r.arrivalReason == Recorded(g.arrivalReason, VISIT, MR.GoToJail)
      && ReasonTotal(r.arrivalReason) == ReasonTotal(g.arrivalReason) + 1
  {
    var g1 := AfterTurn(g, rules, one);
    GoToJailLands(g, rules, one);
    JailDoubleOut(g1, rules, four);
    ReasonBump(g.arrivalReason, VISIT, 2);
  }

  /**
   * Three turns under `JailWait` from space 28: a double of 2 to GoToJail, a miss of 3,
   * then a double of 4 out of jail to space 14. The Visit space counts two arrivals,
   * with the reasons `GoToJail` and `NoDouble`.
   */
  lemma JailRollsSucceedSecond(g: Game, rules: Rules, one: (Game, nat) -> Throw, miss: (Game, nat) -> Throw,
                               four: (Game, nat) -> Throw)
    requires Ready(g, rules) && rules.strategy == States.JailWait && g.position == 28 && g.jailroll == 0
    requires forall h, c :: one(h, c) == (1, 1)
    requires forall h, c :: miss(h, c) == (1, 2)
    requires forall h, c :: four(h, c) == (2, 2)
    ensures var g1 := AfterTurn(g, rules, one);
      var g2 := AfterTurn(g1, rules, miss);
      var r := AfterTurn(g2, rules, four);
      g1.position == g2.position == VISIT && g1.jailroll == 1 && g2.jailroll == 2
      && r.position == 14 && r.jailroll == 0
      && r.turns == g.turns + 3 && r.moves == g.moves + 3
      && r.arrivals == g.arrivals[VISIT := g.arrivals[VISIT] + 2][14 := g.arrivals[14] + 1]
      && r.arrivalReason == Recorded(Recorded(g.arrivalReason, VISIT, MR.GoToJail), VISIT, MR.NoDouble)
      && ReasonTotal(r.arrivalReason) == ReasonTotal(g.arrivalReason) + 2
  {
    var g1 := AfterTurn(g, rules, one);
    GoToJailLands(g, rules, one);
    var g2 := AfterTurn(g1, rules, miss);
    JailWaitMiss(g1, rules, miss);
    var r := AfterTurn(g2, rules, four);
    JailDoubleOut(g2, rules, four);
    FreedAfterMiss(g, g1, g2, r);
  }

  /** The counters of the three turns of `JailRollsSucceedSecond`, one turn at a time. */
  lemma FreedAfterMiss(g: Game, g1: Game, g2: Game, r: Game)
    requires Shaped(g) && Shaped(g1) && Shaped(g2) && Shaped(r)
    requires g1.moves == g.moves + 1 && g1.arrivals == g.arrivals[VISIT := g.arrivals[VISIT] + 1]
    requires g1.arrivalReason == Recorded(g.arrivalReason, VISIT, MR.GoToJail)
    requires g2.moves == g1.moves + 1 && g2.arrivals == g1.arrivals[VISIT := g1.arrivals[VISIT] + 1]
    requires g2.arrivalReason == Recorded(g1.arrivalReason, VISIT, MR.NoDouble)
    requires r.moves == g2.moves + 1 && r.arrivals == g2.arrivals[14 := g2.arrivals[14] + 1]
    requires r.arrivalReason == g2.arrivalReason
    ensures r.moves == g.moves + 3
    ensures r.arrivals == g.arrivals[VISIT := g.arrivals[VISIT] + 2][14 := g.arrivals[14] + 1]
    ensures r.arrivalReason == Recorded(Recorded(g.arrivalReason, VISIT, MR.GoToJail), VISIT, MR.NoDouble)
    ensures ReasonTotal(r.arrivalReason) == ReasonTotal(g.arrivalReason) + 2
  {
    ReasonBump(g.arrivalReason, VISIT, 2);
    ReasonBump(g1.arrivalReason, VISIT, 4);
  }

  /**
   * Four turns under `JailWait` from space 28: a double of 2 to GoToJail, two misses
   * of 3, then a double of 4 out of jail to space 14. The Visit space counts three
   * arrivals, with the reasons `GoToJail` once and `NoDouble` twice.
   */
  lemma JailRollsSucceedThird(g: Game, rules: Rules, one: (Game, nat) -> Throw, miss: (Game, nat) -> Throw,
                              four: (Game, nat) -> Throw)
    requires Ready(g, rules) && rules.strategy == States.JailWait && g.position == 28 && g.jailroll == 0
    requires forall h, c :: one(h, c) == (1, 1)
    requires forall h, c :: miss(h, c) == (1, 2)
    requires forall h, c :: four(h, c) == (2, 2)
    ensures var g1 := AfterTurn(g, rules, one);
      var g2 := AfterTurn(g1, rules, miss);
      var g3 := AfterTurn(g2, rules, miss);
      var r := AfterTurn(g3, rules, four);
      g1.position == g2.position == g3.position == VISIT
      && g1.jailroll == 1 && g2.jailroll == 2 && g3.jailroll == 3
      && r.position == 14 && r.jailroll == 0
      && r.turns == g.turns + 4 && r.moves == g.moves + 4
      && r.arrivals == g.arrivals[VISIT := g.arrivals[VISIT] + 3][14 := g.arrivals[14] + 1]
      && r.arrivalReason
         == Recorded(Recorded(Recorded(g.arrivalReason, VISIT, MR.GoToJail), VISIT, MR.NoDouble), VISIT, MR.NoDouble)
      && ReasonTotal(r.arrivalReason) == ReasonTotal(g.arrivalReason) + 3
  {
    var g1 := AfterTurn(g, rules, one);
    GoToJailLands(g, rules, one);
    var g2 := AfterTurn(g1, rules, miss);
    JailWaitMiss(g1, rules, miss);
    var g3 := AfterTurn(g2, rules, miss);
    JailWaitMiss(g2, rules, miss);
    var r := AfterTurn(g3, rules, four);
    JailDoubleOut(g3, rules, four);
    FreedRun(g, g1, g2, g3, r);
  }

  /** The counters of the four turns of `JailRollsSucceedThird`, one turn at a time. */
  lemma FreedRun(g: Game, g1: Game, g2: Game, g3: Game, r: Game)
    requires Shaped(g) && Shaped(g1) && Shaped(g2) && Shaped(g3) && Shaped(r)
    requires g1.moves == g.moves + 1 && g1.arrivals == g.arrivals[VISIT := g.arrivals[VISIT] + 1]
    requires g1.arrivalReason == Recorded(g.arrivalReason, VISIT, MR.GoToJail)
    requires g2.moves == g1.moves + 1 && g2.arrivals == g1.arrivals[VISIT := g1.arrivals[VISIT] + 1]
    requires g2.arrivalReason == Recorded(g1.arrivalReason, VISIT, MR.NoDouble)
    requires g3.moves == g2.moves + 1 && g3.arrivals == g2.arrivals[VISIT := g2.arrivals[VISIT] + 1]
    requires g3.arrivalReason == Recorded(g2.arrivalReason, VISIT, MR.NoDouble)
    requires r.moves == g3.moves + 1 && r.arrivals == g3.arrivals[14 := g3.arrivals[14] + 1]
    requires r.arrivalReason == g3.arrivalReason
    ensures r.moves == g.moves + 4
    ensures r.arrivals == g.arrivals[VISIT := g.arrivals[VISIT] + 3][14 := g.arrivals[14] + 1]
    ensures r.arrivalReason
         == Recorded(Recorded(Recorded(g.arrivalReason, VISIT, MR.GoToJail), VISIT, MR.NoDouble), VISIT, MR.NoDouble)
    ensures ReasonTotal(r.arrivalReason) == ReasonTotal(g.arrivalReason) + 3
  {
    ReasonBump(g.arrivalReason, VISIT, 2);
    ReasonBump(g1.arrivalReason, VISIT, 4);
    ReasonBump(g2.arrivalReason, VISIT, 4);
  }
}
