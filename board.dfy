/**
 * The simulator's `Board`: the counters and decks of `Simulation.Game` held in
 * fields and updated in place. Each method is proved to do to `Snapshot()` what the
 * matching function of `Simulation` does to a game value.
 */
module SimBoard {
  import opened Spaces
  import CH = ChanceCards
  import CC = ChestCards
  import States
  import MR = MoveReasons
  import opened Simulation

  // ---------------------------------------------------------------------------
  // Shuffling

  /** `deck.remove(elem)` then `push_back`: the card at `elem` moves to the back. */
  function ToBack<T>(deck: seq<T>, elem: nat): (r: seq<T>)
    requires elem < |deck|
    ensures |r| == |deck| && multiset(r) == multiset(deck)
  {
    assert deck == deck[..elem] + [deck[elem]] + deck[elem + 1..];
    deck[..elem] + deck[elem + 1..] + [deck[elem]]
  }

  /** Every pick names a card of a deck of `size` cards. */
  predicate Picks(picks: seq<nat>, size: nat)
  {
    forall i :: 0 <= i < |picks| ==> picks[i] < size
  }

  /** The deck after moving the cards at `picks`, one after another, to the back. */
  function Shuffled<T>(deck: seq<T>, picks: seq<nat>): (r: seq<T>)
    requires Picks(picks, |deck|)
    ensures |r| == |deck| && multiset(r) == multiset(deck)
    decreases |picks|
  {
    if picks == [] then deck else Shuffled(ToBack(deck, picks[0]), picks[1..])
  }

  /**
   * `shuffle_deck`: four times the deck's length, a random card moves to the back.
   * The random indices are the input `picks`.
   */
  method ShuffleDeck<T>(deck: seq<T>, picks: seq<nat>) returns (r: seq<T>)
    requires |picks| == |deck| * 4 && Picks(picks, |deck|)
    ensures r == Shuffled(deck, picks)
    ensures |r| == |deck| && multiset(r) == multiset(deck)
  {
    assert picks[0..] == picks;
    r := Shuffle(deck, picks, Shuffled(deck, picks));
  }

  /** The loop of `shuffle_deck`, proved to reach `whole`, the shuffle of `deck` by `picks`. */
  method Shuffle<T>(deck: seq<T>, picks: seq<nat>, ghost whole: seq<T>) returns (r: seq<T>)
    requires |picks| == |deck| * 4 && Picks(picks[0..], |deck|) && Shuffled(deck, picks[0..]) == whole
    ensures r == whole
  {
    r := deck;
    for i := 0 to |deck| * 4
      invariant |r| == |deck| && Picks(picks[i..], |r|) && Shuffled(r, picks[i..]) == whole
    {
      var elem := picks[i];
      PickAt(picks, i, |r|);
      var next := r[..elem] + r[elem + 1..] + [r[elem]];
      ShuffledStep(r, next, picks, i);
      r := next;
    }
  }

  /** The next pick names a card of the deck. */
  lemma PickAt(picks: seq<nat>, i: nat, size: nat)
    requires i < |picks| && Picks(picks[i..], size)
    ensures picks[i] < size
  {
    assert picks[i..][0] == picks[i];
  }

  /** The rest of the shuffle after one more pick, which moves the card at `picks[i]` to the back. */
  lemma ShuffledStep<T>(deck: seq<T>, next: seq<T>, picks: seq<nat>, i: nat)
    requires i < |picks| && Picks(picks[i..], |deck|) && picks[i] < |deck|
    requires next == deck[..picks[i]] + deck[picks[i] + 1..] + [deck[picks[i]]]
    ensures |next| == |deck| && Picks(picks[i + 1..], |next|)
    ensures Shuffled(deck, picks[i..]) == Shuffled(next, picks[i + 1..])
  {
    var rest := picks[i..];
    assert rest[0] == picks[i] && rest[1..] == picks[i + 1..];
    assert next == ToBack(deck, rest[0]);
    assert Shuffled(deck, rest) == Shuffled(ToBack(deck, rest[0]), rest[1..]);
  }

  /** The two decks of `Board::new`, each built and then shuffled. */
  method NewDecks(ccpicks: seq<nat>, chpicks: seq<nat>) returns (cc: seq<CC.CCCard>, ch: seq<CH.CHCard>)
    requires |ccpicks| == 4 * CC.CCCARDS && Picks(ccpicks, CC.CCCARDS)
    requires |chpicks| == 4 * CH.CHCARDS && Picks(chpicks, CH.CHCARDS)
    ensures cc == Shuffled(CC.SPECIALS + CC.PADDING, ccpicks) && multiset(cc) == multiset(CC.SPECIALS + CC.PADDING)
    ensures ch == Shuffled(CH.SPECIALS + CH.PADDING, chpicks) && multiset(ch) == multiset(CH.SPECIALS + CH.PADDING)
  {
    cc := CC.BuildDeck();
    CC.FreshDeckContents(cc);
    cc := ShuffleDeck(cc, ccpicks);
    ch := CH.BuildDeck();
    CH.FreshDeckContents(ch);
    ch := ShuffleDeck(ch, chpicks);
  }

  // ---------------------------------------------------------------------------
  // The board

  class Board {
    var strategy: States.Strategy
    var chChoose: ChanceChoice
    var ccChoose: ChestChoice
    var position: nat
    var jailroll: nat
    var ccdeck: seq<CC.CCCard>
    var chdeck: seq<CH.CHCard>
    var arrivals: seq<nat>
    var arrivalReason: seq<seq<nat>>
    var moves: nat
    var turns: nat
    var doubles: seq<nat>
    var rollFreq: seq<nat>

    /** The counters and decks as a value. */
    function Snapshot(): Game
      reads this
    {
      Game(position, jailroll, ccdeck, chdeck, arrivals, arrivalReason, moves, turns, doubles, rollFreq)
    }

    /** What no method changes: the jail strategy and the card choosers. */
    function Setup(): Rules
      reads this
    {
      Rules(strategy, chChoose, ccChoose)
    }

    /**
     * `Board::new(strategy, false)`: both decks built and shuffled with the indices
     * `ccpicks` and `chpicks`, cards drawn from the front, the player at Go.
     */
    constructor (strategy: States.Strategy, ccpicks: seq<nat>, chpicks: seq<nat>)
      requires |ccpicks| == 4 * CC.CCCARDS && Picks(ccpicks, CC.CCCARDS)
      requires |chpicks| == 4 * CH.CHCARDS && Picks(chpicks, CH.CHCARDS)
      ensures Setup() == Rules(strategy, NextChance, NextChest)
      ensures Snapshot() == NewGame(Shuffled(CC.SPECIALS + CC.PADDING, ccpicks), Shuffled(CH.SPECIALS + CH.PADDING, chpicks))
      ensures Sound(Snapshot(), Setup())
    {
      var cc, ch := NewDecks(ccpicks, chpicks);
      // the struct literal: every counter starts as in `NewGame`
      var g := NewGame(cc, ch);
      this.strategy := strategy;
      position := g.position;
      jailroll := g.jailroll;
      ccdeck := g.ccdeck;
      ccChoose := NextChest;
      chdeck := g.chdeck;
      chChoose := NextChance;
      arrivals := g.arrivals;
      arrivalReason := g.arrivalReason;
      moves := g.moves;
      turns := g.turns;
      doubles := g.doubles;
      rollFreq := g.rollFreq;
      new;
      NewGameSound(cc, ch, strategy);
    }

    /** `update_arrivals`. */
    method UpdateArrivals(reason: MR.MoveReason)
      requires Shaped(Snapshot())
      modifies this
      ensures Snapshot() == AfterArrival(old(Snapshot()), reason) && Setup() == old(Setup())
    {
      arrivals := arrivals[position := arrivals[position] + 1];
      moves := moves + 1;
      var elem := MR.Discriminant(reason);
      if elem >= 0 {
        arrivalReason := arrivalReason[position := arrivalReason[position][elem := arrivalReason[position][elem] + 1]];
      }
    }

    /** `next_ch`: take the front Chance card and put it at the back. */
    method NextCh() returns (card: CH.CHCard)
      requires chdeck != []
      modifies this`chdeck
      ensures card == old(chdeck)[0] && chdeck == Rotate(old(chdeck))
    {
      card := chdeck[0];
      chdeck := chdeck[1..];
      chdeck := chdeck + [card];
    }

    /** `next_cc`: take the front Community Chest card and put it at the back. */
    method NextCc() returns (card: CC.CCCard)
      requires ccdeck != []
      modifies this`ccdeck
      ensures card == old(ccdeck)[0] && ccdeck == Rotate(old(ccdeck))
    {
      card := ccdeck[0];
      ccdeck := ccdeck[1..];
      ccdeck := ccdeck + [card];
    }

    /** `(self.chcardchoose)(self)`. */
    method ChooseCh() returns (card: CH.CHCard)
      requires chdeck != []
      modifies this`chdeck
      ensures (card, chdeck) == PickChance(old(chdeck), chChoose)
    {
      match chChoose
      case NextChance => card := NextCh();
      case FixedChance(c) => card := c;
    }

    /** `(self.cccardchoose)(self)`. */
    method ChooseCc() returns (card: CC.CCCard)
      requires ccdeck != []
      modifies this`ccdeck
      ensures (card, ccdeck) == PickChest(old(ccdeck), ccChoose)
    {
      match ccChoose
      case NextChest => card := NextCc();
      case FixedChest(c) => card := c;
    }

    /**
     * `move_to`: stand on `elem`, follow what the space says, and count the arrival
     * only if nothing sent the player on.
     */
    method MoveTo(elem: nat, reason: MR.MoveReason)
      requires Ready(Snapshot(), Setup()) && elem < SPACECOUNT
      modifies this
      ensures Snapshot() == AfterMove(old(Snapshot()), elem, reason, old(Setup())) && Setup() == old(Setup())
      decreases Depth(SPACES[elem]), 3
    {
      position := elem;
      Jump();
      if position == elem {
        if SPACES[position] == Visit && reason != MR.Roll {
          jailroll := 1;
        } else {
          jailroll := 0;
        }
        UpdateArrivals(reason);
      }
    }

    /** The `match` of `move_to` on the space just reached. */
    method Jump()
      requires Ready(Snapshot(), Setup())
      modifies this
      ensures Snapshot() == AfterJump(old(Snapshot()), old(Setup())) && Setup() == old(Setup())
      decreases Depth(SPACES[position]), 2
    {
      match SPACES[position] {
        case GoToJail =>
          FoundSpaces();
          MoveTo(Find(Visit), MR.GoToJail);
        case CommunityChest(_) =>
          DrawCommunityChest();
        case Chance(_) =>
          DrawChance();
        case _ =>
      }
    }

    /** `draw_chance`. */
    method DrawChance()
      requires Ready(Snapshot(), Setup()) && SPACES[position].Chance?
      modifies this
      ensures Snapshot() == AfterChance(old(Snapshot()), old(Setup())) && Setup() == old(Setup())
      decreases Depth(SPACES[position]), 1
    {
      var card := ChooseCh();
      // the `match` on the card: its destination, if it has one, is `ChanceDest`
      var dest := ChanceDest(card, position);
      if dest.Some? {
        MoveTo(dest.value, MR.CHCard);
      }
    }

    /** `draw_community_chest`. */
    method DrawCommunityChest()
      requires Ready(Snapshot(), Setup()) && SPACES[position].CommunityChest?
      modifies this
      ensures Snapshot() == AfterChest(old(Snapshot()), old(Setup())) && Setup() == old(Setup())
      decreases Depth(SPACES[position]), 1
    {
      var card := ChooseCc();
      var dest := ChestDest(card);
      if dest.Some? {
        MoveTo(dest.value, MR.CCCard);
      }
    }

    /**
     * One pass of the loop in `turn_with_dice`, after `count` doubles: throw, count the
     * throw, and move. `done` is the loop's `break`; otherwise the doubles so far are
     * `next` and the rest of the turn is what was left before.
     */
    method RollOnce(dice: (Game, nat) -> Throw, count: nat) returns (next: nat, done: bool)
      requires Ready(Snapshot(), Setup()) && count < 3
      modifies this
      ensures Setup() == old(Setup())
      ensures done ==> (Snapshot(), next) == AfterRolls(old(Snapshot()), old(Setup()), dice, count)
      ensures !done ==> next == count + 1 < 3 && Ready(Snapshot(), Setup())
      ensures !done ==> AfterRolls(Snapshot(), Setup(), dice, next) == AfterRolls(old(Snapshot()), old(Setup()), dice, count)
    {
      ghost var g := Snapshot();
      ghost var rules := Setup();
      var throw := dice(Snapshot(), count);
      var total := Total(throw);
      var double := throw.0 == throw.1;
      rollFreq := rollFreq[total - 2 := rollFreq[total - 2] + 1];
      assert Snapshot() == AfterThrow(g, total);
      RollsCases(g, rules, dice, count, total, double);
      next := count;
      done := true;
      if jailroll > 0 && strategy == States.JailWait {
        JailRoll(total, double);
        return;
      }
      if double {
        next := next + 1;
        if next == 3 {
          FoundSpaces();
          MoveTo(Find(Visit), MR.TripleDouble);
          return;
        }
      }
      MoveTo(Ahead(position, total), MR.Roll);
      assert Snapshot() == Advance(AfterThrow(g, total), total, rules);
      done := !double || jailroll > 0;
    }

    /** The end of `turn_with_dice`: a run of `n` doubles is counted in `doubles[n - 1]`. */
    method CountDoubles(n: nat)
      requires Shaped(Snapshot()) && n <= 3
      modifies this`doubles
      ensures Snapshot() == AfterRun(old(Snapshot()), n)
    {
      if n > 0 {
        doubles := doubles[n - 1 := doubles[n - 1] + 1];
      }
    }

    /**
     * The branch of `turn_with_dice` for a player waiting in jail, after the throw is
     * counted: a double moves the player on, anything else lengthens the wait.
     */
    method JailRoll(total: nat, double: bool)
      requires Ready(Snapshot(), Setup())
      modifies this
      ensures Snapshot() == AfterJailRoll(old(Snapshot()), total, double, old(Setup())) && Setup() == old(Setup())
    {
      if double {
        MoveTo(Ahead(position, total), MR.Roll);
      } else {
        jailroll := jailroll + 1;
        if jailroll == 4 {
          jailroll := 0;
          UpdateArrivals(MR.Roll);
        } else {
          UpdateArrivals(MR.NoDouble);
        }
      }
    }

    /**
     * `turn_with_dice`: count the turn, then roll with `dice` (given the board and the
     * doubles so far) until a roll that is not a double, a third double, or jail; a run
     * of `k` doubles is counted in `doubles[k - 1]`.
     */
    method TurnWithDice(dice: (Game, nat) -> Throw)
      requires Ready(Snapshot(), Setup())
      modifies this
      ensures Snapshot() == AfterTurn(old(Snapshot()), old(Setup()), dice) && Setup() == old(Setup())
    {
      ghost var start := Snapshot();
      turns := turns + 1;
      assert Snapshot() == Started(start);
      ghost var rolled := AfterRolls(Started(start), Setup(), dice, 0);
      var count := 0;
      while true
        invariant Ready(Snapshot(), Setup()) && Setup() == old(Setup()) && count < 3
        invariant AfterRolls(Snapshot(), Setup(), dice, count) == rolled
        decreases 3 - count
      {
        var done;
        count, done := RollOnce(dice, count);
        if done {
          break;
        }
      }
      assert (Snapshot(), count) == rolled;
      CountDoubles(count);
      TurnIsRolls(start, Setup(), dice);
    }
  }
}
