/**
 * The exact transition matrices of the Markov chain: the 40 x 40 jump matrix of
 * one card draw or GoToJail step, the per-state move matrix of one dice roll,
 * and the combined matrix that follows every chain of jumps after a roll.
 */
module TransMatrix {
  import opened ExactProbability
  import opened Matrices
  import opened Spaces
  import CH = ChanceCards
  import CC = ChestCards
  import Dice
  import opened States

  /** The probability of one ordered throw of two dice. */
  const ROLL_PROB: Probability := New(1, 36)

  /**
   * How many card draws a player standing on `s` can still make before coming to
   * rest: two from Chance (Back3 from 36 lands on Community Chest), one from
   * Community Chest, none elsewhere. Every jump that leaves a space lowers it.
   */
  function Rank(s: Space): (r: nat)
    ensures r <= 2 && (r == 0 <==> !s.Chance? && !s.CommunityChest?)
  {
    if s.Chance? then 2 else if s.CommunityChest? then 1 else 0
  }

  // ---------------------------------------------------------------------------
  // The jump lists of `build_jumpmat`

  type Jump = (Space, Probability)

  /** Where a Community Chest card sends a player standing on `start`. */
  function CCTarget(card: CC.CCCard, start: Space): (r: Space)
    ensures r == start || r == Go || r == GoToJail
  {
    match card
    case GoGo => Go
    case GoJail => GoToJail
    case Inconsequential => start
  }

  /** Where a Chance card sends a player standing on position `startidx`. */
  function CHTarget(card: CH.CHCard, startidx: nat): (r: Space)
    requires 3 <= startidx < SPACECOUNT
    ensures card.GoNextRail? ==> r.Rail? && PositionOf(r) == NextRail(startidx)
    ensures card.GoNextUtil? ==> r.Utility? && PositionOf(r) == NextUtil(startidx)
    ensures card.Back3? ==> PositionOf(r) == startidx - 3
    ensures card.Inconsequential? ==> PositionOf(r) == startidx
  {
    match card
    case GoGo => Go
    case GoJail => GoToJail
    case GoProperty(group, index) => Property(group, index)
    case GoRail(rail) => Rail(rail)
    case GoNextRail => PositionOfAt(NextRail(startidx)); SPACES[NextRail(startidx)]
    case GoNextUtil => PositionOfAt(NextUtil(startidx)); SPACES[NextUtil(startidx)]
    case Back3 => PositionOfAt(startidx - 3); SPACES[startidx - 3]
    case Inconsequential => PositionOfAt(startidx); SPACES[startidx]
  }

  /**
   * The jumps out of position `startidx`, which holds `startpos`: one per card of
   * the matching deck, each with probability one over the deck size, or a single
   * certain jump elsewhere.
   */
  function JumpProbs(startidx: nat, startpos: Space, ccdeck: seq<CC.CCCard>, chdeck: seq<CH.CHCard>): (r: seq<Jump>)
    requires startidx < SPACECOUNT && (startpos.Chance? ==> 3 <= startidx)
    requires ccdeck != [] && chdeck != []
    ensures forall k :: 0 <= k < |r| ==> r[k].1.Valid()
  {
    match startpos
    case CommunityChest(_) =>
      var ccprob := New(1, |ccdeck|);
      seq(|ccdeck|, k requires 0 <= k < |ccdeck| => (CCTarget(ccdeck[k], startpos), ccprob))
    case Chance(_) =>
      var chprob := New(1, |chdeck|);
      seq(|chdeck|, k requires 0 <= k < |chdeck| => (CHTarget(chdeck[k], startidx), chprob))
    case GoToJail =>
      assert ALWAYS.Valid();
      [(GoToJail, ALWAYS)]
    case _ =>
      assert ALWAYS.Valid();
      [(startpos, ALWAYS)]
  }

  /** Chance squares lie far enough from Go for Back3 to stay on the board. */
  lemma ChanceAfterThree(p: nat)
    requires p < SPACECOUNT
    ensures SPACES[p].Chance? ==> 3 <= p
  {
    BoardLayout(p);
  }

  /** The probabilities of a jump list. */
  function ProbsOf(jumps: seq<Jump>): (r: seq<Probability>)
    ensures |r| == |jumps| && forall k :: 0 <= k < |r| ==> r[k] == jumps[k].1
  {
    seq(|jumps|, k requires 0 <= k < |jumps| => jumps[k].1)
  }

  /** The total probability of the jumps in `jumps` that land on `s`. */
  ghost function TargetTotal(jumps: seq<Jump>, s: Space): real
    requires forall k :: 0 <= k < |jumps| ==> jumps[k].1.denominator > 0
  {
    if jumps == [] then 0.0
    else
      var last := jumps[|jumps| - 1];
      TargetTotal(jumps[..|jumps| - 1], s) + (if last.0 == s then last.1.Value() else 0.0)
  }

  lemma TargetTotalStep(jumps: seq<Jump>, k: nat, s: Space)
    requires forall i :: 0 <= i < |jumps| ==> jumps[i].1.denominator > 0
    requires k < |jumps|
    ensures TargetTotal(jumps[..k + 1], s)
      == TargetTotal(jumps[..k], s) + (if jumps[k].0 == s then jumps[k].1.Value() else 0.0)
  {
    assert jumps[..k + 1][..k] == jumps[..k];
  }

  /** Only a space some jump lands on gets a non-zero total. */
  lemma {:induction false} TargetTotalZero(jumps: seq<Jump>, s: Space)
    requires forall i :: 0 <= i < |jumps| ==> jumps[i].1.denominator > 0
    requires forall i :: 0 <= i < |jumps| ==> jumps[i].0 != s
    ensures TargetTotal(jumps, s) == 0.0
    decreases |jumps|
  {
    if jumps != [] {
      TargetTotalZero(jumps[..|jumps| - 1], s);
    }
  }

  lemma TotalStep(s: seq<Probability>, k: nat)
    requires forall i :: 0 <= i < |s| ==> s[i].denominator > 0
    requires k < |s|
    ensures Total(s[..k + 1]) == Total(s[..k]) + s[k].Value()
  {
    assert s[..k + 1][..k] == s[..k];
  }

  /** The fresh decks, as `build_deck` returns them. */
  const CCDECK: seq<CC.CCCard> := CC.SPECIALS + CC.PADDING
  const CHDECK: seq<CH.CHCard> := CH.SPECIALS + CH.PADDING

  /** A Chance card lands on the board, and off its own square only where fewer draws remain. */
  lemma ChanceEntry(startidx: nat, card: CH.CHCard)
    requires startidx < SPACECOUNT && SPACES[startidx].Chance? && CH.CardOnBoard(card)
    ensures 3 <= startidx && CHTarget(card, startidx) in SPACES
    ensures CHTarget(card, startidx) == SPACES[startidx] || Rank(CHTarget(card, startidx)) < 2
  {
    BoardLayout(startidx);
    match card
    case GoNextRail =>
      assert SPACES[NextRail(startidx)] in SPACES;
    case GoNextUtil =>
      assert SPACES[NextUtil(startidx)] in SPACES;
    case Back3 =>
      assert SPACES[startidx - 3] in SPACES;
      assert SPACES[4].Tax? && SPACES[19].Property? && SPACES[33].CommunityChest?;
    case GoGo =>
      assert SPACES[0] == Go;
    case GoJail =>
      assert SPACES[30] == GoToJail;
    case _ =>
      assert SPACES[startidx] in SPACES;
  }

  /**
   * Every jump lands on a space of the board, and either stays put or lands on a
   * space from which fewer card draws remain.
   */
  lemma JumpEntry(startidx: nat, ccdeck: seq<CC.CCCard>, chdeck: seq<CH.CHCard>, k: nat)
    requires startidx < SPACECOUNT && ccdeck != [] && chdeck != [] && CH.CardsOnBoard(chdeck)
    requires SPACES[startidx].Chance? ==> 3 <= startidx
    requires k < |JumpProbs(startidx, SPACES[startidx], ccdeck, chdeck)|
    ensures JumpProbs(startidx, SPACES[startidx], ccdeck, chdeck)[k].0 in SPACES
    ensures JumpProbs(startidx, SPACES[startidx], ccdeck, chdeck)[k].0 == SPACES[startidx]
      || Rank(JumpProbs(startidx, SPACES[startidx], ccdeck, chdeck)[k].0) < Rank(SPACES[startidx])
  {
    var startpos := SPACES[startidx];
    var target := JumpProbs(startidx, startpos, ccdeck, chdeck)[k].0;
    assert SPACES[0] == Go && SPACES[30] == GoToJail;
    if startpos.Chance? {
      ChanceEntry(startidx, chdeck[k]);
    }
  }

  /** `n` shares of one n-th make one. */
  lemma UnitShares(s: seq<Probability>, p: Probability)
    requires |s| > 0 && p.denominator > 0 && p.Value() == 1.0 / |s| as real
    requires forall k :: 0 <= k < |s| ==> s[k] == p
    ensures Total(s) == 1.0
  {
    UniformTotal(s, p);
    var x := |s| as real;
    assert x * (1.0 / x) == 1.0;
  }

  /** `check_jump_probs`: every jump list sums to exactly `ALWAYS`. */
  lemma CheckJumpProbs(startidx: nat, startpos: Space, ccdeck: seq<CC.CCCard>, chdeck: seq<CH.CHCard>)
    requires startidx < SPACECOUNT && (startpos.Chance? ==> 3 <= startidx)
    requires ccdeck != [] && chdeck != []
    ensures Total(ProbsOf(JumpProbs(startidx, startpos, ccdeck, chdeck))) == 1.0
    ensures Sum(ProbsOf(JumpProbs(startidx, startpos, ccdeck, chdeck))) == ALWAYS
  {
    var jumps := JumpProbs(startidx, startpos, ccdeck, chdeck);
    var probs := ProbsOf(jumps);
    if startpos.CommunityChest? {
      UnitShares(probs, New(1, |ccdeck|));
    } else if startpos.Chance? {
      UnitShares(probs, New(1, |chdeck|));
    } else {
      assert probs == [ALWAYS];
      assert probs[..0] == [];
      assert Total(probs) == 1.0;
    }
    SumIsAlways(probs);
  }

  // ---------------------------------------------------------------------------
  // build_jumpmat

  /**
   * The shape `process_jumps` relies on: a 40 x 40 stochastic matrix in lowest
   * terms in which every non-zero entry off the diagonal lowers the rank.
   */
  ghost predicate JumpShape(jumpmat: array2<Probability>)
    reads jumpmat
  {
    jumpmat.Length0 == SPACECOUNT && jumpmat.Length1 == SPACECOUNT
    && Proper(jumpmat) && Stochastic(jumpmat)
    && forall p, q :: 0 <= p < SPACECOUNT && 0 <= q < SPACECOUNT && p != q && jumpmat[p, q] != NEVER ==>
      Rank(SPACES[q]) < Rank(SPACES[p])
  }

  /** The jump matrix of the fresh decks: its shape, and each entry the total of its row's jumps onto its column. */
  ghost predicate JumpEntries(jumpmat: array2<Probability>)
    reads jumpmat
  {
    JumpShape(jumpmat)
    && forall p, q :: 0 <= p < SPACECOUNT && 0 <= q < SPACECOUNT ==>
      jumpmat[p, q].Value() == CellTotal(JumpProbs(p, SPACES[p], CCDECK, CHDECK), q)
  }

  /** An entry filled from the jump list of its row is zero unless it lowers the rank. */
  lemma JumpDescends(jumps: seq<Jump>, startidx: nat, ccdeck: seq<CC.CCCard>, chdeck: seq<CH.CHCard>, q: nat, x: Probability)
    requires startidx < SPACECOUNT && ccdeck != [] && chdeck != [] && CH.CardsOnBoard(chdeck)
    requires jumps == JumpProbs(startidx, SPACES[startidx], ccdeck, chdeck)
    requires SPACES[startidx].Chance? ==> 3 <= startidx
    requires q < SPACECOUNT && q != startidx
    requires x.Valid() && x.Value() == CellTotal(jumps, q)
    ensures x != NEVER ==> Rank(SPACES[q]) < Rank(SPACES[startidx])
  {
    NeverIffZero(x);
    if SPACES[startidx] == SPACES[q] {
      SpacesDistinct(startidx, q);
    }
    if Rank(SPACES[startidx]) <= Rank(SPACES[q]) {
      forall k | 0 <= k < |jumps|
        ensures jumps[k].0 != SPACES[q]
      {
        JumpEntry(startidx, ccdeck, chdeck, k);
      }
      TargetTotalZero(jumps, SPACES[q]);
    }
  }

  /** The total probability of the jumps in `jumps` that land on position `c`. */
  ghost function CellTotal(jumps: seq<Jump>, c: nat): real
    requires forall k :: 0 <= k < |jumps| ==> jumps[k].1.denominator > 0
    requires c < SPACECOUNT
  {
    TargetTotal(jumps, SPACES[c])
  }

  /** Adding jump `k`, which lands on position `j`, changes the total of position `j` alone. */
  lemma CellsStep(jumps: seq<Jump>, k: nat, j: nat)
    requires forall i :: 0 <= i < |jumps| ==> jumps[i].1.denominator > 0
    requires k < |jumps| && j < SPACECOUNT && SPACES[j] == jumps[k].0
    ensures forall c :: 0 <= c < SPACECOUNT ==>
      CellTotal(jumps[..k + 1], c) == CellTotal(jumps[..k], c) + (if c == j then jumps[k].1.Value() else 0.0)
  {
    forall c | 0 <= c < SPACECOUNT
      ensures CellTotal(jumps[..k + 1], c) == CellTotal(jumps[..k], c) + (if c == j then jumps[k].1.Value() else 0.0)
    {
      TargetTotalStep(jumps, k, SPACES[c]);
      if jumps[k].0 == SPACES[c] {
        SpacesDistinct(c, j);
      }
    }
  }

  /** `CellTotal` for every position of the board. */
  ghost function CellRow(jumps: seq<Jump>): (r: seq<real>)
    requires forall k :: 0 <= k < |jumps| ==> jumps[k].1.denominator > 0
    ensures |r| == SPACECOUNT && forall c :: 0 <= c < SPACECOUNT ==> r[c] == CellTotal(jumps, c)
  {
    seq(SPACECOUNT, c requires 0 <= c < SPACECOUNT => CellTotal(jumps, c))
  }

  /** `CellsStep` on the whole row: jump `k` adds its probability at position `j`. */
  lemma CellRowStep(jumps: seq<Jump>, k: nat, j: nat)
    requires forall i :: 0 <= i < |jumps| ==> jumps[i].1.denominator > 0
    requires k < |jumps| && j < SPACECOUNT && SPACES[j] == jumps[k].0
    ensures CellRow(jumps[..k + 1]) == CellRow(jumps[..k])[j := CellRow(jumps[..k])[j] + jumps[k].1.Value()]
  {
    CellsStep(jumps, k, j);
  }

  /**
   * The inner loop of `build_jumpmat`: adds each jump of `jumps` to the entry of row
   * `startidx` for the space it lands on.
   */
  method AccumulateJumps(jumpmat: array2<Probability>, startidx: nat, jumps: seq<Jump>)
    requires jumpmat.Length0 == SPACECOUNT && jumpmat.Length1 == SPACECOUNT && startidx < SPACECOUNT
    requires Proper(jumpmat) && forall c :: 0 <= c < SPACECOUNT ==> jumpmat[startidx, c] == NEVER
    requires forall k :: 0 <= k < |jumps| ==> jumps[k].0 in SPACES && jumps[k].1.denominator > 0 && jumps[k].1.Valid()
    modifies jumpmat
    ensures Proper(jumpmat)
    ensures forall r, c :: 0 <= r < SPACECOUNT && 0 <= c < SPACECOUNT && r != startidx ==>
      jumpmat[r, c] == old(jumpmat[r, c])
    ensures forall c :: 0 <= c < SPACECOUNT ==> jumpmat[startidx, c].Value() == CellTotal(jumps, c)
    ensures RowTotal(jumpmat, startidx) == Total(ProbsOf(jumps))
  {
    UniformTotal(RowOf(jumpmat, startidx), NEVER);
    assert RowValues(jumpmat, startidx) == CellRow(jumps[..0]);
    for k := 0 to |jumps|
      invariant Proper(jumpmat)
      invariant RowValues(jumpmat, startidx) == CellRow(jumps[..k])
      invariant RowTotal(jumpmat, startidx) == Total(ProbsOf(jumps)[..k])
      invariant forall r, c :: 0 <= r < SPACECOUNT && 0 <= c < SPACECOUNT && r != startidx ==>
        jumpmat[r, c] == old(jumpmat[r, c])
    {
      AccumulateNext(jumpmat, startidx, jumps, k);
    }
    assert ProbsOf(jumps)[..|jumps|] == ProbsOf(jumps);
    assert jumps[..|jumps|] == jumps;
  }

  /** One pass of the inner loop of `build_jumpmat`: jump `k` is added to the entry of the space it lands on. */
  method AccumulateNext(jumpmat: array2<Probability>, startidx: nat, jumps: seq<Jump>, k: nat)
    requires jumpmat.Length0 == SPACECOUNT && jumpmat.Length1 == SPACECOUNT && startidx < SPACECOUNT && k < |jumps|
    requires forall i :: 0 <= i < |jumps| ==> jumps[i].0 in SPACES && jumps[i].1.denominator > 0 && jumps[i].1.Valid()
    requires Proper(jumpmat) && RowValues(jumpmat, startidx) == CellRow(jumps[..k])
    requires RowTotal(jumpmat, startidx) == Total(ProbsOf(jumps)[..k])
    modifies jumpmat
    ensures Proper(jumpmat) && RowValues(jumpmat, startidx) == CellRow(jumps[..k + 1])
    ensures RowTotal(jumpmat, startidx) == Total(ProbsOf(jumps)[..k + 1])
    ensures forall r, c :: 0 <= r < SPACECOUNT && 0 <= c < SPACECOUNT && r != startidx ==>
      jumpmat[r, c] == old(jumpmat[r, c])
  {
    var pos := jumps[k].0;
    var probability := jumps[k].1;
    var j := Find(pos);
    AddTo(jumpmat, startidx, j, probability);
    TotalStep(ProbsOf(jumps), k);
    CellRowStep(jumps, k, j);
  }

  /** Every jump out of `startidx` lands on the board. */
  lemma JumpsOnBoard(startidx: nat, ccdeck: seq<CC.CCCard>, chdeck: seq<CH.CHCard>)
    requires startidx < SPACECOUNT && ccdeck != [] && chdeck != [] && CH.CardsOnBoard(chdeck)
    requires SPACES[startidx].Chance? ==> 3 <= startidx
    ensures forall k :: 0 <= k < |JumpProbs(startidx, SPACES[startidx], ccdeck, chdeck)| ==>
      JumpProbs(startidx, SPACES[startidx], ccdeck, chdeck)[k].0 in SPACES
  {
    forall k | 0 <= k < |JumpProbs(startidx, SPACES[startidx], ccdeck, chdeck)|
      ensures JumpProbs(startidx, SPACES[startidx], ccdeck, chdeck)[k].0 in SPACES
    {
      JumpEntry(startidx, ccdeck, chdeck, k);
    }
  }

  /**
   * `build_jumpmat`: entry (p, q) is the total probability of the jumps out of `p`
   * that land on `q`; every row sums to one, and off-diagonal jumps lower the rank.
   */
  method BuildJumpMat() returns (jumpmat: array2<Probability>)
    ensures fresh(jumpmat) && JumpEntries(jumpmat)
  {
    assert NEVER.Valid();
    jumpmat := new Probability[SPACECOUNT, SPACECOUNT]((_, _) => NEVER);
    var ccdeck := CC.BuildDeck();
    var chdeck := CH.BuildDeck();
    CC.FreshDeckContents(ccdeck);
    CH.FreshDeckContents(chdeck);
    CH.FreshOnBoard();
    FillJumps(jumpmat, ccdeck, chdeck);
    forall p, q | 0 <= p < SPACECOUNT && 0 <= q < SPACECOUNT && p != q
      ensures jumpmat[p, q] != NEVER ==> Rank(SPACES[q]) < Rank(SPACES[p])
    {
      ChanceAfterThree(p);
      JumpDescends(JumpProbs(p, SPACES[p], ccdeck, chdeck), p, ccdeck, chdeck, q, jumpmat[p, q]);
    }
  }

  /** The outer loop of `build_jumpmat`: fills every row of an all-zero matrix from its jump list. */
  method FillJumps(jumpmat: array2<Probability>, ccdeck: seq<CC.CCCard>, chdeck: seq<CH.CHCard>)
    requires jumpmat.Length0 == SPACECOUNT && jumpmat.Length1 == SPACECOUNT && Proper(jumpmat)
    requires forall r, c :: 0 <= r < SPACECOUNT && 0 <= c < SPACECOUNT ==> jumpmat[r, c] == NEVER
    requires ccdeck != [] && chdeck != [] && CH.CardsOnBoard(chdeck)
    modifies jumpmat
    ensures Proper(jumpmat) && Stochastic(jumpmat)
    ensures forall r, c :: 0 <= r < SPACECOUNT && 0 <= c < SPACECOUNT ==>
      jumpmat[r, c].Value() == CellTotal(JumpProbs(r, SPACES[r], ccdeck, chdeck), c)
  {
    for startidx := 0 to SPACECOUNT
      invariant Proper(jumpmat)
      invariant forall r, c :: 0 <= r < startidx && 0 <= c < SPACECOUNT ==>
        jumpmat[r, c].Value() == CellTotal(JumpProbs(r, SPACES[r], ccdeck, chdeck), c)
      invariant forall r, c :: startidx <= r < SPACECOUNT && 0 <= c < SPACECOUNT ==> jumpmat[r, c] == NEVER
      invariant forall r :: 0 <= r < startidx ==> RowTotal(jumpmat, r) == 1.0
    {
      var startpos := SPACES[startidx];
      ChanceAfterThree(startidx);
      var jumpProbs := JumpProbs(startidx, startpos, ccdeck, chdeck);
      CheckJumpProbs(startidx, startpos, ccdeck, chdeck);
      JumpsOnBoard(startidx, ccdeck, chdeck);
      label RowStart:
      AccumulateJumps(jumpmat, startidx, jumpProbs);
      forall r | 0 <= r < startidx
        ensures RowTotal(jumpmat, r) == 1.0
      {
        assert old@RowStart(RowTotal(jumpmat, r)) == 1.0;
        assert RowOf(jumpmat, r) == old@RowStart(RowOf(jumpmat, r));
      }
    }
  }

  // ---------------------------------------------------------------------------
  // The rows of the jump matrix, space by space

  /** One for a condition that holds, zero otherwise. */
  function Hit(b: bool): (r: nat)
    ensures r <= 1 && (b <==> r == 1)
  {
    if b then 1 else 0
  }

  /** The spaces a jump list lands on, in order. */
  function Targets(jumps: seq<Jump>): (r: seq<Space>)
    ensures |r| == |jumps| && forall k :: 0 <= k < |r| ==> r[k] == jumps[k].0
  {
    seq(|jumps|, k requires 0 <= k < |jumps| => jumps[k].0)
  }

  /** When every jump is a sixteenth, a space's total is one sixteenth per jump landing on it. */
  lemma {:induction false} Sixteenths(jumps: seq<Jump>, s: Space)
    requires forall k :: 0 <= k < |jumps| ==> jumps[k].1.denominator > 0 && jumps[k].1.Value() == 1.0 / 16.0
    ensures TargetTotal(jumps, s) == multiset(Targets(jumps))[s] as real / 16.0
    decreases |jumps|
  {
    if jumps != [] {
      var n := |jumps| - 1;
      Sixteenths(jumps[..n], s);
      assert Targets(jumps) == Targets(jumps[..n]) + [jumps[n].0];
    } else {
      assert Targets(jumps) == [];
    }
  }

  /** Two positions hold the same space exactly when they are the same position. */
  lemma SameSpace(a: nat, q: nat)
    requires a < SPACECOUNT && q < SPACECOUNT
    ensures SPACES[a] == SPACES[q] <==> a == q
  {
    if SPACES[a] == SPACES[q] {
      SpacesDistinct(a, q);
    }
  }

  /** `n` copies of one space. */
  function Copies(x: Space, n: nat): (r: seq<Space>)
    ensures |r| == n && forall k :: 0 <= k < n ==> r[k] == x
  {
    seq(n, _ => x)
  }

  lemma {:induction false} CopiesCount(x: Space, n: nat, s: Space)
    ensures multiset(Copies(x, n))[s] == if x == s then n else 0
    decreases n
  {
    if n > 0 {
      CopiesCount(x, n - 1, s);
      assert Copies(x, n) == Copies(x, n - 1) + [x];
    }
  }

  /** The jumps out of a Community Chest square: GoToJail, Go, then fourteen blanks, each one in sixteen. */
  lemma ChestTargets(p: nat)
    requires p < SPACECOUNT && SPACES[p].CommunityChest?
    ensures var jumps := JumpProbs(p, SPACES[p], CCDECK, CHDECK);
      Targets(jumps) == [SPACES[GOTOJAIL], SPACES[0]] + Copies(SPACES[p], 14)
      && forall k :: 0 <= k < |jumps| ==> jumps[k].1 == New(1, 16)
  {
    assert SPACES[0] == Go && SPACES[GOTOJAIL] == GoToJail;
    assert CCDECK == [CC.GoJail, CC.GoGo] + CC.PADDING;
  }

  /**
   * A Community Chest row of `build_jumpmat`: one card in sixteen goes to Go, one to
   * GoToJail, and the fourteen blanks stay on the square.
   */
  lemma ChestRow(p: nat, q: nat)
    requires p < SPACECOUNT && SPACES[p].CommunityChest? && q < SPACECOUNT
    ensures CellTotal(JumpProbs(p, SPACES[p], CCDECK, CHDECK), q)
      == (Hit(q == 0) + Hit(q == GOTOJAIL) + 14 * Hit(q == p)) as real / 16.0
  {
    var jumps := JumpProbs(p, SPACES[p], CCDECK, CHDECK);
    ChestTargets(p);
    Sixteenths(jumps, SPACES[q]);
    CopiesCount(SPACES[p], 14, SPACES[q]);
    SameSpace(0, q);
    SameSpace(GOTOJAIL, q);
    SameSpace(p, q);
  }

  /**
   * The jumps out of a Chance square, each one in sixteen: Go, GoToJail, the three
   * named properties, the first rail, the next rail twice, the next utility, three
   * spaces back, then six blanks.
   */
  lemma ChanceTargets(p: nat)
    requires p < SPACECOUNT && SPACES[p].Chance?
    ensures 3 <= p
    ensures var jumps := JumpProbs(p, SPACES[p], CCDECK, CHDECK);
      Targets(jumps) == ChanceList(p)
      && forall k :: 0 <= k < |jumps| ==> jumps[k].1 == New(1, 16)
  {
    ChanceAfterThree(p);
    var jumps := JumpProbs(p, SPACES[p], CCDECK, CHDECK);
    assert |jumps| == 16;
    forall k | 0 <= k < 16
      ensures Targets(jumps)[k] == ChanceList(p)[k]
    {
      ChanceCard(p, k);
    }
  }

  /** The landing spaces of the sixteen Chance cards, deck order, from position `p`. */
  function ChanceList(p: nat): (r: seq<Space>)
    requires 3 <= p < SPACECOUNT
    ensures |r| == 16
  {
    CardTargets(NextRail(p), NextUtil(p), p)
  }

  /** The sixteen landing spaces with the next rail and the next utility given as positions. */
  function CardTargets(rail: nat, util: nat, p: nat): (r: seq<Space>)
    requires rail < SPACECOUNT && util < SPACECOUNT && 3 <= p < SPACECOUNT
    ensures |r| == 16
  {
    FIXED_TARGETS + ([SPACES[rail], SPACES[rail], SPACES[util], SPACES[p - 3]] + Copies(SPACES[p], 6))
  }

  /** Where the six fixed-destination Chance cards go, in deck order. */
  const FIXED_TARGETS: seq<Space> := [Go, GoToJail, Property(2, 0), Property(4, 2), Property(7, 1), Rail(0)]

  lemma ChanceCard(p: nat, k: nat)
    requires 3 <= p < SPACECOUNT && k < 16
    ensures CHTarget(CHDECK[k], p) == ChanceList(p)[k]
  {
    if k < 6 {
      assert CHDECK[k] == CH.FIXED[k];
      assert ChanceList(p)[k] == FIXED_TARGETS[k];
    } else if k < 10 {
      assert CHDECK[k] == CH.RELATIVE[k - 6];
    } else {
      assert CHDECK[k] == CH.PADDING[k - 10];
    }
  }

  /** How often `s` occurs in a list of four spaces. */
  lemma FourCount<T>(a: T, b: T, c: T, d: T, s: T)
    ensures multiset([a, b, c, d])[s] == Hit(a == s) + Hit(b == s) + Hit(c == s) + Hit(d == s)
  {
    assert multiset([a])[s] == Hit(a == s);
    assert multiset([a, b])[s] == multiset([a])[s] + Hit(b == s);
    assert multiset([a, b, c])[s] == multiset([a, b])[s] + Hit(c == s);
    assert multiset([a, b, c, d])[s] == multiset([a, b, c])[s] + Hit(d == s);
  }

  /** How often `s` occurs in a list of six spaces. */
  lemma SixCount<T>(a: T, b: T, c: T, d: T, e: T, f: T, s: T)
    ensures multiset([a, b, c, d, e, f])[s]
      == Hit(a == s) + Hit(b == s) + Hit(c == s) + Hit(d == s) + Hit(e == s) + Hit(f == s)
  {
    FourCount(a, b, c, d, s);
    assert multiset([a, b, c, d, e])[s] == multiset([a, b, c, d])[s] + Hit(e == s);
    assert multiset([a, b, c, d, e, f])[s] == multiset([a, b, c, d, e])[s] + Hit(f == s);
  }

  /** How often the fixed-destination Chance cards land on position `q`. */
  lemma FixedCount(q: nat)
    requires q < SPACECOUNT
    ensures multiset(FIXED_TARGETS)[SPACES[q]] == FixedHits(q)
  {
    FixedSpaces();
    SixCount(SPACES[0], SPACES[GOTOJAIL], SPACES[11], SPACES[24], SPACES[39], SPACES[5], SPACES[q]);
    SameSpace(0, q);
    SameSpace(GOTOJAIL, q);
    SameSpace(11, q);
    SameSpace(24, q);
    SameSpace(39, q);
    SameSpace(5, q);
  }

  /** The fixed-destination Chance cards name the board's Go, GoToJail, 11, 24, 39 and 5. */
  lemma FixedSpaces()
    ensures FIXED_TARGETS == [SPACES[0], SPACES[GOTOJAIL], SPACES[11], SPACES[24], SPACES[39], SPACES[5]]
  {
    assert SPACES[0] == Go && SPACES[GOTOJAIL] == GoToJail && SPACES[5] == Rail(0);
    assert SPACES[11] == Property(2, 0) && SPACES[24] == Property(4, 2) && SPACES[39] == Property(7, 1);
  }

  /** How often the relative Chance cards (next rail twice, next utility, back three) and the blanks land on `s`. */
  lemma RelativeCount(rail: Space, util: Space, back: Space, x: Space, s: Space)
    ensures multiset([rail, rail, util, back] + Copies(x, 6))[s]
      == 2 * Hit(rail == s) + Hit(util == s) + Hit(back == s) + 6 * Hit(x == s)
  {
    AppendCount([rail, rail, util, back], Copies(x, 6), s);
    FourCount(rail, rail, util, back, s);
    CopiesCount(x, 6, s);
  }

  /** How many of the six fixed-destination Chance cards land on `q`: Go, GoToJail, 11, 24, 39 and the first rail. */
  function FixedHits(q: nat): nat
  {
    Hit(q == 0) + Hit(q == GOTOJAIL) + Hit(q == 11) + Hit(q == 24) + Hit(q == 39) + Hit(q == 5)
  }

  /** How many of the other ten Chance cards land on `q`: two on `rail`, one on `util`, one on `back`, six blanks on `p`. */
  function RestHits(rail: nat, util: nat, back: nat, p: nat, q: nat): nat
  {
    2 * Hit(q == rail) + Hit(q == util) + Hit(q == back) + 6 * Hit(q == p)
  }

  /** How many of the sixteen Chance cards drawn on `p` land on position `q`. */
  function ChanceHits(p: nat, q: nat): (r: nat)
    requires 3 <= p < SPACECOUNT
  {
    FixedHits(q) + RestHits(NextRail(p), NextUtil(p), p - 3, p, q)
  }

  lemma ChanceListCount(p: nat, q: nat)
    requires 3 <= p < SPACECOUNT && q < SPACECOUNT
    ensures multiset(ChanceList(p))[SPACES[q]] == ChanceHits(p, q)
  {
    ListCount(NextRail(p), NextUtil(p), p, q);
  }

  /** The count of `ChanceList`'s shape, with the rail, utility and back-three positions as plain indices. */
  lemma ListCount(rail: nat, util: nat, p: nat, q: nat)
    requires rail < SPACECOUNT && util < SPACECOUNT && 3 <= p < SPACECOUNT && q < SPACECOUNT
    ensures multiset(CardTargets(rail, util, p))[SPACES[q]] == FixedHits(q) + RestHits(rail, util, p - 3, p, q)
  {
    FixedCount(q);
    SameHits(rail, util, p - 3, p, q);
    SplitCount(FIXED_TARGETS, SPACES[rail], SPACES[util], SPACES[p - 3], SPACES[p], SPACES[q], FixedHits(q), RestHits(rail, util, p - 3, p, q));
  }

  /** The count over the fixed cards followed by the relative cards and the blanks. */
  lemma SplitCount(fixed: seq<Space>, rail: Space, util: Space, back: Space, x: Space, s: Space, m: nat, n: nat)
    requires multiset(fixed)[s] == m
    requires 2 * Hit(rail == s) + Hit(util == s) + Hit(back == s) + 6 * Hit(x == s) == n
    ensures multiset(fixed + ([rail, rail, util, back] + Copies(x, 6)))[s] == m + n
  {
    AppendCount(fixed, [rail, rail, util, back] + Copies(x, 6), s);
    RelativeCount(rail, util, back, x, s);
  }

  /** The count in a concatenation is the sum of the counts in its parts. */
  lemma AppendCount<T>(a: seq<T>, b: seq<T>, s: T)
    ensures multiset(a + b)[s] == multiset(a)[s] + multiset(b)[s]
  {
    assert multiset(a + b) == multiset(a) + multiset(b);
  }

  /** Counting equal spaces is counting equal positions, since no two squares are the same space. */
  lemma SameHits(rail: nat, util: nat, back: nat, p: nat, q: nat)
    requires rail < SPACECOUNT && util < SPACECOUNT && back < SPACECOUNT && p < SPACECOUNT && q < SPACECOUNT
    ensures 2 * Hit(SPACES[rail] == SPACES[q]) + Hit(SPACES[util] == SPACES[q]) + Hit(SPACES[back] == SPACES[q])
      + 6 * Hit(SPACES[p] == SPACES[q]) == RestHits(rail, util, back, p, q)
  {
    SameSpace(rail, q);
    SameSpace(util, q);
    SameSpace(back, q);
    SameSpace(p, q);
    assert Hit(SPACES[rail] == SPACES[q]) == Hit(q == rail);
    assert Hit(SPACES[util] == SPACES[q]) == Hit(q == util);
    assert Hit(SPACES[back] == SPACES[q]) == Hit(q == back);
    assert Hit(SPACES[p] == SPACES[q]) == Hit(q == p);
  }

  /**
   * A Chance row of `build_jumpmat`, in sixteenths: one each to Go, GoToJail, the
   * three named properties (11, 24, 39) and the first rail (5); two to the next rail,
   * one to the next utility, one three spaces back, and the six blanks stay.
   */
  lemma ChanceRow(p: nat, q: nat)
    requires p < SPACECOUNT && SPACES[p].Chance? && q < SPACECOUNT
    ensures 3 <= p
    ensures CellTotal(JumpProbs(p, SPACES[p], CCDECK, CHDECK), q) == ChanceHits(p, q) as real / 16.0
  {
    var jumps := JumpProbs(p, SPACES[p], CCDECK, CHDECK);
    ChanceTargets(p);
    Sixteenths(jumps, SPACES[q]);
    ChanceListCount(p, q);
  }

  /** Every other row of `build_jumpmat`, GoToJail's included, stays put with certainty. */
  lemma PlainRow(p: nat, q: nat)
    requires p < SPACECOUNT && !SPACES[p].Chance? && !SPACES[p].CommunityChest? && q < SPACECOUNT
    ensures CellTotal(JumpProbs(p, SPACES[p], CCDECK, CHDECK), q) == Hit(q == p) as real
  {
    var jumps := JumpProbs(p, SPACES[p], CCDECK, CHDECK);
    assert SPACES[GOTOJAIL] == GoToJail;
    assert jumps == [(SPACES[p], ALWAYS)];
    assert jumps[..0] == [];
    assert ALWAYS.Value() == 1.0;
    assert CellTotal(jumps, q) == TargetTotal(jumps, SPACES[q]);
    assert TargetTotal(jumps, SPACES[q]) == if SPACES[p] == SPACES[q] then 1.0 else 0.0;
    SameSpace(p, q);
  }

  /**
   * The rows of the jump matrix space by space: Community Chest sends one in sixteen
   * to Go and one to GoToJail, Chance as `ChanceHits` counts, and every other square
   * keeps the player where they are.
   */
  lemma JumpRows(jumpmat: array2<Probability>, p: nat, q: nat)
    requires JumpEntries(jumpmat) && p < SPACECOUNT && q < SPACECOUNT
    ensures SPACES[p].CommunityChest? ==>
      jumpmat[p, q].Value() == (Hit(q == 0) + Hit(q == GOTOJAIL) + 14 * Hit(q == p)) as real / 16.0
    ensures SPACES[p].Chance? ==> 3 <= p && jumpmat[p, q].Value() == ChanceHits(p, q) as real / 16.0
    ensures !SPACES[p].Chance? && !SPACES[p].CommunityChest? ==> jumpmat[p, q].Value() == Hit(q == p) as real
  {
    if SPACES[p].CommunityChest? {
      ChestRow(p, q);
    } else if SPACES[p].Chance? {
      ChanceRow(p, q);
    } else {
      PlainRow(p, q);
    }
  }


  // ---------------------------------------------------------------------------
  // The state machine of one roll

  /** A throw as `dice_rolls` yields it: the total is the sum of the faces. */
  predicate RollOk(roll: Dice.Roll)
  {
    roll.sum == roll.d1 + roll.d2 && (roll.double <==> roll.d1 == roll.d2)
  }

  /** `dice_rolls` yields 36 throws, each with its own total and double flag. */
  lemma RollsOk()
    ensures |Dice.DiceRolls()| == 36
    ensures forall k :: 0 <= k < |Dice.DiceRolls()| ==> RollOk(Dice.DiceRolls()[k])
  {
    Dice.RollsAreAllPairs();
    Dice.RollsAnnotated();
  }

  /** The throws `build_movemat` loops over, with what it relies on about them. */
  method Throws() returns (rolls: seq<Dice.Roll>)
    ensures Dice.AllThrows(rolls)
    ensures |rolls| == 36 && forall k :: 0 <= k < |rolls| ==> RollOk(rolls[k])
  {
    rolls := Dice.DiceRolls();
    RollsOk();
    Dice.RollsAreAllThrows();
  }

  /** The state after rolling `roll` from `start`, before any card or GoToJail jump. */
  function MoveState(strategy: Strategy, start: State, roll: Dice.Roll): (r: State)
    requires start.position < SPACECOUNT
    ensures r.jailroll != 0 ==>
      (strategy == JailWait && SPACES[start.position] == GoToJail
       && !roll.double && r.position == GOTOJAIL && r.jailroll == start.jailroll + 1)
    ensures RollOk(roll) ==> r.position < SPACECOUNT
  {
    assert SPACES[VISIT] == Visit && SPACES[GOTOJAIL] == GoToJail;
    FindIsIndex(VISIT);
    FindIsIndex(GOTOJAIL);
    if SPACES[start.position] == GoToJail then
      match strategy
      case JailWait =>
        if roll.double then
          NewState(0, Find(Visit) + roll.sum, 0)
        else
          var jailrolls := start.jailroll + 1;
          if jailrolls == 3 then NewState(0, Find(Visit), 0)
          else NewState(0, Find(GoToJail), jailrolls)
      case PayJail =>
        NewState(if roll.double then 1 else 0, Find(Visit) + roll.sum, 0)
    else
      var doubles := if !roll.double then 0 else start.doubles + 1;
      if doubles == 3 then
        NewState(0, Find(GoToJail), 0)
      else
        var position := (start.position + roll.sum) % SPACECOUNT;
        NewState(if SPACES[position] == GoToJail then 0 else doubles, position, 0)
  }

  /** Waiting in jail: a double leaves at once from the Visit space, without another turn. */
  lemma JailDoubleLeaves(start: State, roll: Dice.Roll)
    requires start.position == GOTOJAIL && roll.double
    ensures MoveState(JailWait, start, roll) == State(VISIT + roll.sum, 0, 0)
  {
    assert SPACES[VISIT] == Visit && SPACES[GOTOJAIL] == GoToJail;
    FindIsIndex(VISIT);
    FindIsIndex(GOTOJAIL);
  }

  /** Waiting in jail: the third failed roll leaves to the Visit space, earlier ones count up. */
  lemma JailMissCounts(start: State, roll: Dice.Roll)
    requires start.position == GOTOJAIL && !roll.double
    ensures MoveState(JailWait, start, roll)
      == if start.jailroll + 1 == 3 then State(VISIT, 0, 0) else State(GOTOJAIL, 0, start.jailroll + 1)
  {
    assert SPACES[VISIT] == Visit && SPACES[GOTOJAIL] == GoToJail;
    FindIsIndex(VISIT);
    FindIsIndex(GOTOJAIL);
  }

  /** Paying to leave jail: move from the Visit space, a double counting as the first of the turn. */
  lemma PayJailLeaves(start: State, roll: Dice.Roll)
    requires start.position == GOTOJAIL && RollOk(roll)
    ensures MoveState(PayJail, start, roll) == State(VISIT + roll.sum, if roll.double then 1 else 0, 0)
    ensures VISIT + roll.sum < SPACECOUNT
  {
    assert SPACES[VISIT] == Visit && SPACES[GOTOJAIL] == GoToJail;
    FindIsIndex(VISIT);
    FindIsIndex(GOTOJAIL);
  }

  /** Outside jail, a third double in a row sends the player to GoToJail. */
  lemma ThirdDoubleJails(strategy: Strategy, start: State, roll: Dice.Roll)
    requires start.position < SPACECOUNT && start.position != GOTOJAIL
    requires start.doubles == 2 && roll.double
    ensures MoveState(strategy, start, roll) == State(GOTOJAIL, 0, 0)
  {
    assert SPACES[VISIT] == Visit && SPACES[GOTOJAIL] == GoToJail;
    FindIsIndex(VISIT);
    FindIsIndex(GOTOJAIL);
    BoardLayout(start.position);
  }

  /**
   * Outside jail, any other roll moves round the board by its total; a non-double
   * clears the doubles count, and landing on GoToJail clears it too.
   */
  lemma NormalMove(strategy: Strategy, start: State, roll: Dice.Roll)
    requires start.position < SPACECOUNT && start.position != GOTOJAIL
    requires !(start.doubles == 2 && roll.double)
    ensures MoveState(strategy, start, roll).position == (start.position + roll.sum) % SPACECOUNT
    ensures MoveState(strategy, start, roll).jailroll == 0
    ensures MoveState(strategy, start, roll).doubles
      == if !roll.double || MoveState(strategy, start, roll).position == GOTOJAIL then 0 else start.doubles + 1
  {
    GoToJailAt(start.position);
    var position := (start.position + roll.sum) % SPACECOUNT;
    GoToJailAt(position);
    var doubles := if !roll.double then 0 else start.doubles + 1;
    assert MoveState(strategy, start, roll) == NewState(if SPACES[position] == GoToJail then 0 else doubles, position, 0);
  }

  /** Every state a roll leads to is a state of the chain, so the index lookup succeeds. */
  lemma MoveStateCanonical(strategy: Strategy, start: State, roll: Dice.Roll)
    requires Canonical(strategy, start) && RollOk(roll)
    ensures Canonical(strategy, MoveState(strategy, start, roll))
  {
    if start.position == GOTOJAIL {
      match strategy
      case JailWait =>
        if roll.double {
          JailDoubleLeaves(start, roll);
        } else {
          JailMissCounts(start, roll);
        }
      case PayJail =>
        PayJailLeaves(start, roll);
    } else if start.doubles == 2 && roll.double {
      ThirdDoubleJails(strategy, start, roll);
    } else {
      NormalMove(strategy, start, roll);
    }
  }

  // ---------------------------------------------------------------------------
  // process_jumps and build_movemat

  /** Every state of the chain has an index below `n`. */
  ghost predicate Indexed(strategy: Strategy, index: map<State, nat>, n: nat)
  {
    forall s :: Canonical(strategy, s) ==> s in index && index[s] < n
  }

  /** A jump that never happens contributes nothing. */
  lemma NeverShare(p: Probability)
    requires p.denominator > 0
    ensures Mul(p, NEVER).Value() == 0.0
  {
  }

  /** Each entry of `row` multiplied by `p`. */
  ghost function Scaled(p: Probability, row: seq<Probability>): (r: seq<Probability>)
    requires p.denominator > 0 && forall k :: 0 <= k < |row| ==> row[k].denominator > 0
    ensures |r| == |row| && forall k :: 0 <= k < |r| ==> r[k] == Mul(p, row[k]) && r[k].denominator > 0
  {
    seq(|row|, k requires 0 <= k < |row| => Mul(p, row[k]))
  }

  /** The values of a sequence of fractions. */
  ghost function Values(s: seq<Probability>): (r: seq<real>)
    requires forall k :: 0 <= k < |s| ==> s[k].denominator > 0
    ensures |r| == |s| && forall k :: 0 <= k < |s| ==> r[k] == s[k].Value()
  {
    seq(|s|, k requires 0 <= k < |s| => s[k].Value())
  }

  /** Each of `xs` multiplied by `a`. */
  ghost function Times(a: real, xs: seq<real>): (r: seq<real>)
    ensures |r| == |xs| && forall k :: 0 <= k < |xs| ==> r[k] == a * xs[k]
  {
    seq(|xs|, k requires 0 <= k < |xs| => a * xs[k])
  }

  /** The sum of a sequence of reals, from the left. */
  ghost function RealSum(xs: seq<real>): real
  {
    if xs == [] then 0.0 else RealSum(xs[..|xs| - 1]) + xs[|xs| - 1]
  }

  lemma {:induction false} TotalIsRealSum(s: seq<Probability>)
    requires forall k :: 0 <= k < |s| ==> s[k].denominator > 0
    ensures Total(s) == RealSum(Values(s))
    decreases |s|
  {
    if s != [] {
      TotalIsRealSum(s[..|s| - 1]);
      assert Values(s)[..|s| - 1] == Values(s[..|s| - 1]);
    }
  }

  lemma {:induction false} RealSumTimes(a: real, xs: seq<real>)
    ensures RealSum(Times(a, xs)) == a * RealSum(xs)
    decreases |xs|
  {
    if xs != [] {
      var n := |xs| - 1;
      RealSumTimes(a, xs[..n]);
      TimesPrefix(a, xs, n);
      Distribute(RealSum(Times(a, xs[..n])), a * xs[n], a, RealSum(xs[..n]), xs[n]);
    }
  }

  /** Scaling commutes with taking a prefix. */
  lemma TimesPrefix(a: real, xs: seq<real>, n: nat)
    requires n <= |xs|
    ensures Times(a, xs)[..n] == Times(a, xs[..n])
  {
    forall k | 0 <= k < n
      ensures Times(a, xs)[k] == Times(a, xs[..n])[k]
    {
      assert xs[..n][k] == xs[k];
    }
  }

  /** One more share of a scaled partial sum. */
  lemma Distribute(x: real, y: real, a: real, b: real, c: real)
    requires x == a * b && y == a * c
    ensures x + y == a * (b + c)
  {
  }

  /** Shares `a` of each of a list of reals summing to one make up `a` altogether. */
  lemma RealSumShares(a: real, xs: seq<real>)
    requires RealSum(xs) == 1.0
    ensures RealSum(Times(a, xs)) == a
  {
    RealSumTimes(a, xs);
  }

  /** The values of a scaled row are the scaled values of the row. */
  lemma ValuesScaled(p: Probability, row: seq<Probability>)
    requires p.denominator > 0 && forall k :: 0 <= k < |row| ==> row[k].denominator > 0
    ensures Values(Scaled(p, row)) == Times(p.Value(), Values(row))
  {
    var a := p.Value();
    var ys, xs := Values(Scaled(p, row)), Values(row);
    forall k | 0 <= k < |row|
      ensures ys[k] == Times(a, xs)[k]
    {
      var x := Mul(p, row[k]);
      assert ys[k] == x.Value();
      assert x.Value() == a * row[k].Value();
    }
  }

  /** `p` times each entry of a row that totals one makes up `p` altogether. */
  lemma ScaledTotal(p: Probability, row: seq<Probability>)
    requires p.denominator > 0 && forall k :: 0 <= k < |row| ==> row[k].denominator > 0
    requires Total(row) == 1.0
    ensures Total(Scaled(p, row)) == p.Value()
  {
    ValuesScaled(p, row);
    TotalIsRealSum(Scaled(p, row));
    TotalIsRealSum(row);
    RealSumShares(p.Value(), Values(row));
  }

  /** What `process_jumps` reads from entry (p, q) of the jump matrix. */
  lemma JumpShapeAt(jumpmat: array2<Probability>, p: nat, q: nat)
    requires JumpShape(jumpmat) && p < SPACECOUNT && q < SPACECOUNT
    ensures jumpmat[p, q].Valid() && (jumpmat[p, q] == NEVER <==> jumpmat[p, q].Value() == 0.0)
    ensures p != q && jumpmat[p, q] != NEVER ==> Rank(SPACES[q]) < Rank(SPACES[p])
  {
    NeverIffZero(jumpmat[p, q]);
  }

  /** Each row of the jump matrix is a distribution. */
  lemma JumpRowTotal(jumpmat: array2<Probability>, p: nat)
    requires JumpShape(jumpmat) && p < SPACECOUNT
    ensures forall q :: 0 <= q < SPACECOUNT ==> RowOf(jumpmat, p)[q].denominator > 0
    ensures Total(RowOf(jumpmat, p)) == 1.0
  {
    assert RowTotal(jumpmat, p) == 1.0;
  }

  /**
   * The state a jump from `s` to position `pos` ends in: the doubles count is kept
   * unless the jump lands on GoToJail, and the jail roll count is kept.
   */
  function JumpTo(s: State, pos: nat): (r: State)
    requires pos < SPACECOUNT
    ensures r.position == pos && r.jailroll == s.jailroll
    ensures r.doubles == if pos == GOTOJAIL then 0 else s.doubles
  {
    GoToJailAt(pos);
    NewState(if SPACES[pos] == GoToJail then 0 else s.doubles, pos, s.jailroll)
  }

  /** A jump out of a state of the chain ends in a state of the chain. */
  lemma JumpStateCanonical(strategy: Strategy, moveState: State, pos: nat)
    requires Canonical(strategy, moveState) && pos < SPACECOUNT
    requires moveState.position == GOTOJAIL ==> pos == GOTOJAIL
    ensures Canonical(strategy, JumpTo(moveState, pos))
  {
    BoardLayout(pos);
  }

  /** Whether `s` is the state of column `c`. */
  ghost predicate Lands(index: map<State, nat>, s: State, c: nat)
  {
    s in index && index[s] == c
  }

  /**
   * The chance that a player who has just come to `s` ends the turn, after every
   * chain of card draws and GoToJail jumps, in the state of column `c`.
   */
  ghost function Reach(jumpmat: array2<Probability>, index: map<State, nat>, s: State, c: nat): real
    reads jumpmat
    requires JumpShape(jumpmat) && s.position < SPACECOUNT
    decreases Rank(SPACES[s.position]), 1, 0
  {
    ReachUpTo(jumpmat, index, s, c, jumpmat.Length1)
  }

  /** The part of `Reach` that goes through a first jump to a position below `n`. */
  ghost function ReachUpTo(jumpmat: array2<Probability>, index: map<State, nat>, s: State, c: nat, n: nat): real
    reads jumpmat
    requires JumpShape(jumpmat) && s.position < SPACECOUNT && n <= jumpmat.Length1
    decreases Rank(SPACES[s.position]), 0, n
  {
    if n == 0 then 0.0
    else ReachUpTo(jumpmat, index, s, c, n - 1) + ReachVia(jumpmat, index, s, c, n - 1)
  }

  /**
   * The part of `Reach` whose first jump goes to `pos`: nothing if that jump never
   * happens; if it stays put, its chance when it rests in column `c`; otherwise its
   * chance times what the state it lands in reaches.
   */
  ghost function ReachVia(jumpmat: array2<Probability>, index: map<State, nat>, s: State, c: nat, pos: nat): real
    reads jumpmat
    requires JumpShape(jumpmat) && s.position < SPACECOUNT && pos < SPACECOUNT
    decreases Rank(SPACES[s.position]), 0, pos
  {
    var prob := jumpmat[s.position, pos];
    if prob == NEVER then 0.0
    else if pos == s.position then (if Lands(index, JumpTo(s, pos), c) then prob.Value() else 0.0)
    else prob.Value() * Reach(jumpmat, index, JumpTo(s, pos), c)
  }

  lemma Assoc(a: real, b: real, c: real)
    ensures (a * b) * c == a * (b * c)
  {
  }

  /** What `s` reaches in each of the first `width` columns. */
  ghost function ReachRow(jumpmat: array2<Probability>, index: map<State, nat>, s: State, width: nat): (r: seq<real>)
    reads jumpmat
    requires JumpShape(jumpmat) && s.position < SPACECOUNT
    ensures |r| == width && forall c :: 0 <= c < width ==> r[c] == Reach(jumpmat, index, s, c)
  {
    seq(width, c requires 0 <= c < width && JumpShape(jumpmat) reads jumpmat => Reach(jumpmat, index, s, c))
  }

  /** `ReachUpTo` in each of the first `width` columns. */
  ghost function ReachRowUpTo(jumpmat: array2<Probability>, index: map<State, nat>, s: State, n: nat, width: nat): (r: seq<real>)
    reads jumpmat
    requires JumpShape(jumpmat) && s.position < SPACECOUNT && n <= jumpmat.Length1
    ensures |r| == width && forall c :: 0 <= c < width ==> r[c] == ReachUpTo(jumpmat, index, s, c, n)
  {
    seq(width, c requires 0 <= c < width && JumpShape(jumpmat) reads jumpmat => ReachUpTo(jumpmat, index, s, c, n))
  }

  /** `ReachVia` in each of the first `width` columns. */
  ghost function ViaRow(jumpmat: array2<Probability>, index: map<State, nat>, s: State, pos: nat, width: nat): (r: seq<real>)
    reads jumpmat
    requires JumpShape(jumpmat) && s.position < SPACECOUNT && pos < SPACECOUNT
    ensures |r| == width && forall c :: 0 <= c < width ==> r[c] == ReachVia(jumpmat, index, s, c, pos)
  {
    seq(width, c requires 0 <= c < width && JumpShape(jumpmat) reads jumpmat => ReachVia(jumpmat, index, s, c, pos))
  }

  /** `xs` plus `a` times `ys`, entry by entry. */
  function Accumulate(xs: seq<real>, a: real, ys: seq<real>): (r: seq<real>)
    requires |xs| == |ys|
    ensures |r| == |xs| && forall k :: 0 <= k < |r| ==> r[k] == xs[k] + a * ys[k]
  {
    seq(|xs|, k requires 0 <= k < |xs| => xs[k] + a * ys[k])
  }

  lemma AccumulateZero(xs: seq<real>, a: real, zs: seq<real>)
    requires |xs| == |zs| && forall k :: 0 <= k < |zs| ==> zs[k] == 0.0
    ensures Accumulate(xs, a, zs) == xs
  {
  }

  /** Two accumulations with the same factor make one, of the sum. */
  lemma AccumulateTwice(r0: seq<real>, r1: seq<real>, r2: seq<real>, a: real, u: seq<real>, v: seq<real>, w: seq<real>)
    requires |u| == |v| == |w| == |r0|
    requires r1 == Accumulate(r0, a, u) && r2 == Accumulate(r1, a, v)
    requires forall k :: 0 <= k < |w| ==> w[k] == u[k] + v[k]
    ensures r2 == Accumulate(r0, a, w)
  {
    forall k | 0 <= k < |w|
      ensures r2[k] == Accumulate(r0, a, w)[k]
    {
      Distribute(a * u[k], a * v[k], a, u[k], v[k]);
    }
  }

  /** Adding `a * b` at one column is accumulating a row that is `b` there and zero elsewhere. */
  lemma AccumulateOne(r0: seq<real>, r1: seq<real>, p: Probability, q: Probability, j: nat, v: seq<real>)
    requires p.denominator > 0 && q.denominator > 0
    requires j < |r0| == |v| && r1 == r0[j := r0[j] + Mul(p, q).Value()]
    requires forall k :: 0 <= k < |v| ==> v[k] == if k == j then q.Value() else 0.0
    ensures r1 == Accumulate(r0, p.Value(), v)
  {
    AccumulateAt(r0, r1, p.Value(), q.Value(), Mul(p, q).Value(), j, v);
  }

  /** `AccumulateOne` over plain reals: adding `m == a * b` at `j` is accumulating `a` times the unit row `b` at `j`. */
  lemma AccumulateAt(r0: seq<real>, r1: seq<real>, a: real, b: real, m: real, j: nat, v: seq<real>)
    requires m == a * b
    requires j < |r0| == |v| && r1 == r0[j := r0[j] + m]
    requires forall k :: 0 <= k < |v| ==> v[k] == if k == j then b else 0.0
    ensures r1 == Accumulate(r0, a, v)
  {
    var acc := Accumulate(r0, a, v);
    forall k | 0 <= k < |v|
      ensures r1[k] == acc[k]
    {
      if k != j {
        assert a * v[k] == 0.0;
      }
    }
  }

  /** Accumulating with the product of two fractions is accumulating entries scaled by the second. */
  lemma AccumulateScaled(r0: seq<real>, p: Probability, q: Probability, x: seq<real>, v: seq<real>)
    requires p.denominator > 0 && q.denominator > 0
    requires |r0| == |x| == |v|
    requires forall k :: 0 <= k < |v| ==> v[k] == q.Value() * x[k]
    ensures Accumulate(r0, Mul(p, q).Value(), x) == Accumulate(r0, p.Value(), v)
  {
    forall k | 0 <= k < |v|
      ensures Accumulate(r0, Mul(p, q).Value(), x)[k] == Accumulate(r0, p.Value(), v)[k]
    {
      Assoc(p.Value(), q.Value(), x[k]);
    }
  }


  /**
   * `process_jumps`: follows every chain of jumps from `moveState` until it rests
   * on a square, adding `probability` times the chance of each chain to row `i` of
   * `combmat`. Only row `i` changes, and its total grows by exactly `probability`.
   */
  method ProcessJumps(i: nat, moveState: State, probability: Probability, ghost strategy: Strategy,
                      index: map<State, nat>, jumpmat: array2<Probability>, combmat: array2<Probability>)
    requires JumpShape(jumpmat) && combmat != jumpmat
    requires Canonical(strategy, moveState) && Indexed(strategy, index, combmat.Length1)
    requires i < combmat.Length0 && probability.denominator > 0 && Proper(combmat)
    modifies combmat
    ensures Proper(combmat)
    ensures forall r, c :: 0 <= r < combmat.Length0 && 0 <= c < combmat.Length1 && r != i ==>
      combmat[r, c] == old(combmat[r, c])
    ensures RowTotal(combmat, i) == old(RowTotal(combmat, i)) + probability.Value()
    ensures RowValues(combmat, i)
      == Accumulate(old(RowValues(combmat, i)), probability.Value(), ReachRow(jumpmat, index, moveState, combmat.Length1))
    decreases Rank(SPACES[moveState.position]), 1
  {
    var position := moveState.position;
    ghost var row := RowOf(jumpmat, position);
    JumpRowTotal(jumpmat, position);
    ghost var shares := Scaled(probability, row);
    ScaledTotal(probability, row);
    ReachStart(jumpmat, index, moveState, RowValues(combmat, i), probability.Value());
    for pos := 0 to SPACECOUNT
      invariant Proper(combmat)
      invariant forall r, c :: 0 <= r < combmat.Length0 && 0 <= c < combmat.Length1 && r != i ==>
        combmat[r, c] == old(combmat[r, c])
      invariant RowTotal(combmat, i) == old(RowTotal(combmat, i)) + Total(shares[..pos])
      invariant RowValues(combmat, i)
        == Accumulate(old(RowValues(combmat, i)), probability.Value(), ReachRowUpTo(jumpmat, index, moveState, pos, combmat.Length1))
    {
      assert shares[pos] == Mul(probability, jumpmat[position, pos]);
      TotalStep(shares, pos);
      ghost var before := RowValues(combmat, i);
      ProcessJump(i, moveState, pos, probability, strategy, index, jumpmat, combmat);
      ReachStep(jumpmat, index, moveState, pos, old(RowValues(combmat, i)), before, RowValues(combmat, i), probability.Value());
    }
    assert shares[..SPACECOUNT] == shares;
    ReachDone(jumpmat, index, moveState, old(RowValues(combmat, i)), RowValues(combmat, i), probability.Value());
  }

  /** Before any jump is followed, nothing has been added. */
  lemma ReachStart(jumpmat: array2<Probability>, index: map<State, nat>, s: State, r0: seq<real>, a: real)
    requires JumpShape(jumpmat) && s.position < SPACECOUNT
    ensures r0 == Accumulate(r0, a, ReachRowUpTo(jumpmat, index, s, 0, |r0|))
  {
    AccumulateZero(r0, a, ReachRowUpTo(jumpmat, index, s, 0, |r0|));
  }

  /** Following the jumps to `pos` after those below it covers the jumps up to `pos + 1`. */
  lemma ReachStep(jumpmat: array2<Probability>, index: map<State, nat>, s: State, pos: nat,
                  r0: seq<real>, r1: seq<real>, r2: seq<real>, a: real)
    requires JumpShape(jumpmat) && s.position < SPACECOUNT && pos < SPACECOUNT && |r1| == |r0|
    requires r1 == Accumulate(r0, a, ReachRowUpTo(jumpmat, index, s, pos, |r0|))
    requires r2 == Accumulate(r1, a, ViaRow(jumpmat, index, s, pos, |r0|))
    ensures r2 == Accumulate(r0, a, ReachRowUpTo(jumpmat, index, s, pos + 1, |r0|))
  {
    AccumulateTwice(r0, r1, r2, a, ReachRowUpTo(jumpmat, index, s, pos, |r0|), ViaRow(jumpmat, index, s, pos, |r0|),
                    ReachRowUpTo(jumpmat, index, s, pos + 1, |r0|));
  }

  /** Following the jumps to every position is following them all. */
  lemma ReachDone(jumpmat: array2<Probability>, index: map<State, nat>, s: State, r0: seq<real>, r1: seq<real>, a: real)
    requires JumpShape(jumpmat) && s.position < SPACECOUNT
    requires r1 == Accumulate(r0, a, ReachRowUpTo(jumpmat, index, s, SPACECOUNT, |r0|))
    ensures r1 == Accumulate(r0, a, ReachRow(jumpmat, index, s, |r0|))
  {
    assert ReachRowUpTo(jumpmat, index, s, SPACECOUNT, |r0|) == ReachRow(jumpmat, index, s, |r0|);
  }

  /**
   * One step of `process_jumps`: the share `probability` times entry (position, pos)
   * of the jump matrix lands in row `i` directly when the jump stays put, goes on
   * through further jumps when it moves, and is nothing when the entry is zero.
   */
  method ProcessJump(i: nat, moveState: State, pos: nat, probability: Probability, ghost strategy: Strategy,
                     index: map<State, nat>, jumpmat: array2<Probability>, combmat: array2<Probability>)
    requires JumpShape(jumpmat) && combmat != jumpmat
    requires Canonical(strategy, moveState) && Indexed(strategy, index, combmat.Length1)
    requires i < combmat.Length0 && pos < SPACECOUNT && probability.denominator > 0 && Proper(combmat)
    modifies combmat
    ensures Proper(combmat)
    ensures forall r, c :: 0 <= r < combmat.Length0 && 0 <= c < combmat.Length1 && r != i ==>
      combmat[r, c] == old(combmat[r, c])
    ensures RowTotal(combmat, i) == old(RowTotal(combmat, i)) + Mul(probability, jumpmat[moveState.position, pos]).Value()
    ensures RowValues(combmat, i)
      == Accumulate(old(RowValues(combmat, i)), probability.Value(), ViaRow(jumpmat, index, moveState, pos, combmat.Length1))
    decreases Rank(SPACES[moveState.position]), 0
  {
    var position := moveState.position;
    var prob := jumpmat[position, pos];
    JumpShapeAt(jumpmat, position, pos);
    ghost var width := combmat.Length1;
    if prob != NEVER {
      var jumpState := JumpTo(moveState, pos);
      JumpStateCanonical(strategy, moveState, pos);
      if pos == position {
        StayJump(i, moveState, probability, strategy, index, jumpmat, combmat);
      } else {
        ProcessJumps(i, jumpState, Mul(probability, prob), strategy, index, jumpmat, combmat);
        MoveVia(jumpmat, index, moveState, pos, old(RowValues(combmat, i)), probability);
      }
    } else {
      NeverShare(probability);
      NeverVia(jumpmat, index, moveState, pos, RowValues(combmat, i), probability.Value());
    }
  }

  /** A jump that stays put adds its share to the column of the state it rests in, and nowhere else. */
  lemma StayVia(jumpmat: array2<Probability>, index: map<State, nat>, s: State, j: nat,
                r0: seq<real>, r1: seq<real>, p: Probability)
    requires JumpShape(jumpmat) && s.position < SPACECOUNT && jumpmat[s.position, s.position] != NEVER
    requires JumpTo(s, s.position) in index && index[JumpTo(s, s.position)] == j
    requires p.denominator > 0 && j < |r0|
    requires r1 == r0[j := r0[j] + Mul(p, jumpmat[s.position, s.position]).Value()]
    ensures r1 == Accumulate(r0, p.Value(), ViaRow(jumpmat, index, s, s.position, |r0|))
  {
    JumpShapeAt(jumpmat, s.position, s.position);
    AccumulateOne(r0, r1, p, jumpmat[s.position, s.position], j, ViaRow(jumpmat, index, s, s.position, |r0|));
  }

  /** A jump that moves passes its share on to what the state it lands in reaches. */
  lemma MoveVia(jumpmat: array2<Probability>, index: map<State, nat>, s: State, pos: nat, r0: seq<real>, p: Probability)
    requires JumpShape(jumpmat) && s.position < SPACECOUNT && pos < SPACECOUNT && pos != s.position
    requires jumpmat[s.position, pos] != NEVER && p.denominator > 0
    ensures Accumulate(r0, Mul(p, jumpmat[s.position, pos]).Value(), ReachRow(jumpmat, index, JumpTo(s, pos), |r0|))
      == Accumulate(r0, p.Value(), ViaRow(jumpmat, index, s, pos, |r0|))
  {
    JumpShapeAt(jumpmat, s.position, pos);
    AccumulateScaled(r0, p, jumpmat[s.position, pos], ReachRow(jumpmat, index, JumpTo(s, pos), |r0|),
                     ViaRow(jumpmat, index, s, pos, |r0|));
  }

  /** A jump that never happens adds nothing. */
  lemma NeverVia(jumpmat: array2<Probability>, index: map<State, nat>, s: State, pos: nat, r0: seq<real>, a: real)
    requires JumpShape(jumpmat) && s.position < SPACECOUNT && pos < SPACECOUNT
    requires jumpmat[s.position, pos] == NEVER
    ensures Accumulate(r0, a, ViaRow(jumpmat, index, s, pos, |r0|)) == r0
  {
    AccumulateZero(r0, a, ViaRow(jumpmat, index, s, pos, |r0|));
  }

  /** A jump that stays put: its share lands in the column of the state it rests in. */
  method StayJump(i: nat, moveState: State, probability: Probability, ghost strategy: Strategy,
                  index: map<State, nat>, jumpmat: array2<Probability>, combmat: array2<Probability>)
    requires JumpShape(jumpmat) && combmat != jumpmat
    requires Canonical(strategy, moveState) && Indexed(strategy, index, combmat.Length1)
    requires i < combmat.Length0 && probability.denominator > 0 && Proper(combmat)
    requires jumpmat[moveState.position, moveState.position] != NEVER
    modifies combmat
    ensures Proper(combmat)
    ensures forall r, c :: 0 <= r < combmat.Length0 && 0 <= c < combmat.Length1 && r != i ==>
      combmat[r, c] == old(combmat[r, c])
    ensures RowTotal(combmat, i)
      == old(RowTotal(combmat, i)) + Mul(probability, jumpmat[moveState.position, moveState.position]).Value()
    ensures RowValues(combmat, i) == Accumulate(old(RowValues(combmat, i)), probability.Value(),
                                                ViaRow(jumpmat, index, moveState, moveState.position, combmat.Length1))
  {
    var position := moveState.position;
    var prob := jumpmat[position, position];
    JumpShapeAt(jumpmat, position, position);
    var jumpState := JumpTo(moveState, position);
    JumpStateCanonical(strategy, moveState, position);
    var j := index[jumpState];
    ghost var before := RowValues(combmat, i);
    var share := Mul(probability, prob);
    AddTo(combmat, i, j, share);
    assert before[j] == old(combmat[i, j]).Value();
    StayVia(jumpmat, index, moveState, j, before, RowValues(combmat, i), probability);
  }

  /** A row of `NEVER` entries totals zero. */
  lemma ZeroRow(m: array2<Probability>, r: nat)
    requires Proper(m) && r < m.Length0
    requires forall c :: 0 <= c < m.Length1 ==> m[r, c] == NEVER
    ensures RowTotal(m, r) == 0.0
  {
    UniformTotal(RowOf(m, r), NEVER);
  }

  /** The index built from the ascending list of states finds every state of the chain. */
  lemma StatesIndexed(strategy: Strategy, states: seq<State>, index: map<State, nat>)
    requires forall s :: s in states <==> Canonical(strategy, s)
    requires forall k :: 0 <= k < |states| ==> states[k] in index && index[states[k]] == k
    ensures Indexed(strategy, index, |states|)
  {
    forall s | Canonical(strategy, s)
      ensures s in index && index[s] < |states|
    {
      var k :| 0 <= k < |states| && states[k] == s;
    }
  }

  /** One for the column of `s`, zero elsewhere, over the first `width` columns. */
  ghost function HitRow(index: map<State, nat>, s: State, width: nat): (r: seq<real>)
    ensures |r| == width && forall c :: 0 <= c < width ==> r[c] == if Lands(index, s, c) then 1.0 else 0.0
  {
    seq(width, c requires 0 <= c < width => if Lands(index, s, c) then 1.0 else 0.0)
  }

  /** How many of `rolls`, thrown from `start`, bring the player to the state of column `c`. */
  ghost function Landings(strategy: Strategy, index: map<State, nat>, start: State, rolls: seq<Dice.Roll>, c: nat): nat
    requires start.position < SPACECOUNT
  {
    if rolls == [] then 0
    else
      var last := rolls[|rolls| - 1];
      Landings(strategy, index, start, rolls[..|rolls| - 1], c) + Hit(Lands(index, MoveState(strategy, start, last), c))
  }

  /** `Landings` in each of the first `width` columns. */
  ghost function LandRow(strategy: Strategy, index: map<State, nat>, start: State, rolls: seq<Dice.Roll>, width: nat): (r: seq<real>)
    requires start.position < SPACECOUNT
    ensures |r| == width && forall c :: 0 <= c < width ==> r[c] == Landings(strategy, index, start, rolls, c) as real
  {
    seq(width, c requires 0 <= c < width => Landings(strategy, index, start, rolls, c) as real)
  }

  /** The total over `rolls`, thrown from `start`, of what each throw's state reaches in column `c`. */
  ghost function ReachSum(jumpmat: array2<Probability>, index: map<State, nat>, strategy: Strategy, start: State,
                          rolls: seq<Dice.Roll>, c: nat): real
    reads jumpmat
    requires JumpShape(jumpmat) && start.position < SPACECOUNT && forall k :: 0 <= k < |rolls| ==> RollOk(rolls[k])
  {
    if rolls == [] then 0.0
    else
      var last := rolls[|rolls| - 1];
      ReachSum(jumpmat, index, strategy, start, rolls[..|rolls| - 1], c)
      + Reach(jumpmat, index, MoveState(strategy, start, last), c)
  }

  /** `ReachSum` in each of the first `width` columns. */
  ghost function ReachSumRow(jumpmat: array2<Probability>, index: map<State, nat>, strategy: Strategy, start: State,
                             rolls: seq<Dice.Roll>, width: nat): (r: seq<real>)
    reads jumpmat
    requires JumpShape(jumpmat) && start.position < SPACECOUNT && forall k :: 0 <= k < |rolls| ==> RollOk(rolls[k])
    ensures |r| == width && forall c :: 0 <= c < width ==> r[c] == ReachSum(jumpmat, index, strategy, start, rolls, c)
  {
    seq(width, c requires 0 <= c < width && JumpShape(jumpmat) reads jumpmat => ReachSum(jumpmat, index, strategy, start, rolls, c))
  }

  /** Adding `x` at the column of `s` is accumulating its `HitRow` with factor `x`. */
  lemma AccumulateHit(index: map<State, nat>, s: State, j: nat, r0: seq<real>, r1: seq<real>, x: real)
    requires Lands(index, s, j) && j < |r0|
    requires r1 == r0[j := r0[j] + x]
    ensures r1 == Accumulate(r0, x, HitRow(index, s, |r0|))
  {
  }

  /** One more throw: its hit row added to the landings of the throws before it. */
  lemma LandStep(strategy: Strategy, index: map<State, nat>, start: State, rolls: seq<Dice.Roll>, k: nat,
                 r0: seq<real>, r1: seq<real>, r2: seq<real>, a: real)
    requires start.position < SPACECOUNT && k < |rolls| && |r1| == |r0|
    requires r1 == Accumulate(r0, a, LandRow(strategy, index, start, rolls[..k], |r0|))
    requires r2 == Accumulate(r1, a, HitRow(index, MoveState(strategy, start, rolls[k]), |r0|))
    ensures r2 == Accumulate(r0, a, LandRow(strategy, index, start, rolls[..k + 1], |r0|))
  {
    assert rolls[..k + 1][..k] == rolls[..k];
    AccumulateTwice(r0, r1, r2, a, LandRow(strategy, index, start, rolls[..k], |r0|),
                    HitRow(index, MoveState(strategy, start, rolls[k]), |r0|),
                    LandRow(strategy, index, start, rolls[..k + 1], |r0|));
  }

  /** One more throw: what its state reaches added to what the throws before it reach. */
  lemma ReachSumStep(jumpmat: array2<Probability>, index: map<State, nat>, strategy: Strategy, start: State,
                     rolls: seq<Dice.Roll>, k: nat, r0: seq<real>, r1: seq<real>, r2: seq<real>, a: real)
    requires JumpShape(jumpmat) && start.position < SPACECOUNT && forall k :: 0 <= k < |rolls| ==> RollOk(rolls[k])
    requires k < |rolls| && |r1| == |r0|
    requires r1 == Accumulate(r0, a, ReachSumRow(jumpmat, index, strategy, start, rolls[..k], |r0|))
    requires r2 == Accumulate(r1, a, ReachRow(jumpmat, index, MoveState(strategy, start, rolls[k]), |r0|))
    ensures r2 == Accumulate(r0, a, ReachSumRow(jumpmat, index, strategy, start, rolls[..k + 1], |r0|))
  {
    assert rolls[..k + 1][..k] == rolls[..k];
    AccumulateTwice(r0, r1, r2, a, ReachSumRow(jumpmat, index, strategy, start, rolls[..k], |r0|),
                    ReachRow(jumpmat, index, MoveState(strategy, start, rolls[k]), |r0|),
                    ReachSumRow(jumpmat, index, strategy, start, rolls[..k + 1], |r0|));
  }

  /** No throws yet: nothing added. */
  lemma NoThrows(jumpmat: array2<Probability>, index: map<State, nat>, strategy: Strategy, start: State,
                 rolls: seq<Dice.Roll>, r0: seq<real>, a: real)
    requires JumpShape(jumpmat) && start.position < SPACECOUNT && forall k :: 0 <= k < |rolls| ==> RollOk(rolls[k])
    ensures r0 == Accumulate(r0, a, LandRow(strategy, index, start, rolls[..0], |r0|))
    ensures r0 == Accumulate(r0, a, ReachSumRow(jumpmat, index, strategy, start, rolls[..0], |r0|))
  {
    assert rolls[..0] == [];
    AccumulateZero(r0, a, LandRow(strategy, index, start, rolls[..0], |r0|));
    AccumulateZero(r0, a, ReachSumRow(jumpmat, index, strategy, start, rolls[..0], |r0|));
  }

  /**
   * The rows of `build_movemat` for one start state: every one of the 36 throws adds
   * 1/36 to the move-matrix entry of the state it reaches, and its jumps add 1/36 in
   * all to row `i` of the combined matrix.
   */
  method MoveRow(strategy: Strategy, start: State, rolls: seq<Dice.Roll>, i: nat, index: map<State, nat>,
                 jumpmat: array2<Probability>, movemat: array2<Probability>, combmat: array2<Probability>)
    requires |rolls| == 36 && forall k :: 0 <= k < |rolls| ==> RollOk(rolls[k])
    requires JumpShape(jumpmat) && movemat != jumpmat && combmat != jumpmat && movemat != combmat
    requires Canonical(strategy, start)
    requires Indexed(strategy, index, movemat.Length1) && Indexed(strategy, index, combmat.Length1)
    requires i < movemat.Length0 && i < combmat.Length0 && Proper(movemat) && Proper(combmat)
    modifies movemat, combmat
    ensures Proper(movemat) && Proper(combmat)
    ensures forall r, c :: 0 <= r < movemat.Length0 && 0 <= c < movemat.Length1 && r != i ==>
      movemat[r, c] == old(movemat[r, c])
    ensures forall r, c :: 0 <= r < combmat.Length0 && 0 <= c < combmat.Length1 && r != i ==>
      combmat[r, c] == old(combmat[r, c])
    ensures RowTotal(movemat, i) == old(RowTotal(movemat, i)) + 1.0
    ensures RowTotal(combmat, i) == old(RowTotal(combmat, i)) + 1.0
    ensures RowValues(movemat, i)
      == Accumulate(old(RowValues(movemat, i)), 1.0 / 36.0, LandRow(strategy, index, start, rolls, movemat.Length1))
    ensures RowValues(combmat, i)
      == Accumulate(old(RowValues(combmat, i)), 1.0 / 36.0, ReachSumRow(jumpmat, index, strategy, start, rolls, combmat.Length1))
  {
    ghost var m0, c0 := RowValues(movemat, i), RowValues(combmat, i);
    ghost var tm, tc := RowTotal(movemat, i), RowTotal(combmat, i);
    RowsStart(strategy, start, rolls, i, index, jumpmat, movemat, combmat);
    for k := 0 to |rolls|
      invariant RowsFilled(strategy, start, rolls, k, i, index, jumpmat, movemat, combmat, m0, c0, tm, tc)
      invariant forall r, c :: 0 <= r < movemat.Length0 && 0 <= c < movemat.Length1 && r != i ==>
        movemat[r, c] == old(movemat[r, c])
      invariant forall r, c :: 0 <= r < combmat.Length0 && 0 <= c < combmat.Length1 && r != i ==>
        combmat[r, c] == old(combmat[r, c])
    {
      RollStep(strategy, start, rolls, k, i, index, jumpmat, movemat, combmat, m0, c0, tm, tc);
    }
    RowsDone(strategy, start, rolls, i, index, jumpmat, movemat, combmat, m0, c0, tm, tc);
  }

  /** Before the first throw of `MoveRow`, the rows hold what they held. */
  lemma RowsStart(strategy: Strategy, start: State, rolls: seq<Dice.Roll>, i: nat, index: map<State, nat>,
                  jumpmat: array2<Probability>, movemat: array2<Probability>, combmat: array2<Probability>)
    requires JumpShape(jumpmat) && start.position < SPACECOUNT && forall j :: 0 <= j < |rolls| ==> RollOk(rolls[j])
    requires i < movemat.Length0 && i < combmat.Length0 && Proper(movemat) && Proper(combmat)
    ensures RowsFilled(strategy, start, rolls, 0, i, index, jumpmat, movemat, combmat,
                       RowValues(movemat, i), RowValues(combmat, i), RowTotal(movemat, i), RowTotal(combmat, i))
  {
    NoThrows(jumpmat, index, strategy, start, rolls, RowValues(movemat, i), 1.0 / 36.0);
    NoThrows(jumpmat, index, strategy, start, rolls, RowValues(combmat, i), 1.0 / 36.0);
  }

  /** After the last throw of `MoveRow`, the rows hold every throw. */
  lemma RowsDone(strategy: Strategy, start: State, rolls: seq<Dice.Roll>, i: nat, index: map<State, nat>,
                 jumpmat: array2<Probability>, movemat: array2<Probability>, combmat: array2<Probability>,
                 m0: seq<real>, c0: seq<real>, tm: real, tc: real)
    requires JumpShape(jumpmat) && start.position < SPACECOUNT && forall j :: 0 <= j < |rolls| ==> RollOk(rolls[j])
    requires |rolls| == 36 && i < movemat.Length0 && i < combmat.Length0
    requires RowsFilled(strategy, start, rolls, |rolls|, i, index, jumpmat, movemat, combmat, m0, c0, tm, tc)
    ensures Proper(movemat) && Proper(combmat)
    ensures RowTotal(movemat, i) == tm + 1.0 && RowTotal(combmat, i) == tc + 1.0
    ensures RowValues(movemat, i) == Accumulate(m0, 1.0 / 36.0, LandRow(strategy, index, start, rolls, movemat.Length1))
    ensures RowValues(combmat, i) == Accumulate(c0, 1.0 / 36.0, ReachSumRow(jumpmat, index, strategy, start, rolls, combmat.Length1))
  {
    assert rolls[..|rolls|] == rolls;
  }

  /**
   * Row `i` of both matrices after the first `k` throws of `MoveRow`: the totals grew by
   * `k` / 36 and the values by 1/36 of the landings and of the reach of those throws.
   */
  ghost predicate RowsFilled(strategy: Strategy, start: State, rolls: seq<Dice.Roll>, k: nat, i: nat, index: map<State, nat>,
                             jumpmat: array2<Probability>, movemat: array2<Probability>, combmat: array2<Probability>,
                             m0: seq<real>, c0: seq<real>, tm: real, tc: real)
    reads jumpmat, movemat, combmat
    requires JumpShape(jumpmat) && start.position < SPACECOUNT && forall j :: 0 <= j < |rolls| ==> RollOk(rolls[j])
    requires k <= |rolls| && i < movemat.Length0 && i < combmat.Length0
  {
    && Proper(movemat) && Proper(combmat)
    && |m0| == movemat.Length1 && |c0| == combmat.Length1
    && RowTotal(movemat, i) == tm + k as real / 36.0
    && RowTotal(combmat, i) == tc + k as real / 36.0
    && RowValues(movemat, i) == Accumulate(m0, 1.0 / 36.0, LandRow(strategy, index, start, rolls[..k], |m0|))
    && RowValues(combmat, i) == Accumulate(c0, 1.0 / 36.0, ReachSumRow(jumpmat, index, strategy, start, rolls[..k], |c0|))
  }

  /** Throw `rolls[k]` in `MoveRow`'s loop: the rows now hold the first `k + 1` throws. */
  method RollStep(strategy: Strategy, start: State, rolls: seq<Dice.Roll>, k: nat, i: nat, index: map<State, nat>,
                  jumpmat: array2<Probability>, movemat: array2<Probability>, combmat: array2<Probability>,
                  ghost m0: seq<real>, ghost c0: seq<real>, ghost tm: real, ghost tc: real)
    requires k < |rolls| && forall k :: 0 <= k < |rolls| ==> RollOk(rolls[k])
    requires JumpShape(jumpmat) && movemat != jumpmat && combmat != jumpmat && movemat != combmat
    requires Canonical(strategy, start)
    requires Indexed(strategy, index, movemat.Length1) && Indexed(strategy, index, combmat.Length1)
    requires i < movemat.Length0 && i < combmat.Length0
    requires RowsFilled(strategy, start, rolls, k, i, index, jumpmat, movemat, combmat, m0, c0, tm, tc)
    modifies movemat, combmat
    ensures RowsFilled(strategy, start, rolls, k + 1, i, index, jumpmat, movemat, combmat, m0, c0, tm, tc)
    ensures forall r, c :: 0 <= r < movemat.Length0 && 0 <= c < movemat.Length1 && r != i ==>
      movemat[r, c] == old(movemat[r, c])
    ensures forall r, c :: 0 <= r < combmat.Length0 && 0 <= c < combmat.Length1 && r != i ==>
      combmat[r, c] == old(combmat[r, c])
  {
    ghost var moveBefore, combBefore := RowValues(movemat, i), RowValues(combmat, i);
    MoveRoll(strategy, start, rolls[k], i, index, jumpmat, movemat, combmat);
    LandStep(strategy, index, start, rolls, k, m0, moveBefore, RowValues(movemat, i), 1.0 / 36.0);
    ReachSumStep(jumpmat, index, strategy, start, rolls, k, c0, combBefore, RowValues(combmat, i), 1.0 / 36.0);
  }

  /** `m[(i, index[s])] += p`: row `i` gains `p` in the column of `s`. */
  method AddHit(m: array2<Probability>, i: nat, index: map<State, nat>, s: State, p: Probability)
    requires Proper(m) && i < m.Length0 && s in index && index[s] < m.Length1 && p.denominator > 0
    modifies m
    ensures Proper(m)
    ensures forall r, c :: 0 <= r < m.Length0 && 0 <= c < m.Length1 && r != i ==> m[r, c] == old(m[r, c])
    ensures RowTotal(m, i) == old(RowTotal(m, i)) + p.Value()
    ensures RowValues(m, i) == Accumulate(old(RowValues(m, i)), p.Value(), HitRow(index, s, m.Length1))
  {
    var j := index[s];
    ghost var before := RowValues(m, i);
    assert before[j] == m[i, j].Value();
    AddTo(m, i, j, p);
    AccumulateHit(index, s, j, before, RowValues(m, i), p.Value());
  }

  /** One throw from `start`: 1/36 to the entry of the state it reaches, and 1/36 through its jumps. */
  method MoveRoll(strategy: Strategy, start: State, roll: Dice.Roll, i: nat, index: map<State, nat>,
                  jumpmat: array2<Probability>, movemat: array2<Probability>, combmat: array2<Probability>)
    requires JumpShape(jumpmat) && movemat != jumpmat && combmat != jumpmat && movemat != combmat
    requires Canonical(strategy, start) && RollOk(roll)
    requires Indexed(strategy, index, movemat.Length1) && Indexed(strategy, index, combmat.Length1)
    requires i < movemat.Length0 && i < combmat.Length0 && Proper(movemat) && Proper(combmat)
    modifies movemat, combmat
    ensures Proper(movemat) && Proper(combmat)
    ensures forall r, c :: 0 <= r < movemat.Length0 && 0 <= c < movemat.Length1 && r != i ==>
      movemat[r, c] == old(movemat[r, c])
    ensures forall r, c :: 0 <= r < combmat.Length0 && 0 <= c < combmat.Length1 && r != i ==>
      combmat[r, c] == old(combmat[r, c])
    ensures RowTotal(movemat, i) == old(RowTotal(movemat, i)) + 1.0 / 36.0
    ensures RowTotal(combmat, i) == old(RowTotal(combmat, i)) + 1.0 / 36.0
    ensures RowValues(movemat, i)
      == Accumulate(old(RowValues(movemat, i)), 1.0 / 36.0, HitRow(index, MoveState(strategy, start, roll), movemat.Length1))
    ensures RowValues(combmat, i)
      == Accumulate(old(RowValues(combmat, i)), 1.0 / 36.0, ReachRow(jumpmat, index, MoveState(strategy, start, roll), combmat.Length1))
  {
    assert ROLL_PROB.Value() == 1.0 / 36.0;
    var moveState := MoveState(strategy, start, roll);
    MoveStateCanonical(strategy, start, roll);
    AddHit(movemat, i, index, moveState, ROLL_PROB);
    ProcessJumps(i, moveState, ROLL_PROB, strategy, index, jumpmat, combmat);
  }

  /** The entry of `movemat` for `start` and column `c`: the share of the 36 throws that land on that state. */
  ghost function MoveProb(strategy: Strategy, index: map<State, nat>, start: State, rolls: seq<Dice.Roll>, c: nat): real
    requires start.position < SPACECOUNT
  {
    Landings(strategy, index, start, rolls, c) as real / 36.0
  }

  /** The entry of `combmat` for `start` and column `c`: the average over the 36 throws of what each reaches there. */
  ghost function CombProb(jumpmat: array2<Probability>, index: map<State, nat>, strategy: Strategy, start: State,
                          rolls: seq<Dice.Roll>, c: nat): real
    reads jumpmat
    requires JumpShape(jumpmat) && start.position < SPACECOUNT && forall k :: 0 <= k < |rolls| ==> RollOk(rolls[k])
  {
    ReachSum(jumpmat, index, strategy, start, rolls, c) / 36.0
  }

  /** Accumulating onto a row of zeros scales the added row. */
  lemma FromZeros(v: seq<real>, r0: seq<real>, a: real, w: seq<real>)
    requires |w| == |r0| && forall k :: 0 <= k < |r0| ==> r0[k] == 0.0
    requires v == Accumulate(r0, a, w)
    ensures forall k :: 0 <= k < |v| ==> v[k] == a * w[k]
  {
  }

  /** Row `i`, empty before, filled with the 36 throws `rolls` from `start`. */
  method FillRow(strategy: Strategy, start: State, rolls: seq<Dice.Roll>, i: nat, index: map<State, nat>,
                 jumpmat: array2<Probability>, movemat: array2<Probability>, combmat: array2<Probability>)
    requires |rolls| == 36 && forall k :: 0 <= k < |rolls| ==> RollOk(rolls[k])
    requires JumpShape(jumpmat) && movemat != jumpmat && combmat != jumpmat && movemat != combmat
    requires Canonical(strategy, start)
    requires Indexed(strategy, index, movemat.Length1) && Indexed(strategy, index, combmat.Length1)
    requires i < movemat.Length0 && i < combmat.Length0 && Proper(movemat) && Proper(combmat)
    requires forall c :: 0 <= c < movemat.Length1 ==> movemat[i, c] == NEVER
    requires forall c :: 0 <= c < combmat.Length1 ==> combmat[i, c] == NEVER
    modifies movemat, combmat
    ensures Proper(movemat) && Proper(combmat)
    ensures forall r, c :: 0 <= r < movemat.Length0 && 0 <= c < movemat.Length1 && r != i ==>
      movemat[r, c] == old(movemat[r, c])
    ensures forall r, c :: 0 <= r < combmat.Length0 && 0 <= c < combmat.Length1 && r != i ==>
      combmat[r, c] == old(combmat[r, c])
    ensures RowTotal(movemat, i) == 1.0 && RowTotal(combmat, i) == 1.0
    ensures forall c :: 0 <= c < movemat.Length1 ==> movemat[i, c].Value() == MoveProb(strategy, index, start, rolls, c)
    ensures forall c :: 0 <= c < combmat.Length1 ==>
      combmat[i, c].Value() == CombProb(jumpmat, index, strategy, start, rolls, c)
  {
    ZeroRow(movemat, i);
    ZeroRow(combmat, i);
    ghost var m0, c0 := RowValues(movemat, i), RowValues(combmat, i);
    MoveRow(strategy, start, rolls, i, index, jumpmat, movemat, combmat);
    MoveEntries(strategy, index, start, rolls, movemat, i, m0);
    CombEntries(strategy, index, start, rolls, jumpmat, combmat, i, c0);
  }

  /** A row of `movemat` filled from zero holds the share of the throws landing in each column. */
  lemma MoveEntries(strategy: Strategy, index: map<State, nat>, start: State, rolls: seq<Dice.Roll>,
                    movemat: array2<Probability>, i: nat, m0: seq<real>)
    requires Proper(movemat) && i < movemat.Length0 && start.position < SPACECOUNT
    requires |m0| == movemat.Length1 && forall c :: 0 <= c < |m0| ==> m0[c] == NEVER.Value()
    requires RowValues(movemat, i) == Accumulate(m0, 1.0 / 36.0, LandRow(strategy, index, start, rolls, movemat.Length1))
    ensures forall c :: 0 <= c < movemat.Length1 ==> movemat[i, c].Value() == MoveProb(strategy, index, start, rolls, c)
  {
    FromZeros(RowValues(movemat, i), m0, 1.0 / 36.0, LandRow(strategy, index, start, rolls, movemat.Length1));
  }

  /** A row of `combmat` filled from zero holds the average over the throws of what each reaches. */
  lemma CombEntries(strategy: Strategy, index: map<State, nat>, start: State, rolls: seq<Dice.Roll>,
                    jumpmat: array2<Probability>, combmat: array2<Probability>, i: nat, c0: seq<real>)
    requires JumpShape(jumpmat) && forall k :: 0 <= k < |rolls| ==> RollOk(rolls[k])
    requires Proper(combmat) && i < combmat.Length0 && start.position < SPACECOUNT
    requires |c0| == combmat.Length1 && forall c :: 0 <= c < |c0| ==> c0[c] == NEVER.Value()
    requires RowValues(combmat, i)
      == Accumulate(c0, 1.0 / 36.0, ReachSumRow(jumpmat, index, strategy, start, rolls, combmat.Length1))
    ensures forall c :: 0 <= c < combmat.Length1 ==>
      combmat[i, c].Value() == CombProb(jumpmat, index, strategy, start, rolls, c)
  {
    FromZeros(RowValues(combmat, i), c0, 1.0 / 36.0, ReachSumRow(jumpmat, index, strategy, start, rolls, combmat.Length1));
  }

  /**
   * Row `r` of `movemat` holds, in each column, the share of the 36 throws `rolls` from
   * `states[r]` that come to the state of that column.
   */
  ghost predicate MoveRowOf(strategy: Strategy, states: seq<State>, index: map<State, nat>, rolls: seq<Dice.Roll>,
                            movemat: array2<Probability>, r: nat)
    reads movemat
    requires Proper(movemat) && r < |states| && r < movemat.Length0
  {
    states[r].position < SPACECOUNT
    && forall c :: 0 <= c < movemat.Length1 ==> movemat[r, c].Value() == MoveProb(strategy, index, states[r], rolls, c)
  }

  /**
   * Row `r` of `combmat` holds, in each column, the average over the 36 throws `rolls` from
   * `states[r]` of the chance that the throw and its jumps end in the state of that column.
   */
  ghost predicate CombRowOf(strategy: Strategy, states: seq<State>, index: map<State, nat>, rolls: seq<Dice.Roll>,
                            jumpmat: array2<Probability>, combmat: array2<Probability>, r: nat)
    reads jumpmat, combmat
    requires JumpShape(jumpmat) && forall k :: 0 <= k < |rolls| ==> RollOk(rolls[k])
    requires Proper(combmat) && r < |states| && r < combmat.Length0
  {
    states[r].position < SPACECOUNT
    && forall c :: 0 <= c < combmat.Length1 ==>
         combmat[r, c].Value() == CombProb(jumpmat, index, strategy, states[r], rolls, c)
  }

  /**
   * The first `k` rows of both matrices are filled in and sum to one, and the rest are
   * still zero, as `build_movemat` leaves them after `k` states.
   */
  ghost predicate RowsBuilt(strategy: Strategy, states: seq<State>, index: map<State, nat>, rolls: seq<Dice.Roll>,
                            jumpmat: array2<Probability>, movemat: array2<Probability>, combmat: array2<Probability>, k: nat)
    reads jumpmat, movemat, combmat
    requires JumpShape(jumpmat) && forall j :: 0 <= j < |rolls| ==> RollOk(rolls[j])
  {
    && k <= |states|
    && movemat.Length0 == movemat.Length1 == combmat.Length0 == combmat.Length1 == |states|
    && Proper(movemat) && Proper(combmat)
    && (forall r :: 0 <= r < k ==> RowTotal(movemat, r) == 1.0 && RowTotal(combmat, r) == 1.0)
    && (forall r :: 0 <= r < k ==> MoveRowOf(strategy, states, index, rolls, movemat, r))
    && (forall r :: 0 <= r < k ==> CombRowOf(strategy, states, index, rolls, jumpmat, combmat, r))
    && (forall r, c :: k <= r < |states| && 0 <= c < |states| ==> movemat[r, c] == NEVER && combmat[r, c] == NEVER)
  }

  /** Row `k` of both matrices, the next state's, filled in after the rows before it. */
  method FillNext(strategy: Strategy, states: seq<State>, index: map<State, nat>, rolls: seq<Dice.Roll>,
                  jumpmat: array2<Probability>, movemat: array2<Probability>, combmat: array2<Probability>, k: nat)
    requires |rolls| == 36 && forall j :: 0 <= j < |rolls| ==> RollOk(rolls[j])
    requires JumpShape(jumpmat) && movemat != jumpmat && combmat != jumpmat && movemat != combmat
    requires k < |states| && Canonical(strategy, states[k])
    requires Indexed(strategy, index, |states|)
    requires RowsBuilt(strategy, states, index, rolls, jumpmat, movemat, combmat, k)
    modifies movemat, combmat
    ensures RowsBuilt(strategy, states, index, rolls, jumpmat, movemat, combmat, k + 1)
  {
    ghost var moveRows, combRows := Rows(movemat), Rows(combmat);
    KeptRowsBefore(strategy, states, index, rolls, jumpmat, movemat, combmat, k, moveRows, combRows);
    FillRow(strategy, states[k], rolls, k, index, jumpmat, movemat, combmat);
    KeptMoveRows(strategy, states, index, rolls, movemat, k, moveRows);
    KeptCombRows(strategy, states, index, rolls, jumpmat, combmat, k, combRows);
    BuiltNext(strategy, states, index, rolls, jumpmat, movemat, combmat, k);
  }

  /** The rows before `k` as they were, row `k` filled in and the rows after it still empty. */
  lemma BuiltNext(strategy: Strategy, states: seq<State>, index: map<State, nat>, rolls: seq<Dice.Roll>,
                  jumpmat: array2<Probability>, movemat: array2<Probability>, combmat: array2<Probability>, k: nat)
    requires JumpShape(jumpmat) && forall j :: 0 <= j < |rolls| ==> RollOk(rolls[j])
    requires k < |states| && movemat.Length0 == movemat.Length1 == combmat.Length0 == combmat.Length1 == |states|
    requires Proper(movemat) && Proper(combmat)
    requires forall r :: 0 <= r < k ==> RowTotal(movemat, r) == 1.0
    requires forall r :: 0 <= r < k ==> MoveRowOf(strategy, states, index, rolls, movemat, r)
    requires forall r :: 0 <= r < k ==> RowTotal(combmat, r) == 1.0
    requires forall r :: 0 <= r < k ==> CombRowOf(strategy, states, index, rolls, jumpmat, combmat, r)
    requires forall r, c :: k < r < |states| && 0 <= c < |states| ==> movemat[r, c] == NEVER
    requires forall r, c :: k < r < |states| && 0 <= c < |states| ==> combmat[r, c] == NEVER
    requires states[k].position < SPACECOUNT
    requires RowTotal(movemat, k) == 1.0 && RowTotal(combmat, k) == 1.0
    requires forall c :: 0 <= c < movemat.Length1 ==> movemat[k, c].Value() == MoveProb(strategy, index, states[k], rolls, c)
    requires forall c :: 0 <= c < combmat.Length1 ==>
      combmat[k, c].Value() == CombProb(jumpmat, index, strategy, states[k], rolls, c)
    ensures RowsBuilt(strategy, states, index, rolls, jumpmat, movemat, combmat, k + 1)
  {
    assert MoveRowOf(strategy, states, index, rolls, movemat, k);
    assert CombRowOf(strategy, states, index, rolls, jumpmat, combmat, k);
  }

  /** The rows of `m`, as sequences. */
  ghost function Rows(m: array2<Probability>): (rows: seq<seq<Probability>>)
    reads m
    ensures |rows| == m.Length0 && forall r :: 0 <= r < m.Length0 ==> rows[r] == RowOf(m, r)
  {
    seq(m.Length0, r requires 0 <= r < m.Length0 reads m => RowOf(m, r))
  }

  /** The rows already built, read from snapshots `moveRows` and `combRows` of the two matrices. */
  lemma KeptRowsBefore(strategy: Strategy, states: seq<State>, index: map<State, nat>, rolls: seq<Dice.Roll>,
                       jumpmat: array2<Probability>, movemat: array2<Probability>, combmat: array2<Probability>, k: nat,
                       moveRows: seq<seq<Probability>>, combRows: seq<seq<Probability>>)
    requires JumpShape(jumpmat) && forall j :: 0 <= j < |rolls| ==> RollOk(rolls[j])
    requires RowsBuilt(strategy, states, index, rolls, jumpmat, movemat, combmat, k)
    requires moveRows == Rows(movemat) && combRows == Rows(combmat)
    ensures forall r :: 0 <= r < k ==> states[r].position < SPACECOUNT
    ensures forall r :: 0 <= r < k ==> Total(moveRows[r]) == 1.0 && Total(combRows[r]) == 1.0
    ensures forall r, c :: k < r < |states| && 0 <= c < |states| ==> moveRows[r][c] == NEVER && combRows[r][c] == NEVER
    ensures forall r, c :: 0 <= r < k && 0 <= c < |states| ==>
      moveRows[r][c].denominator > 0 && moveRows[r][c].Value() == MoveProb(strategy, index, states[r], rolls, c)
    ensures forall r, c :: 0 <= r < k && 0 <= c < |states| ==>
      combRows[r][c].denominator > 0 && combRows[r][c].Value() == CombProb(jumpmat, index, strategy, states[r], rolls, c)
  {
    forall r | 0 <= r < k
      ensures states[r].position < SPACECOUNT
      ensures Total(moveRows[r]) == 1.0 && Total(combRows[r]) == 1.0
    {
      assert MoveRowOf(strategy, states, index, rolls, movemat, r);
      assert RowTotal(movemat, r) == 1.0 && RowTotal(combmat, r) == 1.0;
    }
    forall r, c | 0 <= r < k && 0 <= c < |states|
      ensures moveRows[r][c].denominator > 0 && moveRows[r][c].Value() == MoveProb(strategy, index, states[r], rolls, c)
    {
      assert MoveRowOf(strategy, states, index, rolls, movemat, r);
    }
    forall r, c | 0 <= r < k && 0 <= c < |states|
      ensures combRows[r][c].denominator > 0 && combRows[r][c].Value() == CombProb(jumpmat, index, strategy, states[r], rolls, c)
    {
      assert CombRowOf(strategy, states, index, rolls, jumpmat, combmat, r);
    }
  }

  /** Rows of `movemat` other than row `k`, unchanged from the snapshot `moveRows`, keep what they held. */
  lemma KeptMoveRows(strategy: Strategy, states: seq<State>, index: map<State, nat>, rolls: seq<Dice.Roll>,
                     movemat: array2<Probability>, k: nat, moveRows: seq<seq<Probability>>)
    requires Proper(movemat) && movemat.Length0 == movemat.Length1 == |states| == |moveRows| && k < |states|
    requires forall r :: 0 <= r < |moveRows| ==> |moveRows[r]| == |states|
    requires forall r, c :: 0 <= r < |states| && 0 <= c < |states| && r != k ==> movemat[r, c] == moveRows[r][c]
    requires forall r :: 0 <= r < k ==> states[r].position < SPACECOUNT
    requires forall r :: 0 <= r < k ==> Total(moveRows[r]) == 1.0
    requires forall r, c :: 0 <= r < k && 0 <= c < |states| ==>
      moveRows[r][c].denominator > 0 && moveRows[r][c].Value() == MoveProb(strategy, index, states[r], rolls, c)
    ensures forall r :: 0 <= r < k ==> RowTotal(movemat, r) == 1.0
    requires forall r, c :: k < r < |states| && 0 <= c < |states| ==> moveRows[r][c] == NEVER
    ensures forall r :: 0 <= r < k ==> MoveRowOf(strategy, states, index, rolls, movemat, r)
    ensures forall r, c :: k < r < |states| && 0 <= c < |states| ==> movemat[r, c] == NEVER
  {
    forall r | 0 <= r < k
      ensures RowTotal(movemat, r) == 1.0
    {
      assert RowOf(movemat, r) == moveRows[r];
    }
  }

  /** Rows of `combmat` other than row `k`, unchanged from the snapshot `combRows`, keep what they held. */
  lemma KeptCombRows(strategy: Strategy, states: seq<State>, index: map<State, nat>, rolls: seq<Dice.Roll>,
                     jumpmat: array2<Probability>, combmat: array2<Probability>, k: nat, combRows: seq<seq<Probability>>)
    requires JumpShape(jumpmat) && forall j :: 0 <= j < |rolls| ==> RollOk(rolls[j])
    requires Proper(combmat) && combmat.Length0 == combmat.Length1 == |states| == |combRows| && k < |states|
    requires forall r :: 0 <= r < |combRows| ==> |combRows[r]| == |states|
    requires forall r, c :: 0 <= r < |states| && 0 <= c < |states| && r != k ==> combmat[r, c] == combRows[r][c]
    requires forall r :: 0 <= r < k ==> states[r].position < SPACECOUNT
    requires forall r :: 0 <= r < k ==> Total(combRows[r]) == 1.0
    requires forall r, c :: 0 <= r < k && 0 <= c < |states| ==>
      combRows[r][c].denominator > 0 && combRows[r][c].Value() == CombProb(jumpmat, index, strategy, states[r], rolls, c)
    ensures forall r :: 0 <= r < k ==> RowTotal(combmat, r) == 1.0
    requires forall r, c :: k < r < |states| && 0 <= c < |states| ==> combRows[r][c] == NEVER
    ensures forall r :: 0 <= r < k ==> CombRowOf(strategy, states, index, rolls, jumpmat, combmat, r)
    ensures forall r, c :: k < r < |states| && 0 <= c < |states| ==> combmat[r, c] == NEVER
  {
    forall r | 0 <= r < k
      ensures RowTotal(combmat, r) == 1.0
    {
      assert RowOf(combmat, r) == combRows[r];
    }
  }

  /**
   * `build_movemat`: one row per state of the chain, in index order. Both matrices
   * come out stochastic, so the row and matrix checks of the source all pass, and
   * each entry is the exact share of the 36 throws described by `MoveProb` and `CombProb`.
   */
  method BuildMoveMat(strategy: Strategy, states: seq<State>, index: map<State, nat>, jumpmat: array2<Probability>)
    returns (movemat: array2<Probability>, combmat: array2<Probability>, ghost rolls: seq<Dice.Roll>)
    requires JumpShape(jumpmat)
    requires forall s :: s in states <==> Canonical(strategy, s)
    requires forall k :: 0 <= k < |states| ==> states[k] in index && index[states[k]] == k
    ensures fresh(movemat) && fresh(combmat)
    ensures Dice.AllThrows(rolls) && forall k :: 0 <= k < |rolls| ==> RollOk(rolls[k])
    ensures movemat.Length0 == movemat.Length1 == combmat.Length0 == combmat.Length1 == |states|
    ensures Proper(movemat) && Stochastic(movemat)
    ensures Proper(combmat) && Stochastic(combmat)
    ensures forall r :: 0 <= r < |states| ==> MoveRowOf(strategy, states, index, rolls, movemat, r)
    ensures forall r :: 0 <= r < |states| ==> CombRowOf(strategy, states, index, rolls, jumpmat, combmat, r)
  {
    var n := |states|;
    assert NEVER.Valid();
    movemat := new Probability[n, n]((_, _) => NEVER);
    combmat := new Probability[n, n]((_, _) => NEVER);
    StatesIndexed(strategy, states, index);
    var throws := Throws();
    rolls := throws;
    for k := 0 to n
      invariant RowsBuilt(strategy, states, index, throws, jumpmat, movemat, combmat, k)
    {
      assert states[k] in states;
      FillNext(strategy, states, index, throws, jumpmat, movemat, combmat, k);
    }
  }

  /** The exact transition matrices of the chain under one jail strategy. */
  class TransMatrix {
    var states: seq<State>
    var index: map<State, nat>
    var movemat: array2<Probability>
    var jumpmat: array2<Probability>
    var combinedmat: array2<Probability>
    ghost var strategy: Strategy
    ghost var rolls: seq<Dice.Roll>

    /**
     * The states are those of the chain in index order, each matrix is square over them
     * and every row sums to one; `jumpmat` holds the card and GoToJail jumps of each
     * square, `movemat` the share of the throws moving between two states and
     * `combinedmat` the share of the throws, followed by their jumps, doing so.
     */
    ghost predicate Valid()
      reads this, movemat, jumpmat, combinedmat
    {
      && JumpEntries(jumpmat)
      && |states| == movemat.Length0 == movemat.Length1 == combinedmat.Length0 == combinedmat.Length1
      && (forall k :: 0 <= k < |states| ==> states[k].position < SPACECOUNT && states[k] in index && index[states[k]] == k)
      && Proper(movemat) && Stochastic(movemat)
      && Proper(combinedmat) && Stochastic(combinedmat)
      && Dice.AllThrows(rolls) && (forall k :: 0 <= k < |rolls| ==> RollOk(rolls[k]))
      && (forall r :: 0 <= r < |states| ==> MoveRowOf(strategy, states, index, rolls, movemat, r))
      && (forall r :: 0 <= r < |states| ==> CombRowOf(strategy, states, index, rolls, jumpmat, combinedmat, r))
    }

    /** `TransMatrix::new`, without the floating-point steady state. */
    constructor (strategy: Strategy)
      ensures Valid() && this.strategy == strategy
      ensures forall s :: s in states <==> Canonical(strategy, s)
      ensures |states| == if strategy == PayJail then 118 else 120
    {
      var jumps := BuildJumpMat();
      var chainStates, chainIndex := CreateStates(strategy);
      var moves, combined, throws := BuildMoveMat(strategy, chainStates, chainIndex, jumps);
      states, index := chainStates, chainIndex;
      movemat, jumpmat, combinedmat := moves, jumps, combined;
      this.strategy, rolls := strategy, throws;
    }
  }
}
