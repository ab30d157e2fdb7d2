/** The Chance deck: sixteen cards, ten of which move the player. */
module ChanceCards {
  import opened Spaces

  datatype CHCard =
    | GoGo
    | GoJail
    | GoProperty(group: Byte, index: Byte)
    | GoRail(rail: Byte)
    | GoNextRail
    | GoNextUtil
    | Back3
    | Inconsequential

  const CHCARDS: nat := 16

  /** The cards that send the player to a fixed space, in the order they are put into a fresh deck. */
  const FIXED: seq<CHCard> := [GoGo, GoJail, GoProperty(2, 0), GoProperty(4, 2), GoProperty(7, 1), GoRail(0)]

  /** The cards whose destination depends on where the player stands, in deck order. */
  const RELATIVE: seq<CHCard> := [GoNextRail, GoNextRail, GoNextUtil, Back3]

  /** The cards that move the player, in the order they are put into a fresh deck. */
  const SPECIALS: seq<CHCard> := FIXED + RELATIVE

  /** `build_deck`: the moving cards in order, then `Inconsequential` cards up to `CHCARDS`. */
  method BuildDeck() returns (deck: seq<CHCard>)
    ensures |deck| == CHCARDS
    ensures deck[..|SPECIALS|] == SPECIALS
    ensures forall i :: |SPECIALS| <= i < |deck| ==> deck[i] == Inconsequential
  {
    deck := SPECIALS;
    while |deck| < CHCARDS
      invariant |SPECIALS| <= |deck| <= CHCARDS
      invariant deck[..|SPECIALS|] == SPECIALS
      invariant forall i :: |SPECIALS| <= i < |deck| ==> deck[i] == Inconsequential
      decreases CHCARDS - |deck|
    {
      deck := deck + [Inconsequential];
    }
  }

  /** A fresh deck, as `BuildDeck` returns it. */
  ghost predicate FreshDeck(deck: seq<CHCard>)
  {
    |deck| == CHCARDS && deck[..|SPECIALS|] == SPECIALS
    && forall i :: |SPECIALS| <= i < |deck| ==> deck[i] == Inconsequential
  }

  /** The blank cards that fill a fresh deck up to `CHCARDS`. */
  const PADDING: seq<CHCard> := [Inconsequential, Inconsequential, Inconsequential, Inconsequential, Inconsequential, Inconsequential]

  /** A fresh deck is exactly the moving cards followed by six blanks. */
  lemma FreshDeckContents(deck: seq<CHCard>)
    requires FreshDeck(deck)
    ensures deck == SPECIALS + PADDING
  {
    assert deck[|SPECIALS|..] == PADDING;
    assert deck == deck[..|SPECIALS|] + deck[|SPECIALS|..];
  }

  /** A fresh deck holds two `GoNextRail` cards, one of every other moving card, and six blanks. */
  lemma FreshDeckCounts(deck: seq<CHCard>)
    requires FreshDeck(deck)
    ensures multiset(deck)[GoNextRail] == 2
    ensures multiset(deck)[GoGo] == 1 && multiset(deck)[GoJail] == 1
    ensures multiset(deck)[GoProperty(2, 0)] == 1 && multiset(deck)[GoProperty(4, 2)] == 1
    ensures multiset(deck)[GoProperty(7, 1)] == 1 && multiset(deck)[GoRail(0)] == 1
    ensures multiset(deck)[GoNextUtil] == 1 && multiset(deck)[Back3] == 1
    ensures multiset(deck)[Inconsequential] == CHCARDS - |SPECIALS|
  {
    FreshDeckContents(deck);
    FixedCounted();
    RelativeCounted();
    PaddingCounted();
    assert multiset(deck) == multiset(SPECIALS) + multiset(PADDING);
  }

  /** Each fixed-destination card occurs once among `FIXED`, and no other card does. */
  lemma FixedCounted()
    ensures multiset(FIXED)[GoGo] == 1 && multiset(FIXED)[GoJail] == 1
    ensures multiset(FIXED)[GoProperty(2, 0)] == 1 && multiset(FIXED)[GoProperty(4, 2)] == 1
    ensures multiset(FIXED)[GoProperty(7, 1)] == 1 && multiset(FIXED)[GoRail(0)] == 1
    ensures forall c: CHCard :: !(c.GoGo? || c.GoJail? || c.GoProperty? || c.GoRail?) ==> multiset(FIXED)[c] == 0
  {
  }

  /** `RELATIVE` holds two `GoNextRail` cards, one `GoNextUtil` and one `Back3`, and nothing else. */
  lemma RelativeCounted()
    ensures multiset(RELATIVE)[GoNextRail] == 2
    ensures multiset(RELATIVE)[GoNextUtil] == 1 && multiset(RELATIVE)[Back3] == 1
    ensures forall c: CHCard :: !(c.GoNextRail? || c.GoNextUtil? || c.Back3?) ==> multiset(RELATIVE)[c] == 0
  {
  }

  /** The padding is six blanks and nothing else. */
  lemma PaddingCounted()
    ensures multiset(PADDING)[Inconsequential] == 6
    ensures forall c: CHCard :: c != Inconsequential ==> multiset(PADDING)[c] == 0
  {
  }

  /** The cards that move to a named space name a space of the board. */
  ghost predicate CardOnBoard(card: CHCard)
  {
    (card.GoProperty? ==> Property(card.group, card.index) in SPACES)
    && (card.GoRail? ==> Rail(card.rail) in SPACES)
  }

  ghost predicate CardsOnBoard(deck: seq<CHCard>)
  {
    forall k :: 0 <= k < |deck| ==> CardOnBoard(deck[k])
  }

  /** Each card put into a fresh deck names a space of the board. */
  lemma DealtOnBoard(card: CHCard)
    requires card in SPECIALS + PADDING
    ensures CardOnBoard(card)
  {
    assert SPACES[11] == Property(2, 0) && SPACES[24] == Property(4, 2);
    assert SPACES[39] == Property(7, 1) && SPACES[5] == Rail(0);
  }

  /** Every card of a fresh deck names a space of the board. */
  lemma FreshOnBoard()
    ensures CardsOnBoard(SPECIALS + PADDING)
  {
    var full := SPECIALS + PADDING;
    forall k | 0 <= k < |full|
      ensures CardOnBoard(full[k])
    {
      DealtOnBoard(full[k]);
    }
  }

  /** So does every card of a shuffled fresh deck. */
  lemma ShuffledOnBoard(deck: seq<CHCard>)
    requires multiset(deck) == multiset(SPECIALS + PADDING)
    ensures CardsOnBoard(deck)
  {
    forall k | 0 <= k < |deck|
      ensures CardOnBoard(deck[k])
    {
      assert deck[k] in multiset(deck);
      DealtOnBoard(deck[k]);
    }
  }
}
