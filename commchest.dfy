/** The Community Chest deck: sixteen cards, two of which move the player. */
module ChestCards {
  datatype CCCard = GoGo | GoJail | Inconsequential

  const CCCARDS: nat := 16

  /** The cards that move the player, in the order they are put into a fresh deck. */
  const SPECIALS: seq<CCCard> := [GoJail, GoGo]

  /** `build_deck`: the two moving cards, then `Inconsequential` cards up to `CCCARDS`. */
  method BuildDeck() returns (deck: seq<CCCard>)
    ensures |deck| == CCCARDS
    ensures deck[..|SPECIALS|] == SPECIALS
    ensures forall i :: |SPECIALS| <= i < |deck| ==> deck[i] == Inconsequential
  {
    deck := SPECIALS;
    while |deck| < CCCARDS
      invariant |SPECIALS| <= |deck| <= CCCARDS
      invariant deck[..|SPECIALS|] == SPECIALS
      invariant forall i :: |SPECIALS| <= i < |deck| ==> deck[i] == Inconsequential
      decreases CCCARDS - |deck|
    {
      deck := deck + [Inconsequential];
    }
  }

  /** A fresh deck, as `BuildDeck` returns it. */
  ghost predicate FreshDeck(deck: seq<CCCard>)
  {
    |deck| == CCCARDS && deck[..|SPECIALS|] == SPECIALS
    && forall i :: |SPECIALS| <= i < |deck| ==> deck[i] == Inconsequential
  }

  /** The blank cards that fill a fresh deck up to `CCCARDS`. */
  const PADDING: seq<CCCard> := seq(CCCARDS - |SPECIALS|, _ => Inconsequential)

  /** A fresh deck is exactly the two moving cards followed by fourteen blanks. */
  lemma FreshDeckContents(deck: seq<CCCard>)
    requires FreshDeck(deck)
    ensures deck == SPECIALS + PADDING
  {
    assert deck[|SPECIALS|..] == PADDING;
    assert deck == deck[..|SPECIALS|] + deck[|SPECIALS|..];
  }

  /** A fresh deck holds one card to Go, one card to jail and fourteen blanks. */
  lemma FreshDeckCounts(deck: seq<CCCard>)
    requires FreshDeck(deck)
    ensures deck[0] == GoJail && deck[1] == GoGo
    ensures multiset(deck)[GoGo] == 1 && multiset(deck)[GoJail] == 1
    ensures multiset(deck)[Inconsequential] == CCCARDS - |SPECIALS|
  {
    var pad := deck[|SPECIALS|..];
    assert deck == deck[..|SPECIALS|] + pad;
    assert deck[0] == deck[..|SPECIALS|][0] && deck[1] == deck[..|SPECIALS|][1];
    BlanksCount(pad);
  }

  /** A run of blanks holds no moving card. */
  lemma {:induction false} BlanksCount(pad: seq<CCCard>)
    requires forall i :: 0 <= i < |pad| ==> pad[i] == Inconsequential
    ensures multiset(pad)[Inconsequential] == |pad|
    ensures multiset(pad)[GoGo] == 0 && multiset(pad)[GoJail] == 0
  {
    if pad != [] {
      BlanksCount(pad[1..]);
      assert pad == [pad[0]] + pad[1..];
    }
  }
}
