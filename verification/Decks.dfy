/** The deck (src/Core/Deck.cpp): the standard 54 cards, drawing, shuffling and reshuffling. */
module Decks {
  import opened Options
  import opened Cards
  import Random

  const STANDARD_DECK_SIZE := 54
  const WHOT_CARDS_COUNT := 5

  // ---------- What the deck should hold ----------

  /** How many copies of a card a standard deck holds, read off the printed card list. */
  function CopiesInDeck(c: Card): nat {
    match c.suit
    case Whot => if c.value == Twenty then WHOT_CARDS_COUNT else 0
    case Circle => if c.value == Twenty then 0 else 1
    case Triangle => if c.value == Twenty then 0 else 1
    case Star => if c.value in {One, Two, Three, Four, Five, Seven, Eight} then 1 else 0
    case _ =>
      if c.value in {One, Two, Three, Five, Seven, Ten, Eleven, Thirteen, Fourteen} then 1 else 0
  }

  /** A sequence of cards is a standard deck, in whatever order. */
  ghost predicate IsStandardDeck(cards: seq<Card>) {
    |cards| == STANDARD_DECK_SIZE && forall c: Card :: multiset(cards)[c] == CopiesInDeck(c)
  }

  /** The printed card list, suit by suit. */
  lemma StandardDeckHolds(cards: seq<Card>, v: CardValue)
    requires IsStandardDeck(cards)
    ensures multiset(cards)[Card(Circle, v)] == multiset(cards)[Card(Triangle, v)] == (if v == Twenty then 0 else 1)
    ensures multiset(cards)[Card(Cross, v)] == multiset(cards)[Card(Block, v)]
         == if v in {Four, Eight, Twelve, Twenty} then 0 else 1
    ensures multiset(cards)[Card(Star, v)] == if v in {One, Two, Three, Four, Five, Seven, Eight} then 1 else 0
    ensures multiset(cards)[Card(Whot, v)] == if v == Twenty then 5 else 0
  {
  }

  /** The numbers a suit loop visits. */
  ghost function Visited(last: nat, omitted: set<int>): set<int> {
    set n | 1 <= n <= last && n !in omitted
  }

  /** Going from one bag to the other adds exactly one card of the suit for each visited number. */
  ghost predicate AddsOne(before: multiset<Card>, after: multiset<Card>, suit: Suit, visited: set<int>, c: Card) {
    after[c] == before[c] + if c.suit == suit && Number(c.value) in visited then 1 else 0
  }

  lemma DeckAddsUp()
    ensures 2 * |Visited(14, {6, 9})| + 2 * |Visited(14, {4, 6, 8, 9, 12})| + |Visited(8, {6, 9})|
            + WHOT_CARDS_COUNT == STANDARD_DECK_SIZE
  {
    VisitedNumbers();
  }

  /** A card of the suit for one more number. */
  lemma OneNumberMore(before: multiset<Card>, cards: seq<Card>, suit: Suit, seen: set<int>, n: int)
    requires LegalNumber(n) && n !in seen
    requires forall c: Card :: AddsOne(before, multiset(cards), suit, seen, c)
    ensures forall c: Card :: AddsOne(before, multiset(cards + [Card(suit, ValueOf(n))]), suit, seen + {n}, c)
  {
    var added := Card(suit, ValueOf(n));
    forall c: Card ensures AddsOne(before, multiset(cards + [added]), suit, seen + {n}, c) {
      assert AddsOne(before, multiset(cards), suit, seen, c);
      NumberTells(c.value, added.value);
    }
  }

  lemma NumberTells(v: CardValue, w: CardValue)
    ensures v == w <==> Number(v) == Number(w)
  {
  }

  /** The three number lists the suit loops run through. */
  lemma VisitedNumbers()
    ensures Visited(14, {6, 9}) == {1, 2, 3, 4, 5, 7, 8, 10, 11, 12, 13, 14}
    ensures Visited(14, {4, 6, 8, 9, 12}) == {1, 2, 3, 5, 7, 10, 11, 13, 14}
    ensures Visited(8, {6, 9}) == {1, 2, 3, 4, 5, 7, 8}
  {
  }

  /** The suit loops and the Whot loop together add every card's printed number of copies. */
  lemma LoopsGivePrintedDeck(b0: multiset<Card>, b1: multiset<Card>, b2: multiset<Card>, b3: multiset<Card>,
        b4: multiset<Card>, b5: multiset<Card>, b6: multiset<Card>, c: Card)
    requires AddsOne(b0, b1, Circle, Visited(14, {6, 9}), c)
    requires AddsOne(b1, b2, Triangle, Visited(14, {6, 9}), c)
    requires AddsOne(b2, b3, Cross, Visited(14, {4, 6, 8, 9, 12}), c)
    requires AddsOne(b3, b4, Block, Visited(14, {4, 6, 8, 9, 12}), c)
    requires AddsOne(b4, b5, Star, Visited(8, {6, 9}), c)
    requires b6 == b5 + NCopies(Card(Whot, Twenty), WHOT_CARDS_COUNT)
    ensures b6[c] == b0[c] + CopiesInDeck(c)
  {
    VisitedNumbers();
  }

  // ---------- What a reshuffle keeps ----------

  /** The discards a reshuffle takes back: every one that differs from the call card. */
  function Kept(discards: seq<Card>, call: Card): seq<Card> {
    if discards == [] then []
    else (if discards[0] == call then [] else [discards[0]]) + Kept(discards[1..], call)
  }

  /** n copies of one card. */
  ghost function NCopies(c: Card, n: nat): multiset<Card> { multiset{}[c := n] }

  lemma {:induction false} KeptSplits(discards: seq<Card>, call: Card)
    ensures multiset(discards) == multiset(Kept(discards, call)) + NCopies(call, multiset(discards)[call])
    ensures |Kept(discards, call)| + multiset(discards)[call] == |discards|
  {
    if discards != [] {
      KeptSplits(discards[1..], call);
      assert discards == [discards[0]] + discards[1..];
    }
  }

  lemma {:induction false} KeptPrefix(discards: seq<Card>, c: Card, call: Card)
    ensures Kept(discards + [c], call) == Kept(discards, call) + (if c == call then [] else [c])
  {
    if discards == [] {
      assert discards + [c] == [c];
    } else {
      KeptPrefix(discards[1..], c, call);
      assert (discards + [c])[1..] == discards[1..] + [c];
    }
  }

  lemma SwapKeepsBag(s: seq<Card>, i: nat, j: nat)
    requires i < |s| && j < |s|
    ensures multiset(s[i := s[j]][j := s[i]]) == multiset(s)
  {
  }

  // ---------- The mutable deck ----------

  class Deck {
    var cards: seq<Card>   // the top of the deck is the last element

    /** A new deck is a full, shuffled one. */
    constructor ()
      ensures IsStandardDeck(cards)
    {
      cards := [];
      new;
      CreateDeck();
      Shuffle();
    }

    predicate IsEmpty() reads this { |cards| == 0 }

    /** A suit loop adds one card for each number it does not skip. */
    method AddSuit(suit: Suit, last: nat, omitted: set<int>)
      requires last <= 14 && 6 in omitted && 9 in omitted
      modifies this
      ensures |cards| == old(|cards|) + |Visited(last, omitted)|
      ensures forall c: Card :: AddsOne(old(multiset(cards)), multiset(cards), suit, Visited(last, omitted), c)
    {
      hide ValueOf;
      ghost var seen: set<int> := {};
      for i := 1 to last + 1
        invariant seen == Visited(i - 1, omitted)
        invariant |cards| == old(|cards|) + |seen|
        invariant forall c: Card :: AddsOne(old(multiset(cards)), multiset(cards), suit, seen, c)
      {
        if i in omitted { continue; }
        OneNumberMore(old(multiset(cards)), cards, suit, seen, i);
        cards := cards + [Card(suit, ValueOf(i))];
        seen := seen + {i};
      }
    }

    method AddWhotCards()
      modifies this
      ensures |cards| == old(|cards|) + WHOT_CARDS_COUNT
      ensures multiset(cards) == old(multiset(cards)) + NCopies(Card(Whot, Twenty), WHOT_CARDS_COUNT)
    {
      for i := 0 to WHOT_CARDS_COUNT
        invariant |cards| == old(|cards|) + i
        invariant multiset(cards) == old(multiset(cards)) + NCopies(Card(Whot, Twenty), i)
      {
        cards := cards + [Card(Whot, Twenty)];
      }
    }

    /** The suit loops add exactly the printed card list to whatever the deck holds. */
    method CreateDeck()
      modifies this
      ensures |cards| == old(|cards|) + STANDARD_DECK_SIZE
      ensures forall c: Card :: multiset(cards)[c] == old(multiset(cards))[c] + CopiesInDeck(c)
    {
      hide AddsOne, Visited, CopiesInDeck, NCopies;
      DeckAddsUp();
      ghost var b0 := multiset(cards);
      AddSuit(Circle, 14, {6, 9});
      ghost var b1 := multiset(cards);
      AddSuit(Triangle, 14, {6, 9});
      ghost var b2 := multiset(cards);
      AddSuit(Cross, 14, {4, 6, 8, 9, 12});
      ghost var b3 := multiset(cards);
      AddSuit(Block, 14, {4, 6, 8, 9, 12});
      ghost var b4 := multiset(cards);
      AddSuit(Star, 8, {6, 9});
      ghost var b5 := multiset(cards);
      AddWhotCards();
      forall c: Card ensures multiset(cards)[c] == b0[c] + CopiesInDeck(c) {
        LoopsGivePrintedDeck(b0, b1, b2, b3, b4, b5, multiset(cards), c);
      }
    }

    /** Any permutation may result, and no card is gained or lost. */
    method Shuffle()
      modifies this
      ensures multiset(cards) == old(multiset(cards)) && |cards| == old(|cards|)
    {
      var i := |cards|;
      while i > 1
        invariant 0 <= i <= |cards|
        invariant multiset(cards) == old(multiset(cards)) && |cards| == old(|cards|)
      {
        i := i - 1;
        var j := Random.NextInt(0, i);
        SwapKeepsBag(cards, i, j);
        cards := cards[i := cards[j]][j := cards[i]];
      }
    }

    method Draw() returns (card: Option<Card>)
      modifies this
      ensures old(cards) == [] ==> card == None && cards == []
      ensures old(cards) != [] ==> card.Some? && cards + [card.value] == old(cards)
    {
      if |cards| == 0 { return None; }
      card := Some(cards[|cards| - 1]);
      cards := cards[..|cards| - 1];
    }

    method Clear()
      modifies this
      ensures cards == []
    {
      cards := [];
    }

    method Reset()
      modifies this
      ensures IsStandardDeck(cards)
    {
      Clear();
      CreateDeck();
      Shuffle();
    }

    method ReshuffleFromDiscardPile(discards: seq<Card>, call: Card)
      modifies this
      ensures multiset(cards) == old(multiset(cards)) + multiset(Kept(discards, call))
    {
      for i := 0 to |discards|
        invariant cards == old(cards) + Kept(discards[..i], call)
      {
        KeptPrefix(discards[..i], discards[i], call);
        assert discards[..i + 1] == discards[..i] + [discards[i]];
        if discards[i] != call {
          cards := cards + [discards[i]];
        }
      }
      assert discards[..|discards|] == discards;
      Shuffle();
    }
  }
}
