/** A player's hand (src/Core/Hand.cpp) and its score (src/Game/ScoreCalculator.cpp). */
module Hands {
  import opened Options
  import opened Cards

  /** Points held in a hand. */
  function HandScore(hand: seq<Card>): nat {
    if hand == [] then 0 else HandScore(hand[..|hand| - 1]) + hand[|hand| - 1].ScoreValue()
  }

  /** Sum of the printed numbers. */
  ghost function FaceSum(hand: seq<Card>): nat {
    if hand == [] then 0 else FaceSum(hand[..|hand| - 1]) + Number(hand[|hand| - 1].value)
  }

  ghost function StarsOf(hand: seq<Card>): seq<Card> {
    if hand == [] then []
    else StarsOf(hand[..|hand| - 1]) + if hand[|hand| - 1].IsStarCard() then [hand[|hand| - 1]] else []
  }

  /** A hand costs its printed numbers, with every star counted a second time. */
  lemma {:induction false} StarsCountDouble(hand: seq<Card>)
    ensures HandScore(hand) == FaceSum(hand) + FaceSum(StarsOf(hand))
  {
    if hand != [] {
      StarsCountDouble(hand[..|hand| - 1]);
      var stars := StarsOf(hand[..|hand| - 1]);
      var top := hand[|hand| - 1];
      if top.IsStarCard() {
        assert (stars + [top])[..|stars|] == stars;
      } else {
        assert StarsOf(hand) == stars;
      }
    }
  }

  ghost function CountValue(hand: seq<Card>, v: CardValue): nat {
    if hand == [] then 0
    else CountValue(hand[..|hand| - 1], v) + if hand[|hand| - 1].value == v then 1 else 0
  }

  ghost function CountStars(hand: seq<Card>, v: CardValue): nat {
    if hand == [] then 0
    else CountStars(hand[..|hand| - 1], v)
         + if hand[|hand| - 1].suit == Star && hand[|hand| - 1].value == v then 1 else 0
  }

  /** How often a value counts: once for every card of it, and once more for every star of it. */
  ghost function Counts(hand: seq<Card>, v: CardValue): nat { CountValue(hand, v) + CountStars(hand, v) }

  lemma CountsLast(hand: seq<Card>, v: CardValue)
    requires hand != []
    ensures var c := hand[|hand| - 1];
      Counts(hand, v) == Counts(hand[..|hand| - 1], v)
        + if c.value != v then 0 else if c.suit == Star then 2 else 1
  {
  }

  /** The printed numbers, each as often as it counts. */
  ghost function Printed(hand: seq<Card>): nat {
    Counts(hand, One) + 2 * Counts(hand, Two) + 3 * Counts(hand, Three) + 4 * Counts(hand, Four)
    + 5 * Counts(hand, Five) + 7 * Counts(hand, Seven) + 8 * Counts(hand, Eight)
    + 10 * Counts(hand, Ten) + 11 * Counts(hand, Eleven) + 12 * Counts(hand, Twelve)
    + 13 * Counts(hand, Thirteen) + 14 * Counts(hand, Fourteen) + 20 * Counts(hand, Twenty)
  }

  lemma PrintedLast(hand: seq<Card>)
    requires hand != []
    ensures var c := hand[|hand| - 1];
      Printed(hand) == Printed(hand[..|hand| - 1]) + if c.suit == Star then 2 * Number(c.value) else Number(c.value)
  {
    hide Counts;
    CountsLast(hand, One); CountsLast(hand, Two); CountsLast(hand, Three); CountsLast(hand, Four);
    CountsLast(hand, Five); CountsLast(hand, Seven); CountsLast(hand, Eight); CountsLast(hand, Ten);
    CountsLast(hand, Eleven); CountsLast(hand, Twelve); CountsLast(hand, Thirteen);
    CountsLast(hand, Fourteen); CountsLast(hand, Twenty);
  }

  /** The score of a hand by the values printed on its cards. */
  lemma {:induction false} ScoreByValues(hand: seq<Card>)
    ensures HandScore(hand) == Printed(hand)
  {
    if hand != [] {
      ScoreByValues(hand[..|hand| - 1]);
      PrintedLast(hand);
      hide Printed;
    }
  }

  /** One more card costs its printed number, and twice that if it is of the suit Star. */
  lemma ScoreOneMore(hand: seq<Card>, c: Card)
    ensures HandScore([]) == 0
    ensures HandScore(hand + [c]) - HandScore(hand) ==
      (if c.suit == Star then 2 else 1) *
      match c.value
      case One => 1 case Two => 2 case Three => 3 case Four => 4 case Five => 5
      case Seven => 7 case Eight => 8 case Ten => 10 case Eleven => 11
      case Twelve => 12 case Thirteen => 13 case Fourteen => 14 case Twenty => 20
  {
    assert (hand + [c])[..|hand|] == hand;
  }

  function Without<T>(s: seq<T>, i: nat): seq<T>
    requires i < |s|
  {
    s[..i] + s[i + 1..]
  }

  /** Taking one out keeps the others in order. */
  lemma WithoutKeepsOrder<T>(s: seq<T>, i: nat)
    requires i < |s|
    ensures |Without(s, i)| == |s| - 1
    ensures forall k :: 0 <= k < i ==> Without(s, i)[k] == s[k]
    ensures forall k :: i <= k < |s| - 1 ==> Without(s, i)[k] == s[k + 1]
  {
  }

  /** The playable positions of a hand, each once and in order. */
  ghost predicate IsPlayableList(indices: seq<nat>, hand: seq<Card>, call: Card) {
    && (forall i: nat :: i in indices <==> i < |hand| && hand[i].CanPlayOn(call))
    && (forall a, b :: 0 <= a < b < |indices| ==> indices[a] < indices[b])
  }

  class Hand {
    var cards: seq<Card>

    constructor ()
      ensures cards == []
    {
      cards := [];
    }

    predicate IsEmpty() reads this { |cards| == 0 }

    method AddCard(card: Card)
      modifies this
      ensures cards == old(cards) + [card]
    {
      cards := cards + [card];
    }

    /** Takes out the card at an index; nothing happens for an index past the end. */
    method PlayCard(index: nat) returns (card: Option<Card>)
      modifies this
      ensures index >= old(|cards|) ==> card == None && cards == old(cards)
      ensures index < old(|cards|) ==>
        card == Some(old(cards)[index]) && cards == Without(old(cards), index)
      ensures index < old(|cards|) ==> cards == old(cards)[..index] + old(cards)[index + 1..]
    {
      if index >= |cards| { return None; }
      card := Some(cards[index]);
      cards := cards[..index] + cards[index + 1..];
    }

    method GetPlayableCardIndices(call: Card) returns (indices: seq<nat>)
      ensures IsPlayableList(indices, cards, call)
      ensures forall i: nat :: i in indices <==>
        i < |cards|
        && (cards[i].value == Twenty || cards[i].suit == call.suit || cards[i].value == call.value)
    {
      indices := [];
      for i := 0 to |cards|
        invariant IsPlayableList(indices, cards[..i], call)
      {
        assert forall a :: 0 <= a < |indices| ==> indices[a] in indices;
        if cards[i].CanPlayOn(call) {
          indices := indices + [i];
        }
      }
      assert cards[..|cards|] == cards;
    }

    method CalculateTotalScore() returns (score: nat)
      ensures score == HandScore(cards)
    {
      score := 0;
      for i := 0 to |cards|
        invariant score == HandScore(cards[..i])
      {
        assert cards[..i + 1][..i] == cards[..i];
        score := score + cards[i].ScoreValue();
      }
      assert cards[..|cards|] == cards;
    }
  }
}
