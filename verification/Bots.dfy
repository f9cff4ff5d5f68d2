/**
 The computer players (src/AI/Strategy.cpp, src/AI/DifficultyLevel.cpp, src/AI/AIPlayer.cpp): how a
 card is chosen, and which decisions the engine accepts.
 */
module Bots {
  import opened Options
  import opened Cards
  import opened Hands
  import opened Tables
  import opened Games
  import opened Invariants
  import opened GameStates
  import Turns
  import Random

  datatype DifficultyLevel = Easy | Medium | Hard
  datatype Strategy = RandomStrategy | AggressiveStrategy | DefensiveStrategy | BalancedStrategy

  function CreateStrategy(level: DifficultyLevel): Strategy {
    match level
    case Easy => RandomStrategy
    case Medium => BalancedStrategy
    case Hard => AggressiveStrategy
  }

  predicate ShouldMakeMistakes(level: DifficultyLevel) { level != Hard }

  // ---------- Choosing a card ----------

  function EvaluateCardValue(card: Card): int {
    if card.Ability() == GeneralMarket then 14
    else if card.Ability() == HoldOn then 10
    else if card.value == Eight then 8
    else if card.Ability() == PickTwo then 5
    else if card.value == Five then 4
    else if card.Ability() == WhotCard then 12
    else Number(card.value)
  }

  function DefensiveValue(card: Card): int {
    if card.Ability() == PickTwo || card.value == Five then -10
    else if card.Ability() == WhotCard then 20
    else card.ScoreValue()
  }

  function PlainValue(card: Card): int { card.ScoreValue() }

  /** The values from the most to the least wanted by the aggressive strategy. */
  const RANKING := [Fourteen, Thirteen, Twelve, Twenty, Eleven, Ten, One, Eight, Seven, Two, Five, Four, Three]

  /** The ranking is strict but for three ties: Twelve and Twenty, Ten and One, Five and Four. */
  lemma RankingDecides(a: nat, b: nat, c: Card, d: Card)
    requires a < b < |RANKING| && c.value == RANKING[a] && d.value == RANKING[b]
    ensures EvaluateCardValue(c) >= EvaluateCardValue(d)
    ensures EvaluateCardValue(c) == EvaluateCardValue(d) <==>
      (c.value, d.value) in {(Twelve, Twenty), (Ten, One), (Five, Four)}
  {
  }

  ghost predicate InHand(indices: seq<nat>, hand: seq<Card>) {
    forall i :: 0 <= i < |indices| ==> indices[i] < |hand|
  }

  /** The listed index at position p is the first of those with the greatest worth. */
  ghost predicate FirstGreatest(indices: seq<nat>, hand: seq<Card>, worth: Card -> int, p: int) {
    && InHand(indices, hand) && 0 <= p < |indices|
    && (forall q :: 0 <= q < |indices| ==> worth(hand[indices[q]]) <= worth(hand[indices[p]]))
    && (forall q :: 0 <= q < p ==> worth(hand[indices[q]]) < worth(hand[indices[p]]))
  }

  function Negated(worth: Card -> int): Card -> int { (c: Card) => -worth(c) }

  /** Keeps the first index whose card is worth more than any before it. */
  method Highest(indices: seq<nat>, hand: seq<Card>, worth: Card -> int) returns (best: nat)
    requires indices != [] && InHand(indices, hand)
    requires forall c: Card :: worth(c) > -1
    ensures exists p :: FirstGreatest(indices, hand, worth, p) && best == indices[p]
  {
    best := indices[0];
    var bestVal: int := -1;
    ghost var p := 0;
    for i := 0 to |indices|
      invariant i == 0 ==> bestVal == -1 && p == 0
      invariant i > 0 ==> 0 <= p < i && best == indices[p] && bestVal == worth(hand[best])
      invariant forall q :: 0 <= q < i ==> worth(hand[indices[q]]) <= bestVal
      invariant p <= i
      invariant forall q :: 0 <= q < p ==> worth(hand[indices[q]]) < bestVal
    {
      var v := worth(hand[indices[i]]);
      if v > bestVal { bestVal, best, p := v, indices[i], i; }
    }
    assert FirstGreatest(indices, hand, worth, p);
  }

  /** Keeps the first index whose card is worth less than any before it. */
  method Lowest(indices: seq<nat>, hand: seq<Card>, worth: Card -> int) returns (best: nat)
    requires indices != [] && InHand(indices, hand)
    requires forall c: Card :: worth(c) < 999
    ensures exists p :: FirstGreatest(indices, hand, Negated(worth), p) && best == indices[p]
  {
    best := indices[0];
    var bestVal := 999;
    ghost var p := 0;
    for i := 0 to |indices|
      invariant i == 0 ==> bestVal == 999 && p == 0
      invariant i > 0 ==> 0 <= p < i && best == indices[p] && bestVal == worth(hand[best])
      invariant forall q :: 0 <= q < i ==> worth(hand[indices[q]]) >= bestVal
      invariant p <= i
      invariant forall q :: 0 <= q < p ==> worth(hand[indices[q]]) > bestVal
    {
      var v := worth(hand[indices[i]]);
      if v < bestVal { bestVal, best, p := v, indices[i], i; }
    }
    assert FirstGreatest(indices, hand, Negated(worth), p);
  }

  /** What a strategy may answer: always a listed index, and for all but the random one the best. */
  ghost predicate StrategyPicks(s: Strategy, indices: seq<nat>, hand: seq<Card>, r: nat) {
    match s
    case RandomStrategy => r in indices
    case AggressiveStrategy =>
      exists p :: FirstGreatest(indices, hand, EvaluateCardValue, p) && r == indices[p]
    case DefensiveStrategy =>
      exists p :: FirstGreatest(indices, hand, Negated(DefensiveValue), p) && r == indices[p]
    case BalancedStrategy =>
      if |hand| <= 3 then exists p :: FirstGreatest(indices, hand, EvaluateCardValue, p) && r == indices[p]
      else exists p :: FirstGreatest(indices, hand, Negated(PlainValue), p) && r == indices[p]
  }

  method SelectCard(s: Strategy, hand: seq<Card>, playable: seq<nat>) returns (r: nat)
    requires InHand(playable, hand)
    ensures playable == [] ==> r == 0
    ensures playable != [] ==> r in playable && StrategyPicks(s, playable, hand, r)
  {
    if |playable| == 0 { return 0; }
    match s {
      case RandomStrategy =>
        var i := Random.NextInt(0, |playable| - 1);
        r := playable[i];
      case AggressiveStrategy => r := Highest(playable, hand, EvaluateCardValue);
      case DefensiveStrategy => r := Lowest(playable, hand, DefensiveValue);
      case BalancedStrategy =>
        if |hand| <= 3 {
          r := Highest(playable, hand, EvaluateCardValue);
        } else {
          r := Lowest(playable, hand, PlainValue);
        }
    }
  }

  // ---------- Choosing a suit ----------

  const SUITS := [Circle, Triangle, Cross, Block, Star, Whot]

  function SuitCount(hand: seq<Card>, s: Suit): nat {
    if hand == [] then 0
    else SuitCount(hand[..|hand| - 1], s) + if hand[|hand| - 1].suit == s then 1 else 0
  }

  /** The count of one more card, and the order of the suits. */
  lemma SuitCountOneMore(hand: seq<Card>, c: Card, s: Suit)
    ensures SuitCount([], s) == 0
    ensures SuitCount(hand + [c], s) == SuitCount(hand, s) + if c.suit == s then 1 else 0
    ensures SUITS == [Circle, Triangle, Cross, Block, Star, Whot]
  {
    assert (hand + [c])[..|hand|] == hand;
  }

  /** The five plain suits are always counted, the Whot suit only when it is held. */
  method CountSuits(hand: seq<Card>) returns (counts: map<Suit, int>)
    ensures forall s :: s in counts <==> s != Whot || SuitCount(hand, Whot) > 0
    ensures forall s :: s in counts ==> counts[s] == SuitCount(hand, s)
  {
    counts := map[Circle := 0, Triangle := 0, Cross := 0, Block := 0, Star := 0];
    for i := 0 to |hand|
      invariant forall s :: s in counts <==> s != Whot || SuitCount(hand[..i], Whot) > 0
      invariant forall s :: s in counts ==> counts[s] == SuitCount(hand[..i], s)
    {
      assert hand[..i + 1][..i] == hand[..i];
      var s := hand[i].suit;
      counts := counts[s := (if s in counts then counts[s] else 0) + 1];
    }
    assert hand[..|hand|] == hand;
  }

  /** The suit held most often, the first in suit order among equals; it can be the Whot suit itself. */
  method SelectSuit(hand: seq<Card>) returns (best: Suit)
    ensures exists p :: 0 <= p < |SUITS| && SUITS[p] == best && MostHeld(hand, p)
  {
    var counts := CountSuits(hand);
    best := Circle;
    var maxCount := -1;
    ghost var p := 0;
    for i := 0 to |SUITS|
      invariant i > 0 ==> maxCount >= 0
      invariant 0 <= p <= i && p < |SUITS| && best == SUITS[p]
      invariant maxCount >= 0 ==> maxCount == SuitCount(hand, best)
      invariant forall q :: 0 <= q < i ==> SuitCount(hand, SUITS[q]) <= maxCount
      invariant forall q :: 0 <= q < p ==> SuitCount(hand, SUITS[q]) < maxCount
    {
      if SUITS[i] in counts && counts[SUITS[i]] > maxCount {
        maxCount, best, p := counts[SUITS[i]], SUITS[i], i;
      }
    }
    assert MostHeld(hand, p);
  }

  ghost predicate MostHeld(hand: seq<Card>, p: int)
    requires 0 <= p < |SUITS|
  {
    && (forall q :: 0 <= q < |SUITS| ==> SuitCount(hand, SUITS[q]) <= SuitCount(hand, SUITS[p]))
    && (forall q :: 0 <= q < p ==> SuitCount(hand, SUITS[q]) < SuitCount(hand, SUITS[p]))
  }

  method ShouldDefend(s: Strategy, defense: seq<nat>) returns (defend: bool)
    ensures defense == [] ==> !defend
    ensures defense != [] && s != RandomStrategy ==> defend
  {
    if |defense| == 0 { return false; }
    if s == RandomStrategy { defend := Random.NextBool(); } else { defend := true; }
  }

  /** Some suit is the first of those held most often. */
  lemma {:induction false} SomeMostHeld(hand: seq<Card>, n: nat) returns (p: nat)
    requires 0 < n <= |SUITS|
    ensures p < n && forall q :: 0 <= q < n ==> SuitCount(hand, SUITS[q]) <= SuitCount(hand, SUITS[p])
    ensures forall q :: 0 <= q < p ==> SuitCount(hand, SUITS[q]) < SuitCount(hand, SUITS[p])
  {
    p := 0;
    if n > 1 {
      p := SomeMostHeld(hand, n - 1);
      if SuitCount(hand, SUITS[n - 1]) > SuitCount(hand, SUITS[p]) { p := n - 1; }
    }
  }

  // ---------- The greedy pick ----------

  /** A match of the greatest worth among the matches, and the first of those. */
  ghost predicate IsGreedy(hand: seq<Card>, call: Card, i: int) {
    && 0 <= i < |hand| && hand[i].CanPlayOn(call)
    && (forall j :: 0 <= j < |hand| && hand[j].CanPlayOn(call) ==>
          EvaluateCardValue(hand[j]) <= EvaluateCardValue(hand[i]))
    && (forall j :: 0 <= j < i && hand[j].CanPlayOn(call) ==>
          EvaluateCardValue(hand[j]) < EvaluateCardValue(hand[i]))
  }

  /** The aggressive strategy's card, read off the hand. */
  function GreedyPick(hand: seq<Card>, call: Card): (pick: Option<nat>)
    ensures pick.None? <==> forall i :: 0 <= i < |hand| ==> !hand[i].CanPlayOn(call)
    ensures pick.Some? ==> pick.value < |hand| && hand[pick.value].CanPlayOn(call)
  {
    if hand == [] then None
    else
      var n := |hand| - 1;
      var before := GreedyPick(hand[..n], call);
      if hand[n].CanPlayOn(call)
         && (before.None? || EvaluateCardValue(hand[before.value]) < EvaluateCardValue(hand[n]))
      then Some(n) else before
  }

  lemma {:induction false} GreedyPickIsGreedy(hand: seq<Card>, call: Card)
    requires GreedyPick(hand, call).Some?
    ensures IsGreedy(hand, call, GreedyPick(hand, call).value)
  {
    hide EvaluateCardValue;
    var n := |hand| - 1;
    if GreedyPick(hand[..n], call).Some? { GreedyPickIsGreedy(hand[..n], call); }
  }

  /** There is only one greedy pick. */
  lemma GreedyIsUnique(hand: seq<Card>, call: Card, i: nat)
    requires IsGreedy(hand, call, i)
    ensures GreedyPick(hand, call) == Some(i)
  {
    hide EvaluateCardValue;
    GreedyPickIsGreedy(hand, call);
  }

  lemma FirstGreatestIsGreedy(playable: seq<nat>, hand: seq<Card>, call: Card, p: int)
    requires IsPlayableList(playable, hand, call) && FirstGreatest(playable, hand, EvaluateCardValue, p)
    ensures IsGreedy(hand, call, playable[p])
  {
    hide EvaluateCardValue;
    assert playable[p] in playable;
    forall j: nat | j < |hand| && hand[j].CanPlayOn(call)
      ensures EvaluateCardValue(hand[j]) <= EvaluateCardValue(hand[playable[p]])
      ensures j < playable[p] ==> EvaluateCardValue(hand[j]) < EvaluateCardValue(hand[playable[p]])
    {
      assert j in playable;
      var q :| 0 <= q < |playable| && playable[q] == j;
    }
  }

  lemma GreedyIsFirstGreatest(playable: seq<nat>, hand: seq<Card>, call: Card, r: nat) returns (p: int)
    requires IsPlayableList(playable, hand, call) && IsGreedy(hand, call, r)
    ensures FirstGreatest(playable, hand, EvaluateCardValue, p) && playable[p] == r
  {
    hide EvaluateCardValue;
    assert r in playable;
    p :| 0 <= p < |playable| && playable[p] == r;
    assert forall q :: 0 <= q < |playable| ==> playable[q] in playable;
  }

  /** The aggressive strategy, given the playable positions, answers exactly the greedy pick. */
  lemma AggressiveIsGreedy(playable: seq<nat>, hand: seq<Card>, call: Card, r: nat)
    requires IsPlayableList(playable, hand, call)
    ensures StrategyPicks(AggressiveStrategy, playable, hand, r) <==> IsGreedy(hand, call, r)
  {
    hide IsPlayableList, FirstGreatest, IsGreedy;
    if StrategyPicks(AggressiveStrategy, playable, hand, r) {
      var p := PickedAt(playable, hand, r);
      FirstGreatestIsGreedy(playable, hand, call, p);
    }
    if IsGreedy(hand, call, r) {
      var p := GreedyIsFirstGreatest(playable, hand, call, r);
    }
  }

  lemma PickedAt(playable: seq<nat>, hand: seq<Card>, r: nat) returns (p: int)
    requires StrategyPicks(AggressiveStrategy, playable, hand, r)
    ensures FirstGreatest(playable, hand, EvaluateCardValue, p) && r == playable[p]
  {
    p :| FirstGreatest(playable, hand, EvaluateCardValue, p) && r == playable[p];
  }

  // ---------- Deciding ----------

  /** The player on turn holds a card that goes on the call card by suit, value or as a Whot. */
  ghost predicate HasMatch(t: Table)
    requires 0 <= t.current < |t.players|
  {
    var hand := t.players[t.current].hand;
    t.call.Some? && exists i :: 0 <= i < |hand| && hand[i].CanPlayOn(t.call.value)
  }

  /** What a bot on turn may decide whatever its level: a matching card if it has one, otherwise a draw. */
  ghost predicate IsDecision(t: Table, a: Action)
    requires 0 <= t.current < |t.players|
  {
    var p := t.players[t.current];
    && a.playerId == p.id
    && if HasMatch(t) then
         && a.kind == PlayCard && a.cardIndex.Some? && a.cardIndex.value < |p.hand|
         && p.hand[a.cardIndex.value].CanPlayOn(t.call.value)
       else a.kind == DrawCard
  }

  /** The suit named along with a card: none for a plain card; for a Whot, as the strategy chooses suits. */
  ghost predicate NamesSuit(s: Strategy, hand: seq<Card>, card: Card, suit: Option<Suit>) {
    if !card.IsWhotCard() then suit.None?
    else if s == RandomStrategy then suit.Some? && suit.value != Whot
    else suit.Some? && exists p :: 0 <= p < |SUITS| && SUITS[p] == suit.value && MostHeld(hand, p)
  }

  /** The matches a level may pick: with mistakes any of them, without only the greedy one. */
  ghost predicate MayPick(level: DifficultyLevel, hand: seq<Card>, call: Card, i: nat) {
    && i < |hand| && hand[i].CanPlayOn(call)
    && (!ShouldMakeMistakes(level) ==> IsGreedy(hand, call, i))
  }

  /** What a bot of a level may decide when it is on turn. */
  ghost predicate Decides(level: DifficultyLevel, t: Table, a: Action)
    requires 0 <= t.current < |t.players|
  {
    var p := t.players[t.current];
    if HasMatch(t) then
      && a == Action(PlayCard, p.id, a.cardIndex, a.chosenSuit, None)
      && a.cardIndex.Some? && MayPick(level, p.hand, t.call.value, a.cardIndex.value)
      && NamesSuit(CreateStrategy(level), p.hand, p.hand[a.cardIndex.value], a.chosenSuit)
    else
      a == Action(DrawCard, p.id, None, None, None)
  }

  /** Some card of the hand has the value of the call card that left a debt. */
  ghost predicate HasDefense(t: Table, hand: seq<Card>) {
    t.pickCount > 0 && t.call.Some? && exists i :: 0 <= i < |hand| && hand[i].value == t.call.value.value
  }

  /** With nothing to play: a card of the call card's value against a debt, if there is one, else a draw. */
  ghost predicate DrawsOrDefends(s: Strategy, t: Table, hand: seq<Card>, id: string, a: Action) {
    if HasDefense(t, hand) && a.kind == PlayCard then
      && a == Action(PlayCard, id, a.cardIndex, None, None)
      && a.cardIndex.Some? && a.cardIndex.value < |hand|
      && hand[a.cardIndex.value].value == t.call.value.value
    else
      a == Action(DrawCard, id, None, None, None) && (HasDefense(t, hand) ==> s == RandomStrategy)
  }

  class AIPlayer {
    const id: string
    const name: string
    var difficulty: DifficultyLevel
    var strategy: Strategy

    constructor (id: string, name: string, difficulty: DifficultyLevel)
      ensures this.id == id && this.name == name
      ensures this.difficulty == difficulty && strategy == CreateStrategy(difficulty)
    {
      this.id, this.name, this.difficulty, strategy := id, name, difficulty, CreateStrategy(difficulty);
    }

    /** Nothing unless there is a call card and it is this bot's turn. */
    method GetPlayableCards(state: GameState) returns (indices: seq<nat>)
      ensures var cur := state.GetCurrentPlayer();
        if state.callCard.None? || cur == null || cur.id != id then indices == []
        else IsPlayableList(indices, cur.hand.cards, state.callCard.value)
    {
      var cur := state.GetCurrentPlayer();
      if state.callCard.None? || cur == null || cur.id != id { return []; }
      indices := cur.hand.GetPlayableCardIndices(state.callCard.value);
    }

    /** The positions of the cards with the attack card's value in the hand of the player on turn, in order. */
    method DefenseCards(state: GameState, attack: Card) returns (defense: seq<nat>)
      ensures var cur := state.GetCurrentPlayer();
        if cur == null then defense == [] else ListsValue(defense, cur.hand.cards, attack.value)
    {
      defense := [];
      var cur := state.GetCurrentPlayer();
      if cur != null {
        for i := 0 to |cur.hand.cards|
          invariant ListsValue(defense, cur.hand.cards[..i], attack.value)
        {
          assert forall k :: 0 <= k < |defense| ==> defense[k] in defense;
          if cur.hand.cards[i].value == attack.value { defense := defense + [i]; }
        }
        assert cur.hand.cards[..|cur.hand.cards|] == cur.hand.cards;
      }
    }

    /**
     On its own turn the bot decides as its level may: a matching card whenever it has one, any of them
     with mistakes and the one its strategy picks without, and otherwise a draw. Off turn it draws or,
     against a debt, plays a card of the call card's value.
     */
    method DecideAction(state: GameState) returns (a: Action)
      ensures a.playerId == id
      ensures var cur := state.GetCurrentPlayer();
        && (cur == null ==> a == Action(DrawCard, id, None, None, None))
        && (cur != null && cur.id == id && strategy == CreateStrategy(difficulty) ==>
              Decides(difficulty, state.View(), a))
        && (cur != null && cur.id == id ==> IsDecision(state.View(), a))
        && (cur != null && cur.id == id && a.kind == PlayCard && !ShouldMakeMistakes(difficulty) ==>
              PicksByStrategy(state, a))
        && (cur != null && cur.id != id ==> DrawsOrDefends(strategy, state.View(), cur.hand.cards, id, a))
    {
      hide Views, IsGreedy, StrategyPicks, NamesSuit, DrawsOrDefends;
      var playable := GetPlayableCards(state);
      if |playable| != 0 {
        var hand := state.GetCurrentPlayer().hand.cards;
        assert forall i :: 0 <= i < |playable| ==> playable[i] in playable;
        var index, suit := ChooseCard(hand, playable);
        a := Action(PlayCard, id, Some(index), suit, None);
        AggressiveIsGreedy(playable, hand, state.callCard.value, index);
        return;
      }
      a := DefendOrDraw(state);
      ghost var t := state.View();
      if 0 <= t.current < |t.players| && t.players[t.current].id == id { NoDefenseOnTurn(strategy, t, a); }
    }

    /** The strategy's card, or any playable one by mistake, and the suit named with it. */
    method ChooseCard(hand: seq<Card>, playable: seq<nat>) returns (index: nat, suit: Option<Suit>)
      requires InHand(playable, hand) && playable != []
      ensures index in playable && index < |hand|
      ensures !ShouldMakeMistakes(difficulty) ==> StrategyPicks(strategy, playable, hand, index)
      ensures NamesSuit(strategy, hand, hand[index], suit)
    {
      hide StrategyPicks;
      index := SelectCard(strategy, hand, playable);
      if ShouldMakeMistakes(difficulty) {
        var mistake := Random.NextBool();
        if mistake {
          var i := Random.NextInt(0, |playable| - 1);
          index := playable[i];
        }
      }
      suit := None;
      if hand[index].IsWhotCard() {
        var chosen := ChooseSuitForWhotCard(hand);
        suit := Some(chosen);
      }
    }

    /** Without a playable card: a defence card when there is one and the strategy wants to, else a draw. */
    method DefendOrDraw(state: GameState) returns (a: Action)
      ensures a.playerId == id
      ensures state.GetCurrentPlayer() == null ==> a == Action(DrawCard, id, None, None, None)
      ensures state.GetCurrentPlayer() != null ==>
        DrawsOrDefends(strategy, state.View(), state.GetCurrentPlayer().hand.cards, id, a)
    {
      hide Views;
      a := Action(DrawCard, id, None, None, None);
      if state.activePickCount > 0 && state.callCard.Some? {
        var defense := DefenseCards(state, state.callCard.value);
        var defend := ShouldDefend(strategy, defense);
        if defend {
          var again := ShouldDefend(strategy, defense);
          if |defense| != 0 && again {
            var i := Random.NextInt(0, |defense| - 1);
            assert defense[i] in defense;
            a := Action(PlayCard, id, Some(defense[i]), None, None);
          }
        }
      }
    }

    ghost predicate PicksByStrategy(state: GameState, a: Action)
      requires 0 <= state.currentPlayerIndex < |state.players|
      reads this, state, state.players, set p | p in state.players :: p.hand
    {
      var hand := state.players[state.currentPlayerIndex].hand.cards;
      a.cardIndex.Some? && state.callCard.Some? && exists playable: seq<nat> ::
        IsPlayableList(playable, hand, state.callCard.value) &&
        StrategyPicks(strategy, playable, hand, a.cardIndex.value)
    }

    method ChooseSuitForWhotCard(hand: seq<Card>) returns (suit: Suit)
      ensures forall card: Card :: card.IsWhotCard() ==> NamesSuit(strategy, hand, card, Some(suit))
    {
      if strategy == RandomStrategy {
        var i := Random.NextInt(0, 4);
        suit := SUITS[i];
      } else {
        suit := SelectSuit(hand);
      }
    }
  }

  /** The positions of the cards of a value, each once and in order. */
  ghost predicate ListsValue(indices: seq<nat>, hand: seq<Card>, v: CardValue) {
    && (forall i: nat :: i in indices <==> i < |hand| && hand[i].value == v)
    && (forall a, b :: 0 <= a < b < |indices| ==> indices[a] < indices[b])
  }

  /** A defence card always matches, so on its own turn a bot without a match draws. */
  lemma NoDefenseOnTurn(s: Strategy, t: Table, a: Action)
    requires 0 <= t.current < |t.players| && !HasMatch(t)
    requires DrawsOrDefends(s, t, t.players[t.current].hand, t.players[t.current].id, a)
    ensures a == Action(DrawCard, t.players[t.current].id, None, None, None)
  {
  }

  // ---------- Which decisions are accepted ----------

  /** The card meets a demand: nothing is demanded, or it is a Whot or of the demanded suit. */
  predicate Answers(card: Card, demanded: Option<Suit>) {
    demanded.None? || card.IsWhotCard() || card.suit == demanded.value
  }

  /** The decision does not run into a demanded suit. */
  ghost predicate MeetsDemand(t: Table, a: Action)
    requires 0 <= t.current < |t.players|
  {
    var hand := t.players[t.current].hand;
    t.demanded.None? ||
    if a.kind == PlayCard then
      a.cardIndex.Some? && a.cardIndex.value < |hand| && Answers(hand[a.cardIndex.value], t.demanded)
    else
      t.pickCount > 0 || t.call.None? || forall i :: 0 <= i < |hand| ==> hand[i].suit != t.demanded.value
  }

  /** A bot's decision is accepted exactly when it meets the demand. */
  lemma DecisionAcceptance(t: Table, a: Action)
    requires 0 <= t.current < |t.players| && IsDecision(t, a)
    ensures IsValidAction(t, a) <==> MeetsDemand(t, a)
  {
    var hand := t.players[t.current].hand;
    if !HasMatch(t) && t.call.Some? {
      assert forall i :: 0 <= i < |hand| ==> !hand[i].CanPlayOn(t.call.value);
      assert !t.Situation().HasDefenseCard(hand);
    }
  }

  /** The hand has a card that goes on the call card: a Twenty, or one of its suit or value. */
  predicate HoldsOneFor(hand: seq<Card>, call: Card) {
    exists i :: 0 <= i < |hand| && (hand[i].suit == call.suit || hand[i].value in {Twenty, call.value})
  }

  /** On the cards: with a Twenty or a card of the call card's suit or value a bot plays such a card, else it draws. */
  lemma DecisionOnCards(level: DifficultyLevel, t: Table, a: Action)
    requires 0 <= t.current < |t.players| && Decides(level, t, a)
    ensures var hand := t.players[t.current].hand;
      && a.playerId == t.players[t.current].id
      && if t.call.Some? && HoldsOneFor(hand, t.call.value) then
           && a.kind == PlayCard && a.cardIndex.Some? && a.cardIndex.value < |hand|
           && var c := hand[a.cardIndex.value];
              c.value == Twenty || c.suit == t.call.value.suit || c.value == t.call.value.value
         else a.kind == DrawCard
    ensures t.call.Some? ==>
      var hand, call := t.players[t.current].hand, t.call.value;
      HoldsOneFor(hand, call) <==>
        exists i :: 0 <= i < |hand| && (hand[i].suit == call.suit || hand[i].value in {Twenty, call.value})
  {
    var hand := t.players[t.current].hand;
    if t.call.Some? {
      var call := t.call.value;
      assert forall i :: 0 <= i < |hand| ==>
        (hand[i].CanPlayOn(call) <==> hand[i].suit == call.suit || hand[i].value in {Twenty, call.value});
    }
  }

  /** With no suit demanded, a bot never decides on a move the engine rejects. */
  lemma BotsNeverStall(t: Table, a: Action)
    requires 0 <= t.current < |t.players| && IsDecision(t, a) && t.demanded == None
    ensures IsValidAction(t, a)
  {
    DecisionAcceptance(t, a);
  }

  /** No match the level may pick answers the demand; without mistakes that is one card. */
  predicate NoPickAnswers(level: DifficultyLevel, hand: seq<Card>, call: Card, demanded: Option<Suit>) {
    if ShouldMakeMistakes(level) then
      forall i :: 0 <= i < |hand| && hand[i].CanPlayOn(call) ==> !Answers(hand[i], demanded)
    else
      var pick := GreedyPick(hand, call);
      pick.Some? ==> !Answers(hand[pick.value], demanded)
  }

  /** Every match the level may pick answers the demand. */
  predicate EveryPickAnswers(level: DifficultyLevel, hand: seq<Card>, call: Card, demanded: Option<Suit>) {
    if ShouldMakeMistakes(level) then
      forall i :: 0 <= i < |hand| && hand[i].CanPlayOn(call) ==> Answers(hand[i], demanded)
    else
      var pick := GreedyPick(hand, call);
      pick.Some? ==> Answers(hand[pick.value], demanded)
  }

  /**
   A demand against which a bot of the level is helpless: it holds matches and none it may pick answers
   the demand, or it holds none, owes nothing, and could have followed the suit.
   */
  ghost predicate StalledFor(level: DifficultyLevel, t: Table)
    requires 0 <= t.current < |t.players|
  {
    var hand := t.players[t.current].hand;
    && t.demanded.Some? && t.call.Some?
    && if HasMatch(t) then NoPickAnswers(level, hand, t.call.value, t.demanded)
       else t.pickCount <= 0 && exists i :: 0 <= i < |hand| && hand[i].suit == t.demanded.value
  }

  /** Whatever a bot of the level decides here is accepted. */
  ghost predicate Safe(level: DifficultyLevel, t: Table)
    requires 0 <= t.current < |t.players|
  {
    var hand := t.players[t.current].hand;
    || t.demanded.None? || t.call.None?
    || if HasMatch(t) then EveryPickAnswers(level, hand, t.call.value, t.demanded)
       else t.pickCount > 0 || forall i :: 0 <= i < |hand| ==> hand[i].suit != t.demanded.value
  }

  lemma DecidesIsDecision(level: DifficultyLevel, t: Table, a: Action)
    requires 0 <= t.current < |t.players| && Decides(level, t, a)
    ensures IsDecision(t, a)
  {
  }

  /** Every pick open to a level is the card of some decision. */
  lemma SomeDecision(level: DifficultyLevel, t: Table, i: nat) returns (a: Action)
    requires 0 <= t.current < |t.players| && t.call.Some?
    requires MayPick(level, t.players[t.current].hand, t.call.value, i)
    ensures Decides(level, t, a) && a.kind == PlayCard && a.cardIndex == Some(i)
  {
    var p := t.players[t.current];
    var most := SomeMostHeld(p.hand, |SUITS|);
    assert MostHeld(p.hand, most);
    var suit := if !p.hand[i].IsWhotCard() then None else if level == Easy then Some(Circle) else Some(SUITS[most]);
    a := Action(PlayCard, p.id, Some(i), suit, None);
  }

  /** The pick a level may make, if it has a match, that answers the demand, or one that does not. */
  lemma PickExists(level: DifficultyLevel, hand: seq<Card>, call: Card, demanded: Option<Suit>, answering: bool)
      returns (i: nat)
    requires exists j :: 0 <= j < |hand| && hand[j].CanPlayOn(call)
    requires if answering then !NoPickAnswers(level, hand, call, demanded)
             else !EveryPickAnswers(level, hand, call, demanded)
    ensures MayPick(level, hand, call, i) && Answers(hand[i], demanded) == answering
  {
    if ShouldMakeMistakes(level) {
      i :| i < |hand| && hand[i].CanPlayOn(call) && Answers(hand[i], demanded) == answering;
    } else {
      i := GreedyPick(hand, call).value;
      GreedyPickIsGreedy(hand, call);
    }
  }

  /** Every decision open to a bot of the level is rejected exactly in the states that stall it. */
  lemma StallsExactly(level: DifficultyLevel, t: Table)
    requires 0 <= t.current < |t.players|
    ensures (forall a: Action :: Decides(level, t, a) ==> !IsValidAction(t, a)) <==> StalledFor(level, t)
  {
    hide IsValidAction, IsGreedy, NamesSuit;
    var p := t.players[t.current];
    if StalledFor(level, t) {
      forall a: Action | Decides(level, t, a) ensures !IsValidAction(t, a) {
        DecidesIsDecision(level, t, a);
        DecisionAcceptance(t, a);
        if HasMatch(t) && !ShouldMakeMistakes(level) { GreedyIsUnique(p.hand, t.call.value, a.cardIndex.value); }
      }
    } else {
      var a := Action(DrawCard, p.id, None, None, None);
      if HasMatch(t) {
        var i := PickExists(level, p.hand, t.call.value, t.demanded, true);
        a := SomeDecision(level, t, i);
      }
      DecidesIsDecision(level, t, a);
      DecisionAcceptance(t, a);
    }
  }

  /** Every decision open to a bot of the level is accepted exactly in the safe states. */
  lemma SafeExactly(level: DifficultyLevel, t: Table)
    requires 0 <= t.current < |t.players|
    ensures (forall a: Action :: Decides(level, t, a) ==> IsValidAction(t, a)) <==> Safe(level, t)
  {
    hide IsValidAction, IsGreedy, NamesSuit;
    var p := t.players[t.current];
    if Safe(level, t) {
      forall a: Action | Decides(level, t, a) ensures IsValidAction(t, a) {
        DecidesIsDecision(level, t, a);
        DecisionAcceptance(t, a);
        if HasMatch(t) && !ShouldMakeMistakes(level) { GreedyIsUnique(p.hand, t.call.value, a.cardIndex.value); }
      }
    } else {
      var a := Action(DrawCard, p.id, None, None, None);
      if HasMatch(t) {
        var i := PickExists(level, p.hand, t.call.value, t.demanded, false);
        a := SomeDecision(level, t, i);
      }
      DecidesIsDecision(level, t, a);
      DecisionAcceptance(t, a);
    }
  }

  /** A bot that makes no mistakes is either safe or stalled; for the others there are states between. */
  lemma HardIsSafeOrStalled(t: Table)
    requires 0 <= t.current < |t.players|
    ensures StalledFor(Hard, t) <==> !Safe(Hard, t)
    ensures StalledFor(Easy, t) == StalledFor(Medium, t) && Safe(Easy, t) == Safe(Medium, t)
    ensures StalledFor(Easy, t) ==> StalledFor(Hard, t)
  {
    var hand := t.players[t.current].hand;
    if HasMatch(t) { assert GreedyPick(hand, t.call.value).Some?; }
  }

  /** Such states exist: a Four of Circles to play on a Three of Circles when Stars are demanded. */
  lemma StallExample(t: Table, level: DifficultyLevel)
    requires 0 <= t.current < |t.players|
    requires t.call == Some(Card(Circle, Three)) && t.demanded == Some(Star)
    requires t.players[t.current].hand == [Card(Circle, Four)]
    ensures StalledFor(level, t)
  {
    assert t.players[t.current].hand[0].CanPlayOn(t.call.value);
  }

  /** With a Three of Stars beside a Fourteen of Circles only the bot that always plays the Fourteen is stalled. */
  lemma HardStallExample(t: Table)
    requires 0 <= t.current < |t.players|
    requires t.call == Some(Card(Circle, Three)) && t.demanded == Some(Star)
    requires t.players[t.current].hand == [Card(Circle, Fourteen), Card(Star, Three)]
    ensures StalledFor(Hard, t) && !StalledFor(Medium, t) && !Safe(Medium, t)
  {
    var hand := t.players[t.current].hand;
    assert hand[0].CanPlayOn(t.call.value) && hand[1].CanPlayOn(t.call.value);
    GreedyIsUnique(hand, t.call.value, 0);
  }

  /**
   How a stall comes about: a player with no debt demands a suit they cannot follow and then draws. The
   demand outlives the draw, and the next player, holding matches, is stalled if none that a bot of the
   level may pick answers it.
   */
  lemma ChoiceAndDrawStallNext(g: Game, suit: Suit, order: seq<Card>, level: DifficultyLevel)
    requires Sound(g.t) && g.t.pickCount == 0 && g.t.call.Some? && |g.t.players| > 1
    requires forall i :: 0 <= i < |g.t.players[g.t.current].hand| ==>
      !Answers(g.t.players[g.t.current].hand[i], Some(suit))
    requires var next := g.t.players[NextSeat(g.t.current, g.t.direction, |g.t.players|)].hand;
      && (exists i :: 0 <= i < |next| && next[i].CanPlayOn(g.t.call.value))
      && NoPickAnswers(level, next, g.t.call.value, Some(suit))
    ensures var choose := Action(ChooseSuit, g.t.players[g.t.current].id, None, Some(suit), None);
      var draw := Action(DrawCard, g.t.players[g.t.current].id, None, None, None);
      && IsValidAction(g.t, choose)
      && var h := Apply(g, choose, []);
      && IsValidAction(h.t, draw)
      && var end := Apply(h, draw, order).t;
      && end.current == NextSeat(g.t.current, g.t.direction, |g.t.players|)
      && 0 <= end.current < |end.players| && StalledFor(level, end)
  {
    hide GreedyPick, IsGreedy;
    var h := Demand(g, suit, false);
    var count := h.t.Situation().DrawCount(h.t.players[h.t.current].hand);
    Turns.DrawFields(h, order);
    DrawCardsFrame(Refill(h.t, order), h.t.current, count);
    NextSeatInRange(g.t.current, g.t.direction, |g.t.players|);
  }
}
