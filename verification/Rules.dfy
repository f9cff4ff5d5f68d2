/**
 The Nigerian rules (src/Rules/NigerianRules.cpp) and the rule engine that applies them to a
 situation on the table (src/Game/RuleEngine.cpp). The rule engine's queries read only the call
 card, the demanded suit, the pick debt and one hand, and take exactly those.
 */
module Rules {
  import opened Options
  import opened Cards

  predicate RulesAllow(card: Card, call: Card, demanded: Option<Suit>) {
    if card.IsWhotCard() then true
    else if demanded.Some? then card.suit == demanded.value
    else card.CanPlayOn(call)
  }

  predicate CanDefendAgainstAttack(attack: Card, defense: Card) {
    if attack.value == Two then defense.value == Two
    else if attack.value == Five then defense.value == Five
    else false
  }

  /** The table facts the rules look at. */
  datatype Situation = Situation(call: Option<Card>, demanded: Option<Suit>, pickCount: int) {
    predicate CanPlayCard(card: Card) {
      call.Some? && RulesAllow(card, call.value, demanded)
    }

    predicate HasPlayableCard(hand: seq<Card>) {
      call.Some? && exists i :: 0 <= i < |hand| && RulesAllow(hand[i], call.value, demanded)
    }

    predicate HasDefenseCard(hand: seq<Card>) {
      pickCount > 0 && call.Some?
      && exists i :: 0 <= i < |hand| && CanDefendAgainstAttack(call.value, hand[i])
    }

    predicate MustDrawCard(hand: seq<Card>) {
      if pickCount > 0 then !HasDefenseCard(hand) else !HasPlayableCard(hand)
    }

    function DrawCount(hand: seq<Card>): int {
      if pickCount > 0 && !HasDefenseCard(hand) then pickCount else 1
    }
  }

  predicate RequiresLastCardDeclaration(hand: seq<Card>) { |hand| == 2 }

  predicate RequiresCheckUpDeclaration(hand: seq<Card>) { |hand| == 1 }
}
