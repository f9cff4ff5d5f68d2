/** Cards: suits, values, special abilities and the matching rule (src/Core/Card.cpp). */
module Cards {
  datatype Suit = Circle | Triangle | Cross | Block | Star | Whot

  datatype CardValue =
    | One | Two | Three | Four | Five | Seven | Eight
    | Ten | Eleven | Twelve | Thirteen | Fourteen | Twenty

  datatype SpecialAbility = NoAbility | HoldOn | PickTwo | GeneralMarket | WhotCard

  /** The number printed on a card. */
  function Number(v: CardValue): (n: nat)
    ensures LegalNumber(n)
  {
    match v
    case One => 1 case Two => 2 case Three => 3 case Four => 4 case Five => 5
    case Seven => 7 case Eight => 8 case Ten => 10 case Eleven => 11
    case Twelve => 12 case Thirteen => 13 case Fourteen => 14 case Twenty => 20
  }

  predicate LegalNumber(n: int) {
    (1 <= n <= 14 && n != 6 && n != 9) || n == 20
  }

  function ValueOf(n: int): (v: CardValue)
    requires LegalNumber(n)
    ensures Number(v) == n
  {
    if n == 1 then One else if n == 2 then Two else if n == 3 then Three else if n == 4 then Four
    else if n == 5 then Five else if n == 7 then Seven else if n == 8 then Eight else if n == 10 then Ten
    else if n == 11 then Eleven else if n == 12 then Twelve else if n == 13 then Thirteen
    else if n == 14 then Fourteen else Twenty
  }

  datatype Card = Card(suit: Suit, value: CardValue) {
    function Ability(): SpecialAbility {
      match value
      case One => HoldOn
      case Two => PickTwo
      case Fourteen => GeneralMarket
      case Twenty => WhotCard
      case _ => NoAbility
    }

    predicate IsWhotCard() { Ability() == WhotCard }

    predicate IsStarCard() { suit == Star }

    /** Points the card costs its holder: a star counts its inner, doubled, value. */
    function ScoreValue(): nat {
      if IsStarCard() then 2 * Number(value) else Number(value)
    }

    predicate CanPlayOn(call: Card) {
      IsWhotCard() || suit == call.suit || value == call.value
    }
  }
}
