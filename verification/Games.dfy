/**
 The game as a state machine: a table plus the play-again flag, stepped by the actions that
 src/Game/GameEngine.cpp accepts. A step that may reshuffle carries the order the shuffle produced.
 */
module Games {
  import opened Options
  import opened Cards
  import opened Decks
  import opened Tables

  datatype ActionType =
    | PlayCard | DrawCard | DeclareLastCard | DeclareCheckUp | ChooseSuit | ChooseDirection | ForfeitTurn

  datatype Action = Action(kind: ActionType, playerId: string, cardIndex: Option<nat>,
                           chosenSuit: Option<Suit>, chosenDirection: Option<Direction>)

  datatype Game = Game(t: Table, playAgain: bool)

  // ---------- Which actions are accepted ----------

  predicate IsValidAction(t: Table, a: Action)
    requires 0 <= t.current < |t.players|
  {
    var p := t.players[t.current];
    a.playerId == p.id &&
    match a.kind
    case PlayCard =>
      a.cardIndex.Some? && a.cardIndex.value < |p.hand| && t.Situation().CanPlayCard(p.hand[a.cardIndex.value])
    case DrawCard => t.Situation().MustDrawCard(p.hand)
    case DeclareLastCard => true
    case DeclareCheckUp => true
    case ChooseSuit => a.chosenSuit.Some?
    case ChooseDirection => false
    case ForfeitTurn => false
  }

  // ---------- What an accepted action does ----------

  function EndTurn(g: Game): Game {
    Game(Advance(g.t), false)
  }

  function Omit(seats: seq<nat>, actor: nat): (rest: seq<nat>)
    ensures forall i :: 0 <= i < |rest| ==> rest[i] in seats && rest[i] != actor
  {
    if seats == [] then []
    else (if seats[0] == actor then [] else [seats[0]]) + Omit(seats[1..], actor)
  }

  /** The seats a General Market serves: the active ones other than the actor. */
  function MarketSeats(t: Table, actor: nat): (seats: seq<nat>)
    ensures forall i :: 0 <= i < |seats| ==> seats[i] < |t.players| && seats[i] != actor
  {
    Omit(ActiveSeats(t.players), actor)
  }

  /** The effect of the card just laid; actor is the seat that laid it. */
  function Special(g: Game, card: Card, actor: nat, order: seq<Card>): Game {
    if card.Ability() == HoldOn then Game(Advance(g.t), true)
    else if card.Ability() == PickTwo then g.(t := g.t.(pickCount := g.t.pickCount + 2))
    else if card.value == Five then g.(t := g.t.(pickCount := g.t.pickCount + 3))
    else if card.value == Eight then g.(t := Advance(g.t))
    else if card.Ability() == GeneralMarket then g.(t := DealEach(g.t, MarketSeats(g.t, actor), order))
    else if card.Ability() == WhotCard then g.(t := g.t.(demanded := None))
    else g
  }

  /** The game after the card is laid and its effect done, before round end or turn end. */
  function AfterEffect(g: Game, i: nat, order: seq<Card>): Game
    requires 0 <= g.t.current < |g.t.players| && i < |g.t.players[g.t.current].hand|
  {
    Special(g.(t := LayCard(g.t, i)), g.t.players[g.t.current].hand[i], g.t.current, order)
  }

  function Finish(g: Game): Game {
    if SomeHandEmpty(g.t.players) then g.(t := CloseRound(g.t))
    else if !g.playAgain then EndTurn(g)
    else g
  }

  function Play(g: Game, i: nat, order: seq<Card>): Game
    requires 0 <= g.t.current < |g.t.players| && i < |g.t.players[g.t.current].hand|
  {
    Finish(AfterEffect(g, i, order))
  }

  function Draw(g: Game, order: seq<Card>): Game
    requires 0 <= g.t.current < |g.t.players|
  {
    var count := g.t.Situation().DrawCount(g.t.players[g.t.current].hand);
    EndTurn(g.(t := DrawCards(Refill(g.t, order), g.t.current, count).(pickCount := 0)))
  }

  function Declare(g: Game, kind: ActionType): Game
    requires 0 <= g.t.current < |g.t.players|
  {
    var p := g.t.players[g.t.current];
    var q := if kind == DeclareLastCard then p.(saidLastCard := true) else p.(saidCheckUp := true);
    g.(t := g.t.(players := g.t.players[g.t.current := q]))
  }

  function Demand(g: Game, suit: Suit, turnAround: bool): Game {
    g.(t := g.t.(demanded := Some(suit),
                 direction := if turnAround && g.t.config.allowDirectionChange then Reverse(g.t.direction)
                              else g.t.direction))
  }

  function Apply(g: Game, a: Action, order: seq<Card>): Game
    requires 0 <= g.t.current < |g.t.players|
    requires IsValidAction(g.t, a)
  {
    match a.kind
    case PlayCard => Play(g, a.cardIndex.value, order)
    case DrawCard => Draw(g, order)
    case ChooseSuit => Demand(g, a.chosenSuit.value, a.chosenDirection.Some?)
    case _ => Declare(g, a.kind)
  }

  function NewRound(g: Game, order: seq<Card>): Game {
    g.(t := StartRound(g.t, order))
  }

  // ---------- Runs ----------

  /** One engine call: an action or a new round, with the order its shuffle produced. */
  datatype Event = Act(a: Action, order: seq<Card>) | Round(order: seq<Card>)

  /** The table a reshuffle during an accepted action would start from. */
  function Reshuffling(t: Table, a: Action): Table
    requires 0 <= t.current < |t.players|
    requires IsValidAction(t, a)
  {
    if a.kind == PlayCard then LayCard(t, a.cardIndex.value) else t
  }

  /** An accepted action, or a new round; the order given must be one its shuffle, if any, can produce. */
  ghost predicate Possible(g: Game, e: Event) {
    && WellFormed(g.t)
    && match e
       case Act(a, order) => IsValidAction(g.t, a) && CanShuffleTo(Reshuffling(g.t, a), order)
       case Round(order) => IsStandardDeck(order)
  }

  ghost function Step(g: Game, e: Event): Game
    requires Possible(g, e)
  {
    match e
    case Act(a, order) => Apply(g, a, order)
    case Round(order) => NewRound(g, order)
  }

  /** Every event of a run is possible in the game the events before it led to. */
  ghost predicate IsRun(start: Game, events: seq<Event>)
    decreases |events|, 0
  {
    events == [] ||
    (IsRun(start, Front(events)) && Possible(Exec(start, Front(events)), Last(events)))
  }

  ghost function Exec(start: Game, events: seq<Event>): Game
    decreases |events|, 1
    requires IsRun(start, events)
  {
    if events == [] then start else Step(Exec(start, Front(events)), Last(events))
  }

  function Front<T>(s: seq<T>): seq<T>
    requires s != []
  {
    s[..|s| - 1]
  }

  function Last<T>(s: seq<T>): T
    requires s != []
  {
    s[|s| - 1]
  }

  /** Adding one possible event to a run. */
  lemma Extend(start: Game, events: seq<Event>, e: Event)
    requires IsRun(start, events) && Possible(Exec(start, events), e)
    ensures IsRun(start, events + [e])
    ensures Exec(start, events + [e]) == Step(Exec(start, events), e)
  {
    assert Front(events + [e]) == events;
  }
}
