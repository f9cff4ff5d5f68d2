/** How a round in progress ends and who wins it. */
module Rounds {
  import opened Options
  import opened Cards
  import opened Decks
  import opened Hands
  import opened Tables
  import opened Games
  import opened Accounting
  import opened Invariants
  import opened Dealing

  /** Everyone is active, is dealt a card, and there are enough cards for that. */
  ghost predicate FullTable(t: Table) {
    AllActive(t.players) && t.config.startingCards >= 1 && |t.players| <= STANDARD_DECK_SIZE
  }

  /** Nobody is out of cards while a round is in progress. */
  ghost predicate Playable(t: Table) {
    Sound(t) && FullTable(t) && (t.phase == InProgress ==> !SomeHandEmpty(t.players))
  }

  lemma FullTableCarries(t: Table, u: Table)
    requires FullTable(t) && SameGame(t, u)
    ensures FullTable(u)
  {
  }

  // ---------- The play that ends a round ----------

  /** The actor loses exactly the card laid and the other hands do not shrink. */
  lemma EffectOnHands(g: Game, i: nat, order: seq<Card>)
    requires 0 <= g.t.current < |g.t.players| && i < |g.t.players[g.t.current].hand|
    ensures var u := AfterEffect(g, i, order).t;
      && |u.players| == |g.t.players|
      && u.phase == g.t.phase
      && u.players[g.t.current].hand == Without(g.t.players[g.t.current].hand, i)
      && (forall j :: 0 <= j < |g.t.players| && j != g.t.current ==> g.t.players[j].hand <= u.players[j].hand)
  {
    hide DealEach, MarketSeats;
    var laid := LayCard(g.t, i);
    var card := laid.call.value;
    if card.value == Fourteen {
      var seats := MarketSeats(laid, g.t.current);
      assert g.t.current !in seats;
      DealEachFrame(laid, seats, order);
    } else {
      OtherEffectsMoveNothing(g.(t := laid), card, g.t.current, order);
      EffectIsLimited(g.(t := laid), card, g.t.current, order);
    }
  }

  lemma FinishPhase(g: Game)
    ensures SameHands(g.t.players, Finish(g).t.players)
    ensures Finish(g).t.phase == if SomeHandEmpty(g.t.players) then RoundEnded else g.t.phase
  {
  }

  /** The whole play: the actor loses the card, nobody else loses one, and an empty hand ends the round. */
  lemma HandsAfterPlay(g: Game, i: nat, order: seq<Card>)
    requires 0 <= g.t.current < |g.t.players| && i < |g.t.players[g.t.current].hand|
    ensures var u := Play(g, i, order).t;
      && |u.players| == |g.t.players|
      && u.phase == (if SomeHandEmpty(u.players) then RoundEnded else g.t.phase)
      && u.players[g.t.current].hand == Without(g.t.players[g.t.current].hand, i)
      && (forall j :: 0 <= j < |g.t.players| && j != g.t.current ==> g.t.players[j].hand <= u.players[j].hand)
  {
    EffectOnHands(g, i, order);
    FinishPhase(AfterEffect(g, i, order));
  }

  /** getWinnerId: the first player without cards. */
  function WinnerId(t: Table): Option<string> {
    var seat := FirstEmpty(t.players);
    if seat.Some? then Some(t.players[seat.value].id) else None
  }

  /**
   In a round in progress a play ends the round exactly when it was the actor's last card. The actor
   is then the winner and everyone else still holds cards, even if the card was a General Market.
   */
  lemma LastCardEndsRound(g: Game, i: nat, order: seq<Card>)
    requires Playable(g.t) && g.t.phase == InProgress && i < |g.t.players[g.t.current].hand|
    ensures var u, me := Play(g, i, order).t, g.t.current;
      && |u.players| == |g.t.players|
      && (u.phase == RoundEnded <==> |g.t.players[me].hand| == 1)
      && (u.phase == RoundEnded <==> u.players[me].hand == [])
      && (u.phase != RoundEnded ==> u.phase == InProgress && !SomeHandEmpty(u.players))
      && (u.phase == RoundEnded ==> FirstEmpty(u.players) == Some(me) && WinnerId(u) == Some(g.t.players[me].id))
      && (forall j :: 0 <= j < |u.players| && j != me ==> u.players[j].hand != [])
  {
    hide Play, FirstEmpty, CallOnTop;
    var me, u := g.t.current, Play(g, i, order).t;
    HandsAfterPlay(g, i, order);
    PlayKeeps(g, i, order);
    assert |g.t.players[me].hand| == 1 <==> u.players[me].hand == [];
  }

  lemma PlayKeepsPlayable(g: Game, i: nat, order: seq<Card>)
    requires Playable(g.t) && i < |g.t.players[g.t.current].hand|
    ensures Playable(Play(g, i, order).t)
  {
    PlayKeeps(g, i, order);
    FullTableCarries(g.t, Play(g, i, order).t);
    EffectOnHands(g, i, order);
    FinishPhase(AfterEffect(g, i, order));
  }

  lemma DrawKeepsPlayable(g: Game, order: seq<Card>)
    requires Playable(g.t)
    ensures Playable(Draw(g, order).t) && Draw(g, order).t.phase == g.t.phase
  {
    var count := g.t.Situation().DrawCount(g.t.players[g.t.current].hand);
    DrawKeeps(g, order);
    FullTableCarries(g.t, Draw(g, order).t);
    DrawCardsFrame(Refill(g.t, order), g.t.current, count);
    DrawCardsTakesTop(Refill(g.t, order), g.t.current, if count < 0 then 0 else count);
  }

  /** Every step keeps the table playable. */
  lemma StepKeepsPlayable(g: Game, e: Event)
    requires Playable(g.t) && Possible(g, e)
    ensures Playable(Step(g, e).t)
  {
    hide Play, Draw, StartRound;
    if e.Round? {
      StartRoundKeeps(g.t, e.order);
      FullTableCarries(g.t, Step(g, e).t);
      EveryoneHoldsACard(g.t, e.order);
    } else if e.a.kind == PlayCard {
      PlayKeepsPlayable(g, e.a.cardIndex.value, e.order);
    } else if e.a.kind == DrawCard {
      DrawKeepsPlayable(g, e.order);
    } else {
      StepKeeps(g, e);
      FullTableCarries(g.t, Step(g, e).t);
    }
  }

  /** In every reachable state of a round in progress every hand holds a card. */
  lemma {:induction false} RunStaysPlayable(start: Game, events: seq<Event>)
    requires Playable(start.t) && IsRun(start, events)
    ensures Playable(Exec(start, events).t)
    decreases |events|
  {
    hide Step;
    if events != [] {
      RunStaysPlayable(start, Front(events));
      StepKeepsPlayable(Exec(start, Front(events)), Last(events));
    }
  }
}
