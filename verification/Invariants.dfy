/** What every step keeps: the people at the table, a valid seat on turn, and the call card on top. */
module Invariants {
  import opened Options
  import opened Cards
  import opened Players
  import opened Tables
  import opened Games
  import opened Accounting

  /** A discard pile that is not empty ends with a card equal to the call card. */
  ghost predicate CallOnTop(t: Table) {
    t.discard != [] ==> t.call.Some? && Last(t.discard) == t.call.value
  }

  ghost predicate SamePeople(ps: seq<PlayerData>, qs: seq<PlayerData>) {
    && |ps| == |qs|
    && forall i :: 0 <= i < |ps| ==>
         && ps[i].id == qs[i].id && ps[i].name == qs[i].name
         && ps[i].kind == qs[i].kind && ps[i].status == qs[i].status
  }

  /** Fixed for a whole run: the configuration, the people and the names of the game. */
  ghost predicate SameGame(t: Table, u: Table) {
    && u.config == t.config && SamePeople(t.players, u.players)
    && u.gameId == t.gameId && u.gameCode == t.gameCode && u.creatorId == t.creatorId
  }

  ghost predicate Sound(t: Table) {
    WellFormed(t) && CallOnTop(t) && t.pickCount >= 0
  }

  lemma NextSeatInRange(current: int, direction: Direction, n: nat)
    requires 0 <= current < n
    ensures 0 <= NextSeat(current, direction, n) < n
  {
  }

  lemma SoundCarries(t: Table, u: Table)
    requires WellFormed(t) && SamePeople(t.players, u.players) && 0 <= u.current < |u.players|
    ensures WellFormed(u)
  {
  }

  /** What a card's effect may change: the seat on turn, the debt, the demand, and where cards lie. */
  ghost predicate OnlyEffect(t: Table, u: Table) {
    && SamePeople(t.players, u.players)
    && u == t.(players := u.players, deck := u.deck, discard := u.discard, current := u.current,
               pickCount := u.pickCount, demanded := u.demanded)
    && (u.discard == t.discard || u.discard == [])
    && u.pickCount >= t.pickCount
    && 0 <= u.current < |u.players|
  }

  lemma EffectIsLimited(g: Game, card: Card, actor: nat, order: seq<Card>)
    requires 0 <= g.t.current < |g.t.players|
    ensures OnlyEffect(g.t, Special(g, card, actor, order).t)
  {
    if card.value == Fourteen {
      DealEachFrame(g.t, MarketSeats(g.t, actor), order);
      DealEachDiscard(g.t, MarketSeats(g.t, actor), order);
    } else {
      OtherEffectsMoveNothing(g, card, actor, order);
      NextSeatInRange(g.t.current, g.t.direction, |g.t.players|);
    }
  }

  lemma {:induction false} DealEachDiscard(t: Table, seats: seq<nat>, order: seq<Card>)
    requires SeatsExist(t, seats)
    ensures DealEach(t, seats, order).discard == t.discard || DealEach(t, seats, order).discard == []
    decreases |seats|
  {
    if seats != [] {
      DealEachDiscard(GiveTop(Refill(t, order), seats[0]), seats[1..], order);
    }
  }

  /** Closing a round changes the phase and the players' figures, not the people or their hands. */
  lemma CloseKeepsPeople(t: Table)
    ensures CloseRound(t) == t.(players := CloseRound(t).players, phase := RoundEnded)
    ensures SamePeople(t.players, CloseRound(t).players) && SameHands(t.players, CloseRound(t).players)
  {
  }

  lemma FinishKeepsSound(g: Game)
    requires Sound(g.t)
    ensures SameGame(g.t, Finish(g).t) && Sound(Finish(g).t)
  {
    hide CloseRound;
    CloseKeepsPeople(g.t);
    NextSeatInRange(g.t.current, g.t.direction, |g.t.players|);
    SoundCarries(g.t, Finish(g).t);
  }

  lemma PlayKeeps(g: Game, i: nat, order: seq<Card>)
    requires Sound(g.t) && i < |g.t.players[g.t.current].hand|
    ensures SameGame(g.t, Play(g, i, order).t) && Sound(Play(g, i, order).t)
  {
    var laid := LayCard(g.t, i);
    assert Last(laid.discard) == laid.call.value;
    SoundCarries(g.t, laid);
    EffectIsLimited(g.(t := laid), laid.call.value, g.t.current, order);
    SoundCarries(laid, AfterEffect(g, i, order).t);
    FinishKeepsSound(AfterEffect(g, i, order));
  }

  lemma {:induction false} DrawCardsFrame(t: Table, seat: nat, n: int)
    requires seat < |t.players|
    ensures OnlyCardsMoved(t, DrawCards(t, seat, n))
    ensures DrawCards(t, seat, n).discard == t.discard
    ensures forall i :: 0 <= i < |t.players| && i != seat ==> DrawCards(t, seat, n).players[i] == t.players[i]
    decreases n
  {
    if n > 0 && t.deck != [] {
      DrawCardsFrame(GiveTop(t, seat), seat, n - 1);
    }
  }

  lemma DrawKeeps(g: Game, order: seq<Card>)
    requires Sound(g.t)
    ensures SameGame(g.t, Draw(g, order).t) && Sound(Draw(g, order).t)
  {
    var count := g.t.Situation().DrawCount(g.t.players[g.t.current].hand);
    DrawCardsFrame(Refill(g.t, order), g.t.current, count);
    NextSeatInRange(g.t.current, g.t.direction, |g.t.players|);
    SoundCarries(g.t, Draw(g, order).t);
  }

  lemma StartRoundKeeps(t: Table, order: seq<Card>)
    requires WellFormed(t)
    ensures SameGame(t, StartRound(t, order)) && Sound(StartRound(t, order))
    ensures StartRound(t, order).phase == InProgress
    ensures StartRound(t, order).demanded == None && StartRound(t, order).pickCount == 0
    ensures StartRound(t, order).current == 0 && StartRound(t, order).direction == Clockwise
    ensures StartRound(t, order).discard == []
  {
    var open := OpenRound(t, order);
    var seats := Repeat(ActiveSeats(open.players), t.config.startingCards);
    DealEachFrame(open, seats, []);
    DealEachDiscard(open, seats, []);
    SoundCarries(t, StartRound(t, order));
  }

  /** Every step keeps the table sound and the game the same. */
  lemma StepKeeps(g: Game, e: Event)
    requires Sound(g.t) && Possible(g, e)
    ensures SameGame(g.t, Step(g, e).t) && Sound(Step(g, e).t)
  {
    hide Play, Draw, StartRound;
    if e.Round? {
      StartRoundKeeps(g.t, e.order);
    } else if e.a.kind == PlayCard {
      PlayKeeps(g, e.a.cardIndex.value, e.order);
    } else if e.a.kind == DrawCard {
      DrawKeeps(g, e.order);
    } else {
      SoundCarries(g.t, Step(g, e).t);
    }
  }

  lemma {:induction false} RunKeeps(start: Game, events: seq<Event>)
    requires Sound(start.t) && IsRun(start, events)
    ensures SameGame(start.t, Exec(start, events).t) && Sound(Exec(start, events).t)
    decreases |events|
  {
    hide Step;
    if events != [] {
      RunKeeps(start, Front(events));
      StepKeeps(Exec(start, Front(events)), Last(events));
    }
  }
}
