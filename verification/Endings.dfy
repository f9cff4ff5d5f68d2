/** When a round can be brought to an end: exactly when it has a call card. No round has to end. */
module Endings {
  import opened Options
  import opened Cards
  import opened Decks
  import opened Tables
  import opened Games
  import opened Accounting
  import opened Invariants
  import opened Acceptance
  import opened Termination
  import opened Rounds
  import opened Dealing
  import Turns

  /** A run that goes on after another is a run from where that one ended. */
  lemma {:induction false} RunsJoin(start: Game, a: seq<Event>, b: seq<Event>)
    requires IsRun(start, a) && IsRun(Exec(start, a), b)
    ensures IsRun(start, a + b) && Exec(start, a + b) == Exec(Exec(start, a), b)
    decreases |b|
  {
    hide Step, Possible;
    if b == [] {
      assert a + b == a;
    } else {
      RunsJoin(start, a, Front(b));
      assert a + b == a + Front(b) + [Last(b)];
      Extend(start, a + Front(b), Last(b));
    }
  }

  // ---------- With a call card ----------

  /** The player on turn demands the suit of their first card and plays that card. */
  lemma DemandAndPlay(g: Game) returns (events: seq<Event>)
    requires Playable(g.t) && g.t.phase == InProgress && g.t.call.Some?
    ensures IsRun(g, events) && NoNewRound(events)
    ensures |events| == 2
    ensures var h := Exec(g, events);
      && Playable(h.t) && h.t.phase in {InProgress, RoundEnded} && h.t.call.Some?
      && Budget(h.t) < Budget(g.t)
  {
    var p := g.t.players[g.t.current];
    assert p.hand != [];
    var choose := Act(ChooseNow(g.t, p.hand[0].suit), SomeOrder(g.t));
    var demanded := Demand(g, p.hand[0].suit, false);
    DemandIsStep(g, choose);
    var play, h := PlayFirst(demanded);
    events := [] + [choose] + [play];
    hide Step, Possible;
    Extend(g, [], choose);
    Extend(g, [] + [choose], play);
  }

  /** The demand changes nothing but the demand. */
  lemma DemandIsStep(g: Game, choose: Event)
    requires Playable(g.t) && g.t.players[g.t.current].hand != []
    requires choose == Act(ChooseNow(g.t, g.t.players[g.t.current].hand[0].suit), SomeOrder(g.t))
    ensures Possible(g, choose)
    ensures Step(g, choose) == Demand(g, g.t.players[g.t.current].hand[0].suit, false)
    ensures Playable(Step(g, choose).t)
  {
    StepKeepsPlayable(g, choose);
  }

  /** A first card of the demanded suit can be played; the play keeps the table playable. */
  lemma PlayFirst(g: Game) returns (play: Event, h: Game)
    requires Playable(g.t) && g.t.phase == InProgress && g.t.call.Some?
    requires var hand := g.t.players[g.t.current].hand; hand != [] && g.t.demanded == Some(hand[0].suit)
    ensures play.Act? && Possible(g, play) && h == Step(g, play)
    ensures Playable(h.t) && h.t.phase in {InProgress, RoundEnded} && h.t.call.Some?
    ensures Budget(h.t) < Budget(g.t)
  {
    hide Play, Budget, Falls, CanShuffleTo;
    var laid := LayCard(g.t, 0);
    play := Act(PlayAt(g.t, 0), SomeOrder(laid));
    assert Possible(g, play);
    h := Step(g, play);
    StepKeepsPlayable(g, play);
    LastCardEndsRound(g, 0, SomeOrder(laid));
    PlayFalls(g, PlayAt(g.t, 0), SomeOrder(laid));
    FallsSpends(g.t, h.t);
    Turns.PlayFields(g, 0, SomeOrder(laid));
  }

  /** By demanding and playing, the round is brought to its end within its budget. */
  lemma {:induction false} CanEnd(g: Game) returns (events: seq<Event>)
    requires Playable(g.t) && g.t.phase == InProgress && g.t.call.Some?
    ensures IsRun(g, events) && NoNewRound(events) && Exec(g, events).t.phase == RoundEnded
    ensures |events| <= 2 * Budget(g.t)
    decreases Budget(g.t)
  {
    hide IsRun, Exec, Playable, Budget;
    events := DemandAndPlay(g);
    BudgetBounds(g.t);
    var h := Exec(g, events);
    BudgetBounds(h.t);
    if h.t.phase == InProgress {
      var rest := CanEnd(h);
      RunsJoin(g, events, rest);
      events := events + rest;
    }
  }

  // ---------- Without a call card ----------

  /** Without a call card no play is accepted, and no action changes that or the phase. */
  lemma StepWithoutCall(g: Game, e: Event)
    requires Possible(g, e) && e.Act? && g.t.call.None?
    ensures e.a.kind != PlayCard
    ensures Step(g, e).t.call.None? && Step(g, e).t.phase == g.t.phase
  {
    if e.a.kind == DrawCard {
      var count := g.t.Situation().DrawCount(g.t.players[g.t.current].hand);
      DrawCardsFrame(Refill(g.t, e.order), g.t.current, count);
    }
  }

  lemma {:induction false} RunWithoutCall(start: Game, events: seq<Event>)
    requires IsRun(start, events) && NoNewRound(events) && start.t.call.None?
    ensures Exec(start, events).t.call.None? && Exec(start, events).t.phase == start.t.phase
    decreases |events|
  {
    hide Step;
    if events != [] {
      RunWithoutCall(start, Front(events));
      StepWithoutCall(Exec(start, Front(events)), Last(events));
    }
  }

  // ---------- No round has to end ----------

  ghost function DeclareNow(t: Table): Event
    requires 0 <= t.current < |t.players|
  {
    Act(Action(DeclareLastCard, t.players[t.current].id, None, None, None), SomeOrder(t))
  }

  /** A declaration is accepted in every state and leaves the phase and the seat on turn alone. */
  lemma DeclarationStep(g: Game)
    requires Sound(g.t)
    ensures Possible(g, DeclareNow(g.t))
    ensures var u := Step(g, DeclareNow(g.t)).t; Sound(u) && u.phase == g.t.phase && u.current == g.t.current
  {
    StepKeeps(g, DeclareNow(g.t));
  }

  /** From every state there are runs of any length without a new round that leave the phase as it is. */
  lemma {:induction false} CanGoOn(g: Game, n: nat) returns (events: seq<Event>)
    requires Sound(g.t)
    ensures IsRun(g, events) && NoNewRound(events) && |events| == n
    ensures Sound(Exec(g, events).t) && Exec(g, events).t.phase == g.t.phase
  {
    hide Step, Possible;
    events := [];
    if n > 0 {
      events := CanGoOn(g, n - 1);
      var next := DeclareNow(Exec(g, events).t);
      DeclarationStep(Exec(g, events));
      Extend(g, events, next);
      events := events + [next];
    }
  }

  // ---------- Exactly when ----------

  /** Some run without a new round ends the round in progress. */
  ghost predicate RoundCanEnd(g: Game) {
    exists events: seq<Event> :: EndsWith(g, events)
  }

  ghost predicate EndsWith(g: Game, events: seq<Event>) {
    IsRun(g, events) && NoNewRound(events) && Exec(g, events).t.phase == RoundEnded
  }

  /** A round in progress, everyone holding a card, can be brought to its end exactly when it has a call card. */
  lemma RoundCanEndExactly(g: Game)
    requires Playable(g.t) && g.t.phase == InProgress
    ensures RoundCanEnd(g) <==> g.t.call.Some?
  {
    hide IsRun, Exec, Playable;
    if g.t.call.Some? {
      var events := CanEnd(g);
      assert EndsWith(g, events);
    } else {
      forall events: seq<Event> ensures !EndsWith(g, events) {
        if IsRun(g, events) && NoNewRound(events) { RunWithoutCall(g, events); }
      }
    }
  }

  /** A round just dealt at a full table can be brought to its end exactly when the deal leaves a card to turn. */
  lemma DealtRoundCanEndExactly(g: Game, order: seq<Card>)
    requires WellFormed(g.t) && FullTable(g.t) && IsStandardDeck(order)
    ensures RoundCanEnd(NewRound(g, order))
      <==> g.t.config.startingCards * |g.t.players| < STANDARD_DECK_SIZE
  {
    hide StartRound, RoundCanEnd;
    AllSeatsActive(g.t.players);
    FairDeal(g.t, order, 0);
    StartRoundKeeps(g.t, order);
    EveryoneHoldsACard(g.t, order);
    FullTableCarries(g.t, StartRound(g.t, order));
    RoundCanEndExactly(NewRound(g, order));
  }
}
