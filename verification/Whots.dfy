/**
 What a Whot does. Whatever suit is sent with it, it leaves no suit demanded and passes the turn, so until
 somebody makes a suit choice only a Whot goes on a Whot.
 */
module Whots {
  import opened Options
  import opened Cards
  import opened Decks
  import opened Players
  import opened Tables
  import opened Games
  import opened Accounting
  import opened Invariants
  import opened Acceptance
  import opened Rounds
  import opened Scores
  import opened Turns
  import Termination

  // ---------- The suit sent with a play ----------

  /** The suit and direction sent with a play change nothing, and a play leaves no suit demanded. */
  lemma PlayIgnoresSuit(g: Game, a: Action, order: seq<Card>, suit: Option<Suit>, direction: Option<Direction>)
    requires Possible(g, Act(a, order)) && a.kind == PlayCard
    ensures var b := a.(chosenSuit := suit, chosenDirection := direction);
      && Possible(g, Act(b, order)) && Apply(g, b, order) == Apply(g, a, order)
      && Apply(g, b, order).t.demanded == None
  {
    StepDemand(g, Act(a, order));
  }

  /** A Whot that leaves no hand empty passes the turn to the neighbour, unless a Hold On is pending. */
  lemma WhotPassesTurn(g: Game, i: nat, order: seq<Card>)
    requires Sound(g.t) && i < |g.t.players[g.t.current].hand|
    requires g.t.players[g.t.current].hand[i].IsWhotCard() && !SomeHandEmpty(Play(g, i, order).t.players)
    ensures Play(g, i, order).t.current
         == if g.playAgain then g.t.current else NextSeat(g.t.current, g.t.direction, |g.t.players|)
  {
    PlayFields(g, i, order);
  }

  /** A demand that stands when the turn has moved on was left behind by a draw. */
  lemma StandingDemandWasDrawnPast(g: Game, e: Event)
    requires Possible(g, e)
    requires Step(g, e).t.current != g.t.current && Step(g, e).t.demanded.Some?
    ensures e.Act? && e.a.kind == DrawCard && Step(g, e).t.demanded == g.t.demanded
  {
    StepDemand(g, e);
  }

  // ---------- Whots are the cards of the suit Whot ----------

  /** Among all cards in play those of the suit Whot are the Twenties. */
  ghost predicate OnlyRealWhots(t: Table) {
    forall c: Card :: Copies(t, c) > 0 ==> (c.suit == Whot <==> c.IsWhotCard())
  }

  lemma {:induction false} SumAtLeast(players: seq<PlayerData>, i: nat, f: PlayerData -> int)
    requires i < |players| && forall j :: 0 <= j < |players| ==> f(players[j]) >= 0
    ensures Sum(players, f) >= f(players[i])
  {
    Termination.SumNonNegative(Front(players), f);
    if i < |players| - 1 { SumAtLeast(Front(players), i, f); }
  }

  /** A card in a hand is in play. */
  lemma HeldIsInPlay(t: Table, seat: nat, i: nat)
    requires seat < |t.players| && i < |t.players[seat].hand|
    ensures Copies(t, t.players[seat].hand[i]) > 0
  {
    var c := t.players[seat].hand[i];
    assert c in multiset(t.players[seat].hand);
    SumAtLeast(t.players, seat, HandCopies(c));
  }

  /** A step brings in no card that was not in play, but for the standard deck of a new round. */
  lemma StepKeepsRealWhots(g: Game, e: Event)
    requires Sound(g.t) && Possible(g, e) && OnlyRealWhots(g.t)
    ensures OnlyRealWhots(Step(g, e).t)
  {
    hide Copies, Step, Possible;
    forall c: Card | Copies(Step(g, e).t, c) > 0 ensures c.suit == Whot <==> c.IsWhotCard() {
      if e.Act? {
        StepNeverGains(g, e, c);
      } else {
        DealtFromDeckOrHands(g, e, c);
      }
    }
  }

  lemma DealtFromDeckOrHands(g: Game, e: Event, c: Card)
    requires Possible(g, e) && e.Round?
    ensures Copies(Step(g, e).t, c) <= Copies(g.t, c) + CopiesInDeck(c)
    ensures CopiesInDeck(c) > 0 ==> (c.suit == Whot <==> c.IsWhotCard())
  {
    NewRoundAccounts(g, e.order, c);
  }

  lemma {:induction false} RunKeepsRealWhots(start: Game, events: seq<Event>)
    requires Sound(start.t) && OnlyRealWhots(start.t) && IsRun(start, events)
    ensures OnlyRealWhots(Exec(start, events).t)
    decreases |events|
  {
    hide Step, OnlyRealWhots;
    if events != [] {
      RunKeepsRealWhots(start, Front(events));
      RunKeeps(start, Front(events));
      StepKeepsRealWhots(Exec(start, Front(events)), Last(events));
    }
  }

  /** Every game starts so: before its first deal there is no card. */
  lemma NoCardsNoFalseWhots(t: Table)
    requires t.deck == [] && t.discard == [] && forall i :: 0 <= i < |t.players| ==> t.players[i].hand == []
    ensures OnlyRealWhots(t)
  {
    forall c: Card ensures Copies(t, c) == 0 {
      EmptyHandsCountZero(t.players, HandCopies(c));
    }
  }

  // ---------- A Whot locks the round ----------

  /** A Whot lies on top and no suit is demanded. */
  ghost predicate Locked(t: Table) {
    t.call.Some? && t.call.value.IsWhotCard() && t.call.value.suit == Whot && t.demanded == None
  }

  /** On a Whot, with nothing demanded, exactly the Whots can be played. */
  lemma OnlyWhotOnWhot(t: Table, i: nat)
    requires WellFormed(t) && OnlyRealWhots(t) && Locked(t) && i < |t.players[t.current].hand|
    ensures IsValidAction(t, PlayAt(t, i)) <==> t.players[t.current].hand[i].IsWhotCard()
  {
    HeldIsInPlay(t, t.current, i);
  }

  /** Anything but a new round or a suit choice keeps the lock, and a play then lays a Whot. */
  lemma StepKeepsLock(g: Game, e: Event)
    requires Sound(g.t) && Possible(g, e) && e.Act? && e.a.kind != ChooseSuit
    requires OnlyRealWhots(g.t) && Locked(g.t)
    ensures Locked(Step(g, e).t)
    ensures EntryOf(g, e).Laid? ==> EntryOf(g, e).card.IsWhotCard()
  {
    hide OnlyRealWhots, Play, Draw;
    StepDemand(g, e);
    if e.a.kind == PlayCard {
      var i := e.a.cardIndex.value;
      HeldIsInPlay(g.t, g.t.current, i);
      RealWhot(g.t, g.t.players[g.t.current].hand[i]);
      PlayFields(g, i, e.order);
    } else if e.a.kind == DrawCard {
      DrawFields(g, e.order);
    }
  }

  lemma RealWhot(t: Table, c: Card)
    requires OnlyRealWhots(t) && Copies(t, c) > 0
    ensures c.suit == Whot <==> c.IsWhotCard()
  {
  }

  /** Every card laid is a Whot. */
  ghost predicate OnlyWhotsLaid(tr: seq<Entry>) {
    forall i :: 0 <= i < |tr| && tr[i].Laid? ==> tr[i].card.IsWhotCard()
  }

  lemma NothingLaid()
    ensures OnlyWhotsLaid([])
  {
  }

  lemma OneMoreWhot(tr: seq<Entry>, x: Entry)
    requires OnlyWhotsLaid(tr) && (x.Laid? ==> x.card.IsWhotCard())
    ensures OnlyWhotsLaid(tr + [x])
  {
  }

  /**
   Once a Whot lies on top with nothing demanded, by a play or by the first flip, it stays so over every run
   without a new round and without a suit choice, and every card laid is a Whot.
   */
  lemma {:induction false} WhotLocksRound(start: Game, events: seq<Event>)
    requires Sound(start.t) && OnlyRealWhots(start.t) && Locked(start.t)
    requires IsRun(start, events) && NoNewRound(events) && NoChoice(events)
    ensures Locked(Exec(start, events).t) && OnlyWhotsLaid(Transcript(start, events))
    decreases |events|
  {
    hide Step, Possible, OnlyRealWhots, Locked, EntryOf, OnlyWhotsLaid, Sound;
    if events == [] {
      NothingLaid();
    } else {
      var past := Front(events);
      WhotLocksRound(start, past);
      RunKeeps(start, past);
      RunKeepsRealWhots(start, past);
      StepKeepsLock(Exec(start, past), Last(events));
      OneMoreWhot(Transcript(start, past), EntryOf(Exec(start, past), Last(events)));
    }
  }

  /** So such a run ends its round only by somebody's last card being a Whot. */
  lemma LockedRoundEndsByWhot(start: Game, past: seq<Event>, e: Event)
    requires Playable(start.t) && OnlyRealWhots(start.t) && Locked(start.t)
    requires IsRun(start, past) && NoNewRound(past) && NoChoice(past)
    requires Possible(Exec(start, past), e) && e.Act? && e.a.kind != ChooseSuit && EndsRound(Exec(start, past), e)
    ensures var t := Exec(start, past).t;
      |t.players[t.current].hand| == 1 && t.players[t.current].hand[0].IsWhotCard()
  {
    hide OnlyRealWhots, Locked, IsRun, Exec;
    var g := Exec(start, past);
    WhotLocksRound(start, past);
    RunKeepsRealWhots(start, past);
    RunStaysPlayable(start, past);
    SettlesSplits(g, e);
    StepKeepsLock(g, e);
    LastCardEndsRound(g, e.a.cardIndex.value, e.order);
  }
}
