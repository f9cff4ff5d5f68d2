/** Which moves are open to the player on turn, and when none is. */
module Acceptance {
  import opened Options
  import opened Cards
  import opened Decks
  import opened Rules
  import opened Tables
  import opened Games
  import opened Invariants

  function PlayAt(t: Table, i: nat): Action
    requires 0 <= t.current < |t.players|
  {
    Action(PlayCard, t.players[t.current].id, Some(i), None, None)
  }

  function DrawNow(t: Table): Action
    requires 0 <= t.current < |t.players|
  {
    Action(DrawCard, t.players[t.current].id, None, None, None)
  }

  function ChooseNow(t: Table, suit: Suit): Action
    requires 0 <= t.current < |t.players|
  {
    Action(ChooseSuit, t.players[t.current].id, None, Some(suit), None)
  }

  ghost predicate CanPlaySome(t: Table)
    requires 0 <= t.current < |t.players|
  {
    exists i: nat :: IsValidAction(t, PlayAt(t, i))
  }

  predicate CanDraw(t: Table)
    requires 0 <= t.current < |t.players|
  {
    IsValidAction(t, DrawNow(t))
  }

  lemma CanPlaySomeIsPlayable(t: Table)
    requires 0 <= t.current < |t.players|
    ensures CanPlaySome(t) <==> t.Situation().HasPlayableCard(t.players[t.current].hand)
  {
    var hand := t.players[t.current].hand;
    if t.Situation().HasPlayableCard(hand) {
      var i: nat :| i < |hand| && RulesAllow(hand[i], t.call.value, t.demanded);
      assert IsValidAction(t, PlayAt(t, i));
    }
  }

  // ---------- Acceptance on the cards ----------

  /**
   A play is accepted exactly from the player on turn, with a card they hold and a call card to lay it on:
   a Twenty, or a card of the demanded suit, or with no suit demanded one of the call card's suit or value.
   */
  lemma PlayAcceptedExactly(t: Table, a: Action)
    requires 0 <= t.current < |t.players| && a.kind == PlayCard
    ensures var p := t.players[t.current];
      IsValidAction(t, a) <==>
        && a.playerId == p.id && t.call.Some?
        && a.cardIndex.Some? && a.cardIndex.value < |p.hand|
        && var card := p.hand[a.cardIndex.value];
        card.value == Twenty
        || if t.demanded.Some? then card.suit == t.demanded.value
           else card.suit == t.call.value.suit || card.value == t.call.value.value
  {
  }

  /**
   A draw is accepted exactly from the player on turn: against a debt, unless they hold a Two for a Two or
   a Five for a Five; and without one, when they hold no card they could play.
   */
  lemma DrawAcceptedExactly(t: Table, a: Action)
    requires 0 <= t.current < |t.players| && a.kind == DrawCard
    ensures var p := t.players[t.current];
      IsValidAction(t, a) <==>
        && a.playerId == p.id
        && forall i :: 0 <= i < |p.hand| && t.call.Some? ==>
             if t.pickCount > 0
             then !(p.hand[i].value == t.call.value.value && t.call.value.value in {Two, Five})
             else
               && p.hand[i].value != Twenty
               && if t.demanded.Some? then p.hand[i].suit != t.demanded.value
                  else p.hand[i].suit != t.call.value.suit && p.hand[i].value != t.call.value.value
  {
  }

  /** Declarations and suit choices that name a suit are open to the player on turn, the other two to nobody. */
  lemma OthersAcceptedExactly(t: Table, a: Action)
    requires 0 <= t.current < |t.players|
    ensures a.kind == DeclareLastCard || a.kind == DeclareCheckUp ==>
      (IsValidAction(t, a) <==> a.playerId == t.players[t.current].id)
    ensures a.kind == ChooseSuit ==>
      (IsValidAction(t, a) <==> a.playerId == t.players[t.current].id && a.chosenSuit.Some?)
    ensures a.kind == ChooseDirection || a.kind == ForfeitTurn ==> !IsValidAction(t, a)
  {
  }

  /** Over every run each action was made by the player then on turn. */
  lemma {:induction false} OnlyPlayerOnTurnActs(start: Game, events: seq<Event>, i: nat)
    requires IsRun(start, events) && i < |events| && events[i].Act?
    ensures IsRun(start, events[..i])
    ensures var t := Exec(start, events[..i]).t;
      0 <= t.current < |t.players| && events[i].a.playerId == t.players[t.current].id
    decreases |events|
  {
    hide Step;
    if i < |events| - 1 {
      OnlyPlayerOnTurnActs(start, Front(events), i);
      assert Front(events)[..i] == events[..i];
    }
  }

  // ---------- Stuck states ----------

  /**
   The player on turn owes cards for a Two or a Five they hold an answer to, but a suit is demanded
   that they can neither follow nor escape with a Whot.
   */
  ghost predicate Stuck(t: Table)
    requires 0 <= t.current < |t.players|
  {
    var hand := t.players[t.current].hand;
    && t.pickCount > 0
    && t.call.Some? && t.call.value.value in {Two, Five}
    && t.demanded.Some?
    && (exists i :: 0 <= i < |hand| && hand[i].value == t.call.value.value)
    && (forall i :: 0 <= i < |hand| ==> !hand[i].IsWhotCard() && hand[i].suit != t.demanded.value)
  }

  /** Neither a play nor a draw is accepted exactly in the stuck states. */
  lemma StuckExactly(t: Table)
    requires 0 <= t.current < |t.players|
    ensures !CanPlaySome(t) && !CanDraw(t) <==> Stuck(t)
  {
    CanPlaySomeIsPlayable(t);
    var hand := t.players[t.current].hand;
    if Stuck(t) {
      assert !t.Situation().HasPlayableCard(hand);
      var i :| 0 <= i < |hand| && hand[i].value == t.call.value.value;
      assert CanDefendAgainstAttack(t.call.value, hand[i]);
    } else if !CanPlaySome(t) && !CanDraw(t) {
      var i :| 0 <= i < |hand| && CanDefendAgainstAttack(t.call.value, hand[i]);
      assert !RulesAllow(hand[i], t.call.value, t.demanded);
      assert forall j :: 0 <= j < |hand| ==> !RulesAllow(hand[j], t.call.value, t.demanded);
    }
  }

  /** With no debt exactly one of playing and drawing is open. */
  lemma OneMoveWithoutDebt(t: Table)
    requires 0 <= t.current < |t.players| && t.pickCount <= 0
    ensures CanPlaySome(t) <==> !CanDraw(t)
  {
    CanPlaySomeIsPlayable(t);
  }

  /**
   A debt does not bind plays: whether a play is accepted does not depend on it. So with a debt both
   moves are open exactly when some card may be played and none answers the attack.
   */
  lemma DebtDoesNotBindPlays(t: Table, debt: int, i: nat)
    requires 0 <= t.current < |t.players|
    ensures IsValidAction(t.(pickCount := debt), PlayAt(t, i)) == IsValidAction(t, PlayAt(t, i))
    ensures CanPlaySome(t) && CanDraw(t) <==>
      t.pickCount > 0 && t.Situation().HasPlayableCard(t.players[t.current].hand)
      && !t.Situation().HasDefenseCard(t.players[t.current].hand)
  {
    CanPlaySomeIsPlayable(t);
  }

  /** One suit choice, of an answering card's suit, opens a play from a stuck state. */
  lemma ChoiceUnsticks(g: Game, order: seq<Card>) returns (suit: Suit)
    requires WellFormed(g.t) && Stuck(g.t)
    ensures IsValidAction(g.t, ChooseNow(g.t, suit))
    ensures CanPlaySome(Apply(g, ChooseNow(g.t, suit), order).t)
  {
    var hand := g.t.players[g.t.current].hand;
    var i: nat :| i < |hand| && hand[i].value == g.t.call.value.value;
    suit := hand[i].suit;
    var u := Apply(g, ChooseNow(g.t, suit), order).t;
    assert IsValidAction(u, PlayAt(u, i));
  }

  // ---------- Runs without a suit choice ----------

  ghost predicate NoChoice(events: seq<Event>) {
    forall i :: 0 <= i < |events| ==> events[i].Act? ==> events[i].a.kind != ChooseSuit
  }

  /** Only a suit choice sets a demand; a play or a new round clears it and a draw keeps it. */
  lemma StepDemand(g: Game, e: Event)
    requires Possible(g, e)
    ensures Step(g, e).t.demanded ==
      if e.Round? || e.a.kind == PlayCard then None
      else if e.a.kind == ChooseSuit then e.a.chosenSuit
      else g.t.demanded
  {
    hide IsStandardDeck, CanShuffleTo, DealEach;
    if e.Round? {
      StartRoundKeeps(g.t, e.order);
    } else if e.a.kind == PlayCard {
      var laid := LayCard(g.t, e.a.cardIndex.value);
      EffectDemand(g.(t := laid), laid.call.value, g.t.current, e.order);
    } else if e.a.kind == DrawCard {
      var count := g.t.Situation().DrawCount(g.t.players[g.t.current].hand);
      DrawCardsFrame(Refill(g.t, e.order), g.t.current, count);
    }
  }

  lemma EffectDemand(g: Game, card: Card, actor: nat, order: seq<Card>)
    requires g.t.demanded == None && 0 <= g.t.current < |g.t.players|
    ensures Special(g, card, actor, order).t.demanded == None
  {
    EffectIsLimited(g, card, actor, order);
    if card.value == Fourteen {
      Accounting.DealEachFrame(g.t, MarketSeats(g.t, actor), order);
    }
  }

  /** Without suit choices no run gets stuck. */
  lemma {:induction false} NeverStuckWithoutChoice(start: Game, events: seq<Event>)
    requires Sound(start.t) && start.t.demanded == None
    requires IsRun(start, events) && NoChoice(events)
    ensures Exec(start, events).t.demanded == None
    ensures Sound(Exec(start, events).t) && !Stuck(Exec(start, events).t)
    decreases |events|
  {
    hide Step;
    RunKeeps(start, events);
    if events != [] {
      NeverStuckWithoutChoice(start, Front(events));
      StepDemand(Exec(start, Front(events)), Last(events));
    }
  }

  // ---------- The list of open moves ----------

  /** The moves getValidActionsForCurrentPlayer lists. */
  function OpenMoves(t: Table): seq<ActionType>
    requires 0 <= t.current < |t.players|
  {
    var hand := t.players[t.current].hand;
    (if exists i :: 0 <= i < |hand| && t.Situation().CanPlayCard(hand[i]) then [PlayCard] else [])
    + (if t.Situation().MustDrawCard(hand) then [DrawCard] else [])
    + (if RequiresLastCardDeclaration(hand) then [DeclareLastCard] else [])
    + (if RequiresCheckUpDeclaration(hand) then [DeclareCheckUp] else [])
  }

  /**
   Playing and drawing are listed exactly when some such action would be accepted. A declaration is
   listed only for a hand of two or of one, though it is always accepted, and a suit choice never is.
   */
  lemma OpenMovesAreAccepted(t: Table)
    requires 0 <= t.current < |t.players|
    ensures PlayCard in OpenMoves(t) <==> CanPlaySome(t)
    ensures DrawCard in OpenMoves(t) <==> CanDraw(t)
    ensures DeclareLastCard in OpenMoves(t) <==> |t.players[t.current].hand| == 2
    ensures DeclareCheckUp in OpenMoves(t) <==> |t.players[t.current].hand| == 1
    ensures ChooseSuit !in OpenMoves(t)
  {
    CanPlaySomeIsPlayable(t);
    var hand := t.players[t.current].hand;
    if CanPlaySome(t) {
      var i: nat :| i < |hand| && RulesAllow(hand[i], t.call.value, t.demanded);
      assert t.Situation().CanPlayCard(hand[i]);
    }
  }
}
