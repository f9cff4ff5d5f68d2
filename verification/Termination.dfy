/**
 What a round can spend: plays, and draws with something to draw, use up a finite budget. Choices,
 declarations and draws from nothing are not bounded.
 */
module Termination {
  import opened Arith
  import opened Cards
  import opened Players
  import opened Tables
  import opened Games
  import opened Accounting
  import opened Invariants
  import Turns

  /** The cards on the table first, then how far they are from the discard pile. */
  ghost function Distance(t: Table): int {
    2 * |t.deck| + Sum(t.players, HandSize())
  }

  /** (Size, Distance) falls in lexicographic order. */
  ghost predicate Falls(t: Table, u: Table) {
    Size(u) < Size(t) || (Size(u) == Size(t) && Distance(u) < Distance(t))
  }

  lemma DistanceBySize(t: Table)
    ensures Distance(t) == |t.deck| + Size(t) - |t.discard|
    ensures 0 <= Distance(t) <= 2 * Size(t)
  {
    SumNonNegative(t.players, HandSize());
  }

  lemma {:induction false} SumNonNegative(players: seq<PlayerData>, f: PlayerData -> int)
    requires forall i :: 0 <= i < |players| ==> f(players[i]) >= 0
    ensures Sum(players, f) >= 0
  {
    if players != [] {
      SumNonNegative(Front(players), f);
    }
  }

  lemma TopDiscardIsLost(t: Table)
    requires CallOnTop(t) && t.discard != []
    ensures Lost(t) >= 1
  {
    assert Last(t.discard) in multiset(t.discard);
  }

  /** Every accepted play makes (Size, Distance) fall. */
  lemma PlayFalls(g: Game, a: Action, order: seq<Card>)
    requires Possible(g, Act(a, order)) && a.kind == PlayCard
    ensures Falls(g.t, Apply(g, a, order).t)
  {
    var laid, after := Reshuffling(g.t, a), Apply(g, a, order).t;
    ActionAccounts(g, a, order, laid.call.value);
    if Reshuffles(g.t, a) {
      assert Last(laid.discard) == laid.call.value;
      TopDiscardIsLost(laid);
    } else {
      DistanceBySize(g.t);
      DistanceBySize(after);
    }
  }

  /** A draw does something when the deck holds a card or can be refilled. */
  ghost predicate SomethingToDraw(t: Table) { t.deck != [] || t.discard != [] }

  /** An accepted draw makes it fall when a card moves or a reshuffle happens, and never raises it. */
  lemma DrawFalls(g: Game, a: Action, order: seq<Card>)
    requires Possible(g, Act(a, order)) && a.kind == DrawCard && Sound(g.t)
    ensures SomethingToDraw(g.t) ==> Falls(g.t, Apply(g, a, order).t)
    ensures !SomethingToDraw(g.t) ==>
      Size(Apply(g, a, order).t) == Size(g.t) && Distance(Apply(g, a, order).t) == Distance(g.t)
  {
    var after := Apply(g, a, order).t;
    var c := Card(Whot, Twenty);
    ActionAccounts(g, a, order, c);
    var count := g.t.Situation().DrawCount(g.t.players[g.t.current].hand);
    DrawCardsCounts(Refill(g.t, order), g.t.current, count, c);
    DistanceBySize(g.t);
    DistanceBySize(after);
    if Reshuffles(g.t, a) {
      TopDiscardIsLost(g.t);
    }
  }

  // ---------- The bound ----------

  /** One number that falls whenever (Size, Distance) does. */
  ghost function Budget(t: Table): int {
    Size(t) * Size(t) + Distance(t)
  }

  lemma SquareGap(q: int, p: int)
    requires 0 <= q < p
    ensures q * q + 2 * q < p * p
  {
    MulMono(q + 1, p, q + 1);
    MulMono(q + 1, p, p);
    assert (q + 1) * (q + 1) == q * q + 2 * q + 1;
  }

  lemma FallsSpends(t: Table, u: Table)
    requires Falls(t, u)
    ensures Budget(u) < Budget(t)
  {
    DistanceBySize(t);
    DistanceBySize(u);
    if Size(u) < Size(t) {
      SquareGap(Size(u), Size(t));
    }
  }

  /** Plays, and draws with something to draw. */
  ghost predicate Progress(g: Game, e: Event) {
    e.Act? && (e.a.kind == PlayCard || (e.a.kind == DrawCard && SomethingToDraw(g.t)))
  }

  ghost function ProgressCount(start: Game, events: seq<Event>): nat
    requires IsRun(start, events)
    decreases |events|
  {
    if events == [] then 0
    else ProgressCount(start, Front(events))
         + if Progress(Exec(start, Front(events)), Last(events)) then 1 else 0
  }

  lemma StepSpends(g: Game, e: Event)
    requires Sound(g.t) && Possible(g, e) && e.Act?
    ensures Budget(Step(g, e).t) + (if Progress(g, e) then 1 else 0) <= Budget(g.t)
  {
    if e.a.kind == PlayCard {
      PlayFalls(g, e.a, e.order);
      FallsSpends(g.t, Step(g, e).t);
    } else if e.a.kind == DrawCard {
      DrawFalls(g, e.a, e.order);
      if SomethingToDraw(g.t) { FallsSpends(g.t, Step(g, e).t); }
    } else if e.a.kind != ChooseSuit {
      SameHandsCount(g.t.players, Step(g, e).t.players, Card(Whot, Twenty));
    }
  }

  /** Within a round every play and every effective draw is paid for out of the budget. */
  lemma {:induction false} RoundSpends(start: Game, events: seq<Event>)
    requires Sound(start.t) && IsRun(start, events) && NoNewRound(events)
    ensures ProgressCount(start, events) + Budget(Exec(start, events).t) <= Budget(start.t)
    decreases |events|
  {
    hide Step;
    if events != [] {
      RoundSpends(start, Front(events));
      RunKeeps(start, Front(events));
      StepSpends(Exec(start, Front(events)), Last(events));
    }
  }

  /** With P cards in play, a round has at most P * P + 2 * P plays and effective draws. */
  lemma RoundIsBounded(start: Game, events: seq<Event>)
    requires Sound(start.t) && IsRun(start, events) && NoNewRound(events)
    ensures ProgressCount(start, events) <= Size(start.t) * Size(start.t) + 2 * Size(start.t)
  {
    RoundSpends(start, events);
    BudgetBounds(start.t);
    BudgetBounds(Exec(start, events).t);
  }

  lemma BudgetBounds(t: Table)
    ensures 0 <= Budget(t) <= Size(t) * Size(t) + 2 * Size(t)
  {
    DistanceBySize(t);
  }

  /** Each play adds at most three to the debt. */
  lemma {:induction false} DebtByPlays(start: Game, events: seq<Event>)
    requires Sound(start.t) && IsRun(start, events)
    ensures Exec(start, events).t.pickCount <= start.t.pickCount + 3 * ProgressCount(start, events)
    decreases |events|
  {
    hide Step;
    if events != [] {
      DebtByPlays(start, Front(events));
      RunKeeps(start, Front(events));
      Turns.StepDebt(Exec(start, Front(events)), Last(events));
    }
  }

  /** Within a round that opened without a debt, 3 * (P * P + 2 * P) bounds the debt. */
  lemma DebtIsBounded(start: Game, events: seq<Event>)
    requires Sound(start.t) && IsRun(start, events) && NoNewRound(events) && start.t.pickCount == 0
    ensures 0 <= Exec(start, events).t.pickCount <= 3 * (Size(start.t) * Size(start.t) + 2 * Size(start.t))
  {
    hide Step;
    DebtByPlays(start, events);
    RoundIsBounded(start, events);
    RunKeeps(start, events);
  }
}
