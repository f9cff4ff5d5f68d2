/**
 When a round without suit choices, such as one left to bots, comes to a standstill: nothing to draw and
 nobody able to play. Otherwise bots bring it to its end.
 */
module Standstills {
  import opened Arith
  import opened Options
  import opened Cards
  import opened Tables
  import opened Games
  import opened Accounting
  import opened Invariants
  import opened Acceptance
  import opened Rounds
  import opened Scores
  import opened Termination
  import opened Bots
  import Turns

  /** The player in the seat holds a card that goes on the call card. */
  ghost predicate Matches(t: Table, seat: nat)
    requires t.call.Some? && seat < |t.players|
  {
    exists i :: 0 <= i < |t.players[seat].hand| && t.players[seat].hand[i].CanPlayOn(t.call.value)
  }

  /** Nothing demanded, nothing to draw, and nobody holds a card for the call card. */
  ghost predicate Standstill(t: Table) {
    && t.call.Some? && t.demanded == None && !SomethingToDraw(t)
    && forall seat: nat :: seat < |t.players| ==> !Matches(t, seat)
  }

  // ---------- A standstill lasts ----------

  /** The table apart from whose turn it is, the debt, the direction, and what players have said. */
  ghost predicate SameCards(t: Table, u: Table) {
    && u.call == t.call && u.demanded == t.demanded && u.deck == t.deck && u.discard == t.discard
    && u.phase == t.phase && SameHands(t.players, u.players)
  }

  /** A draw from nothing moves the turn and clears the debt and the flag. */
  lemma EmptyDraw(g: Game, order: seq<Card>)
    requires 0 <= g.t.current < |g.t.players| && !SomethingToDraw(g.t)
    ensures Draw(g, order) == Game(Advance(g.t).(pickCount := 0), false)
  {
  }

  lemma StandstillStep(g: Game, e: Event)
    requires Possible(g, e) && e.Act? && e.a.kind != ChooseSuit && Standstill(g.t)
    ensures e.a.kind != PlayCard && SameCards(g.t, Step(g, e).t)
  {
    assert !Matches(g.t, g.t.current);
    if e.a.kind == DrawCard { EmptyDraw(g, e.order); }
  }

  lemma SameCardsStandstill(t: Table, u: Table)
    requires Standstill(t) && SameCards(t, u)
    ensures Standstill(u)
  {
    forall seat: nat | seat < |u.players| ensures !Matches(u, seat) { assert !Matches(t, seat); }
  }

  /** From a standstill no run without a new round and a suit choice lays or moves a card. */
  lemma {:induction false} StandstillLasts(start: Game, events: seq<Event>)
    requires Standstill(start.t) && IsRun(start, events) && NoNewRound(events) && NoChoice(events)
    ensures forall i :: 0 <= i < |events| ==> events[i].a.kind != PlayCard
    ensures SameCards(start.t, Exec(start, events).t) && Standstill(Exec(start, events).t)
    decreases |events|
  {
    hide Step, Standstill;
    if events != [] {
      var g, e := Exec(start, Front(events)), Last(events);
      StandstillLasts(start, Front(events));
      StandstillStep(g, e);
      SameCardsStandstill(g.t, Step(g, e).t);
    }
  }

  // ---------- Rounds left to bots ----------

  /** The bot on turn, of the level its seat has, decides on this action. */
  ghost predicate BotEvent(levels: seq<DifficultyLevel>, g: Game, e: Event)
    requires 0 <= g.t.current < |g.t.players|
  {
    e.Act? && g.t.current < |levels| && Decides(levels[g.t.current], g.t, e.a)
  }

  /** Every event is a bot's decision. */
  ghost predicate BotRun(levels: seq<DifficultyLevel>, start: Game, events: seq<Event>)
    requires IsRun(start, events)
    decreases |events|
  {
    events == [] ||
    (BotRun(levels, start, Front(events)) && BotEvent(levels, Exec(start, Front(events)), Last(events)))
  }

  /** A round in progress that is not at a standstill. */
  ghost predicate Alive(t: Table) {
    t.phase == InProgress && !Standstill(t)
  }

  /** At every table of the run, the first and the last included. */
  ghost predicate AliveThroughout(start: Game, events: seq<Event>)
    requires IsRun(start, events)
    decreases |events|
  {
    Alive(Exec(start, events).t) && (events == [] || AliveThroughout(start, Front(events)))
  }

  /** How many seats from this one on, of at most so many, hold no match. */
  ghost function Waiting(t: Table, seat: nat, tries: nat): (w: nat)
    requires t.call.Some? && seat < |t.players|
    ensures w <= tries
    decreases tries
  {
    if tries == 0 || Matches(t, seat) then 0
    else 1 + Waiting(t, NextSeat(seat, t.direction, |t.players|), tries - 1)
  }

  /** The seat so many steps ahead, less than a whole round. */
  function Ahead(seat: nat, d: Direction, i: nat, n: nat): int {
    if d == Clockwise then (if seat + i < n then seat + i else seat + i - n)
    else if i <= seat then seat - i else seat - i + n
  }

  lemma {:induction false} WaitingSeats(t: Table, seat: nat, tries: nat, i: nat)
    requires t.call.Some? && seat < |t.players| && Waiting(t, seat, tries) == tries
    requires i < tries <= |t.players|
    ensures 0 <= Ahead(seat, t.direction, i, |t.players|) < |t.players|
    ensures !Matches(t, Ahead(seat, t.direction, i, |t.players|))
    decreases tries
  {
    hide Matches;
    if i > 0 {
      WaitingSeats(t, NextSeat(seat, t.direction, |t.players|), tries - 1, i - 1);
    }
  }

  /** If the whole table waits nobody has a match. */
  lemma AllWaiting(t: Table, seat: nat)
    requires t.call.Some? && seat < |t.players| && Waiting(t, seat, |t.players|) == |t.players|
    ensures forall j: nat :: j < |t.players| ==> !Matches(t, j)
  {
    var n := |t.players|;
    forall j: nat | j < n ensures !Matches(t, j) {
      var i := if t.direction == Clockwise then (if j >= seat then j - seat else j - seat + n)
               else if j <= seat then seat - j else seat - j + n;
      WaitingSeats(t, seat, n, i);
    }
  }

  /** Once somebody ahead has a match it does not matter how far one looks beyond. */
  lemma {:induction false} WaitingSettled(t: Table, u: Table, seat: nat, tries: nat)
    requires t.call.Some? && seat < |t.players| && u.call == t.call && u.direction == t.direction
    requires |u.players| == |t.players| && forall j: nat :: j < |t.players| ==> Matches(u, j) == Matches(t, j)
    requires Waiting(t, seat, tries) < tries
    ensures Waiting(u, seat, tries + 1) == Waiting(t, seat, tries)
    decreases tries
  {
    hide Matches;
    if !Matches(t, seat) { WaitingSettled(t, u, NextSeat(seat, t.direction, |t.players|), tries - 1); }
  }

  /** How many idle draws there are before somebody plays. */
  ghost function Wait(t: Table): nat
    requires t.call.Some? && 0 <= t.current < |t.players|
  {
    if SomethingToDraw(t) then 0 else Waiting(t, t.current, |t.players|)
  }

  lemma WaitIsShort(t: Table)
    requires t.call.Some? && t.demanded == None && 0 <= t.current < |t.players| && !Standstill(t)
    ensures Wait(t) < |t.players|
  {
    if !SomethingToDraw(t) && Waiting(t, t.current, |t.players|) == |t.players| { AllWaiting(t, t.current); }
  }

  /** What falls with every decision of a bot. */
  ghost function Patience(t: Table): int
    requires t.call.Some? && 0 <= t.current < |t.players|
  {
    Budget(t) * |t.players| + Wait(t)
  }

  /** The state a bot decides in, here without a demand. */
  ghost predicate BotsPlay(t: Table) {
    Playable(t) && t.call.Some? && t.demanded == None
  }

  lemma BotStepKeeps(levels: seq<DifficultyLevel>, g: Game, e: Event)
    requires BotsPlay(g.t) && Possible(g, e) && BotEvent(levels, g, e)
    ensures BotsPlay(Step(g, e).t) && |Step(g, e).t.players| == |g.t.players|
  {
    hide Play, Draw, Playable, Decides;
    DecidesIsDecision(levels[g.t.current], g.t, e.a);
    StepKeepsPlayable(g, e);
    PlayableIsSound(g.t);
    StepKeeps(g, e);
    StepDemand(g, e);
    if e.a.kind == PlayCard {
      Turns.PlayFields(g, e.a.cardIndex.value, e.order);
    } else if e.a.kind == DrawCard {
      Turns.DrawFields(g, e.order);
    }
  }

  lemma PlayableIsSound(t: Table)
    requires Playable(t)
    ensures Sound(t)
  {
  }

  lemma SameBudget(t: Table, u: Table)
    requires u.players == t.players && u.deck == t.deck && u.discard == t.discard
    ensures Budget(u) == Budget(t) && SomethingToDraw(u) == SomethingToDraw(t)
  {
  }

  /** An idle draw brings the next match one seat nearer. */
  lemma IdleDraw(levels: seq<DifficultyLevel>, g: Game, e: Event)
    requires BotsPlay(g.t) && Possible(g, e) && BotEvent(levels, g, e) && !Standstill(g.t)
    requires e.a.kind == DrawCard && !SomethingToDraw(g.t)
    ensures var u := Step(g, e).t;
      && |u.players| == |g.t.players| && u.call == g.t.call && 0 <= u.current < |u.players|
      && Budget(u) == Budget(g.t) && Wait(u) + 1 == Wait(g.t)
  {
    hide Playable, Budget, Draw, Decides;
    var n := |g.t.players|;
    DecidesIsDecision(levels[g.t.current], g.t, e.a);
    EmptyDraw(g, e.order);
    var u := Step(g, e).t;
    SameBudget(g.t, u);
    NextSeatInRange(g.t.current, g.t.direction, n);
    WaitIsShort(g.t);
    assert !Matches(g.t, g.t.current);
    hide Matches, Standstill;
    assert Waiting(g.t, g.t.current, n) == 1 + Waiting(g.t, u.current, n - 1);
    WaitingSettled(g.t, u, u.current, n - 1);
  }

  /** A decision that lays or draws costs budget, and leaves no more to wait for than one round of the table. */
  lemma BusyStep(g: Game, e: Event)
    requires BotsPlay(g.t) && Possible(g, e) && Progress(g, e)
    requires BotsPlay(Step(g, e).t) && |Step(g, e).t.players| == |g.t.players| && !Standstill(Step(g, e).t)
    ensures Patience(Step(g, e).t) + 1 <= Patience(g.t)
  {
    hide Step, Possible, Progress, Playable, Budget, Wait, Standstill;
    var n, u := |g.t.players|, Step(g, e).t;
    PlayableIsSound(g.t);
    PlayableIsSound(u);
    ProgressIsAct(g, e);
    StepSpends(g, e);
    WaitIsShort(u);
    MulMono(Budget(u) + 1, Budget(g.t), n);
    assert (Budget(u) + 1) * n == Budget(u) * n + n;
  }

  lemma ProgressIsAct(g: Game, e: Event)
    requires Progress(g, e)
    ensures e.Act?
  {
  }

  /** Every decision of a bot runs down their patience, unless it ends the round or leaves a standstill. */
  lemma BotStepFalls(levels: seq<DifficultyLevel>, g: Game, e: Event)
    requires BotsPlay(g.t) && Possible(g, e) && BotEvent(levels, g, e)
    requires !Standstill(g.t) && !Standstill(Step(g, e).t)
    ensures BotsPlay(Step(g, e).t) && |Step(g, e).t.players| == |g.t.players|
    ensures Patience(Step(g, e).t) + 1 <= Patience(g.t)
  {
    hide Step, Possible, Playable, Wait, Budget, Standstill;
    BotStepKeeps(levels, g, e);
    if Progress(g, e) {
      BusyStep(g, e);
    } else {
      IdleDraw(levels, g, e);
    }
  }

  lemma {:induction false} BotsGetOn(levels: seq<DifficultyLevel>, start: Game, events: seq<Event>)
    requires BotsPlay(start.t) && IsRun(start, events)
    requires BotRun(levels, start, events) && AliveThroughout(start, events)
    ensures BotsPlay(Exec(start, events).t) && |Exec(start, events).t.players| == |start.t.players|
    ensures |events| + Patience(Exec(start, events).t) <= Patience(start.t)
    decreases |events|
  {
    hide Step, Possible, BotsPlay, Standstill, Patience, BotEvent;
    if events != [] {
      var past := Front(events);
      BotsGetOn(levels, start, past);
      StillAlive(start, past);
      StillAlive(start, events);
      BotStepFalls(levels, Exec(start, past), Last(events));
    }
  }

  lemma StillAlive(start: Game, events: seq<Event>)
    requires IsRun(start, events) && AliveThroughout(start, events)
    ensures Exec(start, events).t.phase == InProgress && !Standstill(Exec(start, events).t)
  {
  }

  /**
   Bots of any levels, left to themselves with a call card and no demand, get to the end of the round or to
   a standstill: they cannot make as many as (Budget + 1) * players decisions without passing one.
   */
  lemma BotRunIsShort(levels: seq<DifficultyLevel>, start: Game, events: seq<Event>)
    requires BotsPlay(start.t) && IsRun(start, events)
    requires BotRun(levels, start, events) && AliveThroughout(start, events)
    ensures |events| < (Budget(start.t) + 1) * |start.t.players|
  {
    var n, u := |start.t.players|, Exec(start, events).t;
    BotsGetOn(levels, start, events);
    AliveFromStart(start, events);
    WaitIsShort(start.t);
    hide IsRun, Exec, BotRun, AliveThroughout, Standstill, Budget, Wait, Playable;
    BudgetBounds(u);
    MulMono(0, Budget(u), n);
    assert (Budget(start.t) + 1) * n == Budget(start.t) * n + n;
  }

  lemma {:induction false} AliveFromStart(start: Game, events: seq<Event>)
    requires IsRun(start, events) && AliveThroughout(start, events)
    ensures Alive(start.t)
    decreases |events|
  {
    hide Alive, Step, Possible;
    if events != [] { AliveFromStart(start, Front(events)); }
  }

  // ---------- Bots can always go on ----------

  /** The bot on turn has a decision, and it is accepted. */
  lemma SomeBotEvent(levels: seq<DifficultyLevel>, g: Game) returns (e: Event)
    requires BotsPlay(g.t) && |levels| == |g.t.players|
    ensures Possible(g, e) && e.Act? && BotEvent(levels, g, e)
  {
    hide Playable, NamesSuit, IsGreedy, CanShuffleTo;
    PlayableIsSound(g.t);
    var p, level := g.t.players[g.t.current], levels[g.t.current];
    var a := Action(DrawCard, p.id, None, None, None);
    if HasMatch(g.t) {
      var i := PickExists(level, p.hand, g.t.call.value, None, true);
      a := SomeDecision(level, g.t, i);
    }
    DecidesIsDecision(level, g.t, a);
    BotsNeverStall(g.t, a);
    e := Act(a, SomeOrder(Reshuffling(g.t, a)));
  }

  lemma {:induction false} BotsGoOn(levels: seq<DifficultyLevel>, start: Game, k: nat) returns (events: seq<Event>)
    requires BotsPlay(start.t) && start.t.phase == InProgress && |levels| == |start.t.players|
    ensures IsRun(start, events) && BotRun(levels, start, events) && |events| <= k
    ensures BotsPlay(Exec(start, events).t) && |Exec(start, events).t.players| == |start.t.players|
    ensures Exec(start, events).t.phase in {InProgress, RoundEnded}
    ensures !Alive(Exec(start, events).t) || (|events| == k && AliveThroughout(start, events))
  {
    hide Step, Possible, BotsPlay, Standstill, BotEvent;
    events := [];
    if k > 0 {
      events := BotsGoOn(levels, start, k - 1);
      var g := Exec(start, events);
      if Alive(g.t) {
        var e := SomeBotEvent(levels, g);
        BotStepKeeps(levels, g, e);
        StepPhase(g, e);
        Extend(start, events, e);
        assert Front(events + [e]) == events;
        events := events + [e];
      }
    }
  }

  /** From any round in progress with a call card and no demand, bots reach its end or a standstill in time. */
  lemma BotsFinish(levels: seq<DifficultyLevel>, g: Game) returns (events: seq<Event>)
    requires BotsPlay(g.t) && g.t.phase == InProgress && |levels| == |g.t.players|
    ensures IsRun(g, events) && BotRun(levels, g, events)
    ensures Exec(g, events).t.phase == RoundEnded || Standstill(Exec(g, events).t)
    ensures |events| <= (Budget(g.t) + 1) * |g.t.players|
  {
    hide BotsPlay, Standstill, Budget, IsRun, Exec, BotRun, AliveThroughout;
    BudgetBounds(g.t);
    MulMono(0, Budget(g.t) + 1, |g.t.players|);
    events := BotsGoOn(levels, g, (Budget(g.t) + 1) * |g.t.players|);
    if Alive(Exec(g, events).t) { BotRunIsShort(levels, g, events); }
  }
}
