/**
 What rounds cost. A play after which some hand is empty settles: the winner is credited and everyone is
 charged. The end of a round settles, but a play made after it, before the next deal, can settle again.
 */
module Scores {
  import opened Options
  import opened Cards
  import opened Decks
  import opened Hands
  import opened Players
  import opened Tables
  import opened Games
  import opened Accounting
  import opened Invariants
  import opened Dealing
  import opened Rounds

  // ---------- Which plays settle ----------

  lemma {:induction false} OmitDistinct(seats: seq<nat>, actor: nat)
    requires Distinct(seats)
    ensures Distinct(Omit(seats, actor))
  {
    if seats != [] {
      OmitDistinct(seats[1..], actor);
      assert forall x :: x in Omit(seats[1..], actor) ==> x in seats[1..];
    }
  }

  /** A General Market played with the card, dealt from deck and discards, reaches the seat. */
  ghost predicate Supplied(t: Table, card: Card, j: nat)
    requires 0 <= t.current
  {
    var seats := MarketSeats(t, t.current);
    card.value == Fourteen && exists r :: 0 <= r < |seats| && seats[r] == j && r < |t.deck| + |Kept(t.discard, card)|
  }

  /** Playing card i leaves a hand empty: the actor's last card, or a hand already empty and not supplied. */
  ghost predicate LeavesEmptyHand(t: Table, i: nat)
    requires 0 <= t.current < |t.players| && i < |t.players[t.current].hand|
  {
    var hand := t.players[t.current].hand;
    || |hand| == 1
    || exists j :: 0 <= j < |t.players| && j != t.current && t.players[j].hand == [] && !Supplied(t, hand[i], j)
  }

  /** What is left to deal after the card is laid. */
  lemma LaidSupply(t: Table, i: nat)
    requires 0 <= t.current < |t.players| && i < |t.players[t.current].hand|
    ensures var laid, card := LayCard(t, i), t.players[t.current].hand[i];
      && Supply(laid) == |t.deck| + |Kept(t.discard, card)|
      && MarketSeats(laid, t.current) == MarketSeats(t, t.current)
      && Distinct(MarketSeats(t, t.current))
  {
    var laid := LayCard(t, i);
    KeptPrefix(t.discard, laid.call.value, laid.call.value);
    SameStatusSameSeats(laid.players, t.players);
    ActiveSeatsAre(t.players);
    OmitDistinct(ActiveSeats(t.players), t.current);
  }

  /** A player other than the actor is without cards after the effect if they were before and got none. */
  lemma OtherHandEmpty(g: Game, i: nat, order: seq<Card>, j: nat)
    requires 0 <= g.t.current < |g.t.players| && i < |g.t.players[g.t.current].hand|
    requires CanShuffleTo(LayCard(g.t, i), order) && j < |g.t.players| && j != g.t.current
    ensures j < |AfterEffect(g, i, order).t.players|
    ensures AfterEffect(g, i, order).t.players[j].hand == []
      <==> g.t.players[j].hand == [] && !Supplied(g.t, g.t.players[g.t.current].hand[i], j)
  {
    hide DealEach, MarketSeats, CanShuffleTo, Supply;
    var laid, seats := LayCard(g.t, i), MarketSeats(g.t, g.t.current);
    var card := laid.call.value;
    if card.value == Fourteen {
      LaidSupply(g.t, i);
      if j in seats {
        var r :| 0 <= r < |seats| && seats[r] == j;
        DealEachReaches(laid, seats, order, r);
      } else {
        DealEachFrame(laid, seats, order);
      }
    } else {
      OtherEffectsMoveNothing(g.(t := laid), card, g.t.current, order);
    }
  }

  /** Whether a play settles can be told before it, in any phase. */
  lemma PlaySettlesExactly(g: Game, i: nat, order: seq<Card>)
    requires 0 <= g.t.current < |g.t.players| && i < |g.t.players[g.t.current].hand|
    requires CanShuffleTo(LayCard(g.t, i), order)
    ensures SomeHandEmpty(Play(g, i, order).t.players) <==> LeavesEmptyHand(g.t, i)
  {
    var h, me := AfterEffect(g, i, order), g.t.current;
    EffectOnHands(g, i, order);
    FinishPhase(h);
    hide AfterEffect, Finish, CanShuffleTo, Supplied;
    forall j: nat | j < |g.t.players| && j != me
      ensures h.t.players[j].hand == []
        <==> g.t.players[j].hand == [] && !Supplied(g.t, g.t.players[me].hand[i], j)
    {
      OtherHandEmpty(g, i, order, j);
    }
  }

  // ---------- Settlements and round ends ----------

  /** A play after which some hand is empty. */
  ghost predicate Settles(g: Game, e: Event)
    requires Possible(g, e)
  {
    e.Act? && e.a.kind == PlayCard && SomeHandEmpty(Step(g, e).t.players)
  }

  /** The round in progress ends. */
  ghost predicate EndsRound(g: Game, e: Event)
    requires Possible(g, e)
  {
    g.t.phase == InProgress && Step(g, e).t.phase == RoundEnded
  }

  /** A play with no round in progress that leaves some hand empty. */
  ghost predicate SettlesLate(g: Game, e: Event)
    requires Possible(g, e)
  {
    e.Act? && e.a.kind == PlayCard && g.t.phase != InProgress && LeavesEmptyHand(g.t, e.a.cardIndex.value)
  }

  /** A settlement is the end of a round or a late one, never both. */
  lemma SettlesSplits(g: Game, e: Event)
    requires Possible(g, e)
    ensures Settles(g, e) <==> EndsRound(g, e) || SettlesLate(g, e)
    ensures !(EndsRound(g, e) && SettlesLate(g, e))
  {
    hide Play, Draw, StartRound, CanShuffleTo, IsStandardDeck;
    if e.Round? {
      StartRoundKeeps(g.t, e.order);
    } else if e.a.kind == PlayCard {
      PlaySettlesExactly(g, e.a.cardIndex.value, e.order);
      HandsAfterPlay(g, e.a.cardIndex.value, e.order);
    } else if e.a.kind == DrawCard {
      DrawPhase(g, e.order);
    }
  }

  lemma DrawPhase(g: Game, order: seq<Card>)
    requires 0 <= g.t.current < |g.t.players|
    ensures Draw(g, order).t.phase == g.t.phase
  {
    var count := g.t.Situation().DrawCount(g.t.players[g.t.current].hand);
    DrawCardsFrame(Refill(g.t, order), g.t.current, count);
  }

  /** The tables left by the settlements of a run, in order. */
  ghost function Settlements(start: Game, events: seq<Event>): seq<Table>
    requires IsRun(start, events)
    decreases |events|
  {
    if events == [] then []
    else Settlements(start, Front(events))
         + if Settles(Exec(start, Front(events)), Last(events)) then [Exec(start, events).t] else []
  }

  /** The tables at which the rounds of a run ended, in order. */
  ghost function RoundEnds(start: Game, events: seq<Event>): seq<Table>
    requires IsRun(start, events)
    decreases |events|
  {
    if events == [] then []
    else RoundEnds(start, Front(events))
         + if EndsRound(Exec(start, Front(events)), Last(events)) then [Exec(start, events).t] else []
  }

  /** How many settlements of a run were late. */
  ghost function LateSettlements(start: Game, events: seq<Event>): nat
    requires IsRun(start, events)
    decreases |events|
  {
    if events == [] then 0
    else LateSettlements(start, Front(events))
         + if SettlesLate(Exec(start, Front(events)), Last(events)) then 1 else 0
  }

  /** Every settlement is a round end or late; with no late ones they are the round ends. */
  lemma {:induction false} SettlementsSplit(start: Game, events: seq<Event>)
    requires IsRun(start, events)
    ensures |Settlements(start, events)| == |RoundEnds(start, events)| + LateSettlements(start, events)
    ensures LateSettlements(start, events) == 0 ==> Settlements(start, events) == RoundEnds(start, events)
    decreases |events|
  {
    hide Step, Settles, EndsRound, SettlesLate;
    if events != [] {
      SettlementsSplit(start, Front(events));
      SettlesSplits(Exec(start, Front(events)), Last(events));
    }
  }

  /** An action while a round is in progress, or a deal before the first round or after an ended one. */
  ghost predicate InTurn(t: Table, e: Event) {
    if e.Act? then t.phase == InProgress else t.phase in {Starting, RoundEnded}
  }

  /** Actions only during rounds, and deals only between them. */
  ghost predicate Orderly(start: Game, events: seq<Event>)
    requires IsRun(start, events)
    decreases |events|
  {
    events == [] || (Orderly(start, Front(events)) && InTurn(Exec(start, Front(events)).t, Last(events)))
  }

  lemma {:induction false} OrderlyIsNeverLate(start: Game, events: seq<Event>)
    requires IsRun(start, events) && Orderly(start, events)
    ensures LateSettlements(start, events) == 0
    decreases |events|
  {
    if events != [] {
      OrderlyIsNeverLate(start, Front(events));
    }
  }

  // ---------- Deals and round ends ----------

  /** How many of the events are new rounds. */
  ghost function Deals(events: seq<Event>): nat {
    if events == [] then 0 else Deals(Front(events)) + if Last(events).Round? then 1 else 0
  }

  function RoundsOpen(t: Table): nat { if t.phase == InProgress then 1 else 0 }

  /** A deal opens a round; an action leaves the phase alone or ends the round. */
  lemma StepPhase(g: Game, e: Event)
    requires Possible(g, e)
    ensures e.Round? ==> Step(g, e).t.phase == InProgress
    ensures e.Act? ==> Step(g, e).t.phase in {g.t.phase, RoundEnded}
  {
    hide Play, Draw, StartRound, CanShuffleTo, IsStandardDeck;
    if e.Round? {
      StartRoundKeeps(g.t, e.order);
    } else if e.a.kind == PlayCard {
      HandsAfterPlay(g, e.a.cardIndex.value, e.order);
    } else if e.a.kind == DrawCard {
      DrawPhase(g, e.order);
    }
  }

  /** In an orderly run every deal is answered by a round end, but for the round in progress, if any. */
  lemma {:induction false} DealsMatchEnds(start: Game, events: seq<Event>)
    requires IsRun(start, events) && Orderly(start, events)
    ensures RoundsOpen(start.t) + Deals(events) == |RoundEnds(start, events)| + RoundsOpen(Exec(start, events).t)
    decreases |events|
  {
    hide Step;
    if events != [] {
      DealsMatchEnds(start, Front(events));
      StepPhase(Exec(start, Front(events)), Last(events));
    }
  }

  // ---------- Scores ----------

  /** What player j was left holding at the given settlements, in points. */
  ghost function PointsLeft(ends: seq<Table>, j: nat): int {
    if ends == [] then 0
    else PointsLeft(Front(ends), j)
         + if j < |Last(ends).players| then HandScore(Last(ends).players[j].hand) else 0
  }

  /** How many of the given settlements found player j the first without cards. */
  ghost function RoundsWon(ends: seq<Table>, j: nat): nat {
    if ends == [] then 0
    else RoundsWon(Front(ends), j) + if FirstEmpty(Last(ends).players) == Some(j) then 1 else 0
  }

  /** Scores and counters of a player before and after, with the points and the win just added. */
  ghost predicate Charged(p: PlayerData, q: PlayerData, points: int, rounds: int, wins: int) {
    && q.currentScore == p.currentScore + points
    && q.cumulativeScore == p.cumulativeScore + points
    && q.gamesPlayed == p.gamesPlayed + rounds
    && q.gamesWon == p.gamesWon + wins
  }

  lemma EffectCharges(g: Game, i: nat, order: seq<Card>, j: nat)
    requires 0 <= g.t.current < |g.t.players| && i < |g.t.players[g.t.current].hand| && j < |g.t.players|
    ensures |AfterEffect(g, i, order).t.players| == |g.t.players|
    ensures AfterEffect(g, i, order).t.players[j].status == g.t.players[j].status
    ensures Charged(g.t.players[j], AfterEffect(g, i, order).t.players[j], 0, 0, 0)
  {
    hide DealEach, MarketSeats;
    var laid := LayCard(g.t, i);
    if laid.call.value.value == Fourteen {
      DealEachFrame(laid, MarketSeats(laid, g.t.current), order);
    } else {
      OtherEffectsMoveNothing(g.(t := laid), laid.call.value, g.t.current, order);
    }
  }

  lemma FinishCharges(g: Game, j: nat)
    requires j < |g.t.players| && g.t.players[j].status == Active
    ensures |Finish(g).t.players| == |g.t.players|
    ensures var p, q := g.t.players[j], Finish(g).t.players[j];
      q.hand == p.hand && FirstEmptySame(g.t.players, Finish(g).t.players) &&
      if SomeHandEmpty(g.t.players)
      then Charged(p, q, HandScore(p.hand), 1, if FirstEmpty(g.t.players) == Some(j) then 1 else 0)
      else q == p
  {
    SameFirstEmpty(g.t.players, Finish(g).t.players);
  }

  ghost predicate FirstEmptySame(ps: seq<PlayerData>, qs: seq<PlayerData>) {
    FirstEmpty(ps) == FirstEmpty(qs)
  }

  lemma SameFirstEmpty(ps: seq<PlayerData>, qs: seq<PlayerData>)
    requires SameHands(ps, qs)
    ensures FirstEmptySame(ps, qs)
  {
    var a, b := FirstEmpty(ps), FirstEmpty(qs);
    assert a.Some? ==> qs[a.value].hand == [];
    assert b.Some? ==> ps[b.value].hand == [];
  }

  lemma PlayCharges(g: Game, i: nat, order: seq<Card>, j: nat)
    requires 0 <= g.t.current < |g.t.players| && i < |g.t.players[g.t.current].hand| && j < |g.t.players|
    requires g.t.players[j].status == Active
    ensures |Play(g, i, order).t.players| == |g.t.players|
    ensures var p, q, u := g.t.players[j], Play(g, i, order).t.players[j], Play(g, i, order).t;
      if SomeHandEmpty(u.players)
      then Charged(p, q, HandScore(q.hand), 1, if FirstEmpty(u.players) == Some(j) then 1 else 0)
      else Charged(p, q, 0, 0, 0)
  {
    EffectCharges(g, i, order, j);
    FinishCharges(AfterEffect(g, i, order), j);
    FinishPhase(AfterEffect(g, i, order));
    hide AfterEffect, Finish, FirstEmpty;
  }

  lemma DrawCharges(g: Game, order: seq<Card>, j: nat)
    requires 0 <= g.t.current < |g.t.players| && j < |g.t.players|
    ensures |Draw(g, order).t.players| == |g.t.players|
    ensures Charged(g.t.players[j], Draw(g, order).t.players[j], 0, 0, 0)
  {
    var count := g.t.Situation().DrawCount(g.t.players[g.t.current].hand);
    DrawCardsFrame(Refill(g.t, order), g.t.current, count);
  }

  /** What one step adds to a player's scores and counters. */
  lemma StepCharges(g: Game, e: Event, j: nat)
    requires Sound(g.t) && Possible(g, e) && j < |g.t.players| && g.t.players[j].status == Active
    ensures |Step(g, e).t.players| == |g.t.players|
    ensures var p, q, u := g.t.players[j], Step(g, e).t.players[j], Step(g, e).t;
      if Settles(g, e)
      then Charged(p, q, HandScore(q.hand), 1, if FirstEmpty(u.players) == Some(j) then 1 else 0)
      else Charged(p, q, 0, 0, 0)
  {
    hide Play, Draw, StartRound, CanShuffleTo, IsStandardDeck, FirstEmpty;
    if e.Round? {
      DealtCharges(g.t, e.order, j);
    } else if e.a.kind == PlayCard {
      PlayCharges(g, e.a.cardIndex.value, e.order, j);
    } else if e.a.kind == DrawCard {
      DrawCharges(g, e.order, j);
    }
  }

  lemma DealtCharges(t: Table, order: seq<Card>, j: nat)
    requires j < |t.players|
    ensures Charged(t.players[j], StartRound(t, order).players[j], 0, 0, 0)
  {
    var open := OpenRound(t, order);
    DealEachFrame(open, Repeat(ActiveSeats(open.players), t.config.startingCards), []);
  }

  lemma EndsOneMore(ends: seq<Table>, now: Table, j: nat)
    ensures ends + [] == ends
    ensures PointsLeft(ends + [now], j)
         == PointsLeft(ends, j) + if j < |now.players| then HandScore(now.players[j].hand) else 0
    ensures RoundsWon(ends + [now], j) == RoundsWon(ends, j) + if FirstEmpty(now.players) == Some(j) then 1 else 0
  {
    assert Front(ends + [now]) == ends;
  }

  /** One more step, settling or not, in the figures of one player. */
  lemma ChargedOneMore(p: PlayerData, q: PlayerData, settled: seq<Table>, settles: bool, now: Table, j: nat)
    requires j < |now.players|
    requires Charged(p, q, PointsLeft(settled, j), |settled|, RoundsWon(settled, j))
    requires
      if settles
      then Charged(q, now.players[j], HandScore(now.players[j].hand), 1,
                   if FirstEmpty(now.players) == Some(j) then 1 else 0)
      else Charged(q, now.players[j], 0, 0, 0)
    ensures var more := settled + if settles then [now] else [];
      Charged(p, now.players[j], PointsLeft(more, j), |more|, RoundsWon(more, j))
  {
    hide FirstEmpty;
    EndsOneMore(settled, now, j);
  }

  /** Every settlement charges each player the points in hand, counts a game, and credits its winner. */
  lemma {:induction false} SettlementsMeaning(start: Game, events: seq<Event>, j: nat)
    requires Sound(start.t) && AllActive(start.t.players) && IsRun(start, events) && j < |start.t.players|
    ensures |Exec(start, events).t.players| == |start.t.players|
    ensures var settled := Settlements(start, events);
      Charged(start.t.players[j], Exec(start, events).t.players[j],
              PointsLeft(settled, j), |settled|, RoundsWon(settled, j))
    decreases |events|
  {
    hide Step, Settles, Possible, Sound, AllActive, HandScore, FirstEmpty;
    if events != [] {
      hide Settlements, PointsLeft, RoundsWon, Charged;
      assert events == Front(events) + [Last(events)];
      SettlementsMeaning(start, Front(events), j);
      SettlementsStep(start, Front(events), Last(events), j);
    }
  }

  /** The same for one more event after a run. */
  lemma SettlementsStep(start: Game, past: seq<Event>, e: Event, j: nat)
    requires Sound(start.t) && AllActive(start.t.players) && j < |start.t.players|
    requires IsRun(start, past) && Possible(Exec(start, past), e)
    requires |Exec(start, past).t.players| == |start.t.players|
    requires var settled := Settlements(start, past);
      Charged(start.t.players[j], Exec(start, past).t.players[j],
              PointsLeft(settled, j), |settled|, RoundsWon(settled, j))
    ensures IsRun(start, past + [e])
    ensures |Exec(start, past + [e]).t.players| == |start.t.players|
    ensures var settled := Settlements(start, past + [e]);
      Charged(start.t.players[j], Exec(start, past + [e]).t.players[j],
              PointsLeft(settled, j), |settled|, RoundsWon(settled, j))
  {
    hide IsRun, Exec, Step, Possible, Settles, Settlements, Charged, PointsLeft, RoundsWon, FirstEmpty, Sound;
    var g := Exec(start, past);
    RunKeeps(start, past);
    StepCharges(g, e, j);
    OneMoreEvent(start, past, e);
    ChargedOneMore(start.t.players[j], g.t.players[j], Settlements(start, past), Settles(g, e), Step(g, e).t, j);
  }

  /**
   Over any number of rounds a player has played as many games as rounds ended if and only if nothing was
   settled late. Then they were charged the points left in hand at each round end, and won the rounds that
   ended with their hand the first empty one.
   */
  lemma ScoresMeaning(start: Game, events: seq<Event>, j: nat)
    requires Sound(start.t) && AllActive(start.t.players) && IsRun(start, events) && j < |start.t.players|
    ensures |Exec(start, events).t.players| == |start.t.players|
    ensures var p, q, ends := start.t.players[j], Exec(start, events).t.players[j], RoundEnds(start, events);
      && (q.gamesPlayed == p.gamesPlayed + |ends| <==> LateSettlements(start, events) == 0)
      && (LateSettlements(start, events) == 0 ==>
            Charged(p, q, PointsLeft(ends, j), |ends|, RoundsWon(ends, j)))
  {
    hide Settlements, RoundEnds, LateSettlements, PointsLeft, RoundsWon, IsRun, Exec;
    SettlementsMeaning(start, events, j);
    SettlementsSplit(start, events);
  }

  // ---------- The wins add up ----------

  ghost function GamesWonBy(): PlayerData -> int { (p: PlayerData) => p.gamesWon }

  /** Exactly one win is credited per settlement. */
  lemma {:induction false} WinsPerSettlement(start: Game, events: seq<Event>)
    requires Sound(start.t) && AllActive(start.t.players) && IsRun(start, events)
    ensures Sum(Exec(start, events).t.players, GamesWonBy())
         == Sum(start.t.players, GamesWonBy()) + |Settlements(start, events)|
    decreases |events|
  {
    hide Step, Settles;
    if events != [] {
      var g, e := Exec(start, Front(events)), Last(events);
      RunKeeps(start, Front(events));
      WinsPerSettlement(start, Front(events));
      StepWins(g, e);
    }
  }

  /** The wins of all players together count the rounds ended if and only if nothing was settled late. */
  lemma WinsAddUp(start: Game, events: seq<Event>)
    requires Sound(start.t) && AllActive(start.t.players) && IsRun(start, events)
    ensures Sum(Exec(start, events).t.players, GamesWonBy())
            == Sum(start.t.players, GamesWonBy()) + |RoundEnds(start, events)|
      <==> LateSettlements(start, events) == 0
  {
    hide Settlements, RoundEnds, LateSettlements, IsRun, Exec;
    WinsPerSettlement(start, events);
    SettlementsSplit(start, events);
  }

  lemma StepWins(g: Game, e: Event)
    requires Sound(g.t) && AllActive(g.t.players) && Possible(g, e)
    ensures Sum(Step(g, e).t.players, GamesWonBy())
         == Sum(g.t.players, GamesWonBy()) + if Settles(g, e) then 1 else 0
  {
    hide Step;
    var ps, qs, f := g.t.players, Step(g, e).t.players, GamesWonBy();
    StepKeeps(g, e);
    forall j | 0 <= j < |ps|
      ensures f(qs[j]) == f(ps[j]) + if Settles(g, e) && FirstEmpty(qs) == Some(j) then 1 else 0
    {
      StepCharges(g, e, j);
    }
    if Settles(g, e) {
      var w := FirstEmpty(qs).value;
      SumUpdate(ps, w, qs[w], f);
      SumSame(ps[w := qs[w]], qs, f);
    } else {
      SumSame(ps, qs, f);
    }
  }

  /** When every action was taken with a round in progress, scores, games and wins are those of the rounds ended. */
  lemma OrderlyScores(start: Game, events: seq<Event>, j: nat)
    requires Sound(start.t) && AllActive(start.t.players) && IsRun(start, events) && j < |start.t.players|
    requires Orderly(start, events)
    ensures |Exec(start, events).t.players| == |start.t.players|
    ensures var ends := RoundEnds(start, events);
      && Charged(start.t.players[j], Exec(start, events).t.players[j],
                 PointsLeft(ends, j), |ends|, RoundsWon(ends, j))
      && Sum(Exec(start, events).t.players, GamesWonBy()) == Sum(start.t.players, GamesWonBy()) + |ends|
  {
    hide RoundEnds, LateSettlements, PointsLeft, RoundsWon, IsRun, Exec, Orderly, Charged;
    OrderlyIsNeverLate(start, events);
    ScoresMeaning(start, events, j);
    WinsAddUp(start, events);
  }

  /** The figures of a table, an earlier one's and those of the rounds ended since. */
  ghost predicate ScoresFollow(before: Table, ends: seq<Table>, after: Table) {
    && |after.players| == |before.players|
    && (forall j :: 0 <= j < |before.players| ==>
          Charged(before.players[j], after.players[j], PointsLeft(ends, j), |ends|, RoundsWon(ends, j)))
    && Sum(after.players, GamesWonBy()) == Sum(before.players, GamesWonBy()) + |ends|
  }

  lemma OrderlyScoresFollow(start: Game, events: seq<Event>)
    requires Sound(start.t) && AllActive(start.t.players) && IsRun(start, events) && Orderly(start, events)
    ensures ScoresFollow(start.t, RoundEnds(start, events), Exec(start, events).t)
  {
    hide RoundEnds, IsRun, Exec, Orderly, Charged;
    RunKeeps(start, events);
    forall j | 0 <= j < |start.t.players|
      ensures Charged(start.t.players[j], Exec(start, events).t.players[j],
                      PointsLeft(RoundEnds(start, events), j), |RoundEnds(start, events)|,
                      RoundsWon(RoundEnds(start, events), j))
    {
      OrderlyScores(start, events, j);
    }
    OrderlyScores(start, events, start.t.current);
  }

  // ---------- One round settled twice ----------

  /** Two players with a Ten of Circles to play on, the first down to an Eight of Circles. */
  ghost predicate EightToGo(t: Table) {
    && |t.players| == 2 && AllActive(t.players) && DistinctIds(t.players)
    && CallOnTop(t) && t.phase == InProgress && t.current == 0 && t.pickCount == 0 && t.demanded == None
    && t.call == Some(Card(Circle, Ten))
    && t.players[0].hand == [Card(Circle, Eight)]
    && t.players[1].hand == [Card(Circle, Three), Card(Circle, Four)]
  }

  /**
   The Eight ends the round and leaves the other player on turn, whose next play is accepted although no
   round is in progress and settles again: one round, but two games for everyone and two wins.
   */
  lemma OneRoundSettlesTwice(g: Game) returns (events: seq<Event>)
    requires EightToGo(g.t)
    ensures IsRun(g, events) && NoNewRound(events)
    ensures |RoundEnds(g, events)| == 1 && LateSettlements(g, events) == 1
    ensures var ps, qs := g.t.players, Exec(g, events).t.players;
      && |qs| == 2 && qs[0].gamesPlayed == ps[0].gamesPlayed + 2 && qs[1].gamesPlayed == ps[1].gamesPlayed + 2
      && qs[0].gamesWon == ps[0].gamesWon + 2
  {
    hide Step, Possible, EndsRound, SettlesLate, Settles, Charged;
    var e, first := EightEnds(g);
    var late := LatePlay(first);
    events := [] + [e] + [late];
    OneMoreEvent(g, [], e);
    OneMoreEvent(g, [] + [e], late);
    SettlesSplits(g, e);
    SettlesSplits(first, late);
    TwiceCharged(g, events, first.t, Step(first, late).t);
  }

  lemma TwiceCharged(g: Game, events: seq<Event>, first: Table, second: Table)
    requires EightToGo(g.t) && IsRun(g, events) && Settlements(g, events) == [] + [first] + [second]
    requires FirstEmpty(first.players) == FirstEmpty(second.players) == Some(0)
    ensures var ps, qs := g.t.players, Exec(g, events).t.players;
      && |qs| == 2 && qs[0].gamesPlayed == ps[0].gamesPlayed + 2 && qs[1].gamesPlayed == ps[1].gamesPlayed + 2
      && qs[0].gamesWon == ps[0].gamesWon + 2
  {
    hide Settlements, IsRun, Exec;
    SettlementsMeaning(g, events, 0);
    SettlementsMeaning(g, events, 1);
    EndsOneMore([], first, 0);
    EndsOneMore([] + [first], second, 0);
  }

  /** What one more event adds to the lists of settlements and round ends. */
  lemma OneMoreEvent(start: Game, events: seq<Event>, e: Event)
    requires IsRun(start, events) && Possible(Exec(start, events), e)
    ensures IsRun(start, events + [e]) && Exec(start, events + [e]) == Step(Exec(start, events), e)
    ensures Settlements(start, events + [e]) == Settlements(start, events)
      + if Settles(Exec(start, events), e) then [Exec(start, events + [e]).t] else []
    ensures RoundEnds(start, events + [e]) == RoundEnds(start, events)
      + if EndsRound(Exec(start, events), e) then [Exec(start, events + [e]).t] else []
    ensures LateSettlements(start, events + [e]) == LateSettlements(start, events)
      + if SettlesLate(Exec(start, events), e) then 1 else 0
    ensures Orderly(start, events + [e]) <==> Orderly(start, events) && InTurn(Exec(start, events).t, e)
  {
    hide Step, Possible, Settles, EndsRound, SettlesLate, InTurn;
    Extend(start, events, e);
    assert Front(events + [e]) == events;
  }

  lemma EightEnds(g: Game) returns (e: Event, h: Game)
    requires EightToGo(g.t)
    ensures Possible(g, e) && e.Act? && EndsRound(g, e) && h == Step(g, e)
    ensures FirstEmpty(h.t.players) == Some(0)
    ensures WellFormed(h.t) && h.t.current == 1 && h.t.phase == RoundEnded
    ensures h.t.call == Some(Card(Circle, Eight)) && h.t.demanded == None
    ensures |h.t.players| == 2 && h.t.players[0].hand == []
    ensures h.t.players[1].hand == [Card(Circle, Three), Card(Circle, Four)]
  {
    hide Play, Possible, Step;
    var order := SomeOrder(LayCard(g.t, 0));
    e := Act(Action(PlayCard, g.t.players[0].id, Some(0), None, None), order);
    EightIsPossible(g, e);
    EightLeaves(g, order);
    h := Step(g, e);
  }

  lemma EightIsPossible(g: Game, e: Event)
    requires EightToGo(g.t)
    requires e == Act(Action(PlayCard, g.t.players[0].id, Some(0), None, None), SomeOrder(LayCard(g.t, 0)))
    ensures Possible(g, e) && Step(g, e) == Play(g, 0, e.order)
  {
    hide Play, SomeOrder, CanShuffleTo;
  }

  lemma EightLeaves(g: Game, order: seq<Card>)
    requires EightToGo(g.t)
    ensures var u := Play(g, 0, order).t;
      && FirstEmpty(u.players) == Some(0)
      && WellFormed(u) && u.current == 1 && u.phase == RoundEnded
      && u.call == Some(Card(Circle, Eight)) && u.demanded == None
      && |u.players| == 2 && u.players[0].hand == []
      && u.players[1].hand == [Card(Circle, Three), Card(Circle, Four)]
  {
    hide DealEach, MarketSeats;
    var laid := LayCard(g.t, 0);
    assert laid.players[0].hand == [];
    var after := AfterEffect(g, 0, order);
    assert after == g.(t := Advance(laid));
    assert after.t.players[0].hand == [];
  }

  lemma LatePlay(h: Game) returns (e: Event)
    requires WellFormed(h.t) && h.t.current == 1 && h.t.phase == RoundEnded
    requires h.t.call == Some(Card(Circle, Eight)) && h.t.demanded == None
    requires |h.t.players| == 2 && h.t.players[0].hand == []
    requires h.t.players[1].hand == [Card(Circle, Three), Card(Circle, Four)]
    ensures Possible(h, e) && e.Act? && SettlesLate(h, e)
    ensures FirstEmpty(Step(h, e).t.players) == Some(0)
  {
    hide DealEach, MarketSeats, FirstEmpty, SomeOrder, CanShuffleTo;
    var order := SomeOrder(LayCard(h.t, 0));
    e := Act(Action(PlayCard, h.t.players[1].id, Some(0), None, None), order);
    OtherHandEmpty(h, 0, order, 0);
    FinishPhase(AfterEffect(h, 0, order));
  }
}
