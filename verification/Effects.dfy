/** What single actions do, read off the fields of the table. */
module Effects {
  import opened Options
  import opened Cards
  import opened Decks
  import opened Hands
  import opened Players
  import opened Tables
  import opened Games
  import opened Accounting
  import opened Invariants
  import opened Dealing
  import opened Rounds
  import opened Scores
  import Turns

  // ---------- Laying a card ----------

  /**
   A play takes the card out of the actor's hand, which keeps its order, and makes it the call card. But
   for a Fourteen, whose deal comes on top, it becomes the last discard and nothing else moves.
   */
  lemma PlayMovesCard(g: Game, i: nat, order: seq<Card>)
    requires 0 <= g.t.current < |g.t.players| && i < |g.t.players[g.t.current].hand|
    ensures var hand, u := g.t.players[g.t.current].hand, Play(g, i, order).t;
      && |u.players| == |g.t.players| && u.call == Some(hand[i])
      && |u.players[g.t.current].hand| == |hand| - 1
      && (forall k :: 0 <= k < i ==> u.players[g.t.current].hand[k] == hand[k])
      && (forall k :: i <= k < |hand| - 1 ==> u.players[g.t.current].hand[k] == hand[k + 1])
      && (hand[i].value != Fourteen ==>
            && u.deck == g.t.deck && u.discard == g.t.discard + [hand[i]]
            && forall j :: 0 <= j < |g.t.players| && j != g.t.current ==> u.players[j].hand == g.t.players[j].hand)
  {
    var hand, laid := g.t.players[g.t.current].hand, LayCard(g.t, i);
    HandsAfterPlay(g, i, order);
    WithoutKeepsOrder(hand, i);
    PlayCall(g, i, order);
    if hand[i].value != Fourteen {
      OtherEffectsMoveNothing(g.(t := laid), hand[i], g.t.current, order);
      FinishPhase(AfterEffect(g, i, order));
      FinishLeaves(AfterEffect(g, i, order));
    }
  }

  lemma FinishLeaves(g: Game)
    ensures Finish(g).t.deck == g.t.deck && Finish(g).t.discard == g.t.discard && Finish(g).t.call == g.t.call
  {
  }

  lemma PlayCall(g: Game, i: nat, order: seq<Card>)
    requires 0 <= g.t.current < |g.t.players| && i < |g.t.players[g.t.current].hand|
    ensures Play(g, i, order).t.call == Some(g.t.players[g.t.current].hand[i])
  {
    Turns.PlayFields(g, i, order);
  }

  // ---------- General Market ----------

  lemma {:induction false} OmitJoins(a: seq<nat>, b: seq<nat>, actor: nat)
    ensures Omit(a + b, actor) == Omit(a, actor) + Omit(b, actor)
  {
    if a == [] {
      assert a + b == b;
    } else {
      assert (a + b)[1..] == a[1..] + b;
      OmitJoins(a[1..], b, actor);
    }
  }

  /** How many active seats other than the actor's come before a seat. */
  ghost function OthersBefore(players: seq<PlayerData>, actor: nat, j: nat): nat
    requires j <= |players|
  {
    if j == 0 then 0
    else OthersBefore(players, actor, j - 1) + if players[j - 1].status == Active && j - 1 != actor then 1 else 0
  }

  /** Those seats. */
  ghost function Others(players: seq<PlayerData>, actor: nat, j: nat): set<nat> {
    set k: nat | k < j && k < |players| && players[k].status == Active && k != actor
  }

  lemma OthersGrow(players: seq<PlayerData>, actor: nat, j: nat)
    requires 0 < j <= |players|
    ensures j - 1 !in Others(players, actor, j - 1)
    ensures Others(players, actor, j) == Others(players, actor, j - 1)
      + if players[j - 1].status == Active && j - 1 != actor then {j - 1} else {}
  {
  }

  lemma {:induction false} OthersBeforeCounts(players: seq<PlayerData>, actor: nat, j: nat)
    requires j <= |players|
    ensures OthersBefore(players, actor, j) == |Others(players, actor, j)|
  {
    if j > 0 {
      hide Others;
      OthersBeforeCounts(players, actor, j - 1);
      OthersGrow(players, actor, j);
    } else {
      assert Others(players, actor, 0) == {};
    }
  }

  lemma {:induction false} OthersBeforeShorter(players: seq<PlayerData>, actor: nat, j: nat)
    requires players != [] && j < |players|
    ensures OthersBefore(Front(players), actor, j) == OthersBefore(players, actor, j)
  {
    if j > 0 { OthersBeforeShorter(players, actor, j - 1); }
  }

  lemma ServedGrow(players: seq<PlayerData>, actor: nat)
    requires players != []
    ensures var n := |players| - 1;
      Omit(ActiveSeats(players), actor) == Omit(ActiveSeats(Front(players)), actor)
        + if players[n].status == Active && n != actor then [n] else []
  {
    var n := |players| - 1;
    OmitJoins(ActiveSeats(Front(players)), if players[n].status == Active then [n] else [], actor);
  }

  /** The seats served are the active ones but the actor's, each in the place its number of forerunners says. */
  lemma {:induction false} ServedInOrder(players: seq<PlayerData>, actor: nat, j: nat)
    requires j < |players|
    ensures var seats := Omit(ActiveSeats(players), actor);
      && |seats| == OthersBefore(players, actor, |players|)
      && if players[j].status == Active && j != actor
         then OthersBefore(players, actor, j) < |seats| && seats[OthersBefore(players, actor, j)] == j
         else j !in seats
    decreases |players|, 0
  {
    hide ActiveSeats, Omit;
    var n := |players| - 1;
    ServedGrow(players, actor);
    OthersBeforeShorter(players, actor, n);
    if j < n {
      ServedInOrder(Front(players), actor, j);
      OthersBeforeShorter(players, actor, j);
    } else {
      ServedAllBefore(Front(players), actor);
    }
  }

  lemma ServedAllBefore(players: seq<PlayerData>, actor: nat)
    ensures |Omit(ActiveSeats(players), actor)| == OthersBefore(players, actor, |players|)
    ensures forall k :: k in Omit(ActiveSeats(players), actor) ==> k < |players|
    decreases |players|, 1
  {
    if players != [] { ServedInOrder(players, actor, 0); }
  }

  /** A deal to the seats of a General Market, one seat's share of it. */
  lemma MarketDeal(t: Table, actor: nat, order: seq<Card>, j: nat)
    requires j < |t.players| && j != actor && CanShuffleTo(t, order)
    ensures Supply(t) <= |t.deck| + |order|
    ensures var u, before := DealEach(t, MarketSeats(t, actor), order), OthersBefore(t.players, actor, j);
      u.players[j].hand == t.players[j].hand
        + if t.players[j].status == Active && before < Supply(t) then [StockAt(t, order, before)] else []
  {
    hide DealEach, CanShuffleTo, Supply, StockAt, ActiveSeats, Omit, OthersBefore;
    var seats := MarketSeats(t, actor);
    SupplyIsStocked(t, order);
    ActiveSeatsAre(t.players);
    OmitDistinct(ActiveSeats(t.players), actor);
    ServedInOrder(t.players, actor, j);
    if j in seats {
      DealEachGives(t, seats, order, OthersBefore(t.players, actor, j));
    } else {
      DealEachFrame(t, seats, order);
      assert t.players[j].hand + [] == t.players[j].hand;
    }
  }

  /**
   A Fourteen gives every active player other than the actor one card, in seat order, as long as the deck
   and then the discards that come back last; the actor and inactive players get none.
   */
  lemma MarketServes(g: Game, i: nat, order: seq<Card>, j: nat)
    requires 0 <= g.t.current < |g.t.players| && i < |g.t.players[g.t.current].hand| && j < |g.t.players|
    requires g.t.players[g.t.current].hand[i].value == Fourteen && CanShuffleTo(LayCard(g.t, i), order)
    ensures var t, u, card := g.t, Play(g, i, order).t, g.t.players[g.t.current].hand[i];
      var before := |set k: nat | k < j && k < |t.players| && t.players[k].status == Active && k != t.current|;
      var stock := |t.deck| + |t.discard| - multiset(t.discard)[card];
      && |u.players| == |t.players|
      && if j == t.current then |u.players[j].hand| == |t.players[j].hand| - 1
         else if t.players[j].status == Active && before < stock then
           && |u.players[j].hand| == |t.players[j].hand| + 1 && t.players[j].hand <= u.players[j].hand
           && (before < |t.deck| ==> u.players[j].hand[|t.players[j].hand|] == t.deck[|t.deck| - 1 - before])
         else u.players[j].hand == t.players[j].hand
  {
    hide Play, OthersBefore, CanShuffleTo;
    HandsAfterPlay(g, i, order);
    OthersBeforeCounts(g.t.players, g.t.current, j);
    if j != g.t.current { MarketServesOther(g, i, order, j); }
  }

  lemma MarketServesOther(g: Game, i: nat, order: seq<Card>, j: nat)
    requires 0 <= g.t.current < |g.t.players| && i < |g.t.players[g.t.current].hand|
    requires j < |g.t.players| && j != g.t.current
    requires g.t.players[g.t.current].hand[i].value == Fourteen && CanShuffleTo(LayCard(g.t, i), order)
    ensures j < |Play(g, i, order).t.players|
    ensures Served(g.t, g.t.players[g.t.current].hand[i], j, OthersBefore(g.t.players, g.t.current, j),
                   Play(g, i, order).t.players[j].hand)
  {
    hide DealEach, CanShuffleTo, Supply, MarketSeats, OthersBefore, Play, LayCard, StockAt, Served;
    var laid, card := LayCard(g.t, i), g.t.players[g.t.current].hand[i];
    var before := OthersBefore(g.t.players, g.t.current, j);
    LaidLeaves(g.t, i);
    LaidStock(g.t, i);
    SameStatusSameForerunners(laid.players, g.t.players, g.t.current, j);
    MarketDeal(laid, g.t.current, order, j);
    PlayOfMarket(g, i, order);
    HandServed(g.t, card, j, before, laid, order, Play(g, i, order).t.players[j].hand);
  }

  lemma LaidStock(t: Table, i: nat)
    requires 0 <= t.current < |t.players| && i < |t.players[t.current].hand|
    ensures Supply(LayCard(t, i))
         == |t.deck| + |t.discard| - multiset(t.discard)[t.players[t.current].hand[i]]
  {
    LaidSupply(t, i);
    KeptSplits(t.discard, t.players[t.current].hand[i]);
  }

  lemma HandServed(t: Table, card: Card, j: nat, before: nat, laid: Table, order: seq<Card>, hand: seq<Card>)
    requires j < |t.players| && laid.deck == t.deck && Supply(laid) <= |laid.deck| + |order|
    requires Supply(laid) == |t.deck| + |t.discard| - multiset(t.discard)[card]
    requires hand == t.players[j].hand
      + if t.players[j].status == Active && before < Supply(laid) then [StockAt(laid, order, before)] else []
    ensures Served(t, card, j, before, hand)
  {
  }

  /** The hand of seat j after a General Market, so many active seats but the actor's coming before it. */
  ghost predicate Served(t: Table, card: Card, j: nat, before: nat, hand: seq<Card>)
    requires j < |t.players|
  {
    var stock := |t.deck| + |t.discard| - multiset(t.discard)[card];
    if t.players[j].status == Active && before < stock then
      && |hand| == |t.players[j].hand| + 1 && t.players[j].hand <= hand
      && (before < |t.deck| ==> hand[|t.players[j].hand|] == t.deck[|t.deck| - 1 - before])
    else hand == t.players[j].hand
  }

  lemma LaidLeaves(t: Table, i: nat)
    requires 0 <= t.current < |t.players| && i < |t.players[t.current].hand|
    ensures var laid := LayCard(t, i);
      && |laid.players| == |t.players| && laid.deck == t.deck
      && (forall j :: 0 <= j < |t.players| ==> laid.players[j].status == t.players[j].status)
      && (forall j :: 0 <= j < |t.players| && j != t.current ==> laid.players[j].hand == t.players[j].hand)
  {
  }

  lemma PlayOfMarket(g: Game, i: nat, order: seq<Card>)
    requires 0 <= g.t.current < |g.t.players| && i < |g.t.players[g.t.current].hand|
    requires g.t.players[g.t.current].hand[i].value == Fourteen
    ensures var laid := LayCard(g.t, i);
      SameHands(DealEach(laid, MarketSeats(laid, g.t.current), order).players, Play(g, i, order).t.players)
  {
    hide DealEach, MarketSeats, Finish;
    FinishPhase(AfterEffect(g, i, order));
  }

  lemma {:induction false} SameStatusSameForerunners(ps: seq<PlayerData>, qs: seq<PlayerData>, actor: nat, j: nat)
    requires |ps| == |qs| && j <= |ps| && forall i :: 0 <= i < |ps| ==> ps[i].status == qs[i].status
    ensures OthersBefore(ps, actor, j) == OthersBefore(qs, actor, j)
  {
    if j > 0 { SameStatusSameForerunners(ps, qs, actor, j - 1); }
  }

  // ---------- Declarations ----------

  /**
   Each declaration sets its own flag of the player on turn and changes nothing else; a deal clears both
   flags of the active players, and no other step touches a flag.
   */
  lemma FlagsAfter(g: Game, e: Event, j: nat)
    requires Sound(g.t) && Possible(g, e) && j < |g.t.players|
    ensures |Step(g, e).t.players| == |g.t.players|
    ensures var p, q, u := g.t.players[j], Step(g, e).t.players[j], Step(g, e).t;
      if e.Round? then
        && q.saidLastCard == (p.saidLastCard && p.status != Active)
        && q.saidCheckUp == (p.saidCheckUp && p.status != Active)
      else
        && q.saidLastCard == (p.saidLastCard || (e.a.kind == DeclareLastCard && j == g.t.current))
        && q.saidCheckUp == (p.saidCheckUp || (e.a.kind == DeclareCheckUp && j == g.t.current))
        && (e.a.kind in {DeclareLastCard, DeclareCheckUp} ==>
              && Step(g, e).playAgain == g.playAgain && u == g.t.(players := u.players)
              && q == p.(saidLastCard := q.saidLastCard, saidCheckUp := q.saidCheckUp))
  {
    hide Play, Draw, StartRound, CanShuffleTo, IsStandardDeck;
    if e.Round? {
      RoundFlags(g.t, e.order, j);
    } else if e.a.kind == PlayCard {
      PlayFlags(g, e.a.cardIndex.value, e.order, j);
    } else if e.a.kind == DrawCard {
      DrawFlags(g, e.order, j);
    }
  }

  lemma RoundFlags(t: Table, order: seq<Card>, j: nat)
    requires j < |t.players|
    ensures var p, q := t.players[j], StartRound(t, order).players[j];
      && q.saidLastCard == (p.saidLastCard && p.status != Active)
      && q.saidCheckUp == (p.saidCheckUp && p.status != Active)
  {
    var open := OpenRound(t, order);
    DealEachFrame(open, Repeat(ActiveSeats(open.players), t.config.startingCards), []);
  }

  lemma PlayFlags(g: Game, i: nat, order: seq<Card>, j: nat)
    requires 0 <= g.t.current < |g.t.players| && i < |g.t.players[g.t.current].hand| && j < |g.t.players|
    ensures |Play(g, i, order).t.players| == |g.t.players|
    ensures var p, q := g.t.players[j], Play(g, i, order).t.players[j];
      q.saidLastCard == p.saidLastCard && q.saidCheckUp == p.saidCheckUp
  {
    hide DealEach, MarketSeats;
    var laid := LayCard(g.t, i);
    if laid.call.value.value == Fourteen {
      DealEachFrame(laid, MarketSeats(laid, g.t.current), order);
    } else {
      OtherEffectsMoveNothing(g.(t := laid), laid.call.value, g.t.current, order);
    }
    FinishFlags(AfterEffect(g, i, order), j);
    hide AfterEffect, Finish;
  }

  lemma FinishFlags(g: Game, j: nat)
    requires j < |g.t.players|
    ensures |Finish(g).t.players| == |g.t.players|
    ensures var p, q := g.t.players[j], Finish(g).t.players[j];
      q.saidLastCard == p.saidLastCard && q.saidCheckUp == p.saidCheckUp
  {
  }

  lemma DrawFlags(g: Game, order: seq<Card>, j: nat)
    requires 0 <= g.t.current < |g.t.players| && j < |g.t.players|
    ensures |Draw(g, order).t.players| == |g.t.players|
    ensures var p, q := g.t.players[j], Draw(g, order).t.players[j];
      q.saidLastCard == p.saidLastCard && q.saidCheckUp == p.saidCheckUp
  {
    var count := g.t.Situation().DrawCount(g.t.players[g.t.current].hand);
    DrawCardsFrame(Refill(g.t, order), g.t.current, count);
  }

  // ---------- What the end of a round costs ----------

  /**
   A last card laid adds to both scores of every active player the printed numbers left in their hand, stars
   counted twice, and one game; the first player without cards gets a win.
   */
  lemma RoundEndCosts(g: Game, i: nat, order: seq<Card>, j: nat)
    requires 0 <= g.t.current < |g.t.players| && i < |g.t.players[g.t.current].hand|
    requires |g.t.players[g.t.current].hand| == 1
    requires j < |g.t.players| && g.t.players[j].status == Active
    ensures |Play(g, i, order).t.players| == |g.t.players|
    ensures var p, qs := g.t.players[j], Play(g, i, order).t.players;
      var q, hand := qs[j], qs[j].hand;
      var cost := Counts(hand, One) + 2 * Counts(hand, Two) + 3 * Counts(hand, Three) + 4 * Counts(hand, Four)
        + 5 * Counts(hand, Five) + 7 * Counts(hand, Seven) + 8 * Counts(hand, Eight) + 10 * Counts(hand, Ten)
        + 11 * Counts(hand, Eleven) + 12 * Counts(hand, Twelve) + 13 * Counts(hand, Thirteen)
        + 14 * Counts(hand, Fourteen) + 20 * Counts(hand, Twenty);
      && q.currentScore == p.currentScore + cost && q.cumulativeScore == p.cumulativeScore + cost
      && q.gamesPlayed == p.gamesPlayed + 1
      && q.gamesWon == p.gamesWon
           + if hand == [] && forall k :: 0 <= k < j ==> qs[k].hand != [] then 1 else 0
  {
    hide Play, Counts, FirstEmpty;
    var u := Play(g, i, order).t;
    HandsAfterPlay(g, i, order);
    assert u.players[g.t.current].hand == [];
    PlayCharges(g, i, order, j);
    ScoreByValues(u.players[j].hand);
  }

  /** A settlement charges only active players. */
  lemma InactivePayNothing(g: Game, i: nat, order: seq<Card>, j: nat)
    requires 0 <= g.t.current < |g.t.players| && i < |g.t.players[g.t.current].hand| && j < |g.t.players|
    requires g.t.players[j].status != Active
    ensures |Play(g, i, order).t.players| == |g.t.players|
    ensures var p, q := g.t.players[j], Play(g, i, order).t.players[j];
      && q.currentScore == p.currentScore && q.cumulativeScore == p.cumulativeScore
      && q.gamesPlayed == p.gamesPlayed
  {
    EffectCharges(g, i, order, j);
    hide AfterEffect;
    FinishSpares(AfterEffect(g, i, order), j);
  }

  lemma FinishSpares(g: Game, j: nat)
    requires j < |g.t.players| && g.t.players[j].status != Active
    ensures |Finish(g).t.players| == |g.t.players|
    ensures var p, q := g.t.players[j], Finish(g).t.players[j];
      q.currentScore == p.currentScore && q.cumulativeScore == p.cumulativeScore && q.gamesPlayed == p.gamesPlayed
  {
  }
}
