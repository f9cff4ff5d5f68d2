/** Where every card is: what each action keeps, and what a reshuffle loses. */
module Accounting {
  import opened Options
  import opened Cards
  import opened Decks
  import opened Hands
  import opened Players
  import opened Tables
  import opened Games

  // ---------- Counting ----------

  /** Sum of a figure over the players. */
  ghost function Sum(players: seq<PlayerData>, f: PlayerData -> int): int {
    if players == [] then 0 else Sum(Front(players), f) + f(Last(players))
  }

  ghost function HandSize(): PlayerData -> int { (p: PlayerData) => |p.hand| }

  ghost function HandCopies(c: Card): PlayerData -> int { (p: PlayerData) => multiset(p.hand)[c] }

  /** How many copies of a card are in the deck, in the hands and on the discard pile. */
  ghost function Copies(t: Table, c: Card): int {
    multiset(t.deck)[c] + Sum(t.players, HandCopies(c)) + multiset(t.discard)[c]
  }

  /** How many cards are in the deck, in the hands and on the discard pile. */
  ghost function Size(t: Table): int {
    |t.deck| + Sum(t.players, HandSize()) + |t.discard|
  }

  lemma {:induction false} SumUpdate(players: seq<PlayerData>, i: nat, p: PlayerData, f: PlayerData -> int)
    requires i < |players|
    ensures Sum(players[i := p], f) + f(players[i]) == Sum(players, f) + f(p)
  {
    if i == |players| - 1 {
      assert Front(players[i := p]) == Front(players);
    } else {
      SumUpdate(Front(players), i, p, f);
      assert Front(players[i := p]) == Front(players)[i := p];
    }
  }

  lemma {:induction false} SumSame(ps: seq<PlayerData>, qs: seq<PlayerData>, f: PlayerData -> int)
    requires |ps| == |qs| && forall i :: 0 <= i < |ps| ==> f(ps[i]) == f(qs[i])
    ensures Sum(ps, f) == Sum(qs, f)
  {
    if ps != [] {
      SumSame(Front(ps), Front(qs), f);
    }
  }

  ghost predicate SameHands(ps: seq<PlayerData>, qs: seq<PlayerData>) {
    |ps| == |qs| && forall i :: 0 <= i < |ps| ==> ps[i].hand == qs[i].hand
  }

  lemma SameHandsCount(ps: seq<PlayerData>, qs: seq<PlayerData>, c: Card)
    requires SameHands(ps, qs)
    ensures Sum(ps, HandCopies(c)) == Sum(qs, HandCopies(c))
    ensures Sum(ps, HandSize()) == Sum(qs, HandSize())
  {
    SumSame(ps, qs, HandCopies(c));
    SumSame(ps, qs, HandSize());
  }

  // ---------- Single moves ----------

  ghost predicate Keeps(t: Table, u: Table, c: Card) {
    Copies(u, c) == Copies(t, c) && Size(u) == Size(t)
  }

  lemma GiveTopKeeps(t: Table, seat: nat, c: Card)
    requires seat < |t.players|
    ensures Keeps(t, GiveTop(t, seat), c)
  {
    if t.deck != [] {
      var p := t.players[seat];
      var q := p.(hand := p.hand + [Last(t.deck)]);
      SumUpdate(t.players, seat, q, HandCopies(c));
      SumUpdate(t.players, seat, q, HandSize());
      assert t.deck == Front(t.deck) + [Last(t.deck)];
    }
  }

  lemma WithoutCounts(hand: seq<Card>, i: nat, c: Card)
    requires i < |hand|
    ensures multiset(hand)[c] == multiset(Without(hand, i))[c] + multiset([hand[i]])[c]
  {
    assert hand == hand[..i] + [hand[i]] + hand[i + 1..];
  }

  lemma LayCardKeeps(t: Table, i: nat, c: Card)
    requires 0 <= t.current < |t.players| && i < |t.players[t.current].hand|
    ensures Keeps(t, LayCard(t, i), c)
  {
    var p := t.players[t.current];
    var q := p.(hand := Without(p.hand, i));
    SumUpdate(t.players, t.current, q, HandCopies(c));
    SumUpdate(t.players, t.current, q, HandSize());
    WithoutCounts(p.hand, i, c);
  }

  /** The discards equal to the call card, which a reshuffle does not take back. */
  ghost function Lost(t: Table): int
    requires t.call.Some?
  {
    multiset(t.discard)[t.call.value]
  }

  /** Going from t to u loses exactly the discards that equal the call card. */
  ghost predicate LosesCallCopies(t: Table, u: Table, c: Card) {
    && t.call.Some?
    && Copies(u, c) + (if c == t.call.value then Lost(t) else 0) == Copies(t, c)
    && Size(u) + Lost(t) == Size(t)
  }

  lemma RefillLoses(t: Table, order: seq<Card>, c: Card)
    requires CanShuffleTo(t, order) && NeedsReshuffle(t) && t.call.Some?
    ensures LosesCallCopies(t, Refill(t, order), c)
  {
    KeptSplits(t.discard, t.call.value);
    SameSize(order, Kept(t.discard, t.call.value));
    assert multiset(t.discard)[c] == multiset(order)[c] + if c == t.call.value then Lost(t) else 0;
  }

  lemma SameSize(a: seq<Card>, b: seq<Card>)
    requires multiset(a) == multiset(b)
    ensures |a| == |b|
  {
    assert |multiset(a)| == |multiset(b)|;
  }

  /** A deal of n cards finds the deck empty with discards to take back. */
  predicate DealReshuffles(t: Table, n: nat) {
    n > |t.deck| && t.discard != [] && t.call.Some?
  }

  /** What dealing n cards one by one does to the card counts. */
  ghost predicate DealtFrom(t: Table, u: Table, n: nat, c: Card) {
    if DealReshuffles(t, n) then u.discard == [] && LosesCallCopies(t, u, c)
    else u.discard == t.discard && Keeps(t, u, c) && |u.deck| <= |t.deck|
  }

  /** Everything but the deck, the discards and the hands. */
  ghost predicate OnlyCardsMoved(t: Table, u: Table) {
    && |u.players| == |t.players|
    && (forall i :: 0 <= i < |t.players| ==> u.players[i] == t.players[i].(hand := u.players[i].hand))
    && u == t.(deck := u.deck, discard := u.discard, players := u.players)
  }

  lemma DealOneCounts(t: Table, seat: nat, order: seq<Card>, u: Table, n: nat, c: Card)
    requires seat < |t.players| && CanShuffleTo(t, order)
    requires DealtFrom(GiveTop(Refill(t, order), seat), u, n, c)
    ensures DealtFrom(t, u, n + 1, c)
  {
    hide CanShuffleTo, Copies, Size;
    GiveTopKeeps(Refill(t, order), seat, c);
    if NeedsReshuffle(t) && t.call.Some? {
      RefillLoses(t, order, c);
    }
  }

  lemma {:induction false} DealEachCounts(t: Table, seats: seq<nat>, order: seq<Card>, c: Card)
    requires SeatsExist(t, seats) && CanShuffleTo(t, order)
    ensures DealtFrom(t, DealEach(t, seats, order), |seats|, c)
    decreases |seats|
  {
    if seats != [] {
      var next := GiveTop(Refill(t, order), seats[0]);
      if NeedsReshuffle(t) && t.call.Some? {
        NoDiscardNoOrder(next, seats[1..], order);
        DealEachCounts(next, seats[1..], [], c);
      } else {
        DealEachCounts(next, seats[1..], order, c);
      }
      hide DealtFrom;
      DealOneCounts(t, seats[0], order, DealEach(t, seats, order), |seats[1..]|, c);
    }
  }

  /** With no discards the order is never used. */
  lemma {:induction false} NoDiscardNoOrder(t: Table, seats: seq<nat>, order: seq<Card>)
    requires SeatsExist(t, seats) && t.discard == []
    ensures DealEach(t, seats, order) == DealEach(t, seats, [])
    decreases |seats|
  {
    if seats != [] {
      NoDiscardNoOrder(GiveTop(t, seats[0]), seats[1..], order);
    }
  }

  lemma {:induction false} DealEachFrame(t: Table, seats: seq<nat>, order: seq<Card>)
    requires SeatsExist(t, seats)
    ensures OnlyCardsMoved(t, DealEach(t, seats, order))
    ensures forall i :: 0 <= i < |t.players| ==> t.players[i].hand <= DealEach(t, seats, order).players[i].hand
    ensures forall i :: 0 <= i < |t.players| && i !in seats ==>
      DealEach(t, seats, order).players[i] == t.players[i]
    decreases |seats|
  {
    if seats != [] {
      DealEachFrame(GiveTop(Refill(t, order), seats[0]), seats[1..], order);
    }
  }

  lemma {:induction false} DrawCardsCounts(t: Table, seat: nat, n: int, c: Card)
    requires seat < |t.players|
    ensures Keeps(t, DrawCards(t, seat, n), c)
    ensures DrawCards(t, seat, n).discard == t.discard
    ensures |DrawCards(t, seat, n).deck| == if n <= 0 then |t.deck| else if n < |t.deck| then |t.deck| - n else 0
    decreases n
  {
    if n > 0 && t.deck != [] {
      GiveTopKeeps(t, seat, c);
      DrawCardsCounts(GiveTop(t, seat), seat, n - 1, c);
    }
  }

  // ---------- Whole actions ----------

  /** The accepted action finds the deck empty with discards to take back. */
  predicate Reshuffles(t: Table, a: Action)
    requires 0 <= t.current < |t.players|
    requires IsValidAction(t, a)
  {
    match a.kind
    case PlayCard =>
      var laid := LayCard(t, a.cardIndex.value);
      laid.call.value.value == Fourteen && DealReshuffles(laid, |MarketSeats(laid, t.current)|)
    case DrawCard => NeedsReshuffle(t) && t.call.Some?
    case _ => false
  }

  lemma FinishKeeps(g: Game, c: Card)
    ensures Keeps(g.t, Finish(g).t, c)
    ensures Finish(g).t.deck == g.t.deck && Finish(g).t.discard == g.t.discard
  {
    SameHandsCount(g.t.players, Finish(g).t.players, c);
  }

  /**
   No action creates a card; it keeps every one unless it reshuffles, and then loses exactly the
   discards equal to the call card.
   */
  lemma ActionAccounts(g: Game, a: Action, order: seq<Card>, c: Card)
    requires Possible(g, Act(a, order))
    ensures Reshuffles(g.t, a) ==>
      LosesCallCopies(Reshuffling(g.t, a), Apply(g, a, order).t, c) && Apply(g, a, order).t.discard == []
    ensures Copies(Reshuffling(g.t, a), c) == Copies(g.t, c) && Size(Reshuffling(g.t, a)) == Size(g.t)
    ensures !Reshuffles(g.t, a) ==>
      && Keeps(g.t, Apply(g, a, order).t, c)
      && |Apply(g, a, order).t.deck| <= |g.t.deck|
      && Apply(g, a, order).t.discard == Reshuffling(g.t, a).discard
  {
    if a.kind == PlayCard {
      PlayAccounts(g, a, order, c);
    } else if a.kind == DrawCard {
      DrawAccounts(g, a, order, c);
    } else if a.kind != ChooseSuit {
      SameHandsCount(g.t.players, Declare(g, a.kind).t.players, c);
    }
  }

  lemma DrawAccounts(g: Game, a: Action, order: seq<Card>, c: Card)
    requires Possible(g, Act(a, order)) && a.kind == DrawCard
    ensures Reshuffles(g.t, a) ==> LosesCallCopies(g.t, Draw(g, order).t, c) && Draw(g, order).t.discard == []
    ensures !Reshuffles(g.t, a) ==>
      && Keeps(g.t, Draw(g, order).t, c)
      && |Draw(g, order).t.deck| <= |g.t.deck|
      && Draw(g, order).t.discard == g.t.discard
  {
    var count := g.t.Situation().DrawCount(g.t.players[g.t.current].hand);
    var r := Refill(g.t, order);
    if Reshuffles(g.t, a) { RefillLoses(g.t, order, c); }
    DrawCardsCounts(r, g.t.current, count, c);
    var drawn := DrawCards(r, g.t.current, count);
    assert Keeps(drawn, Draw(g, order).t, c);
  }

  /** Apart from a General Market, no card's effect moves a card. */
  lemma OtherEffectsMoveNothing(g: Game, card: Card, actor: nat, order: seq<Card>)
    requires card.value != Fourteen
    ensures var after := Special(g, card, actor, order).t;
      after.deck == g.t.deck && after.discard == g.t.discard && after.players == g.t.players
  {
  }

  lemma MarketAccounts(g: Game, card: Card, actor: nat, order: seq<Card>, c: Card)
    requires card.value == Fourteen && CanShuffleTo(g.t, order)
    ensures DealtFrom(g.t, Special(g, card, actor, order).t, |MarketSeats(g.t, actor)|, c)
  {
    DealEachCounts(g.t, MarketSeats(g.t, actor), order, c);
  }

  lemma PlayAccounts(g: Game, a: Action, order: seq<Card>, c: Card)
    requires Possible(g, Act(a, order)) && a.kind == PlayCard
    ensures Keeps(g.t, LayCard(g.t, a.cardIndex.value), c)
    ensures Reshuffles(g.t, a) ==>
      && LosesCallCopies(LayCard(g.t, a.cardIndex.value), Play(g, a.cardIndex.value, order).t, c)
      && Play(g, a.cardIndex.value, order).t.discard == []
    ensures !Reshuffles(g.t, a) ==>
      && Keeps(LayCard(g.t, a.cardIndex.value), Play(g, a.cardIndex.value, order).t, c)
      && Play(g, a.cardIndex.value, order).t.discard == LayCard(g.t, a.cardIndex.value).discard
      && |Play(g, a.cardIndex.value, order).t.deck| <= |g.t.deck|
  {
    var laid := LayCard(g.t, a.cardIndex.value);
    LayCardKeeps(g.t, a.cardIndex.value, c);
    if laid.call.value.value == Fourteen {
      MarketAccounts(g.(t := laid), laid.call.value, g.t.current, order, c);
    } else {
      OtherEffectsMoveNothing(g.(t := laid), laid.call.value, g.t.current, order);
    }
    FinishKeeps(AfterEffect(g, a.cardIndex.value, order), c);
  }

  // ---------- A round as a whole ----------

  ghost predicate NoNewRound(events: seq<Event>) {
    forall i :: 0 <= i < |events| ==> events[i].Act?
  }

  lemma StepNeverGains(g: Game, e: Event, c: Card)
    requires Possible(g, e) && e.Act?
    ensures Copies(Step(g, e).t, c) <= Copies(g.t, c) && Size(Step(g, e).t) <= Size(g.t)
  {
    ActionAccounts(g, e.a, e.order, c);
  }

  /** Within a round cards only ever leave. */
  lemma {:induction false} RoundNeverGains(start: Game, events: seq<Event>, c: Card)
    requires IsRun(start, events) && NoNewRound(events)
    ensures Copies(Exec(start, events).t, c) <= Copies(start.t, c)
    ensures Size(Exec(start, events).t) <= Size(start.t)
    decreases |events|
  {
    hide Step;
    if events != [] {
      RoundNeverGains(start, Front(events), c);
      StepNeverGains(Exec(start, Front(events)), Last(events), c);
    }
  }

  /** The copies of a card that one event's reshuffle loses. */
  ghost function LostInStep(g: Game, e: Event, c: Card): int
    requires Possible(g, e)
  {
    if e.Act? && Reshuffles(g.t, e.a) then
      var u := Reshuffling(g.t, e.a);
      if u.call == Some(c) then Lost(u) else 0
    else 0
  }

  ghost function LostInRun(start: Game, events: seq<Event>, c: Card): int
    requires IsRun(start, events)
    decreases |events|
  {
    if events == [] then 0
    else LostInRun(start, Front(events), c) + LostInStep(Exec(start, Front(events)), Last(events), c)
  }

  lemma StepAccounts(g: Game, e: Event, c: Card)
    requires Possible(g, e) && e.Act?
    ensures Copies(Step(g, e).t, c) + LostInStep(g, e, c) == Copies(g.t, c)
  {
    ActionAccounts(g, e.a, e.order, c);
  }

  /** Over a round every copy of a card is still there or was lost to a reshuffle as a call card's copy. */
  lemma {:induction false} RoundAccounts(start: Game, events: seq<Event>, c: Card)
    requires IsRun(start, events) && NoNewRound(events)
    ensures Copies(Exec(start, events).t, c) + LostInRun(start, events, c) == Copies(start.t, c)
    decreases |events|
  {
    hide Step, LostInStep;
    if events != [] {
      RoundAccounts(start, Front(events), c);
      StepAccounts(Exec(start, Front(events)), Last(events), c);
    }
  }

  /** A new round holds the leftover hands and the fresh deck, apart from the flipped call card. */
  lemma NewRoundAccounts(g: Game, order: seq<Card>, c: Card)
    requires Possible(g, Round(order))
    ensures var t := NewRound(g, order).t;
      && Copies(t, c) + (if t.call == Some(c) then 1 else 0)
         == Sum(g.t.players, HandCopies(c)) + CopiesInDeck(c)
      && Size(t) + (if t.call.Some? then 1 else 0) == Sum(g.t.players, HandSize()) + STANDARD_DECK_SIZE
      && t.discard == []
  {
    var open := OpenRound(g.t, order);
    OpenRoundCounts(g.t, order, c);
    var seats := Repeat(ActiveSeats(open.players), g.t.config.startingCards);
    DealEachCounts(open, seats, [], c);
    DealEachFrame(open, seats, []);
    FlipCounts(DealEach(open, seats, []), c);
  }

  lemma OpenRoundCounts(t: Table, order: seq<Card>, c: Card)
    requires IsStandardDeck(order)
    ensures Copies(OpenRound(t, order), c) == Sum(t.players, HandCopies(c)) + CopiesInDeck(c)
    ensures Size(OpenRound(t, order)) == Sum(t.players, HandSize()) + STANDARD_DECK_SIZE
  {
    SameHandsCount(OpenRound(t, order).players, t.players, c);
  }

  lemma FlipCounts(t: Table, c: Card)
    requires t.call.None?
    ensures Copies(FlipCall(t), c) + (if FlipCall(t).call == Some(c) then 1 else 0) == Copies(t, c)
    ensures Size(FlipCall(t)) + (if FlipCall(t).call.Some? then 1 else 0) == Size(t)
  {
    if t.deck != [] {
      assert t.deck == Front(t.deck) + [Last(t.deck)];
    }
  }

  /** Anywhere in a round a card is out no more often than the leftover hands and one deck allow. */
  lemma RoundWithinOneDeck(g: Game, order: seq<Card>, events: seq<Event>, c: Card)
    requires Possible(g, Round(order))
    requires IsRun(NewRound(g, order), events) && NoNewRound(events)
    ensures Copies(Exec(NewRound(g, order), events).t, c)
         <= Sum(g.t.players, HandCopies(c)) + CopiesInDeck(c)
  {
    RoundNeverGains(NewRound(g, order), events, c);
    NewRoundAccounts(g, order, c);
  }

  /** In the first round, dealt into empty hands, only the five Whot cards occur more than once. */
  lemma FirstRoundHasNoDuplicates(g: Game, order: seq<Card>, events: seq<Event>, c: Card)
    requires Possible(g, Round(order))
    requires forall i :: 0 <= i < |g.t.players| ==> g.t.players[i].hand == []
    requires IsRun(NewRound(g, order), events) && NoNewRound(events)
    ensures Copies(Exec(NewRound(g, order), events).t, c) <= if c == Card(Whot, Twenty) then 5 else 1
  {
    RoundWithinOneDeck(g, order, events, c);
    CopiesBounded(c);
    EmptyHandsCountZero(g.t.players, HandCopies(c));
  }

  lemma CopiesBounded(c: Card)
    ensures CopiesInDeck(c) <= if c == Card(Whot, Twenty) then 5 else 1
  {
  }

  lemma {:induction false} EmptyHandsCountZero(players: seq<PlayerData>, f: PlayerData -> int)
    requires forall i :: 0 <= i < |players| ==> f(players[i]) == 0
    ensures Sum(players, f) == 0
  {
    if players != [] {
      EmptyHandsCountZero(Front(players), f);
    }
  }
}
