/** The engine (src/Game/GameEngine.cpp): every accepted action is one step of the game, and is logged. */
module Engines {
  import opened Options
  import opened Cards
  import opened Decks
  import opened Players
  import opened Rules
  import opened Tables
  import opened Games
  import opened Accounting
  import opened Invariants
  import opened Acceptance
  import opened Rounds
  import opened GameStates
  import opened TurnManagers

  lemma {:induction false} DealEachAppend(t: Table, a: seq<nat>, b: seq<nat>, order: seq<Card>)
    requires SeatsExist(t, a) && SeatsExist(t, b)
    ensures DealEach(t, a + b, order) == DealEach(DealEach(t, a, order), b, order)
    decreases |a|
  {
    if a == [] {
      assert a + b == b;
    } else {
      assert (a + b)[1..] == a[1..] + b;
      DealEachAppend(GiveTop(Refill(t, order), a[0]), a[1..], b, order);
    }
  }

  /** One pass round the table leaves the same seats and the remaining passes to deal. */
  lemma PassAdvances(t: Table, passes: int)
    requires passes > 0
    ensures var seats := ActiveSeats(t.players);
      var u := DealEach(t, seats, []);
      && ActiveSeats(u.players) == seats
      && DealEach(t, Repeat(seats, passes), []) == DealEach(u, Repeat(seats, passes - 1), [])
  {
    var seats := ActiveSeats(t.players);
    DealEachAppend(t, seats, Repeat(seats, passes - 1), []);
    DealEachFrame(t, seats, []);
    Dealing.SameStatusSameSeats(t.players, DealEach(t, seats, []).players);
  }

  lemma DealNone(t: Table)
    ensures DealEach(t, [], []) == t
  {
  }

  /** Without discards one dealt card moves the deal on by one seat, whatever the order. */
  lemma DealNext(t: Table, seats: seq<nat>, i: nat, order: seq<Card>)
    requires SeatsExist(t, seats) && i < |seats| && t.discard == []
    ensures GiveTop(Refill(t, order), seats[i]).discard == []
    ensures DealEach(t, seats[i..], []) == DealEach(GiveTop(Refill(t, order), seats[i]), seats[i + 1..], [])
  {
    assert seats[i..][0] == seats[i] && seats[i..][1..] == seats[i + 1..];
  }

  /**
   A deal under way: dealing the rest of the seats from here is dealing all of them from the start,
   for every order while nothing has been reshuffled and for the order used afterwards.
   */
  ghost predicate UnderWay(t: Table, all: seq<nat>, now: Table, rest: seq<nat>, order: seq<Card>) {
    && SeatsExist(t, all) && SeatsExist(now, rest)
    && now.call == t.call
    && CanShuffleTo(t, order)
    && DealEach(t, all, order) == DealEach(now, rest, order)
    && (now.discard == []
        || (now.discard == t.discard && forall o: seq<Card> :: DealEach(t, all, o) == DealEach(now, rest, o)))
  }

  lemma UnderWayStep(t: Table, all: seq<nat>, now: Table, rest: seq<nat>, order: seq<Card>, o: seq<Card>)
      returns (used: seq<Card>)
    requires UnderWay(t, all, now, rest, order) && rest != [] && CanShuffleTo(now, o)
    ensures UnderWay(t, all, GiveTop(Refill(now, o), rest[0]), rest[1..], used)
  {
    used := if NeedsReshuffle(now) && now.call.Some? then o else order;
    var next := GiveTop(Refill(now, o), rest[0]);
    assert DealEach(now, rest, used) == DealEach(next, rest[1..], used);
    if next.discard != [] {
      forall o' ensures DealEach(t, all, o') == DealEach(next, rest[1..], o') {
        assert DealEach(t, all, o') == DealEach(now, rest, o');
      }
    }
  }

  class GameEngine {
    const state: GameState
    const turnManager: TurnManager
    ghost var start: Game
    ghost var log: seq<Event>

    /** The game is followed from the state handed in, a fresh one or a restored one. */
    constructor (state: GameState)
      ensures this.state == state && turnManager.state == state && fresh(turnManager)
      ensures !turnManager.allowMultipleActions
      ensures start == Model() && log == []
      ensures Ready() ==> Valid()
    {
      this.state := state;
      turnManager := new TurnManager(state);
      new;
      start, log := Model(), [];
    }

    ghost function Model(): Game
      reads this, turnManager, state, state.deck, state.players, set p | p in state.players :: p.hand
    {
      Game(state.View(), turnManager.allowMultipleActions)
    }

    ghost predicate Ready()
      reads this, turnManager, state, state.deck, state.players, set p | p in state.players :: p.hand
    {
      turnManager.state == state && state.Valid() && Sound(state.View())
    }

    /** The log is a run of the game from its start, a sound one, to the present state. */
    ghost predicate Logged()
      reads this, turnManager, state, state.deck, state.players, set p | p in state.players :: p.hand
    {
      Sound(start.t) && IsRun(start, log) && Exec(start, log) == Model()
    }

    ghost predicate Valid()
      reads this, turnManager, state, state.deck, state.players, set p | p in state.players :: p.hand
    {
      Ready() && Logged()
    }

    // ---------- Moving cards ----------

    /** One card from the deck to a player, refilling an empty deck first. */
    method DealOne(p: Player, ghost seat: nat) returns (ghost order: seq<Card>)
      requires state.Valid() && seat < |state.players| && state.players[seat] == p
      modifies state`discardPile, state.deck, p.hand
      ensures CanShuffleTo(old(state.View()), order)
      ensures state.View() == GiveTop(Refill(old(state.View()), order), seat)
    {
      hide Views, Kept;
      ghost var t := state.View();
      order := SomeOrder(t);
      if state.deck.IsEmpty() && state.NeedsReshuffle() {
        order := state.ReshuffleDiscardPile();
      }
      assert state.View() == Refill(t, order);
      GiveCard(p, seat);
    }

    /** The top card of the deck, if there is one, to a player. */
    method GiveCard(p: Player, ghost seat: nat)
      requires state.Valid() && seat < |state.players| && state.players[seat] == p
      modifies state.deck, p.hand
      ensures state.View() == GiveTop(old(state.View()), seat)
    {
      hide Views;
      ghost var t := state.View();
      var card := state.deck.Draw();
      if card.Some? {
        p.hand.AddCard(card.value);
        assert state.deck.cards == t.deck[..|t.deck| - 1];
        assert state.View().players == GiveTop(t, seat).players;
      }
    }

    /** One card to every active player in seat order. */
    method DealPass()
      requires state.Valid() && state.discardPile == []
      modifies state`discardPile, state.deck, set p | p in state.players :: p.hand
      ensures state.discardPile == []
      ensures state.View() == DealEach(old(state.View()), ActiveSeats(old(state.View()).players), [])
    {
      hide Views, DealEach, ActiveSeats, GiveTop;
      ghost var t := state.View();
      ghost var seats := ActiveSeats(t.players);
      assert seats[0..] == seats;
      var actives := state.GetActivePlayers();
      for i := 0 to |actives|
        invariant state.discardPile == [] && SeatsExist(state.View(), seats)
        invariant DealEach(state.View(), seats[i..], []) == DealEach(t, seats, [])
      {
        ghost var now := state.View();
        ghost var order := DealOne(actives[i], seats[i]);
        DealNext(now, seats, i, order);
      }
      assert seats[|actives|..] == [];
      DealNone(state.View());
    }

    /** The starting hands: as many passes as the configuration asks for. */
    method DealHands()
      requires state.Valid() && state.discardPile == []
      modifies state`discardPile, state.deck, set p | p in state.players :: p.hand
      ensures state.View() ==
        DealEach(old(state.View()), Repeat(ActiveSeats(old(state.View()).players), state.config.startingCards), [])
    {
      hide Views, DealEach, ActiveSeats;
      ghost var t := state.View();
      ghost var seats := ActiveSeats(t.players);
      var nCards := state.config.startingCards;
      var round := 0;
      while round < nCards
        invariant state.discardPile == [] && |state.View().players| == |t.players|
        invariant 0 <= round && (round <= nCards || round == 0)
        invariant ActiveSeats(state.View().players) == seats
        invariant DealEach(state.View(), Repeat(seats, nCards - round), []) == DealEach(t, Repeat(seats, nCards), [])
      {
        ghost var now := state.View();
        DealPass();
        PassAdvances(now, nCards - round);
        round := round + 1;
      }
      DealNone(state.View());
    }

    /** Turns the top card into the first call card; it never joins the discards. */
    method FlipFirstCall()
      modifies state`callCard, state.deck
      ensures state.View() == FlipCall(old(state.View()))
    {
      hide Views;
      if !state.deck.IsEmpty() {
        var first := state.deck.Draw();
        assert state.deck.cards == Front(old(state.deck.cards));
        if first.Some? { state.SetCallCard(first.value); }
      }
    }

    // ---------- Rounds ----------

    /** Prepares a fresh game in the lobby; the game is followed from here. */
    method StartGame()
      requires turnManager.state == state && state.Valid()
      requires |state.players| > 0 && DistinctIds(state.View().players)
      modifies this`start, this`log, state, state.deck
      ensures unchanged(state`players)
      ensures Valid() && start == Model() && log == []
      ensures state.View() == Cleared(old(state.View()))
    {
      hide Views;
      state.Initialize();
      state.phase := Starting;
      start, log := Model(), [];
    }

    /** Shuffles, deals the starting hands and turns the first call card. */
    method DealNewRound() returns (ghost order: seq<Card>)
      requires state.Valid()
      modifies state, state.deck, state.players, set p | p in state.players :: p.hand
      ensures unchanged(state`players)
      ensures state.Valid() && IsStandardDeck(order)
      ensures state.View() == Tables.StartRound(old(state.View()), order)
    {
      hide Views, DealEach, IsStandardDeck, AllReset, FlipCall;
      order := state.StartRound();
      DealHands();
      FlipFirstCall();
    }

    method OpenNewRound() returns (ghost order: seq<Card>)
      requires Ready()
      modifies turnManager`skippedPlayers, state, state.deck, state.players, set p | p in state.players :: p.hand
      ensures unchanged(state`players)
      ensures Ready() && IsStandardDeck(order)
      ensures Model() == NewRound(old(Model()), order)
    {
      hide Views, Tables.StartRound, IsStandardDeck;
      order := DealNewRound();
      turnManager.StartTurn();
      StartRoundKeeps(old(state.View()), order);
    }

    /** A new round is one step of the game; its shuffled deck goes into the log. */
    method StartNewRound() returns (ghost order: seq<Card>)
      requires Valid()
      modifies this`log, turnManager`skippedPlayers, state, state.deck, state.players,
               set p | p in state.players :: p.hand
      ensures unchanged(state`players)
      ensures Valid() && Possible(old(Model()), Round(order))
      ensures Model() == NewRound(old(Model()), order)
      ensures log == old(log) + [Round(order)]
    {
      hide Views, NewRound, IsStandardDeck, IsRun, Exec;
      ghost var g := Model();
      order := OpenNewRound();
      RoundExtends(start, log, g, order);
      log := log + [Round(order)];
    }

    // ---------- Which actions are accepted ----------

    /** Somebody is on turn: the index on turn is a seat. */
    predicate SomebodyOnTurn()
      reads state
    {
      0 <= state.currentPlayerIndex < |state.players|
    }

    /** The player in this seat has the id, and a card that may be played at the index. */
    ghost predicate PlaysFrom(id: string, seat: nat, index: nat)
      reads state, state.players, set p | p in state.players :: p.hand
    {
      seat < |state.players| && state.players[seat].id == id && index < |state.players[seat].hand.cards|
      && state.Facts().CanPlayCard(state.players[seat].hand.cards[index])
    }

    /**
     With nobody on turn the empty id passes for the player on turn: it may declare, demand a suit, and
     play from the hand of a player whose id is empty. Its draw would look for the missing player.
     */
    ghost predicate ValidUnseated(a: Action)
      reads state, state.players, set p | p in state.players :: p.hand
    {
      a.playerId == "" &&
      match a.kind
      case PlayCard => a.cardIndex.Some? && exists seat: nat :: PlaysFrom(a.playerId, seat, a.cardIndex.value)
      case ChooseSuit => a.chosenSuit.Some?
      case _ => a.kind in {DeclareLastCard, DeclareCheckUp}
    }

    method MayPlay(id: string, cardIndex: Option<nat>) returns (ok: bool)
      requires DistinctIds(state.View().players)
      ensures ok <==> cardIndex.Some? && exists seat: nat :: PlaysFrom(id, seat, cardIndex.value)
      ensures forall seat: nat :: seat < |state.players| && state.players[seat].id == id ==>
        ok == (cardIndex.Some? && PlaysFrom(id, seat, cardIndex.value))
    {
      hide Views;
      if cardIndex.None? { return false; }
      var p := state.GetPlayer(id);
      if p == null { return false; }
      ghost var holder: nat :| holder < |state.players| && state.players[holder] == p;
      assert forall seat: nat :: seat < |state.players| && state.players[seat].id == id ==> seat == holder by {
        assert forall seat: nat :: seat < |state.players| ==> state.View().players[seat].id == state.players[seat].id;
      }
      if cardIndex.value >= |p.hand.cards| { return false; }
      ok := state.Facts().CanPlayCard(p.hand.cards[cardIndex.value]);
      assert ok <==> PlaysFrom(id, holder, cardIndex.value);
    }

    /** Decides validity; the one thing it may not be asked is a draw with an empty id and nobody on turn. */
    method IsValidAction(a: Action) returns (ok: bool)
      requires turnManager.state == state && state.Valid() && DistinctIds(state.View().players)
      requires SomebodyOnTurn() || a.kind != DrawCard || a.playerId != ""
      ensures SomebodyOnTurn() ==> ok == Games.IsValidAction(state.View(), a)
      ensures !SomebodyOnTurn() ==> ok == ValidUnseated(a)
      ensures SomebodyOnTurn() && a.playerId != state.players[state.currentPlayerIndex].id ==> !ok
    {
      if a.playerId != turnManager.GetCurrentPlayerId() { return false; }
      var current := state.GetCurrentPlayer();
      match a.kind {
        case PlayCard =>
          ok := MayPlay(a.playerId, a.cardIndex);
        case DrawCard => ok := state.Facts().MustDrawCard(current.hand.cards);
        case DeclareLastCard => ok := true;
        case DeclareCheckUp => ok := true;
        case ChooseSuit => ok := a.chosenSuit.Some?;
        case _ => ok := false;
      }
    }

    method GetValidActionsForCurrentPlayer() returns (out: seq<ActionType>)
      ensures SomebodyOnTurn() ==> out == OpenMoves(state.View())
      ensures !SomebodyOnTurn() ==> out == []
    {
      var current := state.GetCurrentPlayer();
      if current == null { return []; }
      var hand := current.hand.cards;
      var canPlay := false;
      var i := 0;
      while i < |hand| && !canPlay
        invariant 0 <= i <= |hand|
        invariant canPlay ==> exists j :: 0 <= j < |hand| && state.Facts().CanPlayCard(hand[j])
        invariant !canPlay ==> forall j :: 0 <= j < i ==> !state.Facts().CanPlayCard(hand[j])
        decreases |hand| - i, !canPlay
      {
        if state.Facts().CanPlayCard(hand[i]) { canPlay := true; } else { i := i + 1; }
      }
      out := [];
      if canPlay { out := out + [PlayCard]; }
      if state.Facts().MustDrawCard(hand) { out := out + [DrawCard]; }
      if RequiresLastCardDeclaration(hand) { out := out + [DeclareLastCard]; }
      if RequiresCheckUpDeclaration(hand) { out := out + [DeclareCheckUp]; }
    }

    // ---------- Playing a card ----------

    /** The card goes from the hand to the discards, a copy becomes the call card, the demand is lifted. */
    method LayOnPile(p: Player, index: nat)
      requires Ready() && p == state.players[state.currentPlayerIndex] && index < |p.hand.cards|
      modifies state`discardPile, state`callCard, state`demandedSuit, p.hand
      ensures state.View() == LayCard(old(state.View()), index)
    {
      hide Views;
      ghost var t := state.View();
      var played := p.hand.PlayCard(index);
      var card := played.value;
      assert state.View().players == LayCard(t, index).players;
      state.AddToDiscardPile(card);
      state.SetCallCard(card);
      state.SetDemandedSuit(None);
    }

    /** A General Market: every other active player takes a card. */
    method GeneralMarket(actor: Player, ghost me: nat) returns (ghost order: seq<Card>)
      requires state.Valid() && DistinctIds(state.View().players)
      requires me < |state.players| && state.players[me] == actor
      modifies state`discardPile, state.deck, set p | p in state.players :: p.hand
      ensures CanShuffleTo(old(state.View()), order)
      ensures state.View() == DealEach(old(state.View()), MarketSeats(old(state.View()), me), order)
    {
      hide Views, DealEach, CanShuffleTo, UnderWay, ActiveSeats, Omit, GiveTop, Refill;
      ghost var t := state.View();
      ghost var seats, all := ActiveSeats(t.players), MarketSeats(t, me);
      assert seats[0..] == seats;
      order := StartUnderWay(t, all);
      var actives := state.GetActivePlayers();
      for i := 0 to |actives|
        invariant UnderWay(t, all, state.View(), Omit(seats[i..], me), order)
      {
        OmitStep(seats, i, me);
        if actives[i].id == actor.id {
          assert seats[i] == me by { assert t.players[seats[i]].id == t.players[me].id; }
          continue;
        }
        ghost var now := state.View();
        ghost var o := DealOne(actives[i], seats[i]);
        ghost var rest := Omit(seats[i..], me);
        assert rest[0] == seats[i] && rest[1..] == Omit(seats[i + 1..], me);
        order := UnderWayStep(t, all, now, rest, order, o);
      }
      assert seats[|actives|..] == [];
      UnderWayEnds(t, all, state.View(), me, order);
    }

    method ExecuteSpecialCard(card: Card, actor: Player, ghost me: nat) returns (ghost order: seq<Card>)
      requires turnManager.state == state && state.Valid() && WellFormed(state.View())
      requires me < |state.players| && state.players[me] == actor
      modifies turnManager`allowMultipleActions, state`currentPlayerIndex, state`activePickCount,
               state`demandedSuit, state`discardPile, state.deck, set p | p in state.players :: p.hand
      ensures CanShuffleTo(old(state.View()), order)
      ensures Model() == Special(old(Model()), card, me, order)
    {
      hide Views, DealEach;
      ghost var t := state.View();
      order := SomeOrder(t);
      var ability, value := card.Ability(), card.value;
      if ability == HoldOn {
        turnManager.EnableMultipleActions();
        state.AdvanceTurn();
      } else if ability == PickTwo {
        state.SetActivePickCount(state.activePickCount + 2);
      } else if value == Five {
        state.SetActivePickCount(state.activePickCount + 3);
      } else if value == Eight {
        state.AdvanceTurn();
      } else if ability == SpecialAbility.GeneralMarket {
        order := this.GeneralMarket(actor, me);
      } else if ability == WhotCard {
        state.SetDemandedSuit(None);
      }
    }

    // ---------- Ending a round ----------

    /** An active player pays for the hand still held, and the game counts as played. */
    method ChargePlayer(p: Player)
      requires p.status == Active
      modifies p
      ensures p.View() == Settle(old(p.View()))
    {
      var score := p.hand.CalculateTotalScore();
      p.AddToScore(score);
      p.IncrementGamesPlayed();
    }

    ghost predicate ChargedSoFar(before: seq<PlayerData>, done: seq<nat>, j: nat)
      requires j < |before| && j < |state.players|
      reads state, state.players, set p | p in state.players :: p.hand
    {
      state.players[j].View() == if j in done then Settle(before[j]) else before[j]
    }

    method ChargePlayers()
      requires state.Valid()
      modifies state.players
      ensures Views(state.players) == AllSettled(old(Views(state.players)))
    {
      hide Views, ActiveSeats, Settle;
      ghost var before := Views(state.players);
      ghost var seats := ActiveSeats(before);
      Dealing.ActiveSeatsAre(before);
      var actives := state.GetActivePlayers();
      for i := 0 to |actives|
        invariant forall j: nat :: j < |before| ==> ChargedSoFar(before, seats[..i], j)
      {
        ghost var k := seats[i];
        assert seats[..i + 1] == seats[..i] + [k];
        assert k in seats && k !in seats[..i];
        assert ChargedSoFar(before, seats[..i], k);
        label Before:
        ChargePlayer(actives[i]);
        ghost var done, more := seats[..i], seats[..i + 1];
        forall j: nat | j < |before| ensures ChargedSoFar(before, more, j) {
          assert old@Before(ChargedSoFar(before, done, j));
          assert j != k ==> state.players[j] != state.players[k];
        }
      }
      assert seats[..|actives|] == seats;
      InactiveUnsettled(before);
      forall j: nat | j < |before| ensures Views(state.players)[j] == Settle(before[j]) {
        assert ChargedSoFar(before, seats, j);
      }
    }

    lemma InactiveUnsettled(players: seq<PlayerData>)
      ensures forall j :: 0 <= j < |players| && players[j].status != Active ==> Settle(players[j]) == players[j]
    {
    }

    ghost predicate OnlyHolder(id: string, seat: nat)
      reads state
    {
      seat < |state.players| && state.OnlyHolder(id, seat)
    }

    method CreditWinner()
      requires state.Valid() && DistinctIds(state.View().players)
      modifies state.players
      ensures Views(state.players) ==
        CreditWin(old(Views(state.players)), FirstEmpty(old(Views(state.players))))
    {
      hide Views, FirstEmpty;
      ghost var before := Views(state.players);
      var winnerId := state.GetWinnerId();
      if winnerId.Some? {
        var w := state.GetPlayer(winnerId.value);
        ghost var seat := FirstEmpty(before).value;
        assert w == state.players[seat] by { assert OnlyHolder(winnerId.value, seat); }
        if w != null { w.IncrementGamesWon(); }
      }
    }

    /** Credits the winner, charges everyone the hand still held, and ends the round. */
    method EndTheRound()
      requires state.Valid() && DistinctIds(state.View().players)
      modifies state`phase, state.players
      ensures state.View() == CloseRound(old(state.View()))
    {
      hide Views, AllSettled, CreditWin;
      CreditWinner();
      ChargePlayers();
      state.EndRound();
    }

    /** After a card's effect: the round ends if a hand is empty, else the turn does unless it is held. */
    method Conclude()
      requires turnManager.state == state && state.Valid() && WellFormed(state.View())
      modifies turnManager`allowMultipleActions, state`currentPlayerIndex, state`phase, state.players
      ensures Model() == Finish(old(Model()))
    {
      hide Views, CloseRound;
      var ended := state.CheckRoundEnd();
      if ended {
        EndTheRound();
      } else if !turnManager.allowMultipleActions {
        turnManager.EndTurn();
      }
    }

    // ---------- The four handlers ----------

    method HandlePlayCard(a: Action) returns (success: bool, ghost order: seq<Card>)
      requires Ready() && a.kind == PlayCard && a.playerId == state.players[state.currentPlayerIndex].id
      modifies turnManager`allowMultipleActions, state`currentPlayerIndex, state`phase, state`callCard,
               state`activePickCount, state`demandedSuit, state`discardPile, state.deck, state.players,
               set p | p in state.players :: p.hand
      ensures success == Games.IsValidAction(old(state.View()), a)
      ensures !success ==> Model() == old(Model())
      ensures success ==> CanShuffleTo(Reshuffling(old(state.View()), a), order)
      ensures success ==> Model() == Play(old(Model()), a.cardIndex.value, order)
    {
      hide Views, Play, CanShuffleTo;
      order := [];
      if a.cardIndex.None? { return false, order; }
      var player := state.GetPlayer(a.playerId);
      if player == null { return false, order; }
      var index := a.cardIndex.value;
      if index >= |player.hand.cards| { return false, order; }
      if !state.Facts().CanPlayCard(player.hand.cards[index]) { return false, order; }
      order := CarryOutPlay(player, index);
      success := true;
    }

    /** An allowed play: lay the card, do its effect, then end the round or the turn. */
    method CarryOutPlay(player: Player, index: nat) returns (ghost order: seq<Card>)
      requires Ready() && player == state.players[state.currentPlayerIndex] && index < |player.hand.cards|
      modifies turnManager`allowMultipleActions, state`currentPlayerIndex, state`phase, state`callCard,
               state`activePickCount, state`demandedSuit, state`discardPile, state.deck, state.players,
               set p | p in state.players :: p.hand
      ensures CanShuffleTo(LayCard(old(state.View()), index), order)
      ensures Model() == Play(old(Model()), index, order)
    {
      hide Views, Special, Finish, CanShuffleTo;
      var card := player.hand.cards[index];
      ghost var g, me := Model(), state.currentPlayerIndex;
      SoundLaid(g.t, index);
      LayOnPile(player, index);
      order := ExecuteSpecialCard(card, player, me);
      EffectIsWellFormed(g, index, order);
      Conclude();
    }

    method HandleDrawCard(a: Action) returns (ghost order: seq<Card>)
      requires Ready() && a.playerId == state.players[state.currentPlayerIndex].id
      modifies turnManager`allowMultipleActions, state`currentPlayerIndex, state`activePickCount,
               state`discardPile, state.deck, set p | p in state.players :: p.hand
      ensures CanShuffleTo(old(state.View()), order)
      ensures Model() == Draw(old(Model()), order)
    {
      hide Views, CanShuffleTo, DrawCards;
      ghost var t := state.View();
      var player := state.GetCurrentPlayer();
      ghost var me := state.currentPlayerIndex;
      var count := state.Facts().DrawCount(player.hand.cards);
      order := RefillDeck();
      ghost var full := state.View();
      DrawUpTo(player, me, count);
      DrawCardsFrame(full, me, count);
      state.SetActivePickCount(0);
      turnManager.EndTurn();
    }

    /** Cards from the deck to one player, until there are enough or the deck is empty. */
    method DrawUpTo(player: Player, ghost me: nat, count: int)
      requires state.Valid() && me < |state.players| && state.players[me] == player
      modifies state.deck, player.hand
      ensures state.View() == DrawCards(old(state.View()), me, count)
    {
      hide Views;
      ghost var t := state.View();
      var i := 0;
      while i < count && !state.deck.IsEmpty()
        invariant 0 <= i && (i <= count || i == 0)
        invariant |state.View().players| == |t.players|
        invariant DrawCards(state.View(), me, count - i) == DrawCards(t, me, count)
        decreases count - i
      {
        GiveCard(player, me);
        i := i + 1;
      }
    }

    /** Refills the deck from the discards when it is empty and there are some. */
    method RefillDeck() returns (ghost order: seq<Card>)
      modifies state`discardPile, state.deck
      ensures CanShuffleTo(old(state.View()), order)
      ensures state.View() == Refill(old(state.View()), order)
    {
      hide Views, Kept;
      order := SomeOrder(state.View());
      if state.NeedsReshuffle() { order := state.ReshuffleDiscardPile(); }
    }

    method HandleDeclaration(a: Action)
      requires Ready() && a.kind in {DeclareLastCard, DeclareCheckUp}
      requires a.playerId == state.players[state.currentPlayerIndex].id
      modifies state.players
      ensures Model() == Declare(old(Model()), a.kind)
    {
      hide Views;
      ghost var g := Model();
      var p := state.GetPlayer(a.playerId);
      assert p == state.players[g.t.current] by { assert OnlyHolder(a.playerId, g.t.current); }
      if a.kind == DeclareLastCard { p.SetSaidLastCard(true); }
      if a.kind == DeclareCheckUp { p.SetSaidCheckUp(true); }
      assert state.View().players == Declare(g, a.kind).t.players;
    }

    method HandleSuitChoice(a: Action) returns (success: bool)
      modifies state`demandedSuit, state`direction
      ensures success == a.chosenSuit.Some?
      ensures !success ==> Model() == old(Model())
      ensures success ==> Model() == Demand(old(Model()), a.chosenSuit.value, a.chosenDirection.Some?)
    {
      hide Views;
      if a.chosenSuit.None? { return false; }
      state.SetDemandedSuit(a.chosenSuit);
      if a.chosenDirection.Some? && state.config.allowDirectionChange {
        state.ReverseDirection();
      }
      success := true;
    }

    // ---------- Processing an action ----------

    method Perform(a: Action) returns (ghost order: seq<Card>)
      requires Ready() && Games.IsValidAction(state.View(), a)
      modifies turnManager`allowMultipleActions, state`currentPlayerIndex, state`phase, state`callCard,
               state`activePickCount, state`demandedSuit, state`direction, state`discardPile, state.deck,
               state.players, set p | p in state.players :: p.hand
      ensures CanShuffleTo(Reshuffling(old(state.View()), a), order)
      ensures Model() == Apply(old(Model()), a, order)
    {
      hide Views, Play, Draw, CanShuffleTo;
      order := SomeOrder(Reshuffling(state.View(), a));
      var done: bool;
      if a.kind == PlayCard {
        done, order := HandlePlayCard(a);
      } else if a.kind == DrawCard {
        order := HandleDrawCard(a);
      } else if a.kind == ChooseSuit {
        done := HandleSuitChoice(a);
      } else {
        HandleDeclaration(a);
      }
    }

    /**
     An action succeeds exactly when it is valid. Then the game makes exactly that step and the log
     grows by it; otherwise nothing changes.
     */
    method ProcessAction(a: Action) returns (success: bool, ghost order: seq<Card>)
      requires Valid()
      modifies this`log, turnManager`allowMultipleActions, state`currentPlayerIndex, state`phase, state`callCard,
               state`activePickCount, state`demandedSuit, state`direction, state`discardPile, state.deck,
               state.players, set p | p in state.players :: p.hand
      ensures Valid()
      ensures success == Games.IsValidAction(old(state.View()), a)
      ensures !success ==> Model() == old(Model()) && log == old(log)
      ensures success ==> Possible(old(Model()), Act(a, order))
      ensures success ==> Model() == Apply(old(Model()), a, order)
      ensures success ==> log == old(log) + [Act(a, order)]
      ensures a.playerId != old(state.players[state.currentPlayerIndex]).id ==>
        !success && Model() == old(Model()) && log == old(log)
    {
      order := [];
      success := IsValidAction(a);
      if success {
        order := PerformAndLog(a);
      }
    }

    method PerformAndLog(a: Action) returns (ghost order: seq<Card>)
      requires Valid() && Games.IsValidAction(state.View(), a)
      modifies this`log, turnManager`allowMultipleActions, state`currentPlayerIndex, state`phase, state`callCard,
               state`activePickCount, state`demandedSuit, state`direction, state`discardPile, state.deck,
               state.players, set p | p in state.players :: p.hand
      ensures Valid()
      ensures Possible(old(Model()), Act(a, order))
      ensures Model() == Apply(old(Model()), a, order)
      ensures log == old(log) + [Act(a, order)]
    {
      hide Views, Apply, CanShuffleTo, Sound, IsRun, Exec, Possible, Games.IsValidAction, Reshuffling;
      ghost var g := Model();
      order := Perform(a);
      ActExtends(start, log, g, a, order);
      log := log + [Act(a, order)];
    }
  }

  lemma SoundLaid(t: Table, i: nat)
    requires Sound(t) && i < |t.players[t.current].hand|
    ensures WellFormed(LayCard(t, i))
  {
    SoundCarries(t, LayCard(t, i));
  }

  lemma EffectIsWellFormed(g: Game, i: nat, order: seq<Card>)
    requires Sound(g.t) && i < |g.t.players[g.t.current].hand|
    ensures WellFormed(AfterEffect(g, i, order).t)
  {
    var laid := LayCard(g.t, i);
    SoundCarries(g.t, laid);
    EffectIsLimited(g.(t := laid), laid.call.value, g.t.current, order);
    SoundCarries(laid, AfterEffect(g, i, order).t);
  }

  lemma ActExtends(start: Game, log: seq<Event>, g: Game, a: Action, order: seq<Card>)
    requires IsRun(start, log) && Exec(start, log) == g && Sound(g.t)
    requires Games.IsValidAction(g.t, a) && CanShuffleTo(Reshuffling(g.t, a), order)
    ensures IsRun(start, log + [Act(a, order)])
    ensures Exec(start, log + [Act(a, order)]) == Apply(g, a, order)
    ensures Sound(Apply(g, a, order).t) && Possible(g, Act(a, order))
  {
    hide Step, Apply, CanShuffleTo;
    StepOfAct(g, a, order);
    StepKeeps(g, Act(a, order));
    Extend(start, log, Act(a, order));
  }

  lemma StepOfAct(g: Game, a: Action, order: seq<Card>)
    requires Possible(g, Act(a, order))
    ensures Step(g, Act(a, order)) == Apply(g, a, order)
  {
  }

  lemma OmitStep(seats: seq<nat>, i: nat, me: nat)
    requires i < |seats|
    ensures seats[i] == me ==> Omit(seats[i..], me) == Omit(seats[i + 1..], me)
    ensures seats[i] != me ==> Omit(seats[i..], me) == [seats[i]] + Omit(seats[i + 1..], me)
  {
    assert seats[i..][0] == seats[i] && seats[i..][1..] == seats[i + 1..];
  }

  /** Before anything is dealt the whole deal is still to do. */
  lemma StartUnderWay(t: Table, all: seq<nat>) returns (order: seq<Card>)
    requires SeatsExist(t, all)
    ensures UnderWay(t, all, t, all, order)
  {
    order := SomeOrder(t);
  }

  lemma UnderWayEnds(t: Table, all: seq<nat>, now: Table, me: nat, order: seq<Card>)
    requires UnderWay(t, all, now, Omit([], me), order)
    ensures now == DealEach(t, all, order) && CanShuffleTo(t, order)
  {
  }

  lemma RoundExtends(start: Game, log: seq<Event>, g: Game, order: seq<Card>)
    requires IsRun(start, log) && Exec(start, log) == g && Possible(g, Round(order))
    ensures IsRun(start, log + [Round(order)])
    ensures Exec(start, log + [Round(order)]) == NewRound(g, order)
  {
    hide Step, NewRound;
    StepOfRound(g, order);
    Extend(start, log, Round(order));
  }

  lemma StepOfRound(g: Game, order: seq<Card>)
    requires Possible(g, Round(order))
    ensures Step(g, Round(order)) == NewRound(g, order)
  {
  }
}
