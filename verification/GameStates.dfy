/** The mutable game state (src/Game/GameState.cpp), each method tied to the table it leaves. */
module GameStates {
  import opened Arith
  import opened Options
  import opened Cards
  import opened Decks
  import opened Players
  import opened Rules
  import opened Tables
  import opened Rounds

  /** The players' data, seat by seat. */
  ghost function Views(players: seq<Player>): (views: seq<PlayerData>)
    reads set p | p in players, set p | p in players :: p.hand
    ensures |views| == |players|
    ensures forall i :: 0 <= i < |players| ==> views[i] == players[i].View()
  {
    if players == [] then []
    else Views(players[..|players| - 1]) + [players[|players| - 1].View()]
  }

  class GameState {
    const config: Config
    const gameId: string
    const deck: Deck
    var gameCode: string
    var creatorId: string
    var phase: Phase
    var players: seq<Player>
    var currentPlayerIndex: int
    var direction: Direction
    var callCard: Option<Card>
    var discardPile: seq<Card>
    var activePickCount: int
    var demandedSuit: Option<Suit>

    constructor (config: Config, gameId: string)
      ensures Valid() && fresh(Repr())
      ensures players == [] && View().(deck := []) ==
        Table(config, Lobby, [], 0, Clockwise, [], None, [], 0, None, gameId, "", "")
      ensures IsStandardDeck(View().deck)
    {
      this.config, this.gameId := config, gameId;
      deck := new Deck();
      gameCode, creatorId, phase, players := "", "", Lobby, [];
      currentPlayerIndex, direction := 0, Clockwise;
      callCard, discardPile, activePickCount, demandedSuit := None, [], 0, None;
    }

    /** A state filled in from saved data; its deck is a fresh shuffled one and it has no discards. */
    constructor Restored(t: Table, people: seq<Player>)
      requires forall i, j :: 0 <= i < j < |people| ==> people[i] != people[j] && people[i].hand != people[j].hand
      ensures Valid() && players == people && fresh(deck)
      ensures IsStandardDeck(deck.cards)
      ensures View() == t.(players := Views(people), deck := deck.cards, discard := [])
    {
      config, gameId, gameCode, creatorId := t.config, t.gameId, t.gameCode, t.creatorId;
      deck := new Deck();
      players, phase, currentPlayerIndex, direction := people, t.phase, t.current, t.direction;
      callCard, discardPile, activePickCount, demandedSuit := t.call, [], t.pickCount, t.demanded;
    }

    ghost function People(): set<object>
      reads this
    {
      (set p: Player | p in players :: p as object) + (set p: Player | p in players :: p.hand as object)
    }

    ghost function Repr(): set<object>
      reads this
    {
      {this, deck} + People()
    }

    /** The players and their hands are separate objects. */
    ghost predicate Valid()
      reads this
    {
      forall i, j :: 0 <= i < j < |players| ==>
        players[i] != players[j] && players[i].hand != players[j].hand
    }

    ghost function View(): Table
      reads this, deck, players, set p | p in players :: p.hand
    {
      Table(config, phase, Views(players), currentPlayerIndex, direction, deck.cards, callCard, discardPile,
            activePickCount, demandedSuit, gameId, gameCode, creatorId)
    }

    // ---------- Lifecycle ----------

    method Initialize()
      modifies this`phase, this`currentPlayerIndex, this`direction, this`activePickCount, this`demandedSuit,
               this`discardPile, this`callCard, deck
      ensures View() == old(View()).(phase := Lobby, current := 0, direction := Clockwise, pickCount := 0,
                                     demanded := None, deck := [], discard := [], call := None)
    {
      hide Views;
      ghost var views := Views(players);
      phase, currentPlayerIndex, direction := Lobby, 0, Clockwise;
      activePickCount, demandedSuit := 0, None;
      deck.Clear();
      assert Views(players) == views;
      discardPile, callCard := [], None;
      assert Views(players) == views;
    }

    /** Clears the declaration flags of the active players. */
    method ResetTurnFlags()
      requires Valid()
      modifies players
      ensures Views(players) == AllReset(old(Views(players)))
    {
      hide Views;
      ghost var before := Views(players);
      for i := 0 to |players|
        invariant forall j :: 0 <= j < i ==> players[j].View() == ResetFlags(before[j])
        invariant forall j :: i <= j < |players| ==> players[j].View() == before[j]
      {
        if players[i].status == Active { players[i].ResetTurnFlags(); }
      }
    }

    /** The turn and card state of a fresh round, around a new shuffled deck. */
    method ResetTable() returns (ghost order: seq<Card>)
      modifies this`phase, this`currentPlayerIndex, this`direction, this`activePickCount, this`demandedSuit,
               this`discardPile, this`callCard, deck
      ensures IsStandardDeck(order)
      ensures View() == OpenRound(old(View()), order).(players := old(View()).players)
    {
      hide Views, IsStandardDeck, AllReset;
      phase, currentPlayerIndex, direction := InProgress, 0, Clockwise;
      activePickCount, demandedSuit := 0, None;
      deck.Reset();
      order := deck.cards;
      discardPile, callCard := [], None;
      assert Views(players) == old(Views(players));
    }

    /** The deck is built afresh and shuffled; nobody's hand is touched. */
    method StartRound() returns (ghost order: seq<Card>)
      requires Valid()
      modifies this`phase, this`currentPlayerIndex, this`direction, this`activePickCount, this`demandedSuit,
               this`discardPile, this`callCard, deck, players
      ensures IsStandardDeck(order)
      ensures View() == OpenRound(old(View()), order)
    {
      hide Views, IsStandardDeck, AllReset;
      order := ResetTable();
      ResetTurnFlags();
    }

    method EndRound()
      modifies this`phase
      ensures View() == old(View()).(phase := RoundEnded)
    {
      phase := RoundEnded;
    }

    // ---------- Players ----------

    /** Seats a player while there is room; the first one becomes the creator. */
    method AddPlayer(player: Player)
      requires Valid()
      requires player !in players && forall p :: p in players ==> p.hand != player.hand
      modifies this`players, this`creatorId
      ensures Valid()
      ensures players == if old(|players|) < AsSize(config.maxPlayers) then old(players) + [player] else old(players)
      ensures creatorId == if old(players) == [] && 0 < AsSize(config.maxPlayers) then player.id else old(creatorId)
    {
      if |players| < AsSize(config.maxPlayers) {
        if players == [] { creatorId := player.id; }
        players := players + [player];
      }
    }

    /** The player in this seat, and nobody else, has the id. */
    ghost predicate OnlyHolder(id: string, seat: nat)
      requires seat < |players|
      reads this
    {
      players[seat].id == id && forall j :: 0 <= j < |players| && j != seat ==> players[j].id != id
    }

    ghost predicate FirstHolder(id: string, seat: nat)
      requires seat < |players|
      reads this
    {
      players[seat].id == id && forall j :: 0 <= j < seat ==> players[j].id != id
    }

    /** The first player with the id, if any. */
    method GetPlayer(id: string) returns (player: Player?)
      ensures player == null ==> forall p :: p in players ==> p.id != id
      ensures player != null ==> player in players && player.id == id
      ensures forall seat: nat :: seat < |players| && FirstHolder(id, seat) ==> player == players[seat]
      ensures forall seat: nat :: seat < |players| && OnlyHolder(id, seat) ==> player == players[seat]
    {
      for i := 0 to |players|
        invariant forall j :: 0 <= j < i ==> players[j].id != id
      {
        if players[i].id == id { return players[i]; }
      }
      player := null;
    }

    function GetCurrentPlayer(): (player: Player?)
      reads this
      ensures player != null <==> 0 <= currentPlayerIndex < |players|
      ensures player != null ==> player == players[currentPlayerIndex]
    {
      if 0 <= currentPlayerIndex < |players| then players[currentPlayerIndex] else null
    }

    /** The players in the active seats, in seat order. */
    ghost predicate AreActive(out: seq<Player>)
      reads this, players, set p | p in players :: p.hand
    {
      var seats := ActiveSeats(Views(players));
      |out| == |seats| && forall i :: 0 <= i < |out| ==> out[i] == players[seats[i]]
    }

    method GetActivePlayers() returns (out: seq<Player>)
      ensures AreActive(out)
    {
      out := [];
      ghost var views := Views(players);
      for i := 0 to |players|
        invariant |out| == |ActiveSeats(views[..i])|
        invariant forall j :: 0 <= j < |out| ==> out[j] == players[ActiveSeats(views[..i])[j]]
      {
        assert views[..i + 1][..i] == views[..i];
        if players[i].status == Active { out := out + [players[i]]; }
      }
      assert views[..|players|] == views;
    }

    // ---------- Turns ----------

    /** Moves to the neighbouring seat; from an index that is no seat the index arithmetic decides. */
    method AdvanceTurn()
      modifies this`currentPlayerIndex
      ensures players == [] || 0 <= old(currentPlayerIndex) < |players| ==> View() == Advance(old(View()))
      ensures players != [] ==>
        View() == old(View()).(current := NextPlayerIndex(old(currentPlayerIndex), direction, |players|))
    {
      if |players| == 0 { return; }
      if 0 <= currentPlayerIndex < |players| { NextIndexIsNeighbour(currentPlayerIndex, direction, |players|); }
      currentPlayerIndex := NextPlayerIndex(currentPlayerIndex, direction, |players|);
    }

    method ReverseDirection()
      modifies this`direction
      ensures View() == old(View()).(direction := Reverse(old(direction)))
    {
      direction := if direction == Clockwise then CounterClockwise else Clockwise;
    }

    // ---------- Cards ----------

    predicate NeedsReshuffle()
      reads this, deck
      ensures NeedsReshuffle() == Tables.NeedsReshuffle(View())
    {
      deck.IsEmpty() && |discardPile| != 0
    }

    /** Every discard but the copies of the call card goes back into the deck, which is then shuffled. */
    method ReshuffleDiscardPile() returns (ghost order: seq<Card>)
      modifies this`discardPile, deck
      ensures old(callCard).Some? && old(discardPile) != [] ==>
        && multiset(order) == old(multiset(deck.cards)) + multiset(Kept(old(discardPile), old(callCard).value))
        && View() == old(View()).(deck := order, discard := [])
      ensures old(callCard).None? || old(discardPile) == [] ==> View() == old(View())
    {
      order := [];
      if callCard.Some? && discardPile != [] {
        deck.ReshuffleFromDiscardPile(discardPile, callCard.value);
        order := deck.cards;
        discardPile := [];
      }
    }

    method SetCallCard(card: Card)
      modifies this`callCard
      ensures View() == old(View()).(call := Some(card))
    {
      callCard := Some(card);
    }

    method AddToDiscardPile(card: Card)
      modifies this`discardPile
      ensures View() == old(View()).(discard := old(discardPile) + [card])
    {
      discardPile := discardPile + [card];
    }

    method SetActivePickCount(count: int)
      modifies this`activePickCount
      ensures View() == old(View()).(pickCount := count)
    {
      activePickCount := count;
    }

    method SetDemandedSuit(suit: Option<Suit>)
      modifies this`demandedSuit
      ensures View() == old(View()).(demanded := suit)
    {
      demandedSuit := suit;
    }

    /** The facts the rule engine reads. */
    function Facts(): (s: Situation)
      reads this
    {
      Rules.Situation(callCard, demandedSuit, activePickCount)
    }

    // ---------- Round end ----------

    method CheckRoundEnd() returns (ended: bool)
      ensures ended == SomeHandEmpty(View().players)
    {
      for i := 0 to |players|
        invariant forall j :: 0 <= j < i ==> players[j].hand.cards != []
      {
        if players[i].hand.IsEmpty() { return true; }
      }
      ended := false;
    }

    method GetWinnerId() returns (winner: Option<string>)
      ensures winner == WinnerId(View())
    {
      for i := 0 to |players|
        invariant forall j :: 0 <= j < i ==> players[j].hand.cards != []
      {
        if players[i].hand.IsEmpty() { return Some(players[i].id); }
      }
      winner := None;
    }
  }
}
