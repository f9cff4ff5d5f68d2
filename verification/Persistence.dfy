/** The JSON builders and the loader over the mutable state, tied to the saved tables. */
module Persistence {
  import opened Options
  import opened Cards
  import opened Decks
  import opened Players
  import opened Tables
  import opened Games
  import opened Invariants
  import opened Rounds
  import opened GameStates
  import opened Engines
  import opened Saving

  /** What a player object holds. */
  method ReadPlayer(p: Player) returns (d: PlayerData)
    ensures d == p.View()
  {
    d := PlayerData(p.id, p.name, p.kind, p.status, p.hand.cards, p.currentScore, p.cumulativeScore,
                    p.saidLastCard, p.saidCheckUp, p.gamesPlayed, p.gamesWon);
  }

  /** All entries but the players. */
  method TableToJson(state: GameState, players: Json) returns (j: Json)
    ensures j == Obj(TableFields(state.View(), players))
  {
    hide Views, Put;
    var fields := map[
      KGameId := Str(state.gameId), KGameCode := Str(state.gameCode), KCreatorPlayerId := Str(state.creatorId),
      KPhase := Num(PhaseNumber(state.phase)), KCurrentPlayerIndex := Num(state.currentPlayerIndex),
      KDirection := Str(DirectionText(state.direction)), KActivePickCount := Num(state.activePickCount),
      KDeckSize := Num(|state.deck.cards|), KDiscardPileSize := Num(|state.discardPile|)];
    assert fields == PlainFields(state.View());
    fields := Put(fields, KDemandedSuit, DemandJson(state.demandedSuit));
    fields := Put(fields, KCallCard, CallJson(state.callCard));
    var winner := state.GetWinnerId();
    fields := Put(fields, KWinnerId, if winner.Some? then Some(Str(winner.value)) else None);
    j := Obj(fields[KPlayers := players]);
  }

  method ToJson(state: GameState) returns (j: Json)
    ensures j == TableJson(state.View())
  {
    hide Views, TableFields, PlayerJson;
    var items := [];
    for i := 0 to |state.players|
      invariant |items| == i
      invariant forall k :: 0 <= k < i ==> items[k] == PlayerJson(Views(state.players)[k])
    {
      var d := ReadPlayer(state.players[i]);
      items := items + [PlayerJson(d)];
    }
    assert items == PlayersJson(Views(state.players)).items;
    j := TableToJson(state, Arr(items));
  }

  method ToJsonForPlayer(state: GameState, viewer: string) returns (j: Json)
    ensures j == ViewJson(state.View(), viewer)
  {
    hide Views, TableFields, PlayerJson, PlayerJsonFor;
    var items := [];
    for i := 0 to |state.players|
      invariant |items| == i
      invariant forall k :: 0 <= k < i ==> items[k] == PlayerJsonFor(Views(state.players)[k], viewer)
    {
      var d := ReadPlayer(state.players[i]);
      items := items + [PlayerJsonFor(d, viewer)];
    }
    assert items == PlayersJsonFor(Views(state.players), viewer).items;
    j := TableToJson(state, Arr(items));
  }

  // ---------- Loading ----------

  method MakePlayer(d: PlayerData) returns (p: Player)
    ensures fresh(p) && fresh(p.hand) && p.View() == d
  {
    p := new Player(d.id, d.name, d.kind);
    p.status, p.currentScore, p.cumulativeScore := d.status, d.currentScore, d.cumulativeScore;
    p.saidLastCard, p.saidCheckUp := d.saidLastCard, d.saidCheckUp;
    p.gamesPlayed, p.gamesWon := d.gamesPlayed, d.gamesWon;
    p.hand.cards := d.hand;
  }

  /** One player object per saved player. */
  method MakePlayers(data: seq<PlayerData>) returns (players: seq<Player>)
    ensures |players| == |data| && Views(players) == data
    ensures forall i :: 0 <= i < |players| ==> fresh(players[i]) && fresh(players[i].hand)
    ensures forall i, j :: 0 <= i < j < |players| ==> players[i] != players[j] && players[i].hand != players[j].hand
  {
    hide Views;
    players := [];
    for i := 0 to |data|
      invariant |players| == i
      invariant forall k :: 0 <= k < i ==> fresh(players[k]) && fresh(players[k].hand) && players[k].View() == data[k]
      invariant forall k, j :: 0 <= k < j < i ==> players[k] != players[j] && players[k].hand != players[j].hand
    {
      var p := MakePlayer(data[i]);
      players := players + [p];
    }
  }

  /**
   Loading builds a new state that shows exactly the loaded table around a fresh shuffled deck, or
   fails exactly as the tree's entries make it fail.
   */
  method FromJson(j: Json) returns (r: Result<GameState>, ghost deck: seq<Card>)
    ensures r.Ok? ==> fresh(r.value.Repr()) && r.value.Valid()
    ensures r.Ok? ==> IsStandardDeck(deck) && LoadTable(j, deck) == Ok(r.value.View())
    ensures r.Err? ==> LoadTable(j, deck) == Err(r.error)
  {
    deck := [];
    var loaded := LoadTable(j, []);
    LoadTableStarts(j, []);
    hide Views, IsStandardDeck, LoadTable;
    if loaded.Err? { return Err(loaded.error), deck; }
    var players := MakePlayers(loaded.value.players);
    var state := new GameState.Restored(loaded.value, players);
    deck := state.deck.cards;
    LoadTableDeck(j, [], deck);
    r := Ok(state);
  }

  /**
   Restores a saved game: an engine that follows it from the loaded state on. A playable table that was
   saved comes back playable.
   */
  method LoadExistingGame(j: Json) returns (r: Result<GameEngine>, ghost deck: seq<Card>)
    ensures r.Ok? ==> IsStandardDeck(deck) && LoadTable(j, deck) == Ok(r.value.state.View())
    ensures r.Ok? ==> r.value.start == r.value.Model() && r.value.log == [] && !r.value.start.playAgain
    ensures r.Ok? && Sound(r.value.state.View()) ==> r.value.Valid()
    ensures r.Err? ==> LoadTable(j, deck) == Err(r.error)
    ensures forall t: Table :: j == TableJson(t) && Playable(t) ==>
      r.Ok? && Playable(r.value.state.View()) && r.value.Valid()
  {
    hide Views, IsStandardDeck, LoadTable, TableJson, Sound, FullTable, SomeHandEmpty, IsRun, Exec;
    var loaded: Result<GameState>;
    loaded, deck := FromJson(j);
    forall t: Table | j == TableJson(t) && Playable(t)
      ensures LoadTable(j, deck).Ok? && Playable(LoadTable(j, deck).value)
    {
      ReloadedIsPlayable(t, deck);
    }
    if loaded.Err? { return Err(loaded.error), deck; }
    var engine := new GameEngine(loaded.value);
    r := Ok(engine);
  }

  lemma LoadTableStarts(j: Json, deck: seq<Card>)
    ensures LoadTable(j, deck).Ok? ==> LoadTable(j, deck).value.discard == [] && LoadTable(j, deck).value.deck == deck
  {
  }

  /** The fresh deck is the only thing loading does not read from the tree. */
  lemma LoadTableDeck(j: Json, a: seq<Card>, b: seq<Card>)
    requires LoadTable(j, a).Ok?
    ensures LoadTable(j, b) == Ok(LoadTable(j, a).value.(deck := b))
  {
  }
}
