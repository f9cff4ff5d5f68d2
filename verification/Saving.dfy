/**
 Saving and loading the game state as JSON, and the view each player is sent
 (src/Game/GameState.cpp, src/Core/Player.cpp, src/Core/Hand.cpp, src/Core/Card.cpp).
 */
module Saving {
  import opened Options
  import opened Cards
  import opened Decks
  import opened Players
  import opened Tables
  import opened Games
  import opened Accounting
  import opened Rounds
  import opened GameConstants

  /** The object keys the state uses, each standing for its text: KHand for "hand", and so on. */
  datatype Key =
    | KSuit | KValue
    | KId | KName | KType | KStatus | KHand | KCurrentScore | KCumulativeScore
    | KSaidLastCard | KSaidCheckUp | KGamesPlayed | KGamesWon
    | KGameId | KGameCode | KCreatorPlayerId | KPhase | KCurrentPlayerIndex | KDirection
    | KActivePickCount | KPlayers | KDeckSize | KDiscardPileSize | KDemandedSuit | KCallCard | KWinnerId
    | KCount | KMinPlayers | KMaxPlayers | KStartingCards | KEliminationScore
    | KOther(text: string)

  /** A JSON tree; writing it out as text and parsing it back is left to the JSON library. */
  datatype Json =
    | Null
    | Bool(b: bool)
    | Num(n: int)
    | Str(s: string)
    | Arr(items: seq<Json>)
    | Obj(fields: map<Key, Json>)

  // ---------- Saving ----------

  function CardJson(c: Card): Json {
    Obj(map[KSuit := Str(SuitToString(c.suit)), KValue := Str(CardValueToString(c.value))])
  }

  function HandJson(hand: seq<Card>): (j: Json)
    ensures j.Arr? && |j.items| == |hand|
  {
    Arr(seq(|hand|, i requires 0 <= i < |hand| => CardJson(hand[i])))
  }

  function TypeNumber(k: PlayerType): int {
    match k case Human => 0 case AiEasy => 1 case AiMedium => 2 case AiHard => 3 case OtherType(n) => n
  }

  function StatusNumber(s: PlayerStatus): int {
    match s
    case Active => 0 case Waiting => 1 case Eliminated => 2 case Disconnected => 3 case Winner => 4
    case OtherStatus(n) => n
  }

  function PhaseNumber(p: Phase): int {
    match p
    case Lobby => 0 case Starting => 1 case InProgress => 2 case RoundEnded => 3 case GameEnded => 4
    case OtherPhase(n) => n
  }

  function DirectionText(d: Direction): string {
    if d == Clockwise then "clockwise" else "counter_clockwise"
  }

  /** A player's entries other than the hand. */
  function BareFields(p: PlayerData): map<Key, Json> {
    map[KId := Str(p.id), KName := Str(p.name), KType := Num(TypeNumber(p.kind)),
        KStatus := Num(StatusNumber(p.status)),
        KCurrentScore := Num(p.currentScore), KCumulativeScore := Num(p.cumulativeScore),
        KSaidLastCard := Bool(p.saidLastCard), KSaidCheckUp := Bool(p.saidCheckUp),
        KGamesPlayed := Num(p.gamesPlayed), KGamesWon := Num(p.gamesWon)]
  }

  function PlayerFields(p: PlayerData): map<Key, Json> { BareFields(p)[KHand := HandJson(p.hand)] }

  function PlayerJson(p: PlayerData): Json { Obj(PlayerFields(p)) }

  /** An entry that is written only when there is a value. */
  function Put(fields: map<Key, Json>, key: Key, value: Option<Json>): map<Key, Json> {
    if value.Some? then fields[key := value.value] else fields
  }

  function DemandJson(demanded: Option<Suit>): Option<Json> {
    if demanded.Some? then Some(Str(SuitToString(demanded.value))) else None
  }

  function CallJson(call: Option<Card>): Option<Json> {
    if call.Some? then Some(CardJson(call.value)) else None
  }

  function WinnerJson(t: Table): Option<Json> {
    var w := WinnerId(t);
    if w.Some? then Some(Str(w.value)) else None
  }

  function PlainFields(t: Table): map<Key, Json> {
    map[KGameId := Str(t.gameId), KGameCode := Str(t.gameCode), KCreatorPlayerId := Str(t.creatorId),
        KPhase := Num(PhaseNumber(t.phase)), KCurrentPlayerIndex := Num(t.current),
        KDirection := Str(DirectionText(t.direction)), KActivePickCount := Num(t.pickCount),
        KDeckSize := Num(|t.deck|), KDiscardPileSize := Num(|t.discard|)]
  }

  /** Everything in the state's JSON, around the given list of players. */
  function TableFields(t: Table, players: Json): map<Key, Json> {
    Put(Put(Put(PlainFields(t), KDemandedSuit, DemandJson(t.demanded)), KCallCard, CallJson(t.call)),
        KWinnerId, WinnerJson(t))[KPlayers := players]
  }

  function PlayersJson(players: seq<PlayerData>): Json {
    Arr(seq(|players|, i requires 0 <= i < |players| => PlayerJson(players[i])))
  }

  /** The full state, as saved. */
  function TableJson(t: Table): Json { Obj(TableFields(t, PlayersJson(t.players))) }

  /** A card is saved as the texts of its suit and its number. */
  lemma SavedCard(c: Card)
    ensures CardJson(c).Obj? && CardJson(c).fields.Keys == {KSuit, KValue}
    ensures CardJson(c).fields[KSuit] == Str(SuitToString(c.suit))
    ensures CardJson(c).fields[KValue] == Str(CardValueToString(c.value))
  {
  }

  /** A player is saved entry by entry, the enumerations as their numbers. */
  lemma SavedPlayer(p: PlayerData)
    ensures PlayerJson(p).Obj?
    ensures PlayerJson(p).fields.Keys
      == {KId, KName, KType, KStatus, KHand, KCurrentScore, KCumulativeScore, KSaidLastCard, KSaidCheckUp,
          KGamesPlayed, KGamesWon}
    ensures var m := PlayerJson(p).fields;
      && m[KId] == Str(p.id) && m[KName] == Str(p.name)
      && (p.kind == Human ==> m[KType] == Num(0)) && (p.kind == AiEasy ==> m[KType] == Num(1))
      && (p.kind == AiMedium ==> m[KType] == Num(2)) && (p.kind == AiHard ==> m[KType] == Num(3))
      && (p.status == Active ==> m[KStatus] == Num(0)) && (p.status == Waiting ==> m[KStatus] == Num(1))
      && (p.status == Eliminated ==> m[KStatus] == Num(2)) && (p.status == Disconnected ==> m[KStatus] == Num(3))
      && (p.status == Winner ==> m[KStatus] == Num(4))
      && m[KCurrentScore] == Num(p.currentScore) && m[KCumulativeScore] == Num(p.cumulativeScore)
      && m[KSaidLastCard] == Bool(p.saidLastCard) && m[KSaidCheckUp] == Bool(p.saidCheckUp)
      && m[KGamesPlayed] == Num(p.gamesPlayed) && m[KGamesWon] == Num(p.gamesWon)
      && m[KHand].Arr? && |m[KHand].items| == |p.hand|
      && forall i :: 0 <= i < |p.hand| ==> m[KHand].items[i] == CardJson(p.hand[i])
  {
    hide CardJson;
  }

  // ---------- The view of one player ----------

  function CountJson(n: nat): Json { Obj(map[KCount := Num(n)]) }

  function PlayerJsonFor(p: PlayerData, viewer: string): Json {
    if p.id == viewer then PlayerJson(p) else Obj(PlayerFields(p)[KHand := CountJson(|p.hand|)])
  }

  function PlayersJsonFor(players: seq<PlayerData>, viewer: string): Json {
    Arr(seq(|players|, i requires 0 <= i < |players| => PlayerJsonFor(players[i], viewer)))
  }

  function ViewJson(t: Table, viewer: string): Json {
    Obj(TableFields(t, PlayersJsonFor(t.players, viewer)))
  }

  /** Of somebody else's hand the viewer is told how many cards it holds. */
  lemma OthersAreCounted(p: PlayerData, viewer: string)
    requires p.id != viewer
    ensures PlayerJsonFor(p, viewer).Obj? && KHand in PlayerJsonFor(p, viewer).fields
    ensures PlayerJsonFor(p, viewer).fields[KHand] == Obj(map[KCount := Num(|p.hand|)])
  {
  }

  /** In a saved player who is not the viewer, the hand becomes its size. */
  function HideHand(p: Json, viewer: string): Json {
    if p.Obj? && KId in p.fields && p.fields[KId] != Str(viewer) && KHand in p.fields && p.fields[KHand].Arr?
    then Obj(p.fields[KHand := CountJson(|p.fields[KHand].items|)])
    else p
  }

  /** The same in every player of a saved state. */
  function HideHands(j: Json, viewer: string): Json {
    if j.Obj? && KPlayers in j.fields && j.fields[KPlayers].Arr? then
      var items := j.fields[KPlayers].items;
      Obj(j.fields[KPlayers := Arr(seq(|items|, i requires 0 <= i < |items| => HideHand(items[i], viewer)))])
    else j
  }

  /** A player's view is the saved state with everybody else's hand replaced by its size. */
  lemma ViewIsSavedWithHandsHidden(t: Table, viewer: string)
    ensures ViewJson(t, viewer) == HideHands(TableJson(t), viewer)
  {
    hide TableFields;
    var items := PlayersJson(t.players).items;
    forall i | 0 <= i < |t.players| ensures PlayerJsonFor(t.players[i], viewer) == HideHand(items[i], viewer) {
      HideHandOfPlayer(t.players[i], viewer);
    }
    var hidden := seq(|items|, i requires 0 <= i < |items| => HideHand(items[i], viewer));
    assert hidden == PlayersJsonFor(t.players, viewer).items;
    PlayersField(t, PlayersJson(t.players), Arr(hidden));
  }

  lemma PlayersField(t: Table, players: Json, others: Json)
    ensures KPlayers in TableFields(t, players) && TableFields(t, players)[KPlayers] == players
    ensures TableFields(t, players)[KPlayers := others] == TableFields(t, others)
  {
  }

  lemma HideHandOfPlayer(p: PlayerData, viewer: string)
    ensures HideHand(PlayerJson(p), viewer) == PlayerJsonFor(p, viewer)
  {
    assert PlayerFields(p)[KId] == Str(p.id) && PlayerFields(p)[KHand] == HandJson(p.hand);
  }

  // ---------- What a view gives away ----------

  /** Two players look alike to the viewer: everything but the hand, and the hand too if it is their own. */
  ghost predicate LookAlike(p: PlayerData, q: PlayerData, viewer: string) {
    p.(hand := q.hand) == q && |p.hand| == |q.hand| && (p.id == viewer ==> p.hand == q.hand)
  }

  /** Two tables that differ at most in what the viewer must not see, and in the configuration. */
  ghost predicate SameToViewer(t: Table, u: Table, viewer: string) {
    && t.(config := u.config, players := u.players, deck := u.deck, discard := u.discard) == u
    && |t.deck| == |u.deck| && |t.discard| == |u.discard|
    && |t.players| == |u.players|
    && forall i :: 0 <= i < |t.players| ==> LookAlike(t.players[i], u.players[i], viewer)
  }

  lemma CardJsonTellsCards(c: Card, d: Card)
    requires CardJson(c) == CardJson(d)
    ensures c == d
  {
    var m, n := CardJson(c).fields, CardJson(d).fields;
    assert m[KSuit] == n[KSuit] && m[KValue] == n[KValue];
    SuitTextRoundTrip(c.suit);
    SuitTextRoundTrip(d.suit);
    ValueTextRoundTrip(c.value);
    ValueTextRoundTrip(d.value);
  }

  lemma HandJsonTellsHands(a: seq<Card>, b: seq<Card>)
    requires HandJson(a) == HandJson(b)
    ensures a == b
  {
    var x, y := HandJson(a).items, HandJson(b).items;
    assert |x| == |y|;
    forall i | 0 <= i < |a| ensures a[i] == b[i] {
      assert x[i] == y[i];
      CardJsonTellsCards(a[i], b[i]);
    }
  }

  lemma BareFieldsTell(p: PlayerData, q: PlayerData)
    requires BareFields(p) == BareFields(q)
    ensures p.(hand := q.hand) == q
  {
    var m, n := BareFields(p), BareFields(q);
    assert m[KId] == n[KId] && m[KName] == n[KName] && m[KType] == n[KType] && m[KStatus] == n[KStatus];
    assert m[KCurrentScore] == n[KCurrentScore] && m[KCumulativeScore] == n[KCumulativeScore];
    assert m[KSaidLastCard] == n[KSaidLastCard] && m[KSaidCheckUp] == n[KSaidCheckUp];
    assert m[KGamesPlayed] == n[KGamesPlayed] && m[KGamesWon] == n[KGamesWon];
  }

  lemma UpdateTells(m: map<Key, Json>, n: map<Key, Json>, key: Key, x: Json, y: Json)
    requires key !in m && key !in n && m[key := x] == n[key := y]
    ensures m == n && x == y
  {
    assert x == m[key := x][key] && y == n[key := y][key];
    forall k | k in m ensures k in n && m[k] == n[k] {
      assert m[key := x][k] == n[key := y][k];
    }
    forall k | k in n ensures k in m {
      assert k in n[key := y];
    }
  }

  /** Everything but the hand can be read off a player's entry. */
  lemma PlayerEntryTells(p: PlayerData, q: PlayerData, viewer: string)
    requires PlayerJsonFor(p, viewer) == PlayerJsonFor(q, viewer)
    ensures p.(hand := q.hand) == q
    ensures PlayerJsonFor(p, viewer).fields[KHand] == PlayerJsonFor(q, viewer).fields[KHand]
  {
    var x, y := HandEntry(p, viewer), HandEntry(q, viewer);
    assert PlayerJsonFor(p, viewer) == Obj(BareFields(p)[KHand := x]);
    assert PlayerJsonFor(q, viewer) == Obj(BareFields(q)[KHand := y]);
    assert KHand !in BareFields(p) && KHand !in BareFields(q);
    hide BareFields;
    UpdateTells(BareFields(p), BareFields(q), KHand, x, y);
    BareFieldsTell(p, q);
  }

  function HandEntry(p: PlayerData, viewer: string): Json {
    if p.id == viewer then HandJson(p.hand) else CountJson(|p.hand|)
  }

  lemma PlayerViewTells(p: PlayerData, q: PlayerData, viewer: string)
    ensures PlayerJsonFor(p, viewer) == PlayerJsonFor(q, viewer) <==> LookAlike(p, q, viewer)
  {
    if PlayerJsonFor(p, viewer) == PlayerJsonFor(q, viewer) {
      hide HandJson, CountJson;
      PlayerEntryTells(p, q, viewer);
      HandViewTells(p, q, viewer);
    }
    if LookAlike(p, q, viewer) {
      assert q == p.(hand := q.hand);
    }
  }

  lemma HandViewTells(p: PlayerData, q: PlayerData, viewer: string)
    requires PlayerJsonFor(p, viewer).fields[KHand] == PlayerJsonFor(q, viewer).fields[KHand] && p.id == q.id
    ensures |p.hand| == |q.hand| && (p.id == viewer ==> p.hand == q.hand)
  {
    if p.id == viewer {
      HandJsonTellsHands(p.hand, q.hand);
    } else {
      assert CountJson(|p.hand|).fields[KCount] == CountJson(|q.hand|).fields[KCount];
    }
  }

  lemma PlayersViewTells(ps: seq<PlayerData>, qs: seq<PlayerData>, viewer: string)
    ensures PlayersJsonFor(ps, viewer) == PlayersJsonFor(qs, viewer) <==>
      |ps| == |qs| && forall i :: 0 <= i < |ps| ==> LookAlike(ps[i], qs[i], viewer)
  {
    hide PlayerJsonFor, LookAlike;
    var x, y := PlayersJsonFor(ps, viewer).items, PlayersJsonFor(qs, viewer).items;
    if |ps| == |qs| {
      forall i | 0 <= i < |ps| ensures x[i] == y[i] <==> LookAlike(ps[i], qs[i], viewer) {
        PlayerViewTells(ps[i], qs[i], viewer);
      }
      if forall i :: 0 <= i < |ps| ==> LookAlike(ps[i], qs[i], viewer) { assert x == y; }
    }
  }

  lemma PutHolds(m: map<Key, Json>, key: Key, value: Option<Json>, k: Key)
    ensures k != key ==> (k in Put(m, key, value) <==> k in m) && (k in m ==> Put(m, key, value)[k] == m[k])
    ensures k == key && key !in m ==> (k in Put(m, key, value) <==> value.Some?)
    ensures k == key && value.Some? ==> Put(m, key, value)[k] == value.value
  {
  }

  /** The entries of a saved state, read back one by one. */
  lemma TableFieldsHold(t: Table, players: Json, k: Key)
    ensures var m := TableFields(t, players);
      && (k in PlainFields(t) ==> k in m && m[k] == PlainFields(t)[k])
      && (k == KPlayers ==> k in m && m[k] == players)
      && (k == KDemandedSuit ==> (k in m <==> t.demanded.Some?) && (k in m ==> m[k] == DemandJson(t.demanded).value))
      && (k == KCallCard ==> (k in m <==> t.call.Some?) && (k in m ==> m[k] == CallJson(t.call).value))
      && (k in {KMinPlayers, KMaxPlayers, KStartingCards, KEliminationScore} ==> k !in m)
  {
    hide Put, WinnerJson, PlainFields;
    var m0 := PlainFields(t);
    var m1 := Put(m0, KDemandedSuit, DemandJson(t.demanded));
    var m2 := Put(m1, KCallCard, CallJson(t.call));
    PlainKeys(t, k);
    PutHolds(m0, KDemandedSuit, DemandJson(t.demanded), k);
    PutHolds(m1, KCallCard, CallJson(t.call), k);
    PutHolds(m2, KWinnerId, WinnerJson(t), k);
  }

  lemma PlainKeys(t: Table, k: Key)
    ensures k in PlainFields(t) <==>
      k in {KGameId, KGameCode, KCreatorPlayerId, KPhase, KCurrentPlayerIndex, KDirection, KActivePickCount,
            KDeckSize, KDiscardPileSize}
  {
  }

  /** The winner is saved exactly when somebody has no cards, and is the first such player. */
  lemma SavedWinner(t: Table, players: Json, i: nat)
    requires i <= |t.players| && forall k :: 0 <= k < i ==> t.players[k].hand != []
    requires i < |t.players| ==> t.players[i].hand == []
    ensures KWinnerId in TableFields(t, players) <==> i < |t.players|
    ensures i < |t.players| ==> TableFields(t, players)[KWinnerId] == Str(t.players[i].id)
  {
    hide Put, PlainFields, FirstEmpty;
    var m0 := PlainFields(t);
    var m1 := Put(m0, KDemandedSuit, DemandJson(t.demanded));
    var m2 := Put(m1, KCallCard, CallJson(t.call));
    PlainKeys(t, KWinnerId);
    PutHolds(m0, KDemandedSuit, DemandJson(t.demanded), KWinnerId);
    PutHolds(m1, KCallCard, CallJson(t.call), KWinnerId);
    PutHolds(m2, KWinnerId, WinnerJson(t), KWinnerId);
  }

  ghost predicate Holds(m: map<Key, Json>, key: Key, value: Json) { key in m && m[key] == value }

  /** The table is saved entry by entry: sizes for deck and discards, the rest as it is. */
  lemma SavedTable(t: Table, players: Json)
    ensures var m := TableFields(t, players);
      && Holds(m, KGameId, Str(t.gameId)) && Holds(m, KGameCode, Str(t.gameCode))
      && Holds(m, KCreatorPlayerId, Str(t.creatorId)) && Holds(m, KPhase, Num(PhaseNumber(t.phase)))
      && Holds(m, KCurrentPlayerIndex, Num(t.current)) && Holds(m, KActivePickCount, Num(t.pickCount))
      && Holds(m, KDirection, Str(if t.direction == Clockwise then "clockwise" else "counter_clockwise"))
      && Holds(m, KDeckSize, Num(|t.deck|)) && Holds(m, KDiscardPileSize, Num(|t.discard|))
      && Holds(m, KPlayers, players)
  {
    hide TableFields, CardJson, PlainFields, PhaseNumber;
    PlainEntries(t);
    TableFieldsHold(t, players, KPlayers);
    TableFieldsHold(t, players, KGameId);
    TableFieldsHold(t, players, KGameCode);
    TableFieldsHold(t, players, KCreatorPlayerId);
    TableFieldsHold(t, players, KPhase);
    TableFieldsHold(t, players, KCurrentPlayerIndex);
    TableFieldsHold(t, players, KDirection);
    TableFieldsHold(t, players, KActivePickCount);
    TableFieldsHold(t, players, KDeckSize);
    TableFieldsHold(t, players, KDiscardPileSize);
  }

  /** The demand is saved as a text and the call card as a card, exactly when there is one. */
  lemma SavedDemandAndCall(t: Table, players: Json)
    ensures var m := TableFields(t, players);
      && (KDemandedSuit in m <==> t.demanded.Some?) && (KCallCard in m <==> t.call.Some?)
      && (KDemandedSuit in m ==> m[KDemandedSuit] == Str(SuitToString(t.demanded.value)))
      && (KCallCard in m ==> m[KCallCard] == CardJson(t.call.value))
  {
    hide TableFields, CardJson, PlainFields, SuitToString;
    TableFieldsHold(t, players, KDemandedSuit);
    TableFieldsHold(t, players, KCallCard);
  }

  lemma PhaseNumbers()
    ensures PhaseNumber(Lobby) == 0 && PhaseNumber(Starting) == 1 && PhaseNumber(InProgress) == 2
    ensures PhaseNumber(RoundEnded) == 3 && PhaseNumber(GameEnded) == 4
  {
  }

  lemma PlainEntries(t: Table)
    ensures var m := PlainFields(t);
      && m.Keys == {KGameId, KGameCode, KCreatorPlayerId, KPhase, KCurrentPlayerIndex, KDirection, KActivePickCount,
                    KDeckSize, KDiscardPileSize}
      && m[KGameId] == Str(t.gameId) && m[KGameCode] == Str(t.gameCode) && m[KCreatorPlayerId] == Str(t.creatorId)
      && m[KPhase] == Num(PhaseNumber(t.phase)) && m[KCurrentPlayerIndex] == Num(t.current)
      && m[KActivePickCount] == Num(t.pickCount) && m[KDirection] == Str(DirectionText(t.direction))
      && m[KDeckSize] == Num(|t.deck|) && m[KDiscardPileSize] == Num(|t.discard|)
  {
  }

  lemma PlainFieldsTell(t: Table, u: Table)
    requires PlainFields(t) == PlainFields(u)
    ensures t.gameId == u.gameId && t.gameCode == u.gameCode && t.creatorId == u.creatorId
    ensures t.phase == u.phase && t.current == u.current && t.direction == u.direction
    ensures t.pickCount == u.pickCount && |t.deck| == |u.deck| && |t.discard| == |u.discard|
  {
    var m, n := PlainFields(t), PlainFields(u);
    assert m[KGameId] == n[KGameId] && m[KGameCode] == n[KGameCode] && m[KCreatorPlayerId] == n[KCreatorPlayerId];
    assert m[KPhase] == n[KPhase] && m[KCurrentPlayerIndex] == n[KCurrentPlayerIndex];
    assert m[KDirection] == n[KDirection] && m[KActivePickCount] == n[KActivePickCount];
    assert m[KDeckSize] == n[KDeckSize] && m[KDiscardPileSize] == n[KDiscardPileSize];
    assert |DirectionText(Clockwise)| != |DirectionText(CounterClockwise)|;
  }

  lemma SameTableFieldsTell(t: Table, u: Table, x: Json, y: Json)
    requires TableFields(t, x) == TableFields(u, y)
    ensures PlainFields(t) == PlainFields(u) && x == y && t.demanded == u.demanded && t.call == u.call
  {
    hide TableFields;
    forall k: Key | k in PlainFields(t) ensures k in PlainFields(u) && PlainFields(t)[k] == PlainFields(u)[k] {
      PlainKeys(t, k);
      PlainKeys(u, k);
      TableFieldsHold(t, x, k);
      TableFieldsHold(u, y, k);
    }
    forall k: Key | k in PlainFields(u) ensures k in PlainFields(t) {
      PlainKeys(t, k);
      PlainKeys(u, k);
    }
    TableFieldsHold(t, x, KPlayers);
    TableFieldsHold(u, y, KPlayers);
    OptionalFieldsTell(t, u, x, y);
  }

  lemma OptionalFieldsTell(t: Table, u: Table, x: Json, y: Json)
    requires TableFields(t, x) == TableFields(u, y)
    ensures t.demanded == u.demanded && t.call == u.call
  {
    hide TableFields, PlainFields;
    TableFieldsHold(t, x, KDemandedSuit);
    TableFieldsHold(u, y, KDemandedSuit);
    TableFieldsHold(t, x, KCallCard);
    TableFieldsHold(u, y, KCallCard);
    if t.demanded.Some? {
      SuitTextRoundTrip(t.demanded.value);
      SuitTextRoundTrip(u.demanded.value);
    }
    if t.call.Some? { CardJsonTellsCards(t.call.value, u.call.value); }
  }

  /** The view names the winner by the hand sizes alone. */
  lemma SameWinner(t: Table, u: Table, viewer: string)
    requires SameToViewer(t, u, viewer)
    ensures WinnerId(t) == WinnerId(u)
  {
    var a, b := FirstEmpty(t.players), FirstEmpty(u.players);
    assert forall i :: 0 <= i < |t.players| ==> (t.players[i].hand == [] <==> u.players[i].hand == []);
    assert a.Some? ==> u.players[a.value].hand == [];
    assert b.Some? ==> t.players[b.value].hand == [];
  }

  /**
   The view gives away exactly the public part of the state, the sizes, and the viewer's own hand: two
   tables give the same view exactly when they agree on those.
   */
  lemma ViewGivesAwayExactly(t: Table, u: Table, viewer: string)
    ensures ViewJson(t, viewer) == ViewJson(u, viewer) <==> SameToViewer(t, u, viewer)
  {
    hide PlayersJsonFor, LookAlike;
    PlayersViewTells(t.players, u.players, viewer);
    if ViewJson(t, viewer) == ViewJson(u, viewer) {
      hide TableFields, PlainFields;
      SameTableFieldsTell(t, u, PlayersJsonFor(t.players, viewer), PlayersJsonFor(u.players, viewer));
      PlainFieldsTell(t, u);
    }
    if SameToViewer(t, u, viewer) {
      SameWinner(t, u, viewer);
    }
  }

  // ---------- Loading ----------

  function GetStr(j: Json, key: Key, default: string): Result<string> {
    if !j.Obj? then Err(WrongType)
    else if key !in j.fields then Ok(default)
    else if j.fields[key].Str? then Ok(j.fields[key].s) else Err(WrongType)
  }

  function GetInt(j: Json, key: Key, default: int): Result<int> {
    if !j.Obj? then Err(WrongType)
    else if key !in j.fields then Ok(default)
    else if j.fields[key].Num? then Ok(j.fields[key].n)
    else if j.fields[key].Bool? then Ok(if j.fields[key].b then 1 else 0) else Err(WrongType)
  }

  function GetBool(j: Json, key: Key, default: bool): Result<bool> {
    if !j.Obj? then Err(WrongType)
    else if key !in j.fields then Ok(default)
    else if j.fields[key].Bool? then Ok(j.fields[key].b) else Err(WrongType)
  }

  predicate Contains(j: Json, key: Key) { j.Obj? && key in j.fields }

  function StrAt(j: Json, key: Key): Result<string> {
    if !j.Obj? then Err(WrongType)
    else if key !in j.fields then Err(MissingKey)
    else if j.fields[key].Str? then Ok(j.fields[key].s) else Err(WrongType)
  }

  function LoadCard(j: Json): Result<Card> {
    var suit :- StrAt(j, KSuit);
    var value :- StrAt(j, KValue);
    Ok(Card(StringToSuit(suit), StringToCardValue(value)))
  }

  function LoadHand(items: seq<Json>): Result<seq<Card>> {
    if items == [] then Ok([])
    else
      var before :- LoadHand(Front(items));
      var card :- LoadCard(Last(items));
      Ok(before + [card])
  }

  /** Enumerations are one byte wide: a number is taken modulo 256, whether or not it names a constant. */
  function TypeFor(n: int): (k: PlayerType)
    ensures TypeNumber(k) == n % 256
  {
    var b := n % 256;
    if b == 0 then Human else if b == 1 then AiEasy else if b == 2 then AiMedium
    else if b == 3 then AiHard else OtherType(b)
  }

  function StatusFor(n: int): (s: PlayerStatus)
    ensures StatusNumber(s) == n % 256
  {
    var b := n % 256;
    if b == 0 then Active else if b == 1 then Waiting else if b == 2 then Eliminated
    else if b == 3 then Disconnected else if b == 4 then Winner else OtherStatus(b)
  }

  function PhaseFor(n: int): (p: Phase)
    ensures PhaseNumber(p) == n % 256
  {
    var b := n % 256;
    if b == 0 then Lobby else if b == 1 then Starting else if b == 2 then InProgress
    else if b == 3 then RoundEnded else if b == 4 then GameEnded else OtherPhase(b)
  }

  /** Distinct constants have distinct numbers, declared or not. */
  lemma NumbersTell(k: PlayerType, s: PlayerStatus, p: Phase)
    ensures TypeFor(TypeNumber(k)) == k && StatusFor(StatusNumber(s)) == s && PhaseFor(PhaseNumber(p)) == p
  {
  }

  function LoadPlayer(j: Json): Result<PlayerData> {
    var id :- GetStr(j, KId, "");
    var name :- GetStr(j, KName, "");
    var typeNumber :- GetInt(j, KType, 0);
    var statusNumber :- GetInt(j, KStatus, 0);
    var hand :- if Contains(j, KHand) && j.fields[KHand].Arr? then LoadHand(j.fields[KHand].items) else Ok([]);
    var current :- GetInt(j, KCurrentScore, 0);
    var cumulative :- GetInt(j, KCumulativeScore, 0);
    var lastCard :- GetBool(j, KSaidLastCard, false);
    var checkUp :- GetBool(j, KSaidCheckUp, false);
    var played :- GetInt(j, KGamesPlayed, 0);
    var won :- GetInt(j, KGamesWon, 0);
    Ok(PlayerData(id, name, TypeFor(typeNumber), StatusFor(statusNumber), hand, current, cumulative,
                  lastCard, checkUp, played, won))
  }

  function LoadPlayers(items: seq<Json>): Result<seq<PlayerData>> {
    if items == [] then Ok([])
    else
      var before :- LoadPlayers(Front(items));
      var p :- LoadPlayer(Last(items));
      Ok(before + [p])
  }

  const DEFAULT_CONFIG := Config(2, 8, 6, 100, true)

  function LoadConfig(j: Json): Result<Config> {
    var minPlayers :- GetInt(j, KMinPlayers, 2);
    var maxPlayers :- GetInt(j, KMaxPlayers, 8);
    var startingCards :- GetInt(j, KStartingCards, 6);
    var elimination :- GetInt(j, KEliminationScore, 100);
    Ok(Config(minPlayers, maxPlayers, startingCards, elimination, true))
  }

  function LoadDemand(j: Json): Result<Option<Suit>> {
    if Contains(j, KDemandedSuit) then
      var suit :- StrAt(j, KDemandedSuit);
      Ok(Some(StringToSuit(suit)))
    else Ok(None)
  }

  function LoadCall(j: Json): Result<Option<Card>> {
    if Contains(j, KCallCard) && !j.fields[KCallCard].Null? then
      var card :- LoadCard(j.fields[KCallCard]);
      Ok(Some(card))
    else Ok(None)
  }

  /** The loaded state; a new state object starts with a full shuffled deck, here given. */
  function LoadTable(j: Json, deck: seq<Card>): Result<Table> {
    var config :- LoadConfig(j);
    var gameId :- GetStr(j, KGameId, "");
    var gameCode :- GetStr(j, KGameCode, "");
    var creatorId :- GetStr(j, KCreatorPlayerId, "");
    var phaseNumber :- GetInt(j, KPhase, 0);
    var current :- GetInt(j, KCurrentPlayerIndex, 0);
    var direction :- GetStr(j, KDirection, "clockwise");
    var pickCount :- GetInt(j, KActivePickCount, 0);
    var demanded :- LoadDemand(j);
    var players :-
      if Contains(j, KPlayers) && j.fields[KPlayers].Arr? then LoadPlayers(j.fields[KPlayers].items) else Ok([]);
    var call :- LoadCall(j);
    Ok(Table(config, PhaseFor(phaseNumber), players, current,
             if direction == "clockwise" then Clockwise else CounterClockwise,
             deck, call, [], pickCount, demanded, gameId, gameCode, creatorId))
  }

  /** Every entry is optional: an empty object loads as an empty lobby, or a player without anything. */
  lemma LoadNothing(deck: seq<Card>)
    ensures LoadTable(Obj(map[]), deck)
         == Ok(Table(Config(2, 8, 6, 100, true), Lobby, [], 0, Clockwise, deck, None, [], 0, None, "", "", ""))
    ensures LoadPlayer(Obj(map[])) == Ok(PlayerData("", "", Human, Active, [], 0, 0, false, false, 0, 0))
    ensures LoadCard(Obj(map[])) == Err(MissingKey)
  {
  }

  /** A truth value does for a number, and nothing else stands in for an entry of another kind. */
  lemma EntryKinds(key: Key, s: string, n: int, b: bool)
    ensures GetInt(Obj(map[key := Num(n)]), key, 0) == Ok(n)
    ensures GetInt(Obj(map[key := Bool(b)]), key, 0) == Ok(if b then 1 else 0)
    ensures GetInt(Obj(map[key := Str(s)]), key, 0) == Err(WrongType)
    ensures GetBool(Obj(map[key := Bool(b)]), key, false) == Ok(b)
    ensures GetBool(Obj(map[key := Num(n)]), key, false) == Err(WrongType)
    ensures GetStr(Obj(map[key := Str(s)]), key, "") == Ok(s)
    ensures GetStr(Obj(map[key := Num(n)]), key, "") == Err(WrongType)
  {
  }

  // ---------- Saving, then loading ----------

  lemma LoadCardJson(c: Card)
    ensures LoadCard(CardJson(c)) == Ok(c)
  {
    SuitTextRoundTrip(c.suit);
    ValueTextRoundTrip(c.value);
  }

  lemma {:induction false} LoadHandJson(hand: seq<Card>)
    ensures LoadHand(HandJson(hand).items) == Ok(hand)
  {
    hide CardJson, LoadCard;
    if hand != [] {
      LoadHandJson(Front(hand));
      LoadCardJson(Last(hand));
      assert Front(HandJson(hand).items) == HandJson(Front(hand)).items;
      assert hand == Front(hand) + [Last(hand)];
    }
  }

  /** What a view keeps of a player: all, for the viewer, and all but the hand for the others. */
  function Seen(p: PlayerData, viewer: string): PlayerData {
    if p.id == viewer then p else p.(hand := [])
  }

  lemma LoadPlayerView(p: PlayerData, viewer: string)
    ensures LoadPlayer(PlayerJsonFor(p, viewer)) == Ok(Seen(p, viewer))
  {
    hide HandJson, LoadHand;
    LoadHandJson(p.hand);
    var j := PlayerJsonFor(p, viewer);
    assert GetStr(j, KId, "") == Ok(p.id) && GetStr(j, KName, "") == Ok(p.name);
    assert GetInt(j, KType, 0) == Ok(TypeNumber(p.kind)) && GetInt(j, KStatus, 0) == Ok(StatusNumber(p.status));
    NumbersTell(p.kind, p.status, Lobby);
  }

  function SeenAll(players: seq<PlayerData>, viewer: string): seq<PlayerData> {
    if players == [] then [] else SeenAll(Front(players), viewer) + [Seen(Last(players), viewer)]
  }

  lemma {:induction false} LoadPlayersView(players: seq<PlayerData>, viewer: string)
    ensures LoadPlayers(PlayersJsonFor(players, viewer).items) == Ok(SeenAll(players, viewer))
  {
    hide PlayerJsonFor, LoadPlayer, Seen;
    if players != [] {
      LoadPlayersView(Front(players), viewer);
      LoadPlayerView(Last(players), viewer);
      assert Front(PlayersJsonFor(players, viewer).items) == PlayersJsonFor(Front(players), viewer).items;
    }
  }

  /** What loading leaves of a table: configuration, deck and discards are not saved. */
  function Reloaded(t: Table, deck: seq<Card>): Table {
    t.(config := DEFAULT_CONFIG, deck := deck, discard := [])
  }

  lemma LoadNames(t: Table, players: Json)
    ensures var j := Obj(TableFields(t, players));
      && GetStr(j, KGameId, "") == Ok(t.gameId) && GetStr(j, KGameCode, "") == Ok(t.gameCode)
      && GetStr(j, KCreatorPlayerId, "") == Ok(t.creatorId)
      && GetStr(j, KDirection, "clockwise") == Ok(DirectionText(t.direction))
  {
    hide TableFields, DirectionText;
    TableFieldsHold(t, players, KGameId);
    TableFieldsHold(t, players, KGameCode);
    TableFieldsHold(t, players, KCreatorPlayerId);
    TableFieldsHold(t, players, KDirection);
  }

  lemma LoadNumbers(t: Table, players: Json)
    ensures var j := Obj(TableFields(t, players));
      && GetInt(j, KPhase, 0) == Ok(PhaseNumber(t.phase)) && PhaseFor(PhaseNumber(t.phase)) == t.phase
      && GetInt(j, KCurrentPlayerIndex, 0) == Ok(t.current)
      && GetInt(j, KActivePickCount, 0) == Ok(t.pickCount)
  {
    hide TableFields, DirectionText;
    NumbersTell(Human, Active, t.phase);
    TableFieldsHold(t, players, KPhase);
    TableFieldsHold(t, players, KCurrentPlayerIndex);
    TableFieldsHold(t, players, KActivePickCount);
  }

  lemma LoadNoConfig(t: Table, players: Json)
    ensures LoadConfig(Obj(TableFields(t, players))) == Ok(DEFAULT_CONFIG)
  {
    hide TableFields, PlainFields;
    TableFieldsHold(t, players, KMinPlayers);
    TableFieldsHold(t, players, KMaxPlayers);
    TableFieldsHold(t, players, KStartingCards);
    TableFieldsHold(t, players, KEliminationScore);
  }

  lemma LoadOptional(t: Table, players: Json)
    ensures LoadDemand(Obj(TableFields(t, players))) == Ok(t.demanded)
    ensures LoadCall(Obj(TableFields(t, players))) == Ok(t.call)
  {
    hide TableFields, PlainFields, CardJson, LoadCard;
    TableFieldsHold(t, players, KDemandedSuit);
    TableFieldsHold(t, players, KCallCard);
    if t.demanded.Some? { SuitTextRoundTrip(t.demanded.value); }
    if t.call.Some? {
      LoadCardJson(t.call.value);
      CardJsonIsObject(t.call.value);
    }
  }

  lemma CardJsonIsObject(c: Card)
    ensures CardJson(c).Obj?
  {
  }

  /** Loading a player's view gives back everything saved, but nobody else's hand. */
  lemma LoadView(t: Table, viewer: string, deck: seq<Card>)
    ensures LoadTable(ViewJson(t, viewer), deck) == Ok(Reloaded(t, deck).(players := SeenAll(t.players, viewer)))
  {
    LoadAround(t, PlayersJsonFor(t.players, viewer), SeenAll(t.players, viewer), deck);
    LoadPlayersView(t.players, viewer);
  }

  /** Around any list of players that loads, the rest of a saved table loads back. */
  lemma LoadAround(t: Table, players: Json, loaded: seq<PlayerData>, deck: seq<Card>)
    requires players.Arr?
    ensures LoadPlayers(players.items) == Ok(loaded) ==>
      LoadTable(Obj(TableFields(t, players)), deck) == Ok(Reloaded(t, deck).(players := loaded))
  {
    hide TableFields, PlainFields, PhaseFor, LoadConfig, LoadDemand, LoadCall;
    LoadNames(t, players);
    LoadNumbers(t, players);
    LoadNoConfig(t, players);
    LoadOptional(t, players);
    TableFieldsHold(t, players, KPlayers);
    assert DirectionText(t.direction) == "clockwise" <==> t.direction == Clockwise by {
      assert |DirectionText(Clockwise)| != |DirectionText(CounterClockwise)|;
    }
  }

  /** Saving and loading keeps everything but the configuration, the deck and the discards. */
  lemma {:induction false} SaveLoad(t: Table, deck: seq<Card>)
    ensures LoadTable(TableJson(t), deck) == Ok(Reloaded(t, deck))
  {
    hide PlayerJson, TableFields;
    LoadPlayersJson(t.players);
    LoadAround(t, PlayersJson(t.players), t.players, deck);
  }

  lemma {:induction false} LoadPlayersJson(players: seq<PlayerData>)
    ensures LoadPlayers(PlayersJson(players).items) == Ok(players)
  {
    hide PlayerJson, LoadPlayer, PlayerJsonFor;
    if players != [] {
      LoadPlayersJson(Front(players));
      LoadPlayerJson(Last(players));
      assert Front(PlayersJson(players).items) == PlayersJson(Front(players)).items;
      assert players == Front(players) + [Last(players)];
    }
  }

  lemma LoadPlayerJson(p: PlayerData)
    ensures LoadPlayer(PlayerJson(p)) == Ok(p)
  {
    assert PlayerJsonFor(p, p.id) == PlayerJson(p);
    hide PlayerJsonFor, PlayerJson, LoadPlayer;
    LoadPlayerView(p, p.id);
  }

  /** A playable table stays playable when it is saved and loaded. */
  lemma ReloadedIsPlayable(t: Table, deck: seq<Card>)
    requires Playable(t)
    ensures LoadTable(TableJson(t), deck).Ok? && Playable(LoadTable(TableJson(t), deck).value)
  {
    hide LoadTable, TableJson;
    SaveLoad(t, deck);
  }

  /**
   Loading hands out a second deck: every card still held is in the fresh deck again, whatever was in
   the saved deck and discards.
   */
  lemma LoadDuplicates(t: Table, deck: seq<Card>, c: Card)
    requires IsStandardDeck(deck)
    ensures Copies(Reloaded(t, deck), c) == Sum(t.players, HandCopies(c)) + CopiesInDeck(c)
    ensures Copies(Reloaded(t, deck), c) == Copies(t, c) <==>
      multiset(t.deck)[c] + multiset(t.discard)[c] == CopiesInDeck(c)
  {
  }
}
