/** The game state as a value, and what each operation of src/Game/GameState.cpp does to it. */
module Tables {
  import opened Arith
  import opened Options
  import opened Cards
  import opened Decks
  import opened Hands
  import opened Players
  import opened Rules

  /** The phases, and the undeclared numbers a loaded state may hold as one. */
  datatype Phase = Lobby | Starting | InProgress | RoundEnded | GameEnded | OtherPhase(code: PhaseCode)
  type PhaseCode = n: int | 5 <= n < 256 witness 5

  datatype Direction = Clockwise | CounterClockwise

  datatype Config = Config(minPlayers: int, maxPlayers: int, startingCards: int,
                           eliminationScore: int, allowDirectionChange: bool)

  datatype Table = Table(
    config: Config, phase: Phase, players: seq<PlayerData>, current: int, direction: Direction,
    deck: seq<Card>, call: Option<Card>, discard: seq<Card>, pickCount: int, demanded: Option<Suit>,
    gameId: string, gameCode: string, creatorId: string)
  {
    function Situation(): Situation { Rules.Situation(call, demanded, pickCount) }
  }

  /** A table with distinct players, one of whom is on turn. */
  ghost predicate WellFormed(t: Table) {
    && 0 <= t.current < |t.players|
    && DistinctIds(t.players)
  }

  ghost predicate DistinctIds(players: seq<PlayerData>) {
    forall i, j :: 0 <= i < j < |players| ==> players[i].id != players[j].id
  }

  // ---------- Turn order ----------

  /** The neighbour's seat, going round the table of n. */
  function NextSeat(current: int, direction: Direction, n: nat): int {
    if direction == Clockwise then (if current + 1 == n then 0 else current + 1)
    else if current == 0 then n - 1 else current - 1
  }

  /** The index arithmetic of getNextPlayerIndex. */
  function NextPlayerIndex(current: int, direction: Direction, n: nat): int {
    if n == 0 then 0
    else CppRemainder((if direction == Clockwise then current + 1 else current - 1) + n, n)
  }

  lemma NextIndexIsNeighbour(current: int, direction: Direction, n: nat)
    requires 0 <= current < n
    ensures NextPlayerIndex(current, direction, n) == NextSeat(current, direction, n)
    ensures NextSeat(current, Clockwise, n) == (current + 1) % n
    ensures NextSeat(current, CounterClockwise, n) == (current + n - 1) % n
  {
    StepUp(current, n);
    StepDown(current, n);
    RemainderShift(current + 1, n);
  }

  function Advance(t: Table): Table {
    if |t.players| == 0 then t
    else t.(current := NextSeat(t.current, t.direction, |t.players|))
  }

  function Reverse(d: Direction): (r: Direction)
    ensures r != d
  {
    if d == Clockwise then CounterClockwise else Clockwise
  }

  /** The seats of the active players, in seat order. */
  function ActiveSeats(players: seq<PlayerData>): (seats: seq<nat>)
    ensures forall j :: 0 <= j < |seats| ==> seats[j] < |players|
  {
    if players == [] then []
    else
      var n := |players| - 1;
      ActiveSeats(players[..n]) + if players[n].status == Active then [n] else []
  }

  // ---------- Moving cards ----------

  ghost predicate SeatsExist(t: Table, seats: seq<nat>) {
    forall i :: 0 <= i < |seats| ==> seats[i] < |t.players|
  }

  /** Moves the top card of the deck, if there is one, to a seat's hand. */
  function GiveTop(t: Table, seat: nat): (u: Table)
    requires seat < |t.players|
    ensures |u.players| == |t.players|
  {
    if t.deck == [] then t
    else
      var top := |t.deck| - 1;
      var p := t.players[seat];
      t.(deck := t.deck[..top], players := t.players[seat := p.(hand := p.hand + [t.deck[top]])])
  }

  predicate NeedsReshuffle(t: Table) {
    t.deck == [] && t.discard != []
  }

  /** Refills an empty deck from the discards; order is the deck the shuffle left. */
  function Refill(t: Table, order: seq<Card>): Table {
    if NeedsReshuffle(t) && t.call.Some? then t.(deck := order, discard := []) else t
  }

  /** An order the shuffle can produce from the current discards. */
  ghost predicate CanShuffleTo(t: Table, order: seq<Card>) {
    t.call.Some? ==> multiset(order) == multiset(Kept(t.discard, t.call.value))
  }

  /** One such order: the discards taken back, as they lie. */
  ghost function SomeOrder(t: Table): (order: seq<Card>)
    ensures CanShuffleTo(t, order)
  {
    if t.call.Some? then Kept(t.discard, t.call.value) else []
  }

  /** One card to each seat in turn, refilling the deck whenever it is found empty. */
  function DealEach(t: Table, seats: seq<nat>, order: seq<Card>): (u: Table)
    requires SeatsExist(t, seats)
    ensures |u.players| == |t.players|
    decreases |seats|
  {
    if seats == [] then t
    else DealEach(GiveTop(Refill(t, order), seats[0]), seats[1..], order)
  }

  /** Up to n cards to one seat, stopping when the deck is empty. */
  function DrawCards(t: Table, seat: nat, n: int): (u: Table)
    requires seat < |t.players|
    ensures |u.players| == |t.players|
    decreases n
  {
    if n <= 0 || t.deck == [] then t else DrawCards(GiveTop(t, seat), seat, n - 1)
  }

  /** Moves a card of the player on turn to the discards and makes a copy of it the call card. */
  function LayCard(t: Table, i: nat): Table
    requires 0 <= t.current < |t.players| && i < |t.players[t.current].hand|
  {
    var p := t.players[t.current];
    t.(players := t.players[t.current := p.(hand := Without(p.hand, i))],
       discard := t.discard + [p.hand[i]],
       call := Some(p.hand[i]),
       demanded := None)
  }

  // ---------- Rounds ----------

  function Repeat(seats: seq<nat>, times: int): (all: seq<nat>)
    ensures forall i :: 0 <= i < |all| ==> all[i] in seats
    decreases times
  {
    if times <= 0 then [] else seats + Repeat(seats, times - 1)
  }

  function ResetFlags(p: PlayerData): PlayerData {
    if p.status == Active then p.(saidLastCard := false, saidCheckUp := false) else p
  }

  function AllReset(players: seq<PlayerData>): seq<PlayerData> {
    seq(|players|, i requires 0 <= i < |players| => ResetFlags(players[i]))
  }

  /** A started game before its first round: people and their figures as before, nothing on the table. */
  function Cleared(t: Table): Table {
    t.(phase := Starting, current := 0, direction := Clockwise, pickCount := 0, demanded := None,
       deck := [], discard := [], call := None)
  }

  /** A fresh round around a shuffled standard deck; the hands keep what they held. */
  function OpenRound(t: Table, order: seq<Card>): Table {
    t.(phase := InProgress, current := 0, direction := Clockwise, pickCount := 0, demanded := None,
       deck := order, discard := [], call := None,
       players := AllReset(t.players))
  }

  /** Turns the top card of the deck into the call card. */
  function FlipCall(t: Table): Table {
    if t.deck == [] then t
    else t.(deck := t.deck[..|t.deck| - 1], call := Some(t.deck[|t.deck| - 1]))
  }

  function StartRound(t: Table, order: seq<Card>): (u: Table)
    ensures |u.players| == |t.players|
  {
    var open := OpenRound(t, order);
    FlipCall(DealEach(open, Repeat(ActiveSeats(open.players), t.config.startingCards), []))
  }

  predicate SomeHandEmpty(players: seq<PlayerData>) {
    exists i :: 0 <= i < |players| && players[i].hand == []
  }

  /** The first seat with an empty hand. */
  function FirstEmpty(players: seq<PlayerData>): (seat: Option<nat>)
    ensures seat == None <==> !SomeHandEmpty(players)
    ensures seat.Some? ==> seat.value < |players| && players[seat.value].hand == []
    ensures seat.Some? ==> forall i :: 0 <= i < seat.value ==> players[i].hand != []
  {
    if players == [] then None
    else
      var n := |players| - 1;
      var before := FirstEmpty(players[..n]);
      if before.Some? then before else if players[n].hand == [] then Some(n) else None
  }

  function Settle(p: PlayerData): PlayerData {
    if p.status == Active then p.Scored(HandScore(p.hand)).(gamesPlayed := p.gamesPlayed + 1) else p
  }

  function AllSettled(players: seq<PlayerData>): seq<PlayerData> {
    seq(|players|, i requires 0 <= i < |players| => Settle(players[i]))
  }

  function CreditWin(players: seq<PlayerData>, seat: Option<nat>): seq<PlayerData>
    requires seat.Some? ==> seat.value < |players|
  {
    if seat.None? then players
    else players[seat.value := players[seat.value].(gamesWon := players[seat.value].gamesWon + 1)]
  }

  /** Credits the winner, charges every active player the hand still held, and ends the round. */
  function CloseRound(t: Table): Table {
    var credited := CreditWin(t.players, FirstEmpty(t.players));
    t.(players := AllSettled(credited), phase := RoundEnded)
  }
}
