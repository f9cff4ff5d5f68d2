/** Players (src/Core/Player.cpp): identity, hand, scores, declaration flags and counters. */
module Players {
  import opened Cards
  import opened Hands

  /** The declared constants, and the undeclared numbers a loaded player may hold as one. */
  datatype PlayerType = Human | AiEasy | AiMedium | AiHard | OtherType(typeCode: TypeCode)
  datatype PlayerStatus =
    Active | Waiting | Eliminated | Disconnected | Winner | OtherStatus(statusCode: StatusCode)
  type TypeCode = n: int | 4 <= n < 256 witness 4
  type StatusCode = n: int | 5 <= n < 256 witness 5

  /** What a player object holds, as a value. */
  datatype PlayerData = PlayerData(
    id: string, name: string, kind: PlayerType, status: PlayerStatus, hand: seq<Card>,
    currentScore: int, cumulativeScore: int, saidLastCard: bool, saidCheckUp: bool,
    gamesPlayed: int, gamesWon: int)
  {
    function Scored(points: int): PlayerData {
      this.(currentScore := currentScore + points, cumulativeScore := cumulativeScore + points)
    }
  }

  class Player {
    const id: string
    const name: string
    const kind: PlayerType
    const hand: Hand
    var status: PlayerStatus
    var currentScore: int
    var cumulativeScore: int
    var saidLastCard: bool
    var saidCheckUp: bool
    var gamesPlayed: int
    var gamesWon: int

    constructor (id: string, name: string, kind: PlayerType)
      ensures fresh(hand)
      ensures View() == PlayerData(id, name, kind, Active, [], 0, 0, false, false, 0, 0)
    {
      this.id, this.name, this.kind := id, name, kind;
      hand := new Hand();
      status := Active;
      currentScore, cumulativeScore := 0, 0;
      saidLastCard, saidCheckUp := false, false;
      gamesPlayed, gamesWon := 0, 0;
    }

    ghost function View(): PlayerData
      reads this, hand
    {
      PlayerData(id, name, kind, status, hand.cards, currentScore, cumulativeScore,
                 saidLastCard, saidCheckUp, gamesPlayed, gamesWon)
    }

    method AddToScore(points: int)
      modifies this
      ensures View() == old(View()).Scored(points)
    {
      currentScore := currentScore + points;
      cumulativeScore := cumulativeScore + points;
    }

    method IncrementGamesPlayed()
      modifies this
      ensures View() == old(View()).(gamesPlayed := old(gamesPlayed) + 1)
    {
      gamesPlayed := gamesPlayed + 1;
    }

    method IncrementGamesWon()
      modifies this
      ensures View() == old(View()).(gamesWon := old(gamesWon) + 1)
    {
      gamesWon := gamesWon + 1;
    }

    method SetSaidLastCard(said: bool)
      modifies this
      ensures View() == old(View()).(saidLastCard := said)
    {
      saidLastCard := said;
    }

    method SetSaidCheckUp(said: bool)
      modifies this
      ensures View() == old(View()).(saidCheckUp := said)
    {
      saidCheckUp := said;
    }

    method ResetTurnFlags()
      modifies this
      ensures View() == old(View()).(saidLastCard := false, saidCheckUp := false)
    {
      saidLastCard, saidCheckUp := false, false;
    }
  }
}
