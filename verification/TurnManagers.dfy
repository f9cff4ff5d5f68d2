/** The turn manager (src/Game/TurnManager.cpp): ending turns, the play-again flag, the action history. */
module TurnManagers {
  import opened Arith
  import opened Options
  import opened Tables
  import opened Games
  import opened GameStates

  datatype TurnAction = TurnAction(playerId: string, action: ActionType, timestamp: int, completed: bool)

  const MAX_HISTORY: nat := 100

  /** The last n elements of a sequence, or all of a shorter one. */
  function LastOf<T>(s: seq<T>, n: nat): seq<T> {
    if |s| <= n then s else s[|s| - n..]
  }

  /** The history after one more action. */
  function Recorded(history: seq<TurnAction>, a: TurnAction): seq<TurnAction> {
    LastOf(history + [a], MAX_HISTORY)
  }

  function RecordedAll(history: seq<TurnAction>, actions: seq<TurnAction>): seq<TurnAction> {
    if actions == [] then history
    else Recorded(RecordedAll(history, Front(actions)), Last(actions))
  }

  /** However many actions are recorded, the history is exactly the most recent hundred, in order. */
  lemma {:induction false} HistoryIsRecent(actions: seq<TurnAction>)
    ensures RecordedAll([], actions) == if |actions| <= 100 then actions else actions[|actions| - 100..]
    ensures actions != [] ==>
      RecordedAll([], actions) != [] && Last(RecordedAll([], actions)) == Last(actions)
  {
    if actions != [] {
      HistoryIsRecent(Front(actions));
      assert actions == Front(actions) + [Last(actions)];
    }
  }

  class TurnManager {
    const state: GameState
    var actionHistory: seq<TurnAction>
    var skippedPlayers: seq<string>
    var allowMultipleActions: bool

    constructor (state: GameState)
      ensures this.state == state && !allowMultipleActions && actionHistory == [] && skippedPlayers == []
    {
      this.state := state;
      actionHistory, skippedPlayers, allowMultipleActions := [], [], false;
    }

    ghost function Model(): Game
      reads this, state, state.deck, state.players, set p | p in state.players :: p.hand
    {
      Game(state.View(), allowMultipleActions)
    }

    /** A new turn clears the queued skips and nothing else. */
    method StartTurn()
      modifies this`skippedPlayers
      ensures skippedPlayers == []
    {
      skippedPlayers := [];
    }

    method EndTurn()
      modifies this`allowMultipleActions, state`currentPlayerIndex
      ensures state.players == [] || 0 <= old(state.currentPlayerIndex) < |state.players| ==>
        Model() == Games.EndTurn(old(Model()))
      ensures state.players != [] ==>
        Model() == Game(old(state.View()).(current :=
          NextPlayerIndex(old(state.currentPlayerIndex), state.direction, |state.players|)), false)
    {
      allowMultipleActions := false;
      state.AdvanceTurn();
    }

    function GetCurrentPlayerId(): (id: string)
      reads this, state
      ensures 0 <= state.currentPlayerIndex < |state.players| ==>
        id == state.players[state.currentPlayerIndex].id
      ensures !(0 <= state.currentPlayerIndex < |state.players|) ==> id == ""
    {
      var p := state.GetCurrentPlayer();
      if p != null then p.id else ""
    }

    method EnableMultipleActions()
      modifies this`allowMultipleActions
      ensures allowMultipleActions
    {
      allowMultipleActions := true;
    }

    /** Pushes an action, then drops the oldest ones while more than a hundred are kept. */
    method RecordAction(a: TurnAction)
      modifies this`actionHistory
      ensures actionHistory == Recorded(old(actionHistory), a)
      ensures |old(actionHistory)| < 100 ==> actionHistory == old(actionHistory) + [a]
      ensures |old(actionHistory)| == 100 ==> actionHistory == old(actionHistory)[1..] + [a]
    {
      actionHistory := actionHistory + [a];
      while |actionHistory| > MAX_HISTORY
        invariant LastOf(actionHistory, MAX_HISTORY) == Recorded(old(actionHistory), a)
        decreases |actionHistory|
      {
        actionHistory := actionHistory[1..];
      }
    }

    method GetLastAction() returns (a: Option<TurnAction>)
      ensures a == if actionHistory == [] then None else Some(Last(actionHistory))
    {
      a := if |actionHistory| == 0 then None else Some(actionHistory[|actionHistory| - 1]);
    }

    /** The oldest recorded actions, at most count of them; a negative count asks for all. */
    method GetTurnHistory(count: int) returns (out: seq<TurnAction>)
      requires -0x8000_0000 <= count && |actionHistory| <= MAX_HISTORY
      ensures out == actionHistory[..if 0 <= count < |actionHistory| then count else |actionHistory|]
    {
      out := [];
      var q := actionHistory;
      while |q| != 0 && |out| < AsSize(count)
        invariant out + q == actionHistory && |out| <= AsSize(count)
        decreases |q|
      {
        assert q == [q[0]] + q[1..];
        out := out + [q[0]];
        q := q[1..];
      }
    }
  }
}
