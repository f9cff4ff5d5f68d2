/** The server's game loop (src/Application.cpp): handling a game message and running the bots. */
module Applications {
  import opened Arith
  import opened Options
  import opened Cards
  import opened Players
  import opened Tables
  import opened Games
  import opened Invariants
  import opened Acceptance
  import opened Dealing
  import opened Rounds
  import opened Scores
  import opened GameStates
  import opened Engines
  import opened Bots
  import opened Turns

  const MAX_BOT_TURNS := 50

  datatype Message =
    | PlayCardMessage(cardIndex: nat, playSuit: Option<Suit>)
    | DrawCardMessage
    | DeclareLastCardMessage
    | DeclareCheckUpMessage
    | ChooseSuitMessage(chosenSuit: Option<Suit>)
    | OtherMessage

  datatype Reply = Ignored | Rejected | Accepted

  /** The action a game message asks for; other messages ask for none. */
  function ActionFor(playerId: string, m: Message): Option<Action> {
    match m
    case PlayCardMessage(i, suit) => Some(Action(PlayCard, playerId, Some(i), suit, None))
    case DrawCardMessage => Some(Action(DrawCard, playerId, None, None, None))
    case DeclareLastCardMessage => Some(Action(DeclareLastCard, playerId, None, None, None))
    case DeclareCheckUpMessage => Some(Action(DeclareCheckUp, playerId, None, None, None))
    case ChooseSuitMessage(suit) => Some(Action(ChooseSuit, playerId, None, suit, None))
    case OtherMessage => None
  }

  function LevelOf(kind: PlayerType): DifficultyLevel {
    match kind
    case AiMedium => Medium
    case AiHard => Hard
    case _ => Easy
  }

  /** How many of the events are actions; the rest are new rounds. */
  ghost function Actions(events: seq<Event>): nat {
    if events == [] then 0 else Actions(Front(events)) + if Last(events).Act? then 1 else 0
  }

  /** From an index on, every action was made in the name of a bot. */
  ghost predicate ByBots(players: seq<Player>, log: seq<Event>, from: nat) {
    forall i :: from <= i < |log| && log[i].Act? ==> IsBotId(players, log[i].a.playerId)
  }

  ghost predicate IsBotId(players: seq<Player>, id: string) {
    exists j :: 0 <= j < |players| && players[j].id == id && players[j].kind != Human
  }

  ghost predicate HumanToMove(t: Table) {
    0 <= t.current < |t.players| && t.players[t.current].kind == Human
  }

  /** Whatever the bot on turn decides is accepted. */
  ghost predicate SafeOnTurn(t: Table) {
    0 <= t.current < |t.players| && Safe(LevelOf(t.players[t.current].kind), t)
  }

  /** Nothing the bot on turn can decide is accepted. */
  ghost predicate StalledOnTurn(t: Table) {
    0 <= t.current < |t.players| && StalledFor(LevelOf(t.players[t.current].kind), t)
  }

  /** The log is a run with actions only during rounds and deals only between them. */
  ghost predicate Ordered(start: Game, log: seq<Event>) {
    IsRun(start, log) && Orderly(start, log)
  }

  /**
   An accepted action with a round in progress leaves it so or has just ended it; a play lifts the
   demand, a suit choice sets it, and nothing else touches it.
   */
  ghost predicate ActOutcome(g: Game, a: Action, h: Game) {
    && (g.t.phase == InProgress ==> h.t.phase in {InProgress, RoundEnded})
    && (Playable(g.t) ==> Playable(h.t))
    && h.t.demanded ==
         if a.kind == PlayCard then None else if a.kind == ChooseSuit then a.chosenSuit else g.t.demanded
  }

  lemma ActLeads(start: Game, log: seq<Event>, g: Game, a: Action, order: seq<Card>)
    requires IsRun(start, log) && Exec(start, log) == g && Possible(g, Act(a, order))
    ensures ActOutcome(g, a, Apply(g, a, order))
    ensures g.t.phase == InProgress && Ordered(start, log) ==> Ordered(start, log + [Act(a, order)])
  {
    hide Apply, IsRun, Exec, Orderly, Possible, Playable, Games.IsValidAction;
    StepOfAct(g, a, order);
    StepDemand(g, Act(a, order));
    if Playable(g.t) { StepKeepsPlayable(g, Act(a, order)); }
    StepPhase(g, Act(a, order));
    OneMoreEvent(start, log, Act(a, order));
  }

  lemma RoundLeads(start: Game, log: seq<Event>, g: Game, order: seq<Card>)
    requires IsRun(start, log) && Exec(start, log) == g && Possible(g, Round(order))
    ensures NewRound(g, order).t.phase == InProgress && NewRound(g, order).t.demanded == None
    ensures Playable(g.t) ==> Playable(NewRound(g, order).t)
    ensures g.t.phase in {Starting, RoundEnded} && Ordered(start, log) ==>
      Ordered(start, log + [Round(order)])
  {
    hide NewRound, IsRun, Exec, Orderly, Playable;
    StepOfRound(g, order);
    NewRoundIs(g, order);
    if Playable(g.t) { StepKeepsPlayable(g, Round(order)); }
    StartRoundKeeps(g.t, order);
    OneMoreEvent(start, log, Round(order));
  }

  lemma NewRoundIs(g: Game, order: seq<Card>)
    ensures NewRound(g, order).t == StartRound(g.t, order)
  {
  }

  /** Before its first round a full table is playable. */
  lemma StartIsPlayable(t: Table)
    ensures Sound(t) && FullTable(t) && t.phase != InProgress ==> Playable(t)
  {
  }

  /** A log grown by more events, of which so many were actions. */
  ghost predicate Grew(before: seq<Event>, after: seq<Event>, acts: nat) {
    before <= after && Actions(after) == Actions(before) + acts
  }

  lemma ActionsAppend(events: seq<Event>, more: seq<Event>)
    ensures Actions(events + more) == Actions(events) + Actions(more)
    decreases |more|
  {
    if more == [] {
      assert events + more == events;
    } else {
      ActionsAppend(events, Front(more));
      assert Front(events + more) == events + Front(more);
    }
  }

  class Application {
    const engine: GameEngine

    constructor (engine: GameEngine)
      ensures this.engine == engine
    {
      this.engine := engine;
    }

    /** A new round straight after one has ended, so that an ended round is never left standing. */
    method ContinueRounds()
      requires engine.Valid()
      modifies engine`log, engine.turnManager, engine.state, engine.state.deck, engine.state.players,
               set p | p in engine.state.players :: p.hand
      ensures unchanged(engine.state`players) && engine.Valid()
      ensures Grew(old(engine.log), engine.log, 0)
      ensures forall i :: |old(engine.log)| <= i < |engine.log| ==> engine.log[i].Round?
      ensures old(engine.state.phase) == RoundEnded ==> engine.state.demandedSuit == None
      ensures old(engine.state.phase) == RoundEnded ==> engine.state.phase == InProgress
      ensures old(Playable(engine.state.View())) ==> Playable(engine.state.View())
      ensures old(Ordered(engine.start, engine.log)) ==> Ordered(engine.start, engine.log)
      ensures old(engine.state.phase) != RoundEnded ==> engine.Model() == old(engine.Model())
    {
      hide Views, Playable, Possible, NewRound, Sound, IsRun, Exec, Ordered;
      if engine.state.phase == RoundEnded {
        ghost var g := engine.Model();
        ghost var order := engine.StartNewRound();
        ActionsAppend(old(engine.log), [Round(order)]);
        RoundLeads(engine.start, old(engine.log), g, order);
      }
    }

    /**
     Starts the game for its creator, once, when there are enough players: the first round is dealt and
     any bots in front of the first human play. A round is then in progress.
     */
    method HandleStartGame(playerId: string) returns (reply: Reply)
      requires engine.turnManager.state == engine.state && engine.state.Valid()
      requires |engine.state.players| > 0 && DistinctIds(engine.state.View().players)
      modifies engine`start, engine`log, engine.turnManager, engine.state, engine.state.deck,
               engine.state.players, set p | p in engine.state.players :: p.hand
      ensures unchanged(engine.state`players)
      ensures reply == Accepted <==>
        && playerId != "" && old(engine.state.phase) == Lobby && old(engine.state.creatorId) == playerId
        && |old(engine.state.players)| >= AsSize(engine.state.config.minPlayers)
      ensures reply != Accepted ==> reply == Rejected && engine.Model() == old(engine.Model())
      ensures reply == Accepted ==>
        && engine.Valid() && Ordered(engine.start, engine.log)
        && engine.start.t == Cleared(old(engine.state.View()))
        && engine.state.phase == InProgress && engine.state.demandedSuit == None
        && Actions(engine.log) <= 50
        && (HumanToMove(engine.state.View()) || Actions(engine.log) == 50)
      ensures reply == Accepted && old(FullTable(engine.state.View())) ==> Playable(engine.state.View())
    {
      hide Views, Playable, Possible, NewRound, Sound, IsRun, Exec, Ordered;
      if playerId == "" { return Rejected; }
      if engine.state.phase != Lobby || engine.state.creatorId != playerId { return Rejected; }
      if |engine.state.players| < AsSize(engine.state.config.minPlayers) { return Rejected; }
      DealFirstRound();
      RunBotTurnsIfNeeded();
      reply := Accepted;
    }

    /** A fresh start and the first deal. */
    method DealFirstRound()
      requires engine.turnManager.state == engine.state && engine.state.Valid()
      requires |engine.state.players| > 0 && DistinctIds(engine.state.View().players)
      modifies engine`start, engine`log, engine.turnManager, engine.state, engine.state.deck,
               engine.state.players, set p | p in engine.state.players :: p.hand
      ensures unchanged(engine.state`players)
      ensures engine.Valid() && Ordered(engine.start, engine.log) && Actions(engine.log) == 0
      ensures engine.start.t == Cleared(old(engine.state.View()))
      ensures engine.state.phase == InProgress && engine.state.demandedSuit == None
      ensures old(FullTable(engine.state.View())) ==> Playable(engine.state.View())
    {
      hide Views, Playable, Possible, NewRound, Sound, IsRun, Exec, Ordered;
      engine.StartGame();
      ghost var g := engine.Model();
      ghost var order := engine.StartNewRound();
      ActionsAppend([], [Round(order)]);
      StartIsOrdered(g);
      RoundLeads(g, [], g, order);
      StartIsPlayable(g.t);
    }

    /** An action put to the engine: refused without effect, or logged with what it leads to. */
    method Submit(action: Action) returns (success: bool)
      requires engine.Valid()
      modifies engine`log, engine.turnManager, engine.state, engine.state.deck, engine.state.players,
               set p | p in engine.state.players :: p.hand
      ensures unchanged(engine.state`players) && engine.Valid()
      ensures success == Games.IsValidAction(old(engine.state.View()), action)
      ensures !success ==> engine.Model() == old(engine.Model()) && engine.log == old(engine.log)
      ensures success ==>
        && LoggedOnly(old(engine.Model()), old(engine.log), engine.log, action)
        && Grew(old(engine.log), engine.log, 1)
      ensures success ==> ActOutcome(old(engine.Model()), action, engine.Model())
      ensures success && old(engine.state.phase) == InProgress && old(Ordered(engine.start, engine.log)) ==>
        Ordered(engine.start, engine.log)
    {
      hide Views, Apply, Possible, Sound, IsRun, Exec, Games.IsValidAction, Ordered, ActOutcome;
      ghost var g := engine.Model();
      ghost var order;
      success, order := engine.ProcessAction(action);
      if success {
        ActionsAppend(old(engine.log), [Act(action, order)]);
        ActLeads(engine.start, old(engine.log), g, action, order);
      }
    }

    /** A bot decides and acts. */
    method BotAct(current: Player) returns (success: bool)
      requires engine.Valid()
      requires 0 <= engine.state.currentPlayerIndex < |engine.state.players|
      requires current == engine.state.players[engine.state.currentPlayerIndex]
      modifies engine`log, engine.turnManager, engine.state, engine.state.deck, engine.state.players,
               set p | p in engine.state.players :: p.hand
      ensures unchanged(engine.state`players) && engine.Valid()
      ensures Grew(old(engine.log), engine.log, if success then 1 else 0)
      ensures forall i :: |old(engine.log)| <= i < |engine.log| ==>
        engine.log[i].Act? && engine.log[i].a.playerId == current.id
      ensures !success ==> engine.Model() == old(engine.Model())
      ensures success ==>
        |engine.log| == |old(engine.log)| + 1 && Last(engine.log).Act?
        && Decides(match current.kind case AiHard => Hard case AiMedium => Medium case _ => Easy,
                   old(engine.state.View()), Last(engine.log).a)
      ensures old(StalledOnTurn(engine.state.View())) ==> !success
      ensures old(SafeOnTurn(engine.state.View())) ==> success
      ensures old(engine.state.demandedSuit) == None ==> success && engine.state.demandedSuit == None
      ensures old(engine.state.phase) == InProgress ==> engine.state.phase in {InProgress, RoundEnded}
      ensures old(Playable(engine.state.View())) ==> Playable(engine.state.View())
      ensures old(engine.state.phase) == InProgress && old(Ordered(engine.start, engine.log)) ==>
        Ordered(engine.start, engine.log)
    {
      hide Views, Playable, Sound, IsRun, Exec, Games.IsValidAction, Ordered;
      hide StalledFor, Safe, Decides, IsDecision, DrawsOrDefends;
      ghost var g := engine.Model();
      var ai := new AIPlayer(current.id, current.name, LevelOf(current.kind));
      var action := ai.DecideAction(engine.state);
      DecisionFate(LevelOf(current.kind), g.t, action);
      success := Submit(action);
    }

    /** One bot turn: act, and open the next round if this one ended. */
    method BotTurn(current: Player) returns (success: bool)
      requires engine.Valid()
      requires 0 <= engine.state.currentPlayerIndex < |engine.state.players|
      requires current == engine.state.players[engine.state.currentPlayerIndex]
      modifies engine`log, engine.turnManager, engine.state, engine.state.deck, engine.state.players,
               set p | p in engine.state.players :: p.hand
      ensures unchanged(engine.state`players) && engine.Valid()
      ensures Grew(old(engine.log), engine.log, if success then 1 else 0)
      ensures current.kind != Human ==> ByBots(engine.state.players, engine.log, |old(engine.log)|)
      ensures !success ==> engine.Model() == old(engine.Model())
      ensures old(StalledOnTurn(engine.state.View())) ==> !success
      ensures old(SafeOnTurn(engine.state.View())) ==> success
      ensures old(engine.state.demandedSuit) == None ==> success && engine.state.demandedSuit == None
      ensures old(engine.state.phase) == InProgress ==> engine.state.phase == InProgress
      ensures old(Playable(engine.state.View())) ==> Playable(engine.state.View())
      ensures old(engine.state.phase) == InProgress && old(Ordered(engine.start, engine.log)) ==>
        Ordered(engine.start, engine.log)
    {
      hide Views, Playable, Sound, IsRun, Exec, SafeOnTurn, StalledOnTurn, Ordered;
      success := BotAct(current);
      if success { ContinueRounds(); }
    }

    /**
     Runs the bots, at most fifty turns and only while a round is in progress. The loop ends with a human
     to move, after fifty accepted bot actions, or at a bot whose decision the demand refused; with no suit
     demanded there is no such bot. A bot that the demand has stalled moves nothing.
     */
    method RunBotTurnsIfNeeded()
      requires engine.Valid()
      modifies engine`log, engine.turnManager, engine.state, engine.state.deck, engine.state.players,
               set p | p in engine.state.players :: p.hand
      ensures unchanged(engine.state`players) && engine.Valid()
      ensures old(engine.log) <= engine.log
      ensures ByBots(engine.state.players, engine.log, |old(engine.log)|)
      ensures Actions(engine.log) <= Actions(old(engine.log)) + 50
      ensures old(engine.state.phase) != InProgress ==> engine.Model() == old(engine.Model())
      ensures old(engine.state.phase) == InProgress ==>
        engine.state.phase == InProgress && BotsRest(old(engine.log), engine.log, engine.state.View())
      ensures old(engine.state.phase) == InProgress && old(engine.state.demandedSuit) == None ==>
        BotsDone(old(engine.log), engine.log, engine.state.View())
      ensures old(Playable(engine.state.View())) ==> Playable(engine.state.View())
      ensures old(Ordered(engine.start, engine.log)) ==> Ordered(engine.start, engine.log)
      ensures old(StalledOnTurn(engine.state.View())) ==> engine.Model() == old(engine.Model())
    {
      hide Views, Playable, IsRun, Exec, SafeOnTurn, StalledOnTurn, Ordered;
      ghost var playing, free := engine.state.phase == InProgress, engine.state.demandedSuit == None;
      for iter := 0 to MAX_BOT_TURNS
        invariant unchanged(engine.state`players) && engine.Valid()
        invariant Grew(old(engine.log), engine.log, iter)
        invariant ByBots(engine.state.players, engine.log, |old(engine.log)|)
        invariant playing ==> engine.state.phase == InProgress
        invariant playing && free ==> engine.state.demandedSuit == None
        invariant iter == 0 || !playing ==> engine.Model() == old(engine.Model())
        invariant old(Playable(engine.state.View())) ==> Playable(engine.state.View())
        invariant old(Ordered(engine.start, engine.log)) ==> Ordered(engine.start, engine.log)
        invariant old(StalledOnTurn(engine.state.View())) ==> iter == 0
      {
        if engine.state.phase != InProgress { break; }
        var current := engine.state.GetCurrentPlayer();
        if current == null || current.kind == Human { break; }
        var success := BotTurn(current);
        if !success { break; }
      }
    }

    /** The action a message asks for, submitted: refused without effect, or done and logged. */
    method ActOnMessage(playerId: string, m: Message) returns (reply: Reply)
      requires engine.Valid()
      modifies engine`log, engine.turnManager, engine.state, engine.state.deck, engine.state.players,
               set p | p in engine.state.players :: p.hand
      ensures unchanged(engine.state`players) && engine.Valid()
      ensures reply == Accepted <==>
        playerId != "" && ActionFor(playerId, m).Some?
        && Games.IsValidAction(old(engine.state.View()), ActionFor(playerId, m).value)
      ensures playerId != "" && m == DrawCardMessage ==>
        (reply == Accepted <==>
           Games.IsValidAction(old(engine.state.View()), Action(DrawCard, playerId, None, None, None)))
      ensures playerId != "" && m.PlayCardMessage? ==>
        (reply == Accepted <==>
           Games.IsValidAction(old(engine.state.View()), Action(PlayCard, playerId, Some(m.cardIndex), None, None)))
      ensures playerId != "" && m.ChooseSuitMessage? ==>
        (reply == Accepted <==>
           playerId == old(engine.state.players[engine.state.currentPlayerIndex]).id && m.chosenSuit.Some?)
      ensures playerId != "" && m in {DeclareLastCardMessage, DeclareCheckUpMessage} ==>
        (reply == Accepted <==> playerId == old(engine.state.players[engine.state.currentPlayerIndex]).id)
      ensures playerId == "" || m == OtherMessage ==> reply == Ignored
      ensures playerId != old(engine.state.players[engine.state.currentPlayerIndex]).id ==> reply != Accepted
      ensures reply != Accepted ==> engine.Model() == old(engine.Model()) && engine.log == old(engine.log)
      ensures reply == Accepted ==>
        LoggedOnly(old(engine.Model()), old(engine.log), engine.log, ActionFor(playerId, m).value)
        && Grew(old(engine.log), engine.log, 1)
      ensures reply == Accepted ==>
        && |old(engine.log)| < |engine.log|
        && Possible(old(engine.Model()), engine.log[|old(engine.log)|])
        && Did(old(engine.Model()), m, engine.log[|old(engine.log)|])
      ensures reply == Accepted && old(engine.state.phase) == InProgress ==>
        engine.state.phase in {InProgress, RoundEnded}
      ensures old(Playable(engine.state.View())) ==> Playable(engine.state.View())
      ensures reply == Accepted && LeavesNoDemand(m, old(engine.state.demandedSuit)) ==>
        engine.state.demandedSuit == None
      ensures reply == Accepted && old(engine.state.phase) == InProgress && old(Ordered(engine.start, engine.log)) ==>
        Ordered(engine.start, engine.log)
    {
      ghost var g := engine.Model();
      assert g.t.players[g.t.current].id == engine.state.players[engine.state.currentPlayerIndex].id;
      hide Views, Sound, IsRun, Exec, Games.IsValidAction, Ordered, Did, Possible, Playable;
      MessageFate(g.t, playerId, m);
      if playerId == "" { return Ignored; }
      var action := ActionFor(playerId, m);
      if action.None? { return Ignored; }
      var success := Submit(action.value);
      if !success { return Rejected; }
      MessageDoes(g, playerId, m, Last(engine.log));
      reply := Accepted;
    }

    /**
     Handles a game message. A refused or unknown one changes nothing; after an accepted one the next
     round is opened if this one ended and the bots take their turns, so that a round in progress is
     always followed by a round in progress and no action is ever logged outside one.
     */
    method HandleGameAction(playerId: string, m: Message) returns (reply: Reply)
      requires engine.Valid()
      modifies engine`log, engine.turnManager, engine.state, engine.state.deck, engine.state.players,
               set p | p in engine.state.players :: p.hand
      ensures unchanged(engine.state`players) && engine.Valid()
      ensures reply == Accepted <==>
        playerId != "" && ActionFor(playerId, m).Some?
        && Games.IsValidAction(old(engine.state.View()), ActionFor(playerId, m).value)
      ensures playerId != "" && m == DrawCardMessage ==>
        (reply == Accepted <==>
           Games.IsValidAction(old(engine.state.View()), Action(DrawCard, playerId, None, None, None)))
      ensures playerId != "" && m.PlayCardMessage? ==>
        (reply == Accepted <==>
           Games.IsValidAction(old(engine.state.View()), Action(PlayCard, playerId, Some(m.cardIndex), None, None)))
      ensures playerId != "" && m.ChooseSuitMessage? ==>
        (reply == Accepted <==>
           playerId == old(engine.state.players[engine.state.currentPlayerIndex]).id && m.chosenSuit.Some?)
      ensures playerId != "" && m in {DeclareLastCardMessage, DeclareCheckUpMessage} ==>
        (reply == Accepted <==> playerId == old(engine.state.players[engine.state.currentPlayerIndex]).id)
      ensures playerId == "" || m == OtherMessage ==> reply == Ignored
      ensures playerId != old(engine.state.players[engine.state.currentPlayerIndex]).id ==> reply != Accepted
      ensures reply != Accepted ==> engine.Model() == old(engine.Model()) && engine.log == old(engine.log)
      ensures reply == Accepted ==>
        && |old(engine.log)| < |engine.log|
        && Possible(old(engine.Model()), engine.log[|old(engine.log)|])
        && Did(old(engine.Model()), m, engine.log[|old(engine.log)|])
      ensures reply == Accepted ==>
        && Answered(engine.state.players, old(engine.log), engine.log, ActionFor(playerId, m).value)
        && Actions(engine.log) <= Actions(old(engine.log)) + 1 + 50
      ensures old(engine.state.phase) == InProgress ==> engine.state.phase == InProgress
      ensures old(Playable(engine.state.View())) ==> Playable(engine.state.View())
      ensures old(engine.state.phase) == InProgress && old(Ordered(engine.start, engine.log)) ==>
        Ordered(engine.start, engine.log)
      ensures old(engine.state.phase) == InProgress && reply == Accepted ==>
        BotsRest(old(engine.log) + [engine.log[|old(engine.log)|]], engine.log, engine.state.View())
      ensures
        old(engine.state.phase) == InProgress && reply == Accepted
        && LeavesNoDemand(m, old(engine.state.demandedSuit)) ==>
        BotsDone(old(engine.log) + [engine.log[|old(engine.log)|]], engine.log, engine.state.View())
    {
      hide Views, Playable, Sound, IsRun, Exec, Games.IsValidAction, Ordered, Did, Possible, ActionFor, LeavesNoDemand;
      hide SafeOnTurn, HumanToMove, IsBotId;
      reply := ActOnMessage(playerId, m);
      if reply != Accepted { return; }
      ghost var first := engine.log;
      FollowUp();
      assert first == old(engine.log) + [engine.log[|old(engine.log)|]];
    }

    /** What follows an accepted action: the next round if this one ended, then the bots. */
    method FollowUp()
      requires engine.Valid()
      modifies engine`log, engine.turnManager, engine.state, engine.state.deck, engine.state.players,
               set p | p in engine.state.players :: p.hand
      ensures unchanged(engine.state`players) && engine.Valid()
      ensures old(engine.log) <= engine.log
      ensures ByBots(engine.state.players, engine.log, |old(engine.log)|)
      ensures Actions(engine.log) <= Actions(old(engine.log)) + 50
      ensures old(engine.state.phase) in {InProgress, RoundEnded} ==>
        engine.state.phase == InProgress && BotsRest(old(engine.log), engine.log, engine.state.View())
      ensures old(engine.state.phase) in {InProgress, RoundEnded} && old(engine.state.demandedSuit) == None ==>
        BotsDone(old(engine.log), engine.log, engine.state.View())
      ensures old(Playable(engine.state.View())) ==> Playable(engine.state.View())
      ensures old(Ordered(engine.start, engine.log)) ==> Ordered(engine.start, engine.log)
    {
      hide Views, Playable, Sound, IsRun, Exec, SafeOnTurn, Ordered;
      ContinueRounds();
      RunBotTurnsIfNeeded();
    }

    /**
     In a game served in order, scores, games and wins are those of the rounds ended since its start, and
     the deals outnumber these by the round in progress.
     */
    lemma ServedScores()
      requires engine.Valid() && Ordered(engine.start, engine.log)
      ensures AllActive(engine.start.t.players) ==>
        ScoresFollow(engine.start.t, RoundEnds(engine.start, engine.log), engine.state.View())
      ensures RoundsOpen(engine.start.t) + Deals(engine.log)
           == |RoundEnds(engine.start, engine.log)| + RoundsOpen(engine.state.View())
    {
      hide Views, Sound, IsRun, Exec, Orderly, RoundEnds, ScoresFollow;
      DealsMatchEnds(engine.start, engine.log);
      if AllActive(engine.start.t.players) { OrderlyScoresFollow(engine.start, engine.log); }
    }

    /** The messages of a game under way, one after the other. */
    method HandleMessages(messages: seq<(string, Message)>)
      requires engine.Valid() && engine.state.phase == InProgress && Ordered(engine.start, engine.log)
      modifies engine`log, engine.turnManager, engine.state, engine.state.deck, engine.state.players,
               set p | p in engine.state.players :: p.hand
      ensures unchanged(engine.state`players) && engine.Valid()
      ensures engine.state.phase == InProgress && Ordered(engine.start, engine.log)
      ensures old(Playable(engine.state.View())) ==> Playable(engine.state.View())
    {
      hide Views, Playable, Sound, IsRun, Exec, Ordered;
      for i := 0 to |messages|
        invariant unchanged(engine.state`players) && engine.Valid()
        invariant engine.state.phase == InProgress && Ordered(engine.start, engine.log)
        invariant old(Playable(engine.state.View())) ==> Playable(engine.state.View())
      {
        var reply := HandleGameAction(messages[i].0, messages[i].1);
      }
    }

    /**
     A whole game: started by a request from the lobby, then fed any game messages in the order they arrive.
     Once started it is always in a round, which is the one deal not yet answered by a round end, and the
     figures of players who were all active are those from the lobby and of the rounds ended since.
     */
    method Serve(creator: string, messages: seq<(string, Message)>) returns (started: bool)
      requires engine.turnManager.state == engine.state && engine.state.Valid()
      requires |engine.state.players| > 0 && DistinctIds(engine.state.View().players)
      modifies engine`start, engine`log, engine.turnManager, engine.state, engine.state.deck,
               engine.state.players, set p | p in engine.state.players :: p.hand
      ensures unchanged(engine.state`players)
      ensures started <==>
        && creator != "" && old(engine.state.phase) == Lobby && old(engine.state.creatorId) == creator
        && |old(engine.state.players)| >= AsSize(engine.state.config.minPlayers)
      ensures !started ==> engine.Model() == old(engine.Model())
      ensures started ==> engine.Valid() && Ordered(engine.start, engine.log) && engine.state.phase == InProgress
      ensures started ==> engine.start.t == Cleared(old(engine.state.View()))
      ensures started ==> Deals(engine.log) == |RoundEnds(engine.start, engine.log)| + 1
      ensures started && old(AllActive(engine.state.View().players)) ==>
        ScoresFollow(old(engine.state.View()), RoundEnds(engine.start, engine.log), engine.state.View())
      ensures started && old(FullTable(engine.state.View())) ==> Playable(engine.state.View())
    {
      hide Views, Playable, FullTable, AllActive, Sound, IsRun, Exec, Ordered, RoundEnds, Deals, ScoresFollow;
      var reply := HandleStartGame(creator);
      started := reply == Accepted;
      if !started { return; }
      HandleMessages(messages);
      ServedScores();
      ClearedFollows(old(engine.state.View()), RoundEnds(engine.start, engine.log), engine.state.View());
    }
  }

  /** What each message did once it was accepted, on the event it made. */
  ghost predicate Did(g: Game, m: Message, e: Event)
    requires Possible(g, e)
  {
    var x, h, p := EntryOf(g, e), Step(g, e), g.t.players[g.t.current];
    e.Act? &&
    match m
    case PlayCardMessage(i, suit) => i < |p.hand| && x.Laid? && x.card == p.hand[i]
    case DrawCardMessage =>
      var owed := if g.t.pickCount > 0 then g.t.pickCount else 1;
      var deck := Refill(g.t, e.order).deck;
      && x.Drew? && |h.t.players| == |g.t.players|
      && h.t.players[g.t.current].hand == p.hand + TopDown(deck, Min(owed, |deck|))
    case DeclareLastCardMessage =>
      x.Spoke? && h == g.(t := g.t.(players := g.t.players[g.t.current := p.(saidLastCard := true)]))
    case DeclareCheckUpMessage =>
      x.Spoke? && h == g.(t := g.t.(players := g.t.players[g.t.current := p.(saidCheckUp := true)]))
    case ChooseSuitMessage(suit) => suit.Some? && x == Chose(false) && h == g.(t := g.t.(demanded := suit))
    case OtherMessage => false
  }

  /** The action of a message does what the message asks for. */
  lemma MessageDoes(g: Game, playerId: string, m: Message, e: Event)
    requires Sound(g.t) && Possible(g, e) && e.Act? && ActionFor(playerId, m) == Some(e.a)
    ensures Did(g, m, e)
  {
    if m == DrawCardMessage { DrawPaysDebt(g, e.a, e.order); }
  }

  /** Laid, drawn, declared or demanded: what each message did, in full. */
  lemma DidMeans(g: Game, m: Message, e: Event)
    requires Sound(g.t) && Possible(g, e) && Did(g, m, e)
    ensures var me, p, u := g.t.current, g.t.players[g.t.current], Step(g, e).t;
      && |u.players| == |g.t.players|
      && (m.PlayCardMessage? ==>
            m.cardIndex < |p.hand| && u.call == Some(p.hand[m.cardIndex]) && |u.players[me].hand| == |p.hand| - 1)
      && (m == DrawCardMessage ==>
            && p.hand <= u.players[me].hand && u.pickCount == 0
            && u.current == NextSeat(me, g.t.direction, |g.t.players|))
      && (m == DeclareLastCardMessage ==>
            u.players[me] == p.(saidLastCard := true) && u == g.t.(players := g.t.players[me := u.players[me]]))
      && (m == DeclareCheckUpMessage ==>
            u.players[me] == p.(saidCheckUp := true) && u == g.t.(players := g.t.players[me := u.players[me]]))
      && (m.ChooseSuitMessage? ==> m.chosenSuit.Some? && u == g.t.(demanded := m.chosenSuit))
      && !m.OtherMessage?
  {
    hide Play, Draw;
    if m.PlayCardMessage? {
      HandsAfterPlay(g, e.a.cardIndex.value, e.order);
      PlayLaid(g, e);
    } else if m == DrawCardMessage {
      DrawFields(g, e.order);
      DrawPaysDebt(g, e.a, e.order);
    }
  }

  lemma PlayLaid(g: Game, e: Event)
    requires Possible(g, e) && e.Act? && e.a.kind == PlayCard
    ensures Step(g, e).t.call == Some(EntryOf(g, e).card)
  {
    PlayFields(g, e.a.cardIndex.value, e.order);
  }

  /** Which messages the state accepts, from whom. */
  lemma MessageFate(t: Table, playerId: string, m: Message)
    requires Sound(t)
    ensures var a, id := ActionFor(playerId, m), t.players[t.current].id;
      var ok := a.Some? && Games.IsValidAction(t, a.value);
      && (ok ==> playerId == id)
      && (m == DrawCardMessage ==>
            ok == Games.IsValidAction(t, Action(DrawCard, playerId, None, None, None)))
      && (m.PlayCardMessage? ==>
            ok == Games.IsValidAction(t, Action(PlayCard, playerId, Some(m.cardIndex), None, None)))
      && (m.ChooseSuitMessage? ==> ok == (playerId == id && m.chosenSuit.Some?))
      && (m in {DeclareLastCardMessage, DeclareCheckUpMessage} ==> ok == (playerId == id))
      && (m == OtherMessage ==> a.None?)
  {
  }

  /** Clearing the table for a start leaves the people and their figures alone. */
  lemma ClearedFollows(t: Table, ends: seq<Table>, u: Table)
    ensures ScoresFollow(Cleared(t), ends, u) == ScoresFollow(t, ends, u)
    ensures AllActive(Cleared(t).players) == AllActive(t.players) && RoundsOpen(Cleared(t)) == 0
    ensures var u := Cleared(t);
      && u.players == t.players && u.config == t.config
      && u.gameId == t.gameId && u.gameCode == t.gameCode && u.creatorId == t.creatorId
      && u.deck == [] && u.discard == [] && u.call == None && u.demanded == None && u.pickCount == 0
  {
  }

  /** What the level and the state say about a decision before it is made. */
  lemma DecisionFate(level: DifficultyLevel, t: Table, a: Action)
    requires 0 <= t.current < |t.players| && Decides(level, t, a)
    ensures Safe(level, t) ==> Games.IsValidAction(t, a)
    ensures StalledFor(level, t) ==> !Games.IsValidAction(t, a)
    ensures t.demanded == None ==> Safe(level, t)
    ensures a.kind != ChooseSuit
  {
    SafeExactly(level, t);
    StallsExactly(level, t);
  }

  /** Before anything is logged the log is in order. */
  lemma StartIsOrdered(g: Game)
    ensures Ordered(g, []) && Exec(g, []) == g
  {
  }

  /** The bot loop ran to its end: no demand stands, and a human is to move or fifty bot actions were made. */
  ghost predicate BotsDone(before: seq<Event>, after: seq<Event>, t: Table) {
    t.demanded == None && (HumanToMove(t) || Actions(after) == Actions(before) + 50)
  }

  /** The bot loop came to rest: a human is to move, fifty bot actions were made, or a demand holds a bot up. */
  ghost predicate BotsRest(before: seq<Event>, after: seq<Event>, t: Table) {
    HumanToMove(t) || Actions(after) == Actions(before) + 50 || !SafeOnTurn(t)
  }

  /** The log grew by the action, possible in the game it was made in, and nothing else. */
  ghost predicate LoggedOnly(g: Game, before: seq<Event>, after: seq<Event>, a: Action) {
    && |after| == |before| + 1 && before <= after
    && Last(after).Act? && Last(after).a == a && Possible(g, Last(after))
  }

  /** The log grew by the action, and then by new rounds and bots' actions only. */
  ghost predicate Answered(players: seq<Player>, before: seq<Event>, after: seq<Event>, a: Action) {
    && |before| < |after| && before <= after
    && after[|before|].Act? && after[|before|].a == a
    && ByBots(players, after, |before| + 1)
  }

  /** No demand stands after an accepted message: it was a play, or nothing was demanded before. */
  ghost predicate LeavesNoDemand(m: Message, demanded: Option<Suit>) {
    m.PlayCardMessage? || (demanded == None && !m.ChooseSuitMessage?)
  }
}
