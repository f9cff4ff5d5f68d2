# Whot

A model of the Whot card game server's rules and game loop, with proofs about it.

The game is modelled twice. `Tables`, `Games` and `Rules` describe it as a value: a table (players with
their hands, deck, discards, call card, pick debt, demanded suit, seat on turn, direction, phase) and the
play-again flag, stepped by actions and by new rounds. A step that shuffles carries the order the shuffle
produced, so shuffling may produce any permutation. A run is a sequence of such steps, and the theorems
about whole rounds and whole games are about every run. `Decks`, `Hands`, `Players`, `GameStates`,
`TurnManagers`, `Engines`, `Bots`, `Applications` and `Persistence` hold the mutable objects and the
loops; each method is proved to leave exactly the value the model says. The engine keeps a ghost log of its
steps and its validity says that the log is a run ending in the present state, so every run theorem
applies to it.

Main results, with the module that states them:

- A round has a finite budget (`Termination`): with P cards in play there are at most P² + 2P plays and draws
  that have something to draw. Choices, declarations and draws from nothing are unbounded, so a round need not
  end; it can be brought to its end if and only if it has a call card, which a deal at a full table leaves it
  exactly when starting cards times players is below 54 (`Endings`).
- Without suit choices a round can come to a standstill, with nothing to draw and nobody able to play, which then
  lasts. Bots, who make none, bring every round with a call card and no demand to its end or to a standstill
  within (budget + 1) times players decisions (`Standstills`). A Whot on top locks such a round: only Whots are
  laid from there on (`Whots`).
- Cards are conserved (`Accounting`): every action keeps every copy of every card, except that a reshuffle
  loses exactly the discards equal to the call card.
- Seat, direction, play-again flag and pick debt have closed forms over whole runs (`Turns`).
- Only the player on turn ever acts, and which plays and draws are accepted is spelled out on suits, values and
  the debt (`Acceptance`). What each action does is spelled out on the table: who takes which card from a
  General Market, what the end of a round costs by the printed numbers, which flags a declaration sets
  (`Effects`).
- Stuck players are characterised exactly (`Acceptance`). For each level of bot there is an exact condition on
  the state under which every decision it may make is refused, and one under which every decision is accepted
  (`Bots`).
- A round in progress ends exactly with its winner's last card (`Rounds`). Over any number of rounds the games
  and wins are those of the rounds ended if and only if no play between rounds left a hand empty, which the
  state before the play tells, and then so are the scores (`Scores`).
- The deal is fair, with the exact number and identity of the cards each seat gets (`Dealing`).
- Every game the server starts, whatever game messages follow, is always in a round and has dealt one round more
  than have ended. If everyone was active in the lobby, it shows the scores, games and wins of the lobby plus
  those of the rounds ended (`Applications.Application.Serve`).
- Route matching is sound, complete and unambiguous (`Router`).
- A view gives away exactly the public state and the viewer's hand, and saving then loading restores what is
  saved (`Saving`).

Where the repository's manual or comments and its code disagree, the model follows the code:

- docs/implementation-manual.md:58 says a Hold On lets its player play again; the code also moves the turn,
  so the player goes again only in a game of one (`Turns.HoldOnPlaysAgainOnlyAlone`). The flag it sets makes
  the following plays keep their seat until somebody draws.
- docs/implementation-manual.md:61 says an Eight suspends the next player; with a Hold On pending it only
  passes the turn (`Turns.EightSuspendsUnlessHeld`).
- docs/implementation-manual.md:63, :134 and :339 say a Whot calls a suit; the suit sent with the play is ignored,
  the play clears the demand and passes the turn (`Whots.PlayIgnoresSuit`, `Whots.WhotPassesTurn`). A suit choice
  is open to the player on turn, and a demand outlives their turn only by a draw
  (`Whots.StandingDemandWasDrawnPast`); until somebody makes one only a Whot goes on a Whot
  (`Whots.WhotLocksRound`), and bots never do.
- docs/implementation-manual.md:114 says a play is checked against the pick chain; the debt plays no part
  (`Acceptance.DebtDoesNotBindPlays`).
- docs/implementation-manual.md:117-118 gives other conditions for declarations than the code, which asks for
  them at two cards and at one (`Acceptance.OpenMovesAreAccepted`).
- A demand survives a draw, so a suit choice followed by a draw can leave a bot whose every decision is refused
  (`Bots.ChoiceAndDrawStallNext`, `Bots.StallsExactly`); a bot without mistakes is then held up by its one
  favourite card (`Bots.HardStallExample`). The bots stop at a single refused decision, and nothing moves from
  there until someone acts in the bot's name.
- The engine never looks at the phase (src/Game/GameEngine.cpp:47-64): a play made after a round has ended and
  before the next deal is accepted and can settle the round a second time (`Scores.OneRoundSettlesTwice`). The
  server leaves no room for one, as it deals the next round first (`Applications.Application.ContinueRounds`).
- Starting cards and player limit are taken from the request (src/Application.cpp:686-688), and a deal that uses
  up the deck leaves a round that no run can end (`Endings.DealtRoundCanEndExactly`).
- A loaded game gets a fresh full deck while the hands are restored, so cards are duplicated
  (`Saving.LoadDuplicates`).

## Model

| member | source | states |
|---|---|---|
| `Termination.PlayFalls` | src/Game/GameEngine.cpp:136-180 | every accepted play makes (cards in play, distance to the discard pile) fall lexicographically, reshuffling or not |
| `Termination.DrawFalls` | src/Game/GameEngine.cpp:182-201 | an accepted draw makes it fall when there is anything to draw or reshuffle, and otherwise leaves it |
| `Termination.RoundSpends` | src/Game/GameEngine.cpp:47-64 | over any run without a new round, plays and effective draws are paid one by one out of a finite budget |
| `Termination.RoundIsBounded` | src/Game/GameEngine.cpp:136-201 | a round has at most P² + 2P plays and effective draws, P being the cards in play at its start |
| `Termination.DebtIsBounded` | src/Game/GameEngine.cpp:246-253 | the pick debt of a round that opened without one is never negative and stays below a bound in P |
| `Endings.RoundCanEndExactly` | src/Game/GameEngine.cpp:136-225 | from a round in progress with no empty hand some run without a new round reaches its end if and only if there is a call card |
| `Endings.DealtRoundCanEndExactly` | src/Game/GameEngine.cpp:24-45 | a round just dealt at a full table can be brought to its end if and only if starting cards times players is below 54 |
| `Endings.CanEnd` | src/Game/GameEngine.cpp:215-225 | demanding the suit of a held card and playing it, again and again, ends the round within twice its budget |
| `Endings.CanGoOn` | src/Game/GameEngine.cpp:94-96 | from every state there are runs of any length without a new round that leave the phase as it is, so no round has to end |
| `Endings.RunWithoutCall` | src/Game/GameEngine.cpp:273-278 | without a call card no run without a new round changes the phase or gets a call card |
| `Endings.RunsJoin` | src/Game/GameEngine.cpp:47-64 | two runs, the second from where the first ends, make one |
| `Standstills.BotRunIsShort` | src/Application.cpp:167-191 | bots of any levels, with a call card and no demand, cannot make (budget + 1) times players decisions without passing a round end or a standstill |
| `Standstills.BotsFinish` | src/AI/AIPlayer.cpp:17-61 | from every round in progress with a call card and no demand bots reach its end or a standstill within that many decisions |
| `Standstills.StandstillLasts` | src/Game/GameEngine.cpp:182-201 | from a standstill no run without a new round and a suit choice lays or moves a card |
| `Standstills.BotStepFalls` | src/Game/GameEngine.cpp:136-201 | every decision of a bot spends budget or brings the next match a seat nearer |
| `Standstills.AllWaiting` | src/Game/GameState.cpp:132-147 | when a whole round of the table waits for a match nobody holds one |
| `Whots.WhotLocksRound` | src/Core/Card.cpp:33-39 | with a Whot on top and nothing demanded, over every run without a new round and a suit choice every card laid is a Whot and a Whot stays on top |
| `Whots.LockedRoundEndsByWhot` | src/Game/GameEngine.cpp:161-174 | such a run ends its round only by a last card that is a Whot |
| `Whots.OnlyWhotOnWhot` | src/Rules/NigerianRules.cpp:24-46 | with a Whot on top and nothing demanded exactly the Whots can be played |
| `Whots.RunKeepsRealWhots` | src/Core/Deck.cpp:34-85 | over every run, new rounds included, the cards of suit Whot in play are the Twenties if they were |
| `Whots.PlayIgnoresSuit` | src/Game/GameEngine.cpp:136-180 | the suit and direction sent with a play change nothing, and no suit is demanded after it |
| `Whots.WhotPassesTurn` | src/Game/GameEngine.cpp:176-177 | a Whot that leaves no hand empty passes the turn, unless a Hold On is pending |
| `Whots.StandingDemandWasDrawnPast` | src/Game/GameEngine.cpp:182-225 | a demand that stands when the turn has moved was there before and a draw moved it |
| `Accounting.ActionAccounts` | src/Game/GameEngine.cpp:136-225 | an action keeps every copy of every card, unless it reshuffles, which it does in stated cases only and at most once; then exactly the discards equal to the call card go |
| `Accounting.RefillLoses` | src/Core/Deck.cpp:136-144 | refilling the deck loses as many copies of the call card as the discards hold and keeps every other card |
| `Accounting.DealEachCounts` | src/Game/GameEngine.cpp:258-266 | dealing one card each reshuffles exactly when the deck runs out with discards left, and keeps all cards otherwise |
| `Accounting.RoundAccounts` | src/Game/GameState.cpp:193-198 | over a whole round the copies still there and the copies lost to reshuffles add up to those at the start |
| `Accounting.RoundNeverGains` | src/Game/GameEngine.cpp:47-64 | no run without a new round ever gains a copy of any card |
| `Accounting.NewRoundAccounts` | src/Game/GameEngine.cpp:24-45 | a new round holds the leftover hands plus one standard deck, the first call card apart |
| `Accounting.RoundWithinOneDeck` | src/Game/GameState.cpp:39-52 | anywhere in a round a card is out no more often than leftovers and one deck allow |
| `Accounting.FirstRoundHasNoDuplicates` | src/Core/Deck.cpp:34-85 | in a round dealt into empty hands only the five Whot cards ever occur more than once |
| `Turns.SeatMeaning` | src/Game/GameState.cpp:132-156 | within a round the seat on turn is the start seat plus the signed distance read off the transcript, modulo the players |
| `Turns.StepSeat` | src/Game/GameEngine.cpp:161-177 | a play moves one seat for a One or an Eight and one more unless some hand is then empty or the flag is set; a draw moves one |
| `Turns.FlagMeaning` | src/Game/TurnManager.cpp:18-62 | the play-again flag is set exactly when a One was laid and nobody has drawn since, across rounds |
| `Turns.DebtMeaning` | src/Game/GameEngine.cpp:246-253 | the pick debt is two for every Two and three for every Five laid since the last draw or deal |
| `Turns.DebtPerCardLaid` | src/Game/GameEngine.cpp:246-253 | from the last draw or deal on, the debt is at most three for every card laid, across rounds |
| `Turns.DirectionMeaning` | src/Game/GameEngine.cpp:215-225 | play runs clockwise from each deal, turned once for every accepted direction choice |
| `Turns.PlayFields` | src/Game/GameEngine.cpp:147-177 | what a play does to debt, flag, direction, call card and seat |
| `Turns.DrawFields` | src/Game/GameEngine.cpp:194-198 | a draw clears debt and flag and moves one seat |
| `Turns.HoldOnPlaysAgainOnlyAlone` | src/Game/GameEngine.cpp:241-245 | after a One the same player is on turn if and only if there is one player |
| `Turns.EightSuspendsUnlessHeld` | src/Game/GameEngine.cpp:254-257 | an Eight that leaves no hand empty passes over the next player if and only if no Hold On is pending or there is one player |
| `Rounds.LastCardEndsRound` | src/Game/GameEngine.cpp:136-180 | a play ends the round exactly when it was the actor's last card; the actor is then the one winner, General Market or not |
| `Rounds.StepKeepsPlayable` | src/Game/GameState.cpp:200-214 | every step keeps all hands non-empty while a round is in progress |
| `Rounds.RunStaysPlayable` | src/Game/GameState.cpp:200-214 | in every reachable state of a round in progress every hand holds a card |
| `Scores.ScoresMeaning` | src/Game/GameEngine.cpp:161-174 | a player has played as many games as rounds ended if and only if no settlement was late; then they were charged the points left at every round end and won those they ended first without cards |
| `Scores.WinsAddUp` | src/Game/GameEngine.cpp:162-166 | all wins together count the rounds ended if and only if no settlement was late |
| `Scores.PlaySettlesExactly` | src/Game/GameEngine.cpp:147-174 | in any phase a play leaves a hand empty if and only if it was the last card or another hand was empty and no General Market reaches it before deck and discards run out |
| `Scores.SettlesSplits` | src/Game/GameEngine.cpp:136-177 | a play settles if and only if it ends the round in progress or is a late one, and is never both |
| `Scores.SettlementsSplit` | src/Game/GameEngine.cpp:161-174 | over any run the settlements number the round ends and the late ones; without late ones they are the round ends |
| `Scores.SettlementsMeaning` | src/Game/GameEngine.cpp:161-174 | every settlement, late or not, charges each player the points in hand, counts a game and credits its winner |
| `Scores.DealsMatchEnds` | src/Application.cpp:556-561 | with actions only during rounds and deals only between them, the deals number the round ends and the round in progress |
| `Scores.OneRoundSettlesTwice` | src/Game/GameEngine.cpp:136-177 | whatever the deck and the discards, a run in which one round ends once and is settled twice |
| `Scores.OrderlyScores` | src/Game/GameEngine.cpp:161-174 | when actions come only during rounds and deals only between them, scores, games and wins are those of the rounds ended |
| `Scores.StepCharges` | src/Core/Player.cpp:35-70 | what one step adds to each player's scores and counters |
| `Acceptance.PlayAcceptedExactly` | src/Rules/NigerianRules.cpp:24-36 | a play is accepted if and only if the player on turn sends it with a held card and a call card to lay it on, and the card is a Twenty, of the demanded suit, or with none demanded of the call card's suit or value |
| `Acceptance.DrawAcceptedExactly` | src/Game/RuleEngine.cpp:43-48 | a draw is accepted if and only if the player on turn sends it and, with a debt, holds no Two for a Two or Five for a Five, and without one holds no card that could be played |
| `Acceptance.OthersAcceptedExactly` | src/Game/GameEngine.cpp:82-101 | declarations and suit choices naming a suit are accepted exactly from the player on turn, the other actions from nobody |
| `Acceptance.OnlyPlayerOnTurnActs` | src/Game/GameEngine.cpp:84 | over every run each action was made by the player then on turn |
| `Acceptance.StuckExactly` | src/Game/RuleEngine.cpp:11-48 | neither playing nor drawing is accepted exactly in the described stuck states |
| `Acceptance.OneMoveWithoutDebt` | src/Game/RuleEngine.cpp:43-48 | without a debt exactly one of playing and drawing is open |
| `Acceptance.DebtDoesNotBindPlays` | src/Game/RuleEngine.cpp:35-41 | a play's acceptance does not depend on the debt, and when both moves are open |
| `Acceptance.ChoiceUnsticks` | src/Game/GameEngine.cpp:215-225 | from every stuck state an accepted suit choice opens a play |
| `Acceptance.StepDemand` | src/Game/GameEngine.cpp:152-225 | only a suit choice sets the demand, plays and rounds clear it, draws and declarations keep it |
| `Acceptance.NeverStuckWithoutChoice` | src/Rules/NigerianRules.cpp:24-46 | no run without suit choices gets stuck |
| `Acceptance.OpenMovesAreAccepted` | src/Game/GameEngine.cpp:103-122 | playing and drawing are listed exactly when some such action would be accepted |
| `Effects.PlayMovesCard` | src/Game/GameEngine.cpp:147-152 | a play takes the card out of the hand, which keeps its order, and makes it the call card; but for a Fourteen it becomes the last discard and nothing else moves |
| `Effects.MarketServes` | src/Game/GameEngine.cpp:258-266 | a Fourteen gives every active player but the actor one card, in seat order and from the top of the deck, as long as deck and returning discards last, and nobody else any |
| `Effects.RoundEndCosts` | src/Game/GameEngine.cpp:161-174 | a last card adds to both scores of every active player the printed numbers in their hand, stars twice, and one game, and a win to the first player without cards |
| `Effects.InactivePayNothing` | src/Game/GameEngine.cpp:168-173 | no play adds to the scores or games of an inactive player |
| `Effects.FlagsAfter` | src/Game/GameEngine.cpp:203-213 | a declaration sets its own flag of the player on turn and changes nothing else, a deal clears the flags of active players, and no other step touches one |
| `Bots.DecisionAcceptance` | src/AI/AIPlayer.cpp:17-61 | a bot's decision is accepted if and only if it meets the demanded suit, if any |
| `Bots.BotsNeverStall` | src/AI/AIPlayer.cpp:17-61 | with no suit demanded every decision of a bot on turn is accepted |
| `Bots.DecisionOnCards` | src/AI/AIPlayer.cpp:17-61 | with a Twenty or a card of the call card's suit or value a bot plays such a card, and otherwise it draws |
| `Bots.StallsExactly` | src/AI/AIPlayer.cpp:17-61 | for each level, every decision a bot may make is refused exactly in the described stalled states |
| `Bots.SafeExactly` | src/AI/AIPlayer.cpp:17-61 | for each level, every decision a bot may make is accepted exactly in the described safe states |
| `Bots.HardIsSafeOrStalled` | src/AI/DifficultyLevel.cpp:18-47 | a bot without mistakes is stalled exactly when it is not safe; the levels with mistakes share their states, and what stalls them stalls it |
| `Bots.StallExample` | src/AI/AIPlayer.cpp:99-104 | a concrete state that stalls every level |
| `Bots.HardStallExample` | src/AI/Strategy.cpp:68-81 | a state that stalls only the bot without mistakes |
| `Bots.ChoiceAndDrawStallNext` | src/Game/GameEngine.cpp:182-225 | a suit choice followed by a draw leaves the next player stalled if none of the matches their level may pick answers the demand |
| `Bots.AggressiveIsGreedy` | src/AI/Strategy.cpp:68-81 | given the playable positions, the aggressive strategy answers exactly the first match of greatest worth |
| `Bots.RankingDecides` | src/AI/Strategy.cpp:10-20 | the aggressive strategy's order of the card values, with its three ties |
| `Applications.Application.HandleGameAction` | src/Application.cpp:489-562 | a sender other than the player on turn is refused; a refused message changes nothing; an accepted one does what it asks for, is logged first, and is followed only by new rounds and at most fifty bots' actions; a round in progress is followed by a round in progress, with actions only during rounds and deals only between them |
| `Applications.MessageFate` | src/Application.cpp:508-533 | which message is accepted from whom, in the engine's terms |
| `Applications.DidMeans` | src/Application.cpp:508-533 | an accepted play message lays the named card, a draw message draws and moves the turn, a suit choice leaves that suit demanded, and each declaration sets its own flag |
| `Applications.Application.ServedScores` | src/Application.cpp:556-561 | in a game served in order the deals match the round ends and, with everyone active, scores, games and wins are those of its start and of the rounds ended since |
| `Applications.Application.Serve` | src/Application.cpp:243-266 | a game started from the lobby and fed any game messages is always in a round, has one deal more than round ends and, with everyone active, shows the lobby's figures plus those of the rounds ended |
| `Applications.Application.RunBotTurnsIfNeeded` | src/Application.cpp:167-191 | at most fifty bot actions; it stops only for a human, at fifty accepted, or at a bot the demand holds up, which with no demand there is none of; a stalled bot moves nothing |
| `Applications.Application.BotAct` | src/Application.cpp:177-183 | one decision of the level the player's type stands for, accepted always in its safe states and never in its stalled ones |
| `Applications.Application.ContinueRounds` | src/Application.cpp:556-560 | an ended round is followed at once by a new one, and the log stays in order |
| `Applications.Application.HandleStartGame` | src/Application.cpp:423-487 | accepted for the creator, whose id is not empty, in the lobby with enough players; people and figures are the lobby's, a round is then in progress and at most fifty bot actions were made |
| `Dealing.FairDeal` | src/Game/GameEngine.cpp:24-45 | with m cards dealt to k active players each gets m/k, the first m mod k one more, and the next card, if there is one, becomes the call card |
| `Dealing.DealtCards` | src/Game/GameEngine.cpp:27-37 | which cards: every k-th from the top of the deck, from the player's number among the active ones on |
| `Dealing.HoldsACardExactly` | src/Game/GameEngine.cpp:27-37 | a player starts with a card if and only if they kept one or the deal reached their seat |
| `Dealing.EveryoneHoldsACard` | src/Game/GameEngine.cpp:27-37 | with a starting card and at most 54 players nobody starts empty-handed |
| `Dealing.InactiveGetNothing` | src/Game/GameState.cpp:100-106 | players who are not active are dealt nothing |
| `Dealing.DrawPaysDebt` | src/Game/GameEngine.cpp:182-198 | an accepted draw gives the player the whole debt, or one card, from the top in order as far as the refilled deck goes, changes no other hand and clears the debt |
| `Dealing.DealEachReaches` | src/Game/GameEngine.cpp:258-266 | a deal in the middle of a round gives seat number r a card if and only if deck and returning discards hold more than r |
| `Dealing.DealEachGives` | src/Game/GameEngine.cpp:258-266 | and it is card number r, counted down the deck and on through the reshuffled discards |
| `Router.MatchRoute` | src/Network/HTTPServer.cpp:244-266 | succeeds exactly when slash-free values, not empty at the very end, turn the pattern into the path, and binds them to the names |
| `Router.MatchComplete` | src/Network/HTTPServer.cpp:248-265 | every assignment is found |
| `Router.MatchSound` | src/Network/HTTPServer.cpp:248-265 | whatever is found is an assignment |
| `Router.AssignmentIsUnique` | src/Network/HTTPServer.cpp:248-265 | there is at most one |
| `Router.BindDistinct` | src/Network/HTTPServer.cpp:256 | with distinct names the parameters are the assignment name by name |
| `Router.PlainRoute` | src/Network/HTTPServer.cpp:248-265 | a pattern without placeholders matches itself only |
| `Router.HoleRoute` | src/Network/HTTPServer.cpp:248-265 | a placeholder runs to the next slash, is named by what follows its colon, and stands for its value |
| `Saving.SaveLoad` | src/Game/GameState.cpp:223-305 | saving then loading gives back everything but configuration, deck and discards |
| `Saving.ReloadedIsPlayable` | src/Application.cpp:338-350 | a playable table stays playable when saved and loaded |
| `Saving.LoadView` | src/Game/GameState.cpp:246-305 | loading a player's view gives back the same without the others' hands |
| `Saving.ViewIsSavedWithHandsHidden` | src/Game/GameState.cpp:246-276 | a view is the saved state with the hands of all others replaced by their sizes |
| `Saving.ViewGivesAwayExactly` | src/Game/GameState.cpp:246-276 | two states give a player the same view if and only if they agree on the public part, the sizes and that player's hand |
| `Saving.LoadDuplicates` | src/Game/GameState.cpp:278-305 | after loading, the cards held are in the fresh deck again; a card's copies are kept if and only if deck and discards held exactly the standard number |
| `Saving.SavedTable` | src/Game/GameState.cpp:223-244 | each entry of a saved table holds what its key says, sizes for deck and discards |
| `Saving.SavedDemandAndCall` | src/Game/GameState.cpp:233-239 | demand and call card are saved exactly when there are any |
| `Saving.SavedWinner` | src/Game/GameState.cpp:241-242 | the winner is saved exactly when somebody has no cards, and is the first such player |
| `Saving.SavedPlayer` | src/Core/Player.cpp:75-91 | each entry of a saved player holds what its key says, enumerations as their numbers |
| `Saving.OthersAreCounted` | src/Game/GameState.cpp:263-267 | of another's hand a view tells the number of cards |
| `Saving.LoadNothing` | src/Game/GameState.cpp:278-305 | an object without entries loads as an empty lobby with the default limits |
| `Saving.EntryKinds` | src/Game/GameState.cpp:278-305 | what a present entry of the right or the wrong kind loads as |
| `Saving.LoadPlayerJson` | src/Core/Player.cpp:75-111 | a saved player loads back |
| `Saving.LoadHandJson` | src/Core/Hand.cpp:114-135 | a saved hand loads back in order |
| `Saving.LoadCardJson` | src/Core/Card.cpp:51-70 | a saved card loads back |
| `Saving.NumbersTell` | src/Core/Player.cpp:93-112 | enumeration constants, declared or not, come back from their numbers |
| `Tables.NextIndexIsNeighbour` | src/Game/GameState.cpp:132-141 | the index arithmetic gives the neighbouring seat, one up clockwise and one down the other way, modulo the players |
| `Invariants.StepKeeps` | src/Game/GameEngine.cpp:24-64 | every step keeps the people, the configuration, a valid seat on turn, and the call card on top of the discards |
| `Invariants.RunKeeps` | src/Game/GameEngine.cpp:150-151 | so does every run |
| `Hands.StarsCountDouble` | src/Core/Card.cpp:17-31 | a hand costs its printed numbers with every star counted a second time |
| `Hands.ScoreByValues` | src/Core/Card.cpp:17-31 | a hand's score is each printed number times the cards of that value and once more the stars of that value |
| `Hands.ScoreOneMore` | src/Core/Card.cpp:17-31 | one more card costs its printed number, twice for the suit Star |
| `Hands.Hand.CalculateTotalScore` | src/Core/Hand.cpp:107-112 | the loop adds up the hand's score |
| `Hands.Hand.GetPlayableCardIndices` | src/Core/Hand.cpp:70-76 | returns exactly the positions of Twenties and of cards of the call card's suit or value, each once and in order |
| `Hands.Hand.AddCard` | src/Core/Hand.cpp:15-21 | the card goes to the end of the hand |
| `Hands.Hand.PlayCard` | src/Core/Hand.cpp:28-35 | takes out the card at an index and keeps the others in order; an index past the end changes nothing |
| `Hands.WithoutKeepsOrder` | src/Core/Hand.cpp:28-35 | taking a card out keeps the others in order |
| `Cards.ValueOf` | src/Core/GameConstants.cpp:66-70 | the card value with a given legal number |
| `Decks.Deck.constructor` | src/Core/Deck.cpp:8-15 | a new deck is a full shuffled one |
| `Decks.Deck.AddSuit` | src/Core/Deck.cpp:34-78 | a suit loop adds one card for each number it does not skip |
| `Decks.Deck.AddWhotCards` | src/Core/Deck.cpp:79-85 | adds the five Whot cards |
| `Decks.Deck.CreateDeck` | src/Core/Deck.cpp:25-33 | the loops add exactly the printed card list, 54 cards in all, to whatever the deck holds |
| `Decks.StandardDeckHolds` | src/Core/Deck.cpp:34-85 | the printed card list suit by suit |
| `Decks.Deck.Shuffle` | src/Core/Deck.cpp:87-90 | the result is a permutation |
| `Decks.Deck.Draw` | src/Core/Deck.cpp:92-98 | takes the last card off, or nothing from an empty deck |
| `Decks.Deck.Reset` | src/Core/Deck.cpp:124-129 | whatever was in the deck, a full shuffled one results |
| `Decks.Deck.ReshuffleFromDiscardPile` | src/Core/Deck.cpp:136-144 | adds back every discard that differs from the call card |
| `Decks.KeptSplits` | src/Core/Deck.cpp:139-142 | the discards are what is taken back plus the copies of the call card |
| `GameStates.GameState.constructor` | src/Game/GameState.cpp:18-26 | a new state is in the lobby with a full deck and nobody seated |
| `GameStates.GameState.Initialize` | src/Game/GameState.cpp:28-37 | clears turn, deck, discards and call card |
| `GameStates.GameState.StartRound` | src/Game/GameState.cpp:39-52 | a fresh shuffled deck and fresh turn state; hands stay |
| `GameStates.GameState.AddPlayer` | src/Game/GameState.cpp:57-63 | seats the player last while there is room; the first becomes creator |
| `GameStates.GameState.GetPlayer` | src/Game/GameState.cpp:74-78 | the first player with the id, or none |
| `GameStates.GameState.GetCurrentPlayer` | src/Game/GameState.cpp:86-91 | the player in the seat on turn, if that seat exists |
| `GameStates.GameState.GetActivePlayers` | src/Game/GameState.cpp:100-106 | exactly the active players in seat order |
| `GameStates.GameState.AdvanceTurn` | src/Game/GameState.cpp:143-150 | moves the turn one seat in the direction of play, nowhere at an empty table, and by the index arithmetic from an index that is no seat |
| `GameStates.GameState.NeedsReshuffle` | src/Game/GameState.cpp:189-191 | the deck is empty and there are discards |
| `GameStates.GameState.ReshuffleDiscardPile` | src/Game/GameState.cpp:193-198 | with a call card, the other discards move into the deck and the pile is emptied; otherwise nothing happens |
| `GameStates.GameState.CheckRoundEnd` | src/Game/GameState.cpp:200-204 | whether some hand is empty |
| `GameStates.GameState.GetWinnerId` | src/Game/GameState.cpp:210-214 | the first player with an empty hand |
| `TurnManagers.HistoryIsRecent` | src/Game/TurnManager.cpp:40-58 | after any number of recorded actions the history is exactly the last hundred in order, ending with the newest |
| `TurnManagers.TurnManager.RecordAction` | src/Game/TurnManager.cpp:40-43 | pushes the action and drops the oldest beyond a hundred |
| `TurnManagers.TurnManager.GetLastAction` | src/Game/TurnManager.cpp:55-58 | the newest recorded action, if any |
| `TurnManagers.TurnManager.GetTurnHistory` | src/Game/TurnManager.cpp:45-53 | the oldest recorded actions, at most the asked number |
| `TurnManagers.TurnManager.EndTurn` | src/Game/TurnManager.cpp:18-21 | clears the play-again flag and moves the turn as `advanceTurn` does, whoever is on turn |
| `TurnManagers.TurnManager.GetCurrentPlayerId` | src/Game/TurnManager.cpp:31-34 | the id of the player on turn, empty when there is none |
| `Engines.GameEngine.constructor` | src/Game/GameEngine.cpp:10-16 | follows the state handed in from there, with an empty log |
| `Engines.GameEngine.StartGame` | src/Game/GameEngine.cpp:18-22 | clears the table and starts the log |
| `Engines.GameEngine.StartNewRound` | src/Game/GameEngine.cpp:24-45 | is exactly a new-round step, logged with its shuffled deck |
| `Engines.GameEngine.DealHands` | src/Game/GameEngine.cpp:28-37 | the nested loops deal one card a pass to every active player |
| `Engines.GameEngine.FlipFirstCall` | src/Game/GameEngine.cpp:38-42 | the top card becomes the call card and is no discard |
| `Engines.GameEngine.ProcessAction` | src/Game/GameEngine.cpp:47-64 | succeeds exactly when the action is valid, never for a sender not on turn, is then exactly one logged step, and otherwise changes nothing |
| `Engines.GameEngine.IsValidAction` | src/Game/GameEngine.cpp:82-101 | decides validity on the current state and refuses everybody not on turn; with nobody on turn only the empty id passes |
| `Engines.GameEngine.GetValidActionsForCurrentPlayer` | src/Game/GameEngine.cpp:103-122 | returns the list of open moves, empty with nobody on turn |
| `Engines.GameEngine.HandlePlayCard` | src/Game/GameEngine.cpp:136-180 | refuses without effect or plays exactly one play |
| `Engines.GameEngine.CarryOutPlay` | src/Game/GameEngine.cpp:147-177 | lays the card, does its effect, then ends the round or the turn |
| `Engines.GameEngine.HandleDrawCard` | src/Game/GameEngine.cpp:182-201 | refills once, draws in a loop, clears the debt and ends the turn |
| `Engines.GameEngine.HandleDeclaration` | src/Game/GameEngine.cpp:203-213 | sets the declared flag of the player on turn only |
| `Engines.GameEngine.HandleSuitChoice` | src/Game/GameEngine.cpp:215-225 | sets the demand and turns the direction when asked and allowed |
| `Engines.GameEngine.ExecuteSpecialCard` | src/Game/GameEngine.cpp:236-270 | does the effect of the card just laid |
| `Engines.GameEngine.GeneralMarket` | src/Game/GameEngine.cpp:258-266 | every other active player takes a card, with a refill when the deck is found empty |
| `Engines.GameEngine.DealOne` | src/Game/GameEngine.cpp:32-35 | one card to a player after a refill if needed |
| `Engines.GameEngine.EndTheRound` | src/Game/GameEngine.cpp:162-173 | credits the winner, charges every active player and ends the round |
| `Bots.AIPlayer.DecideAction` | src/AI/AIPlayer.cpp:17-61 | on turn a bot plays a matching card if it has one, as its level may pick, naming a suit only with a Whot and as its strategy does, and draws otherwise; off turn it draws or answers a debt with a card of the call card's value |
| `Bots.AIPlayer.GetPlayableCards` | src/AI/AIPlayer.cpp:99-104 | the matching positions on the bot's own turn, else none |
| `Bots.AIPlayer.DefenseCards` | src/AI/AIPlayer.cpp:73-81 | lists exactly the cards of the attack card's value, in order |
| `Bots.NoDefenseOnTurn` | src/AI/AIPlayer.cpp:43-58 | the defence branch cannot be taken on the bot's own turn |
| `Bots.SelectCard` | src/AI/Strategy.cpp:44-168 | every strategy answers a listed position, all but the random one the first best by its own measure |
| `Bots.Highest` | src/AI/Strategy.cpp:68-81 | the loop finds the first position of greatest worth |
| `Bots.Lowest` | src/AI/Strategy.cpp:105-121 | the loop finds the first position of least worth |
| `Bots.CountSuits` | src/AI/Strategy.cpp:33-41 | counts every suit held; the Whot suit only when held |
| `Bots.SuitCountOneMore` | src/AI/Strategy.cpp:33-41 | what one more card adds to the counts, and the order of the suits |
| `Bots.SelectSuit` | src/AI/Strategy.cpp:83-92 | the first suit held most often |
| `Bots.ShouldDefend` | src/AI/Strategy.cpp:57-186 | never without a defence card, always with one unless random |
| `GameConstants.SuitTextRoundTrip` | src/Core/GameConstants.cpp:6-47 | suits survive conversion to text and back |
| `GameConstants.ValueTextRoundTrip` | src/Core/GameConstants.cpp:33-72 | so do card values, through decimal text |
| `GameConstants.DecimalRoundTrip` | src/Core/GameConstants.cpp:33-36 | reading the decimal digits of any number gives the number |
| `GameConstants.SuitTexts` | src/Core/GameConstants.cpp:6-47 | the six suit texts; any other text is read as Circle |
| `GameConstants.ValueTexts` | src/Core/GameConstants.cpp:49-73 | the named values are read as named, and what is neither a name nor a legal number as One |
| `GameConstants.NumberTexts` | src/Core/GameConstants.cpp:33-36 | values are written as their printed numbers |
| `Persistence.ToJson` | src/Game/GameState.cpp:223-244 | the builder's loop produces the saved form of the state |
| `Persistence.ToJsonForPlayer` | src/Game/GameState.cpp:246-276 | the builder's loop produces the viewer's form |
| `Persistence.FromJson` | src/Game/GameState.cpp:278-305 | builds a new state showing the loaded table around a fresh deck, undeclared enumeration numbers included, or fails as the entries make it fail |
| `Persistence.LoadExistingGame` | src/Application.cpp:338-350 | an engine around the loaded state that follows it from there; it is valid for every sound state and playable for a playable one that was saved |
| `Random.NextInt` | src/Utils/Random.cpp:17-21 | any value in range, the lower bound for an empty range |

## Left out

- Sockets, HTTP parsing, static files, timers, threads and locks: foreign calls; only the route matcher is modelled.
- The database, the repositories, the message codec, logging and input validation: thin wrappers over libraries that are not part of this model.
- Sessions, the lobby, joining, leaving and game codes: the session lookup in front of a game action is taken as done.
- `removePlayer`, `eliminatePlayers`, double-decking, declaration penalties and turn timing: no engine step uses them.
- States whose players share an id, and the steps of an engine with nobody on turn: only the queries and the turn order cover such states.
- Engines.GameEngine.IsValidAction: leaves out a draw under an empty id with nobody on turn, where the code follows a null pointer.
- Event callbacks, broadcasts and the JSON copy in action results: they do not change the state.
- Integer width: scores, counters and the pick debt are unbounded; the debt is at most three for every card laid since the last draw or deal.
- Whether a bot makes a mistake, how long it thinks and how evenly numbers are drawn: any outcome in range is possible.
- JSON as text: trees stand for what the library writes and parses, with object keys as constructors.
- Deck order before shuffling, and `Hand.sortCards`: nothing depends on them.
- The round and game winner functions of the score calculator: the engine does not call them.
- Router.MatchRoute: says nothing about the parameters after a failed match, which hold whatever was bound before it failed.
- Setters of a single field have contracts and no row above.
