/** Whose turn it is, the play-again flag and the pick debt, in closed form over whole runs. */
module Turns {
  import opened Arith
  import opened Options
  import opened Cards
  import opened Tables
  import opened Games
  import opened Accounting
  import opened Invariants

  /** What a bystander sees of an event. */
  datatype Entry =
    | Laid(card: Card, direction: Direction, ended: bool)
    | Drew(direction: Direction)
    | Dealt
    | Chose(turned: bool)
    | Spoke

  ghost function EntryOf(g: Game, e: Event): Entry
    requires Possible(g, e)
  {
    if e.Round? then Dealt
    else if e.a.kind == PlayCard then
      Laid(g.t.players[g.t.current].hand[e.a.cardIndex.value], g.t.direction, SomeHandEmpty(Step(g, e).t.players))
    else if e.a.kind == DrawCard then Drew(g.t.direction)
    else if e.a.kind == ChooseSuit then Chose(e.a.chosenDirection.Some? && g.t.config.allowDirectionChange)
    else Spoke
  }

  ghost function Transcript(start: Game, events: seq<Event>): (tr: seq<Entry>)
    requires IsRun(start, events)
    ensures |tr| == |events|
    decreases |events|
  {
    if events == [] then []
    else Transcript(start, Front(events)) + [EntryOf(Exec(start, Front(events)), Last(events))]
  }

  // ---------- One step ----------

  function PickValue(card: Card): int {
    if card.value == Two then 2 else if card.value == Five then 3 else 0
  }

  /** Debt, flag, seat and direction after a card's effect. */
  lemma EffectFields(g: Game, card: Card, actor: nat, order: seq<Card>)
    requires 0 <= g.t.current < |g.t.players|
    ensures var h := Special(g, card, actor, order);
      && h.t.pickCount == g.t.pickCount + PickValue(card)
      && h.playAgain == (g.playAgain || card.value == One)
      && h.t.direction == g.t.direction && |h.t.players| == |g.t.players| && h.t.call == g.t.call
      && h.t.current == (if card.value == One || card.value == Eight
                         then NextSeat(g.t.current, g.t.direction, |g.t.players|) else g.t.current)
  {
    if card.value == Fourteen {
      DealEachFrame(g.t, MarketSeats(g.t, actor), order);
    }
  }

  /** The same after the whole play, with the card laid as the call card. */
  lemma PlayFields(g: Game, i: nat, order: seq<Card>)
    requires 0 <= g.t.current < |g.t.players| && i < |g.t.players[g.t.current].hand|
    ensures var card, h := g.t.players[g.t.current].hand[i], Play(g, i, order);
      var skipped := if card.value == One || card.value == Eight
                     then NextSeat(g.t.current, g.t.direction, |g.t.players|) else g.t.current;
      && h.t.pickCount == g.t.pickCount + PickValue(card)
      && h.playAgain == (g.playAgain || card.value == One)
      && h.t.direction == g.t.direction && h.t.call == Some(card)
      && h.t.current == (if SomeHandEmpty(h.t.players) || h.playAgain then skipped
                         else NextSeat(skipped, g.t.direction, |g.t.players|))
  {
    var laid := g.(t := LayCard(g.t, i));
    EffectFields(laid, laid.t.call.value, g.t.current, order);
    var h := AfterEffect(g, i, order);
    FinishKeepsHands(h);
  }

  lemma FinishKeepsHands(g: Game)
    ensures SameHands(g.t.players, Finish(g).t.players)
    ensures SomeHandEmpty(Finish(g).t.players) == SomeHandEmpty(g.t.players)
  {
  }

  lemma DrawFields(g: Game, order: seq<Card>)
    requires 0 <= g.t.current < |g.t.players|
    ensures var h := Draw(g, order);
      && h.t.pickCount == 0 && !h.playAgain && h.t.direction == g.t.direction && h.t.call == g.t.call
      && h.t.current == NextSeat(g.t.current, g.t.direction, |g.t.players|)
  {
    var count := g.t.Situation().DrawCount(g.t.players[g.t.current].hand);
    DrawCardsFrame(Refill(g.t, order), g.t.current, count);
  }

  // ---------- The play-again flag ----------

  /** The flag as the transcript tells it, entry by entry. */
  ghost predicate Flag(before: bool, tr: seq<Entry>) {
    if tr == [] then before
    else !Last(tr).Drew? && ((Last(tr).Laid? && Last(tr).card.value == One) || Flag(before, Front(tr)))
  }

  /** Nobody has drawn from entry i on. */
  ghost predicate NobodyDrew(tr: seq<Entry>, i: nat) {
    forall j :: i <= j < |tr| ==> !tr[j].Drew?
  }

  /** Entry i laid a Hold On and nobody has drawn since. */
  ghost predicate HoldPending(tr: seq<Entry>, i: int) {
    0 <= i < |tr| && tr[i].Laid? && tr[i].card.value == One && NobodyDrew(tr, i)
  }

  lemma {:induction false} FlagSpelledOut(before: bool, tr: seq<Entry>)
    ensures Flag(before, tr) <==> (exists i :: HoldPending(tr, i)) || (before && NobodyDrew(tr, 0))
  {
    if tr != [] {
      var n := |tr| - 1;
      FlagSpelledOut(before, Front(tr));
      assert forall i :: 0 <= i < n ==> (HoldPending(tr, i) <==> HoldPending(Front(tr), i) && !tr[n].Drew?);
      assert HoldPending(tr, n) <==> tr[n].Laid? && tr[n].card.value == One;
      assert NobodyDrew(tr, 0) <==> NobodyDrew(Front(tr), 0) && !tr[n].Drew?;
    }
  }

  lemma {:induction false} FlagFollows(start: Game, events: seq<Event>)
    requires IsRun(start, events)
    ensures Exec(start, events).playAgain == Flag(start.playAgain, Transcript(start, events))
    decreases |events|
  {
    hide Step;
    if events != [] {
      FlagFollows(start, Front(events));
      assert Front(Transcript(start, events)) == Transcript(start, Front(events));
      StepFlag(Exec(start, Front(events)), Last(events));
    }
  }

  /**
   Started with the flag clear, it is set exactly when a Hold On was laid and nobody has drawn since,
   across rounds too.
   */
  lemma FlagMeaning(start: Game, events: seq<Event>)
    requires IsRun(start, events) && !start.playAgain
    ensures Exec(start, events).playAgain <==> exists i :: HoldPending(Transcript(start, events), i)
  {
    FlagFollows(start, events);
    FlagSpelledOut(false, Transcript(start, events));
  }

  lemma StepFlag(g: Game, e: Event)
    requires Possible(g, e)
    ensures var x := EntryOf(g, e);
      Step(g, e).playAgain == ((x.Laid? && x.card.value == One) || (!x.Drew? && g.playAgain))
  {
    if e.Act? && e.a.kind == PlayCard {
      PlayFields(g, e.a.cardIndex.value, e.order);
    } else if e.Act? && e.a.kind == DrawCard {
      DrawFields(g, e.order);
    }
  }

  // ---------- The pick debt ----------

  ghost predicate Resets(x: Entry) { x.Drew? || x.Dealt? }

  /** The part of a transcript after its last draw or deal. */
  ghost function SinceReset(tr: seq<Entry>): seq<Entry> {
    if tr == [] || Resets(Last(tr)) then [] else SinceReset(Front(tr)) + [Last(tr)]
  }

  ghost function CountLaid(tr: seq<Entry>, v: CardValue): nat {
    if tr == [] then 0
    else CountLaid(Front(tr), v) + if Last(tr).Laid? && Last(tr).card.value == v then 1 else 0
  }

  ghost predicate HasReset(tr: seq<Entry>) {
    exists i :: 0 <= i < |tr| && Resets(tr[i])
  }

  /** Two for every Two and three for every Five since the last draw or deal. */
  ghost function Debt(before: int, tr: seq<Entry>): int {
    (if HasReset(tr) then 0 else before) + 2 * CountLaid(SinceReset(tr), Two) + 3 * CountLaid(SinceReset(tr), Five)
  }

  lemma DebtOneMore(before: int, tr: seq<Entry>, x: Entry)
    ensures Debt(before, tr + [x])
         == if Resets(x) then 0 else Debt(before, tr) + if x.Laid? then PickValue(x.card) else 0
  {
    assert Front(tr + [x]) == tr && Last(tr + [x]) == x;
    if Resets(x) {
      assert Resets((tr + [x])[|tr|]);
    } else {
      assert HasReset(tr + [x]) == HasReset(tr) by {
        assert forall i :: 0 <= i < |tr| ==> (tr + [x])[i] == tr[i];
      }
      assert Front(SinceReset(tr) + [x]) == SinceReset(tr);
    }
  }

  /** The debt is exactly what the transcript says is owed. */
  lemma {:induction false} DebtMeaning(start: Game, events: seq<Event>)
    requires Sound(start.t) && IsRun(start, events)
    ensures Exec(start, events).t.pickCount == Debt(start.t.pickCount, Transcript(start, events))
    decreases |events|
  {
    hide Step;
    if events != [] {
      var g, e := Exec(start, Front(events)), Last(events);
      DebtMeaning(start, Front(events));
      RunKeeps(start, Front(events));
      DebtOneMore(start.t.pickCount, Transcript(start, Front(events)), EntryOf(g, e));
      StepDebt(g, e);
    }
  }

  lemma StepDebt(g: Game, e: Event)
    requires Possible(g, e)
    ensures var x := EntryOf(g, e);
      Step(g, e).t.pickCount
      == if Resets(x) then 0 else g.t.pickCount + if x.Laid? then PickValue(x.card) else 0
  {
    if e.Round? {
      StartRoundKeeps(g.t, e.order);
    } else if e.a.kind == PlayCard {
      PlayFields(g, e.a.cardIndex.value, e.order);
    } else if e.a.kind == DrawCard {
      DrawFields(g, e.order);
    }
  }

  ghost function CardsLaid(tr: seq<Entry>): nat {
    if tr == [] then 0 else CardsLaid(Front(tr)) + if Last(tr).Laid? then 1 else 0
  }

  lemma {:induction false} AttacksAreCards(tr: seq<Entry>)
    ensures CountLaid(tr, Two) + CountLaid(tr, Five) <= CardsLaid(tr)
  {
    if tr != [] { AttacksAreCards(Front(tr)); }
  }

  /** From a draw or a deal on, the debt is at most three for every card laid. */
  lemma DebtPerCardLaid(start: Game, events: seq<Event>)
    requires Sound(start.t) && IsRun(start, events)
    ensures var tr := Transcript(start, events);
      0 <= Exec(start, events).t.pickCount
        <= (if HasReset(tr) then 0 else start.t.pickCount) + 3 * CardsLaid(SinceReset(tr))
  {
    hide IsRun, Exec, HasReset;
    DebtMeaning(start, events);
    AttacksAreCards(SinceReset(Transcript(start, events)));
  }

  // ---------- The direction of play ----------

  /** How often the direction was turned since the last deal. */
  ghost function TurnsAround(tr: seq<Entry>): nat {
    if tr == [] || Last(tr).Dealt? then 0
    else TurnsAround(Front(tr)) + if Last(tr).Chose? && Last(tr).turned then 1 else 0
  }

  ghost predicate HasDeal(tr: seq<Entry>) {
    exists i :: 0 <= i < |tr| && tr[i].Dealt?
  }

  /** Clockwise from the last deal, or as it was before any, and turned once for every turn since. */
  ghost function Facing(before: Direction, tr: seq<Entry>): Direction {
    var from := if HasDeal(tr) then Clockwise else before;
    if TurnsAround(tr) % 2 == 0 then from else Reverse(from)
  }

  lemma FacingOneMore(before: Direction, tr: seq<Entry>, x: Entry)
    ensures Facing(before, tr + [x]) ==
      if x.Dealt? then Clockwise else if x.Chose? && x.turned then Reverse(Facing(before, tr)) else Facing(before, tr)
  {
    assert HasDeal(tr + [x]) <==> HasDeal(tr) || x.Dealt? by {
      assert (tr + [x])[|tr|] == x;
      assert forall i :: 0 <= i < |tr| ==> (tr + [x])[i] == tr[i];
    }
    assert Front(tr + [x]) == tr && Last(tr + [x]) == x;
  }

  lemma StepDirection(g: Game, e: Event)
    requires Sound(g.t) && Possible(g, e)
    ensures var x := EntryOf(g, e);
      Step(g, e).t.direction ==
        if x.Dealt? then Clockwise else if x.Chose? && x.turned then Reverse(g.t.direction) else g.t.direction
  {
    if e.Round? {
      StartRoundKeeps(g.t, e.order);
    } else if e.a.kind == PlayCard {
      PlayFields(g, e.a.cardIndex.value, e.order);
    } else if e.a.kind == DrawCard {
      DrawFields(g, e.order);
    }
  }

  /** The direction of play is exactly what the transcript says. */
  lemma {:induction false} DirectionMeaning(start: Game, events: seq<Event>)
    requires Sound(start.t) && IsRun(start, events)
    ensures Exec(start, events).t.direction == Facing(start.t.direction, Transcript(start, events))
    decreases |events|
  {
    hide Step;
    if events != [] {
      var g, e := Exec(start, Front(events)), Last(events);
      DirectionMeaning(start, Front(events));
      RunKeeps(start, Front(events));
      FacingOneMore(start.t.direction, Transcript(start, Front(events)), EntryOf(g, e));
      StepDirection(g, e);
    }
  }

  // ---------- The seat on turn ----------

  function Sign(d: Direction): int { if d == Clockwise then 1 else -1 }

  /** How many seats one entry moves the turn, flag being the play-again flag after it. */
  function Moved(x: Entry, flag: bool): int {
    match x
    case Laid(card, d, ended) =>
      Sign(d) * ((if card.value == One || card.value == Eight then 1 else 0)
                 + if !ended && !flag then 1 else 0)
    case Drew(d) => Sign(d)
    case _ => 0
  }

  ghost function Travelled(before: bool, tr: seq<Entry>): int {
    if tr == [] then 0
    else Travelled(before, Front(tr)) + Moved(Last(tr), Flag(before, tr))
  }

  /** The seat a signed distance from seat 0, going round the table of k. */
  function SeatAt(distance: int, k: nat): (seat: int)
    requires k > 0
    ensures 0 <= seat < k
    decreases if distance < 0 then k - distance else distance
  {
    if distance < 0 then SeatAt(distance + k, k)
    else if distance >= k then SeatAt(distance - k, k)
    else distance
  }

  /** Going round is the remainder: the distance and its seat differ by whole rounds. */
  lemma {:induction false} SeatAtIsRemainder(distance: int, k: nat)
    requires k > 0
    ensures SeatAt(distance, k) == distance % k
    decreases if distance < 0 then k - distance else distance
  {
    if distance < 0 {
      SeatAtIsRemainder(distance + k, k);
      RemainderShift(distance, k);
    } else if distance >= k {
      SeatAtIsRemainder(distance - k, k);
      RemainderShift(distance - k, k);
    }
  }

  lemma {:induction false} NextSeatIsShift(x: int, d: Direction, k: nat)
    requires k > 0
    ensures NextSeat(SeatAt(x, k), d, k) == SeatAt(x + Sign(d), k)
    decreases if x < 0 then k - x else x
  {
    if x < 0 {
      NextSeatIsShift(x + k, d, k);
    } else if x >= k {
      NextSeatIsShift(x - k, d, k);
    }
  }

  lemma StepSeat(g: Game, e: Event, x: int, k: nat)
    requires Sound(g.t) && Possible(g, e) && e.Act?
    requires k == |g.t.players| && g.t.current == SeatAt(x, k)
    ensures Step(g, e).t.current == SeatAt(x + Moved(EntryOf(g, e), Step(g, e).playAgain), k)
  {
    hide Play, Draw, SeatAt;
    var d := g.t.direction;
    NextSeatIsShift(x, d, k);
    if e.a.kind == PlayCard {
      PlayFields(g, e.a.cardIndex.value, e.order);
      NextSeatIsShift(x + Sign(d), d, k);
    } else if e.a.kind == DrawCard {
      DrawFields(g, e.order);
    }
  }

  lemma SeatOneMore(from: int, before: bool, k: nat, past: seq<Entry>, g: Game, e: Event)
    requires Sound(g.t) && Possible(g, e) && e.Act? && k == |g.t.players|
    requires g.t.current == SeatAt(from + Travelled(before, past), k)
    requires g.playAgain == Flag(before, past)
    ensures Step(g, e).t.current == SeatAt(from + Travelled(before, past + [EntryOf(g, e)]), k)
  {
    hide Step, Moved, SeatAt, EntryOf;
    var x := EntryOf(g, e);
    assert Front(past + [x]) == past && Last(past + [x]) == x;
    StepFlag(g, e);
    StepSeat(g, e, from + Travelled(before, past), k);
  }

  lemma SeatAtStart(start: Game)
    requires Sound(start.t)
    ensures SeatAt(start.t.current + Travelled(start.playAgain, []), |start.t.players|) == start.t.current
  {
  }

  lemma {:induction false} SeatFollows(start: Game, events: seq<Event>)
    requires Sound(start.t) && IsRun(start, events) && NoNewRound(events)
    ensures Exec(start, events).t.current
         == SeatAt(start.t.current + Travelled(start.playAgain, Transcript(start, events)), |start.t.players|)
    decreases |events|
  {
    hide Step, SeatAt, Travelled, Flag, EntryOf, Sound;
    if events == [] {
      SeatAtStart(start);
    } else {
      SeatFollows(start, Front(events));
      RunKeeps(start, Front(events));
      FlagFollows(start, Front(events));
      SeatOneMore(start.t.current, start.playAgain, |start.t.players|, Transcript(start, Front(events)),
                  Exec(start, Front(events)), Last(events));
    }
  }

  /** Within a round the seat on turn is the start seat plus the distance travelled, modulo the players. */
  lemma SeatMeaning(start: Game, events: seq<Event>)
    requires Sound(start.t) && IsRun(start, events) && NoNewRound(events)
    ensures Exec(start, events).t.current
         == (start.t.current + Travelled(start.playAgain, Transcript(start, events))) % |start.t.players|
  {
    hide *;
    var tr := Transcript(start, events);
    SeatFollows(start, events);
    SeatAtIsRemainder(start.t.current + Travelled(start.playAgain, tr), |start.t.players|);
  }

  // ---------- Where the code departs from the manual ----------

  lemma NextSeatStays(current: int, d: Direction, k: nat)
    requires 0 <= current < k
    ensures NextSeat(current, d, k) == current <==> k == 1
    ensures NextSeat(NextSeat(current, d, k), d, k) == NextSeat(current, d, k) <==> k == 1
  {
  }

  /** A Hold On that does not end the round lets its player go again only in a game of one. */
  lemma HoldOnPlaysAgainOnlyAlone(g: Game, i: nat, order: seq<Card>)
    requires Sound(g.t) && i < |g.t.players[g.t.current].hand|
    requires g.t.players[g.t.current].hand[i].value == One
    ensures Play(g, i, order).t.current == g.t.current <==> |g.t.players| == 1
  {
    PlayFields(g, i, order);
    NextSeatStays(g.t.current, g.t.direction, |g.t.players|);
  }

  /** An Eight that does not end the round passes over the next player unless a Hold On is pending. */
  lemma EightSuspendsUnlessHeld(g: Game, i: nat, order: seq<Card>)
    requires Sound(g.t) && i < |g.t.players[g.t.current].hand|
    requires g.t.players[g.t.current].hand[i].value == Eight
    requires !SomeHandEmpty(Play(g, i, order).t.players)
    ensures var next := NextSeat(g.t.current, g.t.direction, |g.t.players|);
      Play(g, i, order).t.current == NextSeat(next, g.t.direction, |g.t.players|)
      <==> !g.playAgain || |g.t.players| == 1
  {
    PlayFields(g, i, order);
    NextSeatStays(g.t.current, g.t.direction, |g.t.players|);
  }
}
