/** Who gets which cards: dealing a round, and drawing. */
module Dealing {
  import opened Arith
  import opened Options
  import opened Cards
  import opened Decks
  import opened Players
  import opened Tables
  import opened Games
  import opened Accounting
  import opened Invariants

  // ---------- Drawing ----------

  /** The top n cards of a deck, topmost first. */
  function TopDown(deck: seq<Card>, n: nat): (cards: seq<Card>)
    requires n <= |deck|
    ensures |cards| == n && forall i :: 0 <= i < n ==> cards[i] == deck[|deck| - 1 - i]
  {
    if n == 0 then [] else [Last(deck)] + TopDown(Front(deck), n - 1)
  }

  function Min(a: int, b: int): int { if a < b then a else b }

  lemma {:induction false} DrawCardsTakesTop(t: Table, seat: nat, n: nat)
    requires seat < |t.players|
    ensures var m, u := Min(n, |t.deck|), DrawCards(t, seat, n);
      && u.deck == t.deck[..|t.deck| - m]
      && u.players[seat].hand == t.players[seat].hand + TopDown(t.deck, m)
    decreases n
  {
    if n > 0 && t.deck != [] {
      DrawCardsTakesTop(GiveTop(t, seat), seat, n - 1);
    } else {
      assert t.players[seat].hand + [] == t.players[seat].hand;
    }
  }

  /**
   An accepted draw pays the whole debt, or one card when there is none: the player on turn gets that
   many cards from the top of the deck, or as many as the deck holds once refilled, nobody else's hand
   changes, and the debt is gone.
   */
  lemma DrawPaysDebt(g: Game, a: Action, order: seq<Card>)
    requires Possible(g, Act(a, order)) && a.kind == DrawCard && Sound(g.t)
    ensures |Apply(g, a, order).t.players| == |g.t.players|
    ensures var owed := if g.t.pickCount > 0 then g.t.pickCount else 1;
      var deck, me, h := Refill(g.t, order).deck, g.t.current, Apply(g, a, order);
      var m := Min(owed, |deck|);
      && h.t.players[me].hand == g.t.players[me].hand + TopDown(deck, m)
      && h.t.deck == deck[..|deck| - m]
      && (forall i :: 0 <= i < |g.t.players| && i != me ==> h.t.players[i] == g.t.players[i])
      && h.t.pickCount == 0
  {
    var count := g.t.Situation().DrawCount(g.t.players[g.t.current].hand);
    DrawCardsTakesTop(Refill(g.t, order), g.t.current, count);
    DrawCardsFrame(Refill(g.t, order), g.t.current, count);
  }

  // ---------- Dealing round the table ----------

  /** The cards one seat gets when the deck is dealt to the listed seats in turn. */
  function Share(deck: seq<Card>, seats: seq<nat>, seat: nat): seq<Card>
    decreases |seats|
  {
    if seats == [] || deck == [] then []
    else (if seats[0] == seat then [Last(deck)] else []) + Share(Front(deck), seats[1..], seat)
  }

  lemma GiveTopShares(t: Table, to: nat, seat: nat)
    requires to < |t.players| && seat < |t.players| && t.deck != []
    ensures GiveTop(t, to).deck == Front(t.deck) && GiveTop(t, to).discard == t.discard
    ensures GiveTop(t, to).players[seat].hand ==
      t.players[seat].hand + if to == seat then [Last(t.deck)] else []
  {
  }

  lemma {:induction false} DealEachShares(t: Table, seats: seq<nat>, seat: nat)
    requires SeatsExist(t, seats) && t.discard == [] && seat < |t.players|
    ensures DealEach(t, seats, []).deck == t.deck[..|t.deck| - Min(|seats|, |t.deck|)]
    ensures DealEach(t, seats, []).players[seat].hand == t.players[seat].hand + Share(t.deck, seats, seat)
    decreases |seats|
  {
    if seats == [] {
    } else if t.deck == [] {
      DealEachShares(t, seats[1..], seat);
      assert GiveTop(Refill(t, []), seats[0]) == t;
    } else {
      hide GiveTop, Share;
      var next := GiveTop(t, seats[0]);
      GiveTopShares(t, seats[0], seat);
      DealEachShares(next, seats[1..], seat);
      DeckLeft(t.deck, |seats|);
      ShareFirst(t.deck, seats, seat, t.players[seat].hand);
    }
  }

  lemma ShareFirst(deck: seq<Card>, seats: seq<nat>, seat: nat, hand: seq<Card>)
    requires deck != [] && seats != []
    ensures hand + (if seats[0] == seat then [Last(deck)] else []) + Share(Front(deck), seats[1..], seat)
         == hand + Share(deck, seats, seat)
  {
  }

  lemma DeckLeft(deck: seq<Card>, n: nat)
    requires deck != [] && n > 0
    ensures Front(deck)[..|Front(deck)| - Min(n - 1, |Front(deck)|)] == deck[..|deck| - Min(n, |deck|)]
  {
  }

  /** How many of the first m seats listed are the given one. */
  function Times(seats: seq<nat>, m: nat, seat: nat): nat
    requires m <= |seats|
  {
    if m == 0 then 0 else (if seats[0] == seat then 1 else 0) + Times(seats[1..], m - 1, seat)
  }

  lemma {:induction false} ShareSize(deck: seq<Card>, seats: seq<nat>, seat: nat)
    ensures |Share(deck, seats, seat)| == Times(seats, Min(|seats|, |deck|), seat)
    decreases |seats|
  {
    if seats != [] && deck != [] {
      var m := Min(|seats|, |deck|);
      ShareSize(Front(deck), seats[1..], seat);
      assert Min(|seats[1..]|, |Front(deck)|) == m - 1;
      assert Times(seats, m, seat) == (if seats[0] == seat then 1 else 0) + Times(seats[1..], m - 1, seat);
    }
  }

  ghost predicate Distinct(s: seq<nat>) {
    forall i, j :: 0 <= i < j < |s| ==> s[i] != s[j]
  }

  /** Within one pass over distinct seats, seat number r is served once r is passed. */
  lemma {:induction false} TimesOnePass(seats: seq<nat>, rest: seq<nat>, m: nat, r: nat)
    requires Distinct(seats) && r < |seats| && m <= |seats|
    ensures Times(seats + rest, m, seats[r]) == if r < m then 1 else 0
    decreases m
  {
    if m > 0 {
      assert (seats + rest)[1..] == seats[1..] + rest;
      if r > 0 {
        TimesOnePass(seats[1..], rest, m - 1, r - 1);
      } else {
        TimesAbsent(seats[1..] + rest, m - 1, seats[0]);
      }
    }
  }

  lemma {:induction false} TimesAbsent(seats: seq<nat>, m: nat, seat: nat)
    requires m <= |seats| && seat !in seats[..m]
    ensures Times(seats, m, seat) == 0
    decreases m
  {
    if m > 0 {
      assert seats[..m][0] == seats[0] && seats[1..][..m - 1] == seats[..m][1..];
      TimesAbsent(seats[1..], m - 1, seat);
    }
  }

  lemma {:induction false} TimesSplit(a: seq<nat>, b: seq<nat>, m: nat, seat: nat)
    requires |a| <= m <= |a| + |b|
    ensures Times(a + b, m, seat) == Times(a, |a|, seat) + Times(b, m - |a|, seat)
    decreases |a|
  {
    if a == [] {
      assert a + b == b;
    } else {
      assert (a + b)[1..] == a[1..] + b;
      TimesSplit(a[1..], b, m - 1, seat);
    }
  }

  /** How often seat number r of k is served by m cards dealt round and round. */
  function Served(k: nat, m: nat, r: nat): nat
    requires k > 0
  {
    if m >= k then 1 + Served(k, m - k, r) else if r < m then 1 else 0
  }

  lemma {:induction false} RepeatLength(seats: seq<nat>, c: nat)
    ensures |Repeat(seats, c)| == c * |seats|
  {
    if c > 0 {
      RepeatLength(seats, c - 1);
      assert c * |seats| == (c - 1) * |seats| + |seats|;
    }
  }

  lemma {:induction false} RepeatServes(seats: seq<nat>, c: nat, m: nat, r: nat)
    requires Distinct(seats) && r < |seats| && m <= |Repeat(seats, c)|
    ensures Times(Repeat(seats, c), m, seats[r]) == Served(|seats|, m, r)
    decreases c
  {
    if c > 0 {
      var rest := Repeat(seats, c - 1);
      if m >= |seats| {
        TimesSplit(seats, rest, m, seats[r]);
        TimesOnePass(seats, [], |seats|, r);
        assert seats + [] == seats;
        RepeatServes(seats, c - 1, m - |seats|, r);
      } else {
        TimesOnePass(seats, rest, m, r);
      }
    }
  }

  /** Served evenly: everyone gets the quotient and the first seats one more, up to the remainder. */
  lemma {:induction false} ServedEvenly(k: nat, m: nat, r: nat)
    requires r < k
    ensures Served(k, m, r) == m / k + if r < m % k then 1 else 0
    decreases m
  {
    if m >= k {
      ServedEvenly(k, m - k, r);
      RemainderShift(m - k, k);
      QuotientShift(m - k, k);
    } else {
      SmallRemainder(m, k);
      SmallQuotient(m, k);
    }
  }

  // ---------- A deal in the middle of a round ----------

  /** How many cards a deal can hand out: the deck, and after it the discards a reshuffle takes back. */
  function Supply(t: Table): nat {
    |t.deck| + if t.call.Some? && t.discard != [] then |Kept(t.discard, t.call.value)| else 0
  }

  /** The cards of the supply, from the top of the deck down and on through the reshuffled discards. */
  function StockAt(t: Table, order: seq<Card>, r: nat): Card
    requires r < |t.deck| + |order|
  {
    if r < |t.deck| then t.deck[|t.deck| - 1 - r] else order[|order| - 1 - (r - |t.deck|)]
  }

  lemma SupplyIsStocked(t: Table, order: seq<Card>)
    requires CanShuffleTo(t, order)
    ensures Supply(t) <= |t.deck| + |order|
    ensures NeedsReshuffle(t) && t.call.Some? ==> Supply(t) == |order|
  {
    if t.call.Some? { SameSize(order, Kept(t.discard, t.call.value)); }
  }

  /** The order that matters after one card: none once the discards have been reshuffled. */
  function OrderAfter(t: Table, order: seq<Card>): seq<Card> {
    if NeedsReshuffle(t) && t.call.Some? then [] else order
  }

  /** One dealt card is the first of the supply, if there is any, and the rest moves up. */
  ghost predicate TakesFirst(t: Table, seat: nat, order: seq<Card>, u: Table, rest: seq<Card>)
    requires seat < |t.players| && Supply(t) <= |t.deck| + |order|
  {
    && |u.players| == |t.players|
    && CanShuffleTo(u, rest)
    && Supply(u) == (if Supply(t) == 0 then 0 else Supply(t) - 1) && Supply(u) <= |u.deck| + |rest|
    && u.players[seat].hand == t.players[seat].hand + (if Supply(t) == 0 then [] else [StockAt(t, order, 0)])
    && (forall r :: 0 <= r < Supply(u) ==> StockAt(u, rest, r) == StockAt(t, order, r + 1))
    && (forall j :: 0 <= j < |t.players| && j != seat ==> u.players[j] == t.players[j])
  }

  lemma SupplyFalls(t: Table, seat: nat, order: seq<Card>)
    requires seat < |t.players| && CanShuffleTo(t, order)
    ensures Supply(t) <= |t.deck| + |order|
    ensures TakesFirst(t, seat, order, GiveTop(Refill(t, order), seat), OrderAfter(t, order))
  {
    SupplyIsStocked(t, order);
    if t.deck != [] {
      TakesFromDeck(t, seat, order);
    } else if t.discard != [] && t.call.Some? {
      TakesFromRefill(t, seat, order);
    } else {
      assert t.players[seat].hand + [] == t.players[seat].hand;
    }
  }

  lemma TakesFromDeck(t: Table, seat: nat, order: seq<Card>)
    requires seat < |t.players| && CanShuffleTo(t, order) && t.deck != [] && Supply(t) <= |t.deck| + |order|
    ensures TakesFirst(t, seat, order, GiveTop(t, seat), order)
  {
    hide Kept;
  }

  lemma TakesFromRefill(t: Table, seat: nat, order: seq<Card>)
    requires seat < |t.players| && CanShuffleTo(t, order) && NeedsReshuffle(t) && t.call.Some?
    requires Supply(t) == |order|
    ensures TakesFirst(t, seat, order, GiveTop(Refill(t, order), seat), [])
  {
    hide CanShuffleTo;
    var u := GiveTop(Refill(t, order), seat);
    NothingToShuffle(u);
    if order == [] { assert t.players[seat].hand + [] == t.players[seat].hand; }
  }

  lemma NothingToShuffle(t: Table)
    requires t.discard == []
    ensures CanShuffleTo(t, [])
  {
  }

  /** A deal to distinct seats gives seat number r the card number r of the supply, if there are so many. */
  lemma {:induction false} DealEachGives(t: Table, seats: seq<nat>, order: seq<Card>, r: nat)
    requires SeatsExist(t, seats) && Distinct(seats) && r < |seats| && CanShuffleTo(t, order)
    ensures Supply(t) <= |t.deck| + |order|
    ensures DealEach(t, seats, order).players[seats[r]].hand
         == t.players[seats[r]].hand + if r < Supply(t) then [StockAt(t, order, r)] else []
    decreases |seats|
  {
    hide GiveTop, Supply, StockAt, CanShuffleTo, OrderAfter;
    var next := GiveTop(Refill(t, order), seats[0]);
    SupplyFalls(t, seats[0], order);
    if r == 0 {
      DealEachFrame(next, seats[1..], order);
    } else {
      DealEachGives(next, seats[1..], OrderAfter(t, order), r - 1);
      OrderAfterEnough(t, seats, order);
    }
  }

  lemma OrderAfterEnough(t: Table, seats: seq<nat>, order: seq<Card>)
    requires SeatsExist(t, seats) && seats != []
    ensures var next := GiveTop(Refill(t, order), seats[0]);
      DealEach(next, seats[1..], OrderAfter(t, order)) == DealEach(t, seats, order)
  {
    var next := GiveTop(Refill(t, order), seats[0]);
    if NeedsReshuffle(t) && t.call.Some? { NoDiscardNoOrder(next, seats[1..], order); }
  }

  /** So it reaches seat number r exactly when the supply is more than r cards. */
  lemma DealEachReaches(t: Table, seats: seq<nat>, order: seq<Card>, r: nat)
    requires SeatsExist(t, seats) && Distinct(seats) && r < |seats| && CanShuffleTo(t, order)
    ensures |DealEach(t, seats, order).players[seats[r]].hand|
         == |t.players[seats[r]].hand| + if r < Supply(t) then 1 else 0
  {
    DealEachGives(t, seats, order, r);
  }

  // ---------- Active seats ----------

  lemma {:induction false} ActiveSeatsAre(players: seq<PlayerData>)
    ensures var seats := ActiveSeats(players);
      && Distinct(seats)
      && (forall j: nat :: j in seats <==> j < |players| && players[j].status == Active)
      && (forall j :: 0 <= j < |seats| ==> seats[j] < |players|)
      && (forall i, j :: 0 <= i < j < |seats| ==> seats[i] < seats[j])
  {
    if players != [] {
      ActiveSeatsAre(Front(players));
      var n := |players| - 1;
      var before := ActiveSeats(Front(players));
      assert forall j: nat :: j in ActiveSeats(players) <==>
        j in before || (j == n && players[n].status == Active);
    }
  }

  ghost predicate AllActive(players: seq<PlayerData>) {
    forall i :: 0 <= i < |players| ==> players[i].status == Active
  }

  lemma {:induction false} AllSeatsActive(players: seq<PlayerData>)
    requires AllActive(players)
    ensures ActiveSeats(players) == seq(|players|, i => i)
  {
    if players != [] {
      AllSeatsActive(Front(players));
    }
  }

  lemma {:induction false} SameStatusSameSeats(ps: seq<PlayerData>, qs: seq<PlayerData>)
    requires |ps| == |qs| && forall i :: 0 <= i < |ps| ==> ps[i].status == qs[i].status
    ensures ActiveSeats(ps) == ActiveSeats(qs)
  {
    if ps != [] {
      SameStatusSameSeats(Front(ps), Front(qs));
    }
  }

  // ---------- The deal that opens a round ----------

  /** How many cards a deal hands out: everyone's starting cards, or the whole deck if that is less. */
  function DealtInAll(k: nat, c: int): nat {
    if c <= 0 then 0 else if c * k < STANDARD_DECK_SIZE then c * k else STANDARD_DECK_SIZE
  }

  /** The hands and the deck once everyone is dealt to, before the call card is turned. */
  lemma DealOut(t: Table, order: seq<Card>, j: nat)
    requires IsStandardDeck(order) && j < |t.players|
    ensures var all, u := Repeat(ActiveSeats(t.players), t.config.startingCards), StartRound(t, order);
      var m := Min(|all|, STANDARD_DECK_SIZE);
      && u.players[j].hand == t.players[j].hand + Share(order, all, j)
      && |Share(order, all, j)| == Times(all, m, j)
      && |u.deck| + (if u.call.Some? then 1 else 0) + m == STANDARD_DECK_SIZE
      && (u.call.Some? <==> m < STANDARD_DECK_SIZE)
      && (m < STANDARD_DECK_SIZE ==>
            u.call == Some(order[STANDARD_DECK_SIZE - 1 - m]) && u.deck == order[..STANDARD_DECK_SIZE - 1 - m])
  {
    hide OpenRound, DealEach, IsStandardDeck, Repeat, Share, Times, FlipCall, ActiveSeats;
    var all := Repeat(ActiveSeats(t.players), t.config.startingCards);
    StandardSize(order);
    BeforeFlip(t, order, j);
    ShareSize(order, all, j);
    FlipTakes(DealEach(OpenRound(t, order), all, []), order, Min(|all|, STANDARD_DECK_SIZE));
  }

  lemma OpenRoundIs(t: Table, order: seq<Card>)
    ensures var open := OpenRound(t, order);
      && open.deck == order && open.discard == [] && open.call.None? && open.config == t.config
      && |open.players| == |t.players|
      && forall j :: 0 <= j < |t.players| ==>
           open.players[j].hand == t.players[j].hand && open.players[j].status == t.players[j].status
  {
  }

  lemma BeforeFlip(t: Table, order: seq<Card>, j: nat)
    requires |order| == STANDARD_DECK_SIZE && j < |t.players|
    ensures SeatsExist(OpenRound(t, order), Repeat(ActiveSeats(t.players), t.config.startingCards))
    ensures var open, all := OpenRound(t, order), Repeat(ActiveSeats(t.players), t.config.startingCards);
      var dealt := DealEach(open, all, []);
      && ActiveSeats(open.players) == ActiveSeats(t.players) && open.config == t.config
      && |dealt.players| == |t.players| && dealt.call.None?
      && dealt.deck == order[..STANDARD_DECK_SIZE - Min(|all|, STANDARD_DECK_SIZE)]
      && dealt.players[j].hand == t.players[j].hand + Share(order, all, j)
  {
    hide DealEach, Share, OpenRound, Repeat;
    var open := OpenRound(t, order);
    OpenRoundIs(t, order);
    SameStatusSameSeats(open.players, t.players);
    hide ActiveSeats;
    var all := Repeat(ActiveSeats(t.players), t.config.startingCards);
    DealEachShares(open, all, j);
    DealEachFrame(open, all, []);
  }

  lemma StandardSize(order: seq<Card>)
    requires IsStandardDeck(order)
    ensures |order| == STANDARD_DECK_SIZE
  {
  }

  /** Turning the call card takes the next card of the deck. */
  lemma FlipTakes(t: Table, order: seq<Card>, m: nat)
    requires m <= |order| == STANDARD_DECK_SIZE && t.deck == order[..STANDARD_DECK_SIZE - m] && t.call.None?
    ensures var u := FlipCall(t);
      && u.players == t.players && |u.deck| + (if u.call.Some? then 1 else 0) + m == STANDARD_DECK_SIZE
      && (u.call.Some? <==> m < STANDARD_DECK_SIZE)
      && (m < STANDARD_DECK_SIZE ==>
            u.call == Some(order[STANDARD_DECK_SIZE - 1 - m]) && u.deck == order[..STANDARD_DECK_SIZE - 1 - m])
  {
  }

  /**
   The deal is fair: with k active players and c starting cards, active player number r gets the
   quotient of the cards dealt by k, plus one for the first players up to the remainder; a call card
   is turned exactly when the deck is not used up.
   */
  lemma FairDeal(t: Table, order: seq<Card>, r: nat)
    requires IsStandardDeck(order)
    requires r < |ActiveSeats(t.players)|
    ensures var seats, u := ActiveSeats(t.players), StartRound(t, order);
      var k, c, j := |seats|, t.config.startingCards, seats[r];
      var m := DealtInAll(k, c);
      && u.players[j].hand == t.players[j].hand + Share(order, Repeat(seats, c), j)
      && |Share(order, Repeat(seats, c), j)| == m / k + (if r < m % k then 1 else 0)
      && |u.deck| + (if u.call.Some? then 1 else 0) + m == STANDARD_DECK_SIZE
      && (u.call.Some? <==> c <= 0 || c * k < STANDARD_DECK_SIZE)
      && (u.call.Some? ==>
            m < STANDARD_DECK_SIZE
            && u.call == Some(order[STANDARD_DECK_SIZE - 1 - m]) && u.deck == order[..STANDARD_DECK_SIZE - 1 - m])
  {
    hide StartRound, IsStandardDeck, Share;
    var seats := ActiveSeats(t.players);
    var k, c := |seats|, t.config.startingCards;
    DealOut(t, order, seats[r]);
    if c > 0 {
      ActiveSeatsAre(t.players);
      RepeatLength(seats, c);
      RepeatServes(seats, c, DealtInAll(k, c), r);
    }
    ServedEvenly(k, DealtInAll(k, c), r);
  }

  /** The deck after so many cards, or all there are. */
  function Left(deck: seq<Card>, n: nat): seq<Card> { deck[..|deck| - Min(n, |deck|)] }

  /** Seats that come first and are not the given one only use up cards. */
  lemma {:induction false} ShareSkips(deck: seq<Card>, a: seq<nat>, rest: seq<nat>, seat: nat)
    requires seat !in a
    ensures Share(deck, a + rest, seat) == Share(Left(deck, |a|), rest, seat)
    decreases |a|
  {
    if a == [] {
      assert a + rest == rest && Left(deck, 0) == deck;
    } else if deck != [] {
      assert (a + rest)[1..] == a[1..] + rest;
      ShareSkips(Front(deck), a[1..], rest, seat);
      assert Left(Front(deck), |a| - 1) == Left(deck, |a|);
    }
  }

  /** One pass over distinct seats gives seat number r card number r. */
  lemma ShareOnePass(deck: seq<Card>, seats: seq<nat>, rest: seq<nat>, r: nat)
    requires Distinct(seats) && r < |seats|
    ensures Share(deck, seats + rest, seats[r])
         == if r < |deck| then [deck[|deck| - 1 - r]] + Share(Left(deck, |seats|), rest, seats[r]) else []
  {
    var after := seats[r + 1..] + rest;
    assert seats + rest == seats[..r] + ([seats[r]] + after);
    ShareSkips(deck, seats[..r], [seats[r]] + after, seats[r]);
    var left := Left(deck, r);
    assert ([seats[r]] + after)[1..] == after;
    if left != [] {
      ShareSkips(Front(left), seats[r + 1..], rest, seats[r]);
      assert Left(Front(left), |seats| - r - 1) == Left(deck, |seats|);
    }
  }

  /** Which card of the deck is card number q of seat number r of k, dealing round and round. */
  function CardNumber(q: nat, k: nat, r: nat): nat { q * k + r }

  lemma CardNumbers(q: nat, k: nat, r: nat)
    ensures CardNumber(0, k, r) == r && CardNumber(q + 1, k, r) == CardNumber(q, k, r) + k
  {
    OneTimeMore(q, k);
    NoTimes(k);
  }

  /** The cards of a share, one by one. */
  lemma {:induction false} ShareAt(deck: seq<Card>, seats: seq<nat>, c: int, r: nat, q: nat)
    requires Distinct(seats) && r < |seats| && q < |Share(deck, Repeat(seats, c), seats[r])|
    ensures CardNumber(q, |seats|, r) < |deck|
    ensures Share(deck, Repeat(seats, c), seats[r])[q] == deck[|deck| - 1 - CardNumber(q, |seats|, r)]
    decreases c
  {
    RepeatOnce(seats, c);
    if c > 0 {
      ShareOnePass(deck, seats, Repeat(seats, c - 1), r);
      LeftIs(deck, |seats|);
      hide Share, Repeat, Left, Distinct, CardNumber;
      if q > 0 {
        ShareOfNothing(Repeat(seats, c - 1), seats[r]);
        ShareAt(Left(deck, |seats|), seats, c - 1, r, q - 1);
        CardNumbers(q - 1, |seats|, r);
      } else {
        CardNumbers(0, |seats|, r);
      }
    }
  }

  lemma RepeatOnce(seats: seq<nat>, c: int)
    ensures c > 0 ==> Repeat(seats, c) == seats + Repeat(seats, c - 1)
    ensures c <= 0 ==> Repeat(seats, c) == []
  {
  }

  lemma LeftIs(deck: seq<Card>, n: nat)
    ensures |Left(deck, n)| == if n < |deck| then |deck| - n else 0
    ensures forall i :: 0 <= i < |Left(deck, n)| ==> Left(deck, n)[i] == deck[i]
  {
  }

  lemma ShareOfNothing(seats: seq<nat>, seat: nat)
    ensures Share([], seats, seat) == []
  {
  }

  /** Which cards a player is dealt: every k-th from the top of the deck, from the player's own number on. */
  lemma DealtCards(t: Table, order: seq<Card>, r: nat, q: nat)
    requires IsStandardDeck(order) && r < |ActiveSeats(t.players)|
    requires var j := ActiveSeats(t.players)[r];
      |t.players[j].hand| + q < |StartRound(t, order).players[j].hand|
    ensures var seats := ActiveSeats(t.players);
      && CardNumber(q, |seats|, r) < STANDARD_DECK_SIZE
      && StartRound(t, order).players[seats[r]].hand[|t.players[seats[r]].hand| + q]
         == order[STANDARD_DECK_SIZE - 1 - CardNumber(q, |seats|, r)]
  {
    hide StartRound, Share, CardNumber, ActiveSeats, Distinct, Repeat, DealtInAll, IsStandardDeck;
    ActiveSeatsAre(t.players);
    StandardSize(order);
    DealOut(t, order, ActiveSeats(t.players)[r]);
    ShareAt(order, ActiveSeats(t.players), t.config.startingCards, r, q);
  }

  /** Nobody who is not active is dealt a card. */
  lemma InactiveGetNothing(t: Table, order: seq<Card>, j: nat)
    requires j < |t.players| && t.players[j].status != Active
    ensures StartRound(t, order).players[j] == t.players[j]
  {
    var open := OpenRound(t, order);
    ActiveSeatsAre(open.players);
    DealEachFrame(open, Repeat(ActiveSeats(open.players), t.config.startingCards), []);
  }

  /** After the deal a player holds a card exactly when they kept one or the deal reached their seat. */
  lemma HoldsACardExactly(t: Table, order: seq<Card>, r: nat)
    requires IsStandardDeck(order) && AllActive(t.players) && r < |t.players|
    ensures StartRound(t, order).players[r].hand != []
      <==> t.players[r].hand != [] || r < DealtInAll(|t.players|, t.config.startingCards)
  {
    hide StartRound, Share;
    AllSeatsActive(t.players);
    FairDeal(t, order, r);
    ReachesSeat(|t.players|, DealtInAll(|t.players|, t.config.startingCards), r);
  }

  lemma ReachesSeat(k: nat, m: nat, r: nat)
    requires r < k
    ensures m / k + (if r < m % k then 1 else 0) > 0 <==> r < m
  {
    if m < k {
      SmallRemainder(m, k);
      SmallQuotient(m, k);
    } else {
      QuotientAtLeastOne(m, k);
    }
  }

  /** With a starting card each and no more players than cards, nobody starts empty-handed. */
  lemma EveryoneHoldsACard(t: Table, order: seq<Card>)
    requires IsStandardDeck(order) && AllActive(t.players)
    requires t.config.startingCards >= 1 && |t.players| <= STANDARD_DECK_SIZE
    ensures !SomeHandEmpty(StartRound(t, order).players)
  {
    hide StartRound;
    var k := |t.players|;
    forall r | 0 <= r < k ensures StartRound(t, order).players[r].hand != [] {
      HoldsACardExactly(t, order, r);
      MulAtLeast(k, t.config.startingCards);
    }
  }
}
