/** Orders a message has nothing to do with: what neither rests nor is named stays as it is, so parked
orders sit out the continuous market (src/server.c). */
module Bystanders {
  import opened Machine
  import opened Book
  import opened BookFacts
  import opened BookRuns
  import opened Weights
  import opened Settle
  import opened SettlePair
  import opened Ledger
  import opened Desk
  import opened PairDesk

  /** A message leaves an order alone that does not rest and is not the message's own. */
  lemma MessageSpares(s: Sides, table: Table, id: u32, x: u32)
    requires SoundSides(s) && Agrees(s, table) && Settleable(s, table, id)
    requires x in table && x != id && Count(s.bids + s.asks, x) == 0
    ensures var m := Message(s, table, id); var now := AfterMessage(table, id, m.fills);
            Count(m.sides.bids + m.sides.asks, x) == 0 && x in now && now[x] == table[x]
  {
    hide Message, AfterFills, WeighSides, WeighFills, SoundSides, Agrees;
    var m := Message(s, table, id);
    forall f | f in m.fills
      ensures f.id != x
    {
      MessageFillOk(s, table, id, f);
    }
    NoFillsOf(m.fills, x);
    MakerAfter(table, m.fills, id, x);
    FillsKeepTerms(table, m.fills, id);
    AfterMessageTerms(table, id, m.fills);
    MessageConserves(s, table, id, Only(x));
    MessageAgrees(s, table, id);
    StillAway(s, m.sides, table, AfterMessage(table, id, m.fills), x);
  }

  /** An order with no shares in the book before and none more after is not in the book. */
  lemma StillAway(s: Sides, after: Sides, table: Table, now: Table, x: u32)
    requires SoundSides(s) && Agrees(s, table) && SoundSides(after) && Agrees(after, now)
    requires Count(s.bids + s.asks, x) == 0 && WeighSides(after, Only(x)) <= WeighSides(s, Only(x))
    ensures Count(after.bids + after.asks, x) == 0
  {
    HeldQuantity(s, table, x);
    HeldQuantity(after, now, x);
  }

  lemma PairSpares(s: Sides, table: Table, bidId: u32, askId: u32, taker: u32, x: u32)
    requires SoundSides(s) && Agrees(s, table) && PairSettleable(s, table, bidId, askId)
    requires TakerOf(s, table, bidId, askId, taker)
    requires x in table && x != bidId && x != askId && Count(s.bids + s.asks, x) == 0
    ensures var m := PairMessage(s, table, bidId, askId); var now := AfterPair(table, bidId, askId, m.fills, taker);
            Count(m.sides.bids + m.sides.asks, x) == 0 && x in now && now[x] == table[x]
  {
    hide PairMessage, AfterFills, WeighSides, WeighFills, SoundSides, Agrees, First, Second;
    var m := PairMessage(s, table, bidId, askId);
    var f1, f2 := First(s, table, bidId, askId).fills, Second(s, table, bidId, askId).fills;
    AgreesQuoted(s, table);
    PairConserves(s, table, bidId, askId, Only(x));
    HeldAway(s, table, x);
    PairIs(s, table, bidId, askId);
    WeighFillsConcat(f1, f2, Only(x));
    MakerAfter(table, m.fills, taker, x);
    FillsKeepTerms(table, m.fills, taker);
    PairTargetRests(s, table, bidId, askId, x);
    AfterPairTerms(table, bidId, askId, m.fills, taker);
    PairAgrees(s, table, bidId, askId, taker);
    StillAway(s, m.sides, table, AfterPair(table, bidId, askId, m.fills, taker), x);
  }

  lemma HeldAway(s: Sides, table: Table, x: u32)
    requires SoundSides(s) && Agrees(s, table) && Count(s.bids + s.asks, x) == 0
    ensures WeighSides(s, Only(x)) == 0
  {
    HeldQuantity(s, table, x);
  }

  lemma PairTargetRests(s: Sides, table: Table, bidId: u32, askId: u32, x: u32)
    requires PairSettleable(s, table, bidId, askId) && Count(s.bids + s.asks, x) == 0
    ensures table[bidId].Pulls() ==> table[bidId].otherId != x
    ensures table[askId].Pulls() ==> table[askId].otherId != x
  {
  }

  /** Orders that do not rest can change, come or go without book, table and reserves losing step. */
  lemma InStepApart(s: Sides, was: Table, now: Table, a: seq<Account>, held: Holds)
    requires InStep(s, was, a, held)
    requires forall x | x in was && Count(s.bids + s.asks, x) > 0 :: x in now && now[x] == was[x]
    ensures InStep(s, now, a, held)
  {
    hide ReserveOk;
    forall l, e | l in s.bids + s.asks && e in l.orders
      ensures e.id in was && e.id in now && now[e.id] == was[e.id]
    {
      LevelResting(s.bids + s.asks, l, e);
    }
    RestingSame(s.bids, s.asks, was, now);
    forall c | 0 <= c < |a|
      ensures ReserveOk(a[c], c, s, now, held)
    {
      ReserveApart(a[c], c, s, was, now, held);
    }
  }

  lemma ReserveApart(x: Account, c: nat, s: Sides, was: Table, now: Table, held: Holds)
    requires ReserveOk(x, c, s, was, held)
    requires forall l, e | l in s.bids && e in l.orders :: e.id in was && e.id in now && now[e.id] == was[e.id]
    requires forall l, e | l in s.asks && e in l.orders :: e.id in was && e.id in now && now[e.id] == was[e.id]
    ensures ReserveOk(x, c, s, now, held)
  {
    SameLevelWeights(s.bids, BidValue(c, was), BidValue(c, now));
    SameLevelWeights(s.asks, BidValue(c, was), BidValue(c, now));
    SameLevelWeights(s.bids, AskShares(c, was), AskShares(c, now));
    SameLevelWeights(s.asks, AskShares(c, was), AskShares(c, now));
  }

  lemma RestingSame(bids: seq<Level>, asks: seq<Level>, was: Table, now: Table)
    requires forall l, e | l in bids + asks && e in l.orders :: e.id in was && e.id in now && now[e.id] == was[e.id]
    ensures forall l, e | l in bids && e in l.orders :: e.id in was && e.id in now && now[e.id] == was[e.id]
    ensures forall l, e | l in asks && e in l.orders :: e.id in was && e.id in now && now[e.id] == was[e.id]
  {
    assert forall l | l in bids :: l in bids + asks;
    assert forall l | l in asks :: l in bids + asks;
  }

  /** Only what is held counts, not how it is put. */
  lemma InStepSame(s: Sides, orders: Table, a: seq<Account>, held: Holds, same: Holds)
    requires InStep(s, orders, a, held) && forall c: nat :: same(c) == held(c)
    ensures InStep(s, orders, a, same)
  {
    forall c | 0 <= c < |a|
      ensures ReserveOk(a[c], c, s, orders, same)
    {
      assert ReserveOk(a[c], c, s, orders, held);
    }
  }

  /** Emptying an order in the table leaves book and table in agreement if and only if it does not rest. */
  lemma EmptiedAgrees(s: Sides, table: Table, x: u32)
    requires SoundSides(s) && Agrees(s, table)
    ensures Agrees(s, Emptied(table, x)) <==> Count(s.bids + s.asks, x) == 0
  {
    if Count(s.bids + s.asks, x) == 0 {
      forall l, e | l in s.bids + s.asks && e in l.orders
        ensures e.id != x
      {
        LevelResting(s.bids + s.asks, l, e);
      }
      RestingElse(s, x);
    } else {
      HeldQuantity(s, table, x);
      if Agrees(s, Emptied(table, x)) {
        HeldQuantity(s, Emptied(table, x), x);
      }
    }
  }

  /** A bid that rests since yesterday, cancelled in the opening window: the book still shows its ten
  shares, the table none. */
  lemma CancelBreaks()
    ensures var s := Sides([At(50, [Entry(9, 10)])], []);
            var table: Table := map[9 := Order(0, 50, 10, true, false, false, false, false, false, 0)];
            Agrees(s, table) && !Agrees(s, Emptied(table, 9))
  {
    var orders := [Entry(9, 10)];
    var levels := [At(50, orders)];
    assert levels[0] in levels && orders[0] in orders && levels + [] == levels;
  }

  lemma RestingElse(s: Sides, x: u32)
    requires forall l, e | l in s.bids + s.asks && e in l.orders :: e.id != x
    ensures (forall l, e | l in s.bids && e in l.orders :: e.id != x) && forall l, e | l in s.asks && e in l.orders :: e.id != x
  {
    assert forall l | l in s.bids :: l in s.bids + s.asks;
    assert forall l | l in s.asks :: l in s.bids + s.asks;
  }
}
