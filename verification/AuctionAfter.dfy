/** What the cross leaves behind: with no book in the way, nobody is left who would still trade. */
module AuctionAfter {
  import opened Machine
  import opened Book
  import opened BookFacts
  import opened BookRuns
  import opened Weights
  import opened Settle
  import opened AuctionStep
  import opened AuctionBook
  import opened Ranges
  import opened FirstLeg
  import opened LegWalk
  import opened AuctionFill
  import opened AuctionPark
  import opened AuctionSide
  import opened Auctioneer
  import W = AuctionWalk

  /** A lot priced below p counts at its own price and not at p. */
  lemma {:induction false} AboveStrict(lots: seq<W.Lot>, i: nat, p: int)
    requires i < |lots| && lots[i].price < p
    ensures W.AtOrAbove(lots, lots[i].price) >= W.AtOrAbove(lots, p) + lots[i].shares
  {
    if i == 0 {
      W.CurvesMonotone(lots[1..], lots[0].price, p);
    } else {
      AboveStrict(lots[1..], i - 1, p);
    }
  }

  lemma {:induction false} BelowStrict(lots: seq<W.Lot>, i: nat, p: int)
    requires i < |lots| && p < lots[i].price
    ensures W.AtOrBelow(lots, lots[i].price) >= W.AtOrBelow(lots, p) + lots[i].shares
  {
    if i == 0 {
      W.CurvesMonotone(lots[1..], p, lots[0].price);
    } else {
      BelowStrict(lots[1..], i - 1, p);
    }
  }

  /** The front of the line counts in full at the price of its last order. */
  lemma {:induction false} FrontCounts(best: seq<u32>, table: Table, n: nat, price: u16, isBuy: bool)
    requires n <= |best| && forall i | 0 <= i < n :: Reaches(table, best[i], price, isBuy)
    ensures Waiting(best[..n], table) <= if isBuy then W.AtOrAbove(Lots(best, table), price) else W.AtOrBelow(Lots(best, table), price)
  {
    if n > 0 {
      assert best[..n][1..] == best[1..][..n - 1];
      FrontCounts(best[1..], table, n - 1, price, isBuy);
    }
  }

  /** An order with something left, the i-th best of its side: more than the matched volume wanted to
  trade at its price. */
  lemma LeftOver(markets: seq<u32>, best: seq<u32>, table: Table, clearing: u16, isBuy: bool, matched: nat, i: nat)
    requires BestFirst(best, table, isBuy) && DistinctIds(markets + best) && i < |best|
    requires forall id | id in markets + best :: id in table
    requires matched <= Waiting(markets, table) + CountAt(best, table, clearing, isBuy)
    requires var now := Served(Line(markets, best, table, clearing, isBuy), table, matched);
             best[i] in now && now[best[i]].quantity > 0
    ensures matched < Waiting(markets, table) + CountAt(best, table, table[best[i]].price, isBuy)
  {
    hide Served, Lots, Waiting;
    var limits, line := CrossingLimits(best, table, clearing, isBuy), Line(markets, best, table, clearing, isBuy);
    CrossingPrefix(best, table, clearing, isBuy);
    assert line == (markets + best)[..|markets| + |limits|];
    var k := |markets| + i;
    if i < |limits| {
      assert line[k] == best[i];
      ServedAt(line, table, matched, k);
      assert line[..k] == markets + best[..i];
      FrontWaits(markets, best, i, table);
      FrontCounts(best, table, i + 1, table[best[i]].price, isBuy);
    } else {
      NotReached(markets, best, table, clearing, isBuy, matched, i, |limits|);
    }
  }

  lemma FrontWaits(markets: seq<u32>, best: seq<u32>, i: nat, table: Table)
    requires i < |best|
    ensures Waiting(markets + best[..i], table) + Quantity(table, best[i]) == Waiting(markets, table) + Waiting(best[..i + 1], table)
  {
    WaitingConcat(markets, best[..i], table);
    assert best[..i + 1] == best[..i] + [best[i]] && [best[i]][1..] == [];
    WaitingConcat(best[..i], [best[i]], table);
  }

  /** How many shares a side's limits count at a price. */
  function CountAt(best: seq<u32>, table: Table, price: u16, isBuy: bool): nat {
    if isBuy then W.AtOrAbove(Lots(best, table), price) else W.AtOrBelow(Lots(best, table), price)
  }

  /** An order past the last that crosses adds to the count at its own price. */
  lemma NotReached(markets: seq<u32>, best: seq<u32>, table: Table, clearing: u16, isBuy: bool, matched: nat, i: nat, n: nat)
    requires BestFirst(best, table, isBuy) && DistinctIds(markets + best) && n <= i < |best|
    requires n == |CrossingLimits(best, table, clearing, isBuy)| && !Reaches(table, best[n], clearing, isBuy)
    requires forall id | id in markets + best :: id in table
    requires matched <= Waiting(markets, table) + CountAt(best, table, clearing, isBuy)
    requires var now := Served(Line(markets, best, table, clearing, isBuy), table, matched);
             best[i] in now && now[best[i]].quantity > 0
    ensures matched < Waiting(markets, table) + CountAt(best, table, table[best[i]].price, isBuy)
  {
    var line := Line(markets, best, table, clearing, isBuy);
    CrossingPrefix(best, table, clearing, isBuy);
    assert (markets + best)[|markets| + i] == best[i] && best[i] in best && best[n] in best;
    assert forall j | 0 <= j < |line| :: line[j] == (markets + best)[j];
    ServedApart(line, table, matched, best[i]);
    LotsAt(best, table, i);
    if isBuy {
      AboveStrict(Lots(best, table), i, clearing);
    } else {
      BelowStrict(Lots(best, table), i, clearing);
    }
  }

  /** When the book gives nothing to the cross, an empty one above all, no parked bid with shares left
  is priced at or above a parked ask with shares left. */
  lemma NoCrossLeft(l: Lists, table: Table, levels: seq<Level>, bids: nat, mark: u16, clearing: u16, matched: nat,
                    takerId: u32, b: nat, a: nat)
    requires Parked(l, table, levels) && bids <= |levels|
    requires W.Cleared(CurvesOf(l, table, levels, bids), mark, clearing, matched)
    requires Min(InReach(levels, bids, false, clearing), matched) == 0
    requires Min(InReach(levels, bids, true, clearing), matched) == 0
    requires b < |l.bidSorted| && a < |l.askSorted|
    requires var now := CrossedOrders(l, table, SidesOf(levels, bids), matched, 0, 0, clearing, takerId);
             && l.bidSorted[b] in now && now[l.bidSorted[b]].quantity > 0
             && l.askSorted[a] in now && now[l.askSorted[a]].quantity > 0
    ensures l.bidSorted[b] in table && l.askSorted[a] in table && table[l.bidSorted[b]].price < table[l.askSorted[a]].price
  {
    hide Served, Waiting, Reversed, DistinctIds, BestFirst, CrossingLimits, CrossedOrders;
    NoBookPart(l, table, SidesOf(levels, bids), matched, clearing, takerId);
    var c := CurvesOf(l, table, levels, bids);
    var bid, ask := l.bidSorted[b], l.askSorted[a];
    var best, i := Reversed(l.bidSorted), |l.bidSorted| - 1 - b;
    assert best[i] == bid && bid in l.marketBids + l.bidSorted && ask in l.marketAsks + l.askSorted;
    BothReach(c, clearing, matched);
    SidesServed(l, table, levels, matched, clearing, bid, ask);
    BestIds(l.bidSorted, true);
    AboveReversed(l.bidSorted, table, clearing);
    AboveReversed(l.bidSorted, table, table[bid].price);
    LeftOver(l.marketBids, best, table, clearing, true, matched, i);
    LeftOver(l.marketAsks, l.askSorted, table, clearing, false, matched, a);
    W.DemandSupplyMonotone(c, table[ask].price,
                           if table[bid].price < table[ask].price then table[ask].price else table[bid].price);
    assert W.Crossed(c, table[ask].price) <= matched;
  }

  // ---------- The book goes first ----------

  const PARKED: Table := map[1 := Order(0, 60, 10, true, false, false, false, false, false, 0),
                             2 := Order(1, 50, 10, false, false, false, false, false, false, 0),
                             3 := Order(1, 55, 10, false, false, false, false, false, false, 0),
                             9 := Order(2, 50, 10, true, false, false, false, false, false, 0)]

  /** When it does give something, it goes ahead of better prices: a resting bid at 50 takes the only ask
  that reaches the clearing price, and a parked bid at 60 is left with a parked ask at 55. */
  lemma CrossLeft()
    ensures var l, levels := Lists([], [], [1], [2, 3]), [At(50, [Entry(9, 10)])];
            && Sound(levels) && Parked(l, PARKED, levels) && (forall mark :: W.Cleared(CurvesOf(l, PARKED, levels, 1), mark, 50, 10))
            && InReach(levels, 1, false, 50) == 10 && InReach(levels, 1, true, 50) == 0
            && forall takerId: u32 :: var now := CrossedOrders(l, PARKED, SidesOf(levels, 1), 10, 10, 0, 50, takerId);
                                      1 in now && 3 in now && now[1].quantity == 10 && now[3].quantity == 10
  {
    hide Parked, CrossedOrders, Sound, Count, CurvesOf, W.Cleared, W.AtOrAbove, W.AtOrBelow;
    var l, levels := Lists([], [], [1], [2, 3]), [At(50, [Entry(9, 10)])];
    OneLevel(levels[0], 9, 10, 50);
    ThreeParked(1, 2, 3, PARKED, levels);
    InstanceCurves(l, levels);
    InstanceVolume();
    forall takerId: u32
      ensures var now := CrossedOrders(l, PARKED, SidesOf(levels, 1), 10, 10, 0, 50, takerId);
              1 in now && 3 in now && now[1].quantity == 10 && now[3].quantity == 10
    {
      InstanceServed(l, levels, takerId);
    }
  }

  const INSTANCE := W.Curves([W.Lot(60, 10)], [W.Lot(50, 10), W.Lot(55, 10)], [W.Lot(50, 10)], [], 0, 0)

  lemma OneLevel(level: Level, id: u32, q: u16, price: u16)
    requires level == At(price, [Entry(id, q)]) && q > 0 && id != MAX_U32
    ensures Sound([level]) && forall x :: Count([level], x) == if x == id then 1 else 0
    ensures level.quantity == q && LevelLots([level]) == [W.Lot(price, q)]
  {
    assert [Entry(id, q)][1..] == [] && [level][1..] == [];
    assert Total([Entry(id, q)]) == q + Total([]);
    forall x: u32
      ensures Count([level], x) == if x == id then 1 else 0
    {
      assert Occurs([Entry(id, q)], x) == (if x == id then 1 else 0) + Occurs([], x);
      assert Count([level], x) == Occurs(level.orders, x) + Count([], x);
    }
    assert SoundLevel(level);
    assert LevelLots([level]) == [W.Lot(price, q)] + LevelLots([]);
  }

  /** One bid and two asks, parked. */
  lemma ThreeParked(bid: u32, low: u32, high: u32, table: Table, levels: seq<Level>)
    requires bid in table && low in table && high in table && bid != low && bid != high && low != high
    requires table[low].price <= table[high].price && Count(levels, bid) == Count(levels, low) == Count(levels, high) == 0
    ensures Parked(Lists([], [], [bid], [low, high]), table, levels)
  {
    hide Count, Reversed;
    var l := Lists([], [], [bid], [low, high]);
    ReversedOne(bid);
    SameList(l.marketBids, [bid]);
    SameList(l.marketAsks, [low, high]);
  }

  lemma ReversedOne(id: u32)
    ensures Reversed([id]) == [id]
  {
  }

  lemma SameList(none: seq<u32>, some: seq<u32>)
    requires none == []
    ensures none + some == some
  {
  }

  lemma InstanceCurves(l: Lists, levels: seq<Level>)
    requires l == Lists([], [], [1], [2, 3]) && levels == [At(50, [Entry(9, 10)])]
    ensures CurvesOf(l, PARKED, levels, 1) == INSTANCE
  {
    OneLevel(levels[0], 9, 10, 50);
    assert levels[..1] == levels && levels[1..] == [];
    assert [1 as u32][1..] == [] && [2, 3][1..] == [3 as u32] && [3 as u32][1..] == [];
    assert Lots([1], PARKED) == [W.Lot(60, 10)] + Lots([], PARKED);
    assert Lots([3], PARKED) == [W.Lot(55, 10)] + Lots([], PARKED);
    assert Lots([2, 3], PARKED) == [W.Lot(50, 10)] + Lots([3], PARKED);
  }

  lemma OneLot(lot: W.Lot, rest: seq<W.Lot>, p: int)
    ensures W.AtOrAbove([lot] + rest, p) == (if lot.price >= p then lot.shares else 0) + W.AtOrAbove(rest, p)
    ensures W.AtOrBelow([lot] + rest, p) == (if lot.price <= p then lot.shares else 0) + W.AtOrBelow(rest, p)
  {
    assert ([lot] + rest)[1..] == rest;
  }

  lemma InstanceVolume()
    ensures forall mark :: W.Cleared(INSTANCE, mark, 50, 10)
    ensures W.AtOrAbove(INSTANCE.bookBids, 50) == 10 && W.AtOrBelow(INSTANCE.bookAsks, 50) == 0
  {
    hide W.AtOrAbove, W.AtOrBelow;
    forall p: int
      ensures W.Demand(INSTANCE, p) == (if p <= 60 then 10 else 0) + (if p <= 50 then 10 else 0)
      ensures W.Supply(INSTANCE, p) == (if p >= 50 then 10 else 0) + (if p >= 55 then 10 else 0)
      ensures W.Crossed(INSTANCE, p) <= 10 && (p < 50 ==> W.Crossed(INSTANCE, p) == 0)
    {
      OneLot(W.Lot(60, 10), [], p);
      OneLot(W.Lot(50, 10), [], p);
      OneLot(W.Lot(55, 10), [], p);
      OneLot(W.Lot(50, 10), [W.Lot(55, 10)], p);
      W.NoLots(p);
      assert [W.Lot(60, 10)] + [] == INSTANCE.bids && [W.Lot(50, 10)] + [] == INSTANCE.bookBids
             && [W.Lot(50, 10)] + [W.Lot(55, 10)] == INSTANCE.asks && [W.Lot(55, 10)] + [] == [W.Lot(55, 10)];
    }
    assert W.Crossed(INSTANCE, 50) == 10;
    assert INSTANCE.asks[0] == W.Lot(50, 10);
    assert W.LimitPrice(INSTANCE, 50);
    OneLot(W.Lot(50, 10), [], 50);
    W.NoLots(50);
    assert [W.Lot(50, 10)] + [] == INSTANCE.bookBids;
  }

  lemma InstanceServed(l: Lists, levels: seq<Level>, takerId: u32)
    requires l == Lists([], [], [1], [2, 3]) && levels == [At(50, [Entry(9, 10)])]
    ensures var now := CrossedOrders(l, PARKED, SidesOf(levels, 1), 10, 10, 0, 50, takerId);
            1 in now && 3 in now && now[1].quantity == 10 && now[3].quantity == 10
  {
    hide Served, Taken, Submit, W.AtOrAbove, W.AtOrBelow, Count;
    OneLevel(levels[0], 9, 10, 50);
    var s, t := SidesOf(levels, 1), Taker(false, 10, 50);
    assert levels[..1] == levels && levels[1..] == [];
    assert QuotedSides(s, PARKED);
    MakersHere(levels, 1, PARKED, t, 10);
    var fills := Submit(s, t, takerId).fills;
    SubmitSweeps(levels, 1, t, takerId);
    TakenApart(PARKED, fills, 1);
    TakenApart(PARKED, fills, 3);
    var booked := BookedOrders(PARKED, s, 10, 0, 50, takerId);
    NothingLeft(BidLine(l, PARKED, 50), booked);
    assert [2, 3][1..] == [3 as u32];
    assert CrossingLimits([3], PARKED, 50, false) == [];
    assert AskLine(l, PARKED, 50) == [] + [2];
    ServedApart(AskLine(l, PARKED, 50), booked, 10, 1);
    ServedApart(AskLine(l, PARKED, 50), booked, 10, 3);
  }

  lemma SubmitSweeps(levels: seq<Level>, bids: nat, t: Order, id: u32)
    requires bids <= |levels|
    ensures Submit(SidesOf(levels, bids), t, id).fills == Sweep(Facing(levels, bids, t.buy), t, t.quantity).fills
  {
  }

  /** Each side's order is only ever served with its own side. */
  lemma SidesServed(l: Lists, table: Table, levels: seq<Level>, matched: nat, clearing: u16, bid: u32, ask: u32)
    requires Parked(l, table, levels) && bid in l.bidSorted && ask in l.askSorted
    requires var now := BothServed(l, table, matched, clearing); bid in now && ask in now && now[bid].quantity > 0 && now[ask].quantity > 0
    ensures bid in table && ask in table
    ensures var bids := Served(BidLine(l, table, clearing), table, matched); bid in bids && bids[bid].quantity > 0
    ensures var asks := Served(AskLine(l, table, clearing), table, matched); ask in asks && asks[ask].quantity > 0
  {
    assert bid in l.marketBids + l.bidSorted && ask in l.marketAsks + l.askSorted;
    BestIds(l.bidSorted, true);
    SideReady(l.marketBids, Reversed(l.bidSorted), table, table, clearing, true);
    SideReady(l.marketAsks, l.askSorted, table, table, clearing, false);
    var bids := Served(BidLine(l, table, clearing), table, matched);
    ServedTerms(BidLine(l, table, clearing), table, matched);
    ServedApart(AskLine(l, table, clearing), bids, matched, bid);
    LineIds(l, table, levels, clearing);
    LinesDistinct(l, table, levels, clearing);
    forall id | id in l.marketAsks + l.askSorted
      ensures id in bids && bids[id] == table[id]
    {
      ServedApart(BidLine(l, table, clearing), table, matched, id);
    }
    ServedAlike(AskLine(l, table, clearing), table, bids, matched, ask);
  }

  /** What a line is served depends on its own orders alone. */
  lemma ServedAlike(line: seq<u32>, was: Table, now: Table, shares: nat, id: u32)
    requires DistinctIds(line) && (forall x | x in line :: x in was && x in now && now[x] == was[x])
    requires id in was && id in now && now[id] == was[id]
    ensures id in Served(line, now, shares) && id in Served(line, was, shares)
    ensures Served(line, now, shares)[id].quantity == Served(line, was, shares)[id].quantity
  {
    hide Served, Waiting;
    if id in line {
      var k :| 0 <= k < |line| && line[k] == id;
      ServedAt(line, was, shares, k);
      ServedAt(line, now, shares, k);
      WaitingKept(line[..k], was, now);
    } else {
      ServedApart(line, was, shares, id);
      ServedApart(line, now, shares, id);
    }
  }

  /** Both lines are distinct parked orders. */
  lemma LinesDistinct(l: Lists, table: Table, levels: seq<Level>, clearing: u16)
    requires Parked(l, table, levels)
    ensures DistinctIds(BidLine(l, table, clearing)) && DistinctIds(AskLine(l, table, clearing))
  {
    CrossingPrefix(Reversed(l.bidSorted), table, clearing, true);
    CrossingPrefix(l.askSorted, table, clearing, false);
    FrontOf(l.marketBids, Reversed(l.bidSorted), |CrossingLimits(Reversed(l.bidSorted), table, clearing, true)|);
    FrontOf(l.marketAsks, l.askSorted, |CrossingLimits(l.askSorted, table, clearing, false)|);
  }

  lemma FrontOf(a: seq<u32>, b: seq<u32>, n: nat)
    requires DistinctIds(a + b) && n <= |b|
    ensures DistinctIds(a + b[..n])
  {
    assert forall i | 0 <= i < |a + b[..n]| :: (a + b[..n])[i] == (a + b)[i];
  }

  // ---------- The read-only pass ----------

  /** There is one way to line up the same orders. */
  lemma {:induction false} OneRanking(a: seq<u32>, b: seq<u32>, arrivals: seq<u32>, table: Table, isBuy: bool)
    requires DistinctIds(arrivals) && forall id :: id in a <==> id in b
    requires forall i, j | 0 <= i < j < |a| :: Ahead(a[i], a[j], arrivals, table, isBuy)
    requires forall i, j | 0 <= i < j < |b| :: Ahead(b[i], b[j], arrivals, table, isBuy)
    ensures a == b
  {
    hide Ahead, DistinctIds;
    if a == [] {
      NobodyIn(a, b);
    } else {
      FirstSame(a, b, arrivals, table, isBuy);
      forall id
        ensures id in a[1..] <==> id in b[1..]
      {
        NotFirst(a, id, arrivals, table, isBuy);
        NotFirst(b, id, arrivals, table, isBuy);
      }
      OneRanking(a[1..], b[1..], arrivals, table, isBuy);
      assert a == [a[0]] + a[1..] && b == [b[0]] + b[1..];
    }
  }

  lemma NobodyIn(a: seq<u32>, b: seq<u32>)
    requires forall id :: id in a <==> id in b
    ensures a == [] <==> b == []
  {
    assert a != [] ==> a[0] in b;
    assert b != [] ==> b[0] in a;
  }

  lemma FirstSame(a: seq<u32>, b: seq<u32>, arrivals: seq<u32>, table: Table, isBuy: bool)
    requires DistinctIds(arrivals) && a != [] && forall id :: id in a <==> id in b
    requires forall i, j | 0 <= i < j < |a| :: Ahead(a[i], a[j], arrivals, table, isBuy)
    requires forall i, j | 0 <= i < j < |b| :: Ahead(b[i], b[j], arrivals, table, isBuy)
    ensures b != [] && a[0] == b[0]
  {
    hide Ahead, DistinctIds;
    assert a[0] in b;
    var j :| 0 <= j < |b| && b[j] == a[0];
    assert b[0] in a;
    var k :| 0 <= k < |a| && a[k] == b[0];
    assert k > 0 ==> Ahead(a[0], b[0], arrivals, table, isBuy);
    assert j > 0 ==> Ahead(b[0], a[0], arrivals, table, isBuy);
    if j > 0 {
      AheadOnce(b[0], a[0], arrivals, table, isBuy);
    }
  }

  lemma NotFirst(a: seq<u32>, id: u32, arrivals: seq<u32>, table: Table, isBuy: bool)
    requires DistinctIds(arrivals) && a != []
    requires forall i, j | 0 <= i < j < |a| :: Ahead(a[i], a[j], arrivals, table, isBuy)
    ensures id in a[1..] <==> id in a && id != a[0]
  {
    hide Ahead, DistinctIds;
    if id in a[1..] {
      var j :| 0 <= j < |a[1..]| && a[1..][j] == id;
      assert Ahead(a[0], a[j + 1], arrivals, table, isBuy);
      AheadOnce(a[0], id, arrivals, table, isBuy);
    }
  }

  lemma SameReversed(a: seq<u32>, b: seq<u32>)
    requires Reversed(a) == Reversed(b)
    ensures a == b
  {
    forall i | 0 <= i < |a|
      ensures a[i] == b[i]
    {
      assert Reversed(a)[|a| - 1 - i] == a[i] && Reversed(b)[|b| - 1 - i] == b[i];
    }
  }

  /** What the read-only pass publishes is what a cross of the same orders would clear at. */
  lemma LookIsCross(l: Lists, m: Lists, arrivals: seq<u32>, table: Table, levels: seq<Level>, bids: nat, mark: u16,
                    clearing: u16, matched: nat, price: u16, volume: nat)
    requires DistinctIds(arrivals) && LinedUp(l, arrivals, table) && LinedUp(m, arrivals, table) && bids <= |levels|
    requires W.Cleared(CurvesOf(l, table, levels, bids), mark, clearing, matched)
    requires W.Cleared(CurvesOf(m, table, levels, bids), mark, price, volume)
    ensures m == l && price == clearing && volume == matched
  {
    hide W.Cleared, Ahead, DistinctIds, CurvesOf, Reversed;
    OneRanking(Reversed(l.bidSorted), Reversed(m.bidSorted), arrivals, table, true);
    SameReversed(l.bidSorted, m.bidSorted);
    OneRanking(l.askSorted, m.askSorted, arrivals, table, false);
    W.ClearedOnce(CurvesOf(l, table, levels, bids), mark, clearing, matched, price, volume);
  }
}
