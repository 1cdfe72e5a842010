/** Who is left crossing after a cross (server_auction of src/server.c), exactly. */
module AuctionLeft {
  import opened Machine
  import opened Book
  import opened BookRuns
  import opened Weights
  import opened Settle
  import opened LegWalk
  import opened Ranges
  import opened FirstLeg
  import opened AuctionStep
  import opened AuctionFill
  import opened AuctionBook
  import opened AuctionPark
  import opened AuctionSide
  import opened AuctionAfter
  import opened Auctioneer
  import W = AuctionWalk

  /** A parked bid and a parked ask with shares left, the bid at or above the ask. */
  ghost predicate LeftCrossing(l: Lists, table: Table, now: Table) {
    exists b, a :: CrossingPair(l, table, b, a) && b in now && now[b].quantity > 0 && a in now && now[a].quantity > 0
  }

  ghost predicate CrossingPair(l: Lists, table: Table, b: u32, a: u32) {
    b in l.bidSorted && a in l.askSorted && b in table && a in table && table[b].price >= table[a].price
  }

  /** More wants to buy at the bid's price than the buyers got, and more to sell at the ask's than the
  sellers gave: the market orders of a side, and its limits at that price or better. */
  ghost predicate Overfull(l: Lists, table: Table, b: u32, a: u32, bought: nat, sold: nat)
    requires b in table && a in table
  {
    && bought < Waiting(l.marketBids, table) + W.AtOrAbove(Lots(l.bidSorted, table), table[b].price)
    && sold < Waiting(l.marketAsks, table) + W.AtOrBelow(Lots(l.askSorted, table), table[a].price)
  }

  ghost predicate HasOverfull(l: Lists, table: Table, bought: nat, sold: nat) {
    exists b, a :: CrossingPair(l, table, b, a) && Overfull(l, table, b, a, bought, sold)
  }

  /** Nobody has been parked without shares. */
  ghost predicate AllLive(l: Lists, table: Table) {
    forall id | id in l.bidSorted + l.askSorted :: id in table && table[id].quantity > 0
  }

  lemma LinedUpLive(l: Lists, arrivals: seq<u32>, table: Table)
    requires LinedUp(l, arrivals, table)
    ensures AllLive(l, table)
  {
    forall id | id in l.bidSorted + l.askSorted
      ensures id in table && table[id].quantity > 0
    {
      SameMembers(l.bidSorted, id);
    }
  }

  /** If the shares do not cover everybody at a live order's price or better, one of those is left. */
  lemma SomeoneLeft(markets: seq<u32>, best: seq<u32>, table: Table, clearing: u16, isBuy: bool, shares: nat, i: nat)
    returns (j: nat)
    requires BestFirst(best, table, isBuy) && DistinctIds(markets + best) && i < |best|
    requires (forall id | id in markets + best :: id in table) && forall id | id in best :: table[id].quantity > 0
    requires shares < Waiting(markets, table) + CountAt(best, table, table[best[i]].price, isBuy)
    ensures j < |best| && Reaches(table, best[j], table[best[i]].price, isBuy)
    ensures var now := Served(Line(markets, best, table, clearing, isBuy), table, shares); best[j] in now && now[best[j]].quantity > 0
  {
    hide Served, Lots, Waiting, DistinctIds;
    var price := table[best[i]].price;
    var near, limits := CrossingLimits(best, table, price, isBuy), CrossingLimits(best, table, clearing, isBuy);
    var line := Line(markets, best, table, clearing, isBuy);
    CrossingPrefix(best, table, price, isBuy);
    CrossingPrefix(best, table, clearing, isBuy);
    CrossingWaits(best, table, price, isBuy);
    OwnPriceReached(best, table, isBuy, i);
    j := |near| - 1;
    FrontWaits(markets, best, j, table);
    assert best[j] in best && best[j] in markets + best;
    FrontOf(markets, best, |limits|);
    if j < |limits| {
      assert line[|markets| + j] == best[j] && line[..|markets| + j] == markets + best[..j];
      ServedAt(line, table, shares, |markets| + j);
    } else {
      NotAmong(markets, best, |limits|, j);
      ServedApart(line, table, shares, best[j]);
    }
  }

  lemma OwnPriceReached(best: seq<u32>, table: Table, isBuy: bool, i: nat)
    requires BestFirst(best, table, isBuy) && i < |best|
    ensures best[i] in table && |CrossingLimits(best, table, table[best[i]].price, isBuy)| > i
  {
    assert best[i] in best;
    CrossingPrefix(best, table, table[best[i]].price, isBuy);
    forall n | 0 <= n <= i
      ensures Reaches(table, best[n], table[best[i]].price, isBuy)
    {
      assert best[n] in best;
    }
  }

  lemma NotAmong(a: seq<u32>, b: seq<u32>, n: nat, j: nat)
    requires DistinctIds(a + b) && n <= j < |b|
    ensures b[j] !in a + b[..n]
  {
    assert (a + b)[|a| + j] == b[j];
    assert forall i | 0 <= i < |a + b[..n]| :: (a + b[..n])[i] == (a + b)[i];
  }

  /** What is left of a parked order of either side, seen on its own side alone. */
  lemma OwnSideOnly(l: Lists, table: Table, levels: seq<Level>, bids: nat, clearing: u16, matched: nat, bidFill: nat,
                    askFill: nat, takerId: u32, id: u32)
    requires Parked(l, table, levels) && bids <= |levels| && QuotedSides(SidesOf(levels, bids), table)
    requires bidFill <= matched && askFill <= matched && (id in l.bidSorted || id in l.askSorted)
    ensures id in table
    ensures var now := CrossedOrders(l, table, SidesOf(levels, bids), matched, bidFill, askFill, clearing, takerId);
            var bought, sold := Served(BidLine(l, table, clearing), table, matched - bidFill), Served(AskLine(l, table, clearing), table, matched - askFill);
            && id in now && id in bought && id in sold
            && (id in l.bidSorted ==> now[id].quantity == bought[id].quantity)
            && (id in l.askSorted ==> now[id].quantity == sold[id].quantity)
  {
    hide Served, BidLine, AskLine, DistinctIds, CrossedOrders, BookedOrders, SameTerms;
    var s := SidesOf(levels, bids);
    CrossedInTurn(l, table, s, matched, bidFill, askFill, clearing, takerId);
    var booked := BookedOrders(table, s, bidFill, askFill, clearing, takerId);
    var half := Served(BidLine(l, table, clearing), booked, matched - bidFill);
    assert id in l.marketBids + l.bidSorted || id in l.marketAsks + l.askSorted;
    BookedApart(table, levels, bids, bidFill, askFill, clearing, takerId);
    LineIds(l, table, levels, clearing);
    LinesDistinct(l, table, levels, clearing);
    ServedAlike(BidLine(l, table, clearing), table, booked, matched - bidFill, id);
    StillIn(BidLine(l, table, clearing), table, matched - bidFill, id);
    StillIn(AskLine(l, table, clearing), table, matched - askFill, id);
    if id in l.bidSorted {
      NotOnBoth(l, table, levels, clearing, id);
      ServedApart(AskLine(l, table, clearing), half, matched - askFill, id);
    } else {
      NotOnBoth(l, table, levels, clearing, id);
      forall x | x in AskLine(l, table, clearing) || x == id
        ensures x in half && half[x] == table[x]
      {
        ServedApart(BidLine(l, table, clearing), booked, matched - bidFill, x);
      }
      ServedAlike(AskLine(l, table, clearing), table, half, matched - askFill, id);
    }
  }

  lemma StillIn(line: seq<u32>, table: Table, shares: nat, id: u32)
    requires id in table
    ensures id in Served(line, table, shares)
  {
    ServedTerms(line, table, shares);
  }

  lemma NotOnBoth(l: Lists, table: Table, levels: seq<Level>, clearing: u16, id: u32)
    requires Parked(l, table, levels)
    ensures id in l.bidSorted ==> id !in AskLine(l, table, clearing)
    ensures id in l.askSorted ==> id !in BidLine(l, table, clearing) && id !in l.bidSorted
  {
    BestIds(l.bidSorted, true);
    CrossingPrefix(Reversed(l.bidSorted), table, clearing, true);
    CrossingPrefix(l.askSorted, table, clearing, false);
    assert id in l.askSorted ==> id in l.marketAsks + l.askSorted;
    assert id in l.bidSorted ==> id in l.marketBids + l.bidSorted;
    forall x | x in BidLine(l, table, clearing)
      ensures x in l.marketBids + l.bidSorted
    {
    }
    forall x | x in AskLine(l, table, clearing)
      ensures x in l.marketAsks + l.askSorted
    {
    }
  }

  /** The book's part touches makers only. */
  lemma BookedApart(table: Table, levels: seq<Level>, bids: nat, bidFill: nat, askFill: nat, clearing: u16, takerId: u32)
    requires bids <= |levels| && QuotedSides(SidesOf(levels, bids), table)
    ensures Unmoved(BookedOrders(table, SidesOf(levels, bids), bidFill, askFill, clearing, takerId), table, levels)
  {
    hide Taken, Submit;
    forall isBuy: bool, q: u16
      ensures Unmoved(Taken(table, Submit(SidesOf(levels, bids), Taker(isBuy, q, clearing), takerId).fills), table, levels)
    {
      MakersHere(levels, bids, table, Taker(isBuy, q, clearing), q);
      SubmitSweeps(levels, bids, Taker(isBuy, q, clearing), takerId);
      TakenUnmoved(table, Submit(SidesOf(levels, bids), Taker(isBuy, q, clearing), takerId).fills, levels);
    }
    Unmoves(table, levels);
  }

  /** A bid and an ask that cross are left over if and only if some live bid and ask that cross have too
  much waiting at their prices. It can be read off before anybody is filled. */
  lemma CrossLeftExactly(l: Lists, table: Table, levels: seq<Level>, bids: nat, mark: u16, clearing: u16, matched: nat,
                         takerId: u32)
    requires Parked(l, table, levels) && AllLive(l, table) && bids <= |levels| && QuotedSides(SidesOf(levels, bids), table)
    requires W.Cleared(CurvesOf(l, table, levels, bids), mark, clearing, matched)
    ensures var bidFill, askFill := Min(InReach(levels, bids, false, clearing), matched), Min(InReach(levels, bids, true, clearing), matched);
            LeftCrossing(l, table, CrossedOrders(l, table, SidesOf(levels, bids), matched, bidFill, askFill, clearing, takerId))
            <==> HasOverfull(l, table, matched - bidFill, matched - askFill)
  {
    hide CrossedOrders, Parked, AllLive, CurvesOf, W.Cleared, Overfull;
    var bidFill, askFill := Min(InReach(levels, bids, false, clearing), matched), Min(InReach(levels, bids, true, clearing), matched);
    var now := CrossedOrders(l, table, SidesOf(levels, bids), matched, bidFill, askFill, clearing, takerId);
    if LeftCrossing(l, table, now) {
      var b, a :| CrossingPair(l, table, b, a) && b in now && now[b].quantity > 0 && a in now && now[a].quantity > 0;
      LeftIsOverfull(l, table, levels, bids, mark, clearing, matched, takerId, b, a);
    }
    if HasOverfull(l, table, matched - bidFill, matched - askFill) {
      var b, a :| CrossingPair(l, table, b, a) && Overfull(l, table, b, a, matched - bidFill, matched - askFill);
      var x, y := OverfullIsLeft(l, table, levels, bids, clearing, matched, bidFill, askFill, takerId, b, a);
    }
  }

  lemma LeftIsOverfull(l: Lists, table: Table, levels: seq<Level>, bids: nat, mark: u16, clearing: u16, matched: nat,
                       takerId: u32, b: u32, a: u32)
    requires Parked(l, table, levels) && bids <= |levels| && QuotedSides(SidesOf(levels, bids), table)
    requires CrossingPair(l, table, b, a)
    requires W.Cleared(CurvesOf(l, table, levels, bids), mark, clearing, matched)
    requires var bidFill, askFill := Min(InReach(levels, bids, false, clearing), matched), Min(InReach(levels, bids, true, clearing), matched);
             var now := CrossedOrders(l, table, SidesOf(levels, bids), matched, bidFill, askFill, clearing, takerId);
             b in now && now[b].quantity > 0 && a in now && now[a].quantity > 0
    ensures var bidFill, askFill := Min(InReach(levels, bids, false, clearing), matched), Min(InReach(levels, bids, true, clearing), matched);
            Overfull(l, table, b, a, matched - bidFill, matched - askFill)
  {
    hide Served, CrossedOrders, Lots, Waiting, DistinctIds, BestFirst, Reversed;
    var bidFill, askFill := Min(InReach(levels, bids, false, clearing), matched), Min(InReach(levels, bids, true, clearing), matched);
    OwnSideOnly(l, table, levels, bids, clearing, matched, bidFill, askFill, takerId, b);
    OwnSideOnly(l, table, levels, bids, clearing, matched, bidFill, askFill, takerId, a);
    BothReach(CurvesOf(l, table, levels, bids), clearing, matched);
    SideIds(l, table, levels);
    var best := Reversed(l.bidSorted);
    SameMembers(l.bidSorted, b);
    var i :| 0 <= i < |best| && best[i] == b;
    var k :| 0 <= k < |l.askSorted| && l.askSorted[k] == a;
    AboveReversed(l.bidSorted, table, clearing);
    AboveReversed(l.bidSorted, table, table[b].price);
    LeftOver(l.marketBids, best, table, clearing, true, matched - bidFill, i);
    LeftOver(l.marketAsks, l.askSorted, table, clearing, false, matched - askFill, k);
  }

  lemma SideIds(l: Lists, table: Table, levels: seq<Level>)
    requires Parked(l, table, levels)
    ensures forall id | id in l.marketBids + Reversed(l.bidSorted) :: id in table
    ensures forall id | id in l.marketAsks + l.askSorted :: id in table
  {
    BestIds(l.bidSorted, true);
    forall id | id in l.marketBids + Reversed(l.bidSorted)
      ensures id in l.marketBids + l.bidSorted
    {
    }
  }

  lemma OverfullIsLeft(l: Lists, table: Table, levels: seq<Level>, bids: nat, clearing: u16, matched: nat, bidFill: nat,
                       askFill: nat, takerId: u32, b: u32, a: u32)
    returns (x: u32, y: u32)
    requires Parked(l, table, levels) && AllLive(l, table) && bids <= |levels| && QuotedSides(SidesOf(levels, bids), table)
    requires bidFill <= matched && askFill <= matched && CrossingPair(l, table, b, a)
    requires Overfull(l, table, b, a, matched - bidFill, matched - askFill)
    ensures var now := CrossedOrders(l, table, SidesOf(levels, bids), matched, bidFill, askFill, clearing, takerId);
            CrossingPair(l, table, x, y) && x in now && now[x].quantity > 0 && y in now && now[y].quantity > 0
  {
    hide Served, CrossedOrders, Lots, Waiting, DistinctIds, BestFirst, Reversed;
    SideIds(l, table, levels);
    BestIds(l.bidSorted, true);
    var best := Reversed(l.bidSorted);
    SameMembers(l.bidSorted, b);
    forall id | id in best || id in l.askSorted
      ensures table[id].quantity > 0
    {
      assert id in l.bidSorted + l.askSorted;
    }
    var i :| 0 <= i < |best| && best[i] == b;
    var k :| 0 <= k < |l.askSorted| && l.askSorted[k] == a;
    AboveReversed(l.bidSorted, table, table[b].price);
    var j := SomeoneLeft(l.marketBids, best, table, clearing, true, matched - bidFill, i);
    var n := SomeoneLeft(l.marketAsks, l.askSorted, table, clearing, false, matched - askFill, k);
    x, y := best[j], l.askSorted[n];
    SameMembers(l.bidSorted, x);
    OwnSideOnly(l, table, levels, bids, clearing, matched, bidFill, askFill, takerId, x);
    OwnSideOnly(l, table, levels, bids, clearing, matched, bidFill, askFill, takerId, y);
  }
}
