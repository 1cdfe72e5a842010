/** What the checks of a pair's funds are for (pair_precheck of src/server.c): a cash account that quotes
both sides covers everything its orders tie up when the pair is done. */
module FundsPair {
  import opened Machine
  import opened Book
  import opened BookFacts
  import opened BookRuns
  import opened Ranges
  import opened FirstLeg
  import opened Weights
  import opened Settle
  import opened SettlePair
  import opened LegWalk
  import opened Ledger
  import opened Desk
  import opened Prechecks
  import opened PairDesk
  import opened FillOrKill
  import opened Funds

  /** The client can pay for what its bid leg buys and deliver what its ask leg sells, and still cover
  what is tied up in the book that the pair leaves, even if its own orders were not among those traded with. */
  ghost predicate PairAffords(a: Account, s: Sides, table: Table, bidId: u32, askId: u32, held: Holds)
    requires bidId in table && HasTarget(table[bidId], table) && askId in table && HasTarget(table[askId], table)
  {
    var c, now := table[bidId].client, PairMessage(s, table, bidId, askId).sides;
    var bought, sold := First(s, table, bidId, askId).fills, Second(s, table, bidId, askId).fills;
    && a.cash - WeighFills(bought, PriceOf(table)) >= TiedCash(now, c, table, held) + WeighFills(sold, BidValue(c, table))
    && a.shares - FillTotal(sold) >= TiedShares(now, c, table, held) + WeighFills(bought, AskShares(c, table))
  }

  /** The book that the bid leg meets costs it what the old book would have. */
  ghost predicate PairSameDue(s: Sides, table: Table, bidId: u32, askId: u32)
    requires bidId in table && HasTarget(table[bidId], table) && askId in table && HasTarget(table[askId], table)
  {
    Due(Clean(s, table, bidId, askId), table[bidId], table) == Due(s, table[bidId], table)
  }

  /** Both pools' totals fit their fields. */
  ghost predicate PoolsFit(s: Sides, c: nat, table: Table, held: Holds) {
    0 <= TiedCash(s, c, table, held) < 0x1_0000_0000 && 0 <= TiedShares(s, c, table, held) < 0x1_0000_0000
  }

  /** Nothing about a pair of quotes itself is in the way. */
  ghost predicate PairWellFormed(s: Sides, bid: Order, ask: Order, table: Table) {
    && !bid.market && bid.Gtc() && bid.quantity > 0 && ask.quantity > 0 && 0 < bid.price < ask.price
    && (bid.Pulls() ==> OwnsResting(s, bid, table) && OwnsResting(s, ask, table) && bid.otherId != ask.otherId)
  }

  ghost predicate OwnsResting(s: Sides, o: Order, table: Table) {
    o.otherId in table && table[o.otherId].client == o.client && Count(s.bids + s.asks, o.otherId) == 1
  }

  /** What a pair of quotes from a cash account is told. */
  ghost predicate PairJudged(reason: Reason, a: Account, s: Sides, table: Table, bidId: u32, askId: u32, held: Holds)
    requires bidId in table && HasTarget(table[bidId], table) && askId in table && HasTarget(table[askId], table)
  {
    && (!PairWellFormed(s, table[bidId], table[askId], table) ==> reason != NoReason)
    && (PairWellFormed(s, table[bidId], table[askId], table) && PoolsFit(s, table[bidId].client, table, held)
        && PairSameDue(s, table, bidId, askId) ==>
          (reason == NoReason <==> PairAffords(a, s, table, bidId, askId, held)))
  }

  // ---------- What the legs cost ----------

  /** What is due of the bid leg is what it pays and leaves resting. */
  lemma BidPays(s: Sides, table: Table, bidId: u32, askId: u32)
    requires SoundSides(s) && QuotedSides(s, table) && PairSettleable(s, table, bidId, askId) && !table[bidId].PureCancel()
    ensures var bid, bought := table[bidId], First(s, table, bidId, askId).fills;
            && LeftResting(bid, bought) >= 0
            && Due(Clean(s, table, bidId, askId), bid, table) == WeighFills(bought, PriceOf(table)) + LeftResting(bid, bought) * bid.price
  {
    hide SharePath, Repeat, Sweep, FillTotal, SoundSides, Sum, WeighFills;
    var bid, gone, c := table[bidId], Gone(table[bidId], table) + Gone(table[askId], table), Clean(s, table, bidId, askId);
    var first := First(s, table, bidId, askId);
    SweepFills(Opposite(c, true), bid, bid.quantity);
    if ShrinksInPlace(bid, table) {
      ShrinkQuiet(s, table, bid, gone);
      SweepNothing(Opposite(c, true), bid, bid.quantity);
      assert FillTotal([]) == 0 by {
        NothingFilled();
      }
    }
    assert PathOn(c, bid, table) == PathOf(bid, first, table);
    PathCost(bid, first, table);
  }

  /** An ask leg needs its whole size. */
  lemma AskNeeds(s: Sides, o: Order, table: Table)
    requires !o.buy && o.Gtc()
    ensures Due(s, o, table) == o.quantity
  {
    AllShares(s, o, table);
  }

  /** With the ask's target above the bid's limit, the bid leg meets the shares the old book offered it. */
  lemma PairOutOfReach(s: Sides, table: Table, bidId: u32, askId: u32)
    requires SoundSides(s) && QuotedSides(s, table) && PairSettleable(s, table, bidId, askId) && !table[bidId].PureCancel()
    requires table[askId].Pulls() ==> table[table[askId].otherId].price > table[bidId].price
    ensures PairSameDue(s, table, bidId, askId)
  {
    var bid, ask := table[bidId], table[askId];
    var a, b := Gone(bid, table), Gone(ask, table);
    SplitSound(s.bids, s.asks);
    PruneUnion(s.asks, a, b);
    AsksSame(s.asks, table, bid, bid.otherId, a);
    PruneSoundHere(s.asks, a);
    PullQuoted(s.asks, false, table, a);
    AsksSame(Prune(s.asks, a), table, bid, ask.otherId, b);
  }

  lemma PruneSoundHere(levels: seq<Level>, gone: set<u32>)
    requires Ascending(levels) && SoundLevels(levels)
    ensures Ascending(Prune(levels, gone)) && SoundLevels(Prune(levels, gone))
  {
    PruneAscending(levels, gone);
    forall l | l in Prune(levels, gone)
      ensures SoundLevel(l)
    {
      PruneMember(levels, gone, l);
      var m :| m in levels && m.price == l.price && l == At(m.price, Keep(m.orders, gone)) && l.orders != [];
      assert SoundLevel(m);
      forall e | e in l.orders
        ensures EntryOk(e)
      {
        KeepMember(m.orders, gone, e);
      }
    }
  }

  /** Pulling an order that is not an ask within the bid's limit. */
  lemma AsksSame(asks: seq<Level>, table: Table, bid: Order, x: u32, gone: set<u32>)
    requires Ascending(asks) && SoundLevels(asks) && Quoted(asks, false, table) && bid.buy && !bid.market
    requires gone <= {x} && (gone != {} ==> x in table && (table[x].buy || table[x].price > bid.price))
    ensures Sweep(Prune(asks, gone), bid, bid.quantity).fills == Sweep(asks, bid, bid.quantity).fills
    ensures Sweep(Prune(asks, gone), bid, bid.quantity).left == Sweep(asks, bid, bid.quantity).left
  {
    if gone == {} {
      PruneSoundNone(asks);
    } else {
      assert gone == {x};
      forall l | l in asks && Crosses(bid, l.price)
        ensures Occurs(l.orders, x) == 0
      {
        OccursMember(l.orders, x);
      }
      SweepPruned(asks, bid, bid.quantity, x);
    }
  }

  // ---------- The law ----------

  /** How a pair moves what its client has tied up. */
  lemma PairTied(s: Sides, table: Table, bidId: u32, askId: u32, held: Holds)
    requires SoundSides(s) && Agrees(s, table) && PairSettleable(s, table, bidId, askId)
    requires table[bidId].client == table[askId].client && OwnTarget(table, bidId) && OwnTarget(table, askId)
    ensures var bid, ask, c := table[bidId], table[askId], table[bidId].client;
            var bought, sold := First(s, table, bidId, askId).fills, Second(s, table, bidId, askId).fills;
            var now := PairMessage(s, table, bidId, askId).sides;
            && TiedCash(now, c, table, held) + WeighFills(sold, BidValue(c, table))
               == TiedCash(s, c, table, held) + LeftResting(bid, bought) * bid.price
                  - (if bid.Pulls() then table[bid.otherId].quantity * table[bid.otherId].price else 0)
            && TiedShares(now, c, table, held) + WeighFills(bought, AskShares(c, table))
               == TiedShares(s, c, table, held) + LeftResting(ask, sold) - (if ask.Pulls() then table[ask.otherId].quantity else 0)
  {
    hide PairMessage, WeighSides, WeighFills, SoundSides, First, Second, FillTotal, LeftResting;
    var bid, ask, c := table[bidId], table[askId], table[bidId].client;
    var bought, sold := First(s, table, bidId, askId).fills, Second(s, table, bidId, askId).fills;
    PairConserves(s, table, bidId, askId, BidValue(c, table));
    PairConserves(s, table, bidId, askId, AskShares(c, table));
    forall f | f in bought
      ensures BidValue(c, table)(f.id) == 0
    {
      BidFills(s, table, bidId, askId, f);
    }
    forall f | f in sold
      ensures AskShares(c, table)(f.id) == 0
    {
      AskFills(s, table, bidId, askId, f);
    }
    NoWeight(bought, BidValue(c, table));
    NoWeight(sold, AskShares(c, table));
    if bid.Pulls() {
      HeldQuantity(s, table, bid.otherId);
    }
    if ask.Pulls() {
      HeldQuantity(s, table, ask.otherId);
    }
  }

  lemma QuoteRests(o: Order, fills: seq<Fill>)
    requires o.Gtc() && !o.PureCancel()
    ensures LeftResting(o, fills) == o.quantity - FillTotal(fills)
  {
  }

  /** What is free in each pool covers what the legs need exactly when the client can afford the pair. */
  lemma PairFreeAffords(s: Sides, table: Table, bidId: u32, askId: u32, a: Account, held: Holds)
    requires SoundSides(s) && Agrees(s, table) && PairSettleable(s, table, bidId, askId) && !table[bidId].PureCancel()
    requires table[bidId].client == table[askId].client && OwnTarget(table, bidId) && OwnTarget(table, askId)
    requires ReserveOk(a, table[bidId].client, s, table, held) && PoolsFit(s, table[bidId].client, table, held)
    requires PairSameDue(s, table, bidId, askId)
    ensures var bid, ask := table[bidId], table[askId];
            Free(a, bid, table) >= Due(s, bid, table) && Free(a, ask, table) >= Due(s, ask, table)
            <==> PairAffords(a, s, table, bidId, askId, held)
  {
    hide PairMessage, Due, WeighSides, WeighFills, LeftResting, SoundSides, First, Second, FillTotal, Clean;
    AgreesQuoted(s, table);
    PairTied(s, table, bidId, askId, held);
    BidPays(s, table, bidId, askId);
    AskNeeds(s, table[askId], table);
    QuoteRests(table[askId], Second(s, table, bidId, askId).fills);
    ReserveExact(a, table[bidId].client, s, table, held);
  }

  /** Afterwards its cash, but for its fees, covers its bids, and its shares cover its asks. */
  ghost predicate PairCovers(now: Account, s: Sides, table: Table, bidId: u32, askId: u32, held: Holds)
    requires bidId in table && HasTarget(table[bidId], table) && askId in table && HasTarget(table[askId], table)
  {
    var c, m := table[bidId].client, PairMessage(s, table, bidId, askId);
    && now.cash + Fees(m.fills) - Rebates(m.fills, c, table) >= TiedCash(m.sides, c, table, held)
    && now.shares >= TiedShares(m.sides, c, table, held)
  }

  lemma PairStillCovers(was: Account, now: Account, s: Sides, table: Table, bidId: u32, askId: u32, taker: u32, held: Holds)
    requires SoundSides(s) && Agrees(s, table) && PairSettleable(s, table, bidId, askId)
    requires PairAffords(was, s, table, bidId, askId, held)
    requires if taker == bidId then Second(s, table, bidId, askId).fills == [] else First(s, table, bidId, askId).fills == []
    requires Paid(was, now, table[bidId].client, table[bidId].client, taker == bidId, PairMessage(s, table, bidId, askId).fills, table)
    ensures PairCovers(now, s, table, bidId, askId, held)
  {
    hide WeighSides, WeighFills, SoundSides, First, Second, FillTotal, Fees, Rebates;
    var c := table[bidId].client;
    var bought, sold := First(s, table, bidId, askId).fills, Second(s, table, bidId, askId).fills;
    assert PairMessage(s, table, bidId, askId).fills == bought + sold by {
      FillsTogether(s, table, bidId, askId);
    }
    assert bought + [] == bought && [] + sold == sold;
    AgreesQuoted(s, table);
    forall f | f in sold
      ensures BidValue(c, table)(f.id) == MakerValue(c, table)(f.id)
    {
      AskFills(s, table, bidId, askId, f);
    }
    forall f | f in bought
      ensures AskShares(c, table)(f.id) == MakerShares(c, table)(f.id)
    {
      BidFills(s, table, bidId, askId, f);
    }
    SameFillWeights(sold, BidValue(c, table), MakerValue(c, table));
    SameFillWeights(bought, AskShares(c, table), MakerShares(c, table));
  }

  lemma FillsTogether(s: Sides, table: Table, bidId: u32, askId: u32)
    requires bidId in table && HasTarget(table[bidId], table) && askId in table && HasTarget(table[askId], table)
    ensures PairMessage(s, table, bidId, askId).fills == First(s, table, bidId, askId).fills + Second(s, table, bidId, askId).fills
  {
  }
}
