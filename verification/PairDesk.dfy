/** A pair's prechecks, its taker and its reserves, as values (pair_precheck and the pair branches of
server_order in src/server.c). */
module PairDesk {
  import opened Machine
  import opened Book
  import opened BookFacts
  import opened BookRuns
  import opened Snapshot
  import opened SnapshotWriter
  import opened Ranges
  import opened Rewrite
  import opened FirstLeg
  import opened Canrep
  import opened Weights
  import opened Settle
  import opened SettlePair
  import opened Ledger
  import opened Desk
  import opened Prechecks
  import P = Pair

  /** Two freshly minted legs of one client's message: the ask leg copies the bid's status, so both
  are replacements, both are cancels or neither. */
  ghost predicate PairArrives(table: Table, levels: seq<Level>, bidId: u32, askId: u32) {
    && bidId in table && askId in table && bidId != askId
    && FreshLeg(table, levels, bidId) && FreshLeg(table, levels, askId)
    && SameMessage(table[bidId], table[askId])
  }

  /** A pair the book's own operation is made for: a cancel or a replacement and not both, each leg's
  target a quote of that leg's side, and room for two more levels. */
  ghost predicate PairIncoming(table: Table, levels: seq<Level>, bidId: u32, askId: u32) {
    && PairArrives(table, levels, bidId, askId)
    && !(table[bidId].canRep && table[bidId].cancel)
    && (table[bidId].Pulls() ==> table[table[bidId].otherId].buy && !table[table[askId].otherId].buy)
    && (forall l | l in levels :: |l.orders| <= COPY_LIMIT) && |levels| < 0xFFFE
  }

  predicate SameMessage(bid: Order, ask: Order) {
    && bid.buy && !ask.buy && bid.client == ask.client
    && bid.canRep == ask.canRep && bid.cancel == ask.cancel
    && bid.market == ask.market && bid.ioc == ask.ioc && bid.fok == ask.fok
  }

  ghost predicate FreshLeg(table: Table, levels: seq<Level>, id: u32)
    requires id in table
  {
    HasTarget(table[id], table) && id != MAX_U32 && Count(levels, id) == 0
  }

  ghost predicate ReadyPair(table: Table, m: Mbo, levels: seq<Level>, bids: nat, bidId: u32, askId: u32)
    requires bids <= |levels|
  {
    && PairSettleable(SidesOf(levels, bids), table, bidId, askId)
    && P.PairReady(m, levels, bids, table, bidId, askId)
    && table[bidId].client == table[askId].client
    && OwnTarget(table, bidId) && OwnTarget(table, askId)
  }

  lemma PassedPair(table: Table, m: Mbo, levels: seq<Level>, bids: nat, bidId: u32, askId: u32)
    requires OldBook(m, levels, bids) && PairArrives(table, levels, bidId, askId)
    requires !table[bidId].market && table[bidId].Gtc()
    requires table[bidId].Pulls() ==> TargetRests(table, levels, bids, bidId) && TargetRests(table, levels, bids, askId)
    requires !table[bidId].cancel ==> table[bidId].quantity > 0 && table[askId].quantity > 0 && table[bidId].price < table[askId].price
    ensures PairIncoming(table, levels, bidId, askId) ==> ReadyPair(table, m, levels, bids, bidId, askId)
  {
    SidesJoin(levels, bids);
  }

  ghost predicate TargetRests(table: Table, levels: seq<Level>, bids: nat, id: u32)
    requires id in table && HasTarget(table[id], table) && table[id].Pulls()
  {
    var x := table[id].otherId;
    table[x].client == table[id].client && Count(levels, x) == 1 && Rewrite.Resting(levels, bids, table, x)
  }

  // ---------- Which leg trades ----------

  /** The taker server_order picks by the old book's best prices is the leg whose fills these are. */
  method PickTaker(m: Mbo, bidId: u32, askId: u32, table: Table, ghost levels: seq<Level>, ghost bids: nat)
    returns (taker: u32)
    requires OldBook(m, levels, bids) && ReadyPair(table, m, levels, bids, bidId, askId)
    requires SoundSides(SidesOf(levels, bids)) && QuotedSides(SidesOf(levels, bids), table)
    ensures TakerOf(SidesOf(levels, bids), table, bidId, askId, taker)
  {
    StoredIndexed(m, levels);
    BidReaches(levels, bids, table, bidId, askId);
    AskReaches(levels, bids, table, bidId, askId);
    var hi := m.hiBidIndex;
    var lowAsk := if hi == MAX_U16 then 0 else hi + 1;
    if lowAsk < m.levelCount && table[bidId].price >= m.index[lowAsk].price {
      taker := bidId;
    } else if hi != MAX_U16 && table[askId].price <= m.index[hi].price {
      taker := askId;
    } else {
      taker := bidId;
    }
  }

  lemma BidReaches(levels: seq<Level>, bids: nat, table: Table, bidId: u32, askId: u32)
    requires bids <= |levels| && SoundSides(SidesOf(levels, bids)) && QuotedSides(SidesOf(levels, bids), table)
    requires PairSettleable(SidesOf(levels, bids), table, bidId, askId)
    ensures First(SidesOf(levels, bids), table, bidId, askId).fills != [] ==>
              bids < |levels| && levels[bids].price <= table[bidId].price
  {
    hide First, Second;
    var s := SidesOf(levels, bids);
    if First(s, table, bidId, askId).fills != [] {
      var f := First(s, table, bidId, askId).fills[0];
      BidFills(s, table, bidId, askId, f);
      PullCounts(s, Gone(table[bidId], table) + Gone(table[askId], table), f.id);
      var l := FoundAt(s, table, f.id);
      SplitSound(s.bids, s.asks);
      assert s.asks[0] == levels[bids];
    }
  }

  lemma AskReaches(levels: seq<Level>, bids: nat, table: Table, bidId: u32, askId: u32)
    requires bids <= |levels| && SoundSides(SidesOf(levels, bids)) && QuotedSides(SidesOf(levels, bids), table)
    requires PairSettleable(SidesOf(levels, bids), table, bidId, askId)
    ensures Second(SidesOf(levels, bids), table, bidId, askId).fills != [] ==>
              && 0 < bids && table[askId].price <= levels[bids - 1].price
              && (bids < |levels| ==> table[bidId].price < levels[bids].price)
  {
    hide First, Second;
    var s := SidesOf(levels, bids);
    if Second(s, table, bidId, askId).fills != [] {
      var f := Second(s, table, bidId, askId).fills[0];
      AskFills(s, table, bidId, askId, f);
      PullCounts(s, Gone(table[bidId], table) + Gone(table[askId], table), f.id);
      var l := FoundAt(s, table, f.id);
      SplitSound(s.bids, s.asks);
      assert s.bids[bids - 1] == levels[bids - 1] && levels[bids - 1] in s.bids;
      if bids < |levels| {
        assert levels[bids] == s.asks[0] && levels[bids] in s.asks;
      }
    }
  }

  // ---------- Quantities when the fill loop is done ----------

  lemma PairLoopReady(s: Sides, table: Table, bidId: u32, askId: u32, taker: u32)
    requires SoundSides(s) && QuotedSides(s, table) && PairSettleable(s, table, bidId, askId)
    requires TakerOf(s, table, bidId, askId, taker)
    ensures var fills := PairMessage(s, table, bidId, askId).fills;
            && FillTotal(fills) <= table[taker].quantity
            && forall f | f in fills :: f.id in table && f.id != taker && table[f.id].buy != (taker == bidId)
  {
    hide First, Second;
    var f1, f2 := First(s, table, bidId, askId).fills, Second(s, table, bidId, askId).fills;
    OneLegTrades(s, table, bidId, askId);
    PairConserves(s, table, bidId, askId, Only(0));
    PairIs(s, table, bidId, askId);
    assert f1 + [] == f1 && [] + f2 == f2;
    forall f: Fill | f in f1 + f2
      ensures f.id in table && f.id != taker && table[f.id].buy != (taker == bidId)
    {
      if f in f1 {
        BidFills(s, table, bidId, askId, f);
      } else {
        AskFills(s, table, bidId, askId, f);
      }
    }
  }

  lemma PairIs(s: Sides, table: Table, bidId: u32, askId: u32)
    requires bidId in table && HasTarget(table[bidId], table) && askId in table && HasTarget(table[askId], table)
    ensures PairMessage(s, table, bidId, askId)
            == Outcome(Second(s, table, bidId, askId).sides, First(s, table, bidId, askId).fills + Second(s, table, bidId, askId).fills)
  {
  }

  ghost predicate AfterPairLoop(s: Sides, table: Table, bidId: u32, askId: u32, now: Table)
    requires bidId in table && HasTarget(table[bidId], table) && askId in table && HasTarget(table[askId], table)
  {
    && SameTerms(now, table)
    && now[bidId].quantity == table[bidId].quantity - FillTotal(First(s, table, bidId, askId).fills)
    && now[askId].quantity == table[askId].quantity - FillTotal(Second(s, table, bidId, askId).fills)
    && (table[bidId].Pulls() ==> table[bidId].otherId !in {bidId, askId} && now[table[bidId].otherId].quantity == PulledShares(s, table[bidId]))
    && (table[askId].Pulls() ==> table[askId].otherId !in {bidId, askId} && now[table[askId].otherId].quantity == PulledShares(s, table[askId]))
    && (table[bidId].Pulls() && table[askId].Pulls() ==> table[bidId].otherId != table[askId].otherId)
  }

  lemma PairAfterLoop(s: Sides, table: Table, bidId: u32, askId: u32, taker: u32)
    requires SoundSides(s) && Agrees(s, table) && PairSettleable(s, table, bidId, askId)
    requires TakerOf(s, table, bidId, askId, taker)
    ensures AfterPairLoop(s, table, bidId, askId, AfterFills(table, PairMessage(s, table, bidId, askId).fills, taker))
  {
    hide First, Second, SoundSides, Agrees, PairMessage, AfterFills, WeighFills, FillTotal, PulledShares, LeftResting,
         WeighSides;
    AgreesQuoted(s, table);
    var f1, f2 := First(s, table, bidId, askId).fills, Second(s, table, bidId, askId).fills;
    OneLegTrades(s, table, bidId, askId);
    PairConserves(s, table, bidId, askId, Only(0));
    PairIs(s, table, bidId, askId);
    PairFillIds(s, table, bidId, askId);
    FillsKeepTerms(table, f1 + f2, taker);
    LegTargets(s, table, bidId, askId);
    LegAfter(table, bidId, askId, bidId, f1, f2, taker);
    LegAfter(table, bidId, askId, askId, f1, f2, taker);
    TargetAfter(s, table, table[bidId], f1 + f2, taker);
    TargetAfter(s, table, table[askId], f1 + f2, taker);
  }

  lemma AgreesQuoted(s: Sides, table: Table)
    requires Agrees(s, table)
    ensures QuotedSides(s, table)
  {
  }

  lemma TargetAfter(s: Sides, table: Table, o: Order, fills: seq<Fill>, taker: u32)
    requires SoundSides(s) && Agrees(s, table) && HasTarget(o, table)
    requires o.Pulls() ==> Count(s.bids + s.asks, o.otherId) == 1 && o.otherId != taker
    requires o.Pulls() ==> forall f | f in fills :: f.id != o.otherId
    ensures o.Pulls() ==> o.otherId in AfterFills(table, fills, taker)
                          && AfterFills(table, fills, taker)[o.otherId].quantity == PulledShares(s, o)
  {
    if o.Pulls() {
      NoFillsOf(fills, o.otherId);
      MakerAfter(table, fills, taker, o.otherId);
      HeldQuantity(s, table, o.otherId);
    }
  }

  // ---------- Reserves ----------

  /** How a pair moves the book's total, as five moves. */
  lemma PairDelta(s: Sides, table: Table, bidId: u32, askId: u32, w: Weight)
    requires SoundSides(s) && QuotedSides(s, table) && PairSettleable(s, table, bidId, askId)
    ensures var m := PairMessage(s, table, bidId, askId);
            var bid, ask := table[bidId], table[askId];
            WeighSides(m.sides, w)
            == WeighSides(s, w) + -(WeighFills(m.fills, w) as int)
               + LeftResting(bid, First(s, table, bidId, askId).fills) * w(bidId) + LeftResting(ask, Second(s, table, bidId, askId).fills) * w(askId)
               + -(PulledShares(s, bid) as int) * w(bid.otherId) + -(PulledShares(s, ask) as int) * w(ask.otherId)
  {
    hide First, Second, SoundSides, QuotedSides, PairMessage, WeighSides, PulledShares, LeftResting;
    PairIs(s, table, bidId, askId);
    PairConserves(s, table, bidId, askId, w);
    WeighFillsConcat(First(s, table, bidId, askId).fills, Second(s, table, bidId, askId).fills, w);
    Negated(PulledShares(s, table[bidId]), w(table[bidId].otherId));
    Negated(PulledShares(s, table[askId]), w(table[askId].otherId));
  }

  /** The accounts between the steps of closing a pair: both legs rest, then both targets retire. */
  datatype Stages = Stages(traded: seq<Account>, bidRests: seq<Account>, askRests: seq<Account>, bidRetires: seq<Account>, end: seq<Account>)

  ghost predicate PairClosed(st: Stages, table: Table, bidId: u32, askId: u32, bidRest: int, askRest: int, bidPull: int,
                             askPull: int)
    requires bidId in table && askId in table
  {
    && ReservedBy(st.traded, st.bidRests, table, bidId, bidRest)
    && ReservedBy(st.bidRests, st.askRests, table, askId, askRest)
    && ReservedBy(st.askRests, st.bidRetires, table, table[bidId].otherId, -bidPull)
    && ReservedBy(st.bidRetires, st.end, table, table[askId].otherId, -askPull)
  }

  lemma PairClientInStep(s: Sides, table: Table, bidId: u32, askId: u32, c: nat, start: Account, st: Stages, held: Holds)
    requires SoundSides(s) && QuotedSides(s, table) && PairSettleable(s, table, bidId, askId)
    requires ReserveOk(start, c, s, table, held)
    requires c < |st.traded| && Released(start, st.traded[c], c, PairMessage(s, table, bidId, askId).fills, table)
    requires PairClosed(st, table, bidId, askId, LeftResting(table[bidId], First(s, table, bidId, askId).fills),
                        LeftResting(table[askId], Second(s, table, bidId, askId).fills),
                        PulledShares(s, table[bidId]), PulledShares(s, table[askId]))
    ensures |st.end| == |st.traded| && ReserveOk(st.end[c], c, PairMessage(s, table, bidId, askId).sides, table, held)
  {
    hide First, Second, SoundSides, QuotedSides, PairMessage, WeighSides, WeighFills, PulledShares, LeftResting,
         BidValue, AskShares;
    var bid, ask, fills := table[bidId], table[askId], PairMessage(s, table, bidId, askId).fills;
    var d1, d2 := LeftResting(bid, First(s, table, bidId, askId).fills), LeftResting(ask, Second(s, table, bidId, askId).fills);
    var d3, d4 := -(PulledShares(s, bid) as int), -(PulledShares(s, ask) as int);
    var w, u := BidValue(c, table), AskShares(c, table);
    PairDelta(s, table, bidId, askId, w);
    PairDelta(s, table, bidId, askId, u);
    FourShifts(st.traded[c], st.bidRests[c], st.askRests[c], st.bidRetires[c], st.end[c],
               d1 * w(bidId), d2 * w(askId), d3 * w(bid.otherId), d4 * w(ask.otherId),
               d1 * u(bidId), d2 * u(askId), d3 * u(bid.otherId), d4 * u(ask.otherId));
    var cash := d1 * w(bidId) + d2 * w(askId) + d3 * w(bid.otherId) + d4 * w(ask.otherId);
    var shares := d1 * u(bidId) + d2 * u(askId) + d3 * u(bid.otherId) + d4 * u(ask.otherId);
    ShiftTwice(start, st.traded[c], st.end[c], -(WeighFills(fills, w) as int), -(WeighFills(fills, u) as int), cash, shares);
    ReserveFollows(start, st.end[c], c, s, PairMessage(s, table, bidId, askId).sides, table,
                   -(WeighFills(fills, w) as int) + cash, -(WeighFills(fills, u) as int) + shares, held);
  }

  lemma FourShifts(a: Account, b: Account, c: Account, d: Account, e: Account,
                   c1: int, c2: int, c3: int, c4: int, s1: int, s2: int, s3: int, s4: int)
    requires Shift(a, b, c1, s1) && Shift(b, c, c2, s2) && Shift(c, d, c3, s3) && Shift(d, e, c4, s4)
    ensures Shift(a, e, c1 + c2 + c3 + c4, s1 + s2 + s3 + s4)
  {
    ShiftTwice(a, b, c, c1, s1, c2, s2);
    ShiftTwice(a, c, d, c1 + c2, s1 + s2, c3, s3);
    ShiftTwice(a, d, e, c1 + c2 + c3, s1 + s2 + s3, c4, s4);
  }
}
