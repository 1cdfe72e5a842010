/** ob_pair itself: the region by region serialization, its level count and its bid count. */
module PairRewrite {
  import opened Machine
  import opened Book
  import opened BookFacts
  import opened Legs
  import opened Snapshot
  import opened SnapshotWriter
  import opened Ranges
  import opened Rewrite
  import opened OneLeg
  import opened FirstLeg
  import opened Canrep
  import opened Pair
  import opened BookRuns
  import opened Priority
  import opened PriorityPair
  import opened SettlePair

  // ---------- The two sides a pair leaves ----------

  ghost function PairSides(levels: seq<Level>, bids: nat, gone: set<u32>, bid: Side, ask: Side, br: Range, ar: Range): Sides
    requires Applies(levels, bid, br) && Applies(levels, ask, ar) && bids <= |levels|
    requires br.lui <= After(br) <= ar.lui <= After(ar) <= |levels|
    requires LocalOp(br.op) ==> After(br) <= bids
    requires LocalOp(br.op) && LocalOp(ar.op) ==> bids <= ar.lui
  {
    var mb, ma := Mid(levels, bid, ask.target, br), Mid(levels, ask, bid.target, ar);
    if !LocalOp(br.op) then
      Sides(Prune(levels[..bids], gone) + Rested(bid, br),
            BittenLevel(levels, bid, ask.target, br) + Prune(levels[After(br)..ar.lui], gone) + ma + Prune(levels[After(ar)..], gone))
    else if LocalOp(ar.op) then
      Sides(Prune(levels[..br.lui], gone) + mb + Prune(levels[After(br)..bids], gone),
            Prune(levels[bids..ar.lui], gone) + ma + Prune(levels[After(ar)..], gone))
    else
      Sides(BelowAsk(levels, bids, gone, bid, ask.target, br, ar) + BittenLevel(levels, ask, bid.target, ar),
            Rested(ask, ar) + Prune(levels[bids..], gone))
  }

  /** How many of the new levels are bids. */
  ghost function PairBids(levels: seq<Level>, bids: nat, gone: set<u32>, br: Range, ar: Range): nat
    requires bids <= |levels| && br.lui <= After(br) <= ar.lui <= |levels|
    requires LocalOp(br.op) ==> After(br) <= bids
  {
    if !LocalOp(br.op) then |Prune(levels[..bids], gone)| + (if br.op == RestRemainder then 1 else 0)
    else if LocalOp(ar.op) then |Prune(levels[..br.lui], gone)| + LevelDelta(br.op) + |Prune(levels[After(br)..bids], gone)|
    else |Prune(levels[..br.lui], gone)| + LevelDelta(br.op) + |Prune(levels[After(br)..ar.lui], gone)|
         + (if ar.op == FillSome then 1 else 0)
  }

  /** Where the ranges lie relative to the old boundary. */
  lemma PairShape(levels: seq<Level>, bids: nat, table: Table, bid: Side, ask: Side,
                  br: Range, bf: seq<Fill>, bn: nat, ar: Range, af: seq<Fill>, an: nat)
    requires Legs2(levels, bids, table, bid, ask, br, bf, bn, ar, af, an)
    ensures br.lui <= After(br) <= ar.lui <= After(ar) <= |levels|
    ensures LocalOp(br.op) || LocalOp(ar.op)
    ensures LocalOp(br.op) ==> After(br) <= bids
    ensures LocalOp(ar.op) ==> bids <= ar.lui
    ensures !LocalOp(br.op) ==> br.lui == bids && br.op in {RestRemainder, Exact, FillSome}
    ensures !LocalOp(ar.op) ==> After(ar) == bids && ar.op in {RestRemainder, Exact, FillSome}
  {
    RangesOrdered(levels, bids, table, bid, ask, br, bf, bn, ar, af, an);
    OneTrades(levels, bids, table, bid, ask, br, bf, bn, ar, af, an);
    if LocalOp(br.op) {
      LocalRange(levels, bids, bid, ask.target, br, bf, bn);
    } else {
      TradeRangeShape(levels, bids, bid, ask.target, br, bf, bn);
    }
    if LocalOp(ar.op) {
      LocalRange(levels, bids, ask, bid.target, ar, af, an);
    } else {
      TradeRangeShape(levels, bids, ask, bid.target, ar, af, an);
    }
  }

  /** Both steps in turn. */
  lemma PairSteps(levels: seq<Level>, bids: nat, table: Table, bid: Side, ask: Side,
                  br: Range, bf: seq<Fill>, bn: nat, ar: Range, af: seq<Fill>, an: nat, gone: set<u32>)
    requires Legs2(levels, bids, table, bid, ask, br, bf, bn, ar, af, an) && gone == PairGone(table, bid, ask)
    ensures br.lui <= After(br) <= ar.lui <= After(ar) <= |levels|
    ensures LocalOp(br.op) ==> After(br) <= bids
    ensures LocalOp(ar.op) ==> bids <= ar.lui
    ensures var first := Step(Pull(SidesOf(levels, bids), gone), table, bid.rep, bid.orderId);
            && first.fills == bf + MidFills(levels, bid, ask.target, br)
            && Step(first.sides, table, ask.rep, ask.orderId)
               == Outcome(PairSides(levels, bids, gone, bid, ask, br, ar), af + MidFills(levels, ask, bid.target, ar))
  {
    PairShape(levels, bids, table, bid, ask, br, bf, bn, ar, af, an);
    BidReady(levels, bids, table, bid, ask, br, bf, bn, ar, af, an);
    LegOnOldBook(levels, bids, table, bid, ask.target, br, bf, bn, gone);
    if !LocalOp(br.op) {
      TradeThenLocal(levels, bids, table, bid, ask, br, bf, bn, ar, af, an, gone);
    } else if LocalOp(ar.op) {
      LocalThenLocal(levels, bids, table, bid, ask, br, bf, bn, ar, af, an, gone);
    } else {
      LocalThenTrade(levels, bids, table, bid, ask, br, bf, bn, ar, af, an, gone);
    }
  }

  /** The sides, joined, are the levels the serializer writes. */
  lemma PairWhole(levels: seq<Level>, bids: nat, gone: set<u32>, bid: Side, ask: Side, br: Range, ar: Range)
    requires Applies(levels, bid, br) && Applies(levels, ask, ar) && bids <= |levels|
    requires br.lui <= After(br) <= ar.lui <= After(ar) <= |levels|
    requires LocalOp(br.op) || LocalOp(ar.op)
    requires LocalOp(br.op) ==> After(br) <= bids
    requires LocalOp(ar.op) ==> bids <= ar.lui
    requires !LocalOp(br.op) ==> br.lui == bids && br.op in {RestRemainder, Exact, FillSome}
    requires !LocalOp(ar.op) ==> After(ar) == bids && ar.op in {RestRemainder, Exact, FillSome}
    ensures var sides := PairSides(levels, bids, gone, bid, ask, br, ar);
            && sides.bids + sides.asks == PairLevels(levels, bids, gone, bid, ask, br, ar)
            && |sides.bids| == PairBids(levels, bids, gone, br, ar)
  {
    var mb, ma := Mid(levels, bid, ask.target, br), Mid(levels, ask, bid.target, ar);
    var a, m, c := Prune(levels[..br.lui], gone), Prune(levels[After(br)..ar.lui], gone), Prune(levels[After(ar)..], gone);
    if !LocalOp(br.op) {
      var x, y := Rested(bid, br), BittenLevel(levels, bid, ask.target, br);
      assert x + y == mb;
      Join5(a, x, y, m, ma, c);
    } else if LocalOp(ar.op) {
      var m1, m2 := Prune(levels[After(br)..bids], gone), Prune(levels[bids..ar.lui], gone);
      PruneJoin(levels, After(br), bids, ar.lui, gone);
      Join4(a + mb, m1, m2, ma, c);
    } else {
      var x, y := BittenLevel(levels, ask, bid.target, ar), Rested(ask, ar);
      assert x + y == ma;
      Assoc(a + mb + m, x, y + c);
      Assoc(x, y, c);
      Assoc(a + mb + m, ma, c);
    }
  }

  lemma Join4(p: seq<Level>, m1: seq<Level>, m2: seq<Level>, ma: seq<Level>, c: seq<Level>)
    ensures (p + m1) + (m2 + ma + c) == p + (m1 + m2) + ma + c
  {
    Assoc(p + m1, m2 + ma, c);
    Assoc(p + m1, m2, ma);
    Assoc(p, m1, m2);
  }

  lemma Join5(a: seq<Level>, x: seq<Level>, y: seq<Level>, m: seq<Level>, ma: seq<Level>, c: seq<Level>)
    ensures (a + x) + (y + m + ma + c) == a + (x + y) + m + ma + c
  {
    Assoc(a + x, y + m + ma, c);
    Assoc(a + x, y + m, ma);
    Assoc(a + x, y, m);
    Assoc(a, x, y);
  }

  // ---------- What the copies watch for ----------

  ghost predicate ShrinkLeg(s: Side, table: Table)
    requires HasTarget(s.rep, table)
  {
    s.rep.Pulls() && Shrinks(s.rep, table[s.rep.otherId])
  }

  /** Away from a shrunk order's level, the copies take out exactly what leaves first. */
  lemma SegmentMatch(levels: seq<Level>, bids: nat, table: Table, bid: Side, ask: Side, i: nat, j: nat, part: seq<Level>)
    requires BookOk(levels) && Located(levels, bids, bid) && Located(levels, bids, ask)
    requires HasTarget(bid.rep, table) && HasTarget(ask.rep, table)
    requires i <= j <= |levels| && part == levels[i..j]
    requires ShrinkLeg(bid, table) ==> !(i <= bid.cancelIndex < j)
    requires ShrinkLeg(ask, table) ==> !(i <= ask.cancelIndex < j)
    ensures Prune(part, CancelIds([bid, ask])) == Prune(part, PairGone(table, bid, ask))
  {
    var watched, gone := CancelIds([bid, ask]), PairGone(table, bid, ask);
    forall l, e | l in part && e in l.orders
      ensures e.id in watched <==> e.id in gone
    {
      CancelIdsMember([bid, ask], e.id);
      var k :| i <= k < j && levels[k] == l;
      OccursMember(l.orders, e.id);
      if ShrinkLeg(bid, table) && e.id == bid.target.id {
        OnlyThere(levels, bid.cancelIndex, e.id, bid.target.order.quantity, k);
      }
      if ShrinkLeg(ask, table) && e.id == ask.target.id {
        OnlyThere(levels, ask.cancelIndex, e.id, ask.target.order.quantity, k);
      }
    }
    PruneSame(part, watched, gone);
  }

  lemma ShrunkInside(levels: seq<Level>, bids: nat, table: Table, bid: Side, ask: Side,
                     br: Range, bf: seq<Fill>, bn: nat, ar: Range, af: seq<Fill>, an: nat)
    requires Legs2(levels, bids, table, bid, ask, br, bf, bn, ar, af, an)
    ensures ShrinkLeg(bid, table) ==> br.lui == bid.cancelIndex < After(br)
    ensures ShrinkLeg(ask, table) ==> ar.lui == ask.cancelIndex < After(ar)
  {
  }

  ghost predicate SameCut(part: seq<Level>, a: set<u32>, b: set<u32>) {
    Prune(part, a) == Prune(part, b)
  }

  lemma PairCopyParts(levels: seq<Level>, bids: nat, table: Table, bid: Side, ask: Side, br: Range, ar: Range,
                      watched: set<u32>, gone: set<u32>)
    requires BookOk(levels) && bids <= |levels| && Located(levels, bids, bid) && Located(levels, bids, ask)
    requires HasTarget(bid.rep, table) && HasTarget(ask.rep, table)
    requires watched == CancelIds([bid, ask]) && gone == PairGone(table, bid, ask)
    requires br.lui <= After(br) <= ar.lui <= After(ar) <= |levels|
    requires LocalOp(br.op) ==> After(br) <= bids
    requires LocalOp(ar.op) ==> bids <= ar.lui
    requires ShrinkLeg(bid, table) ==> br.lui <= bid.cancelIndex < After(br)
    requires ShrinkLeg(ask, table) ==> ar.lui <= ask.cancelIndex < After(ar)
    ensures SameCut(levels[..br.lui], watched, gone)
    ensures SameCut(levels[After(br)..ar.lui], watched, gone)
    ensures SameCut(levels[After(ar)..], watched, gone)
    ensures LocalOp(br.op) && LocalOp(ar.op) ==> SameCut(levels[After(br)..bids], watched, gone)
  {
    SegmentMatch(levels, bids, table, bid, ask, 0, br.lui, levels[..br.lui]);
    SegmentMatch(levels, bids, table, bid, ask, After(br), ar.lui, levels[After(br)..ar.lui]);
    SegmentMatch(levels, bids, table, bid, ask, After(ar), |levels|, levels[After(ar)..]);
    if LocalOp(br.op) && LocalOp(ar.op) {
      SegmentMatch(levels, bids, table, bid, ask, After(br), bids, levels[After(br)..bids]);
    }
  }

  lemma PairCopies(levels: seq<Level>, bids: nat, table: Table, bid: Side, ask: Side,
                   br: Range, bf: seq<Fill>, bn: nat, ar: Range, af: seq<Fill>, an: nat)
    requires Legs2(levels, bids, table, bid, ask, br, bf, bn, ar, af, an)
    ensures br.lui <= After(br) <= ar.lui <= After(ar) <= |levels|
    ensures LocalOp(br.op) ==> After(br) <= bids
    ensures var watched, gone := CancelIds([bid, ask]), PairGone(table, bid, ask);
            && PairLevels(levels, bids, watched, bid, ask, br, ar) == PairLevels(levels, bids, gone, bid, ask, br, ar)
            && PairBids(levels, bids, watched, br, ar) == PairBids(levels, bids, gone, br, ar)
  {
    PairShape(levels, bids, table, bid, ask, br, bf, bn, ar, af, an);
    ShrunkInside(levels, bids, table, bid, ask, br, bf, bn, ar, af, an);
    PairCopyParts(levels, bids, table, bid, ask, br, ar, CancelIds([bid, ask]), PairGone(table, bid, ask));
    PartsGiveWhole(levels, bids, bid, ask, br, ar, CancelIds([bid, ask]), PairGone(table, bid, ask));
  }

  lemma PartsGiveWhole(levels: seq<Level>, bids: nat, bid: Side, ask: Side, br: Range, ar: Range, watched: set<u32>,
                       gone: set<u32>)
    requires Applies(levels, bid, br) && Applies(levels, ask, ar) && bids <= |levels|
    requires br.lui <= After(br) <= ar.lui <= After(ar) <= |levels|
    requires LocalOp(br.op) ==> After(br) <= bids
    requires !LocalOp(br.op) ==> br.lui == bids
    requires SameCut(levels[..br.lui], watched, gone)
    requires SameCut(levels[After(br)..ar.lui], watched, gone)
    requires SameCut(levels[After(ar)..], watched, gone)
    requires LocalOp(br.op) && LocalOp(ar.op) ==> SameCut(levels[After(br)..bids], watched, gone)
    ensures PairLevels(levels, bids, watched, bid, ask, br, ar) == PairLevels(levels, bids, gone, bid, ask, br, ar)
    ensures PairBids(levels, bids, watched, br, ar) == PairBids(levels, bids, gone, br, ar)
  {
  }

  // ---------- level_count and hi_bid_index, in 16-bit arithmetic ----------

  /** ob_op_covers: does the range cover this old level? */
  function OpCovers(idx: u16, lui: u16, hui: u16): bool {
    U16(idx - lui) < U16(hui - lui + 1)
  }

  /** The modular test is the plain one, the empty range and the sentinel included. */
  lemma OpCoversRight(idx: u16, r: Range)
    requires r.lui <= After(r)
    ensures OpCovers(idx, r.lui, r.hui) <==> r.lui <= idx < After(r)
  {
    if r.hui == MAX_U16 {
      U16Wraps(r.hui - r.lui + 1 - 0x1_0000 - 0x1_0000);
      assert r.hui - r.lui + 1 == 0x1_0000;
    } else {
      U16Same(r.hui - r.lui + 1);
    }
    if idx < r.lui {
      U16Wraps(idx - r.lui);
    } else {
      U16Same(idx - r.lui);
    }
  }

  /** A sole cancel costs a level only when a copy range would have carried it. */
  function CancelDrops(s: Side, br: Range, ar: Range): bool {
    s.Pulls() && s.cancelWasSole && !OpCovers(s.cancelIndex, br.lui, br.hui) && !OpCovers(s.cancelIndex, ar.lui, ar.hui)
  }

  function One(b: bool): nat {
    if b then 1 else 0
  }

  function PairLevelCount(bid: Side, ask: Side, br: Range, ar: Range, n: u16): u16 {
    var count := U16(br.lui + LevelDelta(br.op) + (ar.lui - br.hui - 1) + LevelDelta(ar.op) + (n - ar.hui - 1));
    U16(count - (One(CancelDrops(bid, br, ar)) + One(CancelDrops(ask, br, ar))))
  }

  /** The bid count, region by region. */
  function PairBidCount(bid: Side, ask: Side, br: Range, ar: Range, hi: u16): u16 {
    var ops := U16(br.lui + One(br.op != FillSome && LevelDelta(br.op) == 1) + One(ar.op == FillSome));
    if hi == MAX_U16 then ops
    else
      var midLo := U16(br.hui + 1);
      var midLen := U16(ar.lui - midLo);
      var mid := if midLen > 0 && hi >= midLo then (if hi - midLo + 1 < midLen then hi - midLo + 1 else midLen) else 0;
      U16(ops + mid
          - One(CancelDrops(bid, br, ar) && bid.cancelIndex <= hi)
          - One(CancelDrops(ask, br, ar) && ask.cancelIndex <= hi))
  }

  /** Levels lost to sole cancels in [i, j), both legs. */
  function Lost(bid: Side, ask: Side, i: nat, j: nat): nat {
    Dropped(bid, i, j) + Dropped(ask, i, j)
  }

  lemma CountsPair(levels: seq<Level>, bids: nat, bid: Side, ask: Side, i: nat, j: nat, part: seq<Level>)
    requires BookOk(levels) && SidesOk(levels, bids, [bid, ask]) && bid != ask
    requires i <= j <= |levels| && part == levels[i..j]
    ensures |Prune(part, CancelIds([bid, ask]))| == j - i - Lost(bid, ask, i, j)
  {
    PruneLength(levels, bids, [bid, ask], i, j);
    assert [bid, ask][1..] == [ask] && [ask][1..] == [];
    assert DroppedAll([bid, ask], i, j) == Dropped(bid, i, j) + DroppedAll([ask], i, j);
    assert DroppedAll([ask], i, j) == Dropped(ask, i, j) + DroppedAll([], i, j);
  }

  lemma PairLevelCountRight(bid: Side, ask: Side, br: Range, ar: Range, n: u16)
    requires br.lui <= After(br) <= ar.lui <= After(ar) <= n < 0xFFFE
    requires bid.Pulls() ==> bid.cancelIndex < n
    requires ask.Pulls() ==> ask.cancelIndex < n
    requires bid.Pulls() && ask.Pulls() ==> bid.cancelIndex != ask.cancelIndex
    ensures PairLevelCount(bid, ask, br, ar, n)
            == br.lui - Lost(bid, ask, 0, br.lui) + LevelDelta(br.op)
               + (ar.lui - After(br)) - Lost(bid, ask, After(br), ar.lui) + LevelDelta(ar.op)
               + (n - After(ar)) - Lost(bid, ask, After(ar), n)
  {
    OpCoversRight(bid.cancelIndex, br);
    OpCoversRight(bid.cancelIndex, ar);
    OpCoversRight(ask.cancelIndex, br);
    OpCoversRight(ask.cancelIndex, ar);
    var plain := br.lui + LevelDelta(br.op) + (ar.lui - After(br)) + LevelDelta(ar.op) + (n - After(ar));
    var turns := One(br.hui == MAX_U16) + One(ar.hui == MAX_U16);
    U16Turns(plain, turns);
    assert plain - 0x1_0000 * turns
           == br.lui + LevelDelta(br.op) + (ar.lui - br.hui - 1) + LevelDelta(ar.op) + (n - ar.hui - 1);
    DropsRight(bid, br, ar, n);
    DropsRight(ask, br, ar, n);
    U16Same(plain - (One(CancelDrops(bid, br, ar)) + One(CancelDrops(ask, br, ar))));
  }

  lemma U16Turns(x: int, turns: nat)
    requires 0 <= x < 0x1_0000 && turns <= 2
    ensures U16(x - 0x1_0000 * turns) == x
  {
  }

  /** A cancel drops a level exactly when it sits in one of the three copied regions. */
  lemma DropsRight(s: Side, br: Range, ar: Range, n: u16)
    requires br.lui <= After(br) <= ar.lui <= After(ar) <= n
    requires s.Pulls() ==> s.cancelIndex < n
    ensures One(CancelDrops(s, br, ar)) == Dropped(s, 0, br.lui) + Dropped(s, After(br), ar.lui) + Dropped(s, After(ar), n)
  {
    OpCoversRight(s.cancelIndex, br);
    OpCoversRight(s.cancelIndex, ar);
  }

  lemma TwoSides(levels: seq<Level>, bids: nat, table: Table, bid: Side, ask: Side)
    requires Located(levels, bids, bid) && Located(levels, bids, ask)
    requires PairTable(levels, bids, table, bid.rep, ask.rep)
    requires bid.target.Target? ==> bid.target.order == table[bid.rep.otherId]
    requires ask.target.Target? ==> ask.target.order == table[ask.rep.otherId]
    ensures SidesOk(levels, bids, [bid, ask]) && bid != ask
    ensures bid.Pulls() ==> bid.cancelIndex < bids
    ensures ask.Pulls() ==> bids <= ask.cancelIndex < |levels|
  {
    forall s | s in [bid, ask]
      ensures s == bid || s == ask
    {
    }
  }

  /** The header's count is the number of levels that follow. */
  lemma PairCountRight(levels: seq<Level>, bids: nat, bid: Side, ask: Side, br: Range, ar: Range)
    requires BookOk(levels) && |levels| < 0xFFFE && SidesOk(levels, bids, [bid, ask]) && bid != ask
    requires Applies(levels, bid, br) && Applies(levels, ask, ar)
    requires br.lui <= After(br) <= ar.lui <= After(ar) <= |levels|
    requires bid.Pulls() ==> bid.cancelIndex < bids <= |levels|
    requires ask.Pulls() ==> bids <= ask.cancelIndex < |levels|
    ensures PairLevelCount(bid, ask, br, ar, |levels|) == |PairLevels(levels, bids, CancelIds([bid, ask]), bid, ask, br, ar)|
  {
    CountsPair(levels, bids, bid, ask, 0, br.lui, levels[..br.lui]);
    CountsPair(levels, bids, bid, ask, After(br), ar.lui, levels[After(br)..ar.lui]);
    CountsPair(levels, bids, bid, ask, After(ar), |levels|, levels[After(ar)..]);
    PairLevelCountRight(bid, ask, br, ar, |levels|);
  }

  /** How many of the new levels are bids, in plain arithmetic. */
  function PlainBids(bids: nat, bid: Side, ask: Side, br: Range, ar: Range): int {
    if !LocalOp(br.op) then bids - Lost(bid, ask, 0, bids) + One(br.op == RestRemainder)
    else
      br.lui - Lost(bid, ask, 0, br.lui) + LevelDelta(br.op)
      + (if LocalOp(ar.op) then MidBids(bid, ask, After(br), bids) else MidBids(bid, ask, After(br), ar.lui) + One(ar.op == FillSome))
  }

  function MidBids(bid: Side, ask: Side, i: nat, j: nat): int {
    j - i - Lost(bid, ask, i, j)
  }

  lemma PairBidsPlain(levels: seq<Level>, bids: nat, table: Table, bid: Side, ask: Side,
                      br: Range, bf: seq<Fill>, bn: nat, ar: Range, af: seq<Fill>, an: nat)
    requires Legs2(levels, bids, table, bid, ask, br, bf, bn, ar, af, an)
    ensures br.lui <= After(br) <= ar.lui <= After(ar) <= |levels|
    ensures LocalOp(br.op) ==> After(br) <= bids
    ensures PairBids(levels, bids, CancelIds([bid, ask]), br, ar) == PlainBids(bids, bid, ask, br, ar)
  {
    PairShape(levels, bids, table, bid, ask, br, bf, bn, ar, af, an);
    TwoSides(levels, bids, table, bid, ask);
    if !LocalOp(br.op) {
      CountsPair(levels, bids, bid, ask, 0, bids, levels[..bids]);
    } else {
      CountsPair(levels, bids, bid, ask, 0, br.lui, levels[..br.lui]);
      if LocalOp(ar.op) {
        CountsPair(levels, bids, bid, ask, After(br), bids, levels[After(br)..bids]);
      } else {
        CountsPair(levels, bids, bid, ask, After(br), ar.lui, levels[After(br)..ar.lui]);
      }
    }
  }

  /** The old bids inside the middle copy, as the program counts them. */
  lemma MiddleBids(br: Range, ar: Range, bids: nat)
    requires br.lui <= After(br) <= ar.lui && 0 < bids < 0xFFFF
    ensures var midLo, hi := U16(br.hui + 1), bids - 1; var midLen := U16(ar.lui - midLo);
            && midLo == After(br) && midLen == ar.lui - After(br)
            && (if midLen > 0 && hi >= midLo then (if hi - midLo + 1 < midLen then hi - midLo + 1 else midLen) else 0)
               == (if bids <= After(br) then 0 else if bids < ar.lui then bids - After(br) else ar.lui - After(br))
  {
    if br.hui == MAX_U16 {
      U16Turns(0, 0);
      assert br.hui + 1 == 0x1_0000;
    } else {
      U16Same(br.hui + 1);
    }
    U16Same(ar.lui - After(br));
  }

  /** Each sole cancel below the boundary that a copy range drops is one bid fewer. */
  lemma BidDrops(s: Side, br: Range, ar: Range, bids: nat)
    requires br.lui <= After(br) <= ar.lui <= After(ar)
    requires LocalOp(br.op) ==> After(br) <= bids
    requires LocalOp(ar.op) ==> bids <= ar.lui
    requires !LocalOp(br.op) ==> br.lui == bids
    requires !LocalOp(ar.op) ==> After(ar) == bids
    requires LocalOp(br.op) || LocalOp(ar.op)
    ensures One(CancelDrops(s, br, ar) && s.cancelIndex < bids)
            == (if !LocalOp(br.op) then Dropped(s, 0, bids)
                else Dropped(s, 0, br.lui) + (if LocalOp(ar.op) then Dropped(s, After(br), bids) else Dropped(s, After(br), ar.lui)))
  {
    OpCoversRight(s.cancelIndex, br);
    OpCoversRight(s.cancelIndex, ar);
  }

  /** hi_bid_index, counted region by region, is the boundary of the new book. */
  lemma PairBidCountRight(bids: nat, bid: Side, ask: Side, br: Range, ar: Range)
    requires br.lui <= After(br) <= ar.lui <= After(ar) && bids < 0xFFFE
    requires LocalOp(br.op) || LocalOp(ar.op)
    requires LocalOp(br.op) ==> After(br) <= bids
    requires LocalOp(ar.op) ==> bids <= ar.lui
    requires !LocalOp(br.op) ==> br.lui == bids && br.op in {RestRemainder, Exact, FillSome}
    requires !LocalOp(ar.op) ==> After(ar) == bids && ar.op in {RestRemainder, Exact, FillSome}
    requires bid.Pulls() ==> bid.cancelIndex < bids
    requires ask.Pulls() ==> bids <= ask.cancelIndex
    ensures PairBidCount(bid, ask, br, ar, HiBid(bids)) == PlainBids(bids, bid, ask, br, ar)
  {
    hide CancelDrops, Dropped, OpCovers, U16;
    BidDrops(bid, br, ar, bids);
    BidDrops(ask, br, ar, bids);
    U16Same(br.lui + One(br.op != FillSome && LevelDelta(br.op) == 1) + One(ar.op == FillSome));
    if bids > 0 {
      MiddleBids(br, ar, bids);
      PlainSplit(bids, bid, ask, br, ar);
      U16Same(PlainBids(bids, bid, ask, br, ar));
    }
  }

  /** The three regions and the drops add up to the plain count. */
  lemma PlainSplit(bids: nat, bid: Side, ask: Side, br: Range, ar: Range)
    requires br.lui <= After(br) <= ar.lui <= After(ar)
    requires LocalOp(br.op) || LocalOp(ar.op)
    requires LocalOp(br.op) ==> After(br) <= bids
    requires LocalOp(ar.op) ==> bids <= ar.lui
    requires !LocalOp(br.op) ==> br.lui == bids && br.op in {RestRemainder, Exact, FillSome}
    requires !LocalOp(ar.op) ==> After(ar) == bids && ar.op in {RestRemainder, Exact, FillSome}
    requires bid.Pulls() ==> bid.cancelIndex < bids
    requires ask.Pulls() ==> bids <= ask.cancelIndex
    ensures PlainBids(bids, bid, ask, br, ar)
            == br.lui + One(br.op != FillSome && LevelDelta(br.op) == 1) + One(ar.op == FillSome)
               + (if bids <= After(br) then 0 else if bids < ar.lui then bids - After(br) else ar.lui - After(br))
               - One(CancelDrops(bid, br, ar) && bid.cancelIndex < bids) - One(CancelDrops(ask, br, ar) && ask.cancelIndex < bids)
    ensures 0 <= PlainBids(bids, bid, ask, br, ar) <= bids + 2
  {
    BidDrops(bid, br, ar, bids);
    BidDrops(ask, br, ar, bids);
  }

  // ---------- The size of the new snapshot ----------

  lemma AskCovers(levels: seq<Level>, bids: nat, table: Table, bid: Side, ask: Side,
                  br: Range, bf: seq<Fill>, bn: nat, ar: Range, af: seq<Fill>, an: nat)
    requires Legs2(levels, bids, table, bid, ask, br, bf, bn, ar, af, an)
    ensures ar.op in {Append, CanRep, CanNoWipe, Shrink} ==> After(ar) == ar.lui + 1
    ensures ar.op == FillSome ==> ar.lui <= ar.modified < After(ar)
  {
    if LocalOp(ar.op) {
      LocalRange(levels, bids, ask, bid.target, ar, af, an);
    } else {
      TradeRangeShape(levels, bids, ask, bid.target, ar, af, an);
      FacingLength(levels, bids, false);
    }
  }

  /** Five runs of levels take the words of each. */
  lemma FiveRuns(a: seq<Level>, x: seq<Level>, m: seq<Level>, y: seq<Level>, c: seq<Level>)
    ensures |Data(a + x + m + y + c)| == |Data(a)| + |Data(x)| + |Data(m)| + |Data(y)| + |Data(c)|
  {
    DataConcat(a + x + m + y, c);
    DataConcat(a + x + m, y);
    DataConcat(a + x, m);
    DataConcat(a, x);
  }

  /** Size over the five parts of a pair's rewrite. */
  lemma FiveSizes(levels: seq<Level>, a: seq<Level>, x: seq<Level>, m: seq<Level>, y: seq<Level>, c: seq<Level>,
                  mx: seq<Level>, my: seq<Level>, gone: set<u32>)
    requires levels == a + x + m + y + c
    requires Grows(x, mx) && Grows(y, my)
    ensures Size(Prune(a, gone) + mx + Prune(m, gone) + my + Prune(c, gone)) <= Size(levels) + 2 * (INDEX_BYTES + LEVEL_BYTES + ENTRY_BYTES)
  {
    FiveRuns(a, x, m, y, c);
    FiveRuns(Prune(a, gone), mx, Prune(m, gone), my, Prune(c, gone));
    PruneSize(a, gone);
    PruneSize(m, gone);
    PruneSize(c, gone);
  }

  /** What replaces a range takes at most one index entry, header and order entry more. */
  ghost predicate Grows(range: seq<Level>, mid: seq<Level>) {
    INDEX_BYTES * |mid| + 4 * |Data(mid)| <= INDEX_BYTES * |range| + 4 * |Data(range)| + INDEX_BYTES + LEVEL_BYTES + ENTRY_BYTES
  }

  /** A pair grows the snapshot by at most two index entries, headers and order entries. */
  lemma PairSize(levels: seq<Level>, bids: nat, table: Table, bid: Side, ask: Side,
                 br: Range, bf: seq<Fill>, bn: nat, ar: Range, af: seq<Fill>, an: nat, gone: set<u32>)
    requires Legs2(levels, bids, table, bid, ask, br, bf, bn, ar, af, an)
    requires br.lui <= After(br) <= ar.lui <= After(ar) <= |levels|
    ensures Size(PairLevels(levels, bids, gone, bid, ask, br, ar)) <= Size(levels) + 2 * (INDEX_BYTES + LEVEL_BYTES + ENTRY_BYTES)
  {
    BidCovers(levels, bids, table, bid, ask, br, bf, bn, ar, af, an);
    AskCovers(levels, bids, table, bid, ask, br, bf, bn, ar, af, an);
    SplitSize(levels, bids, bid, ask, br, ar, gone);
  }

  lemma SplitSize(levels: seq<Level>, bids: nat, bid: Side, ask: Side, br: Range, ar: Range, gone: set<u32>)
    requires Applies(levels, bid, br) && Applies(levels, ask, ar)
    requires br.lui <= After(br) <= ar.lui <= After(ar) <= |levels|
    requires br.op in {Append, CanRep, CanNoWipe, Shrink} ==> After(br) == br.lui + 1
    requires br.op == FillSome ==> br.lui <= br.modified < After(br)
    requires ar.op in {Append, CanRep, CanNoWipe, Shrink} ==> After(ar) == ar.lui + 1
    requires ar.op == FillSome ==> ar.lui <= ar.modified < After(ar)
    ensures Size(PairLevels(levels, bids, gone, bid, ask, br, ar)) <= Size(levels) + 2 * (INDEX_BYTES + LEVEL_BYTES + ENTRY_BYTES)
  {
    MidSize(levels, bid, ask.target, br);
    MidSize(levels, ask, bid.target, ar);
    SplitFive(levels, br.lui, After(br), ar.lui, After(ar));
    FiveSizes(levels, levels[..br.lui], levels[br.lui..After(br)], levels[After(br)..ar.lui], levels[ar.lui..After(ar)], levels[After(ar)..],
              Mid(levels, bid, ask.target, br), Mid(levels, ask, bid.target, ar), gone);
  }

  lemma SplitFive<T>(s: seq<T>, i: nat, j: nat, k: nat, l: nat)
    requires i <= j <= k <= l <= |s|
    ensures s == s[..i] + s[i..j] + s[j..k] + s[k..l] + s[l..]
  {
  }

  // ---------- ob_pair ----------

  /** The fills as the program queues them are those of the legs in turn: one leg has none. */
  lemma PairFills(levels: seq<Level>, bids: nat, table: Table, bid: Side, ask: Side,
                  br: Range, bf: seq<Fill>, bn: nat, ar: Range, af: seq<Fill>, an: nat)
    requires Legs2(levels, bids, table, bid, ask, br, bf, bn, ar, af, an)
    ensures var mb, ma := MidFills(levels, bid, ask.target, br), MidFills(levels, ask, bid.target, ar);
            bf + af + mb + ma == (bf + mb) + (af + ma)
  {
    OneTrades(levels, bids, table, bid, ask, br, bf, bn, ar, af, an);
    if LocalOp(br.op) {
      LocalRange(levels, bids, bid, ask.target, br, bf, bn);
    } else {
      LocalRange(levels, bids, ask, bid.target, ar, af, an);
    }
    TakenTogether(bf, af, MidFills(levels, bid, ask.target, br), MidFills(levels, ask, bid.target, ar));
  }

  lemma TakenTogether(a: seq<Fill>, b: seq<Fill>, c: seq<Fill>, d: seq<Fill>)
    requires (a == [] && c == []) || (b == [] && d == [])
    ensures a + b + c + d == (a + c) + (b + d)
  {
  }

  lemma PairTogether(levels: seq<Level>, bids: nat, table: Table, bid: Side, ask: Side,
                     br: Range, bf: seq<Fill>, bn: nat, ar: Range, af: seq<Fill>, an: nat)
    requires Legs2(levels, bids, table, bid, ask, br, bf, bn, ar, af, an) && |levels| < 0xFFFE
    requires bid.orderId in table && table[bid.orderId] == bid.rep && ask.orderId in table && table[ask.orderId] == ask.rep
    ensures br.lui <= After(br) <= ar.lui <= After(ar) <= |levels|
    ensures var all := PairLevels(levels, bids, CancelIds([bid, ask]), bid, ask, br, ar);
            var meaning := PairMessage(SidesOf(levels, bids), table, bid.orderId, ask.orderId);
            && meaning.sides.bids + meaning.sides.asks == all
            && |meaning.sides.bids| == PlainBids(bids, bid, ask, br, ar)
            && meaning.fills == bf + af + MidFills(levels, bid, ask.target, br) + MidFills(levels, ask, bid.target, ar)
  {
    var gone := PairGone(table, bid, ask);
    PairShape(levels, bids, table, bid, ask, br, bf, bn, ar, af, an);
    PairSteps(levels, bids, table, bid, ask, br, bf, bn, ar, af, an, gone);
    PairWhole(levels, bids, gone, bid, ask, br, ar);
    PairCopies(levels, bids, table, bid, ask, br, bf, bn, ar, af, an);
    PairBidsPlain(levels, bids, table, bid, ask, br, bf, bn, ar, af, an);
    PairFills(levels, bids, table, bid, ask, br, bf, bn, ar, af, an);
  }

  /** Both legs resolved on the old book. */
  method PairSideInits(table: Table, bidId: u32, askId: u32, m: Mbo, ghost levels: seq<Level>, ghost bids: nat)
    returns (bid: Side, ask: Side, br: Range, bf: seq<Fill>, ar: Range, af: seq<Fill>, ghost bn: nat, ghost an: nat)
    requires PairReady(m, levels, bids, table, bidId, askId)
    ensures Legs2(levels, bids, table, bid, ask, br, bf, bn, ar, af, an)
    ensures bid.orderId == bidId && bid.rep == table[bidId] && ask.orderId == askId && ask.rep == table[askId]
  {
    bid := SideInit(table, m, levels, bids, bidId);
    ask := SideInit(table, m, levels, bids, askId);
    PairTargets(levels, bids, table, bid, ask);
    br, bf, bn := AffectedRange(m, levels, bids, bid, ask.target);
    ar, af, an := AffectedRange(m, levels, bids, ask, bid.target);
    PlanApplies(levels, bids, bid, ask.target, br, bf, bn);
    PlanApplies(levels, bids, ask, bid.target, ar, af, an);
  }

  lemma PairTargets(levels: seq<Level>, bids: nat, table: Table, bid: Side, ask: Side)
    requires BookOk(levels) && bids <= |levels| && Located(levels, bids, bid) && Located(levels, bids, ask)
    requires PairTable(levels, bids, table, bid.rep, ask.rep)
    requires bid.target.Target? ==> bid.target.order == table[bid.rep.otherId]
    requires ask.target.Target? ==> ask.target.order == table[ask.rep.otherId]
    ensures TargetsOk(levels, bid.Own(), ask.target) && TargetsOk(levels, ask.Own(), bid.target)
  {
  }

  /** Everything the serializer relies on, and what its result will mean. */
  ghost predicate Planned(levels: seq<Level>, bids: nat, table: Table, bidId: u32, askId: u32,
                          bid: Side, ask: Side, br: Range, ar: Range, fills: seq<Fill>)
    requires bidId in table && HasTarget(table[bidId], table) && askId in table && HasTarget(table[askId], table)
    requires bids <= |levels| < 0xFFFE
  {
    && Applies(levels, bid, br) && Applies(levels, ask, ar) && SidesOk(levels, bids, [bid, ask])
    && br.lui <= After(br) <= ar.lui <= After(ar) <= |levels|
    && var all := PairLevels(levels, bids, CancelIds([bid, ask]), bid, ask, br, ar);
       var meaning := PairMessage(SidesOf(levels, bids), table, bidId, askId);
       && meaning.sides.bids + meaning.sides.asks == all
       && meaning.fills == fills + (MidFills(levels, bid, ask.target, br) + MidFills(levels, ask, bid.target, ar))
       && PairLevelCount(bid, ask, br, ar, |levels|) == |all|
       && PairBidCount(bid, ask, br, ar, HiBid(bids)) == |meaning.sides.bids|
       && Size(all) <= Size(levels) + 2 * (INDEX_BYTES + LEVEL_BYTES + ENTRY_BYTES)
  }

  lemma LegsPlanned(levels: seq<Level>, bids: nat, table: Table, bid: Side, ask: Side,
                    br: Range, bf: seq<Fill>, bn: nat, ar: Range, af: seq<Fill>, an: nat)
    requires Legs2(levels, bids, table, bid, ask, br, bf, bn, ar, af, an) && |levels| < 0xFFFE
    requires bid.orderId in table && table[bid.orderId] == bid.rep && ask.orderId in table && table[ask.orderId] == ask.rep
    ensures Planned(levels, bids, table, bid.orderId, ask.orderId, bid, ask, br, ar, bf + af)
  {
    TwoSides(levels, bids, table, bid, ask);
    PairTogether(levels, bids, table, bid, ask, br, bf, bn, ar, af, an);
    PairSize(levels, bids, table, bid, ask, br, bf, bn, ar, af, an, CancelIds([bid, ask]));
    PairHeader(levels, bids, table, bid, ask, br, bf, bn, ar, af, an);
    Assoc(bf + af, MidFills(levels, bid, ask.target, br), MidFills(levels, ask, bid.target, ar));
  }

  method PairPlan(table: Table, bidId: u32, askId: u32, m: Mbo, ghost levels: seq<Level>, ghost bids: nat)
    returns (bid: Side, ask: Side, br: Range, ar: Range, fills: seq<Fill>)
    requires PairReady(m, levels, bids, table, bidId, askId)
    ensures Planned(levels, bids, table, bidId, askId, bid, ask, br, ar, fills)
  {
    ghost var bn, an;
    var bf, af;
    bid, ask, br, bf, ar, af, bn, an := PairSideInits(table, bidId, askId, m, levels, bids);
    LegsPlanned(levels, bids, table, bid, ask, br, bf, bn, ar, af, an);
    fills := bf + af;
  }

  /** The legs of a pair the rewrite takes stand where time and price put them. */
  lemma ReadyPlaced(levels: seq<Level>, bids: nat, table: Table, bidId: u32, askId: u32)
    requires BookOk(levels) && bids <= |levels| && bidId in table && askId in table && Count(levels, bidId) == 0
    requires PairTable(levels, bids, table, table[bidId], table[askId])
    ensures PairPlaced(SidesOf(levels, bids), table, bidId, askId)
  {
    hide PairPlaced, Queue, RestsAt, BookOk, Sound, Count;
    var s := SidesOf(levels, bids);
    SoundIsOk(levels);
    assert s.bids + s.asks == levels;
    forall x | (table[bidId].Pulls() && x == table[bidId].otherId) || (table[askId].Pulls() && x == table[askId].otherId)
      ensures Waiting(s, table, x)
    {
      RestingWaits(levels, bids, table, x);
    }
    PairTurns(s, table, bidId, askId);
  }

  method ObPair(table: Table, bidId: u32, askId: u32, m: Mbo, ghost levels: seq<Level>, ghost bids: nat)
    returns (now: Mbo, size: nat, fills: seq<Fill>)
    requires PairReady(m, levels, bids, table, bidId, askId)
    ensures Refines(now, size, fills, PairMessage(SidesOf(levels, bids), table, bidId, askId))
    ensures PairPlaced(SidesOf(levels, bids), table, bidId, askId)
    ensures size <= Size(levels) + 2 * (INDEX_BYTES + LEVEL_BYTES + ENTRY_BYTES)
  {
    ReadyPlaced(levels, bids, table, bidId, askId);
    var bid, ask, br, ar, rangeFills := PairPlan(table, bidId, askId, m, levels, bids);
    var levelCount := PairLevelCount(bid, ask, br, ar, m.levelCount);
    var to, opFills := SerializePair(m, levels, bids, bid, ask, br, ar);
    fills := rangeFills + opFills;
    var count := PairBidCount(bid, ask, br, ar, m.hiBidIndex);
    now, size := to.Finish(if count > 0 then count - 1 else MAX_U16, levelCount);
  }

  lemma PairHeader(levels: seq<Level>, bids: nat, table: Table, bid: Side, ask: Side,
                   br: Range, bf: seq<Fill>, bn: nat, ar: Range, af: seq<Fill>, an: nat)
    requires Legs2(levels, bids, table, bid, ask, br, bf, bn, ar, af, an) && |levels| < 0xFFFE
    ensures br.lui <= After(br) <= ar.lui <= After(ar) <= |levels|
    ensures PairLevelCount(bid, ask, br, ar, |levels|) == |PairLevels(levels, bids, CancelIds([bid, ask]), bid, ask, br, ar)|
    ensures PairBidCount(bid, ask, br, ar, HiBid(bids)) == PlainBids(bids, bid, ask, br, ar)
  {
    PairShape(levels, bids, table, bid, ask, br, bf, bn, ar, af, an);
    TwoSides(levels, bids, table, bid, ask);
    PairCountRight(levels, bids, bid, ask, br, ar);
    PairBidCountRight(bids, bid, ask, br, ar);
  }

  /** Three copied runs around the two ops. */
  method SerializePair(m: Mbo, ghost levels: seq<Level>, ghost bids: nat, bid: Side, ask: Side, br: Range, ar: Range)
    returns (to: Writer, fills: seq<Fill>)
    requires OldBook(m, levels, bids) && SidesOk(levels, bids, [bid, ask])
    requires Applies(levels, bid, br) && Applies(levels, ask, ar)
    requires br.lui <= After(br) <= ar.lui <= After(ar) <= |levels|
    ensures fresh(to) && to.Valid() && to.open == []
    ensures to.levels == PairLevels(levels, bids, CancelIds([bid, ask]), bid, ask, br, ar)
    ensures fills == MidFills(levels, bid, ask.target, br) + MidFills(levels, ask, bid.target, ar)
  {
    hide Prune, CancelIds, Mid, MidFills, SidesOk, Applies, Located;
    var from := new Cursor(m, levels);
    to := new Writer();
    var sides := [bid, ask];
    CopyRange(from, to, bids, 0, br.lui, sides);
    assert levels[0..br.lui] == levels[..br.lui];
    assert to.levels == Prune(levels[..br.lui], CancelIds(sides));
    var bidFills := ApplyOp(bid, ask.target, br, from, to);
    CopyRange(from, to, bids, After(br), ar.lui, sides);
    var askFills := ApplyOp(ask, bid.target, ar, from, to);
    CopyRange(from, to, bids, After(ar), m.levelCount, sides);
    assert levels[After(ar)..|levels|] == levels[After(ar)..];
    fills := bidFills + askFills;
  }
}
