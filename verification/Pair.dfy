/** ob_pair: an atomic bid and ask in one pass equals pulling both targets and then submitting
the bid and the ask in turn. */
module Pair {
  import opened Machine
  import opened Book
  import opened BookFacts
  import opened Legs
  import opened Snapshot
  import opened SnapshotWriter
  import opened Ranges
  import opened Rewrite
  import opened OneLeg
  import opened FirstLeg
  import opened Canrep

  // ---------- The contract of a pair ----------

  /** What pair_precheck establishes, with each leg's target resting on that leg's own side. */
  ghost predicate PairReady(m: Mbo, levels: seq<Level>, bids: nat, table: Table, bidId: u32, askId: u32) {
    && OldBook(m, levels, bids)
    && |levels| < 0xFFFE  // two more levels still fit the 16-bit count
    && (forall l | l in levels :: |l.orders| <= COPY_LIMIT)
    && bidId in table && askId in table
    && Count(levels, bidId) == 0  // a freshly minted id rests nowhere
    && PairTable(levels, bids, table, table[bidId], table[askId])
  }

  ghost predicate PairTable(levels: seq<Level>, bids: nat, table: Table, bid: Order, ask: Order) {
    && bid.buy && !ask.buy
    && Accepted(levels, bids, table, bid) && Accepted(levels, bids, table, ask)
    && !bid.market && bid.Gtc() && !ask.market && ask.Gtc()
    && (bid.PureCancel() <==> ask.PureCancel())
    && (!bid.PureCancel() ==> bid.price < ask.price)
    && (bid.Pulls() ==> table[bid.otherId].buy)
    && (ask.Pulls() ==> !table[ask.otherId].buy)
  }

  /** Both legs resolved against the old book, each with its range. */
  ghost predicate Legs2(levels: seq<Level>, bids: nat, table: Table, bid: Side, ask: Side,
                        br: Range, bf: seq<Fill>, bn: nat, ar: Range, af: seq<Fill>, an: nat)
  {
    && BookOk(levels) && |levels| < 0xFFFF && bids <= |levels|
    && PairTable(levels, bids, table, bid.rep, ask.rep)
    && Located(levels, bids, bid) && Located(levels, bids, ask)
    && (bid.target.Target? ==> bid.target.order == table[bid.rep.otherId])
    && (ask.target.Target? ==> ask.target.order == table[ask.rep.otherId])
    && SidePlan(levels, bids, bid, ask.target, br, bf, bn)
    && SidePlan(levels, bids, ask, bid.target, ar, af, an)
    && Applies(levels, bid, br) && Applies(levels, ask, ar)
    && Count(levels, bid.orderId) == 0
  }

  ghost function PairGone(table: Table, bid: Side, ask: Side): set<u32>
    requires HasTarget(bid.rep, table) && HasTarget(ask.rep, table)
  {
    Gone(bid.rep, table) + Gone(ask.rep, table)
  }

  // ---------- Each leg is ready ----------

  /** At a level where the other leg pulls nothing, both legs together take what this leg takes. */
  lemma OnlyOwn(orders: seq<Entry>, own: set<u32>, other: set<u32>, otherId: u32)
    requires other <= {otherId} && Occurs(orders, otherId) == 0
    ensures Keep(orders, own + other) == Keep(orders, own)
    ensures Keep(orders, other + own) == Keep(orders, own)
  {
    OccursMember(orders, otherId);
    KeepSame(orders, own + other, own);
    KeepSame(orders, other + own, own);
  }

  /** The slot of one leg is untouched by the other leg's cancel. */
  lemma PairSlot(levels: seq<Level>, bids: nat, table: Table, s: Side, other: Side, r: Range, fills: seq<Fill>, n: nat,
                 gone: set<u32>)
    requires BookOk(levels) && bids <= |levels| && Located(levels, bids, s) && Located(levels, bids, other)
    requires HasTarget(s.rep, table) && HasTarget(other.rep, table)
    requires s.target.Target? ==> s.target.order == table[s.rep.otherId]
    requires s.target.Target? ==> s.target.order.buy == s.rep.buy
    requires other.target.Target? ==> other.target.order.buy != s.rep.buy
    requires s.rep.Gtc() && SidePlan(levels, bids, s, other.target, r, fills, n)
    requires gone == Gone(s.rep, table) + Gone(other.rep, table)
    ensures SlotKept(levels, s, r, gone)
  {
    if r.op in {Append, Shrink, CanRep, CanNoWipe, CanWipe} {
      var orders := levels[r.lui].orders;
      if other.target.Target? {
        OnlyThere(levels, other.cancelIndex, other.target.id, other.target.order.quantity, r.lui);
        OnlyOwn(orders, Gone(s.rep, table), Gone(other.rep, table), other.target.id);
      }
      assert Keep(orders, gone) == Keep(orders, Gone(s.rep, table)) by {
        if !other.target.Target? {
          assert Gone(other.rep, table) == {} && gone == Gone(s.rep, table);
        }
      }
      if r.op == Append {
        if s.target.Target? {
          AppendElsewhere(levels, bids, s, other.target, r, fills, n);
          NotTarget(levels, bids, s, r.lui);
        } else {
          KeepNone(orders, Gone(s.rep, table));
        }
      } else if r.op == Shrink {
        KeepNone(orders, Gone(s.rep, table));
      }
    }
  }

  /** A leg never reaches the level of the other leg's target when that target keeps its place. */
  lemma PairSkips(levels: seq<Level>, bids: nat, table: Table, s: Side, other: Side, n: nat)
    requires BookOk(levels) && bids <= |levels| && n <= |Facing(levels, bids, s.rep.buy)|
    requires Located(levels, bids, s) && Located(levels, bids, other)
    requires HasTarget(s.rep, table) && HasTarget(other.rep, table)
    requires !s.rep.PureCancel() && (s.rep.Pulls() ==> !Shrinks(s.rep, table[s.rep.otherId]))
    requires other.target.Target? ==> other.target.order == table[other.rep.otherId]
    requires other.rep.Pulls() && Shrinks(other.rep, table[other.rep.otherId]) ==>
      forall l | l in Facing(levels, bids, s.rep.buy)[..n] :: l.price != other.rep.price
    ensures SkipsGone(Facing(levels, bids, s.rep.buy)[..n], s.Own(), other.target, Gone(s.rep, table) + Gone(other.rep, table))
    ensures SkipsGone(Facing(levels, bids, s.rep.buy)[..n], s.Own(), other.target, Gone(other.rep, table) + Gone(s.rep, table))
  {
    var part := Facing(levels, bids, s.rep.buy)[..n];
    FacingOk(levels, bids, s.rep.buy);
    forall l, e | l in part && e in l.orders
      ensures e.id in Gone(s.rep, table) + Gone(other.rep, table) <==> e.id in Skipped(s.Own(), other.target)
    {
      assert l in Facing(levels, bids, s.rep.buy);
      assert LevelOk(l) && EntryOk(e);
      if other.rep.Pulls() && Shrinks(other.rep, table[other.rep.otherId]) {
        var k :| 0 <= k < |levels| && levels[k] == l;
        OnlyThere(levels, other.cancelIndex, other.target.id, other.target.order.quantity, k);
        OccursMember(l.orders, other.target.id);
      }
    }
  }

  /** A trading leg that may rest walked at least one level, and the last one walked crosses. */
  lemma WalkedCross(levels: seq<Level>, bids: nat, s: Side, co: Target, r: Range, fills: seq<Fill>, n: nat)
    requires bids <= |levels| && r.op in {RestRemainder, Exact, FillSome}
    requires Plan(levels, bids, s.rep, Skipped(s.Own(), co), r, fills, n)
    requires !s.rep.market && s.rep.Gtc() && s.rep.quantity > 0
    ensures 0 < n <= |Facing(levels, bids, s.rep.buy)|
    ensures Crosses(s.rep, Facing(levels, bids, s.rep.buy)[0].price)
    ensures Crosses(s.rep, Facing(levels, bids, s.rep.buy)[n - 1].price)
  {
    ClearedNone(Facing(levels, bids, s.rep.buy), Skipped(s.Own(), co), s.rep);
  }

  // ---------- The two ranges ----------

  lemma FacingSpan(levels: seq<Level>, bids: nat, t: Order, n: nat, j: nat)
    requires Ascending(levels) && bids <= |levels| && !t.market
    requires 0 < n <= |Facing(levels, bids, t.buy)|
    requires Crosses(t, Facing(levels, bids, t.buy)[n - 1].price)
    requires if t.buy then bids <= j < bids + n else bids - n <= j < bids
    ensures j < |levels| && if t.buy then levels[j].price <= t.price else t.price <= levels[j].price
  {
    FacingLength(levels, bids, t.buy);
    FacingAt(levels, bids, t.buy, n - 1);
  }

  /** At most one leg trades: both would need a bid level above an ask level. */
  lemma OneTrades(levels: seq<Level>, bids: nat, table: Table, bid: Side, ask: Side,
                  br: Range, bf: seq<Fill>, bn: nat, ar: Range, af: seq<Fill>, an: nat)
    requires Legs2(levels, bids, table, bid, ask, br, bf, bn, ar, af, an)
    ensures LocalOp(br.op) || LocalOp(ar.op)
  {
    if !LocalOp(br.op) && !LocalOp(ar.op) {
      WalkedCross(levels, bids, bid, ask.target, br, bf, bn);
      WalkedCross(levels, bids, ask, bid.target, ar, af, an);
      FacingLength(levels, bids, true);
      FacingLength(levels, bids, false);
      FacingAt(levels, bids, true, 0);
      FacingAt(levels, bids, false, 0);
      assert false;
    }
  }

  /** A local leg has its slot on its own side, where its price belongs. */
  lemma LocalRange(levels: seq<Level>, bids: nat, s: Side, co: Target, r: Range, fills: seq<Fill>, n: nat)
    requires BookOk(levels) && |levels| < 0xFFFF && bids <= |levels| && Located(levels, bids, s)
    requires s.target.Target? ==> s.target.order.buy == s.rep.buy
    requires SidePlan(levels, bids, s, co, r, fills, n) && LocalOp(r.op)
    ensures r.lui <= After(r) <= |levels| && SlotSide(s) == s.rep.buy
    ensures After(r) == if r.op == New then r.lui else r.lui + 1
    ensures if s.rep.buy then After(r) <= bids else bids <= r.lui
    ensures !s.rep.PureCancel() ==>
      && Below(levels[..r.lui], s.rep.price) && Above(levels[After(r)..], s.rep.price)
      && (r.op != New ==> levels[r.lui].price == s.rep.price)
    ensures fills == [] && MidFills(levels, s, co, r) == []
  {
  }

  lemma TradeRangeShape(levels: seq<Level>, bids: nat, s: Side, co: Target, r: Range, fills: seq<Fill>, n: nat)
    requires BookOk(levels) && |levels| < 0xFFFF && bids <= |levels| && Located(levels, bids, s)
    requires SidePlan(levels, bids, s, co, r, fills, n) && !LocalOp(r.op)
    requires !s.rep.market && s.rep.Gtc() && (!s.rep.PureCancel() ==> s.rep.quantity > 0)
    ensures !s.rep.PureCancel() && r.op in {RestRemainder, Exact, FillSome}
    ensures Plan(levels, bids, s.rep, Skipped(s.Own(), co), r, fills, n)
    ensures r.lui <= After(r) <= |levels| && 0 < n <= |Facing(levels, bids, s.rep.buy)|
    ensures if s.rep.buy then r.lui == bids && After(r) == bids + n else After(r) == bids && r.lui == bids - n
    ensures forall j | r.lui <= j < After(r) :: if s.rep.buy then levels[j].price <= s.rep.price else s.rep.price <= levels[j].price
  {
    WalkedCross(levels, bids, s, co, r, fills, n);
    FacingLength(levels, bids, s.rep.buy);
    forall j | r.lui <= j < After(r)
      ensures if s.rep.buy then levels[j].price <= s.rep.price else s.rep.price <= levels[j].price
    {
      FacingSpan(levels, bids, s.rep, n, j);
    }
  }

  /** The affected ranges are disjoint, and the bid's lies below the ask's. */
  lemma RangesOrdered(levels: seq<Level>, bids: nat, table: Table, bid: Side, ask: Side,
                      br: Range, bf: seq<Fill>, bn: nat, ar: Range, af: seq<Fill>, an: nat)
    requires Legs2(levels, bids, table, bid, ask, br, bf, bn, ar, af, an)
    ensures br.lui <= After(br) <= ar.lui <= After(ar) <= |levels|
  {
    OneTrades(levels, bids, table, bid, ask, br, bf, bn, ar, af, an);
    if LocalOp(br.op) {
      LocalRange(levels, bids, bid, ask.target, br, bf, bn);
    } else {
      TradeRangeShape(levels, bids, bid, ask.target, br, bf, bn);
    }
    if LocalOp(ar.op) {
      LocalRange(levels, bids, ask, bid.target, ar, af, an);
      if !LocalOp(br.op) {
        assert levels[After(br) - 1].price <= bid.rep.price < ask.rep.price;
        AboveAt(levels, ar.lui, After(ar), After(br) - 1, ask.rep.price);
      }
    } else {
      TradeRangeShape(levels, bids, ask, bid.target, ar, af, an);
      assert bid.rep.price < ask.rep.price <= levels[ar.lui].price;
      BelowAt(levels, br.lui, After(br), ar.lui, bid.rep.price);
    }
  }

  lemma AboveAt(levels: seq<Level>, lui: nat, after: nat, j: nat, price: int)
    requires Ascending(levels) && lui <= after <= |levels| && after <= lui + 1
    requires Above(levels[after..], price) && (after == lui + 1 ==> levels[lui].price == price)
    requires j < |levels|
    ensures lui <= j ==> price <= levels[j].price
  {
    if after <= j {
      assert levels[j] in levels[after..];
    }
  }

  lemma BelowAt(levels: seq<Level>, lui: nat, after: nat, j: nat, price: int)
    requires Ascending(levels) && lui <= after <= |levels| && after <= lui + 1
    requires Below(levels[..lui], price) && (after == lui + 1 ==> levels[lui].price == price)
    requires j < |levels|
    ensures j < after ==> levels[j].price <= price
  {
    if j < lui {
      assert levels[j] in levels[..lui];
    }
  }

  // ---------- Both legs ready ----------

  lemma FacingMember(levels: seq<Level>, bids: nat, t: Order, n: nat, l: Level)
    requires bids <= |levels| && n <= |Facing(levels, bids, t.buy)| && l in Facing(levels, bids, t.buy)[..n]
    ensures exists j :: (if t.buy then bids <= j < bids + n else bids - n <= j < bids) && 0 <= j < |levels| && levels[j] == l
  {
    FacingLength(levels, bids, t.buy);
    var k :| 0 <= k < n && Facing(levels, bids, t.buy)[k] == l;
    FacingAt(levels, bids, t.buy, k);
  }

  lemma BidReady(levels: seq<Level>, bids: nat, table: Table, bid: Side, ask: Side,
                 br: Range, bf: seq<Fill>, bn: nat, ar: Range, af: seq<Fill>, an: nat)
    requires Legs2(levels, bids, table, bid, ask, br, bf, bn, ar, af, an)
    ensures LegReady(levels, bids, table, bid, ask.target, br, bf, bn, PairGone(table, bid, ask))
  {
    PairSlot(levels, bids, table, bid, ask, br, bf, bn, PairGone(table, bid, ask));
    if !LocalOp(br.op) {
      TradeRangeShape(levels, bids, bid, ask.target, br, bf, bn);
      forall l | l in Facing(levels, bids, true)[..bn]
        ensures l.price <= bid.rep.price
      {
        FacingMember(levels, bids, bid.rep, bn, l);
      }
      PairSkips(levels, bids, table, bid, ask, bn);
    }
  }

  lemma AskReady(levels: seq<Level>, bids: nat, table: Table, bid: Side, ask: Side,
                 br: Range, bf: seq<Fill>, bn: nat, ar: Range, af: seq<Fill>, an: nat)
    requires Legs2(levels, bids, table, bid, ask, br, bf, bn, ar, af, an)
    ensures LegReady(levels, bids, table, ask, bid.target, ar, af, an, PairGone(table, bid, ask))
  {
    assert PairGone(table, bid, ask) == Gone(ask.rep, table) + Gone(bid.rep, table);
    PairSlot(levels, bids, table, ask, bid, ar, af, an, PairGone(table, bid, ask));
    if !LocalOp(ar.op) {
      TradeRangeShape(levels, bids, ask, bid.target, ar, af, an);
      forall l | l in Facing(levels, bids, false)[..an]
        ensures ask.rep.price <= l.price
      {
        FacingMember(levels, bids, ask.rep, an, l);
      }
      PairSkips(levels, bids, table, ask, bid, an);
    }
  }

  // ---------- The ask on the book the bid left ----------

  /** The levels a bid leg leaves below the ask's range. */
  ghost function BelowAsk(levels: seq<Level>, bids: nat, gone: set<u32>, bid: Side, co: Target, br: Range,
                          ar: Range): seq<Level>
    requires Applies(levels, bid, br) && br.lui <= After(br) <= ar.lui <= |levels|
  {
    Prune(levels[..br.lui], gone) + Mid(levels, bid, co, br) + Prune(levels[After(br)..ar.lui], gone)
  }

  /** The whole pair. */
  ghost function PairLevels(levels: seq<Level>, bids: nat, gone: set<u32>, bid: Side, ask: Side, br: Range,
                            ar: Range): seq<Level>
    requires Applies(levels, bid, br) && Applies(levels, ask, ar)
    requires br.lui <= After(br) <= ar.lui <= After(ar) <= |levels|
  {
    BelowAsk(levels, bids, gone, bid, ask.target, br, ar) + Mid(levels, ask, bid.target, ar) + Prune(levels[After(ar)..], gone)
  }

  /** Nothing the bid leg leaves among the bids would trade with the ask. */
  lemma BidsBelowAsk(levels: seq<Level>, bids: nat, table: Table, bid: Side, ask: Side,
                     br: Range, bf: seq<Fill>, bn: nat, ar: Range, af: seq<Fill>, an: nat, gone: set<u32>, mine: seq<Level>)
    requires Legs2(levels, bids, table, bid, ask, br, bf, bn, ar, af, an)
    requires LocalOp(ar.op) && !ask.rep.PureCancel()
    requires forall l | l in mine :: l.price == bid.rep.price || exists m :: m in levels[..bids] && m.price == l.price
    ensures NoneCross(mine, ask.rep)
  {
    LocalRange(levels, bids, ask, bid.target, ar, af, an);
    if ar.op == New || ar.op == Append {
      HaltedRest(levels, bids, ask.rep, 0);
      assert Facing(levels, bids, false)[0..] == Facing(levels, bids, false);
    }
    forall m | m in levels[..bids]
      ensures !Crosses(ask.rep, m.price)
    {
      ReverseMember(levels[..bids], m);
      var k :| 0 <= k < bids && levels[k] == m;
    }
  }

  /** The price of an op's level is the leg's own or one of the levels it covers. */
  lemma MidPrice(levels: seq<Level>, s: Side, co: Target, r: Range)
    requires Applies(levels, s, r)
    ensures forall l | l in Mid(levels, s, co, r) ::
              l.price == (if r.op == New || r.op == RestRemainder then s.rep.price
                          else if r.op == FillSome then levels[r.modified].price else levels[r.lui].price)
  {
  }

  lemma ReversedQuiet(mine: seq<Level>, t: Order)
    requires NoneCross(mine, t)
    ensures NoneCross(Reverse(mine), t)
  {
    forall l | l in Reverse(mine)
      ensures l in mine
    {
      ReverseMember(mine, l);
    }
  }

  /** A part of the old bids, pruned, keeps to bid prices. */
  lemma BidPrices(levels: seq<Level>, bids: nat, gone: set<u32>, i: nat, j: nat)
    requires i <= j <= bids <= |levels|
    ensures forall l | l in Prune(levels[i..j], gone) :: exists m :: m in levels[..bids] && m.price == l.price
  {
    PrunePrices(levels[i..j], gone);
    assert forall m | m in levels[i..j] :: m in levels[..bids];
  }

  lemma PruneSummed(part: seq<Level>, gone: set<u32>)
    ensures Summed(Prune(part, gone))
  {
    forall l | l in Prune(part, gone)
      ensures l.quantity == Total(l.orders)
    {
      PruneMember(part, gone, l);
    }
  }

  lemma SummedConcat(a: seq<Level>, b: seq<Level>)
    requires Summed(a) && Summed(b)
    ensures Summed(a + b)
  {
  }

  /** The ask leg's target is nowhere in a part of the book without its level. */
  lemma PartApart(levels: seq<Level>, bids: nat, ask: Side, gone: set<u32>, i: nat, j: nat, part: seq<Level>)
    requires BookOk(levels) && Located(levels, bids, ask) && ask.target.Target?
    requires i <= j <= |levels| && !(i <= ask.cancelIndex < j) && part == levels[i..j]
    ensures Count(Prune(part, gone), ask.target.id) == 0 && Summed(Prune(part, gone)) && Count(part, ask.target.id) == 0
  {
    OnlyThere(levels, ask.cancelIndex, ask.target.id, ask.target.order.quantity, ask.cancelIndex);
    Elsewhere(levels, ask.cancelIndex, ask.target.id, i, j, gone, part);
    PruneSummed(part, gone);
  }

  /** The level an op rewrites is inside its range. */
  lemma BidCovers(levels: seq<Level>, bids: nat, table: Table, bid: Side, ask: Side,
                  br: Range, bf: seq<Fill>, bn: nat, ar: Range, af: seq<Fill>, an: nat)
    requires Legs2(levels, bids, table, bid, ask, br, bf, bn, ar, af, an)
    ensures br.op in {Append, CanRep, CanNoWipe, Shrink} ==> After(br) == br.lui + 1
    ensures br.op == FillSome ==> br.lui <= br.modified < After(br)
  {
    if LocalOp(br.op) {
      LocalRange(levels, bids, bid, ask.target, br, bf, bn);
    } else {
      TradeRangeShape(levels, bids, bid, ask.target, br, bf, bn);
      FacingLength(levels, bids, true);
    }
  }

  /** The ask leg's target is not on the level the bid's op writes. */
  lemma MidApart(levels: seq<Level>, bids: nat, bid: Side, ask: Side, br: Range)
    requires BookOk(levels) && Located(levels, bids, ask) && ask.target.Target?
    requires Applies(levels, bid, br) && br.lui <= After(br) <= ask.cancelIndex
    requires br.op in {Append, CanRep, CanNoWipe, Shrink} ==> After(br) == br.lui + 1
    requires br.op == FillSome ==> br.lui <= br.modified < After(br)
    requires Count(levels, bid.orderId) == 0
    ensures Count(Mid(levels, bid, ask.target, br), ask.target.id) == 0 && Summed(Mid(levels, bid, ask.target, br))
  {
    PartApart(levels, bids, ask, {}, br.lui, After(br), levels[br.lui..After(br)]);
    MidCount(levels, bid, ask.target, br, ask.target.id);
    NotFresh(levels, ask.cancelIndex, ask.target.id, ask.target.order.quantity, bid.orderId);
  }

  lemma NotFresh(levels: seq<Level>, i: nat, id: u32, qty: u32, minted: u32)
    requires BookOk(levels) && RestsAt(levels, i, id, qty) && Count(levels, minted) == 0
    ensures id != minted
  {
    OnlyThere(levels, i, id, qty, i);
    CountAt(levels, i, id);
  }

  // ---------- The ask rests or cancels after a local bid ----------

  /** The asks split around the ask's slot, and the ask finds nobody to trade with. */
  ghost predicate AskFits(first: Sides, levels: seq<Level>, gone: set<u32>, ask: Side, ar: Range, below: seq<Level>,
                          above: seq<Level>)
    requires ar.lui <= After(ar) <= |levels|
  {
    && first.asks == below + OldSlot(levels, gone, ar) + above
    && (!ask.rep.PureCancel() ==>
          Below(below, ask.rep.price) && Above(above, ask.rep.price) && NoneCross(Reverse(first.bids), ask.rep))
    && (ar.op == Shrink ==>
          && ask.target.Target?
          && Summed(below) && Summed(above) && Summed(first.bids) && Summed(first.asks)
          && Count(below, ask.target.id) == 0 && Count(above, ask.target.id) == 0 && Count(first.bids, ask.target.id) == 0)
  }

  /** A local ask leg on a book it fits. */
  lemma AskOnto(first: Sides, levels: seq<Level>, bids: nat, table: Table, bid: Side, ask: Side,
                br: Range, bf: seq<Fill>, bn: nat, ar: Range, af: seq<Fill>, an: nat, gone: set<u32>, below: seq<Level>, above: seq<Level>)
    requires Legs2(levels, bids, table, bid, ask, br, bf, bn, ar, af, an) && gone == PairGone(table, bid, ask)
    requires LocalOp(ar.op) && ar.lui <= After(ar) <= |levels|
    requires AskFits(first, levels, gone, ask, ar, below, above)
    ensures Step(first, table, ask.rep, ask.orderId)
            == Outcome(Sides(first.bids, below + Mid(levels, ask, bid.target, ar) + above), af + MidFills(levels, ask, bid.target, ar))
  {
    LocalRange(levels, bids, ask, bid.target, ar, af, an);
    AskReady(levels, bids, table, bid, ask, br, bf, bn, ar, af, an);
    LocalOnto(first, levels, bids, table, ask, bid.target, ar, af, an, gone, below, above);
    ReverseTwice(first.bids);
    assert af + MidFills(levels, ask, bid.target, ar) == [];
  }

  lemma LocalThenLocal(levels: seq<Level>, bids: nat, table: Table, bid: Side, ask: Side,
                       br: Range, bf: seq<Fill>, bn: nat, ar: Range, af: seq<Fill>, an: nat, gone: set<u32>)
    requires Legs2(levels, bids, table, bid, ask, br, bf, bn, ar, af, an)
    requires LocalOp(br.op) && LocalOp(ar.op) && gone == PairGone(table, bid, ask)
    ensures br.lui <= After(br) <= bids <= ar.lui <= After(ar) <= |levels|
    ensures SlotSide(bid) && !SlotSide(ask)
    ensures var first := LocalSides(levels, bids, gone, bid, Mid(levels, bid, ask.target, br), br);
            Step(first, table, ask.rep, ask.orderId)
            == Outcome(Sides(first.bids, Prune(levels[bids..ar.lui], gone) + Mid(levels, ask, bid.target, ar) + Prune(levels[After(ar)..], gone)),
                       af + MidFills(levels, ask, bid.target, ar))
  {
    LocalRange(levels, bids, bid, ask.target, br, bf, bn);
    LocalRange(levels, bids, ask, bid.target, ar, af, an);
    var first := LocalSides(levels, bids, gone, bid, Mid(levels, bid, ask.target, br), br);
    var below, above := Prune(levels[bids..ar.lui], gone), Prune(levels[After(ar)..], gone);
    LocalSplit(levels, bids, gone, false, ar, below, above);
    if !ask.rep.PureCancel() {
      LocalBidsQuiet(levels, bids, table, bid, ask, br, bf, bn, ar, af, an, gone);
      SlotBounds(levels, bids, gone, false, ar, ask.rep);
    }
    if ar.op == Shrink {
      ShrinkApart(levels, bids, ask, ar, gone);
      LocalBidsApart(levels, bids, table, bid, ask, br, bf, bn, ar, af, an, gone);
    }
    AskOnto(first, levels, bids, table, bid, ask, br, bf, bn, ar, af, an, gone, below, above);
  }

  lemma LocalBidsQuiet(levels: seq<Level>, bids: nat, table: Table, bid: Side, ask: Side,
                       br: Range, bf: seq<Fill>, bn: nat, ar: Range, af: seq<Fill>, an: nat, gone: set<u32>)
    requires Legs2(levels, bids, table, bid, ask, br, bf, bn, ar, af, an)
    requires LocalOp(br.op) && LocalOp(ar.op) && !ask.rep.PureCancel()
    requires br.lui <= After(br) <= bids && SlotSide(bid)
    ensures NoneCross(Reverse(LocalSides(levels, bids, gone, bid, Mid(levels, bid, ask.target, br), br).bids), ask.rep)
  {
    LocalRange(levels, bids, bid, ask.target, br, bf, bn);
    var first := LocalSides(levels, bids, gone, bid, Mid(levels, bid, ask.target, br), br);
    BidPrices(levels, bids, gone, 0, br.lui);
    BidPrices(levels, bids, gone, After(br), bids);
    assert levels[0..br.lui] == levels[..br.lui];
    MidPrice(levels, bid, ask.target, br);
    assert br.op != New ==> levels[br.lui] in levels[..bids];
    BidsBelowAsk(levels, bids, table, bid, ask, br, bf, bn, ar, af, an, gone, first.bids);
    ReversedQuiet(first.bids, ask.rep);
  }

  lemma LocalBidsApart(levels: seq<Level>, bids: nat, table: Table, bid: Side, ask: Side,
                       br: Range, bf: seq<Fill>, bn: nat, ar: Range, af: seq<Fill>, an: nat, gone: set<u32>)
    requires Legs2(levels, bids, table, bid, ask, br, bf, bn, ar, af, an)
    requires LocalOp(br.op) && ask.target.Target?
    requires br.lui <= After(br) <= bids && SlotSide(bid)
    ensures var first := LocalSides(levels, bids, gone, bid, Mid(levels, bid, ask.target, br), br);
            Summed(first.bids) && Summed(first.asks) && Count(first.bids, ask.target.id) == 0
  {
    var id, mid := ask.target.id, Mid(levels, bid, ask.target, br);
    var a, c := Prune(levels[..br.lui], gone), Prune(levels[After(br)..bids], gone);
    BidCovers(levels, bids, table, bid, ask, br, bf, bn, ar, af, an);
    MidApart(levels, bids, bid, ask, br);
    PartApart(levels, bids, ask, gone, 0, br.lui, levels[..br.lui]);
    PartApart(levels, bids, ask, gone, After(br), bids, levels[After(br)..bids]);
    PruneSummed(levels[bids..], gone);
    CountConcat(a + mid, c, id);
    CountConcat(a, mid, id);
  }

  // ---------- The ask rests after the bid traded ----------

  lemma TradeThenLocal(levels: seq<Level>, bids: nat, table: Table, bid: Side, ask: Side,
                       br: Range, bf: seq<Fill>, bn: nat, ar: Range, af: seq<Fill>, an: nat, gone: set<u32>)
    requires Legs2(levels, bids, table, bid, ask, br, bf, bn, ar, af, an)
    requires !LocalOp(br.op) && LocalOp(ar.op) && gone == PairGone(table, bid, ask)
    ensures br.lui == bids <= After(br) <= ar.lui <= After(ar) <= |levels| && br.op in {RestRemainder, Exact, FillSome}
    ensures var first := TradeSides(levels, bids, gone, bid, ask.target, br);
            var below := BittenLevel(levels, bid, ask.target, br) + Prune(levels[After(br)..ar.lui], gone);
            Step(first, table, ask.rep, ask.orderId)
            == Outcome(Sides(first.bids, below + Mid(levels, ask, bid.target, ar) + Prune(levels[After(ar)..], gone)),
                       af + MidFills(levels, ask, bid.target, ar))
  {
    TradeRangeShape(levels, bids, bid, ask.target, br, bf, bn);
    LocalRange(levels, bids, ask, bid.target, ar, af, an);
    RangesOrdered(levels, bids, table, bid, ask, br, bf, bn, ar, af, an);
    TradeFits(levels, bids, table, bid, ask, br, bf, bn, ar, af, an, gone);
    AskOnto(TradeSides(levels, bids, gone, bid, ask.target, br), levels, bids, table, bid, ask, br, bf, bn, ar, af, an, gone,
            BittenLevel(levels, bid, ask.target, br) + Prune(levels[After(br)..ar.lui], gone), Prune(levels[After(ar)..], gone));
  }

  lemma TradeFits(levels: seq<Level>, bids: nat, table: Table, bid: Side, ask: Side,
                  br: Range, bf: seq<Fill>, bn: nat, ar: Range, af: seq<Fill>, an: nat, gone: set<u32>)
    requires Legs2(levels, bids, table, bid, ask, br, bf, bn, ar, af, an)
    requires !LocalOp(br.op) && LocalOp(ar.op) && br.op in {RestRemainder, Exact, FillSome} && !ask.rep.PureCancel()
    requires br.lui == bids <= After(br) <= ar.lui <= After(ar) <= |levels|
    ensures AskFits(TradeSides(levels, bids, gone, bid, ask.target, br), levels, gone, ask, ar,
                    BittenLevel(levels, bid, ask.target, br) + Prune(levels[After(br)..ar.lui], gone), Prune(levels[After(ar)..], gone))
  {
    LocalRange(levels, bids, ask, bid.target, ar, af, an);
    AskSplit(levels, gone, After(br), ar, BittenLevel(levels, bid, ask.target, br));
    BitBelow(levels, bids, table, bid, ask, br, bf, bn, ar, af, an, gone);
    PruneSides(levels[After(ar)..], gone, ask.rep.price, ask.rep);
    TradeBidsQuiet(levels, bids, table, bid, ask, br, bf, bn, ar, af, an, gone);
    if ar.op == Shrink {
      BidCovers(levels, bids, table, bid, ask, br, bf, bn, ar, af, an);
      MidApart(levels, bids, bid, ask, br);
      TradeApart(levels, bids, bid, ask, br, ar, gone);
    }
  }

  lemma TradeBidsQuiet(levels: seq<Level>, bids: nat, table: Table, bid: Side, ask: Side,
                       br: Range, bf: seq<Fill>, bn: nat, ar: Range, af: seq<Fill>, an: nat, gone: set<u32>)
    requires Legs2(levels, bids, table, bid, ask, br, bf, bn, ar, af, an)
    requires !LocalOp(br.op) && LocalOp(ar.op) && !ask.rep.PureCancel()
    requires br.lui <= |levels| && After(br) <= |levels| && (br.op == FillSome ==> br.modified < |levels|)
    ensures NoneCross(Reverse(TradeSides(levels, bids, gone, bid, ask.target, br).bids), ask.rep)
  {
    var first := TradeSides(levels, bids, gone, bid, ask.target, br);
    BidPrices(levels, bids, gone, 0, bids);
    assert levels[0..bids] == levels[..bids];
    BidsBelowAsk(levels, bids, table, bid, ask, br, bf, bn, ar, af, an, gone, first.bids);
    ReversedQuiet(first.bids, ask.rep);
  }

  lemma AskSplit(levels: seq<Level>, gone: set<u32>, from: nat, ar: Range, bit: seq<Level>)
    requires from <= ar.lui <= After(ar) <= |levels|
    ensures bit + Prune(levels[from..], gone)
            == (bit + Prune(levels[from..ar.lui], gone)) + OldSlot(levels, gone, ar) + Prune(levels[After(ar)..], gone)
  {
    PruneTail(levels, from, ar.lui, gone);
    PruneTail(levels, ar.lui, After(ar), gone);
    var a, b, c := Prune(levels[from..ar.lui], gone), OldSlot(levels, gone, ar), Prune(levels[After(ar)..], gone);
    Assoc(bit, a, b + c);
    Assoc(bit + a, b, c);
  }

  lemma BitBelow(levels: seq<Level>, bids: nat, table: Table, bid: Side, ask: Side,
                 br: Range, bf: seq<Fill>, bn: nat, ar: Range, af: seq<Fill>, an: nat, gone: set<u32>)
    requires Legs2(levels, bids, table, bid, ask, br, bf, bn, ar, af, an)
    requires !LocalOp(br.op) && LocalOp(ar.op) && !ask.rep.PureCancel()
    requires After(br) <= ar.lui <= |levels|
    ensures Below(BittenLevel(levels, bid, ask.target, br) + Prune(levels[After(br)..ar.lui], gone), ask.rep.price)
  {
    TradeRangeShape(levels, bids, bid, ask.target, br, bf, bn);
    LocalRange(levels, bids, ask, bid.target, ar, af, an);
    FacingLength(levels, bids, true);
    assert br.op == FillSome ==> levels[br.modified].price <= bid.rep.price;
    assert forall l | l in levels[After(br)..ar.lui] :: l in levels[..ar.lui];
    PruneSides(levels[After(br)..ar.lui], gone, ask.rep.price, ask.rep);
  }

  lemma TradeApart(levels: seq<Level>, bids: nat, bid: Side, ask: Side, br: Range, ar: Range, gone: set<u32>)
    requires BookOk(levels) && Located(levels, bids, ask) && ask.target.Target? && Applies(levels, bid, br)
    requires br.op in {RestRemainder, Exact, FillSome} && ar.lui == ask.cancelIndex && After(ar) == ar.lui + 1
    requires br.lui == bids <= After(br) <= ar.lui < After(ar) <= |levels| && bid.rep.buy
    requires Count(Mid(levels, bid, ask.target, br), ask.target.id) == 0 && Summed(Mid(levels, bid, ask.target, br))
    ensures var first := TradeSides(levels, bids, gone, bid, ask.target, br);
            var below, above := BittenLevel(levels, bid, ask.target, br) + Prune(levels[After(br)..ar.lui], gone), Prune(levels[After(ar)..], gone);
            && Summed(below) && Summed(above) && Summed(first.bids) && Summed(first.asks)
            && Count(below, ask.target.id) == 0 && Count(above, ask.target.id) == 0 && Count(first.bids, ask.target.id) == 0
  {
    var mid := Mid(levels, bid, ask.target, br);
    var bit, rested := BittenLevel(levels, bid, ask.target, br), Rested(bid, br);
    assert (bit == mid || bit == []) && (rested == mid || rested == []);
    PartApart(levels, bids, ask, gone, 0, bids, levels[..bids]);
    PartApart(levels, bids, ask, gone, After(br), ar.lui, levels[After(br)..ar.lui]);
    PartApart(levels, bids, ask, gone, After(ar), |levels|, levels[After(ar)..]);
    PruneSummed(levels[After(br)..], gone);
    ApartConcat(bit, Prune(levels[After(br)..ar.lui], gone), ask.target.id);
    ApartConcat(Prune(levels[..bids], gone), rested, ask.target.id);
    SummedConcat(bit, Prune(levels[After(br)..], gone));
  }

  lemma ApartConcat(a: seq<Level>, b: seq<Level>, id: u32)
    requires Summed(a) && Summed(b) && Count(a, id) == 0 && Count(b, id) == 0
    ensures Summed(a + b) && Count(a + b, id) == 0
  {
    CountConcat(a, b, id);
  }

  // ---------- The ask trades after a local bid ----------

  lemma LocalThenTrade(levels: seq<Level>, bids: nat, table: Table, bid: Side, ask: Side,
                       br: Range, bf: seq<Fill>, bn: nat, ar: Range, af: seq<Fill>, an: nat, gone: set<u32>)
    requires Legs2(levels, bids, table, bid, ask, br, bf, bn, ar, af, an)
    requires LocalOp(br.op) && !LocalOp(ar.op) && gone == PairGone(table, bid, ask)
    ensures br.lui <= After(br) <= ar.lui <= After(ar) == bids && ar.op in {RestRemainder, Exact, FillSome} && SlotSide(bid)
    ensures var first := LocalSides(levels, bids, gone, bid, Mid(levels, bid, ask.target, br), br);
            Step(first, table, ask.rep, ask.orderId)
            == Outcome(Sides(BelowAsk(levels, bids, gone, bid, ask.target, br, ar) + BittenLevel(levels, ask, bid.target, ar),
                             Rested(ask, ar) + Prune(levels[bids..], gone)),
                       af + MidFills(levels, ask, bid.target, ar))
  {
    LocalRange(levels, bids, bid, ask.target, br, bf, bn);
    TradeRangeShape(levels, bids, ask, bid.target, ar, af, an);
    RangesOrdered(levels, bids, table, bid, ask, br, bf, bn, ar, af, an);
    AskReady(levels, bids, table, bid, ask, br, bf, bn, ar, af, an);
    TradeShape(levels, bids, table, ask, bid.target, ar, af, an, gone);
    var first := LocalSides(levels, bids, gone, bid, Mid(levels, bid, ask.target, br), br);
    var kept := BelowAsk(levels, bids, gone, bid, ask.target, br, ar);
    BidsSplit(levels, bids, gone, bid, ask.target, br, ar, an);
    if ar.op != FillSome && ar.remaining != 0 {
      KeptQuiet(levels, bids, table, bid, ask, br, bf, bn, ar, af, an, gone);
    }
    if ar.op == RestRemainder {
      RemainderInside(levels, bids, ask.rep, gone, Facing(levels, bids, false));
    }
    AskTrades(first, kept, levels, bids, table, ask, bid.target, ar, af, an, gone);
  }

  lemma AskTrades(first: Sides, kept: seq<Level>, levels: seq<Level>, bids: nat, table: Table, ask: Side, co: Target,
                  ar: Range, af: seq<Fill>, an: nat, gone: set<u32>)
    requires LegReady(levels, bids, table, ask, co, ar, af, an, gone) && !LocalOp(ar.op) && !ask.rep.buy
    requires an <= |Facing(levels, bids, false)|
    requires Reverse(first.bids) == Prune(Facing(levels, bids, false)[..an], gone) + Reverse(kept)
    requires first.asks == Prune(levels[bids..], gone)
    requires ar.op == FillSome || ar.remaining == 0 || NoneCross(Reverse(kept), ask.rep)
    requires ar.op == RestRemainder ==> Above(first.asks, ask.rep.price)
    ensures ar.op == FillSome ==> ar.modified < |levels|
    ensures Step(first, table, ask.rep, ask.orderId)
            == Outcome(Sides(kept + BittenLevel(levels, ask, co, ar), Rested(ask, ar) + Prune(levels[bids..], gone)),
                       af + MidFills(levels, ask, co, ar))
  {
    TradeShape(levels, bids, table, ask, co, ar, af, an, gone);
    TradeStep(first, table, levels, bids, ask, co, ar, af, an, gone, Reverse(kept));
    ReverseConcat(BittenLevel(levels, ask, co, ar), Reverse(kept));
    ReverseTwice(kept);
    assert Reverse(BittenLevel(levels, ask, co, ar)) == BittenLevel(levels, ask, co, ar);
  }

  lemma BidsSplit(levels: seq<Level>, bids: nat, gone: set<u32>, bid: Side, co: Target, br: Range, ar: Range, an: nat)
    requires Applies(levels, bid, br) && bids <= |levels| && an <= |Facing(levels, bids, false)|
    requires br.lui <= After(br) <= ar.lui <= After(ar) == bids && ar.lui == bids - an && SlotSide(bid)
    ensures Opposite(LocalSides(levels, bids, gone, bid, Mid(levels, bid, co, br), br), false)
            == Prune(Facing(levels, bids, false)[..an], gone) + Reverse(BelowAsk(levels, bids, gone, bid, co, br, ar))
  {
    var a, mid := Prune(levels[..br.lui], gone), Mid(levels, bid, co, br);
    var b, c := Prune(levels[After(br)..ar.lui], gone), Prune(levels[ar.lui..bids], gone);
    PruneJoin(levels, After(br), ar.lui, bids, gone);
    Assoc(a + mid, b, c);
    ReverseConcat((a + mid) + b, c);
    PruneReverse(levels[ar.lui..bids], gone);
    FacingPart(levels, bids, ar.lui);
  }

  lemma FacingPart(levels: seq<Level>, bids: nat, lui: nat)
    requires lui <= bids <= |levels|
    ensures |Facing(levels, bids, false)| == bids
    ensures Facing(levels, bids, false)[..bids - lui] == Reverse(levels[lui..bids])
  {
    assert levels[..bids] == levels[..lui] + levels[lui..bids];
    ReverseConcat(levels[..lui], levels[lui..bids]);
    ReverseLength(levels[lui..bids]);
    FacingLength(levels, bids, false);
  }

  /** What lies beyond the ask's reach, the bid's new level included. */
  lemma KeptQuiet(levels: seq<Level>, bids: nat, table: Table, bid: Side, ask: Side,
                  br: Range, bf: seq<Fill>, bn: nat, ar: Range, af: seq<Fill>, an: nat, gone: set<u32>)
    requires Legs2(levels, bids, table, bid, ask, br, bf, bn, ar, af, an)
    requires LocalOp(br.op) && !LocalOp(ar.op) && br.lui <= After(br) <= ar.lui <= bids
    requires an <= |Facing(levels, bids, false)| && ar.lui == bids - an && Halted(Facing(levels, bids, false), ask.rep, an)
    ensures NoneCross(Reverse(BelowAsk(levels, bids, gone, bid, ask.target, br, ar)), ask.rep)
  {
    LocalRange(levels, bids, bid, ask.target, br, bf, bn);
    TradeRangeShape(levels, bids, ask, bid.target, ar, af, an);
    HaltedRest(levels, bids, ask.rep, an);
    FacingRest(levels, bids, ar.lui);
    ReversedQuiet(Reverse(levels[..ar.lui]), ask.rep);
    ReverseTwice(levels[..ar.lui]);
    PartQuiet(levels, ar.lui, 0, br.lui, ask.rep, gone, levels[..br.lui]);
    PartQuiet(levels, ar.lui, After(br), ar.lui, ask.rep, gone, levels[After(br)..ar.lui]);
    MidPrice(levels, bid, ask.target, br);
    assert br.op != New ==> levels[br.lui].price == bid.rep.price;
    QuietConcat(Prune(levels[..br.lui], gone), Mid(levels, bid, ask.target, br), Prune(levels[After(br)..ar.lui], gone),
                ask.rep);
    ReversedQuiet(BelowAsk(levels, bids, gone, bid, ask.target, br, ar), ask.rep);
  }

  lemma PartQuiet(levels: seq<Level>, lui: nat, i: nat, j: nat, t: Order, gone: set<u32>, part: seq<Level>)
    requires i <= j <= lui <= |levels| && part == levels[i..j] && NoneCross(levels[..lui], t)
    ensures NoneCross(Prune(part, gone), t)
  {
    assert forall m | m in part :: m in levels[..lui];
    PruneSides(part, gone, 0, t);
  }

  lemma QuietConcat(a: seq<Level>, b: seq<Level>, c: seq<Level>, t: Order)
    requires NoneCross(a, t) && NoneCross(b, t) && NoneCross(c, t)
    ensures NoneCross(a + b + c, t)
  {
  }

  lemma FacingRest(levels: seq<Level>, bids: nat, lui: nat)
    requires lui <= bids <= |levels|
    ensures |Facing(levels, bids, false)| == bids
    ensures Facing(levels, bids, false)[bids - lui..] == Reverse(levels[..lui])
  {
    assert levels[..bids] == levels[..lui] + levels[lui..bids];
    ReverseConcat(levels[..lui], levels[lui..bids]);
    ReverseLength(levels[lui..bids]);
    FacingLength(levels, bids, false);
  }
}
