/** What one side's range and op mean for the two sides of the book.

A local op (NEW, APPEND, CAN_REP, SHRINK and the two cancels) changes one slot of one side; a
trading op (REST_REMAINDER, FILL_SOME, EXACT) eats the inside of the other side. Both are said
about any sides that agree with the old book where the op looks, so that they also hold for the
second leg of a pair, which acts on a book the first leg has already changed. */
module OneLeg {
  import opened Machine
  import opened Book
  import opened BookFacts
  import opened Legs
  import opened Snapshot
  import opened SnapshotWriter
  import opened Ranges
  import opened Rewrite

  predicate LocalOp(op: Op) {
    op in {New, Append, CanRep, Shrink, CanNoWipe, CanWipe}
  }

  /** The side a local op works on. */
  function SlotSide(s: Side): bool {
    if s.rep.PureCancel() && s.target.Target? then s.target.order.buy else s.rep.buy
  }

  // ---------- Pruning only where it matters ----------

  lemma {:induction false} PruneSame(levels: seq<Level>, a: set<u32>, b: set<u32>)
    requires forall l, e | l in levels && e in l.orders :: e.id in a <==> e.id in b
    ensures Prune(levels, a) == Prune(levels, b)
  {
    if levels != [] {
      KeepSame(levels[0].orders, a, b);
      PruneSame(levels[1..], a, b);
    }
  }

  /** On these levels the leg skips exactly the orders that leave the book. */
  ghost predicate SkipsGone(part: seq<Level>, own: Target, co: Target, gone: set<u32>) {
    forall l, e | l in part && e in l.orders :: e.id in gone <==> e.id in Skipped(own, co)
  }

  lemma PruneSkipped(part: seq<Level>, own: Target, co: Target, gone: set<u32>)
    requires SkipsGone(part, own, co, gone)
    ensures Prune(part, Skipped(own, co)) == Prune(part, gone)
  {
    PruneSame(part, Skipped(own, co), gone);
  }

  lemma {:induction false} PruneId(levels: seq<Level>, gone: set<u32>, id: u32)
    requires LevelsOk(levels) && Count(levels, id) == 0
    ensures Prune(levels, gone + {id}) == Prune(levels, gone)
  {
    if levels != [] {
      assert LevelOk(levels[0]);
      OccursMember(levels[0].orders, id);
      KeepSame(levels[0].orders, gone + {id}, gone);
      PruneId(levels[1..], gone, id);
    }
  }

  // ---------- Local ops ----------

  /** The old slot of a local op, cleaned of what is pulled. */
  ghost function OldSlot(levels: seq<Level>, gone: set<u32>, r: Range): seq<Level>
    requires r.lui <= After(r) <= |levels|
  {
    Prune(levels[r.lui..After(r)], gone)
  }

  /** NEW, APPEND and CAN_REP queue the whole order at its price. */
  lemma QueueStep(s: Sides, table: Table, side: Side, co: Target, r: Range, levels: seq<Level>, gone: set<u32>,
                  below: seq<Level>, above: seq<Level>)
    requires r.op in {New, Append, CanRep}
    requires LevelsOk(levels) && Applies(levels, side, r) && r.lui <= After(r) <= |levels|
    requires After(r) == if r.op == New then r.lui else r.lui + 1
    requires r.op != New ==> levels[r.lui].price == side.rep.price
    requires r.op == Append ==> Keep(levels[r.lui].orders, gone) == levels[r.lui].orders
    requires r.op == CanRep ==> Keep(levels[r.lui].orders, gone) == Keep(levels[r.lui].orders, {side.target.id})
    requires HasTarget(side.rep, table) && !side.rep.PureCancel()
    requires side.rep.canRep ==> !Shrinks(side.rep, table[side.rep.otherId])
    requires side.rep.Gtc() && side.rep.quantity > 0
    requires Own(s, side.rep.buy) == below + OldSlot(levels, gone, r) + above
    requires Below(below, side.rep.price) && Above(above, side.rep.price)
    requires NoneCross(Opposite(s, side.rep.buy), side.rep)
    ensures Step(s, table, side.rep, side.orderId)
            == Outcome(Join(below + Mid(levels, side, co, r) + above, Opposite(s, side.rep.buy), side.rep.buy), [])
  {
    var slot := OldSlot(levels, gone, r);
    if r.op == New {
      assert levels[r.lui..After(r)] == [];
    } else {
      var l := levels[r.lui];
      assert l in levels;
      assert levels[r.lui..After(r)] == [l];
      assert slot == PruneLevel(l, gone) + Prune([l][1..], gone);
    }
    LegRests(s, side.rep, side.orderId, below, slot, above);
    assert [] + [Entry(side.orderId, side.rep.quantity)] == [Entry(side.orderId, side.rep.quantity)];
    assert Rest(slot, side.rep.price, Entry(side.orderId, side.rep.quantity)) == Mid(levels, side, co, r);
  }

  /** SHRINK changes one entry where it stands. */
  lemma ShrinkStep(s: Sides, table: Table, side: Side, co: Target, r: Range, levels: seq<Level>, gone: set<u32>,
                   below: seq<Level>, above: seq<Level>)
    requires r.op == Shrink && side.target.Target?
    requires LevelsOk(levels) && r.lui < |levels| && After(r) == r.lui + 1
    requires Keep(levels[r.lui].orders, gone) == levels[r.lui].orders
    requires HasTarget(side.rep, table) && side.rep.canRep && Shrinks(side.rep, table[side.rep.otherId])
    requires side.target.id == side.rep.otherId
    requires Own(s, side.rep.buy) == below + OldSlot(levels, gone, r) + above
    requires Summed(below) && Summed(above) && Summed(s.bids) && Summed(s.asks)
    requires Count(below, side.target.id) == 0 && Count(above, side.target.id) == 0
    requires Count(if side.rep.buy then s.asks else s.bids, side.target.id) == 0
    ensures Step(s, table, side.rep, side.orderId)
            == Outcome(Join(below + Mid(levels, side, co, r) + above, Opposite(s, side.rep.buy), side.rep.buy), [])
  {
    var id, e, l := side.target.id, Entry(side.orderId, side.rep.quantity), levels[r.lui];
    SlotIs(levels, r, gone, l);
    SwapLocal(below, l, above, id, e);
    SwapNone(if side.rep.buy then s.asks else s.bids, id, e);
    OppositeOf(s, side.rep.buy);
  }

  lemma SlotIs(levels: seq<Level>, r: Range, gone: set<u32>, l: Level)
    requires LevelsOk(levels) && r.lui < |levels| && After(r) == r.lui + 1 && l == levels[r.lui]
    ensures OldSlot(levels, gone, r) == PruneLevel(l, gone)
    ensures Keep(l.orders, gone) == l.orders ==> OldSlot(levels, gone, r) == [l]
  {
    assert l in levels;
    assert levels[r.lui..After(r)] == [l];
    assert Prune([l], gone) == PruneLevel(l, gone) + Prune([l][1..], gone);
  }

  /** A pure cancel leaves its level without the order, or without the level. */
  lemma CancelStep(s: Sides, table: Table, side: Side, co: Target, r: Range, levels: seq<Level>, gone: set<u32>,
                   below: seq<Level>, above: seq<Level>)
    requires r.op in {CanNoWipe, CanWipe} && side.target.Target? && side.rep.PureCancel() && HasTarget(side.rep, table)
    requires r.lui < |levels| && After(r) == r.lui + 1
    requires Keep(levels[r.lui].orders, gone) == Keep(levels[r.lui].orders, {side.target.id})
    requires r.op == CanWipe <==> Keep(levels[r.lui].orders, {side.target.id}) == []
    requires Own(s, SlotSide(side)) == below + OldSlot(levels, gone, r) + above
    ensures Step(s, table, side.rep, side.orderId)
            == Outcome(Join(below + Mid(levels, side, co, r) + above, Opposite(s, SlotSide(side)), SlotSide(side)), [])
  {
    var l := levels[r.lui];
    assert levels[r.lui..After(r)] == [l];
    assert OldSlot(levels, gone, r) == PruneLevel(l, gone) + Prune([l][1..], gone);
    OppositeOf(s, SlotSide(side));
  }

  // ---------- Trading ops ----------

  /** The levels a trading op leaves at the inside of the other side, best first. */
  ghost function BittenLevel(levels: seq<Level>, side: Side, co: Target, r: Range): seq<Level>
    requires r.op == FillSome ==> r.modified < |levels|
  {
    if r.op == FillSome then [At(levels[r.modified].price, BiteInto(levels, side, co, r).rest)] else []
  }

  /** Sweeping the clean part of the walked levels gives what the walk recorded. */
  lemma WalkedSweep(levels: seq<Level>, bids: nat, side: Side, co: Target, r: Range, fills: seq<Fill>, n: nat,
                    gone: set<u32>)
    requires LevelsOk(levels) && bids <= |levels| && r.op in {RestRemainder, Exact, FillSome}
    requires Plan(levels, bids, side.rep, Skipped(side.Own(), co), r, fills, n)
    requires SkipsGone(Facing(levels, bids, side.rep.buy)[..n], side.Own(), co, gone)
    ensures r.op == FillSome ==> r.modified < |levels|
    ensures var facing := Facing(levels, bids, side.rep.buy);
            Sweep(Prune(facing[..n], gone), side.rep, side.rep.quantity)
            == Swept(BittenLevel(levels, side, co, r), fills + MidFills(levels, side, co, r), if r.op == FillSome then 0 else r.remaining)
  {
    var facing, skip := Facing(levels, bids, side.rep.buy), Skipped(side.Own(), co);
    PruneSkipped(facing[..n], side.Own(), co, gone);
    assert fills + [] == fills;
    if r.op == FillSome {
      FacingAt(levels, bids, side.rep.buy, n - 1);
      BiteAfter(facing, n, skip, side.rep, fills, r.remaining);
    }
  }

  lemma BiteAfter(facing: seq<Level>, n: nat, skip: set<u32>, t: Order, fills: seq<Fill>, q: nat)
    requires 0 < n <= |facing| && Cleared(facing, skip, t, n - 1, fills, q)
    requires Crosses(t, facing[n - 1].price) && q < Total(Keep(facing[n - 1].orders, skip))
    ensures var e := Eat(Keep(facing[n - 1].orders, skip), q);
            Sweep(Prune(facing[..n], skip), t, t.quantity) == Swept([At(facing[n - 1].price, e.rest)], fills + e.fills, 0)
  {
    var l := facing[n - 1];
    assert facing[..n] == facing[..n - 1] + [l];
    PruneConcat(facing[..n - 1], [l], skip);
    BiteSweep(l, skip, t, q);
    SweepThrough(Prune(facing[..n - 1], skip), Prune([l], skip), t, t.quantity);
  }

  /** The last level of a FILL_SOME walk survives the taker. */
  lemma BiteSweep(l: Level, skip: set<u32>, t: Order, q: nat)
    requires Crosses(t, l.price) && q < Total(Keep(l.orders, skip))
    ensures var e := Eat(Keep(l.orders, skip), q);
            Sweep(Prune([l], skip), t, q) == Swept([At(l.price, e.rest)], e.fills, 0)
  {
    var kept := Keep(l.orders, skip);
    assert kept != [];
    if q > 0 {
      EatSome(kept, q);
    }
    assert [l][1..] == [];
    assert Prune([l], skip) == [At(l.price, kept)];
    assert [At(l.price, kept)][1..] == [];
    assert [At(l.price, Eat(kept, q).rest)] + [] == [At(l.price, Eat(kept, q).rest)];
  }

  /** A trading leg on any sides whose inside is what the walk saw. */
  lemma TradeStep(s: Sides, table: Table, levels: seq<Level>, bids: nat, side: Side, co: Target, r: Range,
                  fills: seq<Fill>, n: nat, gone: set<u32>, rest: seq<Level>)
    requires LevelsOk(levels) && bids <= |levels| && r.op in {RestRemainder, Exact, FillSome}
    requires Plan(levels, bids, side.rep, Skipped(side.Own(), co), r, fills, n)
    requires SkipsGone(Facing(levels, bids, side.rep.buy)[..n], side.Own(), co, gone)
    requires HasTarget(side.rep, table) && !side.rep.PureCancel()
    requires side.rep.canRep ==> !Shrinks(side.rep, table[side.rep.otherId])
    requires Opposite(s, side.rep.buy) == Prune(Facing(levels, bids, side.rep.buy)[..n], gone) + rest
    requires r.op == FillSome || r.remaining == 0 || NoneCross(rest, side.rep)
    requires r.op == RestRemainder ==>
      if side.rep.buy then Below(s.bids, side.rep.price) else Above(s.asks, side.rep.price)
    ensures r.op == FillSome ==> r.modified < |levels|
    ensures var own := Own(s, side.rep.buy);
            var rested := if r.op == RestRemainder then [At(side.rep.price, [Entry(side.orderId, r.remaining)])] else [];
            Step(s, table, side.rep, side.orderId)
            == Outcome(Join(if side.rep.buy then own + rested else rested + own, BittenLevel(levels, side, co, r) + rest, side.rep.buy),
                       fills + MidFills(levels, side, co, r))
  {
    WalkedSweep(levels, bids, side, co, r, fills, n, gone);
    LegTrades(s, side.rep, side.orderId, Prune(Facing(levels, bids, side.rep.buy)[..n], gone), rest);
    var own := Own(s, side.rep.buy);
    if r.op == RestRemainder {
      RestInside(own, side.rep, side.orderId, r.remaining);
    } else {
      assert own + [] == own && [] + own == own;
    }
  }
}
