/** A leg applied to the old book: the two sides it leaves, region by region. */
module FirstLeg {
  import opened Machine
  import opened Book
  import opened BookFacts
  import opened Legs
  import opened Snapshot
  import opened SnapshotWriter
  import opened Ranges
  import opened Rewrite
  import opened OneLeg

  ghost function SidesOf(levels: seq<Level>, bids: nat): Sides
    requires bids <= |levels|
  {
    Sides(levels[..bids], levels[bids..])
  }

  lemma PruneJoin(levels: seq<Level>, i: nat, j: nat, k: nat, gone: set<u32>)
    requires i <= j <= k <= |levels|
    ensures Prune(levels[i..k], gone) == Prune(levels[i..j], gone) + Prune(levels[j..k], gone)
  {
    assert levels[i..k] == levels[i..j] + levels[j..k];
    PruneConcat(levels[i..j], levels[j..k], gone);
  }

  lemma PruneTail(levels: seq<Level>, i: nat, j: nat, gone: set<u32>)
    requires i <= j <= |levels|
    ensures Prune(levels[i..], gone) == Prune(levels[i..j], gone) + Prune(levels[j..], gone)
  {
    assert levels[i..] == levels[i..j] + levels[j..];
    PruneConcat(levels[i..j], levels[j..], gone);
  }

  lemma PruneHead(levels: seq<Level>, i: nat, j: nat, gone: set<u32>)
    requires i <= j <= |levels|
    ensures Prune(levels[..j], gone) == Prune(levels[..i], gone) + Prune(levels[i..j], gone)
  {
    assert levels[..j] == levels[..i] + levels[i..j];
    PruneConcat(levels[..i], levels[i..j], gone);
  }

  /** Once the walk stops at a price, no level further out crosses either. */
  lemma HaltedRest(levels: seq<Level>, bids: nat, t: Order, k: nat)
    requires Ascending(levels) && bids <= |levels|
    requires k <= |Facing(levels, bids, t.buy)| && Halted(Facing(levels, bids, t.buy), t, k)
    ensures NoneCross(Facing(levels, bids, t.buy)[k..], t)
  {
    var facing := Facing(levels, bids, t.buy);
    FacingLength(levels, bids, t.buy);
    forall l | l in facing[k..]
      ensures !Crosses(t, l.price)
    {
      var j :| k <= j < |facing| && facing[j] == l;
      FacingAt(levels, bids, t.buy, j);
      FacingAt(levels, bids, t.buy, k);
    }
  }

  lemma OppositePulled(levels: seq<Level>, bids: nat, gone: set<u32>, buy: bool)
    requires bids <= |levels|
    ensures Opposite(Pull(SidesOf(levels, bids), gone), buy) == Prune(Facing(levels, bids, buy), gone)
  {
    PruneReverse(levels[..bids], gone);
  }

  /** What leaves the slot of a local op is what the op expects. */
  ghost predicate SlotKept(levels: seq<Level>, s: Side, r: Range, gone: set<u32>) {
    && (r.op == Append || r.op == Shrink ==>
          r.lui < |levels| && Keep(levels[r.lui].orders, gone) == levels[r.lui].orders)
    && (r.op in {CanRep, CanNoWipe, CanWipe} ==>
          && s.target.Target? && r.lui < |levels|
          && Keep(levels[r.lui].orders, gone) == Keep(levels[r.lui].orders, {s.target.id}))
  }

  /** Everything known about a leg and its range before the book is rewritten. */
  ghost predicate LegReady(levels: seq<Level>, bids: nat, table: Table, s: Side, co: Target, r: Range,
                           fills: seq<Fill>, n: nat, gone: set<u32>)
  {
    && BookOk(levels) && |levels| < 0xFFFF && bids <= |levels|
    && Located(levels, bids, s)
    && HasTarget(s.rep, table)
    && (s.target.Target? ==> s.target.order == table[s.rep.otherId])
    && s.rep.Sized()
    && (s.rep.market && !s.rep.PureCancel() ==> !s.rep.Gtc())
    && (s.rep.canRep && s.InPlace() ==> s.rep.Gtc())
    && SidePlan(levels, bids, s, co, r, fills, n)
    && SlotKept(levels, s, r, gone)
    && (!LocalOp(r.op) ==> n <= |Facing(levels, bids, s.rep.buy)| && SkipsGone(Facing(levels, bids, s.rep.buy)[..n], s.Own(), co, gone))
  }

  /** The slot of a local op lies inside one side. */
  lemma LocalShape(levels: seq<Level>, bids: nat, table: Table, s: Side, co: Target, r: Range, fills: seq<Fill>, n: nat,
                   gone: set<u32>)
    requires LegReady(levels, bids, table, s, co, r, fills, n, gone) && LocalOp(r.op)
    ensures fills == [] && MidFills(levels, s, co, r) == []
    ensures r.lui <= After(r) <= |levels|
    ensures After(r) == if r.op == New then r.lui else r.lui + 1
    ensures if SlotSide(s) then After(r) <= bids else bids <= r.lui
    ensures s.rep.PureCancel() <==> r.op in {CanNoWipe, CanWipe}
    ensures !s.rep.PureCancel() ==>
      && Below(levels[..r.lui], s.rep.price) && Above(levels[After(r)..], s.rep.price)
      && (r.op != New ==> levels[r.lui].price == s.rep.price)
      && s.rep.Gtc()
  {
  }

  /** A resting leg has nobody to trade with. */
  lemma LocalQuiet(levels: seq<Level>, bids: nat, table: Table, s: Side, co: Target, r: Range, fills: seq<Fill>, n: nat,
                   gone: set<u32>)
    requires LegReady(levels, bids, table, s, co, r, fills, n, gone) && LocalOp(r.op) && !s.rep.PureCancel()
    ensures NoneCross(Facing(levels, bids, s.rep.buy), s.rep)
  {
    var facing := Facing(levels, bids, s.rep.buy);
    if r.op == New || r.op == Append {
      HaltedRest(levels, bids, s.rep, 0);
      assert facing[0..] == facing;
    } else {
      FacingLength(levels, bids, s.rep.buy);
      forall l | l in facing
        ensures !Crosses(s.rep, l.price)
      {
        var k :| 0 <= k < |facing| && facing[k] == l;
        FacingAt(levels, bids, s.rep.buy, k);
      }
    }
  }

  /** The two sides a local op leaves. */
  ghost function LocalSides(levels: seq<Level>, bids: nat, gone: set<u32>, s: Side, mid: seq<Level>, r: Range): Sides
    requires bids <= |levels| && r.lui <= After(r) <= |levels|
    requires if SlotSide(s) then After(r) <= bids else bids <= r.lui
  {
    if SlotSide(s) then
      Sides(Prune(levels[..r.lui], gone) + mid + Prune(levels[After(r)..bids], gone), Prune(levels[bids..], gone))
    else
      Sides(Prune(levels[..bids], gone), Prune(levels[bids..r.lui], gone) + mid + Prune(levels[After(r)..], gone))
  }

  /** The part of the slot's side below it and above it. */
  lemma LocalSplit(levels: seq<Level>, bids: nat, gone: set<u32>, buy: bool, r: Range, below: seq<Level>, above: seq<Level>)
    requires bids <= |levels| && r.lui <= After(r) <= |levels|
    requires if buy then After(r) <= bids else bids <= r.lui
    requires below == if buy then Prune(levels[..r.lui], gone) else Prune(levels[bids..r.lui], gone)
    requires above == if buy then Prune(levels[After(r)..bids], gone) else Prune(levels[After(r)..], gone)
    ensures Own(Pull(SidesOf(levels, bids), gone), buy) == below + OldSlot(levels, gone, r) + above
  {
    if buy {
      PruneHead(levels, r.lui, bids, gone);
      PruneJoin(levels, r.lui, After(r), bids, gone);
      Assoc(below, OldSlot(levels, gone, r), above);
    } else {
      PruneTail(levels, bids, r.lui, gone);
      PruneTail(levels, r.lui, After(r), gone);
      Assoc(below, OldSlot(levels, gone, r), above);
    }
  }

  /** The levels of the slot's side below and above a local op. */
  ghost function BelowSlot(levels: seq<Level>, bids: nat, gone: set<u32>, buy: bool, r: Range): seq<Level>
    requires bids <= |levels| && r.lui <= After(r) <= |levels|
    requires if buy then After(r) <= bids else bids <= r.lui
  {
    if buy then Prune(levels[..r.lui], gone) else Prune(levels[bids..r.lui], gone)
  }

  ghost function AboveSlot(levels: seq<Level>, bids: nat, gone: set<u32>, buy: bool, r: Range): seq<Level>
    requires bids <= |levels| && r.lui <= After(r) <= |levels|
    requires if buy then After(r) <= bids else bids <= r.lui
  {
    if buy then Prune(levels[After(r)..bids], gone) else Prune(levels[After(r)..], gone)
  }

  lemma SlotBounds(levels: seq<Level>, bids: nat, gone: set<u32>, buy: bool, r: Range, t: Order)
    requires bids <= |levels| && r.lui <= After(r) <= |levels|
    requires if buy then After(r) <= bids else bids <= r.lui
    requires Below(levels[..r.lui], t.price) && Above(levels[After(r)..], t.price)
    ensures Below(BelowSlot(levels, bids, gone, buy, r), t.price)
    ensures Above(AboveSlot(levels, bids, gone, buy, r), t.price)
  {
    if buy {
      assert forall l | l in levels[After(r)..bids] :: l in levels[After(r)..];
    } else {
      assert forall l | l in levels[bids..r.lui] :: l in levels[..r.lui];
    }
    PruneSides(if buy then levels[..r.lui] else levels[bids..r.lui], gone, t.price, t);
    PruneSides(if buy then levels[After(r)..bids] else levels[After(r)..], gone, t.price, t);
  }

  /** A local op on any sides that hold its slot between below and above. */
  lemma LocalOnto(sides: Sides, levels: seq<Level>, bids: nat, table: Table, s: Side, co: Target, r: Range,
                  fills: seq<Fill>, n: nat,
                  gone: set<u32>, below: seq<Level>, above: seq<Level>)
    requires LegReady(levels, bids, table, s, co, r, fills, n, gone) && LocalOp(r.op) && Applies(levels, s, r)
    requires r.lui <= After(r) <= |levels|
    requires Own(sides, SlotSide(s)) == below + OldSlot(levels, gone, r) + above
    requires !s.rep.PureCancel() ==> Below(below, s.rep.price) && Above(above, s.rep.price) && NoneCross(Opposite(sides, s.rep.buy), s.rep)
    requires r.op == Shrink ==>
      && Summed(below) && Summed(above) && Summed(sides.bids) && Summed(sides.asks)
      && Count(below, s.target.id) == 0 && Count(above, s.target.id) == 0
      && Count(if s.rep.buy then sides.asks else sides.bids, s.target.id) == 0
    ensures Step(sides, table, s.rep, s.orderId)
            == Outcome(Join(below + Mid(levels, s, co, r) + above, Opposite(sides, SlotSide(s)), SlotSide(s)), [])
  {
    LocalShape(levels, bids, table, s, co, r, fills, n, gone);
    if s.rep.PureCancel() {
      CancelStep(sides, table, s, co, r, levels, gone, below, above);
    } else if r.op == Shrink {
      ShrinkStep(sides, table, s, co, r, levels, gone, below, above);
    } else {
      QueueStep(sides, table, s, co, r, levels, gone, below, above);
    }
  }

  lemma LocalLeg(levels: seq<Level>, bids: nat, table: Table, s: Side, co: Target, r: Range, fills: seq<Fill>, n: nat,
                 gone: set<u32>)
    requires LegReady(levels, bids, table, s, co, r, fills, n, gone) && LocalOp(r.op) && Applies(levels, s, r)
    ensures r.lui <= After(r) <= |levels|
    ensures if SlotSide(s) then After(r) <= bids else bids <= r.lui
    ensures Step(Pull(SidesOf(levels, bids), gone), table, s.rep, s.orderId)
            == Outcome(LocalSides(levels, bids, gone, s, Mid(levels, s, co, r), r), [])
  {
    LocalShape(levels, bids, table, s, co, r, fills, n, gone);
    var buy, sides := SlotSide(s), Pull(SidesOf(levels, bids), gone);
    var below, above := BelowSlot(levels, bids, gone, buy, r), AboveSlot(levels, bids, gone, buy, r);
    LocalSplit(levels, bids, gone, buy, r, below, above);
    if r.op == Shrink {
      ShrinkApart(levels, bids, s, r, gone);
    }
    if !s.rep.PureCancel() {
      LocalQuiet(levels, bids, table, s, co, r, fills, n, gone);
      PruneSides(Facing(levels, bids, buy), gone, 0, s.rep);
      OppositePulled(levels, bids, gone, buy);
      SlotBounds(levels, bids, gone, buy, r, s.rep);
    }
    LocalOnto(sides, levels, bids, table, s, co, r, fills, n, gone, below, above);
    LocalJoin(levels, bids, gone, s, Mid(levels, s, co, r), r);
  }

  lemma LocalJoin(levels: seq<Level>, bids: nat, gone: set<u32>, s: Side, mid: seq<Level>, r: Range)
    requires bids <= |levels| && r.lui <= After(r) <= |levels|
    requires if SlotSide(s) then After(r) <= bids else bids <= r.lui
    ensures var buy, sides := SlotSide(s), Pull(SidesOf(levels, bids), gone);
            Join(BelowSlot(levels, bids, gone, buy, r) + mid + AboveSlot(levels, bids, gone, buy, r), Opposite(sides, buy), buy)
            == LocalSides(levels, bids, gone, s, mid, r)
  {
    ReverseTwice(Prune(levels[..bids], gone));
  }

  /** The order a SHRINK replaces is nowhere else in the cleaned book. */
  lemma ShrinkApart(levels: seq<Level>, bids: nat, s: Side, r: Range, gone: set<u32>)
    requires BookOk(levels) && bids <= |levels| && s.target.Target?
    requires r.lui < |levels| && After(r) == r.lui + 1
    requires Occurs(levels[r.lui].orders, s.target.id) == 1
    requires if s.rep.buy then r.lui < bids else bids <= r.lui
    ensures var below, above := BelowSlot(levels, bids, gone, s.rep.buy, r), AboveSlot(levels, bids, gone, s.rep.buy, r);
            Summed(below) && Summed(above) && Count(below, s.target.id) == 0 && Count(above, s.target.id) == 0
    ensures var sides := Pull(SidesOf(levels, bids), gone);
            Summed(sides.bids) && Summed(sides.asks) && Count(if s.rep.buy then sides.asks else sides.bids, s.target.id) == 0
  {
    var id := s.target.id;
    PruneLevelsOk(levels[..bids], gone);
    PruneLevelsOk(levels[bids..], gone);
    if s.rep.buy {
      Elsewhere(levels, r.lui, id, 0, r.lui, gone, levels[..r.lui]);
      Elsewhere(levels, r.lui, id, r.lui + 1, bids, gone, levels[r.lui + 1..bids]);
      Elsewhere(levels, r.lui, id, bids, |levels|, gone, levels[bids..]);
    } else {
      Elsewhere(levels, r.lui, id, bids, r.lui, gone, levels[bids..r.lui]);
      Elsewhere(levels, r.lui, id, r.lui + 1, |levels|, gone, levels[r.lui + 1..]);
      Elsewhere(levels, r.lui, id, 0, bids, gone, levels[..bids]);
    }
  }

  lemma Elsewhere(levels: seq<Level>, at: nat, id: u32, i: nat, j: nat, gone: set<u32>, part: seq<Level>)
    requires BookOk(levels) && at < |levels| && Occurs(levels[at].orders, id) == 1
    requires i <= j <= |levels| && !(i <= at < j) && part == levels[i..j]
    ensures Count(part, id) == 0 && Count(Prune(part, gone), id) == 0
    ensures LevelsOk(Prune(part, gone))
  {
    var a, c := levels[..i], levels[j..];
    assert levels == a + part + c;
    CountConcat(a + part, c, id);
    CountConcat(a, part, id);
    if at < i {
      CountAt(a, at, id);
    } else {
      CountAt(c, at - j, id);
    }
    assert Count(levels, id) <= 1;
    CountPrune(part, gone, id);
    assert forall l | l in part :: l in levels;
    PruneLevelsOk(part, gone);
  }

  // ---------- Trading ----------

  /** The level a remainder opens. */
  ghost function Rested(s: Side, r: Range): seq<Level> {
    if r.op == RestRemainder then [At(s.rep.price, [Entry(s.orderId, r.remaining)])] else []
  }

  /** The two sides a trading op leaves. */
  ghost function TradeSides(levels: seq<Level>, bids: nat, gone: set<u32>, s: Side, co: Target, r: Range): Sides
    requires bids <= |levels| && r.lui <= |levels| && After(r) <= |levels|
    requires r.op == FillSome ==> r.modified < |levels|
  {
    if s.rep.buy then
      Sides(Prune(levels[..bids], gone) + Rested(s, r), BittenLevel(levels, s, co, r) + Prune(levels[After(r)..], gone))
    else
      Sides(Prune(levels[..r.lui], gone) + BittenLevel(levels, s, co, r), Rested(s, r) + Prune(levels[bids..], gone))
  }

  lemma TradeShape(levels: seq<Level>, bids: nat, table: Table, s: Side, co: Target, r: Range, fills: seq<Fill>, n: nat,
                   gone: set<u32>)
    requires LegReady(levels, bids, table, s, co, r, fills, n, gone) && !LocalOp(r.op)
    ensures Plan(levels, bids, s.rep, Skipped(s.Own(), co), r, fills, n) && !s.rep.PureCancel()
    ensures s.rep.canRep ==> !Shrinks(s.rep, table[s.rep.otherId])
    ensures r.lui <= After(r) <= |levels| && n <= |Facing(levels, bids, s.rep.buy)|
    ensures if s.rep.buy then r.lui == bids && After(r) == bids + n else After(r) == bids && r.lui == bids - n
    ensures r.op == FillSome ==> r.modified < |levels|
    ensures r.op == FillSome || r.remaining == 0 || Halted(Facing(levels, bids, s.rep.buy), s.rep, n)
  {
    FacingLength(levels, bids, s.rep.buy);
  }

  /** The facing levels split into those inside the range and those beyond it. */
  lemma TradeSplit(levels: seq<Level>, bids: nat, gone: set<u32>, buy: bool, lui: nat, after: nat, n: nat)
    requires bids <= |levels| && lui <= after <= |levels| && n <= |Facing(levels, bids, buy)|
    requires if buy then lui == bids && after == bids + n else after == bids && lui == bids - n
    ensures var facing := Facing(levels, bids, buy);
            && Opposite(Pull(SidesOf(levels, bids), gone), buy) == Prune(facing[..n], gone) + Prune(facing[n..], gone)
            && facing[n..] == if buy then levels[after..] else Reverse(levels[..lui])
  {
    var facing := Facing(levels, bids, buy);
    OppositePulled(levels, bids, gone, buy);
    assert facing == facing[..n] + facing[n..];
    PruneConcat(facing[..n], facing[n..], gone);
    if !buy {
      assert levels[..bids] == levels[..lui] + levels[lui..bids];
      ReverseConcat(levels[..lui], levels[lui..bids]);
      FacingLength(levels, bids, buy);
      ReverseLength(levels[..lui]);
    }
  }

  lemma ReverseLength(a: seq<Level>)
    ensures |Reverse(a)| == |a|
  {
    if a != [] {
      ReverseAt(a, 0);
    }
  }

  /** A remainder is priced beyond everything on its own side. */
  lemma RemainderInside(levels: seq<Level>, bids: nat, t: Order, gone: set<u32>, facing: seq<Level>)
    requires Ascending(levels) && bids <= |levels| && !t.market
    requires facing == Facing(levels, bids, t.buy) && facing != [] && Crosses(t, facing[0].price)
    ensures if t.buy then Below(Prune(levels[..bids], gone), t.price) else Above(Prune(levels[bids..], gone), t.price)
  {
    FacingLength(levels, bids, t.buy);
    FacingAt(levels, bids, t.buy, 0);
    PruneSides(levels[..bids], gone, t.price, t);
    PruneSides(levels[bids..], gone, t.price, t);
  }

  lemma TradeLeg(levels: seq<Level>, bids: nat, table: Table, s: Side, co: Target, r: Range, fills: seq<Fill>, n: nat,
                 gone: set<u32>)
    requires LegReady(levels, bids, table, s, co, r, fills, n, gone) && !LocalOp(r.op)
    ensures r.lui <= After(r) <= |levels| && (r.op == FillSome ==> r.modified < |levels|)
    ensures Step(Pull(SidesOf(levels, bids), gone), table, s.rep, s.orderId)
            == Outcome(TradeSides(levels, bids, gone, s, co, r), fills + MidFills(levels, s, co, r))
  {
    TradeShape(levels, bids, table, s, co, r, fills, n, gone);
    var facing, sides := Facing(levels, bids, s.rep.buy), Pull(SidesOf(levels, bids), gone);
    var rest := Prune(facing[n..], gone);
    TradeSplit(levels, bids, gone, s.rep.buy, r.lui, After(r), n);
    if r.op != FillSome && r.remaining != 0 {
      HaltedRest(levels, bids, s.rep, n);
      PruneSides(facing[n..], gone, 0, s.rep);
    }
    if r.op == RestRemainder {
      RemainderInside(levels, bids, s.rep, gone, facing);
    }
    TradeStep(sides, table, levels, bids, s, co, r, fills, n, gone, rest);
    if !s.rep.buy {
      PruneReverse(levels[..r.lui], gone);
      ReverseConcat(BittenLevel(levels, s, co, r), rest);
      ReverseTwice(Prune(levels[..r.lui], gone));
      assert Reverse(BittenLevel(levels, s, co, r)) == BittenLevel(levels, s, co, r);
    }
  }
}
