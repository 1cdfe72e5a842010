/** The resting book in the cross (auction_consume_book of src/server.c): a synthetic IOC order at the
clearing price takes exactly the shares asked for, as long as they fit its 16-bit quantity. */
module AuctionBook {
  import opened Machine
  import opened Book
  import opened BookFacts
  import opened BookRuns
  import opened Snapshot
  import opened SnapshotWriter
  import opened Ranges
  import opened Rewrite
  import opened FirstLeg
  import opened Canrep
  import opened Weights
  import opened LegWalk
  import opened InSlot
  import opened FillOrKill
  import W = AuctionWalk

  function LevelLots(levels: seq<Level>): (lots: seq<W.Lot>)
    ensures |lots| == |levels|
  {
    if levels == [] then [] else [W.Lot(levels[0].price, levels[0].quantity)] + LevelLots(levels[1..])
  }

  lemma {:induction false} LevelLotsAt(levels: seq<Level>, i: nat)
    requires i < |levels|
    ensures LevelLots(levels)[i] == W.Lot(levels[i].price, levels[i].quantity)
  {
    if i > 0 {
      LevelLotsAt(levels[1..], i - 1);
    }
  }

  /** The same, read off the index of a snapshot. */
  function IndexLots(index: seq<MboIndex>): (lots: seq<W.Lot>) {
    if index == [] then [] else [W.Lot(index[0].price, index[0].quantity)] + IndexLots(index[1..])
  }

  lemma {:induction false} IndexIsLevels(index: seq<MboIndex>, levels: seq<Level>)
    requires |index| == |levels|
    requires forall i | 0 <= i < |levels| :: index[i].price == levels[i].price && index[i].quantity == levels[i].quantity
    ensures IndexLots(index) == LevelLots(levels)
  {
    if index != [] {
      IndexIsLevels(index[1..], levels[1..]);
    }
  }

  lemma LotsClimb(levels: seq<Level>)
    requires Ascending(levels)
    ensures W.Climbing(LevelLots(levels))
  {
    forall i, j | 0 <= i < j < |levels|
      ensures LevelLots(levels)[i].price <= LevelLots(levels)[j].price
    {
      LevelLotsAt(levels, i);
      LevelLotsAt(levels, j);
    }
  }

  /** The parked side's taker on the book. */
  function Taker(isBuy: bool, shares: u16, clearing: u16): Order {
    Order(0, clearing, shares, isBuy, false, true, false, false, false, 0)
  }

  /** What is in reach is what the curve counts at the clearing price. */
  lemma {:induction false} ReachIsCurve(levels: seq<Level>, shares: u16, clearing: u16)
    ensures Crossing(levels, Taker(true, shares, clearing)) == W.AtOrBelow(LevelLots(levels), clearing)
    ensures Crossing(Reverse(levels), Taker(false, shares, clearing)) == W.AtOrAbove(LevelLots(levels), clearing)
  {
    if levels != [] {
      ReachIsCurve(levels[1..], shares, clearing);
      CrossingConcat(Reverse(levels[1..]), [levels[0]], Taker(false, shares, clearing));
      assert [levels[0]][1..] == [];
    }
  }

  /** Shares the book offers to the other side at the clearing price. */
  function InReach(levels: seq<Level>, bids: nat, isBuy: bool, clearing: u16): nat
    requires bids <= |levels|
  {
    if isBuy then W.AtOrBelow(LevelLots(levels[bids..]), clearing) else W.AtOrAbove(LevelLots(levels[..bids]), clearing)
  }

  lemma FacingReach(levels: seq<Level>, bids: nat, isBuy: bool, shares: u16, clearing: u16)
    requires Sound(levels) && bids <= |levels|
    ensures var f, t := Facing(levels, bids, isBuy), Taker(isBuy, shares, clearing);
            SoundLevels(f) && ReachFirst(f, t) && Crossing(f, t) == InReach(levels, bids, isBuy, clearing)
  {
    assert levels[..bids] + levels[bids..] == levels;
    SplitSound(levels[..bids], levels[bids..]);
    ReachIsCurve(levels[..bids], shares, clearing);
    ReachIsCurve(levels[bids..], shares, clearing);
    ReverseSound(levels[..bids]);
    ReverseSize(levels[..bids]);
    if !isBuy {
      forall i, j | 0 <= i < j < bids
        ensures Reverse(levels[..bids])[i].price >= Reverse(levels[..bids])[j].price
      {
        ReverseAt(levels[..bids], i);
        ReverseAt(levels[..bids], j);
      }
    }
  }

  /** The taker's 16-bit quantity: what the book hands over is what was asked for if and only if the
  ask fits. */
  lemma ConsumesExactly(levels: seq<Level>, bids: nat, isBuy: bool, shares: nat, clearing: u16)
    requires Sound(levels) && bids <= |levels| && shares <= InReach(levels, bids, isBuy, clearing)
    ensures FillTotal(Sweep(Facing(levels, bids, isBuy), Taker(isBuy, U16(shares), clearing), U16(shares)).fills) == shares
            <==> shares <= 0xFFFF
  {
    FacingReach(levels, bids, isBuy, U16(shares), clearing);
    SweepTakes(Facing(levels, bids, isBuy), Taker(isBuy, U16(shares), clearing), U16(shares));
    if shares <= 0xFFFF {
      U16Same(shares);
    }
  }

  /** Asked for 65536 shares the taker asks for none. */
  lemma ConsumesNothing()
    ensures var levels := [At(50, [Entry(1, 0xFFFF), Entry(2, 1)])];
            && Sound(levels) && InReach(levels, 0, true, 50) == 0x1_0000
            && FillTotal(Sweep(Facing(levels, 0, true), Taker(true, U16(0x1_0000), 50), U16(0x1_0000)).fills) == 0
  {
    var orders := [Entry(1, 0xFFFF), Entry(2, 1)];
    var level := At(50, orders);
    assert orders[1..] == [Entry(2, 1)] && orders[1..][1..] == [] && [level][1..] == [] && [level][0..] == [level];
    assert Total(orders) == 0xFFFF + Total(orders[1..]) == 0x1_0000;
    forall id: u32
      ensures Count([level], id) <= 1
    {
      assert Occurs(orders, id) == (if id == 1 then 1 else 0) + Occurs(orders[1..], id);
      assert Count([level], id) == Occurs(orders, id) + Count([level][1..], id);
    }
    assert SoundLevel(level);
    assert LevelLots([level]) == [W.Lot(50, 0x1_0000)];
  }

  /** At most one side of the book is in reach: it does not cross itself. */
  lemma OneSideReached(levels: seq<Level>, bids: nat, clearing: u16)
    requires Sound(levels) && bids <= |levels|
    ensures InReach(levels, bids, true, clearing) == 0 || InReach(levels, bids, false, clearing) == 0
  {
    assert levels[..bids] + levels[bids..] == levels;
    SplitSound(levels[..bids], levels[bids..]);
    if InReach(levels, bids, true, clearing) > 0 && InReach(levels, bids, false, clearing) > 0 {
      var i := SomeBelow(levels[bids..], clearing);
      var j := SomeAbove(levels[..bids], clearing);
    }
  }

  lemma {:induction false} SomeBelow(levels: seq<Level>, clearing: u16) returns (i: nat)
    requires W.AtOrBelow(LevelLots(levels), clearing) > 0
    ensures i < |levels| && levels[i].price <= clearing
  {
    if levels[0].price <= clearing {
      i := 0;
    } else {
      var j := SomeBelow(levels[1..], clearing);
      i := j + 1;
    }
  }

  lemma {:induction false} SomeAbove(levels: seq<Level>, clearing: u16) returns (i: nat)
    requires W.AtOrAbove(LevelLots(levels), clearing) > 0
    ensures i < |levels| && levels[i].price >= clearing
  {
    if levels[0].price >= clearing {
      i := 0;
    } else {
      var j := SomeAbove(levels[1..], clearing);
      i := j + 1;
    }
  }

  // ---------- Consuming never grows the snapshot ----------

  lemma {:induction false} DataReverse(levels: seq<Level>)
    ensures |Data(Reverse(levels))| == |Data(levels)| && |Reverse(levels)| == |levels|
  {
    if levels != [] {
      DataReverse(levels[1..]);
      DataConcat(Reverse(levels[1..]), [levels[0]]);
      DataOne(levels[0]);
    }
  }

  lemma {:induction false} SweepShrinks(levels: seq<Level>, t: Order, q: nat)
    ensures |Sweep(levels, t, q).levels| <= |levels| && |Data(Sweep(levels, t, q).levels)| <= |Data(levels)|
  {
    if levels != [] && q > 0 && Crosses(t, levels[0].price) {
      var e := Eat(levels[0].orders, q);
      EatShrinks(levels[0].orders, q);
      if e.rest == [] {
        SweepShrinks(levels[1..], t, e.left);
      } else {
        var kept := [At(levels[0].price, e.rest)] + levels[1..];
        assert kept[1..] == levels[1..];
      }
    }
  }

  /** A book after an order that rests nothing takes no more bytes than before. */
  lemma ConsumeShrinks(levels: seq<Level>, bids: nat, t: Order, id: u32)
    requires Sound(levels) && bids <= |levels| && !t.Gtc()
    ensures var r := Submit(SidesOf(levels, bids), t, id).sides; Size(r.bids + r.asks) <= Size(levels)
  {
    var s := SidesOf(levels, bids);
    assert levels == s.bids + s.asks;
    var w := Sweep(Opposite(s, t.buy), t, t.quantity);
    SweepShrinks(Opposite(s, t.buy), t, t.quantity);
    DataReverse(s.bids);
    DataReverse(w.levels);
    DataConcat(s.bids, s.asks);
    DataConcat(s.bids, w.levels);
    DataConcat(Reverse(w.levels), s.asks);
  }

  lemma TakerMeaning(levels: seq<Level>, bids: nat, table: Table, id: u32)
    requires Sound(levels) && bids <= |levels| && id in table && !table[id].Pulls()
    ensures Message(SidesOf(levels, bids), table, id) == Submit(SidesOf(levels, bids), table[id], id)
  {
    assert levels == levels[..bids] + levels[bids..];
    SplitSound(levels[..bids], levels[bids..]);
    PruneSoundNone(levels[..bids]);
    PruneSoundNone(levels[bids..]);
  }

  /** The rewrite of the book, with the synthetic taker's fills: what was asked for, cut to 16 bits. */
  method ConsumeBook(orders: Table, takerId: u32, m: Mbo, isBuy: bool, shares: nat, clearing: u16,
                     ghost levels: seq<Level>, ghost bids: nat)
    returns (now: Mbo, size: nat, fills: seq<Fill>)
    requires OldBook(m, levels, bids) && (forall l | l in levels :: |l.orders| <= COPY_LIMIT)
    requires shares <= InReach(levels, bids, isBuy, clearing)
    ensures fills == Sweep(Facing(levels, bids, isBuy), Taker(isBuy, U16(shares), clearing), U16(shares)).fills
    ensures FillTotal(fills) == U16(shares)
    ensures size <= Size(levels)
    ensures Sound(levels)
    ensures Refines(now, size, fills, Submit(SidesOf(levels, bids), Taker(isBuy, U16(shares), clearing), takerId))
    ensures fills == Submit(SidesOf(levels, bids), Taker(isBuy, U16(shares), clearing), takerId).fills
  {
    var q := U16(shares);
    var table := orders[takerId := Taker(isBuy, q, clearing)];
    SoundIsOk(levels);
    ConsumesExactly(levels, bids, isBuy, q, clearing);
    U16Same(q);
    HandledAsIs(table, takerId);
    WalkPredicts(levels, bids, table, takerId);
    TakerMeaning(levels, bids, table, takerId);
    ConsumeShrinks(levels, bids, table[takerId], takerId);
    now, size, fills := ObCanrep(table, takerId, m, levels, bids);
  }
}
