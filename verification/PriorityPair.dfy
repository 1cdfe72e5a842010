/** Price and time priority for a pair: where each leg stands when both are done. */
module PriorityPair {
  import opened Machine
  import opened Book
  import opened BookFacts
  import opened BookRuns
  import opened Legs
  import opened Weights
  import opened Settle
  import opened SettlePair
  import opened Priority

  /** Where one leg stands at the end: in its target's place, or behind everybody at its price. */
  ghost predicate LegPlaced(s: Sides, now: Sides, fills: seq<Fill>, table: Table, id: u32)
    requires id in table && HasTarget(table[id], table)
  {
    var o := table[id];
    var was, slot := Queue(Own(s, o.buy), o.price), Queue(Own(now, o.buy), o.price);
    if o.canRep && o.price == table[o.otherId].price && o.buy == table[o.otherId].buy then
      fills == [] && Requeued(was, slot, o.otherId, id, o.quantity)
    else if o.PureCancel() then
      forall p: u16 :: Queue(Own(now, o.buy), p) == Keep(Queue(Own(s, o.buy), p), {o.otherId})
    else
      var left := o.quantity - FillTotal(fills);
      left >= 0 && slot == Keep(was, o.Pulled()) + Newcomer(o, id, left, o.price)
  }

  /** What a leg is. */
  ghost predicate LegWaits(s: Sides, table: Table, id: u32, buy: bool)
    requires id in table
  {
    var o := table[id];
    && HasTarget(o, table) && o.buy == buy && !o.market && o.Gtc() && o.Sized()
    && (o.Pulls() ==> Waiting(s, table, o.otherId) && table[o.otherId].buy == buy)
  }

  /** What pair_precheck lets through. */
  ghost predicate PairWaits(s: Sides, table: Table, bidId: u32, askId: u32) {
    && bidId in table && askId in table && LegWaits(s, table, bidId, true) && LegWaits(s, table, askId, false)
    && (table[bidId].PureCancel() <==> table[askId].PureCancel())
    && (!table[bidId].PureCancel() ==> table[bidId].price < table[askId].price)
  }

  /** Both legs stand where they should when the pair is done. */
  ghost predicate PairPlaced(s: Sides, table: Table, bidId: u32, askId: u32)
    requires bidId in table && HasTarget(table[bidId], table) && askId in table && HasTarget(table[askId], table)
  {
    var now := PairMessage(s, table, bidId, askId).sides;
    && LegPlaced(s, now, First(s, table, bidId, askId).fills, table, bidId)
    && LegPlaced(s, now, Second(s, table, bidId, askId).fills, table, askId)
  }

  // ---------- One step ----------

  lemma {:induction false} RestClimbs(levels: seq<Level>, price: u16, e: Entry)
    requires Ascending(levels)
    ensures Ascending(Rest(levels, price, e))
  {
    if levels != [] && price > levels[0].price {
      RestClimbs(levels[1..], price, e);
      RestPrices(levels[1..], price, e);
      var rest := Rest(levels[1..], price, e);
      forall l | l in rest
        ensures levels[0].price < l.price
      {
        if l.price != price {
          var m :| m in levels[1..] && m.price == l.price;
        }
      }
    }
  }

  lemma {:induction false} SwapPrices(levels: seq<Level>, was: u32, e: Entry)
    ensures |Swap(levels, was, e)| == |levels|
    ensures forall i | 0 <= i < |levels| :: Swap(levels, was, e)[i].price == levels[i].price
  {
    if levels != [] {
      SwapPrices(levels[1..], was, e);
    }
  }

  /** The queue on its own side, when a leg's target is out of the way. */
  function Stepped(orders: seq<Entry>, table: Table, id: u32, left: int, price: u16): seq<Entry>
    requires id in table && HasTarget(table[id], table)
  {
    var o := table[id];
    if o.PureCancel() then orders
    else if ShrinksInPlace(o, table) then SwapEntry(orders, o.otherId, Entry(id, o.quantity))
    else orders + if left >= 0 then Newcomer(o, id, left, price) else []
  }

  /** A leg's own side, and what it leaves of the other side at a price it would not trade at. */
  lemma StepTurns(s: Sides, table: Table, id: u32, p: u16)
    requires Climbing(s) && id in table && HasTarget(table[id], table)
    ensures var o := table[id]; var r := Step(s, table, o, id);
            && FillTotal(r.fills) <= o.quantity && (o.PureCancel() ==> r.sides == s)
            && Queue(Own(r.sides, o.buy), p) == Stepped(Queue(Own(s, o.buy), p), table, id, o.quantity - FillTotal(r.fills), p)
            && (!Takes(o, p) && (o.Pulls() ==> Occurs(Queue(Across(s, o.buy), p), o.otherId) == 0) ==>
                  Queue(Across(r.sides, o.buy), p) == Queue(Across(s, o.buy), p))
  {
    hide Queue, ByPriority, Submit, Apart, BestFirst;
    var o := table[id];
    if o.PureCancel() {
    } else if ShrinksInPlace(o, table) {
      SidesApart(s);
      QueueSwap(s.bids, o.otherId, Entry(id, o.quantity), p);
      QueueSwap(s.asks, o.otherId, Entry(id, o.quantity), p);
      if Occurs(Queue(Across(s, o.buy), p), o.otherId) == 0 {
        SwapEntryNone(Queue(Across(s, o.buy), p), o.otherId, Entry(id, o.quantity));
      }
    } else {
      SubmitTurns(s, o, id);
      if !Takes(o, p) {
        Untouched(Across(s, o.buy), Across(Submit(s, o, id).sides, o.buy), o,
                  o.quantity - FillTotal(Submit(s, o, id).fills), p);
      }
    }
  }

  lemma Untouched(was: seq<Level>, now: seq<Level>, t: Order, left: nat, p: u16)
    requires ByPriority(was, now, t, left) && !Takes(t, p)
    ensures Queue(now, p) == Queue(was, p)
  {
  }

  /** The bid leg keeps the prices of the bids climbing, and below the ask's. */
  lemma FirstBids(s: Sides, table: Table, id: u32, price: u16)
    requires Ascending(s.bids) && id in table && HasTarget(table[id], table) && table[id].buy
    ensures var r := Step(s, table, table[id], id).sides;
            && Ascending(r.bids)
            && (Below(s.bids, price) && (!table[id].PureCancel() ==> table[id].price < price) ==> Below(r.bids, price))
  {
    var o := table[id];
    var left := Sweep(s.asks, o, o.quantity).left;
    if o.PureCancel() {
    } else if ShrinksInPlace(o, table) {
      SwapPrices(s.bids, o.otherId, Entry(id, o.quantity));
      SamePrices(Swap(s.bids, o.otherId, Entry(id, o.quantity)), s.bids);
    } else if left > 0 && o.Gtc() {
      RestClimbs(s.bids, o.price, Entry(id, left));
      RestPrices(s.bids, o.price, Entry(id, left));
    }
  }

  /** And the prices of the asks climbing. */
  lemma FirstAsks(s: Sides, table: Table, id: u32)
    requires Ascending(s.asks) && id in table && HasTarget(table[id], table) && table[id].buy
    ensures Ascending(Step(s, table, table[id], id).sides.asks)
  {
    var o := table[id];
    if o.PureCancel() {
    } else if ShrinksInPlace(o, table) {
      SwapPrices(s.asks, o.otherId, Entry(id, o.quantity));
      SamePrices(Swap(s.asks, o.otherId, Entry(id, o.quantity)), s.asks);
    } else {
      SweptBest(s.asks, o, o.quantity, true);
    }
  }

  // ---------- Both legs ----------

  /** With both targets out of the way, a leg's own side has lost only its own. */
  lemma CleanedSide(s: Sides, table: Table, id: u32, other: u32, p: u16)
    requires SoundSides(s) && id in table && other in table
    requires LegWaits(s, table, id, table[id].buy) && LegWaits(s, table, other, !table[id].buy)
    ensures var o := table[id]; var c := Pull(s, Gone(o, table) + Gone(table[other], table));
            && Queue(Own(c, o.buy), p) == Keep(Queue(Own(s, o.buy), p), Gone(o, table))
            && (table[other].Pulls() ==> Occurs(Queue(Own(c, o.buy), p), table[other].otherId) == 0)
  {
    hide Queue;
    var o, a, b := table[id], Gone(table[id], table), Gone(table[other], table);
    var was := Queue(Own(s, o.buy), p);
    PullTurns(s, a + b);
    KeepUnion(was, a, b);
    KeepNone(Keep(was, a), {});
    if table[other].Pulls() {
      WaitsOnce(s, table, table[other].otherId);
      assert Across(s, table[table[other].otherId].buy) == Own(s, o.buy);
      OccursKeep(was, a, table[other].otherId);
      OccursKeep(was, a + b, table[other].otherId);
      KeepAbsent(Keep(was, a), table[other].otherId);
    }
  }

  /** What the step made of the queue at the leg's price is where the leg should stand. */
  lemma StepPlaces(s: Sides, table: Table, id: u32, fills: seq<Fill>)
    requires SoundSides(s) && id in table && LegWaits(s, table, id, table[id].buy) && !table[id].PureCancel()
    requires FillTotal(fills) <= table[id].quantity
    requires table[id].canRep && SameSlot(table[id], table[table[id].otherId]) ==> fills == []
    ensures var o := table[id]; var was := Queue(Own(s, o.buy), o.price);
            var now := Stepped(Keep(was, Gone(o, table)), table, id, o.quantity - FillTotal(fills), o.price);
            if o.canRep && SameSlot(o, table[o.otherId]) then Requeued(was, now, o.otherId, id, o.quantity)
            else now == Keep(was, o.Pulled()) + Newcomer(o, id, o.quantity - FillTotal(fills), o.price)
  {
    hide Queue, Requeued, Keep, Occurs, SwapEntry;
    var o := table[id];
    var was, x := Queue(Own(s, o.buy), o.price), o.otherId;
    if o.canRep && SameSlot(o, table[x]) {
      WaitsOnce(s, table, x);
      forall w | w in was && w.id == x
        ensures w.qty == table[x].quantity
      {
        OneEntry(was, w, Entry(x, table[x].quantity));
      }
      if o.quantity < table[x].quantity {
        KeepNone(was, {});
        InItsPlace(was, x, Entry(id, o.quantity));
      } else {
        ToTheBack(was, x, Entry(id, o.quantity));
      }
    }
  }

  /** A bid in its target's slot trades with nobody. */
  lemma FirstQuiet(s: Sides, table: Table, bidId: u32, gone: set<u32>)
    requires SoundSides(s) && bidId in table && LegWaits(s, table, bidId, true)
    requires table[bidId].canRep && SameSlot(table[bidId], table[table[bidId].otherId])
    ensures Step(Pull(s, gone), table, table[bidId], bidId).fills == []
  {
    var o := table[bidId];
    SlotQuiet(s, table, o, gone);
    SweepNothing(Opposite(Pull(s, gone), true), o, o.quantity);
  }

  /** Nor does an ask, and the bid leg before it stays below. */
  lemma SecondQuiet(s: Sides, table: Table, bidId: u32, askId: u32)
    requires SoundSides(s) && PairWaits(s, table, bidId, askId)
    requires table[askId].canRep && SameSlot(table[askId], table[table[askId].otherId])
    ensures Second(s, table, bidId, askId).fills == []
  {
    hide Step;
    var o, first, c := table[askId], First(s, table, bidId, askId).sides, Clean(s, table, bidId, askId);
    SplitSound(s.bids, s.asks);
    PullSound(s, Gone(table[bidId], table) + Gone(o, table));
    SoundClimbs(c);
    SlotBelow(s, table, o);
    PruneSides(s.bids, Gone(table[bidId], table) + Gone(o, table), o.price, o);
    FirstBids(c, table, bidId, o.price);
    forall l | l in Reverse(first.bids)
      ensures !Crosses(o, l.price)
    {
      ReverseMember(first.bids, l);
    }
    NothingForAsk(first, table, askId);
  }

  lemma NothingForAsk(s: Sides, table: Table, id: u32)
    requires id in table && HasTarget(table[id], table) && !table[id].buy && NoneCross(Reverse(s.bids), table[id])
    ensures Step(s, table, table[id], id).fills == []
  {
    SweepNothing(Reverse(s.bids), table[id], table[id].quantity);
  }

  lemma SlotBelow(s: Sides, table: Table, o: Order)
    requires SoundSides(s) && o.Pulls() && Waiting(s, table, o.otherId) && !o.buy && SameSlot(o, table[o.otherId])
    ensures Below(s.bids, o.price)
  {
    SplitSound(s.bids, s.asks);
    if forall l | l in s.asks :: l.price != o.price {
      NoQueue(s.asks, o.price);
    }
  }

  lemma {:induction false} SwapOccurs(orders: seq<Entry>, was: u32, e: Entry, x: u32)
    requires Occurs(orders, x) == 0 && e.id != x
    ensures Occurs(SwapEntry(orders, was, e), x) == 0
  {
    if orders != [] {
      SwapOccurs(orders[1..], was, e, x);
    }
  }

  lemma SteppedOccurs(orders: seq<Entry>, table: Table, id: u32, left: int, price: u16, x: u32)
    requires id in table && HasTarget(table[id], table) && Occurs(orders, x) == 0 && x != id
    ensures Occurs(Stepped(orders, table, id, left, price), x) == 0
  {
    SwapOccurs(orders, table[id].otherId, Entry(id, table[id].quantity), x);
    assert orders + [] == orders;
    if left >= 0 {
      var more := Newcomer(table[id], id, left, price);
      OccursConcat(orders, more, x);
      assert more != [] ==> more[1..] == [] && Occurs(more, x) == Occurs(more[1..], x);
    }
  }

  lemma NotWaiting(s: Sides, table: Table, x: u32, id: u32)
    requires SoundSides(s) && Waiting(s, table, x) && Count(s.bids + s.asks, id) == 0
    ensures x != id
  {
    WaitsOnce(s, table, x);
    QueueOccurs(Own(s, table[x].buy), table[x].price, x);
    CountConcat(s.bids, s.asks, x);
  }

  /** The bid leg on the cleaned book, and the ask leg after it, at one price. */
  lemma BidThenAsk(s: Sides, table: Table, bidId: u32, askId: u32, p: u16)
    requires SoundSides(s) && PairWaits(s, table, bidId, askId) && Count(s.bids + s.asks, bidId) == 0
    ensures var bid, first, second := table[bidId], First(s, table, bidId, askId), Second(s, table, bidId, askId);
            && FillTotal(first.fills) <= bid.quantity
            && Queue(first.sides.bids, p) == Stepped(Keep(Queue(s.bids, p), Gone(bid, table)), table, bidId, bid.quantity - FillTotal(first.fills), p)
            && (bid.PureCancel() || p == bid.price ==> Queue(second.sides.bids, p) == Queue(first.sides.bids, p))
  {
    hide Step, Queue, Newcomer, Stepped, SoundSides, Sweep, FillTotal, Occurs, Keep, Prune, Gone;
    var bid, ask, c, first := table[bidId], table[askId], Clean(s, table, bidId, askId), First(s, table, bidId, askId);
    PullSound(s, Gone(bid, table) + Gone(ask, table));
    SoundClimbs(c);
    FirstBids(c, table, bidId, 0);
    FirstAsks(c, table, bidId);
    CleanedSide(s, table, bidId, askId, p);
    StepTurns(c, table, bidId, p);
    StepTurns(first.sides, table, askId, p);
    if ask.Pulls() {
      NotWaiting(s, table, ask.otherId, bidId);
      SteppedOccurs(Queue(c.bids, p), table, bidId, bid.quantity - FillTotal(first.fills), p, ask.otherId);
    }
  }

  /** The asks: what the bid leg leaves of them at the ask's price is all of them. */
  lemma AskAfterBid(s: Sides, table: Table, bidId: u32, askId: u32, p: u16)
    requires SoundSides(s) && PairWaits(s, table, bidId, askId) && (table[askId].PureCancel() || p == table[askId].price)
    ensures var ask, second := table[askId], Second(s, table, bidId, askId);
            && FillTotal(second.fills) <= ask.quantity
            && Queue(second.sides.asks, p) == Stepped(Keep(Queue(s.asks, p), Gone(ask, table)), table, askId, ask.quantity - FillTotal(second.fills), p)
  {
    hide Step, Queue, Newcomer, Stepped, SoundSides, Sweep, FillTotal, Occurs, Keep, Prune, Gone;
    var bid, ask, c, first := table[bidId], table[askId], Clean(s, table, bidId, askId), First(s, table, bidId, askId);
    PullSound(s, Gone(bid, table) + Gone(ask, table));
    assert Gone(ask, table) + Gone(bid, table) == Gone(bid, table) + Gone(ask, table);
    SoundClimbs(c);
    FirstBids(c, table, bidId, 0);
    FirstAsks(c, table, bidId);
    CleanedSide(s, table, askId, bidId, p);
    StepTurns(c, table, bidId, p);
    StepTurns(first.sides, table, askId, p);
  }

  lemma BidPlaced(s: Sides, table: Table, bidId: u32, askId: u32)
    requires SoundSides(s) && PairWaits(s, table, bidId, askId) && Count(s.bids + s.asks, bidId) == 0
    ensures LegPlaced(s, PairMessage(s, table, bidId, askId).sides, First(s, table, bidId, askId).fills, table, bidId)
  {
    hide Step, Queue, Requeued, Newcomer, SoundSides, Sweep, Keep, SwapEntry;
    var bid, gone := table[bidId], Gone(table[bidId], table) + Gone(table[askId], table);
    forall p: u16
      ensures bid.PureCancel() ==> Queue(PairMessage(s, table, bidId, askId).sides.bids, p) == Keep(Queue(s.bids, p), {bid.otherId})
    {
      BidThenAsk(s, table, bidId, askId, p);
    }
    if !bid.PureCancel() {
      BidThenAsk(s, table, bidId, askId, bid.price);
      if bid.canRep && SameSlot(bid, table[bid.otherId]) {
        FirstQuiet(s, table, bidId, gone);
      }
      StepPlaces(s, table, bidId, First(s, table, bidId, askId).fills);
    }
  }

  lemma AskPlaced(s: Sides, table: Table, bidId: u32, askId: u32)
    requires SoundSides(s) && PairWaits(s, table, bidId, askId)
    ensures LegPlaced(s, PairMessage(s, table, bidId, askId).sides, Second(s, table, bidId, askId).fills, table, askId)
  {
    hide Step, Queue, Requeued, Newcomer, SoundSides, Sweep, Keep, SwapEntry;
    var ask := table[askId];
    forall p: u16
      ensures ask.PureCancel() ==> Queue(PairMessage(s, table, bidId, askId).sides.asks, p) == Keep(Queue(s.asks, p), {ask.otherId})
    {
      if ask.PureCancel() {
        AskAfterBid(s, table, bidId, askId, p);
      }
    }
    if !ask.PureCancel() {
      AskAfterBid(s, table, bidId, askId, ask.price);
      if ask.canRep && SameSlot(ask, table[ask.otherId]) {
        SecondQuiet(s, table, bidId, askId);
      }
      StepPlaces(s, table, askId, Second(s, table, bidId, askId).fills);
    }
  }

  /** Both legs of a pair keep everybody's turn at their prices. */
  lemma PairTurns(s: Sides, table: Table, bidId: u32, askId: u32)
    requires SoundSides(s) && PairWaits(s, table, bidId, askId) && Count(s.bids + s.asks, bidId) == 0
    ensures PairPlaced(s, table, bidId, askId)
  {
    BidPlaced(s, table, bidId, askId);
    AskPlaced(s, table, bidId, askId);
  }
}
