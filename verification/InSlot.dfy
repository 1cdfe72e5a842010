/** A replacement in its target's own slot: ob_affected_range routes it to a local op without a look
at its time in force (src/ob.c:487), which is right exactly when the replacement may rest. */
module InSlot {
  import opened Machine
  import opened Book
  import opened BookFacts
  import opened BookRuns
  import opened Canrep
  import opened Weights
  import opened Settle
  import opened SettlePair

  /** With no time in force to lose, handling the order as it is handled changes nothing. */
  lemma HandledAsIs(table: Table, id: u32)
    requires id in table && HasTarget(table[id], table)
    requires InItsSlot(table, id) ==> table[id].Gtc() && !table[id].market
    ensures AsHandled(table, id) == table
  {
    assert InItsSlot(table, id) ==> table[id].(market := false, ioc := false, fok := false) == table[id];
  }

  /** Everything settling relies on but the condition on the slot. */
  ghost predicate Arrives(s: Sides, table: Table, id: u32) {
    && SoundSides(s) && Agrees(s, table)
    && id in table && HasTarget(table[id], table) && Orderly(table[id], id)
    && Count(s.bids + s.asks, id) == 0
    && (table[id].Pulls() ==> Count(s.bids + s.asks, table[id].otherId) == 1)
  }

  /** Handled with its time in force cleared, an order in its target's slot is left in the book. */
  lemma HandledRests(s: Sides, table: Table, id: u32)
    requires Arrives(s, table, id) && InItsSlot(table, id)
    ensures Held(Message(s, AsHandled(table, id), id).sides, id) == table[id].quantity > 0
  {
    var handled := AsHandled(table, id);
    assert Settleable(s, handled, id) by {
      assert handled[id].Gtc();
    }
    MessageConserves(s, handled, id, Only(id));
    HandledQuiet(s, table, id);
    HeldIsResting(s, id);
    NoneRestingAnywhere(s.bids + s.asks, id);
  }

  /** It trades with nobody: its price is a resting price of its own side. */
  lemma HandledQuiet(s: Sides, table: Table, id: u32)
    requires Arrives(s, table, id) && InItsSlot(table, id)
    ensures Message(s, AsHandled(table, id), id).fills == []
  {
    var handled := AsHandled(table, id);
    var o := handled[id];
    var l := FoundAt(s, table, o.otherId);
    SplitSound(s.bids, s.asks);
    PruneSides(s.bids, Gone(o, handled), 0, o);
    PruneSides(s.asks, Gone(o, handled), 0, o);
    var p := Pull(s, Gone(o, handled));
    var best := Opposite(p, o.buy);
    forall m | m in best
      ensures !Crosses(o, m.price)
    {
      ReverseMember(p.bids, m);
    }
    SweepNothing(best, o, o.quantity);
  }

  /** An IOC or FOK order never stays in the book. */
  lemma UnrestedGone(s: Sides, table: Table, id: u32)
    requires Arrives(s, table, id) && !table[id].PureCancel() && !table[id].Gtc()
    ensures Held(Message(s, table, id).sides, id) == 0
  {
    var o := table[id];
    HeldIsResting(s, id);
    NoneRestingAnywhere(s.bids + s.asks, id);
    PulledWeighs(s, o, Only(id));
    StepPlain(Pull(s, o.Pulled()), table, o, id, Only(id));
  }

  /** An IOC replacement at its target's own price rests, where its message leaves an empty book. */
  lemma IocRests()
    ensures var s := Sides([At(50, [Entry(1, 10)])], []);
            var table: Table := map[1 := Order(0, 50, 10, true, false, false, false, false, false, 0),
                                    2 := Order(0, 50, 10, true, false, true, false, true, false, 1)];
            && Arrives(s, table, 2) && InItsSlot(table, 2)
            && Message(s, AsHandled(table, 2), 2) != Message(s, table, 2)
  {
    var level := At(50, [Entry(1, 10)]);
    var s := Sides([level], []);
    var table: Table := map[1 := Order(0, 50, 10, true, false, false, false, false, false, 0),
                            2 := Order(0, 50, 10, true, false, true, false, true, false, 1)];
    assert [Entry(1, 10)][1..] == [] && [level][1..] == [] && s.bids + s.asks == [level];
    forall id: u32
      ensures Count(s.bids + s.asks, id) == if id == 1 then 1 else 0
    {
      assert Occurs([Entry(1, 10)], id) == (if id == 1 then 1 else 0) + Occurs([Entry(1, 10)][1..], id);
      assert Count([level], id) == Occurs(level.orders, id) + Count([level][1..], id);
    }
    assert SoundLevel(level);
    SlotNeedsGtc(s, table, 2);
  }

  /** The rewrite means what the message says if and only if a replacement in its target's own slot
  is good till cancelled. */
  lemma SlotNeedsGtc(s: Sides, table: Table, id: u32)
    requires Arrives(s, table, id)
    ensures Message(s, AsHandled(table, id), id) == Message(s, table, id) <==> (InItsSlot(table, id) ==> table[id].Gtc())
  {
    if InItsSlot(table, id) && !table[id].Gtc() {
      HandledRests(s, table, id);
      UnrestedGone(s, table, id);
    } else {
      HandledAsIs(table, id);
    }
  }

  /** Settled as the server settles it, whose order table the message's own time in force empties: the
  new book agrees with it under the very same condition. */
  lemma SlotAgreesWithGtc(s: Sides, table: Table, id: u32)
    requires Arrives(s, table, id)
    ensures var m := Message(s, AsHandled(table, id), id);
            Agrees(m.sides, AfterMessage(table, id, m.fills)) <==> (InItsSlot(table, id) ==> table[id].Gtc())
  {
    hide Message, AfterFills;
    var handled := AsHandled(table, id);
    var m := Message(s, handled, id);
    var now := AfterMessage(table, id, m.fills);
    if InItsSlot(table, id) && !table[id].Gtc() {
      HandledRests(s, table, id);
      HandledSettles(s, table, id);
      MessageAgrees(s, handled, id);
      FillsKeepTerms(table, m.fills, id);
      HeldQuantity(m.sides, AfterMessage(handled, id, m.fills), id);
      if Agrees(m.sides, now) {
        HeldQuantity(m.sides, now, id);
      }
    } else {
      HandledAsIs(table, id);
      MessageAgrees(s, table, id);
    }
  }

  lemma HandledSettles(s: Sides, table: Table, id: u32)
    requires Arrives(s, table, id) && InItsSlot(table, id)
    ensures Agrees(s, AsHandled(table, id)) && Settleable(s, AsHandled(table, id), id)
  {
    var handled := AsHandled(table, id);
    assert handled[id].Gtc();
    HandledAgrees(s, table, handled, id);
  }

  /** The order itself does not rest yet, so the table may say anything of it. */
  lemma HandledAgrees(s: Sides, table: Table, handled: Table, id: u32)
    requires Agrees(s, table) && Count(s.bids + s.asks, id) == 0 && handled.Keys == table.Keys
    requires forall x | x in table && x != id :: handled[x] == table[x]
    ensures Agrees(s, handled)
  {
    forall l, e | l in s.bids + s.asks && e in l.orders
      ensures e.id != id
    {
      LevelCounts(s.bids + s.asks, l, e);
    }
    assert forall l | l in s.bids :: l in s.bids + s.asks;
    assert forall l | l in s.asks :: l in s.bids + s.asks;
  }
}
