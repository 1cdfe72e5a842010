/** How many shares an order can trade (the walks of src/ob.c and src/server.c), and when an accepted
fill-or-kill order fills whole: its precheck counts the shares of the order it replaces. */
module FillOrKill {
  import opened Machine
  import opened Book
  import opened BookFacts
  import opened BookRuns
  import opened Weights
  import opened Settle
  import opened LegWalk

  /** Shares on the levels this order would trade with. */
  function Crossing(levels: seq<Level>, t: Order): nat {
    if levels == [] then 0 else (if Crosses(t, levels[0].price) then levels[0].quantity else 0) + Crossing(levels[1..], t)
  }

  /** Once a level is out of reach, so are the rest. */
  ghost predicate ReachFirst(levels: seq<Level>, t: Order) {
    forall i, j | 0 <= i < j < |levels| && Crosses(t, levels[j].price) :: Crosses(t, levels[i].price)
  }

  lemma {:induction false} NoneReached(levels: seq<Level>, t: Order)
    requires ReachFirst(levels, t) && (levels != [] ==> !Crosses(t, levels[0].price))
    ensures Crossing(levels, t) == 0
  {
    if levels != [] {
      if levels[1..] != [] {
        assert levels[1..][0] == levels[1];
      }
      NoneReached(levels[1..], t);
    }
  }

  lemma {:induction false} EatTakes(orders: seq<Entry>, q: nat)
    requires forall e | e in orders :: EntryOk(e)
    ensures q - Eat(orders, q).left == Min(q, Total(orders))
    ensures Eat(orders, q).rest != [] ==> Eat(orders, q).left == 0
  {
    if orders != [] && q > 0 {
      assert orders[0] in orders && forall e | e in orders[1..] :: e in orders;
      if orders[0].qty <= q {
        EatTakes(orders[1..], q - orders[0].qty);
      }
    }
  }

  /** A sweep takes all it wants, or all there is in reach. */
  lemma {:induction false} SweepTakes(levels: seq<Level>, t: Order, q: nat)
    requires SoundLevels(levels) && ReachFirst(levels, t)
    ensures FillTotal(Sweep(levels, t, q).fills) == Min(q, Crossing(levels, t))
  {
    SweepFills(levels, t, q);
    if levels == [] || q == 0 {
    } else if !Crosses(t, levels[0].price) {
      NoneReached(levels, t);
    } else {
      assert SoundLevel(levels[0]) && forall l | l in levels[1..] :: l in levels;
      EatTakes(levels[0].orders, q);
      var e := Eat(levels[0].orders, q);
      SweepTakes(levels[1..], t, e.left);
      SweepFills(levels[1..], t, e.left);
    }
  }

  lemma {:induction false} CrossingConcat(a: seq<Level>, b: seq<Level>, t: Order)
    ensures Crossing(a + b, t) == Crossing(a, t) + Crossing(b, t)
  {
    if a == [] {
      assert a + b == b;
    } else {
      assert (a + b)[1..] == a[1..] + b;
      CrossingConcat(a[1..], b, t);
    }
  }

  // ---------- Fill or kill ----------

  /** The shares of its own target that a replacement's precheck counts as tradable. */
  function TargetReach(o: Order, table: Table): nat
    requires HasTarget(o, table)
  {
    if o.Pulls() && table[o.otherId].buy != o.buy && Crosses(o, table[o.otherId].price) then table[o.otherId].quantity else 0
  }

  /** One for every order the taker would trade with at its price. */
  function InReachOf(t: Order, table: Table): Weight {
    (id: u32) => if id in table && Crosses(t, table[id].price) then 1 else 0
  }

  lemma {:induction false} WeighAll(orders: seq<Entry>, w: Weight, each: bool)
    requires forall e | e in orders :: w(e.id) == if each then 1 else 0
    ensures Weigh(orders, w) == if each then Total(orders) else 0
  {
    if orders != [] {
      assert orders[0] in orders && forall e | e in orders[1..] :: e in orders;
      WeighAll(orders[1..], w, each);
    }
  }

  /** The shares in reach are those of the orders in reach. */
  lemma {:induction false} CrossingWeighs(levels: seq<Level>, t: Order, buy: bool, table: Table)
    requires SoundLevels(levels) && Quoted(levels, buy, table)
    ensures Crossing(levels, t) == WeighLevels(levels, InReachOf(t, table))
  {
    if levels != [] {
      FrontRest(levels, buy, table);
      WeighAll(levels[0].orders, InReachOf(t, table), Crosses(t, levels[0].price));
      CrossingWeighs(levels[1..], t, buy, table);
    }
  }

  lemma BestInReach(s: Sides, t: Order)
    requires SoundSides(s)
    ensures SoundLevels(Opposite(s, t.buy)) && ReachFirst(Opposite(s, t.buy), t)
  {
    SplitSound(s.bids, s.asks);
    ReverseSound(s.bids);
    ReverseSize(s.bids);
    forall i, j | 0 <= i < j < |s.bids|
      ensures Reverse(s.bids)[i].price >= Reverse(s.bids)[j].price
    {
      ReverseAt(s.bids, i);
      ReverseAt(s.bids, j);
    }
  }

  /** If the sweep leaves nothing, that much was in reach. */
  lemma SweepReaches(s: Sides, t: Order)
    requires SoundSides(s)
    ensures Sweep(Opposite(s, t.buy), t, t.quantity).left == 0 ==> Crossing(Opposite(s, t.buy), t) >= t.quantity
  {
    BestInReach(s, t);
    SweepTakes(Opposite(s, t.buy), t, t.quantity);
    SweepFills(Opposite(s, t.buy), t, t.quantity);
  }

  lemma OppositeCrosses(s: Sides, t: Order, table: Table)
    requires SoundSides(s) && QuotedSides(s, table)
    ensures Crossing(Opposite(s, t.buy), t) == WeighLevels(if t.buy then s.asks else s.bids, InReachOf(t, table))
  {
    BestInReach(s, t);
    ReverseQuoted(s.bids, true, table);
    CrossingWeighs(Opposite(s, t.buy), t, !t.buy, table);
    WeighReverse(s.bids, InReachOf(t, table));
  }

  /** Without its target the book offers the rest. */
  lemma PulledReach(s: Sides, table: Table, o: Order)
    requires SoundSides(s) && Agrees(s, table) && HasTarget(o, table) && o.Pulls() && Count(s.bids + s.asks, o.otherId) == 1
    ensures Crossing(Opposite(Pull(s, {o.otherId}), o.buy), o) + TargetReach(o, table) == Crossing(Opposite(s, o.buy), o)
  {
    hide SoundSides, Crossing, Opposite, WeighLevels, SharesOf, Quoted, Counted, Prune, Crosses;
    var x := o.otherId;
    var p, w := Pull(s, {x}), InReachOf(o, table);
    TargetHere(s, table, x);
    PullSound(s, {x});
    PullQuoted(s.bids, true, table, {x});
    PullQuoted(s.asks, false, table, {x});
    OppositeCrosses(s, o, table);
    OppositeCrosses(p, o, table);
    PruneWeighs(s.bids, x, w);
    PruneWeighs(s.asks, x, w);
    SideShares(s, table, x);
  }

  lemma TargetHere(s: Sides, table: Table, x: u32)
    requires SoundSides(s) && Agrees(s, table) && Count(s.bids + s.asks, x) == 1
    ensures x in table
  {
    HeldQuantity(s, table, x);
  }

  /** A resting order's shares are all on its own side. */
  lemma SideShares(s: Sides, table: Table, x: u32)
    requires SoundSides(s) && Agrees(s, table) && Count(s.bids + s.asks, x) == 1 && x in table
    ensures SharesOf(s.bids, x) == (if table[x].buy then table[x].quantity else 0)
    ensures SharesOf(s.asks, x) == (if table[x].buy then 0 else table[x].quantity)
  {
    HeldQuantity(s, table, x);
    var other := if table[x].buy then s.asks else s.bids;
    CountConcat(s.bids, s.asks, x);
    if Count(other, x) > 0 {
      var l, e := CountFind(other, x);
      assert false;
    }
    NoneRestingAnywhere(other, x);
  }

  /** An accepted fill-or-kill fills whole exactly when what is in reach, less its own target, is enough. */
  lemma FokWhole(s: Sides, table: Table, id: u32)
    requires SoundSides(s) && Agrees(s, table) && Settleable(s, table, id) && table[id].fok && !table[id].PureCancel()
    ensures var o := table[id];
            FillTotal(Message(s, table, id).fills) == o.quantity <==> Crossing(Opposite(s, o.buy), o) >= o.quantity + TargetReach(o, table)
  {
    var o := table[id];
    var p := Pull(s, o.Pulled());
    PullSound(s, o.Pulled());
    BestInReach(p, o);
    SweepTakes(Opposite(p, o.buy), o, o.quantity);
    if o.Pulls() {
      PulledReach(s, table, o);
    } else {
      SplitSound(s.bids, s.asks);
      PruneSoundNone(s.bids);
      PruneSoundNone(s.asks);
    }
  }

  /** A fill-or-kill replacement of the only ask in reach: the old book would fill it, the message
  fills nothing. */
  lemma FokReplacementUnfilled()
    ensures var s := Sides([], [At(50, [Entry(7, 10)])]);
            var table: Table := map[7 := Order(0, 50, 10, false, false, false, false, false, false, 0),
                                    8 := Order(0, 50, 10, true, false, false, true, true, false, 7)];
            && Sweep(s.asks, table[8], 10).left == 0
            && Message(s, table, 8).fills == [] && TargetReach(table[8], table) == 10
  {
    var level := At(50, [Entry(7, 10)]);
    assert [Entry(7, 10)][1..] == [] && [level][1..] == [];
    assert Eat([Entry(7, 10)], 10) == Eaten([], [Fill(7, 10, false)], 0) by {
      assert Eat([Entry(7, 10)][1..], 0) == Eaten([], [], 0);
    }
    assert Keep([Entry(7, 10)], {7}) == [];
    assert Prune([level], {7}) == [];
  }
}
