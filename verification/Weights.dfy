/** What matching conserves: whatever number one attaches to each order id, the shares that leave a
level, a side or a book show up in the fills. Quantities per order, shares per client and cash per
client are all instances. */
module Weights {
  import opened Machine
  import opened Book
  import opened BookFacts

  type Weight = u32 -> nat

  function Weigh(orders: seq<Entry>, w: Weight): nat {
    if orders == [] then 0 else orders[0].qty * w(orders[0].id) + Weigh(orders[1..], w)
  }

  function WeighLevels(levels: seq<Level>, w: Weight): nat {
    if levels == [] then 0 else Weigh(levels[0].orders, w) + WeighLevels(levels[1..], w)
  }

  function WeighFills(fills: seq<Fill>, w: Weight): nat {
    if fills == [] then 0 else fills[0].qty * w(fills[0].id) + WeighFills(fills[1..], w)
  }

  function WeighSides(s: Sides, w: Weight): nat {
    WeighLevels(s.bids, w) + WeighLevels(s.asks, w)
  }

  // ---------- Concatenation ----------

  lemma {:induction false} WeighConcat(a: seq<Entry>, b: seq<Entry>, w: Weight)
    ensures Weigh(a + b, w) == Weigh(a, w) + Weigh(b, w)
  {
    if a == [] {
      assert a + b == b;
    } else {
      assert (a + b)[1..] == a[1..] + b;
      WeighConcat(a[1..], b, w);
    }
  }

  lemma {:induction false} WeighLevelsConcat(a: seq<Level>, b: seq<Level>, w: Weight)
    ensures WeighLevels(a + b, w) == WeighLevels(a, w) + WeighLevels(b, w)
  {
    if a == [] {
      assert a + b == b;
    } else {
      assert (a + b)[1..] == a[1..] + b;
      WeighLevelsConcat(a[1..], b, w);
    }
  }

  lemma {:induction false} WeighFillsConcat(a: seq<Fill>, b: seq<Fill>, w: Weight)
    ensures WeighFills(a + b, w) == WeighFills(a, w) + WeighFills(b, w)
  {
    if a == [] {
      assert a + b == b;
    } else {
      assert (a + b)[1..] == a[1..] + b;
      WeighFillsConcat(a[1..], b, w);
    }
  }

  lemma WeighOne(e: Entry, w: Weight)
    ensures Weigh([e], w) == e.qty * w(e.id)
  {
    assert [e][1..] == [];
  }

  lemma WeighLevel(l: Level, w: Weight)
    ensures WeighLevels([l], w) == Weigh(l.orders, w)
  {
    assert [l][1..] == [];
  }

  lemma {:induction false} WeighReverse(a: seq<Level>, w: Weight)
    ensures WeighLevels(Reverse(a), w) == WeighLevels(a, w)
  {
    if a != [] {
      WeighReverse(a[1..], w);
      WeighLevelsConcat(Reverse(a[1..]), [a[0]], w);
      WeighLevel(a[0], w);
    }
  }

  lemma Distribute(a: nat, b: nat, n: nat)
    ensures (a + b) * n == a * n + b * n
  {
  }

  // ---------- Trading ----------

  lemma {:induction false} EatConserves(orders: seq<Entry>, q: nat, w: Weight)
    ensures var e := Eat(orders, q); Weigh(orders, w) == Weigh(e.rest, w) + WeighFills(e.fills, w)
  {
    if orders != [] && q > 0 {
      var first := orders[0];
      if first.qty > q {
        Distribute(first.qty - q, q, w(first.id));
        var cut := first.(qty := first.qty - q);
        assert ([cut] + orders[1..])[1..] == orders[1..];
        assert [Fill(first.id, q, true)][1..] == [];
      } else {
        EatConserves(orders[1..], q - first.qty, w);
        var e := Eat(orders[1..], q - first.qty);
        assert ([Fill(first.id, first.qty, false)] + e.fills)[1..] == e.fills;
      }
    }
  }

  /** Every share a sweep takes out of the levels is in a fill. */
  lemma {:induction false} SweepConserves(levels: seq<Level>, t: Order, q: nat, w: Weight)
    ensures var s := Sweep(levels, t, q); WeighLevels(levels, w) == WeighLevels(s.levels, w) + WeighFills(s.fills, w)
  {
    if levels != [] && q > 0 && Crosses(t, levels[0].price) {
      EatConserves(levels[0].orders, q, w);
      var e := Eat(levels[0].orders, q);
      if e.rest == [] {
        SweepConserves(levels[1..], t, e.left, w);
        WeighFillsConcat(e.fills, Sweep(levels[1..], t, e.left).fills, w);
      } else {
        var kept := [At(levels[0].price, e.rest)] + levels[1..];
        assert kept[1..] == levels[1..];
      }
    }
  }

  /** The fills of a level, in shares. */
  function FillTotal(fills: seq<Fill>): nat {
    if fills == [] then 0 else fills[0].qty + FillTotal(fills[1..])
  }

  lemma {:induction false} FillTotalConcat(a: seq<Fill>, b: seq<Fill>)
    ensures FillTotal(a + b) == FillTotal(a) + FillTotal(b)
  {
    if a == [] {
      assert a + b == b;
    } else {
      assert (a + b)[1..] == a[1..] + b;
      FillTotalConcat(a[1..], b);
    }
  }

  lemma {:induction false} EatFills(orders: seq<Entry>, q: nat)
    ensures FillTotal(Eat(orders, q).fills) == q - Eat(orders, q).left
  {
    if orders != [] && q > 0 {
      if orders[0].qty > q {
        assert [Fill(orders[0].id, q, true)][1..] == [];
      } else {
        EatFills(orders[1..], q - orders[0].qty);
        var e := Eat(orders[1..], q - orders[0].qty);
        assert ([Fill(orders[0].id, orders[0].qty, false)] + e.fills)[1..] == e.fills;
      }
    }
  }

  /** The fills add up to what the taker no longer has: it is never filled past its size. */
  lemma {:induction false} SweepFills(levels: seq<Level>, t: Order, q: nat)
    ensures FillTotal(Sweep(levels, t, q).fills) == q - Sweep(levels, t, q).left
  {
    if levels != [] && q > 0 && Crosses(t, levels[0].price) {
      EatFills(levels[0].orders, q);
      var e := Eat(levels[0].orders, q);
      if e.rest == [] {
        SweepFills(levels[1..], t, e.left);
        FillTotalConcat(e.fills, Sweep(levels[1..], t, e.left).fills);
      }
    }
  }

  // ---------- Pulling, resting, replacing ----------

  /** The weight that counts one order's shares. */
  function Only(x: u32): Weight {
    (id: u32) => if id == x then 1 else 0
  }

  /** How many shares an order has resting. */
  function SharesOf(levels: seq<Level>, x: u32): nat {
    WeighLevels(levels, Only(x))
  }

  lemma {:induction false} KeepWeighs(orders: seq<Entry>, x: u32, w: Weight)
    ensures Weigh(orders, w) == Weigh(Keep(orders, {x}), w) + Weigh(orders, Only(x)) * w(x)
  {
    if orders != [] {
      KeepWeighs(orders[1..], x, w);
      var kept := Keep(orders[1..], {x});
      if orders[0].id == x {
        Distribute(orders[0].qty, Weigh(orders[1..], Only(x)), w(x));
      } else {
        assert ([orders[0]] + kept)[1..] == kept;
      }
    }
  }

  /** Pulling an order takes exactly its shares. */
  lemma {:induction false} PruneWeighs(levels: seq<Level>, x: u32, w: Weight)
    ensures WeighLevels(levels, w) == WeighLevels(Prune(levels, {x}), w) + SharesOf(levels, x) * w(x)
  {
    if levels != [] {
      KeepWeighs(levels[0].orders, x, w);
      PruneWeighs(levels[1..], x, w);
      Distribute(Weigh(levels[0].orders, Only(x)), SharesOf(levels[1..], x), w(x));
      WeighLevelsConcat(PruneLevel(levels[0], {x}), Prune(levels[1..], {x}), w);
      if PruneLevel(levels[0], {x}) != [] {
        WeighLevel(PruneLevel(levels[0], {x})[0], w);
      }
    }
  }

  lemma {:induction false} PruneNothing(levels: seq<Level>, w: Weight)
    ensures WeighLevels(Prune(levels, {}), w) == WeighLevels(levels, w)
  {
    if levels != [] {
      PruneNothing(levels[1..], w);
      KeepNone(levels[0].orders, {});
      WeighLevelsConcat(PruneLevel(levels[0], {}), Prune(levels[1..], {}), w);
      if levels[0].orders != [] {
        WeighLevel(PruneLevel(levels[0], {})[0], w);
      }
    }
  }

  lemma {:induction false} RestWeighs(levels: seq<Level>, price: u16, e: Entry, w: Weight)
    ensures WeighLevels(Rest(levels, price, e), w) == WeighLevels(levels, w) + e.qty * w(e.id)
  {
    WeighOne(e, w);
    if levels == [] || price < levels[0].price {
      WeighLevelsConcat([At(price, [e])], levels, w);
      WeighLevel(At(price, [e]), w);
    } else if price == levels[0].price {
      WeighConcat(levels[0].orders, [e], w);
      WeighLevelsConcat([At(price, levels[0].orders + [e])], levels[1..], w);
      WeighLevel(At(price, levels[0].orders + [e]), w);
    } else {
      RestWeighs(levels[1..], price, e, w);
      WeighLevelsConcat([levels[0]], Rest(levels[1..], price, e), w);
      WeighLevel(levels[0], w);
    }
  }

  lemma {:induction false} NoneResting(orders: seq<Entry>, x: u32)
    requires Occurs(orders, x) == 0
    ensures Weigh(orders, Only(x)) == 0
  {
    if orders != [] {
      NoneResting(orders[1..], x);
    }
  }

  lemma {:induction false} NoneRestingAnywhere(levels: seq<Level>, x: u32)
    requires Count(levels, x) == 0
    ensures SharesOf(levels, x) == 0
  {
    if levels != [] {
      NoneResting(levels[0].orders, x);
      NoneRestingAnywhere(levels[1..], x);
    }
  }

  lemma {:induction false} SwapWeighs(orders: seq<Entry>, was: u32, e: Entry, w: Weight)
    requires Occurs(orders, was) <= 1
    ensures Weigh(SwapEntry(orders, was, e), w) + Weigh(orders, Only(was)) * w(was)
            == Weigh(orders, w) + (if Occurs(orders, was) > 0 then e.qty * w(e.id) else 0)
  {
    if orders != [] {
      if orders[0].id == was {
        NoneResting(orders[1..], was);
        assert ([e] + orders[1..])[1..] == orders[1..];
      } else {
        SwapWeighs(orders[1..], was, e, w);
        var rest := SwapEntry(orders[1..], was, e);
        assert ([orders[0]] + rest)[1..] == rest;
      }
    }
  }

  lemma {:induction false} SwapLevelsWeigh(levels: seq<Level>, was: u32, e: Entry, w: Weight)
    requires Count(levels, was) <= 1
    ensures WeighLevels(Swap(levels, was, e), w) + SharesOf(levels, was) * w(was)
            == WeighLevels(levels, w) + (if Count(levels, was) > 0 then e.qty * w(e.id) else 0)
  {
    if levels != [] {
      SwapWeighs(levels[0].orders, was, e, w);
      SwapLevelsWeigh(levels[1..], was, e, w);
      Distribute(Weigh(levels[0].orders, Only(was)), SharesOf(levels[1..], was), w(was));
      var first := At(levels[0].price, SwapEntry(levels[0].orders, was, e));
      WeighLevelsConcat([first], Swap(levels[1..], was, e), w);
      WeighLevel(first, w);
    }
  }

  // ---------- A resting order's shares are its entry's ----------

  lemma {:induction false} EntryResting(orders: seq<Entry>, e: Entry)
    requires e in orders && Occurs(orders, e.id) <= 1
    ensures Weigh(orders, Only(e.id)) == e.qty && Occurs(orders, e.id) == 1
  {
    if orders[0].id == e.id {
      NoneResting(orders[1..], e.id);
      OccursMember(orders[1..], e.id);
      assert orders == [orders[0]] + orders[1..];
    } else {
      EntryResting(orders[1..], e);
    }
  }

  lemma {:induction false} LevelResting(levels: seq<Level>, l: Level, e: Entry)
    requires l in levels && e in l.orders && Count(levels, e.id) <= 1
    ensures SharesOf(levels, e.id) == e.qty && Count(levels, e.id) == 1
  {
    if e in levels[0].orders {
      EntryResting(levels[0].orders, e);
      NoneRestingAnywhere(levels[1..], e.id);
    } else {
      LevelResting(levels[1..], l, e);
      NoneResting(levels[0].orders, e.id);
    }
  }

  lemma {:induction false} SameWeights(orders: seq<Entry>, a: Weight, b: Weight)
    requires forall e | e in orders :: a(e.id) == b(e.id)
    ensures Weigh(orders, a) == Weigh(orders, b)
  {
    if orders != [] {
      assert orders[0] in orders && forall e | e in orders[1..] :: e in orders;
      SameWeights(orders[1..], a, b);
    }
  }

  lemma {:induction false} SameLevelWeights(levels: seq<Level>, a: Weight, b: Weight)
    requires forall l, e | l in levels && e in l.orders :: a(e.id) == b(e.id)
    ensures WeighLevels(levels, a) == WeighLevels(levels, b)
  {
    if levels != [] {
      assert levels[0] in levels && forall l | l in levels[1..] :: l in levels;
      SameWeights(levels[0].orders, a, b);
      SameLevelWeights(levels[1..], a, b);
    }
  }
}
