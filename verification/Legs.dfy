/** What one leg of an order message does to the two sides, said locally: which part of a side
changes and into what. The snapshot rewrite works on index ranges, so each of its op types is
matched with one of these facts. */
module Legs {
  import opened Machine
  import opened Book
  import opened BookFacts

  /** A leg that trades with nobody changes one slot of its own side. */
  lemma LegRests(s: Sides, t: Order, id: u32, below: seq<Level>, slot: seq<Level>, above: seq<Level>)
    requires Own(s, t.buy) == below + slot + above
    requires Below(below, t.price) && Above(above, t.price)
    requires |slot| <= 1 && forall l | l in slot :: l.price == t.price
    requires t.Gtc() && t.quantity > 0
    requires NoneCross(Opposite(s, t.buy), t)
    ensures Submit(s, t, id) ==
            Outcome(Join(below + Rest(slot, t.price, Entry(id, t.quantity)) + above, Opposite(s, t.buy), t.buy), [])
  {
    SweepNothing(Opposite(s, t.buy), t, t.quantity);
    RestLocal(below, slot, above, t.price, Entry(id, t.quantity));
  }

  /** A leg that trades eats the best part of the other side and leaves the rest of it alone. */
  lemma LegTrades(s: Sides, t: Order, id: u32, eaten: seq<Level>, rest: seq<Level>)
    requires Opposite(s, t.buy) == eaten + rest
    requires Sweep(eaten, t, t.quantity).left == 0 || NoneCross(rest, t)
    ensures var w := Sweep(eaten, t, t.quantity);
            Submit(s, t, id) ==
            Outcome(Join(RestLeft(Own(s, t.buy), t, id, w.left), w.levels + rest, t.buy), w.fills)
  {
    SweepStops(eaten, rest, t, t.quantity);
  }

  /** A remainder goes to the inside of its own side. */
  lemma RestInside(own: seq<Level>, t: Order, id: u32, left: u16)
    requires left > 0 && t.Gtc()
    requires if t.buy then Below(own, t.price) else Above(own, t.price)
    ensures RestLeft(own, t, id, left) ==
            if t.buy then own + [At(t.price, [Entry(id, left)])] else [At(t.price, [Entry(id, left)])] + own
  {
    var e := Entry(id, left);
    if t.buy {
      RestLocal(own, [], [], t.price, e);
      assert own + [] + [] == own && own + Rest([], t.price, e) + [] == own + Rest([], t.price, e);
    } else {
      RestLocal([], [], own, t.price, e);
      assert [] + [] + own == own;
    }
  }

  lemma OppositeOf(s: Sides, buy: bool)
    ensures Join(Own(s, buy), Opposite(s, buy), buy) == s
  {
    ReverseTwice(s.bids);
  }

  // ---------- In-place reductions ----------

  lemma {:induction false} SwapConcat(a: seq<Level>, b: seq<Level>, was: u32, e: Entry)
    ensures Swap(a + b, was, e) == Swap(a, was, e) + Swap(b, was, e)
  {
    if a == [] {
      assert a + b == b;
    } else {
      assert (a + b)[1..] == a[1..] + b;
      SwapConcat(a[1..], b, was, e);
    }
  }

  lemma {:induction false} SwapEntryNone(orders: seq<Entry>, was: u32, e: Entry)
    requires Occurs(orders, was) == 0
    ensures SwapEntry(orders, was, e) == orders
  {
    if orders != [] {
      SwapEntryNone(orders[1..], was, e);
    }
  }

  /** Every index total is right. */
  ghost predicate Summed(levels: seq<Level>) {
    forall l | l in levels :: l.quantity == Total(l.orders)
  }

  lemma {:induction false} SwapNone(levels: seq<Level>, was: u32, e: Entry)
    requires Summed(levels) && Count(levels, was) == 0
    ensures Swap(levels, was, e) == levels
  {
    if levels != [] {
      assert levels[0] in levels;
      SwapEntryNone(levels[0].orders, was, e);
      SwapNone(levels[1..], was, e);
    }
  }

  /** Only the level that holds the entry changes. */
  lemma SwapLocal(below: seq<Level>, l: Level, above: seq<Level>, was: u32, e: Entry)
    requires Summed(below) && Summed(above) && Count(below, was) == 0 && Count(above, was) == 0
    ensures Swap(below + [l] + above, was, e) == below + [At(l.price, SwapEntry(l.orders, was, e))] + above
  {
    SwapConcat(below + [l], above, was, e);
    SwapConcat(below, [l], was, e);
    SwapNone(below, was, e);
    SwapNone(above, was, e);
    SwapSingle(l, was, e);
  }

  lemma SwapSingle(l: Level, was: u32, e: Entry)
    ensures Swap([l], was, e) == [At(l.price, SwapEntry(l.orders, was, e))]
  {
    assert [l][1..] == [];
  }
}
