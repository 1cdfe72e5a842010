/** Which entries a message takes out of the book: its target, and exactly the orders that a fill
reports as not partial (src/ob.c). */
module FillCounts {
  import opened Machine
  import opened Book
  import opened BookFacts
  import opened BookRuns
  import opened Weights
  import opened Settle

  /** How many fills of an order took all of it. */
  function FullFills(fills: seq<Fill>, x: u32): nat {
    if fills == [] then 0 else (if fills[0].id == x && !fills[0].partial then 1 else 0) + FullFills(fills[1..], x)
  }

  lemma {:induction false} FullFillsConcat(a: seq<Fill>, b: seq<Fill>, x: u32)
    ensures FullFills(a + b, x) == FullFills(a, x) + FullFills(b, x)
  {
    if a == [] {
      assert a + b == b;
    } else {
      assert (a + b)[0] == a[0] && (a + b)[1..] == a[1..] + b;
      FullFillsConcat(a[1..], b, x);
    }
  }

  /** An entry is gone exactly when a fill says it was not partial. */
  lemma {:induction false} EatCounts(orders: seq<Entry>, q: nat, x: u32)
    ensures Occurs(Eat(orders, q).rest, x) + FullFills(Eat(orders, q).fills, x) == Occurs(orders, x)
  {
    if orders != [] && q > 0 {
      if orders[0].qty > q {
        assert ([orders[0].(qty := orders[0].qty - q)] + orders[1..])[1..] == orders[1..];
      } else {
        EatCounts(orders[1..], q - orders[0].qty, x);
        FullFillsConcat([Fill(orders[0].id, orders[0].qty, false)], Eat(orders[1..], q - orders[0].qty).fills, x);
      }
    }
  }

  lemma {:induction false} SweepCounts(levels: seq<Level>, t: Order, q: nat, x: u32)
    ensures var w := Sweep(levels, t, q); Count(w.levels, x) + FullFills(w.fills, x) == Count(levels, x)
  {
    if levels != [] && q > 0 && Crosses(t, levels[0].price) {
      var e := Eat(levels[0].orders, q);
      EatCounts(levels[0].orders, q, x);
      if e.rest == [] {
        SweepCounts(levels[1..], t, e.left, x);
        FullFillsConcat(e.fills, Sweep(levels[1..], t, e.left).fills, x);
      } else {
        assert ([At(levels[0].price, e.rest)] + levels[1..])[1..] == levels[1..];
      }
    }
  }

  function Swapped(was: u32, e: Entry, x: u32): int {
    (if x == e.id then 1 else 0) - (if x == was then 1 else 0)
  }

  lemma {:induction false} SwapEntryCounts(orders: seq<Entry>, was: u32, e: Entry, x: u32)
    requires Occurs(orders, was) <= 1
    ensures Occurs(SwapEntry(orders, was, e), x) == Occurs(orders, x) + if Occurs(orders, was) == 1 then Swapped(was, e, x) else 0
  {
    if orders != [] {
      if orders[0].id == was {
        assert ([e] + orders[1..])[1..] == orders[1..];
      } else {
        SwapEntryCounts(orders[1..], was, e, x);
        assert ([orders[0]] + SwapEntry(orders[1..], was, e))[1..] == SwapEntry(orders[1..], was, e);
      }
    }
  }

  lemma {:induction false} SwapCounts(levels: seq<Level>, was: u32, e: Entry, x: u32)
    requires Count(levels, was) <= 1
    ensures Count(Swap(levels, was, e), x) == Count(levels, x) + if Count(levels, was) == 1 then Swapped(was, e, x) else 0
  {
    if levels != [] {
      SwapEntryCounts(levels[0].orders, was, e, x);
      SwapCounts(levels[1..], was, e, x);
    }
  }

  lemma SubmitCounts(s: Sides, t: Order, id: u32, x: u32)
    requires !t.PureCancel()
    ensures var r := Submit(s, t, id);
            Count(r.sides.bids + r.sides.asks, x) + FullFills(r.fills, x)
            == Count(s.bids + s.asks, x) + if x == id && LeftResting(t, r.fills) > 0 then 1 else 0
  {
    var best := Opposite(s, t.buy);
    var w := Sweep(best, t, t.quantity);
    var r := Submit(s, t, id);
    SweepFills(best, t, t.quantity);
    SweepCounts(best, t, t.quantity, x);
    CountReverse(s.bids, x);
    CountReverse(w.levels, x);
    if w.left > 0 && t.Gtc() {
      CountRest(Own(s, t.buy), t.price, Entry(id, w.left), x);
    }
    CountConcat(s.bids, s.asks, x);
    CountConcat(r.sides.bids, r.sides.asks, x);
  }

  /** A message takes its target out of the book, and every order it fills whole, and rests itself if
  anything of it is left. */
  lemma MessageCounts(s: Sides, table: Table, id: u32, x: u32)
    requires SoundSides(s) && Settleable(s, table, id)
    ensures var o := table[id]; var m := Message(s, table, id);
            Count(m.sides.bids + m.sides.asks, x) + FullFills(m.fills, x)
            == Count(s.bids + s.asks, x) - (if o.Pulls() && x == o.otherId then 1 else 0)
               + if x == id && LeftResting(o, m.fills) > 0 then 1 else 0
  {
    var o, m := table[id], Message(s, table, id);
    var p := Pull(s, Gone(o, table));
    PullCounts(s, Gone(o, table), x);
    if o.PureCancel() {
    } else if o.canRep && Shrinks(o, table[o.otherId]) {
      var e := Entry(id, o.quantity);
      PullCounts(s, {}, o.otherId);
      CountConcat(p.bids, p.asks, o.otherId);
      SwapCounts(p.bids, o.otherId, e, x);
      SwapCounts(p.asks, o.otherId, e, x);
      CountConcat(p.bids, p.asks, x);
      CountConcat(m.sides.bids, m.sides.asks, x);
    } else {
      SubmitCounts(p, o, id, x);
    }
  }
}
