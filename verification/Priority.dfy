/** Price and time priority, said of the queues alone: whose turn it is at each price before a message
and after it (the rules src/ob.c is written for). */
module Priority {
  import opened Machine
  import opened Book
  import opened BookFacts
  import opened BookRuns
  import opened Legs
  import opened Weights

  /** The orders that wait at this price, the earliest first. */
  ghost function Queue(levels: seq<Level>, price: u16): seq<Entry> {
    if levels == [] then [] else (if levels[0].price == price then levels[0].orders else []) + Queue(levels[1..], price)
  }

  // ---------- The rules ----------

  /** The side an order of this direction trades with. */
  function Across(s: Sides, buy: bool): seq<Level> {
    if buy then s.asks else s.bids
  }

  /** Would this order trade at this price? */
  predicate Takes(t: Order, price: u16) {
    t.market || (t.buy && price <= t.price) || (!t.buy && price >= t.price)
  }

  /** For a taker of this direction, p comes before q. */
  predicate Ahead(p: u16, q: u16, buy: bool) {
    if buy then p < q else p > q
  }

  /** Served from the front: whoever is gone stood ahead of whoever is left, and only the one now in
  front may have got less. */
  ghost predicate Served(was: seq<Entry>, now: seq<Entry>) {
    exists k | 0 <= k <= |was| :: ServedUpTo(was, now, k)
  }

  ghost predicate ServedUpTo(was: seq<Entry>, now: seq<Entry>, k: nat)
    requires k <= |was|
  {
    || now == was[k..]
    || (k < |was| && now != [] && now[0].id == was[k].id && 0 < now[0].qty < was[k].qty && now[1..] == was[k + 1..])
  }

  /** The best price first, the front of each queue first, nobody past the order's limit, and nobody
  within it once the order is not spent. */
  ghost predicate ByPriority(was: seq<Level>, now: seq<Level>, t: Order, left: nat) {
    && (forall p: u16 :: Served(Queue(was, p), Queue(now, p)))
    && (forall p: u16 | Queue(now, p) != Queue(was, p) :: Takes(t, p))
    && (forall p: u16, q: u16 | Ahead(p, q, t.buy) && Queue(now, q) != Queue(was, q) :: Queue(now, p) == [])
    && (left > 0 ==> forall p: u16 | Takes(t, p) :: Queue(now, p) == [])
  }

  /** A replacement in its target's own slot: a strict reduction stands where its target stood, any
  other size goes to the back, and nobody else moves. */
  ghost predicate Requeued(was: seq<Entry>, now: seq<Entry>, target: u32, id: u32, q: u16) {
    exists k | 0 <= k < |was| ::
      && was[k].id == target
      && now == if q < was[k].qty then was[k := Entry(id, q)] else was[..k] + was[k + 1..] + [Entry(id, q)]
  }

  /** What becomes of the queues of a book when this order's message is done. rests says whether it may
  rest in its target's own slot. */
  ghost predicate KeepsTurns(s: Sides, now: Sides, fills: seq<Fill>, table: Table, id: u32, rests: bool)
    requires id in table && HasTarget(table[id], table)
  {
    var o := table[id];
    if o.canRep && o.price == table[o.otherId].price && o.buy == table[o.otherId].buy && rests then
      && fills == []
      && Requeued(Queue(Own(s, o.buy), o.price), Queue(Own(now, o.buy), o.price), o.otherId, id, o.quantity)
      && (forall p: u16 | p != o.price :: Queue(Own(now, o.buy), p) == Queue(Own(s, o.buy), p))
      && (forall p: u16 :: Queue(Across(now, o.buy), p) == Queue(Across(s, o.buy), p))
    else if o.PureCancel() then
      forall buy, p: u16 :: Queue(Own(now, buy), p) == Keep(Queue(Own(s, buy), p), {o.otherId})
    else
      var left := o.quantity - FillTotal(fills);
      && left >= 0
      && (forall p: u16 :: Queue(Own(now, o.buy), p) == Keep(Queue(Own(s, o.buy), p), o.Pulled()) + Newcomer(o, id, left, p))
      && ByPriority(Prune(Across(s, o.buy), o.Pulled()), Across(now, o.buy), o, left)
  }

  /** What joins the back of the queue at this price. */
  function Newcomer(o: Order, id: u32, left: nat, price: u16): seq<Entry> {
    if o.Gtc() && 0 < left <= 0xFFFF && price == o.price then [Entry(id, left)] else []
  }

  // ---------- Queues and levels ----------

  ghost predicate Apart(levels: seq<Level>) {
    forall i, j | 0 <= i < j < |levels| :: levels[i].price != levels[j].price
  }

  ghost predicate BestFirst(levels: seq<Level>, buy: bool) {
    forall i, j | 0 <= i < j < |levels| :: Ahead(levels[i].price, levels[j].price, buy)
  }

  lemma {:induction false} QueueConcat(a: seq<Level>, b: seq<Level>, p: u16)
    ensures Queue(a + b, p) == Queue(a, p) + Queue(b, p)
  {
    if a == [] {
      assert a + b == b;
    } else {
      assert (a + b)[1..] == a[1..] + b;
      QueueConcat(a[1..], b, p);
    }
  }

  lemma {:induction false} NoQueue(levels: seq<Level>, p: u16)
    requires forall l | l in levels :: l.price != p
    ensures Queue(levels, p) == []
  {
    if levels != [] {
      assert levels[0] in levels && forall l | l in levels[1..] :: l in levels;
      NoQueue(levels[1..], p);
    }
  }

  /** The front level, and the others. */
  lemma FrontQueue(levels: seq<Level>, p: u16)
    requires levels != [] && Apart(levels)
    ensures Queue(levels, p) == if levels[0].price == p then levels[0].orders else Queue(levels[1..], p)
    ensures Queue(levels[1..], levels[0].price) == [] && Apart(levels[1..])
  {
    assert forall l | l in levels[1..] :: l.price != levels[0].price;
    NoQueue(levels[1..], levels[0].price);
    assert [] + Queue(levels[1..], p) == Queue(levels[1..], p) && levels[0].orders + [] == levels[0].orders;
  }

  lemma {:induction false} QueueOf(levels: seq<Level>, l: Level)
    requires Apart(levels) && l in levels
    ensures Queue(levels, l.price) == l.orders
  {
    FrontQueue(levels, l.price);
    if l != levels[0] {
      QueueOf(levels[1..], l);
    }
  }

  lemma {:induction false} QueueReverse(levels: seq<Level>, p: u16)
    requires Apart(levels)
    ensures Queue(Reverse(levels), p) == Queue(levels, p)
  {
    if levels != [] {
      FrontQueue(levels, p);
      QueueReverse(levels[1..], p);
      QueueConcat(Reverse(levels[1..]), [levels[0]], p);
      assert [levels[0]][1..] == [];
    }
  }

  lemma {:induction false} QueuePrune(levels: seq<Level>, gone: set<u32>, p: u16)
    ensures Queue(Prune(levels, gone), p) == Keep(Queue(levels, p), gone)
  {
    if levels != [] {
      var l := levels[0];
      QueuePrune(levels[1..], gone, p);
      QueueConcat(PruneLevel(l, gone), Prune(levels[1..], gone), p);
      KeepConcat(if l.price == p then l.orders else [], Queue(levels[1..], p), gone);
      var kept := PruneLevel(l, gone);
      if kept != [] {
        assert kept == [kept[0]] && kept[1..] == [];
        assert Queue(kept, p) == if l.price == p then Keep(l.orders, gone) else [];
      }
    }
  }

  lemma {:induction false} QueueRest(levels: seq<Level>, price: u16, e: Entry, p: u16)
    requires Ascending(levels)
    ensures Queue(Rest(levels, price, e), p) == Queue(levels, p) + if p == price then [e] else []
  {
    if levels == [] || price < levels[0].price {
      var new_ := [At(price, [e])];
      QueueConcat(new_, levels, p);
      assert new_[1..] == [] && (forall l | l in levels :: l.price != price);
      NoQueue(levels, price);
    } else if price == levels[0].price {
      FrontQueue(levels, p);
      var joined := [At(price, levels[0].orders + [e])];
      assert (joined + levels[1..])[1..] == levels[1..];
    } else {
      QueueRest(levels[1..], price, e, p);
      assert ([levels[0]] + Rest(levels[1..], price, e))[1..] == Rest(levels[1..], price, e);
    }
  }

  lemma {:induction false} QueueSwap(levels: seq<Level>, was: u32, e: Entry, p: u16)
    requires Apart(levels)
    ensures Queue(Swap(levels, was, e), p) == SwapEntry(Queue(levels, p), was, e)
  {
    if levels != [] {
      FrontQueue(levels, p);
      QueueSwap(levels[1..], was, e, p);
      QueueSwap(levels[1..], was, e, levels[0].price);
      assert Swap(levels, was, e)[1..] == Swap(levels[1..], was, e);
    }
  }

  lemma {:induction false} QueueOccurs(levels: seq<Level>, p: u16, id: u32)
    ensures Occurs(Queue(levels, p), id) <= Count(levels, id)
  {
    if levels != [] {
      QueueOccurs(levels[1..], p, id);
      OccursConcat(if levels[0].price == p then levels[0].orders else [], Queue(levels[1..], p), id);
    }
  }

  // ---------- One order pulled or replaced ----------

  lemma {:induction false} KeepSplits(orders: seq<Entry>, k: nat)
    requires k < |orders| && Occurs(orders, orders[k].id) <= 1
    ensures Keep(orders, {orders[k].id}) == orders[..k] + orders[k + 1..]
  {
    if k == 0 {
      OccursMember(orders[1..], orders[0].id);
      KeepNone(orders[1..], {orders[0].id});
    } else {
      OccursMember(orders[1..], orders[k].id);
      assert orders[1..][k - 1] == orders[k] && orders[k] in orders[1..];
      KeepSplits(orders[1..], k - 1);
      assert [orders[0]] + (orders[1..][..k - 1] + orders[1..][k..]) == orders[..k] + orders[k + 1..];
    }
  }

  lemma {:induction false} SwapSplits(orders: seq<Entry>, k: nat, e: Entry)
    requires k < |orders| && Occurs(orders, orders[k].id) <= 1
    ensures SwapEntry(orders, orders[k].id, e) == orders[k := e]
  {
    if k > 0 {
      OccursMember(orders[1..], orders[k].id);
      assert orders[1..][k - 1] == orders[k] && orders[k] in orders[1..];
      SwapSplits(orders[1..], k - 1, e);
    }
  }

  // ---------- Sweeping ----------

  lemma {:induction false} EatServes(orders: seq<Entry>, q: nat)
    ensures Served(orders, Eat(orders, q).rest)
  {
    if orders == [] || q == 0 {
      assert ServedUpTo(orders, orders, 0);
    } else if orders[0].qty > q {
      assert ServedUpTo(orders, Eat(orders, q).rest, 0);
    } else {
      EatServes(orders[1..], q - orders[0].qty);
      var rest := Eat(orders[1..], q - orders[0].qty).rest;
      var k :| 0 <= k <= |orders[1..]| && ServedUpTo(orders[1..], rest, k);
      assert ServedUpTo(orders, rest, k + 1);
    }
  }

  lemma ServedSame(orders: seq<Entry>)
    ensures Served(orders, orders) && Served(orders, [])
  {
    assert ServedUpTo(orders, orders, 0) && ServedUpTo(orders, [], |orders|);
  }

  /** A sweep that stops at once. */
  lemma NothingSwept(levels: seq<Level>, t: Order, left: nat)
    requires BestFirst(levels, t.buy) && (left > 0 && levels != [] ==> !Crosses(t, levels[0].price))
    ensures ByPriority(levels, levels, t, left)
  {
    forall p: u16
      ensures Served(Queue(levels, p), Queue(levels, p))
      ensures left > 0 && Takes(t, p) ==> Queue(levels, p) == []
    {
      ServedSame(Queue(levels, p));
      if left > 0 && Takes(t, p) {
        forall l | l in levels
          ensures l.price != p
        {
          var i :| 0 <= i < |levels| && levels[i] == l;
          assert i > 0 ==> Ahead(levels[0].price, levels[i].price, t.buy);
        }
        NoQueue(levels, p);
      }
    }
  }

  lemma BestApart(levels: seq<Level>, buy: bool)
    requires BestFirst(levels, buy)
    ensures Apart(levels)
    ensures levels != [] ==> BestFirst(levels[1..], buy)
    ensures levels != [] ==> forall p: u16 | Ahead(p, levels[0].price, buy) :: Queue(levels, p) == [] && Queue(levels[1..], p) == []
  {
    if levels != [] {
      forall p: u16 | Ahead(p, levels[0].price, buy)
        ensures Queue(levels, p) == [] && Queue(levels[1..], p) == []
      {
        assert forall i | 0 < i < |levels| :: Ahead(levels[0].price, levels[i].price, buy);
        NoQueue(levels, p);
        NoQueue(levels[1..], p);
      }
    }
  }

  /** The front level gone, and the rest swept on. */
  lemma SweptOn(levels: seq<Level>, now: seq<Level>, t: Order, left: nat)
    requires levels != [] && BestFirst(levels, t.buy) && Crosses(t, levels[0].price)
    requires ByPriority(levels[1..], now, t, left)
    ensures ByPriority(levels, now, t, left)
  {
    hide Queue, Served, BestFirst, Apart, Crosses;
    BestApart(levels, t.buy);
    var best, tail := levels[0].price, levels[1..];
    assert Takes(t, best) by {
      TakesCrosses(t, best);
    }
    forall p: u16
      ensures Served(Queue(levels, p), Queue(now, p))
      ensures p == best || Ahead(p, best, t.buy) ==> Queue(now, p) == []
      ensures p != best ==> Queue(levels, p) == Queue(tail, p)
    {
      FrontQueue(levels, p);
      ServedSame(Queue(levels, p));
      if p == best || Ahead(p, best, t.buy) {
        NobodyServed(Queue(tail, p), Queue(now, p));
      }
    }
  }

  /** A taker of one price is one whose limit reaches it. */
  lemma TakesCrosses(t: Order, price: u16)
    ensures Crosses(t, price) <==> Takes(t, price)
  {
  }

  lemma NobodyServed(was: seq<Entry>, now: seq<Entry>)
    requires was == [] && Served(was, now)
    ensures now == []
  {
  }

  /** The front level bitten into. */
  lemma Bitten(levels: seq<Level>, rest: seq<Entry>, t: Order)
    requires levels != [] && BestFirst(levels, t.buy) && Crosses(t, levels[0].price) && Served(levels[0].orders, rest)
    ensures ByPriority(levels, [At(levels[0].price, rest)] + levels[1..], t, 0)
  {
    BestApart(levels, t.buy);
    var best, now := levels[0].price, [At(levels[0].price, rest)] + levels[1..];
    assert now[1..] == levels[1..] && BestFirst(now, t.buy);
    BestApart(now, t.buy);
    forall p: u16
      ensures Served(Queue(levels, p), Queue(now, p))
      ensures p != best ==> Queue(now, p) == Queue(levels, p)
      ensures Ahead(p, best, t.buy) ==> Queue(now, p) == []
    {
      FrontQueue(levels, p);
      FrontQueue(now, p);
      ServedSame(Queue(levels, p));
    }
  }

  lemma {:induction false} SweepByPriority(levels: seq<Level>, t: Order, q: nat)
    requires BestFirst(levels, t.buy)
    ensures ByPriority(levels, Sweep(levels, t, q).levels, t, Sweep(levels, t, q).left)
  {
    hide ByPriority, BestFirst, Served, Crosses;
    SweepOne(levels, t, q);
    if levels == [] || q == 0 || !Crosses(t, levels[0].price) {
      NothingSwept(levels, t, q);
    } else {
      var e := Eat(levels[0].orders, q);
      BestApart(levels, t.buy);
      if e.rest == [] {
        SweepByPriority(levels[1..], t, e.left);
        SweptOn(levels, Sweep(levels[1..], t, e.left).levels, t, Sweep(levels[1..], t, e.left).left);
      } else {
        EatServes(levels[0].orders, q);
        LevelLeft(levels[0].orders, q);
        Bitten(levels, e.rest, t);
      }
    }
  }

  // ---------- One message ----------

  /** The other order waits where the table says it does. */
  ghost predicate Waiting(s: Sides, table: Table, x: u32) {
    x in table && Entry(x, table[x].quantity) in Queue(Own(s, table[x].buy), table[x].price)
  }

  ghost predicate Climbing(s: Sides) {
    Ascending(s.bids) && Ascending(s.asks)
  }

  lemma SidesApart(s: Sides)
    requires Climbing(s)
    ensures Apart(s.bids) && Apart(s.asks)
    ensures forall buy :: BestFirst(Opposite(s, buy), buy)
    ensures forall buy, p: u16 :: Queue(Opposite(s, buy), p) == Queue(Across(s, buy), p)
  {
    ReverseSize(s.bids);
    forall i, j | 0 <= i < j < |s.bids|
      ensures Reverse(s.bids)[i].price > Reverse(s.bids)[j].price
    {
      ReverseAt(s.bids, i);
      ReverseAt(s.bids, j);
    }
    forall p: u16
      ensures Queue(Reverse(s.bids), p) == Queue(s.bids, p)
    {
      QueueReverse(s.bids, p);
    }
  }

  lemma SoundClimbs(s: Sides)
    requires SoundSides(s)
    ensures Climbing(s)
  {
    SplitSound(s.bids, s.asks);
  }

  /** A sweep leaves the levels it does not eat where they are. */
  lemma {:induction false} SweptBest(levels: seq<Level>, t: Order, q: nat, buy: bool)
    requires BestFirst(levels, buy)
    ensures BestFirst(Sweep(levels, t, q).levels, buy)
  {
    SweepOne(levels, t, q);
    if levels != [] && q > 0 && Crosses(t, levels[0].price) {
      var e := Eat(levels[0].orders, q);
      SweptBest(levels[1..], t, e.left, buy);
    }
  }

  lemma SameQueues(a: seq<Level>, b: seq<Level>, c: seq<Level>, d: seq<Level>, t: Order, left: nat)
    requires ByPriority(a, b, t, left)
    requires forall p: u16 :: Queue(c, p) == Queue(a, p) && Queue(d, p) == Queue(b, p)
    ensures ByPriority(c, d, t, left)
  {
    forall p: u16
      ensures Served(Queue(c, p), Queue(d, p))
    {
      assert Served(Queue(a, p), Queue(b, p));
    }
  }

  /** An order that trades and rests. */
  lemma SubmitTurns(s: Sides, t: Order, id: u32)
    requires Climbing(s)
    ensures var r := Submit(s, t, id); var left := t.quantity - FillTotal(r.fills);
            && left >= 0
            && (forall p: u16 :: Queue(Own(r.sides, t.buy), p) == Queue(Own(s, t.buy), p) + Newcomer(t, id, left, p))
            && ByPriority(Across(s, t.buy), Across(r.sides, t.buy), t, left)
  {
    hide Sweep, Queue, ByPriority, BestFirst, Apart;
    var best := Opposite(s, t.buy);
    var w := Sweep(best, t, t.quantity);
    var r := Submit(s, t, id);
    SidesApart(s);
    SweptBest(best, t, t.quantity, t.buy);
    BestApart(w.levels, t.buy);
    SweepFills(best, t, t.quantity);
    SweepByPriority(best, t, t.quantity);
    forall p: u16
      ensures Queue(Across(r.sides, t.buy), p) == Queue(w.levels, p)
      ensures Queue(Own(r.sides, t.buy), p) == Queue(Own(s, t.buy), p) + Newcomer(t, id, w.left, p)
    {
      QueueReverse(w.levels, p);
      QueueRest(Own(s, t.buy), t.price, Entry(id, w.left), p);
    }
    SameQueues(best, w.levels, Across(s, t.buy), Across(r.sides, t.buy), t, w.left);
  }

  lemma {:induction false} QueuesOccur(levels: seq<Level>, p: u16, q: u16, x: u32)
    requires p != q
    ensures Occurs(Queue(levels, p), x) + Occurs(Queue(levels, q), x) <= Count(levels, x)
  {
    if levels != [] {
      var l := levels[0];
      QueuesOccur(levels[1..], p, q, x);
      OccursConcat(if l.price == p then l.orders else [], Queue(levels[1..], p), x);
      OccursConcat(if l.price == q then l.orders else [], Queue(levels[1..], q), x);
    }
  }

  /** Whoever waits in one queue waits in no other, and once there. */
  lemma WaitsOnce(s: Sides, table: Table, x: u32)
    requires SoundSides(s) && Waiting(s, table, x)
    ensures var buy, price := table[x].buy, table[x].price;
            && Occurs(Queue(Own(s, buy), price), x) == 1
            && (forall p: u16 | p != price :: Occurs(Queue(Own(s, buy), p), x) == 0)
            && (forall p: u16 :: Occurs(Queue(Across(s, buy), p), x) == 0)
  {
    var buy, price := table[x].buy, table[x].price;
    OccursMember(Queue(Own(s, buy), price), x);
    SidesDistinct(s);
    assert Count(s.bids, x) + Count(s.asks, x) <= 1;
    QueueOccurs(Own(s, buy), price, x);
    forall p: u16
      ensures p != price ==> Occurs(Queue(Own(s, buy), p), x) == 0
      ensures Occurs(Queue(Across(s, buy), p), x) == 0
    {
      QueueOccurs(Across(s, buy), p, x);
      if p != price {
        QueuesOccur(Own(s, buy), p, price, x);
      }
    }
  }

  /** Pulled orders are gone from every queue, and nobody else moves. */
  lemma PullTurns(s: Sides, gone: set<u32>)
    ensures forall buy, p: u16 :: Queue(Own(Pull(s, gone), buy), p) == Keep(Queue(Own(s, buy), p), gone)
    ensures forall buy, p: u16 :: Queue(Across(Pull(s, gone), buy), p) == Keep(Queue(Across(s, buy), p), gone)
  {
    forall p: u16
      ensures Queue(Prune(s.bids, gone), p) == Keep(Queue(s.bids, p), gone)
      ensures Queue(Prune(s.asks, gone), p) == Keep(Queue(s.asks, p), gone)
    {
      QueuePrune(s.bids, gone, p);
      QueuePrune(s.asks, gone, p);
    }
  }

  /** Without its target, an order in its target's slot goes to the back. */
  lemma ToTheBack(orders: seq<Entry>, x: u32, e: Entry)
    requires Occurs(orders, x) == 1 && e.qty <= 0xFFFF && forall w | w in orders && w.id == x :: e.qty >= w.qty
    ensures Requeued(orders, Keep(orders, {x}) + [e], x, e.id, e.qty)
  {
    OccursMember(orders, x);
    var k :| 0 <= k < |orders| && orders[k].id == x;
    KeepSplits(orders, k);
    assert orders[k] in orders;
  }

  lemma InItsPlace(orders: seq<Entry>, x: u32, e: Entry)
    requires Occurs(orders, x) == 1 && e.qty <= 0xFFFF && forall w | w in orders && w.id == x :: e.qty < w.qty
    ensures Requeued(orders, SwapEntry(orders, x, e), x, e.id, e.qty)
  {
    OccursMember(orders, x);
    var k :| 0 <= k < |orders| && orders[k].id == x;
    SwapSplits(orders, k, e);
    assert orders[k] in orders;
  }

  /** There is one entry by this id. */
  lemma {:induction false} OneEntry(orders: seq<Entry>, a: Entry, b: Entry)
    requires a in orders && b in orders && a.id == b.id && Occurs(orders, a.id) <= 1
    ensures a == b
  {
    OccursMember(orders[1..], a.id);
    if a != orders[0] && b != orders[0] {
      OneEntry(orders[1..], a, b);
    }
  }

  /** Where its target stands, nobody across would trade. */
  lemma SlotQuiet(s: Sides, table: Table, o: Order, gone: set<u32>)
    requires SoundSides(s) && o.Pulls() && Waiting(s, table, o.otherId) && !o.market
    requires o.price == table[o.otherId].price && o.buy == table[o.otherId].buy
    ensures NoneCross(Opposite(Pull(s, gone), o.buy), o)
  {
    SplitSound(s.bids, s.asks);
    var own := Own(s, o.buy);
    if forall l | l in own :: l.price != o.price {
      NoQueue(own, o.price);
    }
    var l :| l in own && l.price == o.price;
    var p := Pull(s, gone);
    PrunePrices(s.bids, gone);
    PrunePrices(s.asks, gone);
    forall m | m in Opposite(p, o.buy)
      ensures !Crosses(o, m.price)
    {
      ReverseMember(p.bids, m);
    }
  }

  /** A replacement in its target's slot, to the back or where the target stood. */
  lemma SlotTurns(s: Sides, table: Table, id: u32)
    requires SoundSides(s) && id in table && table[id].canRep && table[id].quantity > 0 && table[id].Gtc()
    requires !table[id].market
    requires Waiting(s, table, table[id].otherId) && SameSlot(table[id], table[table[id].otherId])
    ensures KeepsTurns(s, Message(s, table, id).sides, Message(s, table, id).fills, table, id, true)
  {
    hide Queue, SoundSides, Occurs, Sweep, Prune, SwapEntry, Keep, Requeued, Swap, ByPriority, Crosses;
    var o := table[id];
    var x, own := o.otherId, Own(s, o.buy);
    var e, slot := Entry(id, o.quantity), Queue(own, o.price);
    WaitsOnce(s, table, x);
    forall w | w in slot && w.id == x
      ensures w.qty == table[x].quantity
    {
      OneEntry(slot, w, Entry(x, table[x].quantity));
    }
    if o.quantity < table[x].quantity {
      PullTurns(s, {});
      PullSound(s, {});
      SoundClimbs(Pull(s, {}));
      SidesApart(Pull(s, {}));
      InItsPlace(slot, x, e);
      forall p: u16
        ensures Queue(Swap(Own(Pull(s, {}), o.buy), x, e), p) == SwapEntry(Queue(own, p), x, e)
        ensures p != o.price ==> SwapEntry(Queue(own, p), x, e) == Queue(own, p)
        ensures Queue(Swap(Across(Pull(s, {}), o.buy), x, e), p) == Queue(Across(s, o.buy), p)
      {
        QueueSwap(Own(Pull(s, {}), o.buy), x, e, p);
        QueueSwap(Across(Pull(s, {}), o.buy), x, e, p);
        KeepNone(Queue(own, p), {});
        KeepNone(Queue(Across(s, o.buy), p), {});
        if p != o.price {
          SwapEntryNone(Queue(own, p), x, e);
        }
        SwapEntryNone(Queue(Across(s, o.buy), p), x, e);
      }
    } else {
      PullTurns(s, {x});
      PullSound(s, {x});
      SoundClimbs(Pull(s, {x}));
      SlotQuiet(s, table, o, {x});
      SweepNothing(Opposite(Pull(s, {x}), o.buy), o, o.quantity);
      SubmitTurns(Pull(s, {x}), o, id);
      ToTheBack(slot, x, e);
      OppositeOf(Pull(s, {x}), o.buy);
      forall p: u16
        ensures p != o.price ==> Keep(Queue(own, p), {x}) == Queue(own, p)
        ensures Keep(Queue(Across(s, o.buy), p), {x}) == Queue(Across(s, o.buy), p)
      {
        if p != o.price {
          KeepAbsent(Queue(own, p), x);
        }
        KeepAbsent(Queue(Across(s, o.buy), p), x);
      }
    }
  }

  /** Every message keeps everybody's turn. */
  lemma MessageTurns(s: Sides, table: Table, id: u32)
    requires SoundSides(s) && id in table && HasTarget(table[id], table) && table[id].Sized()
    requires table[id].market && !table[id].PureCancel() ==> !table[id].Gtc()
    requires table[id].Pulls() ==> Waiting(s, table, table[id].otherId)
    ensures KeepsTurns(s, Message(s, table, id).sides, Message(s, table, id).fills, table, id, table[id].Gtc())
  {
    hide Queue, SoundSides, Sweep, Prune, Keep, Requeued, ByPriority, Crosses, Submit;
    var o := table[id];
    if o.canRep && SameSlot(o, table[o.otherId]) && o.Gtc() {
      SlotTurns(s, table, id);
    } else {
      PullTurns(s, o.Pulled());
      PullSound(s, o.Pulled());
      SoundClimbs(Pull(s, o.Pulled()));
      SubmitTurns(Pull(s, o.Pulled()), o, id);
    }
  }

  /** Ten more shares at the same price, or as many, go to the back of the queue. */
  lemma SameSizeRequeues()
    ensures var s := Sides([At(50, [Entry(1, 10), Entry(2, 10)])], []);
            var o := Order(0, 50, 10, true, false, false, false, false, false, 0);
            var table: Table := map[1 := o, 2 := o, 3 := o.(canRep := true, otherId := 1)];
            Queue(Message(s, table, 3).sides.bids, 50) == [Entry(2, 10), Entry(3, 10)]
  {
    var orders := [Entry(1, 10), Entry(2, 10)];
    var s := Sides([At(50, orders)], []);
    var o := Order(0, 50, 10, true, false, false, false, false, false, 0);
    var table: Table := map[1 := o, 2 := o, 3 := o.(canRep := true, otherId := 1)];
    assert s.bids[1..] == [] && orders[1..] == [Entry(2, 10)] && Queue(s.bids, 50) == orders;
    assert s.bids + s.asks == s.bids;
    forall id: u32
      ensures Count(s.bids, id) == if id == 1 || id == 2 then 1 else 0
    {
      assert Occurs(orders, id) == (if id == 1 then 1 else 0) + Occurs(orders[1..], id);
      assert Count(s.bids, id) == Occurs(orders, id) + Count(s.bids[1..], id);
    }
    assert SoundLevel(s.bids[0]);
    MessageTurns(s, table, 3);
    var now := Queue(Message(s, table, 3).sides.bids, 50);
    assert Requeued(orders, now, 1, 3, 10);
    assert now == orders[..0] + orders[1..] + [Entry(3, 10)];
  }
}
