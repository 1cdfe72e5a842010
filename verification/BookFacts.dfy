/** What a well-formed book is, and the facts about pulling, sweeping and resting that every
rewrite proof uses. */
module BookFacts {
  import opened Machine
  import opened Book

  // ---------- Well-formed books ----------

  ghost predicate Ascending(levels: seq<Level>) {
    forall i, j | 0 <= i < j < |levels| :: levels[i].price < levels[j].price
  }

  ghost predicate Below(levels: seq<Level>, price: int) {
    forall l | l in levels :: l.price < price
  }

  ghost predicate Above(levels: seq<Level>, price: int) {
    forall l | l in levels :: price < l.price
  }

  /** No level here would trade with t. */
  ghost predicate NoneCross(levels: seq<Level>, t: Order) {
    forall l | l in levels :: !Crosses(t, l.price)
  }

  predicate EntryOk(e: Entry) {
    0 < e.qty < 0x1_0000 && e.id != MAX_U32
  }

  ghost predicate LevelOk(l: Level) {
    && l.orders != []
    && |l.orders| < 0x1_0000
    && l.quantity == Total(l.orders)
    && forall e | e in l.orders :: EntryOk(e)
  }

  /** How often an id rests in one level. */
  function Occurs(orders: seq<Entry>, id: u32): nat {
    if orders == [] then 0 else (if orders[0].id == id then 1 else 0) + Occurs(orders[1..], id)
  }

  /** How often an id rests in the levels. */
  function Count(levels: seq<Level>, id: u32): nat {
    if levels == [] then 0 else Occurs(levels[0].orders, id) + Count(levels[1..], id)
  }

  ghost predicate LevelsOk(levels: seq<Level>) {
    forall l | l in levels :: LevelOk(l)
  }

  ghost predicate Distinct(levels: seq<Level>) {
    forall id: u32 :: Count(levels, id) <= 1
  }

  /** The snapshots the engine builds: prices climb, no level is empty, the index totals are
  right, and no order rests twice. */
  ghost predicate BookOk(levels: seq<Level>) {
    && Ascending(levels)
    && LevelsOk(levels)
    && Distinct(levels)
  }

  /** Order id rests with quantity qty at level i. */
  ghost predicate RestsAt(levels: seq<Level>, i: int, id: u32, qty: u32) {
    0 <= i < |levels| && Entry(id, qty) in levels[i].orders
  }

  // ---------- Concatenation ----------

  lemma {:induction false} TotalConcat(a: seq<Entry>, b: seq<Entry>)
    ensures Total(a + b) == Total(a) + Total(b)
  {
    if a == [] {
      assert a + b == b;
    } else {
      assert (a + b)[1..] == a[1..] + b;
      TotalConcat(a[1..], b);
    }
  }

  lemma {:induction false} KeepConcat(a: seq<Entry>, b: seq<Entry>, gone: set<u32>)
    ensures Keep(a + b, gone) == Keep(a, gone) + Keep(b, gone)
  {
    if a == [] {
      assert a + b == b;
    } else {
      assert (a + b)[1..] == a[1..] + b;
      KeepConcat(a[1..], b, gone);
    }
  }

  lemma {:induction false} PruneConcat(a: seq<Level>, b: seq<Level>, gone: set<u32>)
    ensures Prune(a + b, gone) == Prune(a, gone) + Prune(b, gone)
  {
    if a == [] {
      assert a + b == b;
    } else {
      assert (a + b)[1..] == a[1..] + b;
      PruneConcat(a[1..], b, gone);
    }
  }

  lemma {:induction false} ReverseConcat(a: seq<Level>, b: seq<Level>)
    ensures Reverse(a + b) == Reverse(b) + Reverse(a)
  {
    if a == [] {
      assert a + b == b;
    } else {
      assert (a + b)[1..] == a[1..] + b;
      ReverseConcat(a[1..], b);
    }
  }

  lemma {:induction false} ReverseTwice(a: seq<Level>)
    ensures Reverse(Reverse(a)) == a
  {
    if a != [] {
      ReverseTwice(a[1..]);
      ReverseConcat(Reverse(a[1..]), [a[0]]);
      assert Reverse([a[0]]) == [a[0]];
    }
  }

  lemma {:induction false} ReverseAt(a: seq<Level>, k: nat)
    requires k < |a|
    ensures |Reverse(a)| == |a|
    ensures Reverse(a)[k] == a[|a| - 1 - k]
  {
    if |a| > 1 {
      ReverseAt(a[1..], if k < |a| - 1 then k else 0);
    }
  }

  lemma {:induction false} ReverseMember(a: seq<Level>, l: Level)
    ensures l in Reverse(a) <==> l in a
  {
    if a != [] {
      ReverseMember(a[1..], l);
      assert a == [a[0]] + a[1..];
    }
  }

  lemma {:induction false} PruneReverse(a: seq<Level>, gone: set<u32>)
    ensures Prune(Reverse(a), gone) == Reverse(Prune(a, gone))
  {
    if a != [] {
      PruneReverse(a[1..], gone);
      PruneConcat(Reverse(a[1..]), [a[0]], gone);
      assert Prune([a[0]], gone) == PruneLevel(a[0], gone) + [];
      ReverseConcat(PruneLevel(a[0], gone), Prune(a[1..], gone));
      assert Reverse(PruneLevel(a[0], gone)) == PruneLevel(a[0], gone);
    }
  }

  // ---------- Pulling ----------

  lemma {:induction false} OccursMember(orders: seq<Entry>, id: u32)
    ensures Occurs(orders, id) > 0 <==> exists e :: e in orders && e.id == id
  {
    if orders != [] {
      OccursMember(orders[1..], id);
      assert orders == [orders[0]] + orders[1..];
    }
  }

  lemma {:induction false} OccursConcat(a: seq<Entry>, b: seq<Entry>, id: u32)
    ensures Occurs(a + b, id) == Occurs(a, id) + Occurs(b, id)
  {
    if a == [] {
      assert a + b == b;
    } else {
      assert (a + b)[1..] == a[1..] + b;
      OccursConcat(a[1..], b, id);
    }
  }

  lemma {:induction false} CountConcat(a: seq<Level>, b: seq<Level>, id: u32)
    ensures Count(a + b, id) == Count(a, id) + Count(b, id)
  {
    if a == [] {
      assert a + b == b;
    } else {
      assert (a + b)[1..] == a[1..] + b;
      CountConcat(a[1..], b, id);
    }
  }

  lemma {:induction false} CountAt(levels: seq<Level>, i: nat, id: u32)
    requires i < |levels|
    ensures Occurs(levels[i].orders, id) <= Count(levels, id)
  {
    if i > 0 {
      CountAt(levels[1..], i - 1, id);
    }
  }

  /** Two levels that both hold an id make it rest twice. */
  lemma CountTwo(levels: seq<Level>, i: nat, j: nat, id: u32)
    requires i < j < |levels|
    ensures Occurs(levels[i].orders, id) + Occurs(levels[j].orders, id) <= Count(levels, id)
  {
    assert levels == levels[..j] + levels[j..];
    CountConcat(levels[..j], levels[j..], id);
    CountAt(levels[..j], i, id);
    CountAt(levels[j..], 0, id);
  }

  lemma {:induction false} KeepNone(orders: seq<Entry>, gone: set<u32>)
    requires forall e | e in orders :: e.id !in gone
    ensures Keep(orders, gone) == orders
  {
    if orders != [] {
      KeepNone(orders[1..], gone);
    }
  }

  lemma {:induction false} KeepMember(orders: seq<Entry>, gone: set<u32>, e: Entry)
    ensures e in Keep(orders, gone) <==> e in orders && e.id !in gone
  {
    if orders != [] {
      KeepMember(orders[1..], gone, e);
      assert orders == [orders[0]] + orders[1..];
    }
  }

  lemma {:induction false} KeepShrinks(orders: seq<Entry>, gone: set<u32>)
    ensures |Keep(orders, gone)| <= |orders|
    ensures Total(Keep(orders, gone)) <= Total(orders)
  {
    if orders != [] {
      KeepShrinks(orders[1..], gone);
      TotalConcat([orders[0]], Keep(orders[1..], gone));
    }
  }

  lemma {:induction false} OccursKeep(orders: seq<Entry>, gone: set<u32>, id: u32)
    ensures Occurs(Keep(orders, gone), id) == if id in gone then 0 else Occurs(orders, id)
  {
    if orders != [] {
      OccursKeep(orders[1..], gone, id);
      OccursConcat([orders[0]], Keep(orders[1..], gone), id);
    }
  }

  lemma {:induction false} CountPrune(levels: seq<Level>, gone: set<u32>, id: u32)
    ensures Count(Prune(levels, gone), id) == if id in gone then 0 else Count(levels, id)
  {
    if levels != [] {
      CountPrune(levels[1..], gone, id);
      OccursKeep(levels[0].orders, gone, id);
      CountConcat(PruneLevel(levels[0], gone), Prune(levels[1..], gone), id);
    }
  }

  /** Pulling one resting id takes exactly its quantity off the level. */
  lemma {:induction false} KeepOne(orders: seq<Entry>, e: Entry)
    requires e in orders
    requires Occurs(orders, e.id) <= 1
    ensures Total(Keep(orders, {e.id})) == Total(orders) - e.qty
    ensures |Keep(orders, {e.id})| == |orders| - 1
  {
    if orders[0].id == e.id {
      OccursMember(orders[1..], e.id);
      KeepNone(orders[1..], {e.id});
      assert orders == [orders[0]] + orders[1..];
    } else {
      KeepOne(orders[1..], e);
      TotalConcat([orders[0]], Keep(orders[1..], {e.id}));
    }
  }

  lemma {:induction false} KeepUnion(orders: seq<Entry>, a: set<u32>, b: set<u32>)
    ensures Keep(Keep(orders, a), b) == Keep(orders, a + b)
  {
    if orders != [] {
      KeepUnion(orders[1..], a, b);
    }
  }

  lemma {:induction false} PruneNone(levels: seq<Level>, gone: set<u32>)
    requires LevelsOk(levels)
    requires forall l, e | l in levels && e in l.orders :: e.id !in gone
    ensures Prune(levels, gone) == levels
  {
    if levels != [] {
      KeepNone(levels[0].orders, gone);
      PruneNone(levels[1..], gone);
    }
  }

  /** A pruned level has the price and a part of the orders of one of the levels. */
  lemma {:induction false} PruneMember(levels: seq<Level>, gone: set<u32>, l: Level)
    requires l in Prune(levels, gone)
    ensures exists m :: m in levels && m.price == l.price && l == At(m.price, Keep(m.orders, gone)) && l.orders != []
  {
    if l in PruneLevel(levels[0], gone) {
      assert levels[0] in levels;
    } else {
      PruneMember(levels[1..], gone, l);
    }
  }

  lemma PrunePrices(levels: seq<Level>, gone: set<u32>)
    ensures forall l | l in Prune(levels, gone) :: exists m :: m in levels && m.price == l.price
  {
    forall l | l in Prune(levels, gone)
      ensures exists m :: m in levels && m.price == l.price
    {
      PruneMember(levels, gone, l);
    }
  }

  lemma PruneSides(levels: seq<Level>, gone: set<u32>, price: int, t: Order)
    ensures Below(levels, price) ==> Below(Prune(levels, gone), price)
    ensures Above(levels, price) ==> Above(Prune(levels, gone), price)
    ensures NoneCross(levels, t) ==> NoneCross(Prune(levels, gone), t)
  {
    PrunePrices(levels, gone);
  }

  lemma PruneLevelsOk(levels: seq<Level>, gone: set<u32>)
    requires LevelsOk(levels)
    ensures LevelsOk(Prune(levels, gone))
  {
    forall l | l in Prune(levels, gone)
      ensures LevelOk(l)
    {
      PruneMember(levels, gone, l);
      var m :| m in levels && m.price == l.price && l == At(m.price, Keep(m.orders, gone)) && l.orders != [];
      KeepShrinks(m.orders, gone);
      forall e | e in l.orders
        ensures EntryOk(e)
      {
        KeepMember(m.orders, gone, e);
      }
    }
  }

  lemma {:induction false} PruneAscending(levels: seq<Level>, gone: set<u32>)
    requires Ascending(levels)
    ensures Ascending(Prune(levels, gone))
  {
    if levels != [] {
      PruneAscending(levels[1..], gone);
      assert Above(levels[1..], levels[0].price);
      PrunePrices(levels[1..], gone);
      AscendingConcat(PruneLevel(levels[0], gone), Prune(levels[1..], gone), levels[0].price + 1);
    }
  }

  lemma AscendingConcat(a: seq<Level>, b: seq<Level>, price: int)
    requires Ascending(a) && Ascending(b)
    requires Below(a, price) && Above(b, price - 1)
    ensures Ascending(a + b)
  {
    forall i, j | 0 <= i < j < |a + b|
      ensures (a + b)[i].price < (a + b)[j].price
    {
      if i < |a| <= j {
        assert a[i] in a && b[j - |a|] in b;
      }
    }
  }

  // ---------- Eating and sweeping ----------

  /** Every order of a level filled whole. */
  function Whole(orders: seq<Entry>): seq<Fill> {
    if orders == [] then [] else [Fill(orders[0].id, orders[0].qty, false)] + Whole(orders[1..])
  }

  lemma {:induction false} EatAll(orders: seq<Entry>, q: nat)
    requires forall e | e in orders :: e.qty > 0
    requires Total(orders) <= q
    ensures Eat(orders, q) == Eaten([], Whole(orders), q - Total(orders))
  {
    if orders != [] {
      assert orders[0] in orders;
      EatAll(orders[1..], q - orders[0].qty);
    }
  }

  /** A level bigger than the taker survives and spends it. */
  lemma {:induction false} EatSome(orders: seq<Entry>, q: nat)
    requires q < Total(orders)
    ensures Eat(orders, q).rest != []
    ensures Eat(orders, q).left == 0
    ensures Total(Eat(orders, q).rest) == Total(orders) - q
  {
    if q > 0 {
      if orders[0].qty > q {
        var cut := orders[0].(qty := orders[0].qty - q);
        TotalConcat([cut], orders[1..]);
      } else {
        EatSome(orders[1..], q - orders[0].qty);
      }
    }
  }

  lemma SweepNothing(levels: seq<Level>, t: Order, q: nat)
    requires NoneCross(levels, t) || q == 0
    ensures Sweep(levels, t, q) == Swept(levels, [], q)
  {
    if levels != [] {
      assert levels[0] in levels;
    }
  }

  /** Levels that are swept away entirely hand the rest of the taker on. */
  lemma {:induction false} SweepThrough(a: seq<Level>, b: seq<Level>, t: Order, q: nat)
    requires Sweep(a, t, q).levels == []
    ensures var s, r := Sweep(a, t, q), Sweep(b, t, Sweep(a, t, q).left);
            Sweep(a + b, t, q) == Swept(r.levels, s.fills + r.fills, r.left)
  {
    if a == [] {
      assert a + b == b;
      assert Sweep(a, t, q).fills + Sweep(b, t, q).fills == Sweep(b, t, q).fills;
    } else {
      assert (a + b)[1..] == a[1..] + b && (a + b)[0] == a[0];
      var e := Eat(a[0].orders, q);
      SweepThrough(a[1..], b, t, e.left);
      var s, r := Sweep(a[1..], t, e.left), Sweep(b, t, Sweep(a, t, q).left);
      assert e.fills + (s.fills + r.fills) == (e.fills + s.fills) + r.fills;
    }
  }

  /** A taller sweep stops in the same place: what it did not reach is carried along. */
  lemma {:induction false} SweepStops(a: seq<Level>, b: seq<Level>, t: Order, q: nat)
    requires Sweep(a, t, q).left == 0 || NoneCross(b, t)
    ensures var s := Sweep(a, t, q);
            Sweep(a + b, t, q) == Swept(s.levels + b, s.fills, s.left)
  {
    if a == [] {
      assert a + b == b;
      SweepNothing(b, t, q);
      assert a + b == Sweep(a, t, q).levels + b;
    } else if q == 0 || !Crosses(t, a[0].price) {
      assert (a + b)[0] == a[0];
    } else {
      assert (a + b)[1..] == a[1..] + b && (a + b)[0] == a[0];
      var e := Eat(a[0].orders, q);
      if e.rest == [] {
        SweepStops(a[1..], b, t, e.left);
      } else {
        assert [At(a[0].price, e.rest)] + (a[1..] + b) == ([At(a[0].price, e.rest)] + a[1..]) + b;
      }
    }
  }

  // ---------- Resting ----------

  /** Resting changes only the slot where the price belongs. */
  lemma {:induction false} RestLocal(below: seq<Level>, slot: seq<Level>, above: seq<Level>, price: u16, e: Entry)
    requires Below(below, price) && Above(above, price)
    requires |slot| <= 1 && forall l | l in slot :: l.price == price
    ensures Rest(below + slot + above, price, e) == below + Rest(slot, price, e) + above
  {
    var all := below + slot + above;
    if below == [] {
      assert all == slot + above;
      if slot != [] {
        assert slot == [slot[0]] && slot[0] in slot;
      }
      if above != [] {
        assert above[0] in above;
      }
    } else {
      assert below[0] in below;
      assert all[0] == below[0] && all[1..] == below[1..] + slot + above;
      RestLocal(below[1..], slot, above, price, e);
      assert [below[0]] + (below[1..] + Rest(slot, price, e) + above) == below + Rest(slot, price, e) + above;
    }
  }

  lemma {:induction false} CountRest(levels: seq<Level>, price: u16, e: Entry, id: u32)
    ensures Count(Rest(levels, price, e), id) == Count(levels, id) + if e.id == id then 1 else 0
  {
    if levels == [] || price < levels[0].price {
      CountConcat([At(price, [e])], levels, id);
      assert Count([At(price, [e])], id) == Occurs([e], id) && Occurs([e], id) == Occurs([e][1..], id) + if e.id == id then 1 else 0;
    } else if price == levels[0].price {
      OccursConcat(levels[0].orders, [e], id);
    } else {
      CountRest(levels[1..], price, e, id);
    }
  }

  // ---------- Pulling one order from a well-formed book ----------

  /** A resting order is nowhere but on the level that has its price. */
  lemma OnlyThere(levels: seq<Level>, i: nat, id: u32, qty: u32, j: nat)
    requires Distinct(levels) && RestsAt(levels, i, id, qty) && j < |levels|
    ensures Occurs(levels[i].orders, id) == 1
    ensures j != i ==> Occurs(levels[j].orders, id) == 0
  {
    OccursMember(levels[i].orders, id);
    CountAt(levels, i, id);
    assert Count(levels, id) <= 1;
    if j < i {
      CountTwo(levels, j, i, id);
    } else if i < j {
      CountTwo(levels, i, j, id);
    }
  }

  lemma KeepAbsent(orders: seq<Entry>, id: u32)
    requires Occurs(orders, id) == 0
    ensures Keep(orders, {id}) == orders
  {
    OccursMember(orders, id);
    KeepNone(orders, {id});
  }

  /** Nobody rests under the sentinel id. */
  lemma NoSentinel(orders: seq<Entry>)
    requires forall e | e in orders :: EntryOk(e)
    ensures Occurs(orders, MAX_U32) == 0
  {
    OccursMember(orders, MAX_U32);
  }

  lemma LevelCounts(levels: seq<Level>, l: Level, e: Entry)
    requires l in levels && e in l.orders
    ensures Count(levels, e.id) > 0
  {
    var i :| 0 <= i < |levels| && levels[i] == l;
    CountAt(levels, i, e.id);
    OccursMember(l.orders, e.id);
  }
}
