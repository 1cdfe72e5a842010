/** Stop orders (check_stops, stop_fire and stop_batch_insert of src/server.c): after a print every
live triggered stop is converted and queued exactly once, price group by price group and by arrival
within a group, however many stale or duplicate entries the trigger heaps hold. */
module Stops {
  import opened Machine
  import Pq
  import MaxHeap

  /** What firing reads and writes of an Order; live is a quantity left and no reject bit. */
  datatype Stop = Stop(price: u16, buy: bool, ns: u64, live: bool, armed: bool, limit: bool, market: bool, ioc: bool, fok: bool)

  type Stops = map<u32, Stop>

  /** A print at last sets it off: a live armed buy at or below the print, or a sell at or above it. */
  predicate Triggered(o: Stop, last: u16) {
    o.live && o.armed && if o.buy then o.price <= last else o.price >= last
  }

  /** A stop limit becomes a plain limit, a plain stop a market order with IOC unless it is FOK. */
  function Converted(o: Stop): Stop {
    if o.limit then o.(armed := false, limit := false)
    else o.(armed := false, market := true, ioc := o.ioc || !o.fok)
  }

  function Entry(price: u16, id: u32): u64 {
    price * 0x1_0000_0000 + id
  }

  function PriceOf(e: u64): u16 {
    U16(e / 0x1_0000_0000)
  }

  function IdOf(e: u64): u32 {
    e % 0x1_0000_0000
  }

  lemma EntryUnpacks(price: u16, id: u32)
    ensures PriceOf(Entry(price, id)) == price && IdOf(Entry(price, id)) == id
  {
  }

  // ---------- The order of firing ----------

  /** Buys before sells; buys rising, sells falling; by arrival at one price. */
  predicate Precedes(a: Stop, b: Stop) {
    if a.buy != b.buy then a.buy
    else if a.price == b.price then a.ns <= b.ns
    else if a.buy then a.price < b.price
    else a.price > b.price
  }

  /** Belongs to an earlier group than this price and side. */
  predicate GroupBefore(a: Stop, price: u16, buy: bool) {
    if a.buy != buy then a.buy else if buy then a.price < price else a.price > price
  }

  ghost predicate Known(stops: Stops, s: seq<u32>) {
    forall x | x in s :: x in stops
  }

  ghost predicate InOrder(stops: Stops, fired: seq<u32>)
    requires Known(stops, fired)
  {
    forall i, j | 0 <= i < j < |fired| :: Precedes(stops[fired[i]], stops[fired[j]])
  }

  ghost predicate ByArrival(stops: Stops, batch: seq<u32>)
    requires Known(stops, batch)
  {
    forall i, j | 0 <= i < j < |batch| :: stops[batch[i]].ns <= stops[batch[j]].ns
  }

  ghost predicate NoTwins(s: seq<u32>) {
    forall i, j | 0 <= i < j < |s| :: s[i] != s[j]
  }

  /** The fired stops, and only they, are converted. */
  ghost predicate Fired(was: Stops, now: Stops, fired: seq<u32>, last: u16) {
    && now.Keys == was.Keys && NoTwins(fired)
    && (forall x | x in fired :: x in was && Triggered(was[x], last))
    && forall x | x in was :: now[x] == if x in fired then Converted(was[x]) else was[x]
  }

  /** The groups that are complete, and the one that is growing. */
  ghost predicate Grouped(was: Stops, groups: seq<u32>, batch: seq<u32>, price: u16, buy: bool) {
    && Known(was, groups) && Known(was, batch) && InOrder(was, groups) && ByArrival(was, batch)
    && (forall x | x in groups :: GroupBefore(was[x], price, buy))
    && (forall x | x in batch :: was[x].price == price && was[x].buy == buy)
  }

  lemma GroupedInOrder(was: Stops, groups: seq<u32>, batch: seq<u32>, price: u16, buy: bool)
    requires Grouped(was, groups, batch, price, buy)
    ensures Known(was, groups + batch) && InOrder(was, groups + batch)
  {
    var all := groups + batch;
    forall i, j | 0 <= i < j < |all|
      ensures Precedes(was[all[i]], was[all[j]])
    {
      if j < |groups| {
        assert all[i] == groups[i] && all[j] == groups[j];
      } else if i < |groups| {
        assert all[i] in groups && all[j] in batch;
      } else {
        assert all[i] == batch[i - |groups|] && all[j] == batch[j - |groups|];
        assert all[i] in batch && all[j] in batch;
      }
    }
  }

  /** What a stop that went off has become: a stop limit works at its price as it stood, a plain stop is
  a market order that is never left resting. */
  predicate WentOff(was: Stop, now: Stop) {
    && !now.armed && !now.limit
    && now.price == was.price && now.buy == was.buy && now.ns == was.ns && now.live == was.live
    && if was.limit then now.market == was.market && now.ioc == was.ioc && now.fok == was.fok
       else now.market && (if was.fok then now.fok && now.ioc == was.ioc else now.ioc && !now.fok)
  }

  lemma FiredWentOff(was: Stops, now: Stops, fired: seq<u32>, last: u16)
    requires Fired(was, now, fired, last)
    ensures forall x | x in was :: x in now && if x in fired then WentOff(was[x], now[x]) else now[x] == was[x]
  {
  }

  // ---------- The heaps ----------

  /** Every live armed stop has its entry in its side's heap. */
  ghost predicate Listed(stops: Stops, buys: multiset<u64>, sells: multiset<u64>) {
    forall x | x in stops && stops[x].live && stops[x].armed :: Entry(stops[x].price, x) in if stops[x].buy then buys else sells
  }

  /** Every entry is a 16-bit price over the id of a slot. */
  ghost predicate Slots(stops: Stops, heap: multiset<u64>) {
    forall e | e in heap :: IdOf(e) in stops && e < 0x1_0000_0000_0000
  }

  lemma PricesClimb(d: u64, e: u64)
    requires d <= e < 0x1_0000_0000_0000
    ensures PriceOf(d) <= PriceOf(e)
  {
  }

  /** Everything fired so far belongs to groups before whatever the heap still holds. */
  ghost predicate AllBefore(was: Stops, fired: seq<u32>, heap: multiset<u64>, buy: bool) {
    Known(was, fired) && InOrder(was, fired) && (buy ==> forall x | x in fired :: was[x].buy)
    && forall x, e | x in fired && e in heap :: GroupBefore(was[x], PriceOf(e), buy)
  }

  lemma NewGroup(was: Stops, fired: seq<u32>, heap: multiset<u64>, top: u64, buy: bool)
    requires AllBefore(was, fired, heap, buy) && top in heap
    ensures Grouped(was, fired, [], PriceOf(top), buy)
  {
  }

  /** No entry of the group's price is left: the group is complete. */
  lemma GroupDone(was: Stops, groups: seq<u32>, batch: seq<u32>, price: u16, buy: bool, heap: multiset<u64>)
    requires Grouped(was, groups, batch, price, buy)
    requires forall e | e in heap :: if buy then PriceOf(e) > price else PriceOf(e) < price
    ensures AllBefore(was, groups + batch, heap, buy)
  {
    GroupedInOrder(was, groups, batch, price, buy);
    forall x | x in groups + batch
      ensures x in groups || x in batch
    {
    }
    forall x, e | x in groups + batch && e in heap
      ensures GroupBefore(was[x], PriceOf(e), buy)
    {
      assert x in groups || x in batch;
    }
  }

  /** No triggered stop is left armed once both heaps are past the print. */
  lemma NoneLeft(stops: Stops, buys: multiset<u64>, sells: multiset<u64>, last: u16)
    requires Listed(stops, buys, sells)
    requires (forall e | e in buys :: PriceOf(e) > last) && (forall e | e in sells :: PriceOf(e) < last)
    ensures forall x | x in stops :: !Triggered(stops[x], last)
  {
    forall x | x in stops
      ensures !Triggered(stops[x], last)
    {
      EntryUnpacks(stops[x].price, x);
    }
  }

  lemma BuysFirst(was: Stops, fired: seq<u32>, buys: multiset<u64>, sells: multiset<u64>)
    requires AllBefore(was, fired, buys, true)
    ensures AllBefore(was, fired, sells, false)
  {
  }

  lemma FiredExactly(was: Stops, now: Stops, fired: seq<u32>, last: u16)
    requires Fired(was, now, fired, last) && forall x | x in now :: !Triggered(now[x], last)
    ensures forall x | x in was :: x in fired <==> Triggered(was[x], last)
  {
  }

  /** The guards of stop_fire. */
  predicate Fires(stops: Stops, e: u64, isBuy: bool)
    requires IdOf(e) in stops
  {
    var o := stops[IdOf(e)];
    o.live && o.armed && o.price == PriceOf(e) && o.buy == isBuy
  }

  function AfterFire(stops: Stops, e: u64, isBuy: bool): Stops
    requires IdOf(e) in stops
  {
    if Fires(stops, e, isBuy) then stops[IdOf(e) := Converted(stops[IdOf(e)])] else stops
  }

  lemma PlacedListed(stops: Stops, buys: multiset<u64>, sells: multiset<u64>, id: u32, o: Stop)
    requires Listed(stops, buys, sells) && Slots(stops, buys) && Slots(stops, sells)
    ensures var now, e := stops[id := o], multiset{Entry(o.price, id)};
            && (!o.armed ==> Listed(now, buys, sells))
            && (o.buy ==> Listed(now, buys + e, sells)) && (!o.buy ==> Listed(now, buys, sells + e))
            && Slots(now, buys) && Slots(now, sells) && Slots(now, buys + e) && Slots(now, sells + e)
  {
    EntryUnpacks(o.price, id);
  }

  /** An entry that is popped and handled is no longer needed: stale ones were not, and the stop
  that fires is not armed any more. */
  lemma FireKeepsListed(stops: Stops, e: u64, isBuy: bool, buys: multiset<u64>, sells: multiset<u64>)
    requires Listed(stops, buys, sells) && IdOf(e) in stops
    ensures isBuy ==> Listed(AfterFire(stops, e, isBuy), buys - multiset{e}, sells)
    ensures !isBuy ==> Listed(AfterFire(stops, e, isBuy), buys, sells - multiset{e})
  {
    var now := AfterFire(stops, e, isBuy);
    forall x | x in now && now[x].live && now[x].armed
      ensures x in stops && now[x] == stops[x] && Entry(now[x].price, x) in (if now[x].buy then buys else sells)
      ensures now[x].buy == isBuy ==> Entry(now[x].price, x) != e
    {
      EntryUnpacks(now[x].price, x);
    }
  }

  /** The next stop of a group is new, triggered, and leaves everything else alone. */
  lemma FireOne(was: Stops, now: Stops, fired: seq<u32>, more: seq<u32>, last: u16, e: u64, isBuy: bool)
    requires Fired(was, now, fired, last) && IdOf(e) in now && Fires(now, e, isBuy)
    requires if isBuy then PriceOf(e) <= last else PriceOf(e) >= last
    requires multiset(more) == multiset(fired) + multiset{IdOf(e)}
    ensures Fired(was, AfterFire(now, e, isBuy), more, last)
  {
    var x := IdOf(e);
    assert x !in fired;
    SameMembers(fired, x, more);
  }

  lemma SameMembers(s: seq<u32>, x: u32, t: seq<u32>)
    requires NoTwins(s) && x !in s && multiset(t) == multiset(s) + multiset{x}
    ensures NoTwins(t) && forall y :: y in t <==> y in s || y == x
  {
    forall y: u32
      ensures y in t <==> y in s || y == x
    {
      assert y in t <==> y in multiset(t);
      assert y in s <==> y in multiset(s);
    }
    if i, j :| 0 <= i < j < |t| && t[i] == t[j] {
      Twice(t, i, j);
      Once(s, t[i]);
      assert false;
    }
  }

  lemma Twice(t: seq<u32>, i: nat, j: nat)
    requires i < j < |t| && t[i] == t[j]
    ensures multiset(t)[t[i]] >= 2
  {
    assert t == t[..j] + [t[j]] + t[j + 1..];
    assert t[..j][i] == t[i];
    assert t[i] in t[..j];
  }

  lemma {:induction false} Once(s: seq<u32>, x: u32)
    requires NoTwins(s)
    ensures multiset(s)[x] <= 1
  {
    if s != [] {
      var t, y := s[..|s| - 1], s[|s| - 1];
      assert s == t + [y];
      Once(t, x);
      if y == x {
        assert x !in t;
      }
    }
  }

  /** Firing keeps prices and arrivals, so the batch is as sorted by the new table as by the old. */
  lemma SameArrivals(was: Stops, now: Stops, fired: seq<u32>, last: u16, batch: seq<u32>)
    requires Fired(was, now, fired, last)
    ensures Known(was, batch) <==> Known(now, batch)
    ensures Known(was, batch) ==> (ByArrival(was, batch) <==> ByArrival(now, batch))
  {
  }

  lemma GroupInside(was: Stops, now: Stops, fired: seq<u32>, groups: seq<u32>, batch: seq<u32>, last: u16, price: u16,
                    buy: bool)
    requires Fired(was, now, fired, last) && Grouped(was, groups, batch, price, buy)
    ensures Known(now, batch) && ByArrival(now, batch)
  {
    SameArrivals(was, now, fired, last, batch);
  }

  lemma GroupOutside(was: Stops, now: Stops, fired: seq<u32>, groups: seq<u32>, batch: seq<u32>, more: seq<u32>, last: u16,
                     e: u64, price: u16, buy: bool)
    requires Fired(was, now, fired, last) && Grouped(was, groups, batch, price, buy) && fired == groups + batch
    requires IdOf(e) in now && PriceOf(e) == price && (if buy then price <= last else price >= last)
    requires var after := AfterFire(now, e, buy); Known(after, more) && ByArrival(after, more)
    requires multiset(more) == if Fires(now, e, buy) then multiset(batch) + multiset{IdOf(e)} else multiset(batch)
    requires !Fires(now, e, buy) ==> more == batch
    ensures Fired(was, AfterFire(now, e, buy), groups + more, last) && Grouped(was, groups, more, price, buy)
  {
    hide Fired, ByArrival, InOrder;
    if Fires(now, e, buy) {
      var x := IdOf(e);
      assert multiset(groups + more) == multiset(fired) + multiset{x};
      FireOne(was, now, fired, groups + more, last, e, buy);
      SameArrivals(was, AfterFire(now, e, buy), groups + more, last, more);
      StillTerms(was, now, fired, last, x);
      forall y | y in more
        ensures y in batch || y == x
      {
        assert y in multiset(more);
      }
    }
  }

  lemma StillTerms(was: Stops, now: Stops, fired: seq<u32>, last: u16, x: u32)
    requires Fired(was, now, fired, last) && x in now
    ensures x in was && was[x].price == now[x].price && was[x].buy == now[x].buy
  {
  }

  // ---------- stop_batch_insert ----------

  lemma ArrivalConcat(stops: Stops, a: seq<u32>, b: seq<u32>)
    requires Known(stops, a) && Known(stops, b) && ByArrival(stops, a) && ByArrival(stops, b)
    requires forall x, y | x in a && y in b :: stops[x].ns <= stops[y].ns
    ensures Known(stops, a + b) && ByArrival(stops, a + b)
  {
    forall i, j | 0 <= i < j < |a + b|
      ensures stops[(a + b)[i]].ns <= stops[(a + b)[j]].ns
    {
      if i < |a| <= j {
        assert a[i] in a && b[j - |a|] in b;
      }
    }
  }

  /** The newcomer between those that arrived no later and those that arrived after it. */
  lemma Inserted(stops: Stops, a: seq<u32>, b: seq<u32>, id: u32)
    requires Known(stops, a + b) && ByArrival(stops, a + b) && id in stops
    requires a != [] ==> stops[a[|a| - 1]].ns <= stops[id].ns
    requires forall y | y in b :: stops[y].ns > stops[id].ns
    ensures Known(stops, a + [id] + b) && ByArrival(stops, a + [id] + b)
    ensures multiset(a + [id] + b) == multiset(a + b) + multiset{id}
  {
    Halves(stops, a, b);
    forall x | x in a
      ensures stops[x].ns <= stops[id].ns
    {
      var i :| 0 <= i < |a| && a[i] == x;
      assert a[|a| - 1] in a;
    }
    ArrivalConcat(stops, a, [id]);
    ArrivalConcat(stops, a + [id], b);
  }

  lemma Halves(stops: Stops, a: seq<u32>, b: seq<u32>)
    requires Known(stops, a + b) && ByArrival(stops, a + b)
    ensures Known(stops, a) && Known(stops, b) && ByArrival(stops, a) && ByArrival(stops, b)
  {
    forall i | 0 <= i < |a|
      ensures (a + b)[i] == a[i]
    {
    }
    forall i | 0 <= i < |b|
      ensures (a + b)[|a| + i] == b[i]
    {
    }
    forall i, j | 0 <= i < j < |b|
      ensures stops[b[i]].ns <= stops[b[j]].ns
    {
      assert (a + b)[|a| + i] == b[i] && (a + b)[|a| + j] == b[j];
    }
    assert forall x | x in a :: x in a + b;
    assert forall x | x in b :: x in a + b;
  }

  class StopDesk {
    var orders: Stops
    var holder: seq<u32>          // convert_holder
    const buyStops: Pq.Queue
    const sellStops: MaxHeap.Heap

    constructor (orders: Stops)
      requires forall x | x in orders :: !orders[x].armed
      ensures Valid() && this.orders == orders && holder == []
      ensures fresh(buyStops) && fresh(buyStops.heap) && fresh(sellStops) && fresh(sellStops.heap)
    {
      this.orders, holder := orders, [];
      var buys := new Pq.Queue();
      var sells := new MaxHeap.Heap();
      buys.NotEmpty();
      sells.NotEmpty();
      buyStops, sellStops := buys, sells;
    }

    ghost predicate HeapsOk()
      reads this, buyStops, buyStops.heap, sellStops, sellStops.heap
    {
      && buyStops.heap != sellStops.heap && buyStops.Valid() && sellStops.Valid()
      && buyStops.current < Pq.INDEX_LIMIT && sellStops.current < Pq.INDEX_LIMIT
      && Slots(orders, buyStops.Contents()) && Slots(orders, sellStops.Contents())
    }

    ghost predicate Valid()
      reads this, buyStops, buyStops.heap, sellStops, sellStops.heap
    {
      HeapsOk() && Listed(orders, buyStops.Contents(), sellStops.Contents())
    }

    /** The batch is holder from batchStart on; a start past the end means a fresh batch. */
    method BatchInsert(batchStart: nat, id: u32)
      requires id in orders
      requires batchStart < |holder| ==> Known(orders, holder[batchStart..]) && ByArrival(orders, holder[batchStart..])
      modifies `holder
      ensures var b := if batchStart > old(|holder|) then old(|holder|) else batchStart;
              && |holder| == old(|holder|) + 1 && holder[..b] == old(holder)[..b]
              && Known(orders, holder[b..]) && ByArrival(orders, holder[b..])
              && multiset(holder[b..]) == multiset(old(holder)[b..]) + multiset{id}
    {
      hide ByArrival, Known;
      var n := |holder|;
      NoneKnown(orders);
      assert holder[n..] == [];
      InsertFrom(if batchStart > n then n else batchStart, id);
    }

    method InsertFrom(b: nat, id: u32)
      requires id in orders && b <= |holder| && Known(orders, holder[b..]) && ByArrival(orders, holder[b..])
      modifies `holder
      ensures |holder| == old(|holder|) + 1 && holder[..b] == old(holder)[..b]
      ensures Known(orders, holder[b..]) && ByArrival(orders, holder[b..])
      ensures multiset(holder[b..]) == multiset(old(holder)[b..]) + multiset{id}
    {
      hide ByArrival, Known;
      var ns := orders[id].ns;
      var n := |holder|;
      ghost var was := holder;
      if n > b {
        var last := holder[n - 1];
        KnownAt(orders, was, b, n - 1);
        if orders[last].ns > ns {
          holder := holder + [last];
          var gap := Shift(b, n, ns, was);
          Spliced(was, holder, b, gap, id);
          Inserted(orders, was[b..gap], was[gap..], id);
          holder := holder[gap := id];
          return;
        }
      }
      Behind(was, b, id);
      Inserted(orders, was[b..], [], id);
      holder := holder + [id];
    }

    /** Later arrivals move up one place until the newcomer's is found. */
    method Shift(b: nat, n: nat, ns: u64, ghost was: seq<u32>) returns (gap: nat)
      requires b < n == |was| && holder == was + [was[n - 1]]
      requires Known(orders, was[b..]) && was[n - 1] in orders && orders[was[n - 1]].ns > ns
      modifies `holder
      ensures b <= gap < n && |holder| == n + 1
      ensures holder[..gap] == was[..gap] && holder[gap + 1..] == was[gap..]
      ensures gap > b ==> was[gap - 1] in orders && orders[was[gap - 1]].ns <= ns
      ensures forall y | y in was[gap..] :: y in orders && orders[y].ns > ns
    {
      hide Known;
      gap := n - 1;
      while gap > b
        invariant b <= gap < n && |holder| == n + 1
        invariant holder[..gap] == was[..gap] && holder[gap + 1..] == was[gap..]
        invariant forall y | y in was[gap..] :: y in orders && orders[y].ns > ns
      {
        assert holder[gap - 1] == was[..gap][gap - 1];
        var prev := holder[gap - 1];
        KnownAt(orders, was, b, gap - 1);
        if orders[prev].ns <= ns {
          break;
        }
        assert was[gap - 1..] == [prev] + was[gap..];
        holder := holder[gap := prev];
        gap := gap - 1;
      }
    }

    /** One popped entry. */
    method Fire(e: u64, isBuy: bool, batchStart: nat)
      requires IdOf(e) in orders && batchStart <= |holder|
      requires Known(orders, holder[batchStart..]) && ByArrival(orders, holder[batchStart..])
      modifies `orders, `holder
      ensures orders == AfterFire(old(orders), e, isBuy) && batchStart <= |holder|
      ensures holder[..batchStart] == old(holder)[..batchStart]
      ensures Known(orders, holder[batchStart..]) && ByArrival(orders, holder[batchStart..])
      ensures if Fires(old(orders), e, isBuy) then multiset(holder[batchStart..]) == old(multiset(holder[batchStart..])) + multiset{IdOf(e)}
              else holder == old(holder)
    {
      var id := IdOf(e);
      var o := orders[id];
      if !o.live || !o.armed || o.price != PriceOf(e) || o.buy != isBuy {
        return;
      }
      orders := orders[id := Converted(o)];
      BatchInsert(batchStart, id);
    }

    /** What has happened since check_stops started, with the group of this price growing at batchStart. */
    ghost predicate Under(was: Stops, queued: seq<u32>, last: u16, batchStart: nat, price: u16, buy: bool)
      reads this
    {
      && |queued| <= batchStart <= |holder| && holder[..|queued|] == queued
      && Fired(was, orders, holder[|queued|..], last)
      && Grouped(was, holder[|queued|..batchStart], holder[batchStart..], price, buy)
    }

    /** One popped entry of the group. */
    method FireInGroup(e: u64, isBuy: bool, ghost was: Stops, ghost queued: seq<u32>, last: u16, batchStart: nat, price: u16)
      requires IdOf(e) in orders && PriceOf(e) == price && Under(was, queued, last, batchStart, price, isBuy)
      requires if isBuy then price <= last else price >= last
      modifies `orders, `holder
      ensures orders == AfterFire(old(orders), e, isBuy) && Under(was, queued, last, batchStart, price, isBuy)
    {
      hide Fired, Grouped, AfterFire, Fires;
      ghost var now, fired, batch, groups := orders, holder[|queued|..], holder[batchStart..], holder[|queued|..batchStart];
      assert fired == groups + batch && holder[..batchStart] == queued + groups;
      GroupInside(was, now, fired, groups, batch, last, price, isBuy);
      Fire(e, isBuy, batchStart);
      ghost var more := holder[batchStart..];
      GroupOutside(was, now, fired, groups, batch, more, last, e, price, isBuy);
      assert holder == holder[..batchStart] + more;
      assert holder[|queued|..] == groups + more && holder[|queued|..batchStart] == groups && holder[..|queued|] == queued;
    }

    /** A new order in a slot: an armed one is pushed to its side's heap. Entries of whoever had the
    slot before stay where they are. */
    method Place(id: u32, o: Stop)
      requires Valid() && buyStops.current + 1 < Pq.INDEX_LIMIT && sellStops.current + 1 < Pq.INDEX_LIMIT
      modifies `orders, buyStops, buyStops.heap, sellStops, sellStops.heap
      ensures Valid() && orders == old(orders)[id := o]
      ensures buyStops.heap == old(buyStops.heap) || fresh(buyStops.heap)
      ensures sellStops.heap == old(sellStops.heap) || fresh(sellStops.heap)
    {
      hide Pq.Queue.Valid, Pq.Queue.Contents, MaxHeap.Heap.Valid, MaxHeap.Heap.Contents, Listed, Slots;
      PlacedListed(orders, buyStops.Contents(), sellStops.Contents(), id, o);
      orders := orders[id := o];
      if o.armed {
        if o.buy {
          buyStops.Push(Entry(o.price, id));
        } else {
          sellStops.Push(Entry(o.price, id));
        }
      }
    }

    /** A cancel, or a replacement, of an armed stop takes its shares away. Its entry stays in the heap,
    where neither it nor any other entry of the slot fires for any print until a new order is placed. */
    method Cancel(id: u32)
      requires Valid() && id in orders && orders[id].armed
      modifies `orders
      ensures Valid() && orders == old(orders)[id := old(orders)[id].(live := false)]
      ensures forall e: u64, isBuy | IdOf(e) == id :: !Fires(orders, e, isBuy) && AfterFire(orders, e, isBuy) == orders
      ensures forall last :: !Triggered(orders[id], last)
    {
      hide Pq.Queue.Valid, Pq.Queue.Contents, MaxHeap.Heap.Valid, MaxHeap.Heap.Contents, IdOf, PriceOf;
      orders := orders[id := orders[id].(live := false)];
    }

    /** The buy on top of its heap, which belongs to the group. */
    method FireTopBuy(ghost was: Stops, ghost queued: seq<u32>, last: u16, batchStart: nat, price: u16)
      requires Valid() && price <= last && !buyStops.IsEmpty() && PriceOf(buyStops.Peek()) == price
      requires Under(was, queued, last, batchStart, price, true)
      modifies `orders, `holder, buyStops, buyStops.heap
      ensures Valid() && buyStops.heap == old(buyStops.heap)
      ensures buyStops.Contents() == old(buyStops.Contents()) - multiset{old(buyStops.Peek())}
      ensures old(buyStops.Peek()) in old(buyStops.Contents()) && Under(was, queued, last, batchStart, price, true)
    {
      hide Slots, Pq.Queue.Valid, Pq.Queue.Contents, MaxHeap.Heap.Valid, MaxHeap.Heap.Contents, Under, Listed,
           AfterFire, PriceOf, IdOf;
      ghost var had, top := buyStops.Contents(), buyStops.Peek();
      SlotsLeft(orders, had, sellStops.Contents(), top, true);
      var e := buyStops.Pop();
      assert e == top;
      FireKeepsListed(orders, e, true, had, sellStops.Contents());
      FireInGroup(e, true, was, queued, last, batchStart, price);
    }

    /** The inner loop for buys: everything at this price. */
    method FireBuyGroup(ghost was: Stops, ghost queued: seq<u32>, last: u16, price: u16)
      requires Valid() && price <= last && Under(was, queued, last, |holder|, price, true)
      requires forall e | e in buyStops.Contents() :: PriceOf(e) >= price
      modifies `orders, `holder, buyStops, buyStops.heap
      ensures Valid() && buyStops.heap == old(buyStops.heap) && buyStops.Contents() <= old(buyStops.Contents())
      ensures Under(was, queued, last, old(|holder|), price, true)
      ensures forall e | e in buyStops.Contents() :: PriceOf(e) > price
    {
      hide Slots, Pq.Queue.Valid, Pq.Queue.Contents, MaxHeap.Heap.Valid, MaxHeap.Heap.Contents, Under, Listed,
           AfterFire, PriceOf, IdOf;
      var batchStart := |holder|;
      while !buyStops.IsEmpty()
        invariant Valid() && buyStops.heap == old(buyStops.heap) && buyStops.Contents() <= old(buyStops.Contents())
        invariant Under(was, queued, last, batchStart, price, true)
        invariant forall e | e in buyStops.Contents() :: PriceOf(e) >= price
        decreases |buyStops.Contents()|
      {
        var top := buyStops.Peek();
        if PriceOf(top) != price {
          AllAbove(orders, buyStops.Contents(), top, price);
          return;
        }
        FireTopBuy(was, queued, last, batchStart, price);
      }
    }

    /** The sell on top of its heap. */
    method FireTopSell(ghost was: Stops, ghost queued: seq<u32>, last: u16, batchStart: nat, price: u16)
      requires Valid() && price >= last && !sellStops.IsEmpty() && PriceOf(sellStops.Peek()) == price
      requires Under(was, queued, last, batchStart, price, false)
      modifies `orders, `holder, sellStops, sellStops.heap
      ensures Valid() && sellStops.heap == old(sellStops.heap)
      ensures sellStops.Contents() == old(sellStops.Contents()) - multiset{old(sellStops.Peek())}
      ensures old(sellStops.Peek()) in old(sellStops.Contents()) && Under(was, queued, last, batchStart, price, false)
    {
      hide Slots, Pq.Queue.Valid, Pq.Queue.Contents, MaxHeap.Heap.Valid, MaxHeap.Heap.Contents, Under, Listed,
           AfterFire, PriceOf, IdOf;
      ghost var had, top := sellStops.Contents(), sellStops.Peek();
      SlotsLeft(orders, had, buyStops.Contents(), top, false);
      var e := sellStops.Pop();
      assert e == top;
      FireKeepsListed(orders, e, false, buyStops.Contents(), had);
      FireInGroup(e, false, was, queued, last, batchStart, price);
    }

    /** The inner loop for sells. */
    method FireSellGroup(ghost was: Stops, ghost queued: seq<u32>, last: u16, price: u16)
      requires Valid() && price >= last && Under(was, queued, last, |holder|, price, false)
      requires forall e | e in sellStops.Contents() :: PriceOf(e) <= price
      modifies `orders, `holder, sellStops, sellStops.heap
      ensures Valid() && sellStops.heap == old(sellStops.heap) && sellStops.Contents() <= old(sellStops.Contents())
      ensures Under(was, queued, last, old(|holder|), price, false)
      ensures forall e | e in sellStops.Contents() :: PriceOf(e) < price
    {
      hide Slots, Pq.Queue.Valid, Pq.Queue.Contents, MaxHeap.Heap.Valid, MaxHeap.Heap.Contents, Under, Listed,
           AfterFire, PriceOf, IdOf;
      var batchStart := |holder|;
      while !sellStops.IsEmpty()
        invariant Valid() && sellStops.heap == old(sellStops.heap) && sellStops.Contents() <= old(sellStops.Contents())
        invariant Under(was, queued, last, batchStart, price, false)
        invariant forall e | e in sellStops.Contents() :: PriceOf(e) <= price
        decreases |sellStops.Contents()|
      {
        var top := sellStops.Peek();
        if PriceOf(top) != price {
          AllBelow(orders, sellStops.Contents(), top, price);
          return;
        }
        FireTopSell(was, queued, last, batchStart, price);
      }
    }

    /** What check_stops has appended so far, all of it before whatever this heap still holds. */
    ghost predicate Done(was: Stops, queued: seq<u32>, last: u16, heap: multiset<u64>, buy: bool)
      reads this
    {
      && |queued| <= |holder| && holder[..|queued|] == queued
      && Fired(was, orders, holder[|queued|..], last) && AllBefore(was, holder[|queued|..], heap, buy)
    }

    lemma OpenGroup(was: Stops, queued: seq<u32>, last: u16, heap: multiset<u64>, top: u64, buy: bool)
      requires Done(was, queued, last, heap, buy) && top in heap
      ensures Under(was, queued, last, |holder|, PriceOf(top), buy)
    {
      NewGroup(was, holder[|queued|..], heap, top, buy);
      assert holder[|holder|..] == [];
    }

    lemma CloseGroup(was: Stops, queued: seq<u32>, last: u16, batchStart: nat, heap: multiset<u64>, price: u16, buy: bool)
      requires Under(was, queued, last, batchStart, price, buy)
      requires forall e | e in heap :: if buy then PriceOf(e) > price else PriceOf(e) < price
      ensures Done(was, queued, last, heap, buy)
    {
      GroupDone(was, holder[|queued|..batchStart], holder[batchStart..], price, buy, heap);
      assert holder[|queued|..] == holder[|queued|..batchStart] + holder[batchStart..];
    }

    method FireBuys(ghost was: Stops, ghost queued: seq<u32>, last: u16)
      requires Valid() && Done(was, queued, last, buyStops.Contents(), true)
      modifies `orders, `holder, buyStops, buyStops.heap
      ensures Valid() && buyStops.heap == old(buyStops.heap) && Done(was, queued, last, buyStops.Contents(), true)
      ensures forall e | e in buyStops.Contents() :: PriceOf(e) > last
    {
      hide Pq.Queue.Valid, Pq.Queue.Contents, MaxHeap.Heap.Valid, MaxHeap.Heap.Contents, Under, Done, Listed, PriceOf, IdOf;
      while !buyStops.IsEmpty()
        invariant Valid() && buyStops.heap == old(buyStops.heap) && Done(was, queued, last, buyStops.Contents(), true)
        decreases |buyStops.Contents()|
      {
        var top := buyStops.Peek();
        var price := PriceOf(top);
        if price > last {
          AllAbove(orders, buyStops.Contents(), top, last);
          return;
        }
        Least(orders, buyStops.Contents(), top);
        OpenGroup(was, queued, last, buyStops.Contents(), top, true);
        ghost var batchStart, had := |holder|, buyStops.Contents();
        FireBuyGroup(was, queued, last, price);
        Fewer(had, buyStops.Contents(), top);
        CloseGroup(was, queued, last, batchStart, buyStops.Contents(), price, true);
      }
    }

    method FireSells(ghost was: Stops, ghost queued: seq<u32>, last: u16)
      requires Valid() && Done(was, queued, last, sellStops.Contents(), false)
      modifies `orders, `holder, sellStops, sellStops.heap
      ensures Valid() && sellStops.heap == old(sellStops.heap) && Done(was, queued, last, sellStops.Contents(), false)
      ensures forall e | e in sellStops.Contents() :: PriceOf(e) < last
    {
      hide Pq.Queue.Valid, Pq.Queue.Contents, MaxHeap.Heap.Valid, MaxHeap.Heap.Contents, Under, Done, Listed, PriceOf, IdOf;
      while !sellStops.IsEmpty()
        invariant Valid() && sellStops.heap == old(sellStops.heap) && Done(was, queued, last, sellStops.Contents(), false)
        decreases |sellStops.Contents()|
      {
        var top := sellStops.Peek();
        var price := PriceOf(top);
        if price < last {
          AllBelow(orders, sellStops.Contents(), top, last);
          return;
        }
        Greatest(orders, sellStops.Contents(), top);
        OpenGroup(was, queued, last, sellStops.Contents(), top, false);
        ghost var batchStart, had := |holder|, sellStops.Contents();
        FireSellGroup(was, queued, last, price);
        Fewer(had, sellStops.Contents(), top);
        CloseGroup(was, queued, last, batchStart, sellStops.Contents(), price, false);
      }
    }

    /** After a print at last: exactly the live triggered stops are queued, each once, behind what was
    queued before, in the order of firing; they are converted and no other order changed, and no
    live triggered stop stays armed. */
    method CheckStops(last: u16) returns (ghost fired: seq<u32>)
      requires Valid()
      modifies `orders, `holder, buyStops, buyStops.heap, sellStops, sellStops.heap
      ensures Valid() && buyStops.heap == old(buyStops.heap) && sellStops.heap == old(sellStops.heap)
      ensures holder == old(holder) + fired && Fired(old(orders), orders, fired, last)
      ensures forall x | x in old(orders) :: x in fired <==> Triggered(old(orders)[x], last)
      ensures forall x | x in old(orders) :: x in orders && if x in fired then WentOff(old(orders)[x], orders[x]) else orders[x] == old(orders)[x]
      ensures Known(old(orders), fired) && InOrder(old(orders), fired)
      ensures forall x | x in orders :: !Triggered(orders[x], last)
    {
      hide Pq.Queue.Valid, Pq.Queue.Contents, MaxHeap.Heap.Valid, MaxHeap.Heap.Contents, Listed, PriceOf, IdOf, InOrder,
           Triggered;
      ghost var was, queued := orders, holder;
      assert holder[|queued|..] == [];
      NothingFired(orders, last, buyStops.Contents());
      FireBuys(was, queued, last);
      BuysFirst(was, holder[|queued|..], buyStops.Contents(), sellStops.Contents());
      FireSells(was, queued, last);
      fired := holder[|queued|..];
      assert holder == queued + fired;
      NoneLeft(orders, buyStops.Contents(), sellStops.Contents(), last);
      FiredExactly(was, orders, fired, last);
      FiredWentOff(was, orders, fired, last);
    }
  }

  lemma NothingFired(stops: Stops, last: u16, heap: multiset<u64>)
    ensures Fired(stops, stops, [], last) && AllBefore(stops, [], heap, true)
  {
  }

  lemma Least(stops: Stops, heap: multiset<u64>, top: u64)
    requires Slots(stops, heap) && forall e | e in heap :: top <= e
    ensures forall e | e in heap :: PriceOf(e) >= PriceOf(top)
  {
    forall e | e in heap
      ensures PriceOf(e) >= PriceOf(top)
    {
      PricesClimb(top, e);
    }
  }

  lemma Greatest(stops: Stops, heap: multiset<u64>, top: u64)
    requires Slots(stops, heap) && top in heap && forall e | e in heap :: e <= top
    ensures forall e | e in heap :: PriceOf(e) <= PriceOf(top)
  {
    forall e | e in heap
      ensures PriceOf(e) <= PriceOf(top)
    {
      PricesClimb(e, top);
    }
  }

  lemma AllAbove(stops: Stops, heap: multiset<u64>, top: u64, price: u16)
    requires Slots(stops, heap) && (forall e | e in heap :: top <= e) && PriceOf(top) > price
    ensures forall e | e in heap :: PriceOf(e) > price
  {
    Least(stops, heap, top);
  }

  lemma AllBelow(stops: Stops, heap: multiset<u64>, top: u64, price: u16)
    requires Slots(stops, heap) && top in heap && (forall e | e in heap :: e <= top) && PriceOf(top) < price
    ensures forall e | e in heap :: PriceOf(e) < price
  {
    Greatest(stops, heap, top);
  }

  lemma Fewer(had: multiset<u64>, left: multiset<u64>, top: u64)
    requires left <= had && top in had && top !in left
    ensures |left| < |had|
  {
    assert had == left + (had - left) && top in had - left;
  }

  /** After popping e, of its own heap and of the other. */
  lemma SlotsLeft(stops: Stops, heap: multiset<u64>, other: multiset<u64>, e: u64, isBuy: bool)
    requires Slots(stops, heap) && Slots(stops, other) && e in heap
    ensures IdOf(e) in stops
    ensures Slots(AfterFire(stops, e, isBuy), heap - multiset{e}) && Slots(AfterFire(stops, e, isBuy), other)
  {
  }

  lemma NoneKnown(stops: Stops)
    ensures Known(stops, []) && ByArrival(stops, [])
  {
  }

  lemma Behind(was: seq<u32>, b: nat, id: u32)
    requires b <= |was|
    ensures (was + [id])[b..] == was[b..] + [id] + [] && (was + [id])[..b] == was[..b] && was[b..] == was[b..] + []
  {
  }

  lemma Spliced(was: seq<u32>, h: seq<u32>, b: nat, gap: nat, id: u32)
    requires b <= gap < |was| && |h| == |was| + 1 && h[..gap] == was[..gap] && h[gap + 1..] == was[gap..]
    ensures h[gap := id][b..] == was[b..gap] + [id] + was[gap..] && h[gap := id][..b] == was[..b]
    ensures was[b..] == was[b..gap] + was[gap..]
  {
    assert h[..b] == was[..gap][..b] && h[b..gap] == was[..gap][b..];
    assert h[gap := id] == h[..gap] + [id] + h[gap + 1..];
  }

  lemma KnownAt(stops: Stops, s: seq<u32>, b: nat, i: nat)
    requires b <= i < |s| && Known(stops, s[b..])
    ensures s[i] in stops
  {
    assert s[b..][i - b] == s[i];
  }
}
