/** The simple meaning of the order book: price levels that hold first-in-first-out queues,
and what one order message does to them.

Nothing here knows about snapshots, indices or op types. An incoming order pulls its target,
eats the opposite side best price first and first come first served, and then rests or drops
what is left. The snapshot rewrite of src/ob.c is proved equal to this in OneLeg and Pair. */
module Book {
  import opened Machine

  // ---------- Data ----------

  /** MBOEntry: one resting order. */
  datatype Entry = Entry(id: u32, qty: u32)

  /** One maker's share of a trade; partial when the maker stays in the book. */
  datatype Fill = Fill(id: u32, qty: u32, partial: bool)

  /** A price level; quantity is the total the level index carries. */
  datatype Level = Level(price: u16, quantity: nat, orders: seq<Entry>)

  /** The two sides, each in ascending price order. */
  datatype Sides = Sides(bids: seq<Level>, asks: seq<Level>)

  datatype Outcome = Outcome(sides: Sides, fills: seq<Fill>)

  /** The fields of an Order that the book and its settlement read (include/order.h). */
  datatype Order = Order(
    client: u32,
    price: u16,
    quantity: u16,
    buy: bool,
    market: bool,
    ioc: bool,
    fok: bool,
    canRep: bool,
    cancel: bool,
    otherId: u32)
  {
    /** No time-in-force bit set: the remainder rests. */
    predicate Gtc() {
      !ioc && !fok
    }

    /** A cancel that carries no replacement. */
    predicate PureCancel() {
      cancel && !canRep
    }

    /** It has a quantity, or is one that pulls nothing and rests nothing. */
    predicate Sized() {
      quantity > 0 || PureCancel() || (!Pulls() && !Gtc())
    }

    predicate Pulls() {
      canRep || cancel
    }

    /** The ids this order takes out of the book. */
    function Pulled(): set<u32> {
      if Pulls() then {otherId} else {}
    }
  }

  type Table = map<u32, Order>

  // ---------- Levels ----------

  function Total(orders: seq<Entry>): nat {
    if orders == [] then 0 else orders[0].qty + Total(orders[1..])
  }

  /** The level that holds exactly these orders. */
  function At(price: u16, orders: seq<Entry>): Level {
    Level(price, Total(orders), orders)
  }

  /** The orders left when the ids in gone are pulled. */
  function Keep(orders: seq<Entry>, gone: set<u32>): seq<Entry> {
    if orders == [] then []
    else if orders[0].id in gone then Keep(orders[1..], gone)
    else [orders[0]] + Keep(orders[1..], gone)
  }

  /** The levels left when the ids in gone are pulled; a level that empties disappears. */
  function Prune(levels: seq<Level>, gone: set<u32>): seq<Level> {
    if levels == [] then []
    else PruneLevel(levels[0], gone) + Prune(levels[1..], gone)
  }

  function PruneLevel(l: Level, gone: set<u32>): seq<Level> {
    var kept := Keep(l.orders, gone);
    if kept == [] then [] else [At(l.price, kept)]
  }

  function Reverse(levels: seq<Level>): seq<Level> {
    if levels == [] then [] else Reverse(levels[1..]) + [levels[0]]
  }

  // ---------- Trading ----------

  datatype Eaten = Eaten(rest: seq<Entry>, fills: seq<Fill>, left: nat)

  /** First come, first served within one level. */
  function Eat(orders: seq<Entry>, q: nat): (e: Eaten)
    ensures e.left <= q
  {
    if orders == [] || q == 0 then Eaten(orders, [], q)
    else if orders[0].qty > q then
      Eaten([orders[0].(qty := orders[0].qty - q)] + orders[1..], [Fill(orders[0].id, q, true)], 0)
    else
      var e := Eat(orders[1..], q - orders[0].qty);
      Eaten(e.rest, [Fill(orders[0].id, orders[0].qty, false)] + e.fills, e.left)
  }

  /** Would an order like t trade at this price? */
  predicate Crosses(t: Order, price: u16) {
    t.market || if t.buy then price <= t.price else t.price <= price
  }

  datatype Swept = Swept(levels: seq<Level>, fills: seq<Fill>, left: nat)

  /** Best price first: levels come best first. */
  function Sweep(levels: seq<Level>, t: Order, q: nat): (s: Swept)
    ensures s.left <= q
  {
    if levels == [] || q == 0 || !Crosses(t, levels[0].price) then Swept(levels, [], q)
    else
      var e := Eat(levels[0].orders, q);
      if e.rest == [] then
        var s := Sweep(levels[1..], t, e.left);
        Swept(s.levels, e.fills + s.fills, s.left)
      else
        Swept([At(levels[0].price, e.rest)] + levels[1..], e.fills, e.left)
  }

  /** Queue an entry at its price, opening the level if there is none. */
  function Rest(levels: seq<Level>, price: u16, e: Entry): seq<Level> {
    if levels == [] || price < levels[0].price then [At(price, [e])] + levels
    else if price == levels[0].price then [At(price, levels[0].orders + [e])] + levels[1..]
    else [levels[0]] + Rest(levels[1..], price, e)
  }

  /** The side an order of this direction rests on. */
  function Own(s: Sides, buy: bool): seq<Level> {
    if buy then s.bids else s.asks
  }

  /** The side it trades with, best price first. */
  function Opposite(s: Sides, buy: bool): seq<Level> {
    if buy then s.asks else Reverse(s.bids)
  }

  function Join(own: seq<Level>, best: seq<Level>, buy: bool): Sides {
    if buy then Sides(own, best) else Sides(Reverse(best), own)
  }

  /** Trade what crosses, then rest or drop the remainder. */
  function Submit(s: Sides, t: Order, id: u32): Outcome {
    var w := Sweep(Opposite(s, t.buy), t, t.quantity);
    Outcome(Join(RestLeft(Own(s, t.buy), t, id, w.left), w.levels, t.buy), w.fills)
  }

  function RestLeft(side: seq<Level>, t: Order, id: u32, left: u16): seq<Level> {
    if left > 0 && t.Gtc() then Rest(side, t.price, Entry(id, left)) else side
  }

  // ---------- Messages ----------

  /** Replace one entry where it stands. */
  function SwapEntry(orders: seq<Entry>, was: u32, e: Entry): seq<Entry> {
    if orders == [] then []
    else if orders[0].id == was then [e] + orders[1..]
    else [orders[0]] + SwapEntry(orders[1..], was, e)
  }

  function Swap(levels: seq<Level>, was: u32, e: Entry): seq<Level> {
    if levels == [] then []
    else [At(levels[0].price, SwapEntry(levels[0].orders, was, e))] + Swap(levels[1..], was, e)
  }

  /** A replacement at its target's own price and side. */
  predicate SameSlot(o: Order, target: Order) {
    o.canRep && o.price == target.price && o.buy == target.buy
  }

  /** A strict size reduction in the same slot, which keeps its place in the queue. */
  predicate Shrinks(o: Order, target: Order) {
    SameSlot(o, target) && o.quantity < target.quantity && o.Gtc()
  }

  predicate HasTarget(o: Order, table: Table) {
    o.Pulls() ==> o.otherId in table
  }

  /** The ids that leave the book before this order trades. */
  function Gone(o: Order, table: Table): set<u32>
    requires HasTarget(o, table)
  {
    if o.Pulls() && !Shrinks(o, table[o.otherId]) then {o.otherId} else {}
  }

  /** What the order does once its target is out of the way. */
  function Step(s: Sides, table: Table, o: Order, id: u32): Outcome
    requires HasTarget(o, table)
  {
    if o.PureCancel() then Outcome(s, [])
    else if o.canRep && Shrinks(o, table[o.otherId]) then
      Outcome(Sides(Swap(s.bids, o.otherId, Entry(id, o.quantity)),
                    Swap(s.asks, o.otherId, Entry(id, o.quantity))), [])
    else Submit(s, o, id)
  }

  function Pull(s: Sides, gone: set<u32>): Sides {
    Sides(Prune(s.bids, gone), Prune(s.asks, gone))
  }

  /** One order message: add, cancel or cancel-replace. */
  function Message(s: Sides, table: Table, id: u32): Outcome
    requires id in table && HasTarget(table[id], table)
  {
    Step(Pull(s, Gone(table[id], table)), table, table[id], id)
  }

  /** An atomic bid and ask: both targets go first, then the bid, then the ask. */
  function PairMessage(s: Sides, table: Table, bidId: u32, askId: u32): Outcome
    requires bidId in table && HasTarget(table[bidId], table)
    requires askId in table && HasTarget(table[askId], table)
  {
    var clean := Pull(s, Gone(table[bidId], table) + Gone(table[askId], table));
    var first := Step(clean, table, table[bidId], bidId);
    var second := Step(first.sides, table, table[askId], askId);
    Outcome(second.sides, first.fills + second.fills)
  }
}
