/** What the server checks before an order may touch the book (cancel_precheck, add_precheck and
canrep_precheck of src/server.c), and that passing them is what the rewrite needs. */
module Prechecks {
  import opened Machine
  import opened Book
  import opened BookFacts
  import opened BookRuns
  import opened Snapshot
  import opened SnapshotWriter
  import opened Ranges
  import opened Rewrite
  import opened FirstLeg
  import opened Canrep
  import opened Weights
  import opened Settle
  import opened LegWalk
  import opened Desk

  ghost predicate RestsHere(l: Level, price: u16, x: u32) {
    l.price == price && Occurs(l.orders, x) > 0
  }

  /** The book walk of cancel_precheck: the first level with the order's price is the only one searched. */
  method InBook(m: Mbo, x: u32, price: u16, ghost levels: seq<Level>) returns (found: bool)
    requires Stored(m, levels) && Ascending(levels)
    ensures found <==> exists i :: 0 <= i < |levels| && RestsHere(levels[i], price, x)
  {
    StoredIndexed(m, levels);
    for i := 0 to m.levelCount
      invariant forall j | 0 <= j < i :: levels[j].price != price
    {
      if m.index[i].price == price {
        found := Among(OrdersAt(m, levels, i), x);
        assert forall j | 0 <= j < |levels| && RestsHere(levels[j], price, x) :: j == i;
        assert found <==> RestsHere(levels[i], price, x);
        return;
      }
    }
    found := false;
  }

  method Among(orders: seq<Entry>, x: u32) returns (found: bool)
    ensures found <==> Occurs(orders, x) > 0
  {
    OccursMember(orders, x);
    for i := 0 to |orders|
      invariant forall j | 0 <= j < i :: orders[j].id != x
    {
      if orders[i].id == x {
        assert orders[i] in orders;
        return true;
      }
    }
    found := false;
  }

  ghost predicate BookState(m: Mbo, levels: seq<Level>, bids: nat, table: Table) {
    && OldBook(m, levels, bids) && SoundSides(SidesOf(levels, bids)) && Agrees(SidesOf(levels, bids), table)
  }

  lemma SidesJoin(levels: seq<Level>, bids: nat)
    requires bids <= |levels|
    ensures SidesOf(levels, bids).bids + SidesOf(levels, bids).asks == levels
  {
  }

  /** Since table and book agree, the walk finds exactly the orders that rest. */
  lemma FoundIsResting(levels: seq<Level>, bids: nat, table: Table, x: u32)
    requires bids <= |levels| && Distinct(levels) && Agrees(SidesOf(levels, bids), table) && x in table
    ensures (exists i :: 0 <= i < |levels| && RestsHere(levels[i], table[x].price, x)) <==> Count(levels, x) == 1
    ensures Count(levels, x) == 1 ==> Resting(levels, bids, table, x)
  {
    SidesJoin(levels, bids);
    assert Count(levels, x) <= 1;
    if Count(levels, x) > 0 {
      var i, e := RestingEntry(levels, x);
      if i < bids {
        assert levels[..bids][i] == levels[i];
      } else {
        assert levels[bids..][i - bids] == levels[i];
      }
      assert levels[i] in levels;
      OccursMember(levels[i].orders, x);
      assert RestsHere(levels[i], table[x].price, x);
      assert RestsAt(levels, i, x, table[x].quantity);
    }
    if i :| 0 <= i < |levels| && RestsHere(levels[i], table[x].price, x) {
      CountAt(levels, i, x);
    }
  }

  lemma {:induction false} RestingEntry(levels: seq<Level>, x: u32) returns (i: nat, e: Entry)
    requires Count(levels, x) > 0
    ensures i < |levels| && e in levels[i].orders && e.id == x
  {
    if Occurs(levels[0].orders, x) > 0 {
      OccursMember(levels[0].orders, x);
      i := 0;
      e :| e in levels[0].orders && e.id == x;
    } else {
      var j;
      j, e := RestingEntry(levels[1..], x);
      i := j + 1;
    }
  }

  /** Why a cancel does not pass: the client owns the target, it is not done, and it rests. */
  ghost function CancelReason(o: Order, table: Table, levels: seq<Level>): Reason
    requires o.otherId in table
  {
    var target := table[o.otherId];
    if target.client != o.client then NotYourOrder
    else if target.quantity == 0 then OrderAlreadyDone
    else if Count(levels, o.otherId) == 1 then NoReason
    else UnknownOrder
  }

  /** cancel_precheck lets a cancel through exactly when its target is the client's own and rests. */
  method CancelPrecheck(o: Order, table: Table, m: Mbo, ghost levels: seq<Level>, ghost bids: nat) returns (reason: Reason)
    requires BookState(m, levels, bids, table) && o.otherId in table
    ensures reason == CancelReason(o, table, levels)
    ensures reason == NoReason <==> table[o.otherId].client == o.client && Count(levels, o.otherId) == 1
    ensures reason == NoReason ==> Resting(levels, bids, table, o.otherId)
  {
    var target := table[o.otherId];
    FoundIsResting(levels, bids, table, o.otherId);
    if target.client != o.client {
      return NotYourOrder;
    }
    if target.quantity == 0 {
      EmptyNotResting(levels, bids, table, o.otherId);
      return OrderAlreadyDone;
    }
    var found := InBook(m, o.otherId, target.price, levels);
    reason := if found then NoReason else UnknownOrder;
  }

  lemma EmptyNotResting(levels: seq<Level>, bids: nat, table: Table, x: u32)
    requires bids <= |levels| && SoundSides(SidesOf(levels, bids)) && Agrees(SidesOf(levels, bids), table)
    requires x in table && table[x].quantity == 0
    ensures Count(levels, x) == 0
  {
    SidesJoin(levels, bids);
    HeldQuantity(SidesOf(levels, bids), table, x);
  }

  /** The price of every share the order would trade or rest, in turn. */
  ghost function LegPath(o: Order, table: Table, levels: seq<Level>, bids: nat): seq<u16>
    requires bids <= |levels|
  {
    var s := Sweep(Facing(levels, bids, o.buy), o, o.quantity);
    SharePath(s.fills, table) + (if o.Gtc() then Repeat(o.price, s.left) else [])
  }

  /** What the order is charged against the limit: opening notional on margin, cash or shares otherwise. */
  ghost function LegCharge(o: Order, table: Table, levels: seq<Level>, bids: nat, closeQ: nat, isCash: bool): nat
    requires bids <= |levels|
  {
    var path := LegPath(o, table, levels, bids);
    if !isCash then Sum(Past(path, closeQ)) else if o.buy then Sum(path) else |path|
  }

  function NoFunds(buy: bool): Reason {
    if buy then NoBuyingPower else NoShares
  }

  /** Why an order does not pass: malformed, a fill-or-kill the book cannot fill, or not funded. */
  ghost function AddReason(o: Order, table: Table, levels: seq<Level>, bids: nat, closeQ: nat, limit: int,
                           isCash: bool): Reason
    requires bids <= |levels|
  {
    if o.quantity == 0 then InvalidQuantity
    else if !o.market && o.price == 0 then InvalidPrice
    else if o.market && o.Gtc() then BadQualifier
    else if o.fok && Sweep(Facing(levels, bids, o.buy), o, o.quantity).left > 0 then FokKilled
    else if limit < LegCharge(o, table, levels, bids, closeQ, isCash) then NoFunds(o.buy)
    else NoReason
  }

  /** add_precheck. */
  method AddPrecheck(o: Order, table: Table, m: Mbo, closeQ: nat, limit: int, isCash: bool, ghost levels: seq<Level>,
                     ghost bids: nat)
    returns (reason: Reason)
    requires BookState(m, levels, bids, table)
    ensures reason == AddReason(o, table, levels, bids, closeQ, limit, isCash)
  {
    if o.quantity == 0 {
      return InvalidQuantity;
    }
    if !o.market && o.price == 0 {
      return InvalidPrice;
    }
    if o.market && o.Gtc() {
      return BadQualifier;
    }
    SidesJoin(levels, bids);
    StoredIndexed(m, levels);
    SoundIsOk(levels);
    var cost, openNotional, left := PriceLeg(m, o, o.quantity, closeQ, levels, bids, table);
    if left > 0 && o.fok {
      return FokKilled;
    }
    // limit is client_bp for a margin account, and what the cash or share pool has left otherwise
    if !isCash && limit < openNotional {
      return if o.buy then NoBuyingPower else NoShares;
    }
    if isCash && limit < cost {
      return if o.buy then NoBuyingPower else NoShares;
    }
    reason := NoReason;
  }
}
