/** What a cross leaves behind (the end of server_auction in src/server.c): an auction-only order dies,
a stranded market order becomes a limit at the clearing price, and what still has shares goes on to
the continuous market in the order it arrived. */
module AuctionRest {
  import opened Machine
  import opened Book
  import opened BookFacts
  import opened Settle
  import opened AuctionFill
  import opened AuctionPark

  /** What a cross leaves of an order parked for it: nothing changes of one that is filled, one that may
  not go on loses what is left of it, and any other goes on for what is left, at its own price if it had
  one and at the clearing price if it was a market order. */
  predicate GoesOn(was: Order, now: Order, only: bool, clearing: u16) {
    && now.client == was.client && now.buy == was.buy && now.ioc == was.ioc && now.fok == was.fok
    && now.canRep == was.canRep && now.cancel == was.cancel && now.otherId == was.otherId
    && now.quantity == (if only then 0 else was.quantity)
    && if was.quantity > 0 && !only && was.market then now.price == clearing && !now.market
       else now.price == was.price && now.market == was.market
  }

  /** Every parked order handed on, nobody else touched. */
  ghost predicate AllHanded(was: Table, now: Table, arrivals: seq<u32>, only: set<u32>, clearing: u16) {
    && now.Keys == was.Keys
    && forall x | x in was :: if x in arrivals then GoesOn(was[x], now[x], x in only, clearing) else now[x] == was[x]
  }

  /** Whom the continuous market gets, by arrival. */
  function Residual(arrivals: seq<u32>, table: Table, only: set<u32>): seq<u32> {
    if arrivals == [] then []
    else
      var id := arrivals[|arrivals| - 1];
      Residual(arrivals[..|arrivals| - 1], table, only) + if id in table && table[id].quantity > 0 && id !in only then [id] else []
  }

  /** One more order handed on. */
  lemma HandedNext(was: Table, now: Table, next: Table, arrivals: seq<u32>, i: nat, only: set<u32>, clearing: u16)
    requires i < |arrivals| && DistinctIds(arrivals) && arrivals[i] in was
    requires AllHanded(was, now, arrivals[..i], only, clearing) && next.Keys == now.Keys
    requires forall x | x in now && x != arrivals[i] :: next[x] == now[x]
    requires var id := arrivals[i]; id in next && (now[id] == was[id] ==> GoesOn(was[id], next[id], id in only, clearing))
    ensures AllHanded(was, next, arrivals[..i + 1], only, clearing) && now[arrivals[i]] == was[arrivals[i]]
  {
    hide GoesOn;
    assert arrivals[..i + 1] == arrivals[..i] + [arrivals[i]];
    assert arrivals[i] !in arrivals[..i];
  }

  /** The drain at the end of the cross. */
  method Drain(orders: Table, arrivals: seq<u32>, only: set<u32>, clearing: u16) returns (now: Table, residual: seq<u32>)
    requires DistinctIds(arrivals) && forall id | id in arrivals :: id in orders
    ensures AllHanded(orders, now, arrivals, only, clearing) && residual == Residual(arrivals, orders, only)
  {
    hide AllHanded;
    now, residual := orders, [];
    assert arrivals[..0] == [];
    NobodyHanded(orders, only, clearing);
    for i := 0 to |arrivals|
      invariant now.Keys == orders.Keys && AllHanded(orders, now, arrivals[..i], only, clearing)
      invariant residual == Residual(arrivals[..i], orders, only)
    {
      var id := arrivals[i];
      assert id in arrivals && arrivals[..i + 1] == arrivals[..i] + [id] && arrivals[..i + 1][..i] == arrivals[..i];
      var o := now[id];
      ghost var was := now;
      if o.quantity > 0 && id in only {
        now := now[id := o.(quantity := 0)];
      } else if o.quantity > 0 {
        if o.market {
          now := now[id := o.(price := clearing, market := false)];
        }
        residual := residual + [id];
      }
      HandedNext(orders, was, now, arrivals, i, only, clearing);
    }
    assert arrivals[..|arrivals|] == arrivals;
  }

  lemma NobodyHanded(table: Table, only: set<u32>, clearing: u16)
    ensures AllHanded(table, table, [], only, clearing)
  {
  }

  /** Exactly the parked orders with shares left that may live on, each once, the earlier first. */
  lemma {:induction false} ResidualIs(arrivals: seq<u32>, table: Table, only: set<u32>)
    requires DistinctIds(arrivals)
    ensures var line := Residual(arrivals, table, only);
            && (forall id :: id in line <==> id in arrivals && id in table && table[id].quantity > 0 && id !in only)
            && forall a, b | 0 <= a < b < |line| :: line[a] != line[b] && Earlier(line[a], line[b], arrivals)
  {
    if arrivals != [] {
      var n := |arrivals| - 1;
      var shorter, line := arrivals[..n], Residual(arrivals, table, only);
      var front := Residual(shorter, table, only);
      ResidualIs(shorter, table, only);
      assert arrivals == shorter + [arrivals[n]];
      assert front <= line;
      forall a, b | 0 <= a < b < |line|
        ensures line[a] != line[b] && Earlier(line[a], line[b], arrivals)
      {
        assert front[a] == line[a];
        if b < |front| {
          assert Earlier(front[a], front[b], shorter);
          var i, j :| 0 <= i < j < n && shorter[i] == line[a] && shorter[j] == line[b];
          assert arrivals[i] == line[a] && arrivals[j] == line[b];
        } else {
          assert front[a] in front && front[a] in shorter;
          var i :| 0 <= i < n && shorter[i] == line[a];
          assert arrivals[i] == line[a] && arrivals[n] == line[b];
        }
      }
    }
  }

  /** Who dies at the cross has no shares left and who lives on is a limit order with some. */
  lemma HandedOn(was: Table, now: Table, arrivals: seq<u32>, only: set<u32>, clearing: u16, id: u32)
    requires DistinctIds(arrivals) && AllHanded(was, now, arrivals, only, clearing) && id in arrivals && id in was
    ensures id in Residual(arrivals, was, only) <==> now[id].quantity > 0
    ensures now[id].quantity > 0 ==> !now[id].market && now[id].quantity == was[id].quantity
    ensures now[id].quantity > 0 && was[id].market ==> now[id].price == clearing
  {
    ResidualIs(arrivals, was, only);
  }
}
