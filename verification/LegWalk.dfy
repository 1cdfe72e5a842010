/** The pricing walk that runs before an order may touch the book (leg_walk of src/server.c), proved
to predict the match that follows.

A fill list is unrolled to the price of each share in fill order; what the walk charges is a sum
over that list, with the first close_q shares free in the opening charge. */
module LegWalk {
  import opened Machine
  import opened Book
  import opened BookFacts
  import opened BookRuns
  import opened Snapshot
  import opened Ranges
  import opened Rewrite
  import opened FirstLeg
  import opened Weights
  import opened Settle

  // ---------- Share by share ----------

  function Repeat(price: u16, n: nat): (path: seq<u16>)
    ensures |path| == n
  {
    if n == 0 then [] else [price] + Repeat(price, n - 1)
  }

  function Sum(path: seq<u16>): nat {
    if path == [] then 0 else path[0] + Sum(path[1..])
  }

  /** The price of every share filled, in order. */
  function SharePath(fills: seq<Fill>, table: Table): seq<u16> {
    if fills == [] then []
    else Repeat(if fills[0].id in table then table[fills[0].id].price else 0, fills[0].qty) + SharePath(fills[1..], table)
  }

  function Min(a: nat, b: nat): nat {
    if a < b then a else b
  }

  /** The shares past the first n. */
  function Past(path: seq<u16>, n: nat): seq<u16> {
    path[Min(n, |path|)..]
  }

  lemma {:induction false} SumConcat(a: seq<u16>, b: seq<u16>)
    ensures Sum(a + b) == Sum(a) + Sum(b)
  {
    if a == [] {
      assert a + b == b;
    } else {
      assert (a + b)[1..] == a[1..] + b;
      SumConcat(a[1..], b);
    }
  }

  lemma {:induction false} SumRepeat(price: u16, n: nat)
    ensures Sum(Repeat(price, n)) == n * price
  {
    if n > 0 {
      SumRepeat(price, n - 1);
      assert n * price == (n - 1) * price + price;
    }
  }

  lemma {:induction false} SumBound(path: seq<u16>)
    ensures Sum(path) <= 0xFFFF * |path|
  {
    if path != [] {
      SumBound(path[1..]);
    }
  }

  lemma {:induction false} RepeatConcat(price: u16, a: nat, b: nat)
    ensures Repeat(price, a) + Repeat(price, b) == Repeat(price, a + b)
  {
    if a == 0 {
      assert Repeat(price, 0) + Repeat(price, b) == Repeat(price, b);
    } else {
      RepeatConcat(price, a - 1, b);
      assert [price] + Repeat(price, a - 1) + Repeat(price, b) == [price] + (Repeat(price, a - 1) + Repeat(price, b));
    }
  }

  lemma {:induction false} RepeatPast(price: u16, a: nat, n: nat)
    requires a <= n
    ensures Repeat(price, n)[a..] == Repeat(price, n - a)
  {
    if a > 0 {
      RepeatPast(price, a - 1, n - 1);
      assert Repeat(price, n)[a..] == Repeat(price, n)[1..][a - 1..];
    }
  }

  lemma {:induction false} PathConcat(a: seq<Fill>, b: seq<Fill>, table: Table)
    ensures SharePath(a + b, table) == SharePath(a, table) + SharePath(b, table)
  {
    if a == [] {
      assert a + b == b;
    } else {
      assert (a + b)[1..] == a[1..] + b;
      PathConcat(a[1..], b, table);
      var head := Repeat(if a[0].id in table then table[a[0].id].price else 0, a[0].qty);
      assert head + (SharePath(a[1..], table) + SharePath(b, table)) == (head + SharePath(a[1..], table)) + SharePath(b, table);
    }
  }

  // ---------- The running charge ----------

  /** LegCost, with the shares still free of an opening charge. */
  datatype Tab = Tab(cost: nat, openNotional: nat, left: nat, closeQ: nat)

  function Charge(tab: Tab, price: u16, take: nat, buy: bool): Tab
    requires take <= tab.left
  {
    var closing := Min(take, tab.closeQ);
    Tab(tab.cost + (if buy then take * price else take),
        tab.openNotional + (take - closing) * price,
        tab.left - take,
        tab.closeQ - closing)
  }

  /** The tab is what these shares cost, q of them wanted and the first closeQ free to open. */
  ghost predicate Tallies(tab: Tab, path: seq<u16>, q: nat, closeQ: nat, buy: bool) {
    && |path| <= q && tab.left == q - |path|
    && tab.cost == (if buy then Sum(path) else |path|)
    && tab.openNotional == Sum(Past(path, closeQ))
    && tab.closeQ == closeQ - Min(closeQ, |path|)
  }

  lemma ChargeTallies(tab: Tab, path: seq<u16>, q: nat, closeQ: nat, buy: bool, price: u16, take: nat)
    requires Tallies(tab, path, q, closeQ, buy) && take <= tab.left
    ensures Tallies(Charge(tab, price, take, buy), path + Repeat(price, take), q, closeQ, buy)
  {
    hide Sum, Repeat, Past;
    SumConcat(path, Repeat(price, take));
    SumRepeat(price, take);
    PastMore(path, price, take, closeQ);
  }

  /** Of take more shares, those beyond what is left of the first closeQ are charged. */
  lemma PastMore(path: seq<u16>, price: u16, take: nat, closeQ: nat)
    ensures var closing := Min(take, closeQ - Min(closeQ, |path|));
            Sum(Past(path + Repeat(price, take), closeQ)) == Sum(Past(path, closeQ)) + (take - closing) * price
  {
    hide Sum, Repeat;
    var more := Repeat(price, take);
    if closeQ <= |path| {
      assert Past(path + more, closeQ) == Past(path, closeQ) + more;
      SumConcat(Past(path, closeQ), more);
      SumRepeat(price, take);
    } else {
      var closing := Min(take, closeQ - |path|);
      assert Past(path + more, closeQ) == more[closing..];
      RepeatPast(price, closing, take);
      SumRepeat(price, take - closing);
      assert Past(path, closeQ) == [];
      NoShares();
    }
  }

  lemma NoShares()
    ensures Sum([]) == 0
  {
  }

  // ---------- The walk against the match ----------

  /** What is taken from one level: its total, or all that is wanted. */
  lemma {:induction false} EatPath(orders: seq<Entry>, q: nat, price: u16, table: Table)
    requires forall e | e in orders :: EntryOk(e) && e.id in table && table[e.id].price == price
    ensures q - Eat(orders, q).left == Min(q, Total(orders))
    ensures SharePath(Eat(orders, q).fills, table) == Repeat(price, Min(q, Total(orders)))
    ensures Eat(orders, q).rest == [] <==> Total(orders) <= q && (q > 0 || orders == [])
  {
    if orders != [] && q > 0 {
      var first := orders[0];
      assert first in orders && forall e | e in orders[1..] :: e in orders;
      if first.qty > q {
        assert SharePath([Fill(first.id, q, true)], table) == Repeat(price, q) + SharePath([Fill(first.id, q, true)][1..], table);
      } else {
        EatPath(orders[1..], q - first.qty, price, table);
        RepeatConcat(price, first.qty, Min(q - first.qty, Total(orders[1..])));
        var rest := Eat(orders[1..], q - first.qty).fills;
        assert ([Fill(first.id, first.qty, false)] + rest)[1..] == rest;
        if q == first.qty && orders[1..] != [] {
          assert orders[1..][0] in orders[1..];
        }
      }
    }
  }

  /** The whole walk: level by level from the best price, until a price the order would not take. */
  function Walk(levels: seq<Level>, t: Order, tab: Tab): Tab {
    if levels == [] then tab
    else if tab.left > 0 && !Crosses(t, levels[0].price) then tab
    else Walk(levels[1..], t, Charge(tab, levels[0].price, Min(tab.left, levels[0].quantity), t.buy))
  }

  lemma {:induction false} WalkIdle(levels: seq<Level>, t: Order, tab: Tab)
    requires tab.left == 0
    ensures Walk(levels, t, tab) == tab
  {
    if levels != [] {
      WalkIdle(levels[1..], t, tab);
    }
  }

  lemma WalkOne(levels: seq<Level>, t: Order, tab: Tab)
    ensures Walk(levels, t, tab)
            == if levels == [] || (tab.left > 0 && !Crosses(t, levels[0].price)) then tab
               else Walk(levels[1..], t, Charge(tab, levels[0].price, Min(tab.left, levels[0].quantity), t.buy))
  {
  }

  lemma FrontRest(levels: seq<Level>, buy: bool, table: Table)
    requires levels != [] && SoundLevels(levels) && Quoted(levels, buy, table)
    ensures SoundLevels(levels[1..]) && Quoted(levels[1..], buy, table) && levels[0].quantity == Total(levels[0].orders)
    ensures levels[0].orders != [] && forall e | e in levels[0].orders :: EntryOk(e) && e.id in table && table[e.id].price == levels[0].price
  {
    assert levels[0] in levels && SoundLevel(levels[0]) && forall m | m in levels[1..] :: m in levels;
  }

  lemma JoinPaths(path: seq<u16>, a: seq<Fill>, b: seq<Fill>, table: Table)
    ensures (path + SharePath(a, table)) + SharePath(b, table) == path + SharePath(a + b, table)
  {
    PathConcat(a, b, table);
    Assoc(path, SharePath(a, table), SharePath(b, table));
  }

  /** The walk prices exactly the shares the match will trade. */
  lemma {:induction false} WalkIsSweep(levels: seq<Level>, t: Order, tab: Tab, path: seq<u16>, q: nat, closeQ: nat,
                                       table: Table)
    requires SoundLevels(levels) && Quoted(levels, !t.buy, table)
    requires Tallies(tab, path, q, closeQ, t.buy)
    ensures var s := Sweep(levels, t, tab.left);
            Tallies(Walk(levels, t, tab), path + SharePath(s.fills, table), q, closeQ, t.buy) && Walk(levels, t, tab).left == s.left
  {
    hide Sweep, Walk;
    SweepOne(levels, t, tab.left);
    WalkOne(levels, t, tab);
    if tab.left == 0 {
      WalkIdle(levels, t, tab);
      assert path + [] == path;
    } else if levels == [] || !Crosses(t, levels[0].price) {
      assert path + [] == path;
    } else {
      hide Tallies, Total, SharePath, Eat, Repeat, Crosses, SoundLevels, Quoted;
      var l := levels[0];
      FrontRest(levels, !t.buy, table);
      EatPath(l.orders, tab.left, l.price, table);
      var e := Eat(l.orders, tab.left);
      var take := Min(tab.left, l.quantity);
      ChargeTallies(tab, path, q, closeQ, t.buy, l.price, take);
      assert SharePath(e.fills, table) == Repeat(l.price, take);
      var next, on := Charge(tab, l.price, take, t.buy), path + Repeat(l.price, take);
      if e.rest == [] {
        WalkIsSweep(levels[1..], t, next, on, q, closeQ, table);
        JoinPaths(path, e.fills, Sweep(levels[1..], t, e.left).fills, table);
      } else {
        WalkIdle(levels[1..], t, next);
      }
    }
  }

  // ---------- leg_walk ----------

  ghost predicate WalkReady(m: Mbo, levels: seq<Level>, bids: nat, table: Table) {
    && Indexed(m, levels) && |levels| < 0xFFFF && bids <= |levels| && m.hiBidIndex == HiBid(bids)
    && SoundLevels(levels) && QuotedSides(SidesOf(levels, bids), table)
  }

  lemma FacingRun(levels: seq<Level>, bids: nat, buy: bool, k: nat)
    requires bids <= |levels| && k < if buy then |levels| - bids else bids
    ensures |Facing(levels, bids, buy)| == if buy then |levels| - bids else bids
    ensures Facing(levels, bids, buy)[k] == levels[if buy then bids + k else bids - 1 - k]
  {
    if !buy {
      ReverseSize(levels[..bids]);
      ReverseAt(levels[..bids], k);
    }
  }

  /** The level runs of leg_walk: up from the best ask, or down from the best bid. */
  method WalkLevels(m: Mbo, t: Order, q: u16, closeQ: nat, ghost levels: seq<Level>, ghost bids: nat,
                    ghost table: Table) returns (tab: Tab)
    requires WalkReady(m, levels, bids, table)
    ensures tab == Walk(Facing(levels, bids, t.buy), t, Tab(0, 0, q, closeQ))
  {
    tab := Tab(0, 0, q, closeQ);
    ghost var facing := Facing(levels, bids, t.buy);
    var lowAsk := if m.hiBidIndex == MAX_U16 then 0 else m.hiBidIndex + 1;
    var count := if t.buy then m.levelCount - lowAsk else lowAsk;
    ghost var size := FacingSize(levels, bids, t.buy);
    assert facing[0..] == facing;
    for k := 0 to count
      invariant Walk(facing[k..], t, tab) == Walk(facing, t, Tab(0, 0, q, closeQ))
    {
      FacingRun(levels, bids, t.buy, k);
      var run := m.index[if t.buy then lowAsk + k else lowAsk - 1 - k];
      assert facing[k..][0] == facing[k] && facing[k..][1..] == facing[k + 1..];
      if tab.left > 0 && !Crosses(t, run.price) {
        return;
      }
      tab := Charge(tab, run.price, Min(tab.left, run.quantity), t.buy);
    }
    assert facing[count..] == [];
  }

  lemma FacingSize(levels: seq<Level>, bids: nat, buy: bool) returns (n: nat)
    requires bids <= |levels|
    ensures n == |Facing(levels, bids, buy)| == if buy then |levels| - bids else bids
  {
    ReverseSize(levels[..bids]);
    n := |Facing(levels, bids, buy)|;
  }

  /** Sixteen-bit prices and quantities never overflow the 32-bit cost. */
  lemma ChargeFits(tab: Tab, path: seq<u16>, q: u16, closeQ: nat, buy: bool)
    requires Tallies(tab, path, q, closeQ, buy)
    ensures tab.cost < 0x1_0000_0000 && tab.openNotional < 0x1_0000_0000
  {
    SumBound(path);
    SumBound(Past(path, closeQ));
  }

  /** leg_walk: how much would be left, and what the fills and the resting part would cost. */
  method PriceLeg(m: Mbo, t: Order, q: u16, closeQ: nat, ghost levels: seq<Level>, ghost bids: nat, ghost table: Table)
    returns (cost: u32, openNotional: u64, left: u16)
    requires WalkReady(m, levels, bids, table)
    ensures var s := Sweep(Facing(levels, bids, t.buy), t, q);
            var path := SharePath(s.fills, table) + (if t.Gtc() then Repeat(t.price, s.left) else []);
            && left == s.left
            && cost == (if t.buy then Sum(path) else |path|)
            && openNotional == Sum(Past(path, closeQ)) < 0x1_0000_0000
  {
    var tab := WalkLevels(m, t, q, closeQ, levels, bids, table);
    ghost var path := WalkPath(levels, bids, t, q, closeQ, table);
    left := tab.left;
    assert path + [] == path;
    if t.Gtc() {
      // the part that will rest is charged at the order's own price
      ChargeTallies(tab, path, q, closeQ, t.buy, t.price, left);
      tab := Charge(tab, t.price, left, t.buy);
      path := path + Repeat(t.price, left);
    }
    ChargeFits(tab, path, q, closeQ, t.buy);
    cost, openNotional := tab.cost, tab.openNotional;
  }

  lemma WalkPath(levels: seq<Level>, bids: nat, t: Order, q: u16, closeQ: nat, table: Table) returns (path: seq<u16>)
    requires bids <= |levels| && SoundLevels(levels) && QuotedSides(SidesOf(levels, bids), table)
    ensures var s := Sweep(Facing(levels, bids, t.buy), t, q);
            var tab := Walk(Facing(levels, bids, t.buy), t, Tab(0, 0, q, closeQ));
            path == SharePath(s.fills, table) && Tallies(tab, path, q, closeQ, t.buy) && tab.left == s.left
  {
    var facing := Facing(levels, bids, t.buy);
    var s := Sweep(facing, t, q);
    path := SharePath(s.fills, table);
    assert Past([], closeQ) == [];
    ReverseQuoted(levels[..bids], true, table);
    forall l | l in facing
      ensures SoundLevel(l)
    {
      ReverseMember(levels[..bids], l);
    }
    WalkIsSweep(facing, t, Tab(0, 0, q, closeQ), [], q, closeQ, table);
    assert [] + path == path;
  }

  // ---------- What the walk promises about the message ----------

  /** For an order that pulls nothing, the walk and the match trade the same shares. */
  lemma WalkPredicts(levels: seq<Level>, bids: nat, table: Table, id: u32)
    requires bids <= |levels| && SoundLevels(levels) && id in table && !table[id].Pulls()
    ensures var t := table[id]; var s := Sweep(Facing(levels, bids, t.buy), t, t.quantity);
            && Message(SidesOf(levels, bids), table, id).fills == s.fills
            && FillTotal(s.fills) == t.quantity - s.left
  {
    var t := table[id];
    SweepFills(Facing(levels, bids, t.buy), t, t.quantity);
    PruneSoundNone(levels[..bids]);
    PruneSoundNone(levels[bids..]);
  }

  lemma {:induction false} PruneSoundNone(levels: seq<Level>)
    requires SoundLevels(levels)
    ensures Prune(levels, {}) == levels
  {
    if levels != [] {
      assert SoundLevel(levels[0]) && forall l | l in levels[1..] :: l in levels;
      KeepNone(levels[0].orders, {});
      PruneSoundNone(levels[1..]);
    }
  }
}
