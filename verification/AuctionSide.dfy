/** One side of the cross (auction_fill_side of src/server.c): market orders first, then the limits that
reach the clearing price, until the shares run out, every fill settled at that one price. */
module AuctionSide {
  import opened Machine
  import opened Book
  import opened Weights
  import opened Settle
  import opened LegWalk
  import opened Ledger
  import opened ServerOrders
  import opened AuctionStep
  import opened AuctionFill
  import opened AuctionGain

  /** One order's share of the cross, settled at the clearing price. */
  method FillOne(sv: Server, id: u32, shares: nat, clearing: u16, isBuy: bool) returns (left: nat)
    requires sv.Valid() && id in sv.orders
    modifies sv`orders, sv`accounts
    ensures sv.Valid() && SameReserves(old(sv.accounts), sv.accounts)
    ensures var q := Min(old(sv.orders[id].quantity), shares);
            && sv.orders == Less(old(sv.orders), id, q) && left == shares - q
            && Traded(old(sv.accounts), sv.accounts, OneGain(old(sv.orders[id].client), Towards(q, isBuy)), Towards(q, isBuy), clearing)
  {
    hide Traded, TotalCash, TotalShares;
    var o := sv.orders[id];
    var q := Min(o.quantity, shares);
    ghost var was := sv.accounts;
    sv.orders := Less(sv.orders, id, q);
    var x := sv.accounts[o.client];
    if isBuy {
      sv.accounts := Write(sv.accounts, o.client, x.(cash := x.cash - q * clearing, shares := x.shares + q));
    } else {
      sv.accounts := Write(sv.accounts, o.client, x.(cash := x.cash + q * clearing, shares := x.shares - q));
    }
    left := shares - q;
    OneTraded(was, sv.accounts, o.client, q, isBuy, clearing);
  }

  lemma OneTraded(a: seq<Account>, b: seq<Account>, client: nat, q: nat, isBuy: bool, clearing: u16)
    requires client < |a| == |b| && forall c | 0 <= c < |a| && c != client :: b[c] == a[c]
    requires b[client].shares == a[client].shares + Towards(q, isBuy)
    requires b[client].cash == if isBuy then a[client].cash - q * clearing else a[client].cash + q * clearing
    requires TotalShares(b) == TotalShares(a) - a[client].shares + b[client].shares
    requires TotalCash(b) == TotalCash(a) - a[client].cash + b[client].cash
    ensures Traded(a, b, OneGain(client, Towards(q, isBuy)), Towards(q, isBuy), clearing)
  {
    assert (-(q as int)) * clearing == -(q * clearing);
  }

  /** Shares handed out along a line until they run out. */
  method FillLine(sv: Server, line: seq<u32>, shares: nat, clearing: u16, isBuy: bool) returns (left: nat)
    requires sv.Valid() && DistinctIds(line) && forall id | id in line :: id in sv.orders
    modifies sv`orders, sv`accounts
    ensures sv.Valid() && SameReserves(old(sv.accounts), sv.accounts)
    ensures sv.orders == Served(line, old(sv.orders), shares) && left == shares - Min(shares, Waiting(line, old(sv.orders)))
    ensures Traded(old(sv.accounts), sv.accounts, LineGains(line, old(sv.orders), sv.orders, isBuy), Towards(shares - left, isBuy), clearing)
  {
    hide Traded, LineGains, Filled, SameReserves, Served, Waiting, DistinctIds;
    ghost var was := sv.orders;
    left := shares;
    LineStarts(line, sv.orders, sv.accounts, isBuy, clearing);
    for k := 0 to |line|
      invariant sv.Valid() && SameReserves(old(sv.accounts), sv.accounts)
      invariant forall id | id in line :: id in sv.orders && id in was
      invariant forall j | k <= j < |line| :: sv.orders[line[j]] == was[line[j]]
      invariant left <= shares && Served(line[k..], sv.orders, left) == Served(line, was, shares)
      invariant left - Min(left, Waiting(line[k..], sv.orders)) == shares - Min(shares, Waiting(line, was))
      invariant Traded(old(sv.accounts), sv.accounts, LineGains(line[..k], was, sv.orders, isBuy), Towards(shares - left, isBuy), clearing)
    {
      if left == 0 {
        NothingLeft(line[k..], sv.orders);
        LineStops(line, k, was, sv.orders, old(sv.accounts), sv.accounts, isBuy, shares, clearing);
        return;
      }
      ghost var table, had, before := sv.orders, left, sv.accounts;
      LineStep(line, k, table, left);
      GainsNext(line, k, was, table, Min(table[line[k]].quantity, left), isBuy);
      left := FillOne(sv, line[k], left, clearing, isBuy);
      ReservesTwice(old(sv.accounts), before, sv.accounts);
      LineMoves(old(sv.accounts), before, sv.accounts, line, k, was, table, shares, had, left, isBuy, clearing);
    }
    NobodyLeft(line, sv.orders, left);
  }

  lemma NobodyLeft(line: seq<u32>, table: Table, left: nat)
    ensures line[..|line|] == line && Served(line[|line|..], table, left) == table && Waiting(line[|line|..], table) == 0
  {
  }

  /** The limits that cross, in the order they are filled. */
  method LimitLine(orders: Table, sorted: seq<u32>, clearing: u16, isBuy: bool) returns (line: seq<u32>)
    requires forall id | id in sorted :: id in orders
    ensures line == CrossingLimits(if isBuy then Reversed(sorted) else sorted, orders, clearing, isBuy)
  {
    hide Reversed, SoFar, CrossingLimits;
    ghost var best := if isBuy then Reversed(sorted) else sorted;
    line := [];
    BestAt(sorted, isBuy, 0);
    Onward(line, best, orders, clearing, isBuy, 0);
    for k := 0 to |sorted|
      invariant SoFar(line, best, orders, clearing, isBuy, k)
    {
      var id := if isBuy then sorted[|sorted| - 1 - k] else sorted[k];
      BestAt(sorted, isBuy, k);
      Onward(line, best, orders, clearing, isBuy, k);
      if (isBuy && orders[id].price < clearing) || (!isBuy && orders[id].price > clearing) {
        return;
      }
      line := line + [id];
    }
    Onward(line, best, orders, clearing, isBuy, |sorted|);
  }

  /** The line holds the limits that cross among the first k. */
  ghost predicate SoFar(line: seq<u32>, best: seq<u32>, orders: Table, clearing: u16, isBuy: bool, k: nat) {
    k <= |best| && line + CrossingLimits(best[k..], orders, clearing, isBuy) == CrossingLimits(best, orders, clearing, isBuy)
  }

  lemma Onward(line: seq<u32>, best: seq<u32>, orders: Table, clearing: u16, isBuy: bool, k: nat)
    ensures line == [] ==> SoFar(line, best, orders, clearing, isBuy, 0)
    ensures SoFar(line, best, orders, clearing, isBuy, k) ==>
              if k < |best| && Reaches(orders, best[k], clearing, isBuy) then SoFar(line + [best[k]], best, orders, clearing, isBuy, k + 1)
              else line == CrossingLimits(best, orders, clearing, isBuy)
  {
    assert best[0..] == best;
    if SoFar(line, best, orders, clearing, isBuy, k) {
      if k < |best| {
        assert best[k..][1..] == best[k + 1..];
        Joins(line, best[k], CrossingLimits(best[k + 1..], orders, clearing, isBuy));
      }
      assert line + [] == line;
    }
  }

  lemma Joins(line: seq<u32>, id: u32, rest: seq<u32>)
    ensures line + ([id] + rest) == line + [id] + rest
  {
  }

  lemma BestAt(sorted: seq<u32>, isBuy: bool, k: nat)
    requires k <= |sorted|
    ensures var best := if isBuy then Reversed(sorted) else sorted;
            && |best| == |sorted|
            && (k < |sorted| ==> var id := if isBuy then sorted[|sorted| - 1 - k] else sorted[k]; best[k] == id && id in sorted)
  {
  }

  /** Market orders first, by arrival; then limits, best price first, down to the last that crosses.
  sorted climbs in price, so bids are read from its top and asks from its bottom. */
  method FillSide(sv: Server, markets: seq<u32>, sorted: seq<u32>, shares: nat, clearing: u16, isBuy: bool)
    returns (left: nat)
    requires sv.Valid() && (forall id | id in markets + sorted :: id in sv.orders)
    requires DistinctIds(markets + (if isBuy then Reversed(sorted) else sorted))
    modifies sv`orders, sv`accounts
    ensures sv.Valid() && SameReserves(old(sv.accounts), sv.accounts)
    ensures var line := Line(markets, if isBuy then Reversed(sorted) else sorted, old(sv.orders), clearing, isBuy);
            && sv.orders == Served(line, old(sv.orders), shares)
            && left == shares - Min(shares, Waiting(line, old(sv.orders)))
            && Traded(old(sv.accounts), sv.accounts, LineGains(line, old(sv.orders), sv.orders, isBuy), Towards(shares - left, isBuy), clearing)
  {
    hide Served, Waiting, CrossingLimits, DistinctIds, SameTerms, Reversed, Traded, LineGains, SameReserves;
    ghost var best, was, start := if isBuy then Reversed(sorted) else sorted, sv.orders, sv.accounts;
    FrontDistinct(markets, best);
    BestIds(sorted, isBuy);
    left := FillLine(sv, markets, shares, clearing, isBuy);
    ghost var middle, mid, paid := sv.orders, left, sv.accounts;
    ServedTerms(markets, was, shares);
    SameKeys(middle, was);
    SideSplit(markets, best, was, middle, shares, clearing, isBuy);
    ghost var limits := CrossingLimits(best, was, clearing, isBuy);
    if left == 0 {
      NothingLeft(limits, middle);
      SideStops(markets, limits, was, middle, shares, start, paid, isBuy, clearing);
      return;
    }
    var line := LimitLine(sv.orders, sorted, clearing, isBuy);
    left := FillLine(sv, line, left, clearing, isBuy);
    SideMoves(markets, limits, was, middle, sv.orders, shares, mid, left, start, paid, sv.accounts, isBuy, clearing);
    ReservesTwice(start, paid, sv.accounts);
  }

  // ---------- A line: the facts ----------

  lemma LineStarts(line: seq<u32>, table: Table, a: seq<Account>, isBuy: bool, clearing: u16)
    ensures line[0..] == line && SameReserves(a, a)
    ensures Traded(a, a, LineGains(line[..0], table, table, isBuy), Towards(0, isBuy), clearing)
  {
    TradedNothing(a, LineGains(line[..0], table, table, isBuy), clearing);
  }

  /** One order of the line served. */
  lemma LineStep(line: seq<u32>, k: nat, table: Table, left: nat)
    requires DistinctIds(line) && k < |line| && left > 0 && forall id | id in line :: id in table
    ensures var q := Min(table[line[k]].quantity, left); var less := Less(table, line[k], q);
            && Served(line[k..], table, left) == Served(line[k + 1..], less, left - q)
            && left - Min(left, Waiting(line[k..], table)) == left - q - Min(left - q, Waiting(line[k + 1..], less))
            && (forall j | k < j < |line| :: line[j] in less && less[line[j]] == table[line[j]])
            && forall id | id in line :: id in less
  {
    assert line[k..][0] == line[k] && line[k..][1..] == line[k + 1..] && line[k] in line;
    WaitingApart(line[k + 1..], table, line[k], Min(table[line[k]].quantity, left));
  }

  lemma LineMoves(start: seq<Account>, before: seq<Account>, now: seq<Account>, line: seq<u32>, k: nat, was: Table,
                  table: Table,
                  shares: nat, had: nat, left: nat, isBuy: bool, clearing: u16)
    requires k < |line| && line[k] in was && line[k] in table && left <= had <= shares
    requires var q := had - left;
             var gains, next := LineGains(line[..k], was, table, isBuy), LineGains(line[..k + 1], was, Less(table, line[k], q), isBuy);
             && Traded(start, before, gains, Towards(shares - had, isBuy), clearing)
             && Traded(before, now, OneGain(was[line[k]].client, Towards(q, isBuy)), Towards(q, isBuy), clearing)
             && forall c: nat :: next(c) == gains(c) + if c == was[line[k]].client then Towards(q, isBuy) else 0
    ensures Traded(start, now, LineGains(line[..k + 1], was, Less(table, line[k], had - left), isBuy), Towards(shares - left, isBuy), clearing)
  {
    hide Traded, LineGains;
    var q := had - left;
    TradedTwice(start, before, now, LineGains(line[..k], was, table, isBuy), OneGain(was[line[k]].client, Towards(q, isBuy)),
                 LineGains(line[..k + 1], was, Less(table, line[k], q), isBuy), Towards(shares - had, isBuy), Towards(q, isBuy), clearing);
  }

  /** The shares ran out before the k-th order: the rest of the line stays as it is. */
  lemma LineStops(line: seq<u32>, k: nat, was: Table, now: Table, a: seq<Account>, b: seq<Account>, isBuy: bool,
                  shares: nat, clearing: u16)
    requires k <= |line| && (forall id | id in line :: id in was && id in now) && forall j | k <= j < |line| :: now[line[j]] == was[line[j]]
    requires Traded(a, b, LineGains(line[..k], was, now, isBuy), Towards(shares, isBuy), clearing)
    ensures Traded(a, b, LineGains(line, was, now, isBuy), Towards(shares, isBuy), clearing)
  {
    forall c: nat
      ensures Filled(c, line, was, now) == Filled(c, line[..k], was, now)
    {
      assert line == line[..k] + line[k..];
      FilledConcat(c, line[..k], line[k..], was, now);
      FilledNothing(c, line[k..], was, now);
    }
    TradedSame(a, b, LineGains(line[..k], was, now, isBuy), LineGains(line, was, now, isBuy), Towards(shares, isBuy),
               clearing);
  }

  lemma ReservesTwice(a: seq<Account>, b: seq<Account>, c: seq<Account>)
    requires SameReserves(a, b) && SameReserves(b, c)
    ensures SameReserves(a, c)
  {
  }

  // ---------- A side: the facts ----------

  /** What a side's orders gained in all is what its markets gained and then its limits. */
  lemma SideGains(c: nat, markets: seq<u32>, limits: seq<u32>, was: Table, middle: Table, shares: nat, left: nat)
    requires DistinctIds(markets + limits) && middle == Served(markets, was, shares)
    requires forall id | id in markets + limits :: id in was
    ensures var now := Served(limits, middle, left);
            Filled(c, markets + limits, was, now) == Filled(c, markets, was, middle) + Filled(c, limits, middle, now)
  {
    hide Served, DistinctIds;
    var now := Served(limits, middle, left);
    ServedTerms(markets, was, shares);
    ServedTerms(limits, middle, left);
    FilledConcat(c, markets, limits, was, now);
    forall id | id in markets
      ensures id in was && id in middle && id in now && now[id] == middle[id]
    {
      ApartIds(markets, limits, id);
      assert id in markets + limits;
      ServedApart(limits, middle, left, id);
    }
    forall id | id in limits
      ensures id in was && id in middle && id in now && middle[id] == was[id]
    {
      ApartIds(markets, limits, id);
      assert id in markets + limits;
      ServedApart(markets, was, shares, id);
    }
    FilledSame(c, markets, was, middle, was, now);
    FilledSame(c, limits, was, now, middle, now);
  }

  lemma ApartIds(a: seq<u32>, b: seq<u32>, id: u32)
    requires DistinctIds(a + b)
    ensures !(id in a && id in b)
  {
    assert forall i | 0 <= i < |a| :: (a + b)[i] == a[i];
    assert forall j | 0 <= j < |b| :: (a + b)[|a| + j] == b[j];
  }

  lemma SideMoves(markets: seq<u32>, limits: seq<u32>, was: Table, middle: Table, now: Table, shares: nat, mid: nat,
                  left: nat,
                  start: seq<Account>, paid: seq<Account>, end: seq<Account>, isBuy: bool, clearing: u16)
    requires DistinctIds(markets + limits) && (forall id | id in markets + limits :: id in was)
    requires middle == Served(markets, was, shares) && now == Served(limits, middle, mid) && left <= mid <= shares
    requires Traded(start, paid, LineGains(markets, was, middle, isBuy), Towards(shares - mid, isBuy), clearing)
    requires Traded(paid, end, LineGains(limits, middle, now, isBuy), Towards(mid - left, isBuy), clearing)
    ensures Traded(start, end, LineGains(markets + limits, was, now, isBuy), Towards(shares - left, isBuy), clearing)
  {
    hide Traded, Served, DistinctIds, Filled;
    forall c: nat
      ensures Filled(c, markets + limits, was, now) == Filled(c, markets, was, middle) + Filled(c, limits, middle, now)
    {
      SideGains(c, markets, limits, was, middle, shares, mid);
    }
    TradedTwice(start, paid, end, LineGains(markets, was, middle, isBuy), LineGains(limits, middle, now, isBuy),
                 LineGains(markets + limits, was, now, isBuy), Towards(shares - mid, isBuy), Towards(mid - left, isBuy), clearing);
  }

  /** The markets took it all. */
  lemma SideStops(markets: seq<u32>, limits: seq<u32>, was: Table, middle: Table, shares: nat, start: seq<Account>,
                  paid: seq<Account>,
                  isBuy: bool, clearing: u16)
    requires DistinctIds(markets + limits) && (forall id | id in markets + limits :: id in was)
    requires middle == Served(markets, was, shares)
    requires Traded(start, paid, LineGains(markets, was, middle, isBuy), Towards(shares, isBuy), clearing)
    ensures Traded(start, paid, LineGains(markets + limits, was, middle, isBuy), Towards(shares, isBuy), clearing)
  {
    hide Traded, DistinctIds;
    NothingLeft(limits, middle);
    forall c: nat
      ensures Filled(c, limits, middle, middle) == 0
    {
      FilledNothing(c, limits, middle, middle);
    }
    TradedNothing(paid, LineGains(limits, middle, middle, isBuy), clearing);
    SideMoves(markets, limits, was, middle, middle, shares, 0, 0, start, paid, paid, isBuy, clearing);
  }

  lemma FrontDistinct(a: seq<u32>, b: seq<u32>)
    requires DistinctIds(a + b)
    ensures DistinctIds(a)
  {
    assert forall i | 0 <= i < |a| :: (a + b)[i] == a[i];
  }

  lemma SameKeys(now: Table, was: Table)
    requires SameTerms(now, was)
    ensures now.Keys == was.Keys
  {
  }

  lemma BestIds(sorted: seq<u32>, isBuy: bool)
    ensures forall id | id in (if isBuy then Reversed(sorted) else sorted) :: id in sorted
  {
  }

  /** Nothing to hand out changes nothing. */
  lemma NothingLeft(line: seq<u32>, table: Table)
    ensures Served(line, table, 0) == table
  {
  }

  /** Filling the markets first leaves the crossing limits the same, and the line is the two in turn. */
  lemma SideSplit(markets: seq<u32>, best: seq<u32>, was: Table, middle: Table, shares: nat, clearing: u16, isBuy: bool)
    requires middle == Served(markets, was, shares) && SameTerms(middle, was) && DistinctIds(markets + best)
    requires forall id | id in best :: id in was
    ensures var limits := CrossingLimits(best, was, clearing, isBuy);
            && CrossingLimits(best, middle, clearing, isBuy) == limits
            && DistinctIds(markets + limits) && DistinctIds(limits) && (forall id | id in limits :: id in was)
            && Waiting(limits, middle) == Waiting(limits, was)
            && Waiting(markets + limits, was) == Waiting(markets, was) + Waiting(limits, was)
            && Served(markets + limits, was, shares) == Served(limits, middle, shares - Min(shares, Waiting(markets, was)))
  {
    var limits := CrossingLimits(best, was, clearing, isBuy);
    CrossingSame(best, was, middle, clearing, isBuy);
    CrossingPrefix(best, was, clearing, isBuy);
    assert markets + limits == (markets + best)[..|markets| + |limits|];
    assert DistinctIds(markets + limits);
    assert forall i | 0 <= i < |limits| :: limits[i] == (markets + limits)[|markets| + i];
    ServedConcat(markets, limits, was, shares);
    WaitingConcat(markets, limits, was);
    WaitingServed(limits, markets, was, shares);
  }

  lemma {:induction false} CrossingSame(best: seq<u32>, was: Table, now: Table, clearing: u16, isBuy: bool)
    requires SameTerms(now, was)
    ensures CrossingLimits(best, now, clearing, isBuy) == CrossingLimits(best, was, clearing, isBuy)
  {
    if best != [] {
      CrossingSame(best[1..], was, now, clearing, isBuy);
    }
  }

  /** Serving one line leaves a line apart from it waiting as before. */
  lemma {:induction false} WaitingServed(line: seq<u32>, other: seq<u32>, table: Table, shares: nat)
    requires DistinctIds(other + line) && forall id | id in line :: id in table
    ensures Waiting(line, Served(other, table, shares)) == Waiting(line, table)
  {
    if line != [] {
      assert line[0] !in other by {
        assert (other + line)[|other|] == line[0];
        assert forall i | 0 <= i < |other| :: (other + line)[i] == other[i];
      }
      ServedApart(other, table, shares, line[0]);
      assert DistinctIds(other + line[1..]) by {
        assert forall i | 0 <= i < |other + line[1..]| :: (other + line[1..])[i] == (other + line)[if i < |other| then i else i + 1];
      }
      WaitingServed(line[1..], other, table, shares);
    }
  }
}
