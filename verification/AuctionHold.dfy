/** What a parked order ties up (auction_hold and auction_release of src/server.c). A market order has
no price, so it is held at the mark of the moment and given back at the mark of another. */
module AuctionHold {
  import opened Machine
  import opened Book
  import opened BookRuns
  import opened Weights
  import opened Settle
  import opened Ledger
  import opened Desk
  import opened AuctionFill

  function HeldPrice(o: Order, mark: u16): u16 {
    if o.market then mark else o.price
  }

  /** One order's hold, as its client sees it. */
  function OneHold(c: nat, id: u32, table: Table, mark: u16): Hold {
    if id !in table || table[id].client != c then Hold(0, 0)
    else if table[id].buy then Hold(table[id].quantity * HeldPrice(table[id], mark), 0)
    else Hold(0, table[id].quantity)
  }

  function Plus(a: Hold, b: Hold): Hold {
    Hold(a.cash + b.cash, a.shares + b.shares)
  }

  /** Everything a client has parked. */
  function Tied(c: nat, line: seq<u32>, table: Table, mark: u16): Hold {
    if line == [] then Hold(0, 0)
    else Plus(Tied(c, line[..|line| - 1], table, mark), OneHold(c, line[|line| - 1], table, mark))
  }

  lemma TiedOne(c: nat, id: u32, table: Table, mark: u16)
    ensures Tied(c, [id], table, mark) == OneHold(c, id, table, mark)
  {
    assert [id][..0] == [];
  }

  /** One more order parked. */
  lemma TiedMore(c: nat, line: seq<u32>, id: u32, table: Table, mark: u16)
    ensures Tied(c, line + [id], table, mark) == Plus(Tied(c, line, table, mark), OneHold(c, id, table, mark))
  {
    assert (line + [id])[..|line|] == line;
  }

  /** Only the parked orders themselves count. */
  lemma {:induction false} TiedSame(c: nat, line: seq<u32>, was: Table, now: Table, mark: u16)
    requires forall id | id in line :: id in was && id in now && now[id] == was[id]
    ensures Tied(c, line, now, mark) == Tied(c, line, was, mark)
  {
    if line != [] {
      assert line[|line| - 1] in line && forall id | id in line[..|line| - 1] :: id in line;
      TiedSame(c, line[..|line| - 1], was, now, mark);
    }
  }

  /** Emptying a parked order takes its hold out of the line's. */
  lemma {:induction false} TiedLess(c: nat, line: seq<u32>, table: Table, id: u32, mark: u16)
    requires DistinctIds(line) && id in table && forall x | x in line :: x in table
    ensures Tied(c, line, table, mark)
            == Plus(Tied(c, line, Emptied(table, id), mark), if id in line then OneHold(c, id, table, mark) else Hold(0, 0))
  {
    hide OneHold;
    if line != [] {
      var n := |line| - 1;
      assert line == line[..n] + [line[n]];
      TiedLess(c, line[..n], table, id, mark);
      OneEmptied(c, line[n], table, id, mark);
    }
  }

  lemma OneEmptied(c: nat, x: u32, table: Table, id: u32, mark: u16)
    requires id in table && x in table
    ensures OneHold(c, x, Emptied(table, id), mark) == if x == id then Hold(0, 0) else OneHold(c, x, table, mark)
  {
  }

  /** The reserves moved by these holds, forwards or back, and nothing else did. */
  ghost predicate Moves(a: seq<Account>, b: seq<Account>, d: Holds) {
    OnlyReserves(a, b) && forall c | 0 <= c < |a| :: Shift(a[c], b[c], d(c).cash, d(c).shares)
  }

  /** The holds of a line, given back. */
  function Freed(line: seq<u32>, table: Table, mark: u16): Holds {
    (c: nat) => Hold(-Tied(c, line, table, mark).cash, -Tied(c, line, table, mark).shares)
  }

  function OneHeld(id: u32, table: Table, mark: u16): Holds {
    (c: nat) => OneHold(c, id, table, mark)
  }

  function OneFreed(id: u32, table: Table, mark: u16): Holds {
    (c: nat) => Hold(-OneHold(c, id, table, mark).cash, -OneHold(c, id, table, mark).shares)
  }

  /** auction_hold. */
  method HoldOne(a: seq<Account>, id: u32, table: Table, mark: u16) returns (b: seq<Account>)
    requires id in table && table[id].client < |a|
    ensures Moves(a, b, OneHeld(id, table, mark))
  {
    var o := table[id];
    var x := a[o.client];
    if o.buy {
      x := x.(reservedCash := Low32(x.reservedCash + o.quantity * HeldPrice(o, mark)));
    } else {
      x := x.(reservedShares := Low32(x.reservedShares + o.quantity));
    }
    b := Write(a, o.client, x);
    OthersStay(a, b, o.client);
  }

  /** auction_release. */
  method FreeOne(a: seq<Account>, id: u32, table: Table, mark: u16) returns (b: seq<Account>)
    requires id in table && table[id].client < |a|
    ensures Moves(a, b, OneFreed(id, table, mark))
  {
    var o := table[id];
    var x := a[o.client];
    if o.buy {
      x := x.(reservedCash := Low32(x.reservedCash - o.quantity * HeldPrice(o, mark)));
    } else {
      x := x.(reservedShares := Low32(x.reservedShares - o.quantity));
    }
    b := Write(a, o.client, x);
    OthersStay(a, b, o.client);
  }

  lemma OthersStay(a: seq<Account>, b: seq<Account>, i: nat)
    requires |b| == |a| && forall c | 0 <= c < |a| && c != i :: b[c] == a[c]
    ensures forall c | 0 <= c < |a| && c != i :: Shift(a[c], b[c], 0, 0)
  {
    forall c | 0 <= c < |a| && c != i
      ensures Shift(a[c], b[c], 0, 0)
    {
      ShiftNone(a[c]);
    }
  }

  lemma NothingMoves(a: seq<Account>, d: Holds)
    requires forall c: nat :: d(c) == Hold(0, 0)
    ensures Moves(a, a, d)
  {
    forall c | 0 <= c < |a|
      ensures Shift(a[c], a[c], 0, 0)
    {
      ShiftNone(a[c]);
    }
  }

  lemma MovesTwice(a: seq<Account>, b: seq<Account>, e: seq<Account>, x: Holds, y: Holds, z: Holds)
    requires Moves(a, b, x) && Moves(b, e, y) && forall c: nat :: z(c) == Plus(x(c), y(c))
    ensures Moves(a, e, z)
  {
    forall c | 0 <= c < |a|
      ensures Shift(a[c], e[c], z(c).cash, z(c).shares)
    {
      ShiftTwice(a[c], b[c], e[c], x(c).cash, x(c).shares, y(c).cash, y(c).shares);
    }
  }

  /** One more order's hold given back. */
  lemma FreedNext(a: seq<Account>, b: seq<Account>, e: seq<Account>, line: seq<u32>, i: nat, table: Table, mark: u16)
    requires i < |line| && Moves(a, b, Freed(line[..i], table, mark)) && Moves(b, e, OneFreed(line[i], table, mark))
    ensures Moves(a, e, Freed(line[..i + 1], table, mark))
  {
    assert line[..i + 1][..i] == line[..i];
    MovesTwice(a, b, e, Freed(line[..i], table, mark), OneFreed(line[i], table, mark), Freed(line[..i + 1], table, mark));
  }

  /** An order with no shares holds nothing. */
  lemma FreedNothing(a: seq<Account>, b: seq<Account>, line: seq<u32>, i: nat, table: Table, mark: u16)
    requires i < |line| && Moves(a, b, Freed(line[..i], table, mark))
    requires line[i] in table && table[line[i]].quantity == 0
    ensures Moves(a, b, Freed(line[..i + 1], table, mark))
  {
    NothingMoves(b, OneFreed(line[i], table, mark));
    FreedNext(a, b, b, line, i, table, mark);
  }

  /** Reserves that moved by these holds match the book with the holds moved by as much. */
  lemma MovedInStep(s: Sides, orders: Table, a: seq<Account>, b: seq<Account>, d: Holds, held: Holds, now: Holds)
    requires InStep(s, orders, a, held) && Moves(a, b, d) && forall c: nat :: now(c) == Plus(held(c), d(c))
    ensures InStep(s, orders, b, now)
  {
    forall c | 0 <= c < |b|
      ensures ReserveOk(b[c], c, s, orders, now)
    {
      assert ReserveOk(a[c], c, s, orders, held);
      Low32Add(WeighSides(s, BidValue(c, orders)) + held(c).cash, d(c).cash);
      Low32Add(WeighSides(s, AskShares(c, orders)) + held(c).shares, d(c).shares);
    }
  }

  // ---------- The mark moves in between ----------

  /** The shares a client's parked market bids wait for. */
  function MarketBids(c: nat, line: seq<u32>, table: Table): nat {
    if line == [] then 0 else MarketBids(c, line[..|line| - 1], table) + OneMarketBid(c, line[|line| - 1], table)
  }

  function OneMarketBid(c: nat, id: u32, table: Table): nat {
    if id in table && table[id].client == c && table[id].buy && table[id].market then table[id].quantity else 0
  }

  lemma OneHoldMoves(c: nat, id: u32, table: Table, was: u16, now: u16)
    ensures OneHold(c, id, table, now).shares == OneHold(c, id, table, was).shares
    ensures OneHold(c, id, table, now).cash - OneHold(c, id, table, was).cash == OneMarketBid(c, id, table) * (now as int - was)
  {
  }

  lemma {:induction false} HoldMoves(c: nat, line: seq<u32>, table: Table, was: u16, now: u16)
    ensures Tied(c, line, table, now).shares == Tied(c, line, table, was).shares
    ensures Tied(c, line, table, now).cash - Tied(c, line, table, was).cash == MarketBids(c, line, table) * (now as int - was)
  {
    hide OneHold, OneMarketBid;
    if line != [] {
      HoldMoves(c, line[..|line| - 1], table, was, now);
      OneHoldMoves(c, line[|line| - 1], table, was, now);
      DistributeInt(MarketBids(c, line[..|line| - 1], table), OneMarketBid(c, line[|line| - 1], table), now as int - was);
    }
  }

  lemma DistributeInt(a: nat, b: nat, n: int)
    ensures (a + b) * n == a * n + b * n
  {
  }

  /** What the cross gives back is what parking reserved if and only if the mark is the same or the
  client has no market bid parked. */
  lemma HoldReturns(c: nat, line: seq<u32>, table: Table, was: u16, now: u16)
    ensures Tied(c, line, table, now) == Tied(c, line, table, was) <==> now == was || MarketBids(c, line, table) == 0
  {
    HoldMoves(c, line, table, was, now);
  }

  /** A market bid for 100 parked at a mark of 50 and given back at 60 takes 1000 more than it put in. */
  lemma HoldLeaks()
    ensures var table: Table := map[7 := Order(0, 0, 100, true, true, false, false, false, false, 0)];
            Tied(0, [7], table, 50) == Hold(5000, 0) && Tied(0, [7], table, 60) == Hold(6000, 0)
  {
    hide Tied;
    var table: Table := map[7 := Order(0, 0, 100, true, true, false, false, false, false, 0)];
    TiedOne(0, 7, table, 50);
    TiedOne(0, 7, table, 60);
  }
}
