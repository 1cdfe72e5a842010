/** server_order of src/server.c for plain adds, cancels, replaces and pairs: prechecks, the book
rewrite, the fill loop, reserves and retirement, on one server object. */
module Desk {
  import opened Machine
  import opened Book
  import opened BookFacts
  import opened BookRuns
  import opened Snapshot
  import opened SnapshotWriter
  import opened Ranges
  import opened Rewrite
  import opened FirstLeg
  import opened Canrep
  import opened Weights
  import opened Settle
  import opened LegWalk
  import opened Ledger

  datatype Reason =
    | NoReason | NotYourOrder | OrderAlreadyDone | UnknownOrder
    | InvalidQuantity | InvalidPrice | BadQualifier | FokKilled | NoBuyingPower | NoShares | CrossedPair
    | MarketClosed | OffsetOnly

  // ---------- Reserves ----------

  /** What else ties up a client's money and shares: its orders parked for a cross. */
  datatype Hold = Hold(cash: int, shares: int)

  /** By client. */
  type Holds = nat -> Hold

  /** Nobody has anything parked. */
  function NoHolds(): Holds {
    (c: nat) => Hold(0, 0)
  }

  /** Book, order table and reserves tell the same story. */
  ghost predicate InStep(s: Sides, orders: Table, accounts: seq<Account>, held: Holds) {
    SoundSides(s) && Agrees(s, orders) && ReservesOk(accounts, s, orders, held)
  }

  /** Each client's reserves are what its resting orders tie up, price times quantity over its bids
  in cash and quantity over its asks in shares, and what is held besides, as 32-bit fields. */
  ghost predicate ReservesOk(a: seq<Account>, s: Sides, table: Table, held: Holds) {
    forall c | 0 <= c < |a| :: ReserveOk(a[c], c, s, table, held)
  }

  ghost predicate ReserveOk(x: Account, c: nat, s: Sides, table: Table, held: Holds) {
    && x.reservedCash == Low32(WeighSides(s, BidValue(c, table)) + held(c).cash)
    && x.reservedShares == Low32(WeighSides(s, AskShares(c, table)) + held(c).shares)
  }

  /** The fields are the totals themselves exactly as long as the totals fit them, */
  lemma ReserveExact(x: Account, c: nat, s: Sides, table: Table, held: Holds)
    requires ReserveOk(x, c, s, table, held)
    ensures x.reservedCash == WeighSides(s, BidValue(c, table)) + held(c).cash
            <==> 0 <= WeighSides(s, BidValue(c, table)) + held(c).cash < 0x1_0000_0000
    ensures x.reservedShares == WeighSides(s, AskShares(c, table)) + held(c).shares
            <==> 0 <= WeighSides(s, AskShares(c, table)) + held(c).shares < 0x1_0000_0000
  {
  }

  /** which two resting bids of 65535 shares at 65535 do not. */
  lemma ReserveWraps()
    ensures var o := Order(0, 0xFFFF, 0xFFFF, true, false, false, false, false, false, 0);
            var s := Sides([At(0xFFFF, [Entry(1, 0xFFFF), Entry(2, 0xFFFF)])], []);
            var table: Table := map[1 := o, 2 := o];
            && WeighSides(s, BidValue(0, table)) == 2 * 0xFFFF * 0xFFFF
            && forall x | ReserveOk(x, 0, s, table, NoHolds()) :: x.reservedCash == 2 * 0xFFFF * 0xFFFF - 0x1_0000_0000
  {
    hide Low32;
    var o := Order(0, 0xFFFF, 0xFFFF, true, false, false, false, false, false, 0);
    var table: Table := map[1 := o, 2 := o];
    TwoEntriesWeigh(1, 2, 0xFFFF, 0xFFFF, BidValue(0, table));
    Low32IsU32(2 * 0xFFFF * 0xFFFF);
  }

  lemma TwoEntriesWeigh(a: u32, b: u32, q: u16, price: u16, w: Weight)
    ensures WeighSides(Sides([At(price, [Entry(a, q), Entry(b, q)])], []), w) == q * w(a) + q * w(b)
  {
    var orders := [Entry(a, q), Entry(b, q)];
    assert orders[1..] == [Entry(b, q)] && orders[1..][1..] == [];
    assert Weigh(orders, w) == q * w(a) + (q * w(b) + Weigh([], w));
    assert [At(price, orders)][1..] == [];
    assert WeighLevels([At(price, orders)], w) == Weigh(orders, w) + WeighLevels([], w);
  }

  lemma WeighSame(s: Sides, a: Weight, b: Weight)
    requires forall x: u32 :: a(x) == b(x)
    ensures WeighSides(s, a) == WeighSides(s, b)
  {
    SameLevelWeights(s.bids, a, b);
    SameLevelWeights(s.asks, a, b);
  }

  lemma ReserveSame(x: Account, c: nat, s: Sides, was: Table, now: Table, held: Holds)
    requires SameTerms(now, was) && ReserveOk(x, c, s, was, held)
    ensures ReserveOk(x, c, s, now, held)
  {
    WeighSame(s, BidValue(c, was), BidValue(c, now));
    WeighSame(s, AskShares(c, was), AskShares(c, now));
  }

  // ---------- Moving reserves ----------

  /** d shares of an order more (or fewer) are reserved, in the pool of its side, for its client. */
  ghost predicate ReservedBy(a: seq<Account>, b: seq<Account>, table: Table, id: u32, d: int) {
    && |b| == |a|
    && (forall c | 0 <= c < |a| :: Shift(a[c], b[c], d * BidValue(c, table)(id), d * AskShares(c, table)(id)))
    && OnlyReserves(a, b)
  }

  ghost predicate OnlyReserves(a: seq<Account>, b: seq<Account>) {
    && |b| == |a|
    && (forall c | 0 <= c < |a| :: b[c].cash == a[c].cash && b[c].shares == a[c].shares)
    && TotalCash(b) == TotalCash(a) && TotalShares(b) == TotalShares(a)
  }

  method Reserve(a: seq<Account>, table: Table, id: u32, q: nat) returns (b: seq<Account>)
    requires id in table && table[id].client < |a|
    ensures ReservedBy(a, b, table, id, q)
  {
    var o := table[id];
    var x := a[o.client];
    if o.buy {
      x := x.(reservedCash := Low32(x.reservedCash + q * o.price));
    } else {
      x := x.(reservedShares := Low32(x.reservedShares + q));
    }
    b := Write(a, o.client, x);
    ReserveShifts(a, b, table, id, q, q);
  }

  lemma Negated(a: int, b: int)
    ensures -a * b == -(a * b)
  {
  }

  /** Give back what an order tied up. */
  method Unreserve(a: seq<Account>, table: Table, id: u32, q: nat) returns (b: seq<Account>)
    requires id in table && table[id].client < |a|
    ensures ReservedBy(a, b, table, id, -(q as int))
  {
    var o := table[id];
    var x := a[o.client];
    if o.buy {
      x := x.(reservedCash := Low32(x.reservedCash - q * o.price));
    } else {
      x := x.(reservedShares := Low32(x.reservedShares - q));
    }
    b := Write(a, o.client, x);
    Negated(q, o.price);
    ReserveShifts(a, b, table, id, q, -(q as int));
  }

  lemma ReserveShifts(a: seq<Account>, b: seq<Account>, table: Table, id: u32, q: nat, d: int)
    requires id in table && table[id].client < |a| == |b| && (d == q || d == -(q as int))
    requires forall c | 0 <= c < |a| && c != table[id].client :: b[c] == a[c]
    requires var o, x, y := table[id], a[table[id].client], b[table[id].client];
             y == if o.buy then x.(reservedCash := Low32(x.reservedCash + d * o.price)) else x.(reservedShares := Low32(x.reservedShares + d))
    ensures forall c | 0 <= c < |a| :: Shift(a[c], b[c], d * BidValue(c, table)(id), d * AskShares(c, table)(id))
  {
    forall c | 0 <= c < |a|
      ensures Shift(a[c], b[c], d * BidValue(c, table)(id), d * AskShares(c, table)(id))
    {
      ShiftNone(a[c]);
      assert d * 0 == 0 && d * 1 == d;
    }
  }

  lemma ReservedTotals(a: seq<Account>, b: seq<Account>, table: Table, id: u32, d: int)
    requires ReservedBy(a, b, table, id, d)
    ensures |b| == |a| && TotalCash(b) == TotalCash(a) && TotalShares(b) == TotalShares(a)
  {
  }

  lemma ReservedNothing(a: seq<Account>, table: Table, id: u32)
    ensures ReservedBy(a, a, table, id, 0)
  {
    forall c | 0 <= c < |a|
      ensures Shift(a[c], a[c], 0 * BidValue(c, table)(id), 0 * AskShares(c, table)(id))
    {
      ShiftNone(a[c]);
    }
  }

  lemma ReservedTerms(a: seq<Account>, b: seq<Account>, was: Table, now: Table, id: u32, d: int)
    requires ReservedBy(a, b, now, id, d) && SameTerms(now, was)
    ensures ReservedBy(a, b, was, id, d)
  {
    forall c | 0 <= c < |a|
      ensures Shift(a[c], b[c], d * BidValue(c, was)(id), d * AskShares(c, was)(id))
    {
      assert BidValue(c, was)(id) == BidValue(c, now)(id) && AskShares(c, was)(id) == AskShares(c, now)(id);
    }
  }

  /** A reserve that matched the book before, moved as the book moved, matches it after. */
  lemma ReserveFollows(was: Account, now: Account, c: nat, before: Sides, after: Sides, table: Table, cash: int,
                       shares: int, held: Holds)
    requires ReserveOk(was, c, before, table, held) && Shift(was, now, cash, shares)
    requires WeighSides(after, BidValue(c, table)) == WeighSides(before, BidValue(c, table)) + cash
    requires WeighSides(after, AskShares(c, table)) == WeighSides(before, AskShares(c, table)) + shares
    ensures ReserveOk(now, c, after, table, held)
  {
    ReserveMoves(was, now, c, before, after, table, cash, shares, held, held);
  }

  /** The same when what is held besides moves too. */
  lemma ReserveMoves(was: Account, now: Account, c: nat, before: Sides, after: Sides, table: Table, cash: int,
                     shares: int, held: Holds, next: Holds)
    requires ReserveOk(was, c, before, table, held) && Shift(was, now, cash, shares)
    requires WeighSides(after, BidValue(c, table)) + next(c).cash == WeighSides(before, BidValue(c, table)) + held(c).cash + cash
    requires WeighSides(after, AskShares(c, table)) + next(c).shares == WeighSides(before, AskShares(c, table)) + held(c).shares + shares
    ensures ReserveOk(now, c, after, table, next)
  {
    Low32Add(WeighSides(before, BidValue(c, table)) + held(c).cash, cash);
    Low32Add(WeighSides(before, AskShares(c, table)) + held(c).shares, shares);
  }

  /** A client only ever pulls its own orders. */
  ghost predicate OwnTarget(table: Table, id: u32)
    requires id in table && HasTarget(table[id], table)
  {
    var o := table[id];
    o.Pulls() ==> table[o.otherId].client == o.client
  }

  // ---------- A cancel and a replacement at once ----------

  /** Shares a message leaves resting that nothing is reserved for: those of a message that is a cancel
  as well as a replacement, which rests as the one and is not reserved as the other. */
  function Bare(o: Order, fills: seq<Fill>): nat {
    if o.canRep && o.cancel && LeftResting(o, fills) > 0 then LeftResting(o, fills) else 0
  }

  /** What is held besides, less what rests bare. */
  function Behind(held: Holds, table: Table, id: u32, fills: seq<Fill>): Holds {
    if id in table && Bare(table[id], fills) > 0 then
      (c: nat) => Hold(held(c).cash - Bare(table[id], fills) * BidValue(c, table)(id), held(c).shares - Bare(table[id], fills) * AskShares(c, table)(id))
    else held
  }

  /** Two amounts less than 2^32 apart read the same in 32 bits if and only if they are the same. */
  lemma {:induction false} Low32Apart(x: int, d: nat)
    requires d < 0x1_0000_0000
    ensures Low32(x - d) == Low32(x) <==> d == 0
  {
    Low32IsU32(x);
    Low32IsU32(x - d);
  }

  /** Then the reserves match the book if and only if nothing of it rests bare. */
  lemma BareExactly(a: seq<Account>, s: Sides, table: Table, now: Table, held: Holds, id: u32, fills: seq<Fill>)
    requires ReservesOk(a, s, now, Behind(held, table, id, fills)) && SameTerms(now, table)
    requires id in table && table[id].client < |a| && (table[id].buy ==> table[id].price > 0)
    requires Bare(table[id], fills) <= 0xFFFF
    ensures ReservesOk(a, s, now, held) <==> Bare(table[id], fills) == 0
  {
    hide Low32;
    var o, c, q := table[id], table[id].client, Bare(table[id], fills);
    if q > 0 {
      assert ReserveOk(a[c], c, s, now, Behind(held, table, id, fills));
      BareProduct(q, o.price);
      Low32Apart(WeighSides(s, BidValue(c, now)) + held(c).cash, if o.buy then q * o.price else 0);
      Low32Apart(WeighSides(s, AskShares(c, now)) + held(c).shares, if o.buy then 0 else q);
      assert ReservesOk(a, s, now, held) ==> ReserveOk(a[c], c, s, now, held);
    }
  }

  lemma BareProduct(q: nat, price: u16)
    requires q <= 0xFFFF
    ensures q * price < 0x1_0000_0000 && (q > 0 && price > 0 ==> q * price > 0)
  {
  }
}
