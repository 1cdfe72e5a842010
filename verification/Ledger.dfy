/** Client accounts: what one fill moves, what the fill loop moves in all, and what never changes
(the fill loop of server_order in src/server.c). */
module Ledger {
  import opened Machine
  import opened Book
  import opened Weights
  import opened Settle
  import opened LegWalk

  // include/constants.h: the aggressor pays a fee, the resting maker earns a rebate
  const TAKER_FEE_MILLS := 3
  const MAKER_REBATE_MILLS := 2
  const MILLS_PER_DOLLAR := 1000

  /** The fields of ClientSettings that settling touches. */
  datatype Account = Account(cash: int, reservedCash: u32, shares: int, reservedShares: u32)

  function TakerFee(q: nat): nat {
    q * TAKER_FEE_MILLS / MILLS_PER_DOLLAR
  }

  function MakerRebate(q: nat): nat {
    q * MAKER_REBATE_MILLS / MILLS_PER_DOLLAR
  }

  /** Three mills a share from the taker and two to the maker, in whole dollars rounded down: the exchange
  never pays out more than it takes in. */
  lemma FeeRates(q: nat)
    ensures 1000 * TakerFee(q) <= 3 * q < 1000 * TakerFee(q) + 1000
    ensures 1000 * MakerRebate(q) <= 2 * q < 1000 * MakerRebate(q) + 1000
    ensures MakerRebate(q) <= TakerFee(q)
  {
  }

  // ---------- Totals ----------

  function TotalCash(a: seq<Account>): int {
    if a == [] then 0 else a[0].cash + TotalCash(a[1..])
  }

  function TotalShares(a: seq<Account>): int {
    if a == [] then 0 else a[0].shares + TotalShares(a[1..])
  }

  lemma {:induction false} TotalsSet(a: seq<Account>, i: nat, x: Account)
    requires i < |a|
    ensures TotalCash(a[i := x]) == TotalCash(a) - a[i].cash + x.cash
    ensures TotalShares(a[i := x]) == TotalShares(a) - a[i].shares + x.shares
  {
    if i == 0 {
      assert a[0 := x][1..] == a[1..];
    } else {
      TotalsSet(a[1..], i - 1, x);
      assert a[i := x][1..] == a[1..][i - 1 := x];
    }
  }

  // ---------- One fill ----------

  /** The writes of one fill, in program order; taker and maker may be the same client. */
  method FillAccounts(a: seq<Account>, taker: nat, maker: nat, cost: nat, q: nat, takerIsBuy: bool) returns (b: seq<Account>)
    requires taker < |a| && maker < |a|
    ensures |b| == |a|
    ensures forall c | 0 <= c < |a| :: b[c] == FillEffect(a[c], c == taker, c == maker, cost, q, takerIsBuy)
    ensures TotalCash(b) == TotalCash(a) - TakerFee(q) + MakerRebate(q)
    ensures TotalShares(b) == TotalShares(a)
  {
    b := a;
    if takerIsBuy {
      b := Write(b, taker, b[taker].(cash := b[taker].cash - cost, shares := b[taker].shares + q));
      b := Write(b, maker, b[maker].(cash := b[maker].cash + cost, shares := b[maker].shares - q,
                                     reservedShares := Low32(b[maker].reservedShares - q)));
    } else {
      b := Write(b, taker, b[taker].(cash := b[taker].cash + cost, shares := b[taker].shares - q));
      b := Write(b, maker, b[maker].(cash := b[maker].cash - cost, shares := b[maker].shares + q,
                                     reservedCash := Low32(b[maker].reservedCash - cost)));
    }
    b := Write(b, taker, b[taker].(cash := b[taker].cash - TakerFee(q)));
    b := Write(b, maker, b[maker].(cash := b[maker].cash + MakerRebate(q)));
  }

  method Write(a: seq<Account>, i: nat, x: Account) returns (b: seq<Account>)
    requires i < |a|
    ensures |b| == |a| && b[i] == x && forall c | 0 <= c < |a| && c != i :: b[c] == a[c]
    ensures TotalCash(b) == TotalCash(a) - a[i].cash + x.cash
    ensures TotalShares(b) == TotalShares(a) - a[i].shares + x.shares
  {
    TotalsSet(a, i, x);
    b := a[i := x];
  }

  /** What a fill does to one client, whichever roles it has in it. */
  function FillEffect(a: Account, isTaker: bool, isMaker: bool, cost: nat, q: nat, takerIsBuy: bool): Account {
    var paid: int := if isTaker == isMaker then 0 else if isTaker == takerIsBuy then cost as int else -(cost as int);
    var got: int := if isTaker == isMaker then 0 else if isTaker == takerIsBuy then q as int else -(q as int);
    Account(a.cash - paid - (if isTaker then TakerFee(q) else 0) + (if isMaker then MakerRebate(q) else 0),
            if isMaker && !takerIsBuy then Low32(a.reservedCash - cost) else a.reservedCash,
            a.shares + got,
            if isMaker && takerIsBuy then Low32(a.reservedShares - q) else a.reservedShares)
  }

  // ---------- All fills ----------

  /** The price of an order, by id. */
  function PriceOf(table: Table): Weight {
    (id: u32) => if id in table then table[id].price else 0
  }

  /** What a client's resting bids tie up, per share. */
  function BidValue(c: nat, table: Table): Weight {
    (id: u32) => if id in table && table[id].client == c && table[id].buy then table[id].price else 0
  }

  /** What a client's resting asks tie up, per share. */
  function AskShares(c: nat, table: Table): Weight {
    (id: u32) => if id in table && table[id].client == c && !table[id].buy then 1 else 0
  }

  /** What a client earns or pays as a maker, per share. */
  function MakerValue(c: nat, table: Table): Weight {
    (id: u32) => if id in table && table[id].client == c then table[id].price else 0
  }

  function MakerShares(c: nat, table: Table): Weight {
    (id: u32) => if id in table && table[id].client == c then 1 else 0
  }

  function Fees(fills: seq<Fill>): nat {
    if fills == [] then 0 else TakerFee(fills[0].qty) + Fees(fills[1..])
  }

  function Rebates(fills: seq<Fill>, c: nat, table: Table): nat {
    if fills == [] then 0
    else (if fills[0].id in table && table[fills[0].id].client == c then MakerRebate(fills[0].qty) else 0) + Rebates(fills[1..], c, table)
  }

  function AllRebates(fills: seq<Fill>): nat {
    if fills == [] then 0 else MakerRebate(fills[0].qty) + AllRebates(fills[1..])
  }

  /** One client's cash and shares after the fill loop, moved against every counterparty, with fees
  and rebates. */
  ghost predicate Paid(was: Account, now: Account, c: nat, taker: nat, takerIsBuy: bool, fills: seq<Fill>, table: Table) {
    var traded := (if c == taker then WeighFills(fills, PriceOf(table)) else 0) - WeighFills(fills, MakerValue(c, table));
    var moved := (if c == taker then FillTotal(fills) else 0) - WeighFills(fills, MakerShares(c, table));
    && now.cash == was.cash - (if takerIsBuy then traded else -traded)
                   - (if c == taker then Fees(fills) else 0) + Rebates(fills, c, table)
    && now.shares == was.shares + (if takerIsBuy then moved else -moved)
  }

  /** The reserves moved by this much, in 32-bit arithmetic. */
  ghost predicate Shift(was: Account, now: Account, cash: int, shares: int) {
    now.reservedCash == Low32(was.reservedCash + cash) && now.reservedShares == Low32(was.reservedShares + shares)
  }

  lemma ShiftTwice(a: Account, b: Account, d: Account, cash1: int, shares1: int, cash2: int, shares2: int)
    requires Shift(a, b, cash1, shares1) && Shift(b, d, cash2, shares2)
    ensures Shift(a, d, cash1 + cash2, shares1 + shares2)
  {
    Low32Add(a.reservedCash + cash1, cash2);
    Low32Add(a.reservedShares + shares1, shares2);
  }

  lemma ShiftNone(a: Account)
    ensures Shift(a, a, 0, 0)
  {
  }

  /** Makers' reserves come off with their fills. */
  ghost predicate Released(was: Account, now: Account, c: nat, fills: seq<Fill>, table: Table) {
    Shift(was, now, -(WeighFills(fills, BidValue(c, table)) as int), -(WeighFills(fills, AskShares(c, table)) as int))
  }

  lemma NothingReleased(a: Account, c: nat, table: Table)
    ensures Released(a, a, c, [], table)
  {
    ShiftNone(a);
  }

  /** One fill, as one client sees it. */
  lemma OneFill(a: Account, c: nat, taker: nat, takerIsBuy: bool, f: Fill, table: Table)
    requires f.id in table && table[f.id].buy != takerIsBuy
    ensures var b := FillEffect(a, c == taker, c == table[f.id].client, f.qty * table[f.id].price, f.qty, takerIsBuy);
            Paid(a, b, c, taker, takerIsBuy, [f], table) && Released(a, b, c, [f], table)
  {
    assert [f][1..] == [];
    ShiftNone(a);
  }

  lemma {:induction false} FeesConcat(x: seq<Fill>, y: seq<Fill>, c: nat, table: Table)
    ensures Fees(x + y) == Fees(x) + Fees(y)
    ensures Rebates(x + y, c, table) == Rebates(x, c, table) + Rebates(y, c, table)
  {
    if x == [] {
      assert x + y == y;
    } else {
      assert (x + y)[1..] == x[1..] + y;
      FeesConcat(x[1..], y, c, table);
    }
  }

  lemma PaidConcat(a: Account, b: Account, d: Account, c: nat, taker: nat, takerIsBuy: bool, x: seq<Fill>, y: seq<Fill>,
                   table: Table)
    requires Paid(a, b, c, taker, takerIsBuy, x, table) && Paid(b, d, c, taker, takerIsBuy, y, table)
    ensures Paid(a, d, c, taker, takerIsBuy, x + y, table)
  {
    WeighFillsConcat(x, y, PriceOf(table));
    WeighFillsConcat(x, y, MakerValue(c, table));
    WeighFillsConcat(x, y, MakerShares(c, table));
    FillTotalConcat(x, y);
    FeesConcat(x, y, c, table);
  }

  lemma ReleasedConcat(a: Account, b: Account, d: Account, c: nat, x: seq<Fill>, y: seq<Fill>, table: Table)
    requires Released(a, b, c, x, table) && Released(b, d, c, y, table)
    ensures Released(a, d, c, x + y, table)
  {
    WeighFillsConcat(x, y, BidValue(c, table));
    WeighFillsConcat(x, y, AskShares(c, table));
    ReleasedTwice(a, b, d, WeighFills(x, BidValue(c, table)), WeighFills(x, AskShares(c, table)),
                  WeighFills(y, BidValue(c, table)), WeighFills(y, AskShares(c, table)));
  }

  lemma ReleasedTwice(a: Account, b: Account, d: Account, cash1: int, shares1: int, cash2: int, shares2: int)
    requires Shift(a, b, -cash1, -shares1) && Shift(b, d, -cash2, -shares2)
    ensures Shift(a, d, -(cash1 + cash2), -(shares1 + shares2))
  {
    ShiftTwice(a, b, d, -cash1, -shares1, -cash2, -shares2);
  }

  /** What the taker pays or receives is the walk's price, share by share. */
  lemma {:induction false} TakerCost(fills: seq<Fill>, table: Table)
    ensures WeighFills(fills, PriceOf(table)) == Sum(SharePath(fills, table))
    ensures FillTotal(fills) == |SharePath(fills, table)|
  {
    if fills != [] {
      TakerCost(fills[1..], table);
      var price := if fills[0].id in table then table[fills[0].id].price else 0;
      SumConcat(Repeat(price, fills[0].qty), SharePath(fills[1..], table));
      SumRepeat(price, fills[0].qty);
    }
  }
}
