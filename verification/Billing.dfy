/** What every client is charged by the calendar (server_eod and server_eom of src/server.c): money
moves from clients to the exchange and none is made or lost; shares and reserves stay. */
module Billing {
  import opened Machine
  import opened Book
  import opened Ledger
  import opened Desk
  import opened ServerOrders

  // include/constants.h
  const SHORT_BORROW_ANNUAL_BPS := 300
  const BORROW_DAY_BASIS := 360
  const BPS_DIVISOR := 10000

  const DATA_FEE_BY_TIER: seq<nat> := [8400, 5000, 3000, 1500, 1500, 199, 120, 60, 29, 0, 0]
  const NOII_FEE_MONTHLY := 500

  /** What a client subscribes to. */
  datatype Subscription = Subscription(tier: u8, noii: bool)

  function MonthlyFee(s: Subscription): nat {
    (if s.tier < |DATA_FEE_BY_TIER| then DATA_FEE_BY_TIER[s.tier] else 0) + (if s.noii then NOII_FEE_MONTHLY else 0)
  }

  /** One calendar day's borrow on a short position, whole dollars; nothing on a long one. */
  function Borrow(mark: u16, shares: int): nat {
    if shares >= 0 then 0 else Quotient(mark * -shares * SHORT_BORROW_ANNUAL_BPS, BPS_DIVISOR * BORROW_DAY_BASIS)
  }

  function Quotient(a: nat, b: nat): nat
    requires b > 0
  {
    a / b
  }

  /** A long pays nothing. A short pays three per cent a year of what it is worth at the mark, a day at a
  time on a 360-day year, in whole dollars rounded down. */
  lemma BorrowRate(mark: u16, shares: int)
    ensures shares >= 0 ==> Borrow(mark, shares) == 0
    ensures shares < 0 ==> var yearly, value := 100 * 360 * Borrow(mark, shares), mark * -shares; yearly <= 3 * value < yearly + 100 * 360
  {
    if shares < 0 {
      Divides(mark * -shares * SHORT_BORROW_ANNUAL_BPS, BPS_DIVISOR * BORROW_DAY_BASIS);
    }
  }

  lemma Divides(a: nat, b: nat)
    requires b > 0
    ensures b * Quotient(a, b) <= a < b * Quotient(a, b) + b
  {
  }

  /** The more the short is worth, the more it pays. */
  lemma BorrowGrows(mark: u16, shares: int, later: u16, more: int)
    requires shares < 0 && more < 0 && mark * -shares <= later * -more
    ensures Borrow(mark, shares) <= Borrow(later, more)
  {
    BorrowRate(mark, shares);
    BorrowRate(later, more);
  }

  /** Slower data never costs more, the add-on costs the same on every tier, and the last two tiers, like
  a tier there is no fee for, are free. */
  lemma FeeFalls(s: Subscription, t: Subscription)
    requires s.tier <= t.tier && s.noii == t.noii
    ensures MonthlyFee(s) >= MonthlyFee(t)
    ensures MonthlyFee(s.(noii := true)) == MonthlyFee(s.(noii := false)) + NOII_FEE_MONTHLY
    ensures MonthlyFee(s.(noii := false)) == 0 <==> s.tier >= 9
  {
  }

  function Sum(fees: seq<nat>): nat {
    if fees == [] then 0 else Sum(fees[..|fees| - 1]) + fees[|fees| - 1]
  }

  /** The first n clients paid their fee, to the exchange. */
  ghost predicate Billed(was: seq<Account>, now: seq<Account>, fees: seq<nat>, n: nat) {
    && |now| == |was| == |fees| && n <= |was|
    && forall c | 0 <= c < |was| :: now[c] == if c < n then was[c].(cash := was[c].cash - fees[c]) else was[c]
  }

  /** Paying a fee touches no reserve, so whatever was in step still is. */
  lemma BilledInStep(was: seq<Account>, now: seq<Account>, fees: seq<nat>, s: Sides, table: Table, held: Holds)
    requires Billed(was, now, fees, |was|) && ReservesOk(was, s, table, held)
    ensures ReservesOk(now, s, table, held)
  {
    forall c | 0 <= c < |now|
      ensures ReserveOk(now[c], c, s, table, held)
    {
      assert ReserveOk(was[c], c, s, table, held);
    }
  }

  /** The loop both bills share: client by client, out of its cash and into the exchange's. */
  method Charge(sv: Server, fees: seq<nat>)
    requires sv.Valid() && |fees| == |sv.accounts|
    modifies sv
    ensures sv.Valid() && sv.orders == old(sv.orders) && Billed(old(sv.accounts), sv.accounts, fees, |fees|)
    ensures sv.exchangeCash == old(sv.exchangeCash) + Sum(fees)
    ensures sv.Money() == old(sv.Money()) && TotalShares(sv.accounts) == old(TotalShares(sv.accounts))
  {
    hide TotalCash, TotalShares, ReservesOk;
    for i := 0 to |fees|
      invariant sv.Valid() && sv.orders == old(sv.orders) && Billed(old(sv.accounts), sv.accounts, fees, i)
      invariant sv.exchangeCash == old(sv.exchangeCash) + Sum(fees[..i])
      invariant sv.Money() == old(sv.Money()) && TotalShares(sv.accounts) == old(TotalShares(sv.accounts))
    {
      assert fees[..i + 1][..i] == fees[..i];
      sv.accounts := Write(sv.accounts, i, sv.accounts[i].(cash := sv.accounts[i].cash - fees[i]));
      sv.exchangeCash := sv.exchangeCash + fees[i];
    }
    assert fees[..|fees|] == fees;
  }

  /** server_eom. */
  method Eom(sv: Server, subs: seq<Subscription>)
    requires sv.Valid() && |subs| == |sv.accounts|
    modifies sv
    ensures sv.Valid() && sv.orders == old(sv.orders) && |sv.accounts| == |subs|
    ensures forall c | 0 <= c < |subs| :: sv.accounts[c] == old(sv.accounts[c]).(cash := old(sv.accounts[c]).cash - MonthlyFee(subs[c]))
    ensures sv.Money() == old(sv.Money()) && TotalShares(sv.accounts) == old(TotalShares(sv.accounts))
    ensures forall s: Sides, held: Holds | old(sv.InStep(s, held)) :: sv.InStep(s, held)
  {
    var fees := seq(|subs|, c requires 0 <= c < |subs| => MonthlyFee(subs[c]));
    Charge(sv, fees);
    forall s: Sides, held: Holds | old(sv.InStep(s, held))
      ensures sv.InStep(s, held)
    {
      BilledInStep(old(sv.accounts), sv.accounts, fees, s, sv.orders, held);
    }
  }

  /** server_eod. */
  method Eod(sv: Server, mark: u16)
    requires sv.Valid()
    modifies sv
    ensures sv.Valid() && sv.orders == old(sv.orders) && |sv.accounts| == old(|sv.accounts|)
    ensures forall c | 0 <= c < |sv.accounts| ::
              sv.accounts[c] == old(sv.accounts[c]).(cash := old(sv.accounts[c]).cash - Borrow(mark, old(sv.accounts[c]).shares))
    ensures sv.Money() == old(sv.Money()) && TotalShares(sv.accounts) == old(TotalShares(sv.accounts))
    ensures forall s: Sides, held: Holds | old(sv.InStep(s, held)) :: sv.InStep(s, held)
  {
    hide Borrow;
    var fees := seq(|sv.accounts|, c requires 0 <= c < |sv.accounts| reads sv => Borrow(mark, sv.accounts[c].shares));
    Charge(sv, fees);
    forall s: Sides, held: Holds | old(sv.InStep(s, held))
      ensures sv.InStep(s, held)
    {
      BilledInStep(old(sv.accounts), sv.accounts, fees, s, sv.orders, held);
    }
  }
}
