/** What the cross does to the resting book's orders and reserves (auction_consume_book of
src/server.c): table, reserves and book stay in step. */
module AuctionStep {
  import opened Machine
  import opened Book
  import opened BookFacts
  import opened BookRuns
  import opened Weights
  import opened Settle
  import opened FillCounts
  import opened Ledger
  import opened Desk
  import opened AuctionFill

  /** The makers less their fills. */
  function Taken(table: Table, fills: seq<Fill>): Table {
    if fills == [] then table else Taken(Less(table, fills[0].id, fills[0].qty), fills[1..])
  }

  lemma TakenNext(table: Table, fills: seq<Fill>, i: nat)
    requires i < |fills|
    ensures Taken(table, fills[i..]) == Taken(Less(table, fills[i].id, fills[i].qty), fills[i + 1..])
  {
    assert fills[i..][1..] == fills[i + 1..];
  }

  lemma TakenAll(table: Table)
    ensures Taken(table, []) == table
  {
  }

  lemma {:induction false} TakenTerms(table: Table, fills: seq<Fill>)
    ensures SameTerms(Taken(table, fills), table)
  {
    if fills != [] {
      var once := Less(table, fills[0].id, fills[0].qty);
      LessKeepsTerms(table, fills[0].id, fills[0].qty);
      TakenTerms(once, fills[1..]);
      TermsChain(Taken(once, fills[1..]), once, table);
    }
  }

  lemma {:induction false} TakenApart(table: Table, fills: seq<Fill>, x: u32)
    requires x in table && forall f | f in fills :: f.id != x
    ensures x in Taken(table, fills) && Taken(table, fills)[x] == table[x]
  {
    if fills != [] {
      assert fills[0] in fills && forall f | f in fills[1..] :: f in fills;
      TakenApart(Less(table, fills[0].id, fills[0].qty), fills[1..], x);
    }
  }

  /** The tables agree except on the taker, which only the first has. */
  ghost predicate SameBut(t: Table, o: Table, taker: u32) {
    taker !in o && forall x | x in o :: x in t && t[x] == o[x]
  }

  lemma {:induction false} TakenSame(t: Table, o: Table, fills: seq<Fill>, taker: u32)
    requires SameBut(t, o, taker) && forall f | f in fills :: f.id in o
    ensures SameBut(AfterFills(t, fills, taker), Taken(o, fills), taker)
  {
    if fills != [] {
      var f := fills[0];
      assert f in fills && forall g | g in fills[1..] :: g in fills;
      TakenSame(AfterFill(t, f, taker), Less(o, f.id, f.qty), fills[1..], taker);
    }
  }

  /** Every client's reserves came down by its own fills as a maker. */
  ghost predicate AllReleased(a: seq<Account>, b: seq<Account>, fills: seq<Fill>, table: Table) {
    |b| == |a| && forall c | 0 <= c < |a| :: Released(a[c], b[c], c, fills, table)
  }

  lemma NoneReleased(a: seq<Account>, table: Table)
    ensures AllReleased(a, a, [], table)
  {
    forall c | 0 <= c < |a|
      ensures Released(a[c], a[c], c, [], table)
    {
      NothingReleased(a[c], c, table);
    }
  }

  /** One more maker, weighed by the table as it was at the start: its terms have not changed. */
  lemma MoreReleased(a: seq<Account>, b: seq<Account>, d: seq<Account>, x: seq<Fill>, f: Fill, was: Table, now: Table)
    requires AllReleased(a, b, x, was) && AllReleased(b, d, [f], now) && SameTerms(now, was)
    ensures AllReleased(a, d, x + [f], was)
  {
    forall c | 0 <= c < |a|
      ensures Released(a[c], d[c], c, x + [f], was)
    {
      OneFillWeighs(f, was);
      OneFillWeighs(f, now);
      ReleasedConcat(a[c], b[c], d[c], c, x, [f], was);
    }
  }

  lemma OneFillWeighs(f: Fill, table: Table)
    ensures forall w: Weight :: WeighFills([f], w) == f.qty * w(f.id)
  {
    assert [f][1..] == [];
  }

  ghost predicate SameReserves(a: seq<Account>, b: seq<Account>) {
    |b| == |a| && forall c | 0 <= c < |a| :: b[c].reservedCash == a[c].reservedCash && b[c].reservedShares == a[c].reservedShares
  }

  /** The synthetic taker: fresh, immediate-or-cancel, and no cancel of anything. */
  ghost predicate TakerOk(t: Order, takerId: u32, orders: Table) {
    takerId !in orders && takerId != MAX_U32 && t.ioc && !t.market && !t.canRep && !t.cancel
  }

  lemma FreshNotResting(s: Sides, orders: Table, x: u32)
    requires Agrees(s, orders) && x !in orders
    ensures Count(s.bids + s.asks, x) == 0
  {
    if Count(s.bids + s.asks, x) > 0 {
      var l, e := CountFind(s.bids + s.asks, x);
      assert false;
    }
  }

  lemma TakerSettles(s: Sides, orders: Table, t: Order, takerId: u32)
    requires SoundSides(s) && Agrees(s, orders) && TakerOk(t, takerId, orders)
    ensures var table := orders[takerId := t]; Agrees(s, table) && Settleable(s, table, takerId) && SameBut(table, orders, takerId)
  {
    FreshNotResting(s, orders, takerId);
  }

  /** The makers are orders of the table, and nothing new rests. */
  lemma TakerFills(s: Sides, orders: Table, t: Order, takerId: u32)
    requires SoundSides(s) && Agrees(s, orders) && TakerOk(t, takerId, orders)
    ensures var m := Message(s, orders[takerId := t], takerId);
            && (forall f | f in m.fills :: f.id in orders)
            && forall x :: Count(m.sides.bids + m.sides.asks, x) <= Count(s.bids + s.asks, x)
  {
    var table := orders[takerId := t];
    TakerSettles(s, orders, t, takerId);
    var m := Message(s, table, takerId);
    forall f | f in m.fills
      ensures f.id in orders
    {
      MessageFillOk(s, table, takerId, f);
    }
    forall x: u32
      ensures Count(m.sides.bids + m.sides.asks, x) <= Count(s.bids + s.asks, x)
    {
      MessageCounts(s, table, takerId, x);
    }
  }

  /** The book's part of a cross: makers down by their fills and their reserves released, and book,
  table and reserves are in step again. */
  lemma ConsumedInStep(s: Sides, orders: Table, t: Order, takerId: u32, a: seq<Account>, b: seq<Account>, held: Holds)
    requires InStep(s, orders, a, held) && TakerOk(t, takerId, orders)
    requires AllReleased(a, b, Message(s, orders[takerId := t], takerId).fills, orders)
    ensures var m := Message(s, orders[takerId := t], takerId); InStep(m.sides, Taken(orders, m.fills), b, held)
  {
    var table := orders[takerId := t];
    TakerSettles(s, orders, t, takerId);
    TakerFills(s, orders, t, takerId);
    var m := Message(s, table, takerId);
    var now := Taken(orders, m.fills);
    MessageAgrees(s, table, takerId);
    TakenSame(table, orders, m.fills, takerId);
    TakenTerms(orders, m.fills);
    FreshNotResting(s, orders, takerId);
    AfterMessageTerms(table, takerId, m.fills);
    FillsKeepTerms(table, m.fills, takerId);
    AgreesWithout(m.sides, AfterMessage(table, takerId, m.fills), AfterFills(table, m.fills, takerId), now, takerId);
    forall c | 0 <= c < |b|
      ensures ReserveOk(b[c], c, m.sides, now, held)
    {
      ClientReleased(s, orders, t, takerId, c, a[c], b[c], held);
      ReserveSame(b[c], c, m.sides, orders, now, held);
    }
  }

  /** The taker's own row in the table does not matter to a book it does not rest in. */
  lemma AgreesWithout(s: Sides, closed: Table, table: Table, now: Table, taker: u32)
    requires Agrees(s, closed) && SameBut(table, now, taker) && Count(s.bids + s.asks, taker) == 0
    requires forall x | x in closed && x != taker :: x in now && closed[x] == table[x]
    ensures Agrees(s, now)
  {
    forall l, e | l in s.bids + s.asks && e in l.orders
      ensures e.id != taker
    {
      LevelCounts(s.bids + s.asks, l, e);
    }
    assert forall l | l in s.bids :: l in s.bids + s.asks;
    assert forall l | l in s.asks :: l in s.bids + s.asks;
  }

  lemma ClientReleased(s: Sides, orders: Table, t: Order, takerId: u32, c: nat, was: Account, now: Account, held: Holds)
    requires SoundSides(s) && Agrees(s, orders) && TakerOk(t, takerId, orders) && ReserveOk(was, c, s, orders, held)
    requires Released(was, now, c, Message(s, orders[takerId := t], takerId).fills, orders)
    ensures ReserveOk(now, c, Message(s, orders[takerId := t], takerId).sides, orders, held)
  {
    hide SoundSides, Message, WeighSides, WeighFills, BidValue, AskShares;
    var table := orders[takerId := t];
    TakerSettles(s, orders, t, takerId);
    var m, cash, shares := Message(s, table, takerId), BidValue(c, orders), AskShares(c, orders);
    MessageConserves(s, table, takerId, cash);
    MessageConserves(s, table, takerId, shares);
    TakerNeverRests(t, m.fills, cash(takerId));
    TakerNeverRests(t, m.fills, shares(takerId));
    ReserveFollows(was, now, c, s, m.sides, orders, -(WeighFills(m.fills, cash) as int),
                   -(WeighFills(m.fills, shares) as int), held);
  }

  lemma TakerNeverRests(t: Order, fills: seq<Fill>, w: nat)
    requires t.ioc
    ensures LeftResting(t, fills) * w == 0
  {
  }

  /** Filling parked orders, which are not in the book, leaves book, table and reserves in step. */
  lemma ServedInStep(s: Sides, orders: Table, a: seq<Account>, b: seq<Account>, line: seq<u32>, shares: nat, held: Holds)
    requires InStep(s, orders, a, held) && SameReserves(a, b)
    requires forall id | id in line :: Count(s.bids + s.asks, id) == 0
    ensures InStep(s, Served(line, orders, shares), b, held)
  {
    var now := Served(line, orders, shares);
    ServedTerms(line, orders, shares);
    forall l, e | l in s.bids + s.asks && e in l.orders
      ensures e.id in now && now[e.id] == orders[e.id]
    {
      LevelCounts(s.bids + s.asks, l, e);
      ServedApart(line, orders, shares, e.id);
    }
    assert forall l | l in s.bids :: l in s.bids + s.asks;
    assert forall l | l in s.asks :: l in s.bids + s.asks;
    forall c | 0 <= c < |b|
      ensures ReserveOk(b[c], c, s, now, held)
    {
      assert ReserveOk(a[c], c, s, orders, held);
      ReserveSame(b[c], c, s, orders, now, held);
    }
  }
}
