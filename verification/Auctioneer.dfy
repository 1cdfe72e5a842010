/** The call auction cross on the server's state (server_auction of src/server.c): both sides are
filled to the matched volume, every client's own orders at the one clearing price, and book, order
table and reserves stay in step. */
module Auctioneer {
  import opened Machine
  import opened Book
  import opened BookFacts
  import opened BookRuns
  import opened Weights
  import opened Settle
  import opened LegWalk
  import opened Ledger
  import opened Desk
  import opened ServerOrders
  import opened AuctionStep
  import opened FillCounts
  import opened AuctionFill
  import opened AuctionBook
  import opened AuctionHold
  import opened AuctionGain
  import opened AuctionSide
  import opened AuctionPark
  import opened Snapshot
  import opened SnapshotWriter
  import opened Ranges
  import opened FirstLeg
  import opened Canrep
  import Pq
  import W = AuctionWalk

  // ---------- auction_consume_book's settlement ----------

  /** A maker gives its reserve back and settles at the clearing price, not at its own. */
  method SettleMaker(sv: Server, f: Fill, clearing: u16)
    requires sv.Valid() && f.id in sv.orders
    modifies sv`orders, sv`accounts
    ensures sv.Valid() && sv.orders == Less(old(sv.orders), f.id, f.qty)
    ensures var o := old(sv.orders)[f.id];
            Traded(old(sv.accounts), sv.accounts, OneGain(o.client, Towards(f.qty, o.buy)), Towards(f.qty, o.buy), clearing)
    ensures AllReleased(old(sv.accounts), sv.accounts, [f], old(sv.orders))
  {
    hide Traded, TotalCash, TotalShares, AllReleased;
    var o := sv.orders[f.id];
    var x := sv.accounts[o.client];
    ghost var was := sv.accounts;
    if o.buy {
      sv.accounts := Write(sv.accounts, o.client, x.(reservedCash := Low32(x.reservedCash - f.qty * o.price),
                                                     cash := x.cash - f.qty * clearing, shares := x.shares + f.qty));
    } else {
      sv.accounts := Write(sv.accounts, o.client, x.(reservedShares := Low32(x.reservedShares - f.qty),
                                                     cash := x.cash + f.qty * clearing, shares := x.shares - f.qty));
    }
    OneTraded(was, sv.accounts, o.client, f.qty, o.buy, clearing);
    OneReleased(was, sv.accounts, f, sv.orders);
    sv.orders := Less(sv.orders, f.id, f.qty);
  }

  lemma OneReleased(a: seq<Account>, b: seq<Account>, f: Fill, table: Table)
    requires f.id in table && table[f.id].client < |a| == |b| && forall c | 0 <= c < |a| && c != table[f.id].client :: b[c] == a[c]
    requires var o, x, y := table[f.id], a[table[f.id].client], b[table[f.id].client];
             && y.reservedCash == (if o.buy then Low32(x.reservedCash - f.qty * o.price) else x.reservedCash)
             && y.reservedShares == (if o.buy then x.reservedShares else Low32(x.reservedShares - f.qty))
    ensures AllReleased(a, b, [f], table)
  {
    OneFillWeighs(f, table);
    forall c | 0 <= c < |a|
      ensures Released(a[c], b[c], c, [f], table)
    {
      ShiftNone(a[c]);
      assert f.qty * 0 == 0 && f.qty * 1 == f.qty;
    }
  }

  method SettleMakers(sv: Server, fills: seq<Fill>, clearing: u16, buy: bool)
    requires sv.Valid() && forall f | f in fills :: f.id in sv.orders && sv.orders[f.id].buy == buy
    modifies sv`orders, sv`accounts
    ensures sv.Valid() && SameTerms(sv.orders, old(sv.orders))
    ensures sv.orders == Taken(old(sv.orders), fills) && AllReleased(old(sv.accounts), sv.accounts, fills, old(sv.orders))
    ensures Traded(old(sv.accounts), sv.accounts, MakerGains(fills, old(sv.orders), buy), Towards(FillTotal(fills), buy), clearing)
  {
    hide AllReleased, FillTotal, SameTerms, Taken, Less, Traded, MakerGains;
    ghost var was, start := sv.orders, sv.accounts;
    Unmoves(was, []);
    MakersStart(start, fills, was, buy, clearing);
    for i := 0 to |fills|
      invariant sv.Valid() && SameTerms(sv.orders, was)
      invariant Taken(sv.orders, fills[i..]) == Taken(was, fills) && AllReleased(start, sv.accounts, fills[..i], was)
      invariant Traded(start, sv.accounts, MakerGains(fills[..i], was, buy), Towards(FillTotal(fills[..i]), buy), clearing)
    {
      assert fills[i] in fills;
      LessKeepsTerms(sv.orders, fills[i].id, fills[i].qty);
      TermsChain(Less(sv.orders, fills[i].id, fills[i].qty), sv.orders, was);
      ghost var before, table := sv.accounts, sv.orders;
      StillThere(table, was, fills[i]);
      TakenNext(table, fills, i);
      SettleMaker(sv, fills[i], clearing);
      MakersMove(start, before, sv.accounts, fills, i, was, table, buy, clearing);
    }
    TakenAll(sv.orders);
    assert fills[..|fills|] == fills && fills[|fills|..] == [];
  }

  lemma MakersStart(a: seq<Account>, fills: seq<Fill>, table: Table, buy: bool, clearing: u16)
    ensures fills[0..] == fills && AllReleased(a, a, fills[..0], table)
    ensures Traded(a, a, MakerGains(fills[..0], table, buy), Towards(FillTotal(fills[..0]), buy), clearing)
  {
    NoneReleased(a, table);
    TradedNothing(a, MakerGains(fills[..0], table, buy), clearing);
  }

  lemma MakersMove(start: seq<Account>, before: seq<Account>, now: seq<Account>, fills: seq<Fill>, i: nat, was: Table,
                   table: Table,
                   buy: bool, clearing: u16)
    requires i < |fills| && SameTerms(table, was) && fills[i].id in was && fills[i].id in table
    requires was[fills[i].id].buy == buy
    requires AllReleased(start, before, fills[..i], was) && AllReleased(before, now, [fills[i]], table)
    requires Traded(start, before, MakerGains(fills[..i], was, buy), Towards(FillTotal(fills[..i]), buy), clearing)
    requires Traded(before, now, OneGain(table[fills[i].id].client, Towards(fills[i].qty, buy)), Towards(fills[i].qty, buy), clearing)
    ensures AllReleased(start, now, fills[..i + 1], was)
    ensures Traded(start, now, MakerGains(fills[..i + 1], was, buy), Towards(FillTotal(fills[..i + 1]), buy), clearing)
  {
    hide Traded, AllReleased, WeighFills, FillTotal;
    var f := fills[i];
    assert fills[..i + 1] == fills[..i] + [f];
    MoreReleased(start, before, now, fills[..i], f, was, table);
    OneFillWeighs(f, was);
    OneTotal(f);
    FillTotalConcat(fills[..i], [f]);
    forall c: nat
      ensures WeighFills(fills[..i + 1], MakerShares(c, was)) == WeighFills(fills[..i], MakerShares(c, was)) + if c == was[f.id].client then f.qty else 0
    {
      WeighFillsConcat(fills[..i], [f], MakerShares(c, was));
    }
    TradedTwice(start, before, now, MakerGains(fills[..i], was, buy), OneGain(was[f.id].client, Towards(f.qty, buy)),
                 MakerGains(fills[..i + 1], was, buy), Towards(FillTotal(fills[..i]), buy), Towards(f.qty, buy), clearing);
  }

  lemma OneTotal(f: Fill)
    ensures FillTotal([f]) == f.qty
  {
    assert [f][1..] == [];
  }

  /** One side of the book gives up the shares, cut to 16 bits; nobody else's order moves. The snapshot
  is the old one after the synthetic taker's order, and if book, table and reserves were in step they
  are again. */
  method TakeFromBook(sv: Server, m: Mbo, takerId: u32, isBuy: bool, shares: nat, clearing: u16,
                      ghost levels: seq<Level>, ghost bids: nat, ghost held: Holds)
    returns (now: Mbo, size: nat)
    requires sv.Valid() && OldBook(m, levels, bids) && QuotedSides(SidesOf(levels, bids), sv.orders)
    requires (forall l | l in levels :: |l.orders| <= COPY_LIMIT) && takerId !in sv.orders && takerId != MAX_U32
    requires shares <= InReach(levels, bids, isBuy, clearing)
    modifies sv`orders, sv`accounts
    ensures sv.Valid() && SameTerms(sv.orders, old(sv.orders)) && Unmoved(sv.orders, old(sv.orders), levels)
    ensures var taken := Submit(SidesOf(levels, bids), Taker(isBuy, U16(shares), clearing), takerId);
            && Refines(now, size, taken.fills, taken) && size <= Size(levels) && FillTotal(taken.fills) == U16(shares)
            && sv.orders == Taken(old(sv.orders), taken.fills)
            && Traded(old(sv.accounts), sv.accounts, MakerGains(taken.fills, old(sv.orders), !isBuy), Towards(U16(shares), !isBuy), clearing)
            && (InStep(SidesOf(levels, bids), old(sv.orders), old(sv.accounts), held) ==> InStep(taken.sides, sv.orders, sv.accounts, held))
  {
    hide Refines, Size, Submit, OldBook, InReach, Sweep, InStep, SameTerms, Traded, FillTotal, QuotedSides, Unmoved,
         SidesOf, MakerGains;
    BookSound(m, levels, bids);
    var fills;
    ghost var was, start := sv.orders, sv.accounts;
    now, size, fills := ConsumeBook(sv.orders, takerId, m, isBuy, shares, clearing, levels, bids);
    MakersHere(levels, bids, sv.orders, Taker(isBuy, U16(shares), clearing), U16(shares));
    SettleMakers(sv, fills, clearing, !isBuy);
    TakenUnmoved(was, fills, levels);
    StillInStep(levels, bids, was, start, sv.accounts, isBuy, U16(shares), clearing, takerId, held);
  }

  // ---------- server_auction ----------

  /** The cross. The price and the volume clear the curves; each side's parked orders are filled in
  the order of price and arrival after the book's part, every client's cash and shares move by exactly
  its own fills at the clearing price, its holds come back, and all stays in step. The book's part goes
  through a 16-bit quantity: when it fits, no money and no share appears or disappears, and when it does
  not, as many are missing as were cut off, to the last one where nothing is left of it. */
  method Cross(sv: Server, arrivals: seq<u32>, m: Mbo, mark: u16, takerId: u32, ghost levels: seq<Level>,
               ghost bids: nat, ghost held: Holds)
    returns (l: Lists, clearing: u16, matched: nat, bidFill: nat, askFill: nat, unfilled: nat, now: Mbo, ghost after: Sides)
    requires sv.Valid() && OldBook(m, levels, bids) && QuotedSides(SidesOf(levels, bids), sv.orders)
    requires (forall l | l in levels :: |l.orders| <= COPY_LIMIT) && takerId !in sv.orders && takerId != MAX_U32
    requires CanPark(arrivals, sv.orders, levels)
    modifies sv`orders, sv`accounts
    ensures LinedUp(l, arrivals, old(sv.orders)) && Parked(l, old(sv.orders), levels)
    ensures W.Cleared(CurvesOf(l, old(sv.orders), levels, bids), mark, clearing, matched)
    ensures bidFill == Min(InReach(levels, bids, false, clearing), matched)
    ensures askFill == Min(InReach(levels, bids, true, clearing), matched)
    ensures bidFill == 0 || askFill == 0
    ensures sv.Valid() && unfilled == 0  // neither side is short of the matched volume
    ensures sv.orders == CrossedOrders(l, old(sv.orders), SidesOf(levels, bids), matched, bidFill, askFill, clearing, takerId)
    ensures CrossSettled(old(sv.accounts), sv.accounts, l, old(sv.orders), sv.orders, SidesOf(levels, bids), bidFill, askFill, clearing, takerId)
    ensures after == AfterBook(SidesOf(levels, bids), bidFill, askFill, clearing, takerId) && HoldsBook(now, after)
    ensures InStep(SidesOf(levels, bids), old(sv.orders), old(sv.accounts), held) ==>
              InStep(after, sv.orders, sv.accounts, Minus(held, arrivals, old(sv.orders), mark))
  {
    hide QuotedSides, OldBook, W.Crossed, W.Sorted, Parked, LinedUp, InStep, AfterBook, HoldsBook, SidesOf, Moves,
         CrossSettled, CrossedOrders, Minus, Freed, U16;
    ghost var start := sv.accounts;
    BookSound(m, levels, bids);
    l := LineUp(sv, arrivals, mark, true);
    ghost var freed := sv.accounts;
    LinedUpParked(l, arrivals, sv.orders, levels);
    FreedInStep(SidesOf(levels, bids), sv.orders, start, freed, arrivals, mark, held);
    var c := ReadCurves(l, m, sv.orders, levels, bids);
    clearing, matched := W.Walk(c, mark);
    bidFill := Min(W.AtOrAbove(c.bookBids, clearing), matched);
    askFill := Min(W.AtOrBelow(c.bookAsks, clearing), matched);
    OneSideReached(levels, bids, clearing);
    BothReach(c, clearing, matched);
    ghost var was := sv.orders;
    unfilled, now, after := CrossFill(sv, l, m, takerId, clearing, matched, bidFill, askFill, levels, bids, Minus(held, arrivals, sv.orders, mark));
    SettledFromStart(start, freed, sv.accounts, arrivals, mark, l, was, sv.orders, SidesOf(levels, bids), bidFill,
                     askFill, clearing, takerId);
  }

  /** The read-only pass: the price and the volume a cross would have now, with every order, account
  and reserve as it was. */
  method Indicative(sv: Server, arrivals: seq<u32>, m: Mbo, mark: u16, ghost levels: seq<Level>, ghost bids: nat)
    returns (ghost l: Lists, clearing: u16, matched: nat)
    requires sv.Valid() && OldBook(m, levels, bids) && CanPark(arrivals, sv.orders, levels)
    modifies sv`accounts
    ensures sv.accounts == old(sv.accounts)
    ensures LinedUp(l, arrivals, sv.orders) && W.Cleared(CurvesOf(l, sv.orders, levels, bids), mark, clearing, matched)
  {
    hide OldBook, W.Crossed, W.Sorted, Parked, LinedUp, Moves;
    var lists := LineUp(sv, arrivals, mark, false);
    l := lists;
    LinedUpParked(l, arrivals, sv.orders, levels);
    BookSound(m, levels, bids);
    var c := ReadCurves(lists, m, sv.orders, levels, bids);
    clearing, matched := W.Walk(c, mark);
  }

  /** The fills of the cross: the book's side first, then both sides' arrivals. */
  method CrossFill(sv: Server, l: Lists, m: Mbo, takerId: u32, clearing: u16, matched: nat, bidFill: nat, askFill: nat,
                   ghost levels: seq<Level>, ghost bids: nat, ghost held: Holds) returns (unfilled: nat, now: Mbo, ghost after: Sides)
    requires sv.Valid() && OldBook(m, levels, bids) && QuotedSides(SidesOf(levels, bids), sv.orders)
    requires (forall l | l in levels :: |l.orders| <= COPY_LIMIT) && Parked(l, sv.orders, levels)
    requires matched <= W.Demand(CurvesOf(l, sv.orders, levels, bids), clearing)
    requires matched <= W.Supply(CurvesOf(l, sv.orders, levels, bids), clearing)
    requires bidFill == Min(InReach(levels, bids, false, clearing), matched)
    requires askFill == Min(InReach(levels, bids, true, clearing), matched)
    requires bidFill == 0 || askFill == 0
    requires takerId !in sv.orders && takerId != MAX_U32
    modifies sv`orders, sv`accounts
    ensures sv.Valid() && unfilled == 0
    ensures sv.orders == CrossedOrders(l, old(sv.orders), SidesOf(levels, bids), matched, bidFill, askFill, clearing, takerId)
    ensures CrossSettled(old(sv.accounts), sv.accounts, l, old(sv.orders), sv.orders, SidesOf(levels, bids), bidFill, askFill, clearing, takerId)
    ensures after == AfterBook(SidesOf(levels, bids), bidFill, askFill, clearing, takerId) && HoldsBook(now, after)
    ensures InStep(SidesOf(levels, bids), old(sv.orders), old(sv.accounts), held) ==> InStep(after, sv.orders, sv.accounts, held)
  {
    hide QuotedSides, OldBook, Parked, InReach, Served, Waiting, Line, SameTerms, CurvesOf, W.Demand, W.Supply,
         DistinctIds, Reversed, InStep,
         HoldsBook, SidesOf, SameReserves, Unmoved, Traded, LineGains, CrossSettled, BookGains, U16,
         AfterBook, CrossedOrders, BookedOrders, BidLine, AskLine, Towards;
    ghost var was, start := sv.orders, sv.accounts;
    BookSound(m, levels, bids);
    now, after := CrossBook(sv, m, takerId, clearing, bidFill, askFill, levels, bids, held);
    ghost var booked, paid := sv.orders, sv.accounts;
    ParkedApart(l, was, levels, bids, bidFill, askFill, clearing, takerId);
    BidsReady(l, was, booked, levels, bids, clearing, matched);
    var bidsLeft := FillSide(sv, l.marketBids, l.bidSorted, matched - bidFill, clearing, true);
    StepServed(after, booked, paid, sv.accounts, BidLine(l, was, clearing), matched - bidFill, held);
    ghost var bought, billed := sv.orders, sv.accounts;
    AsksReady(l, was, booked, matched - bidFill, levels, bids, clearing, matched);
    var asksLeft := FillSide(sv, l.marketAsks, l.askSorted, matched - askFill, clearing, false);
    StepServed(after, bought, billed, sv.accounts, AskLine(l, was, clearing), matched - askFill, held);
    unfilled := bidsLeft + asksLeft;
    CrossedInTurn(l, was, SidesOf(levels, bids), matched, bidFill, askFill, clearing, takerId);
    BothGain(l, was, booked, bought, sv.orders, levels, clearing, matched, bidFill, askFill, start, paid, billed,
             sv.accounts, SidesOf(levels, bids), takerId);
  }

  /** The book's part: at most one of its sides. */
  method CrossBook(sv: Server, m: Mbo, takerId: u32, clearing: u16, bidFill: nat, askFill: nat,
                   ghost levels: seq<Level>, ghost bids: nat, ghost held: Holds)
    returns (now: Mbo, ghost after: Sides)
    requires sv.Valid() && OldBook(m, levels, bids) && QuotedSides(SidesOf(levels, bids), sv.orders)
    requires (forall l | l in levels :: |l.orders| <= COPY_LIMIT) && takerId !in sv.orders && takerId != MAX_U32
    requires bidFill <= InReach(levels, bids, false, clearing)
    requires askFill <= InReach(levels, bids, true, clearing)
    requires bidFill == 0 || askFill == 0
    modifies sv`orders, sv`accounts
    ensures sv.Valid() && SameTerms(sv.orders, old(sv.orders)) && Unmoved(sv.orders, old(sv.orders), levels)
    ensures sv.orders == BookedOrders(old(sv.orders), SidesOf(levels, bids), bidFill, askFill, clearing, takerId)
    ensures Traded(old(sv.accounts), sv.accounts, BookGains(old(sv.orders), SidesOf(levels, bids), bidFill, askFill, clearing, takerId),
                    U16(bidFill) - U16(askFill), clearing)
    ensures after == AfterBook(SidesOf(levels, bids), bidFill, askFill, clearing, takerId) && HoldsBook(now, after)
    ensures InStep(SidesOf(levels, bids), old(sv.orders), old(sv.accounts), held) ==> InStep(after, sv.orders, sv.accounts, held)
  {
    hide QuotedSides, OldBook, InReach, InStep, SidesOf, Submit, SameTerms, Unmoved, Traded, MakerGains, U16;
    BookHeld(m, levels, bids);
    Unmoves(sv.orders, levels);
    NobodyGains(sv.accounts, clearing);
    now := m;
    after := AfterBook(SidesOf(levels, bids), bidFill, askFill, clearing, takerId);
    var size;
    if bidFill > 0 {
      now, size := TakeFromBook(sv, m, takerId, false, bidFill, clearing, levels, bids, held);
    }
    if askFill > 0 {
      now, size := TakeFromBook(sv, now, takerId, true, askFill, clearing, levels, bids, held);
    }
  }

  lemma NobodyGains(a: seq<Account>, clearing: u16)
    ensures Traded(a, a, OneGain(0, 0), 0, clearing) && U16(0) == 0
  {
    TradedNothing(a, OneGain(0, 0), clearing);
  }

  // ---------- The contract of a cross ----------

  /** What may be parked: orders of the table that do not rest, each once. The limit is the heap's own. */
  ghost predicate CanPark(arrivals: seq<u32>, table: Table, levels: seq<Level>) {
    && DistinctIds(arrivals) && |arrivals| + 1 < Pq.INDEX_LIMIT
    && forall id | id in arrivals :: id in table && Count(levels, id) == 0
  }

  /** The holds less those of the arrivals at this mark. */
  ghost function Minus(held: Holds, arrivals: seq<u32>, table: Table, mark: u16): Holds {
    (c: nat) => Plus(held(c), Freed(arrivals, table, mark)(c))
  }

  /** Who of the book's makers gained what. */
  ghost function BookGains(orders: Table, s: Sides, bidFill: nat, askFill: nat, clearing: u16, takerId: u32): Gains {
    if bidFill > 0 then MakerGains(Submit(s, Taker(false, U16(bidFill), clearing), takerId).fills, orders, true)
    else if askFill > 0 then MakerGains(Submit(s, Taker(true, U16(askFill), clearing), takerId).fills, orders, false)
    else OneGain(0, 0)
  }

  /** What each client gains in all: as a maker of the book, as a parked buyer, less as a parked seller. */
  ghost function CrossGains(l: Lists, was: Table, now: Table, s: Sides, bidFill: nat, askFill: nat, clearing: u16,
                            takerId: u32): Gains {
    (c: nat) => BookGains(was, s, bidFill, askFill, clearing, takerId)(c)
                + Filled(c, BidLine(l, was, clearing), was, now) - Filled(c, AskLine(l, was, clearing), was, now)
  }

  /** Every client's cash and shares after a cross, and the totals: what the 16-bit quantity cut off the
  book's part is all that is missing. */
  ghost predicate CrossSettled(a: seq<Account>, b: seq<Account>, l: Lists, was: Table, now: Table, s: Sides,
                               bidFill: nat, askFill: nat,
                               clearing: u16, takerId: u32) {
    Traded(a, b, CrossGains(l, was, now, s, bidFill, askFill, clearing, takerId), (U16(bidFill) - bidFill) - (U16(askFill) - askFill), clearing)
  }

  /** No share appears or disappears in a cross if and only if the book's part fits 16 bits. */
  lemma CrossConserves(a: seq<Account>, b: seq<Account>, l: Lists, was: Table, now: Table, s: Sides, bidFill: nat,
                       askFill: nat,
                       clearing: u16, takerId: u32)
    requires CrossSettled(a, b, l, was, now, s, bidFill, askFill, clearing, takerId) && (bidFill == 0 || askFill == 0)
    ensures |b| == |a| && (TotalShares(b) == TotalShares(a) <==> bidFill <= 0xFFFF && askFill <= 0xFFFF)
    ensures bidFill <= 0xFFFF && askFill <= 0xFFFF ==> TotalCash(b) == TotalCash(a)
  {
  }

  ghost function CurvesOf(l: Lists, table: Table, levels: seq<Level>, bids: nat): W.Curves
    requires bids <= |levels|
  {
    W.Curves(Lots(l.bidSorted, table), Lots(l.askSorted, table), LevelLots(levels[..bids]), LevelLots(levels[bids..]),
             Waiting(l.marketBids, table), Waiting(l.marketAsks, table))
  }

  /** The resting book after its part of the cross. */
  ghost function AfterBook(s: Sides, bidFill: nat, askFill: nat, clearing: u16, takerId: u32): Sides
  {
    if bidFill > 0 then Submit(s, Taker(false, U16(bidFill), clearing), takerId).sides
    else if askFill > 0 then Submit(s, Taker(true, U16(askFill), clearing), takerId).sides
    else s
  }

  /** The makers of the book's part, less their fills. */
  ghost function BookedOrders(orders: Table, s: Sides, bidFill: nat, askFill: nat, clearing: u16, takerId: u32): Table
  {
    if bidFill > 0 then Taken(orders, Submit(s, Taker(false, U16(bidFill), clearing), takerId).fills)
    else if askFill > 0 then Taken(orders, Submit(s, Taker(true, U16(askFill), clearing), takerId).fills)
    else orders
  }

  /** Every order after the cross: the book's makers first, then each side's arrivals for the rest. */
  ghost function CrossedOrders(l: Lists, orders: Table, s: Sides, matched: nat, bidFill: nat, askFill: nat,
                               clearing: u16, takerId: u32): Table
    requires bidFill <= matched && askFill <= matched
  {
    var booked := BookedOrders(orders, s, bidFill, askFill, clearing, takerId);
    Served(AskLine(l, orders, clearing), Served(BidLine(l, orders, clearing), booked, matched - bidFill), matched - askFill)
  }

  /** Without a book part, both sides' arrivals are served the whole volume. */
  lemma NoBookPart(l: Lists, orders: Table, s: Sides, matched: nat, clearing: u16, takerId: u32)
    ensures CrossedOrders(l, orders, s, matched, 0, 0, clearing, takerId) == BothServed(l, orders, matched, clearing)
  {
  }

  ghost predicate HoldsBook(now: Mbo, s: Sides) {
    Represents(now, s.bids + s.asks) && |s.bids| < 0x1_0000 && now.hiBidIndex == HiBid(|s.bids|)
  }

  lemma BookHeld(m: Mbo, levels: seq<Level>, bids: nat)
    requires OldBook(m, levels, bids)
    ensures bids <= |levels| && HoldsBook(m, SidesOf(levels, bids))
  {
    assert levels[..bids] + levels[bids..] == levels;
  }

  /** Parked orders are not in the book, before or after its part of the cross. */
  lemma ParkedApart(l: Lists, table: Table, levels: seq<Level>, bids: nat, bidFill: nat, askFill: nat, clearing: u16,
                    takerId: u32)
    requires Parked(l, table, levels) && bids <= |levels|
    ensures var after := AfterBook(SidesOf(levels, bids), bidFill, askFill, clearing, takerId);
            && (forall id | id in BidLine(l, table, clearing) :: Count(after.bids + after.asks, id) == 0)
            && (forall id | id in AskLine(l, table, clearing) :: Count(after.bids + after.asks, id) == 0)
  {
    var s := SidesOf(levels, bids);
    var after := AfterBook(s, bidFill, askFill, clearing, takerId);
    assert s.bids + s.asks == levels;
    BestIds(l.bidSorted, true);
    CrossingPrefix(Reversed(l.bidSorted), table, clearing, true);
    CrossingPrefix(l.askSorted, table, clearing, false);
    forall id | id in BidLine(l, table, clearing) || id in AskLine(l, table, clearing)
      ensures Count(after.bids + after.asks, id) == 0
    {
      assert Count(levels, id) == 0;
      if bidFill > 0 {
        SubmitCounts(s, Taker(false, U16(bidFill), clearing), takerId, id);
      } else if askFill > 0 {
        SubmitCounts(s, Taker(true, U16(askFill), clearing), takerId, id);
      }
    }
  }

  lemma StepServed(s: Sides, orders: Table, a: seq<Account>, b: seq<Account>, line: seq<u32>, shares: nat, held: Holds)
    requires SameReserves(a, b) && forall id | id in line :: Count(s.bids + s.asks, id) == 0
    ensures InStep(s, orders, a, held) ==> InStep(s, Served(line, orders, shares), b, held)
  {
    if InStep(s, orders, a, held) {
      ServedInStep(s, orders, a, b, line, shares, held);
    }
  }

  function BidLine(l: Lists, table: Table, clearing: u16): seq<u32> {
    Line(l.marketBids, Reversed(l.bidSorted), table, clearing, true)
  }

  function AskLine(l: Lists, table: Table, clearing: u16): seq<u32> {
    Line(l.marketAsks, l.askSorted, table, clearing, false)
  }

  /** Both sides' arrivals, served. */
  function BothServed(l: Lists, table: Table, matched: nat, clearing: u16): Table {
    Served(AskLine(l, table, clearing), Served(BidLine(l, table, clearing), table, matched), matched)
  }

  /** Orders that do not rest keep everything. */
  ghost predicate Unmoved(now: Table, was: Table, levels: seq<Level>) {
    forall x | x in was && Count(levels, x) == 0 :: x in now && now[x] == was[x]
  }

  lemma Unmoves(table: Table, levels: seq<Level>)
    ensures Unmoved(table, table, levels) && SameTerms(table, table)
  {
  }

  lemma StillThere(now: Table, was: Table, f: Fill)
    requires SameTerms(now, was) && f.id in was
    ensures f.id in now && now[f.id].buy == was[f.id].buy
  {
  }

  lemma TakenUnmoved(orders: Table, fills: seq<Fill>, levels: seq<Level>)
    requires forall f | f in fills :: Count(levels, f.id) > 0
    ensures Unmoved(Taken(orders, fills), orders, levels)
  {
    forall x | x in orders && Count(levels, x) == 0
      ensures x in Taken(orders, fills) && Taken(orders, fills)[x] == orders[x]
    {
      TakenApart(orders, fills, x);
    }
  }

  lemma StillInStep(levels: seq<Level>, bids: nat, orders: Table, a: seq<Account>, b: seq<Account>, isBuy: bool,
                    shares: u16, clearing: u16, takerId: u32, held: Holds)
    requires Sound(levels) && bids <= |levels| && takerId !in orders && takerId != MAX_U32
    requires AllReleased(a, b, Submit(SidesOf(levels, bids), Taker(isBuy, shares, clearing), takerId).fills, orders)
    ensures var s, taken := SidesOf(levels, bids), Submit(SidesOf(levels, bids), Taker(isBuy, shares, clearing), takerId);
            InStep(s, orders, a, held) ==> InStep(taken.sides, Taken(orders, taken.fills), b, held)
  {
    hide Submit, InStep;
    var table := orders[takerId := Taker(isBuy, shares, clearing)];
    TakerMeaning(levels, bids, table, takerId);
    if InStep(SidesOf(levels, bids), orders, a, held) {
      ConsumedInStep(SidesOf(levels, bids), orders, Taker(isBuy, shares, clearing), takerId, a, b, held);
    }
  }

  lemma BothReach(c: W.Curves, clearing: u16, matched: nat)
    requires matched > 0 ==> W.Crossed(c, clearing) == matched
    ensures matched <= W.Demand(c, clearing) && matched <= W.Supply(c, clearing)
  {
  }

  lemma BookSound(m: Mbo, levels: seq<Level>, bids: nat)
    requires OldBook(m, levels, bids)
    ensures Sound(levels) && bids <= |levels|
  {
    SoundIsOk(levels);
  }

  /** What the walk reads off the parked orders and the index is what they say. */
  method ReadCurves(l: Lists, m: Mbo, table: Table, ghost levels: seq<Level>, ghost bids: nat) returns (c: W.Curves)
    requires OldBook(m, levels, bids) && Parked(l, table, levels)
    ensures c == CurvesOf(l, table, levels, bids) && W.Sorted(c)
  {
    hide BookOk, Lots, Waiting, IndexLots, LevelLots, W.Climbing, Ascending;
    BookSound(m, levels, bids);
    assert levels[..bids] + levels[bids..] == levels;
    SplitSound(levels[..bids], levels[bids..]);
    StoredIndexed(m, levels);
    var askStart := if m.hiBidIndex == MAX_U16 then 0 else m.hiBidIndex + 1;
    IndexIsLevels(m.index[..askStart], levels[..bids]);
    IndexIsLevels(m.index[askStart..], levels[bids..]);
    LotsClimb(levels[..bids]);
    LotsClimb(levels[bids..]);
    ParkedClimb(l, table, levels);
    c := W.Curves(Lots(l.bidSorted, table), Lots(l.askSorted, table), IndexLots(m.index[..askStart]), IndexLots(m.index[askStart..]),
                  Waiting(l.marketBids, table), Waiting(l.marketAsks, table));
  }

  lemma ParkedClimb(l: Lists, table: Table, levels: seq<Level>)
    requires Parked(l, table, levels)
    ensures W.Climbing(Lots(l.bidSorted, table)) && W.Climbing(Lots(l.askSorted, table))
  {
    forall i, j | 0 <= i < j < |l.bidSorted|
      ensures Lots(l.bidSorted, table)[i].price <= Lots(l.bidSorted, table)[j].price
    {
      assert l.bidSorted[i] in l.marketBids + l.bidSorted && l.bidSorted[j] in l.marketBids + l.bidSorted;
      LotsAt(l.bidSorted, table, i);
      LotsAt(l.bidSorted, table, j);
      assert Reversed(l.bidSorted)[|l.bidSorted| - 1 - j] == l.bidSorted[j] && Reversed(l.bidSorted)[|l.bidSorted| - 1 - i] == l.bidSorted[i];
    }
    forall i, j | 0 <= i < j < |l.askSorted|
      ensures Lots(l.askSorted, table)[i].price <= Lots(l.askSorted, table)[j].price
    {
      assert l.askSorted[i] in l.marketAsks + l.askSorted && l.askSorted[j] in l.marketAsks + l.askSorted;
      LotsAt(l.askSorted, table, i);
      LotsAt(l.askSorted, table, j);
    }
  }

  /** The book's makers are on the side the taker faces. */
  lemma MakersHere(levels: seq<Level>, bids: nat, table: Table, t: Order, q: nat)
    requires bids <= |levels| && QuotedSides(SidesOf(levels, bids), table)
    ensures forall f | f in Sweep(Facing(levels, bids, t.buy), t, q).fills ::
              f.id in table && table[f.id].buy == !t.buy && Count(levels, f.id) > 0
  {
    ReverseQuoted(levels[..bids], true, table);
    SweepFillOk(Facing(levels, bids, t.buy), !t.buy, table, t, q);
    FillIds(Facing(levels, bids, t.buy), t, q);
    assert levels == levels[..bids] + levels[bids..];
    forall f | f in Sweep(Facing(levels, bids, t.buy), t, q).fills
      ensures Count(levels, f.id) > 0
    {
      CountConcat(levels[..bids], levels[bids..], f.id);
      CountReverse(levels[..bids], f.id);
    }
  }

  // ---------- The lines when their turn comes ----------

  lemma {:induction false} WaitingKept(line: seq<u32>, was: Table, now: Table)
    requires forall id | id in line :: Quantity(now, id) == Quantity(was, id)
    ensures Waiting(line, now) == Waiting(line, was)
  {
    if line != [] {
      WaitingKept(line[1..], was, now);
    }
  }

  /** A side's line, on a table where its orders are as they were: the curve's count, and room to
  serve what the book does not. */
  lemma SideReady(markets: seq<u32>, best: seq<u32>, was: Table, now: Table, clearing: u16, isBuy: bool)
    requires SameTerms(now, was) && BestFirst(best, was, isBuy) && DistinctIds(markets + best)
    requires forall id | id in markets + best :: id in was && now[id] == was[id]
    ensures Line(markets, best, now, clearing, isBuy) == Line(markets, best, was, clearing, isBuy)
    ensures Waiting(Line(markets, best, now, clearing, isBuy), now)
            == Waiting(markets, was) + (if isBuy then W.AtOrAbove(Lots(best, was), clearing) else W.AtOrBelow(Lots(best, was), clearing))
    ensures forall id | id in Line(markets, best, was, clearing, isBuy) :: id in markets + best
  {
    CrossingSame(best, was, now, clearing, isBuy);
    CrossingPrefix(best, was, clearing, isBuy);
    CrossingWaits(best, was, clearing, isBuy);
    var limits := CrossingLimits(best, was, clearing, isBuy);
    WaitingConcat(markets, limits, was);
    WaitingKept(markets + limits, was, now);
  }

  lemma BidsReady(l: Lists, was: Table, now: Table, levels: seq<Level>, bids: nat, clearing: u16, matched: nat)
    requires Parked(l, was, levels) && bids <= |levels| && SameTerms(now, was) && Unmoved(now, was, levels)
    requires matched <= W.Demand(CurvesOf(l, was, levels, bids), clearing)
    ensures forall id | id in l.marketBids + l.bidSorted :: id in now
    ensures DistinctIds(l.marketBids + Reversed(l.bidSorted))
    ensures Line(l.marketBids, Reversed(l.bidSorted), now, clearing, true) == BidLine(l, was, clearing)
    ensures Waiting(BidLine(l, was, clearing), now) + InReach(levels, bids, false, clearing) >= matched
  {
    BestIds(l.bidSorted, true);
    SideReady(l.marketBids, Reversed(l.bidSorted), was, now, clearing, true);
    AboveReversed(l.bidSorted, was, clearing);
  }

  lemma AsksReady(l: Lists, was: Table, booked: Table, shares: nat, levels: seq<Level>, bids: nat, clearing: u16,
                  matched: nat)
    requires Parked(l, was, levels) && bids <= |levels| && SameTerms(booked, was) && Unmoved(booked, was, levels)
    requires matched <= W.Supply(CurvesOf(l, was, levels, bids), clearing)
    ensures var now := Served(BidLine(l, was, clearing), booked, shares);
            && (forall id | id in l.marketAsks + l.askSorted :: id in now)
            && DistinctIds(l.marketAsks + l.askSorted)
            && Line(l.marketAsks, l.askSorted, now, clearing, false) == AskLine(l, was, clearing)
            && Waiting(AskLine(l, was, clearing), now) + InReach(levels, bids, true, clearing) >= matched
  {
    var line := BidLine(l, was, clearing);
    var now := Served(line, booked, shares);
    BestIds(l.bidSorted, true);
    SideReady(l.marketBids, Reversed(l.bidSorted), was, booked, clearing, true);
    ServedTerms(line, booked, shares);
    TermsChain(now, booked, was);
    forall id | id in l.marketAsks + l.askSorted
      ensures id in was && now[id] == was[id]
    {
      ServedApart(line, booked, shares, id);
    }
    SideReady(l.marketAsks, l.askSorted, was, now, clearing, false);
  }

  // ---------- Everyone's gain: the facts ----------

  lemma FreedInStep(s: Sides, orders: Table, a: seq<Account>, b: seq<Account>, arrivals: seq<u32>, mark: u16, held: Holds)
    requires Moves(a, b, Freed(arrivals, orders, mark))
    ensures InStep(s, orders, a, held) ==> InStep(s, orders, b, Minus(held, arrivals, orders, mark))
  {
    if InStep(s, orders, a, held) {
      MovedInStep(s, orders, a, b, Freed(arrivals, orders, mark), held, Minus(held, arrivals, orders, mark));
    }
  }

  /** Giving holds back moves no cash and no share. */
  lemma SettledFromStart(start: seq<Account>, freed: seq<Account>, end: seq<Account>, arrivals: seq<u32>, mark: u16,
                         l: Lists, was: Table, now: Table,
                         s: Sides, bidFill: nat, askFill: nat, clearing: u16, takerId: u32)
    requires Moves(start, freed, Freed(arrivals, was, mark))
    requires CrossSettled(freed, end, l, was, now, s, bidFill, askFill, clearing, takerId)
    ensures CrossSettled(start, end, l, was, now, s, bidFill, askFill, clearing, takerId)
  {
    hide CrossGains;
  }

  /** The book's makers, then the buyers, then the sellers: each line's orders are only touched in its
  own turn. */
  lemma BothGain(l: Lists, was: Table, booked: Table, bought: Table, now: Table, levels: seq<Level>, clearing: u16,
                 matched: nat, bidFill: nat, askFill: nat,
                 start: seq<Account>, paid: seq<Account>, billed: seq<Account>, end: seq<Account>, s: Sides, takerId: u32)
    requires Parked(l, was, levels) && SameTerms(booked, was) && Unmoved(booked, was, levels) && bidFill <= matched
    requires askFill <= matched
    requires bought == Served(BidLine(l, was, clearing), booked, matched - bidFill)
    requires now == Served(AskLine(l, was, clearing), bought, matched - askFill)
    requires Traded(start, paid, BookGains(was, s, bidFill, askFill, clearing, takerId), U16(bidFill) - U16(askFill), clearing)
    requires Traded(paid, billed, LineGains(BidLine(l, was, clearing), booked, bought, true), Towards(matched - bidFill, true), clearing)
    requires Traded(billed, end, LineGains(AskLine(l, was, clearing), bought, now, false), Towards(matched - askFill, false), clearing)
    ensures CrossSettled(start, end, l, was, now, s, bidFill, askFill, clearing, takerId)
  {
    hide Traded, Served, Filled, BookGains, Parked, BidLine, AskLine, SameTerms, Unmoved;
    var bids, asks, book := BidLine(l, was, clearing), AskLine(l, was, clearing), BookGains(was, s, bidFill, askFill, clearing, takerId);
    var both: Gains := (c: nat) => book(c) + LineGains(bids, booked, bought, true)(c);
    TradedTwice(start, paid, billed, book, LineGains(bids, booked, bought, true), both, U16(bidFill) - U16(askFill),
                matched - bidFill, clearing);
    forall c: nat
      ensures Filled(c, bids, booked, bought) == Filled(c, bids, was, now)
      ensures Filled(c, asks, bought, now) == Filled(c, asks, was, now)
    {
      LinesApart(c, l, was, booked, bought, now, levels, clearing, matched - bidFill, matched - askFill);
    }
    TradedTwice(start, billed, end, both, LineGains(asks, bought, now, false), CrossGains(l, was, now, s, bidFill, askFill, clearing, takerId),
                 U16(bidFill) - U16(askFill) + (matched - bidFill), -(matched - askFill), clearing);
  }

  lemma CrossedInTurn(l: Lists, was: Table, s: Sides, matched: nat, bidFill: nat, askFill: nat, clearing: u16, takerId: u32)
    requires bidFill <= matched && askFill <= matched
    ensures var bought := Served(BidLine(l, was, clearing), BookedOrders(was, s, bidFill, askFill, clearing, takerId), matched - bidFill);
            CrossedOrders(l, was, s, matched, bidFill, askFill, clearing, takerId) == Served(AskLine(l, was, clearing), bought, matched - askFill)
  {
  }

  lemma LinesApart(c: nat, l: Lists, was: Table, booked: Table, bought: Table, now: Table, levels: seq<Level>,
                   clearing: u16, buys: nat, sells: nat)
    requires Parked(l, was, levels) && SameTerms(booked, was) && Unmoved(booked, was, levels)
    requires bought == Served(BidLine(l, was, clearing), booked, buys)
    requires now == Served(AskLine(l, was, clearing), bought, sells)
    ensures Filled(c, BidLine(l, was, clearing), booked, bought) == Filled(c, BidLine(l, was, clearing), was, now)
    ensures Filled(c, AskLine(l, was, clearing), bought, now) == Filled(c, AskLine(l, was, clearing), was, now)
  {
    hide Served, Filled, SameTerms, BidLine, AskLine;
    var bids, asks := BidLine(l, was, clearing), AskLine(l, was, clearing);
    LineIds(l, was, levels, clearing);
    ServedTerms(bids, booked, buys);
    ServedTerms(asks, bought, sells);
    SameKeys(booked, was);
    SameKeys(bought, booked);
    SameKeys(now, bought);
    forall id | id in bids
      ensures id in was && booked[id] == was[id] && now[id] == bought[id]
    {
      ServedApart(asks, bought, sells, id);
    }
    forall id | id in asks
      ensures id in was && bought[id] == was[id]
    {
      ServedApart(bids, booked, buys, id);
    }
    FilledSame(c, bids, booked, bought, was, now);
    FilledSame(c, asks, bought, now, was, now);
  }

  /** Both lines are made of parked orders, and no order stands in both. */
  lemma LineIds(l: Lists, was: Table, levels: seq<Level>, clearing: u16)
    requires Parked(l, was, levels)
    ensures forall id | id in BidLine(l, was, clearing) :: id in was && Count(levels, id) == 0 && id !in AskLine(l, was, clearing)
    ensures forall id | id in AskLine(l, was, clearing) :: id in was && Count(levels, id) == 0
  {
    BestIds(l.bidSorted, true);
    CrossingPrefix(Reversed(l.bidSorted), was, clearing, true);
    CrossingPrefix(l.askSorted, was, clearing, false);
    forall id | id in BidLine(l, was, clearing)
      ensures id in l.marketBids + l.bidSorted
    {
    }
    forall id | id in AskLine(l, was, clearing)
      ensures id in l.marketAsks + l.askSorted
    {
    }
  }
}
