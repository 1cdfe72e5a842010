/** What the exchange's invariant rests on: what the reserves are made of, and what a message, a cancel
in the window, a cross and the close leave alone (src/server.c). */
module ExchangeFacts {
  import opened Machine
  import opened Book
  import opened BookFacts
  import opened BookRuns
  import opened Snapshot
  import opened SnapshotWriter
  import opened Ranges
  import opened FirstLeg
  import opened Canrep
  import opened Weights
  import opened Settle
  import opened SettlePair
  import opened LegWalk
  import opened Ledger
  import opened Desk
  import opened Prechecks
  import opened PairDesk
  import opened ServerOrders
  import opened Bystanders
  import opened FillCounts
  import opened AuctionFill
  import opened AuctionStep
  import opened AuctionBook
  import opened AuctionHold
  import opened AuctionGain
  import opened AuctionPark
  import opened AuctionRest
  import opened Auctioneer
  import opened RingBuffer
  import opened Prints
  import Closing
  import Pq
  import W = AuctionWalk

  // ---------- What the reserves are made of ----------

  /** The parked orders' holds at this mark, and what slipped. */
  function HeldBy(arrivals: seq<u32>, table: Table, mark: u16, drift: Holds): Holds {
    (c: nat) => Plus(Tied(c, arrivals, table, mark), drift(c))
  }

  /** Parked orders: in the table, each once, none of them in the book. */
  ghost predicate Away(arrivals: seq<u32>, table: Table, levels: seq<Level>) {
    DistinctIds(arrivals) && forall id | id in arrivals :: id in table && Count(levels, id) == 0
  }

  /** Shares parked on one side. */
  function Waits(arrivals: seq<u32>, table: Table, buy: bool): nat {
    if arrivals == [] then 0
    else Waits(arrivals[..|arrivals| - 1], table, buy) + OneWaits(arrivals[|arrivals| - 1], table, buy)
  }

  function OneWaits(id: u32, table: Table, buy: bool): nat {
    if id in table && table[id].buy == buy then table[id].quantity else 0
  }

  lemma {:induction false} WaitsSame(arrivals: seq<u32>, was: Table, now: Table, buy: bool)
    requires forall id | id in arrivals :: id in was && id in now && now[id] == was[id]
    ensures Waits(arrivals, now, buy) == Waits(arrivals, was, buy)
  {
    if arrivals != [] {
      assert arrivals[|arrivals| - 1] in arrivals && forall id | id in arrivals[..|arrivals| - 1] :: id in arrivals;
      WaitsSame(arrivals[..|arrivals| - 1], was, now, buy);
    }
  }

  /** Parked orders that stay as they are hold what they held and wait as they did. */
  lemma HeldSame(arrivals: seq<u32>, was: Table, now: Table, mark: u16, drift: Holds)
    requires forall id | id in arrivals :: id in was && id in now && now[id] == was[id]
    ensures forall c: nat :: HeldBy(arrivals, now, mark, drift)(c) == HeldBy(arrivals, was, mark, drift)(c)
    ensures forall buy :: Waits(arrivals, now, buy) == Waits(arrivals, was, buy)
  {
    forall c: nat
      ensures Tied(c, arrivals, now, mark) == Tied(c, arrivals, was, mark)
    {
      TiedSame(c, arrivals, was, now, mark);
    }
    forall buy
      ensures Waits(arrivals, now, buy) == Waits(arrivals, was, buy)
    {
      WaitsSame(arrivals, was, now, buy);
    }
  }

  /** What rests is in the table. */
  lemma AgreesKnown(s: Sides, table: Table, a: seq<Account>, held: Holds)
    requires InStep(s, table, a, held)
    ensures forall x | Count(s.bids + s.asks, x) > 0 :: x in table
  {
    forall x | Count(s.bids + s.asks, x) > 0
      ensures x in table
    {
      HeldQuantity(s, table, x);
    }
  }

  /** The price of the last trade. */
  function LastPrice(fills: seq<Fill>, table: Table, mark: u16): u16 {
    if fills == [] || fills[|fills| - 1].id !in table then mark else table[fills[|fills| - 1].id].price
  }

  /** A message marks the market at the worst price it reached, */
  lemma MessageMarks(s: Sides, table: Table, id: u32, mark: u16)
    requires SoundSides(s) && Agrees(s, table) && id in table && HasTarget(table[id], table)
    ensures var fills := Message(s, table, id).fills;
            MarkedAtWorst(fills, table, table[id].buy, mark, LastPrice(fills, table, mark))
  {
    hide Message;
    MessageWorsens(s, table, id);
    LastIsWorst(Message(s, table, id).fills, table, table[id].buy, mark,
                LastPrice(Message(s, table, id).fills, table, mark));
  }

  /** and so does a pair. */
  lemma PairMarks(s: Sides, table: Table, bidId: u32, askId: u32, taker: u32, mark: u16)
    requires SoundSides(s) && Agrees(s, table) && PairSettleable(s, table, bidId, askId)
    requires TakerOf(s, table, bidId, askId, taker)
    ensures var fills := PairMessage(s, table, bidId, askId).fills;
            MarkedAtWorst(fills, table, taker == bidId, mark, LastPrice(fills, table, mark))
  {
    hide PairMessage;
    PairWorsens(s, table, bidId, askId, taker);
    var fills := PairMessage(s, table, bidId, askId).fills;
    LastIsWorst(fills, table, taker == bidId, mark, LastPrice(fills, table, mark));
  }

  /** Parked market bids were held at one mark and will be given back at another. */
  function Slipped(drift: Holds, arrivals: seq<u32>, table: Table, was: u16, now: u16): Holds {
    (c: nat) => Hold(drift(c).cash + MarketBids(c, arrivals, table) * (was as int - now), drift(c).shares)
  }

  /** What rests bare is missing from what is held, whichever part of it one looks at. */
  lemma HeldBehind(arrivals: seq<u32>, table: Table, mark: u16, drift: Holds, id: u32, fills: seq<Fill>)
    requires id in table
    ensures forall c: nat :: HeldBy(arrivals, table, mark, Behind(drift, table, id, fills))(c)
                             == Behind(HeldBy(arrivals, table, mark, drift), table, id, fills)(c)
  {
    hide Tied, Bare, BidValue, AskShares;
    forall c: nat
      ensures HeldBy(arrivals, table, mark, Behind(drift, table, id, fills))(c)
              == Behind(HeldBy(arrivals, table, mark, drift), table, id, fills)(c)
    {
      BehindIs(drift, table, id, fills, c);
      BehindIs(HeldBy(arrivals, table, mark, drift), table, id, fills, c);
    }
  }

  /** The outcome of an accepted message on book, fills and table. */
  ghost predicate Executed(s: Sides, after: Sides, table: Table, now: Table, id: u32, fills: seq<Fill>) {
    && id in table && HasTarget(table[id], table)
    && Outcome(after, fills) == Message(s, table, id) && now == AfterMessage(table, id, fills)
  }

  lemma ExecutedMeans(s: Sides, after: Sides, table: Table, now: Table, id: u32, fills: seq<Fill>)
    requires Executed(s, after, table, now, id, fills)
    ensures id in table && HasTarget(table[id], table) && Outcome(after, fills) == Message(s, table, id)
  {
  }

  ghost predicate Rejected(table: Table, now: Table, id: u32, fills: seq<Fill>) {
    now == Emptied(table, id) && fills == []
  }

  /** An order whose own client has no hold behind it: priced at nothing, to buy. */
  ghost predicate HoldsNothing(id: u32, table: Table, mark: u16) {
    id in table && OneHold(table[id].client, id, table, mark) == Hold(0, 0)
  }

  // ---------- What an add to the window is told ----------

  /** The client's own money, or its own shares, cover one more hold. */
  predicate CanHold(o: Order, a: Account, mark: u16) {
    if o.buy then a.cash >= a.reservedCash + o.quantity * (if o.market then mark else o.price)
    else a.shares >= a.reservedShares + o.quantity
  }

  /** What an add to the window is told: only a plain order with a size, and a price if it is a limit, may
  park; when the late window has to be brought into balance, only on the lighter side; and then exactly
  when its client can hold it. */
  predicate ParkJudged(reason: Reason, o: Order, a: Account, special: bool, mark: u16, late: bool, buys: u32, sells: u32) {
    if o.canRep || special || o.quantity == 0 || (!o.market && o.price == 0) then reason in {BadQualifier, InvalidQuantity, InvalidPrice}
    else if late && (if o.buy then buys > sells else sells > buys) then reason == OffsetOnly
    else if CanHold(o, a, mark) then reason == NoReason
    else reason == if o.buy then NoBuyingPower else NoShares
  }

  /** The side that was ahead is still where it was. */
  predicate Offset(buys: u32, sells: u32, nowBuys: u32, nowSells: u32) {
    if buys > sells then nowBuys == buys else nowSells == sells
  }

  /** With its hold in place, and within 32 bits, the client's own money covers its reserve, or its shares do. */
  predicate HoldCovered(o: Order, was: Account, now: Account, mark: u16) {
    && now.cash == was.cash && now.shares == was.shares
    && (o.buy && was.reservedCash + o.quantity * (if o.market then mark else o.price) < 0x1_0000_0000 ==>
          now.reservedCash == was.reservedCash + o.quantity * (if o.market then mark else o.price) <= now.cash)
    && (!o.buy && was.reservedShares + o.quantity < 0x1_0000_0000 ==>
          now.reservedShares == was.reservedShares + o.quantity <= now.shares)
  }

  lemma HeldCovered(a: seq<Account>, b: seq<Account>, id: u32, table: Table, mark: u16)
    requires id in table && table[id].client < |a| && Moves(a, b, OneHeld(id, table, mark))
    requires CanHold(table[id], a[table[id].client], mark)
    ensures |b| == |a| && HoldCovered(table[id], a[table[id].client], b[table[id].client], mark)
  {
    hide Low32;
    var o, c := table[id], table[id].client;
    var cash, shares := a[c].reservedCash + OneHold(c, id, table, mark).cash, a[c].reservedShares + OneHold(c, id, table, mark).shares;
    if cash < 0x1_0000_0000 {
      NothingWraps(cash);
    }
    if shares < 0x1_0000_0000 {
      NothingWraps(shares);
    }
    assert Shift(a[c], b[c], OneHold(c, id, table, mark).cash, OneHold(c, id, table, mark).shares);
  }

  /** What is held after a message, put together from what was. */
  lemma HeldAfter(arrivals: seq<u32>, table: Table, now: Table, was: u16, mark: u16, drift: Holds, id: u32, fills: seq<Fill>)
    requires id in table && forall x | x in arrivals :: x in table && x in now && now[x] == table[x]
    ensures forall c: nat :: HeldBy(arrivals, now, mark, Slipped(Behind(drift, table, id, fills), arrivals, now, was, mark))(c)
                             == Behind(HeldBy(arrivals, table, was, drift), table, id, fills)(c)
    ensures forall buy :: Waits(arrivals, now, buy) == Waits(arrivals, table, buy)
  {
    hide HeldBy, Slipped, Behind;
    HeldSlips(arrivals, table, now, was, mark, Behind(drift, table, id, fills));
    HeldBehind(arrivals, table, was, drift, id, fills);
  }

  /** With the mark as it was, what the reserves match tells what rests bare. */
  lemma BackedAfter(after: Sides, now: Table, a: seq<Account>, table: Table, arrivals: seq<u32>, mark: u16,
                    drift: Holds, held: Holds,
                    id: u32, fills: seq<Fill>)
    requires id in table && (forall x | x in arrivals :: x in table && x in now && now[x] == table[x])
    requires held == HeldBy(arrivals, table, mark, drift)
    requires InStep(after, now, a, Behind(held, table, id, fills))
    requires InStep(after, now, a, held) <==> Bare(table[id], fills) == 0
    requires Congruent(|a|, drift, NoHolds())
    ensures ReservesOk(a, after, now, HeldBy(arrivals, now, mark, NoHolds())) <==> Bare(table[id], fills) == 0
  {
    hide Behind, Bare, Tied, Low32, SoundSides, Agrees;
    var plain := HeldBy(arrivals, now, mark, NoHolds());
    HeldSame(arrivals, table, now, mark, drift);
    forall c | 0 <= c < |a|
      ensures held(c).cash - plain(c).cash == drift(c).cash - NoHolds()(c).cash
      ensures held(c).shares - plain(c).shares == drift(c).shares - NoHolds()(c).shares
    {
      HeldParts(c, arrivals, now, mark, drift);
    }
    CongruentSame(|a|, held, plain, drift);
    if ReservesOk(a, after, now, held) {
      ReservesCongruent(a, after, now, held, plain);
    }
    if ReservesOk(a, after, now, plain) {
      ReservesCongruent(a, after, now, plain, held);
      CongruentBack(|a|, held, plain);
    }
  }

  lemma HeldParts(c: nat, arrivals: seq<u32>, table: Table, mark: u16, drift: Holds)
    ensures var held, plain := HeldBy(arrivals, table, mark, drift)(c), HeldBy(arrivals, table, mark, NoHolds())(c);
            held.cash - plain.cash == drift(c).cash - NoHolds()(c).cash && held.shares - plain.shares == drift(c).shares - NoHolds()(c).shares
  {
    hide Tied;
  }

  lemma CongruentSame(n: nat, held: Holds, plain: Holds, drift: Holds)
    requires forall c | 0 <= c < n :: held(c).cash - plain(c).cash == drift(c).cash - NoHolds()(c).cash
    requires forall c | 0 <= c < n :: held(c).shares - plain(c).shares == drift(c).shares - NoHolds()(c).shares
    requires Congruent(n, drift, NoHolds())
    ensures Congruent(n, held, plain)
  {
  }

  lemma CongruentBack(n: nat, a: Holds, b: Holds)
    requires Congruent(n, a, b)
    ensures Congruent(n, b, a)
  {
    forall c | 0 <= c < n
      ensures Low32(b(c).cash - a(c).cash) == 0 && Low32(b(c).shares - a(c).shares) == 0
    {
      Low32Turns(a(c).cash, b(c).cash);
      Low32Turns(b(c).cash, a(c).cash);
      Low32Turns(a(c).shares, b(c).shares);
      Low32Turns(b(c).shares, a(c).shares);
    }
  }

  // ---------- Reserves and drift ----------

  /** The first n clients' holds differ by whole turns of a 32-bit field. */
  ghost predicate Congruent(n: nat, a: Holds, b: Holds) {
    forall c | 0 <= c < n :: Low32(a(c).cash - b(c).cash) == 0 && Low32(a(c).shares - b(c).shares) == 0
  }

  lemma Low32Turns(x: int, y: int)
    ensures Low32(x) == Low32(y) <==> Low32(x - y) == 0
  {
    Low32IsU32(x);
    Low32IsU32(y);
    Low32IsU32(x - y);
  }

  /** Reserves that match the book with one set of holds match it with another if and only if the two
  are congruent. */
  lemma ReservesCongruent(a: seq<Account>, s: Sides, table: Table, held: Holds, next: Holds)
    requires ReservesOk(a, s, table, held)
    ensures ReservesOk(a, s, table, next) <==> Congruent(|a|, held, next)
  {
    hide Low32;
    forall c | 0 <= c < |a|
      ensures ReserveOk(a[c], c, s, table, next) <==> Low32(held(c).cash - next(c).cash) == 0 && Low32(held(c).shares - next(c).shares) == 0
    {
      assert ReserveOk(a[c], c, s, table, held);
      Low32Turns(WeighSides(s, BidValue(c, table)) + held(c).cash, WeighSides(s, BidValue(c, table)) + next(c).cash);
      Low32Turns(WeighSides(s, AskShares(c, table)) + held(c).shares, WeighSides(s, AskShares(c, table)) + next(c).shares);
    }
  }

  /** Nothing slipped, so every reserve is what rests and what is parked. */
  lemma BackedIs(a: seq<Account>, s: Sides, table: Table, arrivals: seq<u32>, mark: u16, drift: Holds)
    requires InStep(s, table, a, HeldBy(arrivals, table, mark, drift))
    ensures ReservesOk(a, s, table, HeldBy(arrivals, table, mark, NoHolds())) <==> Congruent(|a|, drift, NoHolds())
  {
    hide ReservesOk, Low32, Tied;
    ReservesCongruent(a, s, table, HeldBy(arrivals, table, mark, drift), HeldBy(arrivals, table, mark, NoHolds()));
    forall c | 0 <= c < |a|
      ensures HeldBy(arrivals, table, mark, drift)(c).cash - HeldBy(arrivals, table, mark, NoHolds())(c).cash == drift(c).cash - NoHolds()(c).cash
      ensures HeldBy(arrivals, table, mark, drift)(c).shares - HeldBy(arrivals, table, mark, NoHolds())(c).shares == drift(c).shares - NoHolds()(c).shares
    {
    }
  }

  /** Less of somebody's hold than a whole turn leaves no drift if and only if it is nothing. */
  lemma DriftFreed(n: nat, drift: Holds, id: u32, table: Table, mark: u16)
    requires Congruent(n, drift, NoHolds()) && id in table && table[id].client < n
    ensures Congruent(n, Both(drift, OneFreed(id, table, mark)), NoHolds()) <==> OneHold(table[id].client, id, table, mark) == Hold(0, 0)
  {
    hide Low32;
    var now := Both(drift, OneFreed(id, table, mark));
    forall c | 0 <= c < n
      ensures Low32(now(c).cash - NoHolds()(c).cash) == 0 <==> OneHold(c, id, table, mark).cash == 0
      ensures Low32(now(c).shares - NoHolds()(c).shares) == 0 <==> OneHold(c, id, table, mark).shares == 0
    {
      HoldFits(c, id, table, mark);
      Low32Apart(drift(c).cash, OneHold(c, id, table, mark).cash);
      Low32Apart(drift(c).shares, OneHold(c, id, table, mark).shares);
    }
    assert forall c | 0 <= c < n && c != table[id].client :: OneHold(c, id, table, mark) == Hold(0, 0);
  }

  lemma DriftGone(n: nat, drift: Holds, id: u32, table: Table, mark: u16)
    requires Congruent(n, drift, NoHolds()) && id in table && table[id].client < n
    ensures Congruent(n, Both(drift, OneFreed(id, table, mark)), NoHolds()) <==> HoldsNothing(id, table, mark)
  {
    DriftFreed(n, drift, id, table, mark);
  }

  /** A mark that stays lets nothing slip. */
  lemma SlippedSame(n: nat, drift: Holds, arrivals: seq<u32>, table: Table, mark: u16)
    ensures Congruent(n, Slipped(drift, arrivals, table, mark, mark), NoHolds()) <==> Congruent(n, drift, NoHolds())
  {
    hide Low32, MarketBids;
    forall c: nat
      ensures Slipped(drift, arrivals, table, mark, mark)(c) == drift(c)
    {
      assert MarketBids(c, arrivals, table) * 0 == 0;
    }
  }

  lemma HoldFits(c: nat, id: u32, table: Table, mark: u16)
    ensures 0 <= OneHold(c, id, table, mark).cash < 0x1_0000_0000 && 0 <= OneHold(c, id, table, mark).shares < 0x1_0000_0000
  {
    if id in table {
      BareProduct(table[id].quantity, HeldPrice(table[id], mark));
    }
  }

  lemma HeldSlips(arrivals: seq<u32>, table: Table, now: Table, was: u16, mark: u16, drift: Holds)
    requires forall id | id in arrivals :: id in table && id in now && now[id] == table[id]
    ensures forall c: nat :: HeldBy(arrivals, now, mark, Slipped(drift, arrivals, now, was, mark))(c) == HeldBy(arrivals, table, was, drift)(c)
    ensures forall buy :: Waits(arrivals, now, buy) == Waits(arrivals, table, buy)
  {
    HeldSame(arrivals, table, now, was, drift);
    forall c: nat
      ensures HeldBy(arrivals, now, mark, Slipped(drift, arrivals, now, was, mark))(c) == HeldBy(arrivals, now, was, drift)(c)
    {
      HoldMoves(c, arrivals, now, was, mark);
      Backwards(MarketBids(c, arrivals, now), was, mark);
      var slipped := Slipped(drift, arrivals, now, was, mark)(c);
      assert slipped.cash == drift(c).cash + MarketBids(c, arrivals, now) * (was as int - mark);
    }
  }

  lemma Backwards(n: nat, was: int, now: int)
    ensures n * (now - was) + n * (was - now) == 0
  {
  }

  lemma NothingTraded(a: seq<Account>)
    requires forall x | x in a :: x.reservedCash == 0 && x.reservedShares == 0
    ensures SidesOf([], 0) == Sides([], []) && HoldsBook(Mbo(MAX_U16, 0, [], []), SidesOf([], 0))
    ensures InStep(SidesOf([], 0), map[], a, HeldBy([], map[], 0, NoHolds()))
    ensures Low32(Waits([], map[], true)) == Low32(Waits([], map[], false)) == 0
  {
    hide InStep, Low32, Tied;
    assert SidesOf([], 0) == Sides([], []);
    NothingWraps(0);
    forall c: nat
      ensures HeldBy([], map[], 0, NoHolds())(c) == Hold(0, 0)
    {
      NothingTied(c);
    }
    EmptyInStep(a, map[], HeldBy([], map[], 0, NoHolds()));
  }

  lemma EmptyInStep(a: seq<Account>, table: Table, held: Holds)
    requires (forall x | x in a :: x.reservedCash == 0 && x.reservedShares == 0) && forall c: nat :: held(c) == Hold(0, 0)
    ensures InStep(Sides([], []), table, a, held)
  {
    hide Low32;
    NothingWraps(0);
    forall c | 0 <= c < |a|
      ensures ReserveOk(a[c], c, Sides([], []), table, held)
    {
      assert a[c] in a && WeighSides(Sides([], []), BidValue(c, table)) == 0 == WeighSides(Sides([], []), AskShares(c, table));
    }
  }

  lemma NothingWraps(x: int)
    requires 0 <= x < 0x1_0000_0000
    ensures Low32(x) == x
  {
  }

  lemma NothingTied(c: nat)
    ensures HeldBy([], map[], 0, NoHolds())(c) == Hold(0, 0)
  {
    assert NoHolds()(c) == Hold(0, 0);
    assert Tied(c, [], map[], 0) == Hold(0, 0);
  }

  lemma InStepParts(s: Sides, table: Table, a: seq<Account>, held: Holds)
    requires InStep(s, table, a, held)
    ensures SoundSides(s) && Agrees(s, table)
  {
  }

  /** A snapshot within its limits is the old book of the next message. */
  lemma RoomForBook(m: Mbo, levels: seq<Level>, bids: nat)
    requires bids <= |levels| && HoldsBook(m, SidesOf(levels, bids)) && SoundSides(SidesOf(levels, bids))
    requires (forall l | l in levels :: |l.orders| <= COPY_LIMIT) && |levels| < 0xFFFF
    ensures OldBook(m, levels, bids)
  {
    SidesJoin(levels, bids);
    SoundIsOk(levels);
  }

  lemma RefinedHolds(now: Mbo, size: nat, fills: seq<Fill>, meaning: Outcome)
    requires Refines(now, size, fills, meaning)
    ensures var levels, bids := meaning.sides.bids + meaning.sides.asks, |meaning.sides.bids|;
            bids <= |levels| && SidesOf(levels, bids) == meaning.sides && HoldsBook(now, meaning.sides) && fills == meaning.fills
  {
  }

  /** The parked orders sit a message out. */
  lemma MessagePasses(s: Sides, table: Table, id: u32, fills: seq<Fill>, arrivals: seq<u32>, levels: seq<Level>, bids: nat)
    requires bids <= |levels| && s == SidesOf(levels, bids) && SoundSides(s) && Agrees(s, table) && Settleable(s, table, id)
    requires Away(arrivals, table, levels) && id !in arrivals && fills == Message(s, table, id).fills
    ensures var after, now := Message(s, table, id).sides, AfterMessage(table, id, fills);
            Away(arrivals, now, after.bids + after.asks) && forall x | x in arrivals :: x in table && x in now && now[x] == table[x]
  {
    hide Message, AfterMessage;
    SidesJoin(levels, bids);
    forall x | x in arrivals
      ensures var after, now := Message(s, table, id).sides, AfterMessage(table, id, fills);
              Count(after.bids + after.asks, x) == 0 && x in now && now[x] == table[x]
    {
      MessageSpares(s, table, id, x);
    }
  }

  lemma IncomingKnown(table: Table, levels: seq<Level>, id: u32)
    requires Incoming(table, levels, id)
    ensures id in table && HasTarget(table[id], table)
  {
  }

  lemma RejectedSpares(table: Table, id: u32, arrivals: seq<u32>, levels: seq<Level>)
    requires Away(arrivals, table, levels) && id !in arrivals
    ensures Away(arrivals, Emptied(table, id), levels)
    ensures forall x | x in arrivals :: x in table && x in Emptied(table, id) && Emptied(table, id)[x] == table[x]
  {
  }

  lemma PairKnown(table: Table, levels: seq<Level>, bidId: u32, askId: u32)
    requires PairIncoming(table, levels, bidId, askId)
    ensures bidId in table && HasTarget(table[bidId], table) && askId in table && HasTarget(table[askId], table)
  {
  }

  lemma PairPasses(s: Sides, table: Table, bidId: u32, askId: u32, taker: u32, fills: seq<Fill>, arrivals: seq<u32>,
                   levels: seq<Level>, bids: nat)
    requires bids <= |levels| && s == SidesOf(levels, bids) && SoundSides(s) && Agrees(s, table)
    requires PairSettleable(s, table, bidId, askId) && TakerOf(s, table, bidId, askId, taker)
    requires Away(arrivals, table, levels) && bidId !in arrivals && askId !in arrivals
    requires fills == PairMessage(s, table, bidId, askId).fills
    ensures var after, now := PairMessage(s, table, bidId, askId).sides, AfterPair(table, bidId, askId, fills, taker);
            Away(arrivals, now, after.bids + after.asks) && forall x | x in arrivals :: x in table && x in now && now[x] == table[x]
  {
    hide PairMessage, AfterPair;
    SidesJoin(levels, bids);
    forall x | x in arrivals
      ensures var after, now := PairMessage(s, table, bidId, askId).sides, AfterPair(table, bidId, askId, fills, taker);
              Count(after.bids + after.asks, x) == 0 && x in now && now[x] == table[x]
    {
      PairSpares(s, table, bidId, askId, taker, x);
    }
  }

  /** An order turned away at the window is wiped. */
  lemma RejectedParks(s: Sides, table: Table, a: seq<Account>, id: u32, arrivals: seq<u32>, levels: seq<Level>,
                      bids: nat, mark: u16, drift: Holds)
    requires InStep(s, table, a, HeldBy(arrivals, table, mark, drift)) && Away(arrivals, table, levels) && id !in arrivals
    requires bids <= |levels| && s == SidesOf(levels, bids) && Count(levels, id) == 0
    ensures var now := Emptied(table, id);
            && InStep(s, now, a, HeldBy(arrivals, now, mark, drift)) && Away(arrivals, now, levels)
            && forall buy :: Waits(arrivals, now, buy) == Waits(arrivals, table, buy)
  {
    hide InStep, HeldBy;
    var now, held := Emptied(table, id), HeldBy(arrivals, table, mark, drift);
    SidesJoin(levels, bids);
    RejectedSpares(table, id, arrivals, levels);
    HeldSame(arrivals, table, now, mark, drift);
    AgreesKnown(s, table, a, held);
    InStepApart(s, table, now, a, held);
    InStepSame(s, now, a, held, HeldBy(arrivals, now, mark, drift));
  }

  /** One more order parked, its hold taken. */
  lemma ParkedMore(s: Sides, table: Table, a: seq<Account>, b: seq<Account>, arrivals: seq<u32>, id: u32,
                   levels: seq<Level>, mark: u16, drift: Holds)
    requires InStep(s, table, a, HeldBy(arrivals, table, mark, drift)) && Moves(a, b, OneHeld(id, table, mark))
    requires Away(arrivals, table, levels) && id in table && id !in arrivals && Count(levels, id) == 0
    ensures InStep(s, table, b, HeldBy(arrivals + [id], table, mark, drift)) && Away(arrivals + [id], table, levels)
    ensures |b| == |a| && TotalCash(b) == TotalCash(a) && TotalShares(b) == TotalShares(a)
    ensures forall buy :: Low32(Waits(arrivals + [id], table, buy))
                          == if table[id].buy == buy then Low32(Low32(Waits(arrivals, table, buy)) + table[id].quantity) else Low32(Waits(arrivals, table, buy))
  {
    hide InStep, OneHold, Low32, HeldBy, Waits, Plus, Away, Moves;
    var more := arrivals + [id];
    AwayMore(arrivals, id, table, levels);
    MovesOnly(a, b, OneHeld(id, table, mark));
    forall c: nat
      ensures HeldBy(more, table, mark, drift)(c) == Plus(HeldBy(arrivals, table, mark, drift)(c), OneHeld(id, table, mark)(c))
    {
      HeldMore(c, arrivals, id, table, mark, drift);
    }
    MovedInStep(s, table, a, b, OneHeld(id, table, mark), HeldBy(arrivals, table, mark, drift),
                HeldBy(more, table, mark, drift));
    forall buy
      ensures Low32(Waits(more, table, buy))
              == if table[id].buy == buy then Low32(Low32(Waits(arrivals, table, buy)) + table[id].quantity) else Low32(Waits(arrivals, table, buy))
    {
      WaitsMore(arrivals, id, table, buy);
      Low32Add(Waits(arrivals, table, buy), table[id].quantity);
    }
  }

  lemma AwayMore(arrivals: seq<u32>, id: u32, table: Table, levels: seq<Level>)
    requires Away(arrivals, table, levels) && id in table && id !in arrivals && Count(levels, id) == 0
    ensures Away(arrivals + [id], table, levels)
  {
  }

  lemma MovesOnly(a: seq<Account>, b: seq<Account>, d: Holds)
    requires Moves(a, b, d)
    ensures |b| == |a| && TotalCash(b) == TotalCash(a) && TotalShares(b) == TotalShares(a)
  {
  }

  lemma HeldMore(c: nat, arrivals: seq<u32>, id: u32, table: Table, mark: u16, drift: Holds)
    ensures HeldBy(arrivals + [id], table, mark, drift)(c) == Plus(HeldBy(arrivals, table, mark, drift)(c), OneHeld(id, table, mark)(c))
  {
    hide Tied, OneHold;
    TiedMore(c, arrivals, id, table, mark);
    var one, slip := OneHold(c, id, table, mark), drift(c);
    assert OneHeld(id, table, mark)(c) == one;
    assert HeldBy(arrivals + [id], table, mark, drift)(c) == Plus(Plus(Tied(c, arrivals, table, mark), one), slip);
  }

  lemma WaitsMore(arrivals: seq<u32>, id: u32, table: Table, buy: bool)
    ensures Waits(arrivals + [id], table, buy) == Waits(arrivals, table, buy) + OneWaits(id, table, buy)
  {
    assert (arrivals + [id])[..|arrivals|] == arrivals;
  }

  // ---------- A cancel in the window: the facts ----------

  function Both(a: Holds, b: Holds): Holds {
    (c: nat) => Plus(a(c), b(c))
  }

  lemma UnparkedInStep(s: Sides, table: Table, a: seq<Account>, b: seq<Account>, target: u32, arrivals: seq<u32>,
                       levels: seq<Level>, bids: nat,
                       mark: u16, drift: Holds, now: Holds)
    requires InStep(s, table, a, HeldBy(arrivals, table, mark, drift)) && Moves(a, b, OneFreed(target, table, mark))
    requires bids <= |levels| && s == SidesOf(levels, bids) && Away(arrivals, table, levels) && target in table
    requires table[target].quantity > 0
    requires now == if target in arrivals then drift else Both(drift, OneFreed(target, table, mark))
    ensures InStep(s, Emptied(table, target), b, HeldBy(arrivals, Emptied(table, target), mark, now)) <==> Count(levels, target) == 0
  {
    hide InStep, OneHold, HeldBy, Plus, Moves;
    var held, free, empty := HeldBy(arrivals, table, mark, drift), OneFreed(target, table, mark), Emptied(table, target);
    SidesJoin(levels, bids);
    InStepParts(s, table, a, held);
    EmptiedAgrees(s, table, target);
    if Count(levels, target) == 0 {
      MovedInStep(s, table, a, b, free, held, Both(held, free));
      AgreesKnown(s, table, b, Both(held, free));
      InStepApart(s, table, empty, b, Both(held, free));
      forall c: nat
        ensures HeldBy(arrivals, empty, mark, now)(c) == Both(held, free)(c)
      {
        UnparkedHolds(c, table, target, arrivals, mark, drift, now);
      }
      InStepSame(s, empty, b, Both(held, free), HeldBy(arrivals, empty, mark, now));
    } else if InStep(s, empty, b, HeldBy(arrivals, empty, mark, now)) {
      InStepParts(s, empty, b, HeldBy(arrivals, empty, mark, now));
    }
  }

  /** All of it: who is away stays away, the totals stay, and the reserves stay backed if and only if
  what was given back had been taken. */
  lemma TakenOut(s: Sides, table: Table, a: seq<Account>, b: seq<Account>, target: u32, arrivals: seq<u32>,
                 levels: seq<Level>, bids: nat, mark: u16, drift: Holds)
    requires InStep(s, table, a, HeldBy(arrivals, table, mark, drift)) && Moves(a, b, OneFreed(target, table, mark))
    requires bids <= |levels| && s == SidesOf(levels, bids) && Away(arrivals, table, levels)
    requires target in table && table[target].quantity > 0 && table[target].client < |a|
    ensures var empty, now := Emptied(table, target), DriftOut(drift, target, arrivals, table, mark);
            && Away(arrivals, empty, levels) && |b| == |a| && TotalCash(b) == TotalCash(a) && TotalShares(b) == TotalShares(a)
            && (InStep(s, empty, b, HeldBy(arrivals, empty, mark, now)) <==> Count(levels, target) == 0)
    ensures ReservesOk(a, s, table, HeldBy(arrivals, table, mark, NoHolds())) && Count(levels, target) == 0 ==>
              (ReservesOk(b, s, Emptied(table, target), HeldBy(arrivals, Emptied(table, target), mark, NoHolds()))
               <==> target in arrivals || HoldsNothing(target, table, mark))
  {
    hide InStep, HeldBy, OneFreed, HoldsNothing, Congruent, ReservesOk, Moves, TotalCash, TotalShares, Away, Both;
    var empty, now := Emptied(table, target), DriftOut(drift, target, arrivals, table, mark);
    MovesOnly(a, b, OneFreed(target, table, mark));
    AwayEmptied(table, target, arrivals, levels);
    UnparkedInStep(s, table, a, b, target, arrivals, levels, bids, mark, drift, now);
    BackedIs(a, s, table, arrivals, mark, drift);
    if Count(levels, target) == 0 {
      BackedIs(b, s, empty, arrivals, mark, now);
      if Congruent(|a|, drift, NoHolds()) {
        DriftGone(|a|, drift, target, table, mark);
      }
    }
  }

  /** What has slipped once an order is taken out: its hold, if it had none to give back. */
  function DriftOut(drift: Holds, target: u32, arrivals: seq<u32>, table: Table, mark: u16): Holds {
    if target in arrivals then drift else Both(drift, OneFreed(target, table, mark))
  }

  lemma UnparkedHolds(c: nat, table: Table, target: u32, arrivals: seq<u32>, mark: u16, drift: Holds, now: Holds)
    requires DistinctIds(arrivals) && target in table && forall x | x in arrivals :: x in table
    requires now == if target in arrivals then drift else Both(drift, OneFreed(target, table, mark))
    ensures HeldBy(arrivals, Emptied(table, target), mark, now)(c)
            == Both(HeldBy(arrivals, table, mark, drift), OneFreed(target, table, mark))(c)
  {
    hide Tied, OneHold;
    TiedLess(c, arrivals, table, target, mark);
    var one, rest := OneHold(c, target, table, mark), Tied(c, arrivals, Emptied(table, target), mark);
    assert OneFreed(target, table, mark)(c) == Hold(-one.cash, -one.shares);
    assert HeldBy(arrivals, Emptied(table, target), mark, now)(c) == Plus(rest, now(c));
    if target !in arrivals {
      assert now(c) == Plus(drift(c), Hold(-one.cash, -one.shares));
    }
  }

  /** The two sides of the published imbalance are the shares parked on each. */
  ghost predicate Even(buys: u32, sells: u32, arrivals: seq<u32>, table: Table) {
    buys == Low32(Waits(arrivals, table, true)) && sells == Low32(Waits(arrivals, table, false))
  }

  /** Taking a parked order out keeps the balance, and taking shares off for any other breaks it. */
  lemma UnparkedEven(table: Table, target: u32, arrivals: seq<u32>, levels: seq<Level>, buys: u32, sells: u32)
    requires Away(arrivals, table, levels) && target in table && table[target].quantity > 0
    requires Even(buys, sells, arrivals, table)
    ensures var o := table[target];
            Even(if o.buy then Low32(buys - o.quantity) else buys, if o.buy then sells else Low32(sells - o.quantity), arrivals, Emptied(table, target))
            <==> target in arrivals
  {
    hide Low32;
    var o := table[target];
    WaitsLess(arrivals, table, target, true);
    WaitsLess(arrivals, table, target, false);
    Low32Add(Waits(arrivals, table, o.buy), -(o.quantity as int));
    Low32Apart(Waits(arrivals, table, o.buy), o.quantity);
  }

  lemma AwayEmptied(table: Table, target: u32, arrivals: seq<u32>, levels: seq<Level>)
    requires Away(arrivals, table, levels)
    ensures Away(arrivals, Emptied(table, target), levels)
  {
  }

  lemma {:induction false} WaitsLess(arrivals: seq<u32>, table: Table, id: u32, buy: bool)
    requires DistinctIds(arrivals) && id in table && forall x | x in arrivals :: x in table
    ensures Waits(arrivals, Emptied(table, id), buy) == Waits(arrivals, table, buy) - if id in arrivals then OneWaits(id, table, buy) else 0
  {
    if arrivals != [] {
      var n := |arrivals| - 1;
      assert arrivals == arrivals[..n] + [arrivals[n]];
      WaitsLess(arrivals[..n], table, id, buy);
    }
  }

  // ---------- The cross: the facts ----------

  lemma AwayCanPark(arrivals: seq<u32>, table: Table, levels: seq<Level>)
    requires Away(arrivals, table, levels) && |arrivals| + 1 < Pq.INDEX_LIMIT
    ensures CanPark(arrivals, table, levels)
  {
  }

  /** The parked orders are still in the table, and still not in the book. */
  lemma CrossedParked(l: Lists, table: Table, s: Sides, matched: nat, bidFill: nat, askFill: nat, clearing: u16,
                      takerId: u32,
                      arrivals: seq<u32>, levels: seq<Level>, bids: nat)
    requires bidFill <= matched && askFill <= matched && bids <= |levels| && s == SidesOf(levels, bids)
    requires Away(arrivals, table, levels) && takerId !in table
    ensures var after := AfterBook(s, bidFill, askFill, clearing, takerId);
            Away(arrivals, CrossedOrders(l, table, s, matched, bidFill, askFill, clearing, takerId), after.bids + after.asks)
    ensures var after := AfterBook(s, bidFill, askFill, clearing, takerId);
            SidesOf(after.bids + after.asks, |after.bids|) == after
  {
    hide Served, Taken, Submit, BidLine, AskLine, Count;
    var booked := BookedOrders(table, s, bidFill, askFill, clearing, takerId);
    var bought := Served(BidLine(l, table, clearing), booked, matched - bidFill);
    TakenTerms(table, Submit(s, Taker(false, U16(bidFill), clearing), takerId).fills);
    TakenTerms(table, Submit(s, Taker(true, U16(askFill), clearing), takerId).fills);
    ServedTerms(BidLine(l, table, clearing), booked, matched - bidFill);
    ServedTerms(AskLine(l, table, clearing), bought, matched - askFill);
    SidesJoin(levels, bids);
    forall id | id in arrivals
      ensures var after := AfterBook(s, bidFill, askFill, clearing, takerId); Count(after.bids + after.asks, id) == 0
    {
      SubmitCounts(s, Taker(false, U16(bidFill), clearing), takerId, id);
      SubmitCounts(s, Taker(true, U16(askFill), clearing), takerId, id);
    }
  }

  /** Nothing is held any more but what slipped, and handing on touches nobody who rests. */
  lemma HandedInStep(after: Sides, table: Table, crossed: Table, handed: Table, a: seq<Account>, arrivals: seq<u32>,
                     only: set<u32>, clearing: u16,
                     mark: u16, now: u16, drift: Holds)
    requires InStep(after, crossed, a, Minus(HeldBy(arrivals, table, mark, drift), arrivals, table, mark))
    requires AllHanded(crossed, handed, arrivals, only, clearing) && Away(arrivals, crossed, after.bids + after.asks)
    ensures InStep(after, handed, a, HeldBy([], handed, now, drift))
  {
    hide InStep, Tied;
    var held := Minus(HeldBy(arrivals, table, mark, drift), arrivals, table, mark);
    AgreesKnown(after, crossed, a, held);
    InStepApart(after, crossed, handed, a, held);
    forall c: nat
      ensures HeldBy([], handed, now, drift)(c) == held(c)
    {
      NobodyTied(c, handed, now);
      var tied := Tied(c, arrivals, table, mark);
      assert Freed(arrivals, table, mark)(c) == Hold(-tied.cash, -tied.shares);
      assert HeldBy(arrivals, table, mark, drift)(c) == Plus(tied, drift(c));
    }
    InStepSame(after, handed, a, held, HeldBy([], handed, now, drift));
  }

  lemma HandedClients(was: Table, now: Table, arrivals: seq<u32>, only: set<u32>, clearing: u16, n: nat)
    requires AllHanded(was, now, arrivals, only, clearing) && forall x | x in was :: was[x].client < n
    ensures forall x | x in now :: now[x].client < n
  {
  }

  lemma AwayParts(arrivals: seq<u32>, table: Table, levels: seq<Level>)
    requires Away(arrivals, table, levels)
    ensures DistinctIds(arrivals) && forall id | id in arrivals :: id in table
  {
  }

  lemma NobodyTied(c: nat, table: Table, mark: u16)
    ensures Tied(c, [], table, mark) == Hold(0, 0)
  {
  }

  lemma NobodyWaits(table: Table, levels: seq<Level>)
    ensures Away([], table, levels) && forall buy :: Low32(Waits([], table, buy)) == 0
  {
    NothingWraps(0);
  }

  lemma CancelKnown(table: Table, levels: seq<Level>, id: u32)
    requires Incoming(table, levels, id)
    ensures id in table && Count(levels, id) == 0 && (table[id].cancel ==> table[id].otherId in table)
  {
  }

  // ---------- The close: the facts ----------

  lemma ClosedHolds(m: Mbo, now: Mbo, size: nat, s: Sides, gone: set<u32>)
    requires SoundSides(s) && HoldsBook(m, s)
    requires gone != {} ==> Refines(now, size, [], Outcome(Pull(s, gone), []))
    requires gone == {} ==> now == m
    ensures var after := Pull(s, gone); HoldsBook(now, after) && SidesOf(after.bids + after.asks, |after.bids|) == after
  {
    hide Pull;
    if gone == {} {
      Closing.PullAtAll(s);
    }
  }

  /** After a session's end nothing that was due rests, and whatever is to stay longer is where it was. */
  lemma DueLeave(s: Sides, gone: set<u32>, levels: seq<Level>, bids: nat, tif: map<u32, Closing.Tif>, day: seq<u32>,
                 dated: multiset<u64>, today: u32)
    requires bids <= |levels| && s == SidesOf(levels, bids) && SoundSides(s)
    requires forall x :: x in gone <==> Count(levels, x) == 1 && (Closing.DayOver(x, tif, day) || Closing.DateCome(x, tif, dated, today))
    ensures var after := Pull(s, gone);
            forall x | x in tif :: LeavesWhenDue(x, tif[x], x in day, dated, today, Count(levels, x), Count(after.bids + after.asks, x))
  {
    hide Pull;
    SidesJoin(levels, bids);
    forall x | x in tif
      ensures var after := Pull(s, gone);
              LeavesWhenDue(x, tif[x], x in day, dated, today, Count(levels, x), Count(after.bids + after.asks, x))
    {
      PullCounts(s, gone, x);
      assert Count(s.bids + s.asks, x) <= 1;
    }
  }

  ghost predicate LeavesWhenDue(x: u32, t: Closing.Tif, queued: bool, dated: multiset<u64>, today: u32, was: nat, now: nat) {
    match t
    case UntilCancelled => now == was
    case Day => now == if queued then 0 else was
    case Dated(date) => now == if date <= today && date * 0x1_0000_0000 + x in dated then 0 else was
  }

  /** What is parked does not expire. */
  lemma ClosedSpares(s: Sides, gone: set<u32>, table: Table, now: Table, arrivals: seq<u32>, levels: seq<Level>, bids: nat)
    requires bids <= |levels| && s == SidesOf(levels, bids) && SoundSides(s) && Away(arrivals, table, levels)
    requires forall x | x in gone :: Count(levels, x) == 1
    requires SameTerms(now, table) && forall x | x in now :: now[x].quantity == if x in gone then 0 else table[x].quantity
    ensures var after := Pull(s, gone); Away(arrivals, now, after.bids + after.asks)
    ensures forall x | x in arrivals :: x in table && x in now && now[x] == table[x]
  {
    hide Pull;
    SidesJoin(levels, bids);
    forall x | x in arrivals
      ensures var after := Pull(s, gone); Count(after.bids + after.asks, x) == 0
    {
      PullCounts(s, gone, x);
    }
  }
}
