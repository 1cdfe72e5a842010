/** The exchange as a whole (server_order, server_auction_order, server_auction and the bells' work of
src/server.c): one book, one order table, one set of accounts and the orders parked for the next cross.
Whatever comes next, no money and no share appears or disappears, and every reserve is what its
client's resting and parked orders tie up, but for what slips: every operation says exactly how much. */
module Exchange {
  import opened Machine
  import opened Book
  import opened BookFacts
  import opened BookRuns
  import opened Snapshot
  import opened SnapshotWriter
  import opened Ranges
  import opened FirstLeg
  import opened Canrep
  import opened Weights
  import opened Settle
  import opened SettlePair
  import opened LegWalk
  import opened Ledger
  import opened Desk
  import opened Prechecks
  import opened PairDesk
  import opened ServerOrders
  import opened Bystanders
  import opened FillCounts
  import opened AuctionFill
  import opened AuctionStep
  import opened AuctionBook
  import opened AuctionHold
  import opened AuctionGain
  import opened AuctionPark
  import opened AuctionRest
  import opened Auctioneer
  import opened RingBuffer
  import opened ExchangeFacts
  import opened Prints
  import opened Funds
  import opened FundsPair
  import Bells
  import opened AuctionLeft
  import Billing
  import Closing
  import Pq
  import W = AuctionWalk

  class Exchange {
    const sv: Server
    var mbo: Mbo
    var mark: u16             // the price of the last trade
    var isOpen: bool
    var auctioning: bool
    var frozen: bool          // late in the window: no cancels
    var arrivals: seq<u32>    // parked for the next cross
    var imbalanceBuy: u32     // shares parked on each side
    var imbalanceSell: u32
    var converted: seq<u32>   // on their way back to the continuous market
    ghost var levels: seq<Level>
    ghost var bids: nat
    ghost var drift: Holds    // what has slipped, client by client
    ghost const money: int
    ghost const shares: int

    ghost predicate Valid()
      reads this, sv
    {
      && sv.Valid() && bids <= |levels| && HoldsBook(mbo, SidesOf(levels, bids))
      && InStep(SidesOf(levels, bids), sv.orders, sv.accounts, HeldBy(arrivals, sv.orders, mark, drift))
      && Away(arrivals, sv.orders, levels)
      && sv.Money() == money && TotalShares(sv.accounts) == shares
    }

    /** Before the first order: an empty book, and nothing reserved. */
    constructor (sv: Server)
      requires sv.orders == map[] && forall a | a in sv.accounts :: a.reservedCash == 0 && a.reservedShares == 0
      ensures Valid() && Room() && Balanced() && Backed() && this.sv == sv && arrivals == [] && money == sv.Money()
      ensures shares == TotalShares(sv.accounts)
      ensures levels == [] && sv.orders == map[] && !auctioning && !frozen && forall c: nat :: drift(c) == Hold(0, 0)
    {
      this.sv := sv;
      mbo := Mbo(MAX_U16, 0, [], []);
      mark, isOpen, auctioning, frozen := 0, false, false, false;
      arrivals, imbalanceBuy, imbalanceSell, converted := [], 0, 0, [];
      levels, bids, drift := [], 0, NoHolds();
      money, shares := sv.Money(), TotalShares(sv.accounts);
      new;
      NothingTraded(sv.accounts);
    }

    /** The book is within its own 16-bit limits. */
    ghost predicate Room()
      reads this`levels
    {
      (forall l | l in levels :: |l.orders| <= COPY_LIMIT) && |levels| < 0xFFFF
    }

    /** Every reserve is what its client's resting and parked orders tie up at today's mark. */
    ghost predicate Backed()
      reads this, sv
    {
      bids <= |levels| && ReservesOk(sv.accounts, SidesOf(levels, bids), sv.orders, HeldBy(arrivals, sv.orders, mark, NoHolds()))
    }

    /** It is, exactly as long as nothing has slipped. */
    lemma BackedExactly()
      requires Valid()
      ensures Backed() <==> Congruent(|sv.accounts|, drift, NoHolds())
    {
      BackedIs(sv.accounts, SidesOf(levels, bids), sv.orders, arrivals, mark, drift);
    }

    /** In so many words. */
    lemma BackedMeans()
      ensures Backed() <==> bids <= |levels| && ReservesOk(sv.accounts, SidesOf(levels, bids), sv.orders, HeldBy(arrivals, sv.orders, mark, NoHolds()))
    {
    }

    /** What the market is shown. */
    ghost function Shown(): (Mbo, seq<Level>, nat, u16)
      reads this
    {
      (mbo, levels, bids, mark)
    }

    /** What waits for the cross. */
    ghost function Window(): (seq<u32>, u32, u32)
      reads this
    {
      (arrivals, imbalanceBuy, imbalanceSell)
    }

    /** The published imbalance is what is parked. */
    ghost predicate Balanced()
      reads this, sv
    {
      Even(imbalanceBuy, imbalanceSell, arrivals, sv.orders)
    }

    // ---------- Slots ----------

    /** A client's order takes a free slot. */
    method Mint(id: u32, o: Order)
      requires Valid() && id !in sv.orders && o.client < |sv.accounts|
      modifies sv`orders
      ensures Valid() && sv.orders == old(sv.orders)[id := o] && Balanced() == old(Balanced()) && Backed() == old(Backed())
    {
      hide InStep, HoldsBook, Tied, Backed, Congruent;
      BackedExactly();
      ghost var was, held := sv.orders, HeldBy(arrivals, sv.orders, mark, drift);
      sv.orders := sv.orders[id := o];
      AgreesKnown(SidesOf(levels, bids), was, sv.accounts, held);
      InStepApart(SidesOf(levels, bids), was, sv.orders, sv.accounts, held);
      HeldSame(arrivals, was, sv.orders, mark, drift);
      InStepSame(SidesOf(levels, bids), sv.orders, sv.accounts, held, HeldBy(arrivals, sv.orders, mark, drift));
      BackedExactly();
    }

    // ---------- The continuous market ----------

    /** One single order message while the market is open. It means what it means without anything
    parked, and the parked orders sit it out. With the mark as it was, every reserve is backed
    afterwards if and only if nothing of it rests bare. */
    method SubmitOrder(id: u32, isCash: bool, buyingPower: int) returns (reason: Reason, fills: seq<Fill>)
      requires Valid() && Room() && Incoming(sv.orders, levels, id) && id !in arrivals
      modifies this`mbo, this`mark, this`levels, this`bids, this`drift, sv
      ensures Valid() && Balanced() == old(Balanced()) && |sv.accounts| == old(|sv.accounts|)
      ensures reason == old(sv.OrderReason(id, isCash, buyingPower, levels, bids))
      ensures old(sv.orders[id].PureCancel()) ||
              Judged(reason, old(sv.accounts[sv.orders[id].client]), old(sv.orders[id]), old(SidesOf(levels, bids)),
                     old(Message(SidesOf(levels, bids), sv.orders, id)), old(sv.orders),
                     old(HeldBy(arrivals, sv.orders, mark, drift)), isCash, buyingPower)
      ensures reason == NoReason ==>
                FundsKept(old(sv.accounts), sv.accounts, old(SidesOf(levels, bids)), old(sv.orders), id,
                          old(HeldBy(arrivals, sv.orders, mark, drift)), isCash && !old(sv.orders[id].PureCancel()))
      ensures reason != NoReason ==> Rejected(old(sv.orders), sv.orders, id, fills) && Shown() == old(Shown()) && drift == old(drift)
      ensures reason != NoReason ==> Backed() == old(Backed())
      ensures reason != NoReason ==> sv.accounts == old(sv.accounts) && sv.exchangeCash == old(sv.exchangeCash)
      ensures reason == NoReason ==> Executed(old(SidesOf(levels, bids)), SidesOf(levels, bids), old(sv.orders), sv.orders, id, fills)
      ensures reason == NoReason ==>
                AllPaid(old(sv.accounts), sv.accounts, old(sv.orders[id].client), old(sv.orders[id].buy), fills, old(sv.orders))
      ensures reason == NoReason ==> mark == LastPrice(fills, old(sv.orders), old(mark))
      ensures reason == NoReason ==> MarkedAtWorst(fills, old(sv.orders), old(sv.orders[id].buy), old(mark), mark)
      ensures reason == NoReason ==> drift == Slipped(Behind(old(drift), old(sv.orders), id, fills), arrivals, sv.orders, old(mark), mark)
      ensures reason == NoReason && mark == old(mark) && old(Backed()) ==> (Backed() <==> Bare(old(sv.orders)[id], fills) == 0)
    {
      hide InStep, HoldsBook, Tied, Message, AllPaid, AfterMessage, Incoming, Server.OrderReason, Settleable, Refines,
           FokAnswered, OldBook,
           HeldBy, Slipped, Waits, Away, Size, Behind, Bare, Congruent, Backed, MarkedAtWorst, LastPrice, FundsKept, Judged,
           Tallied;
      var table, was := sv.orders, mark;
      ghost var s, held, slip := SidesOf(levels, bids), HeldBy(arrivals, sv.orders, mark, drift), drift;
      BackedExactly();
      InStepParts(s, table, sv.accounts, held);
      RoomForBook(mbo, levels, bids);
      IncomingKnown(table, levels, id);
      var now, size, filled;
      reason, now, size, fills, filled := sv.ServerOrder(id, mbo, isCash, buyingPower, levels, bids, held);
      if reason != NoReason {
        RejectedSpares(table, id, arrivals, levels);
        HeldSame(arrivals, table, sv.orders, mark, drift);
        InStepSame(SidesOf(levels, bids), sv.orders, sv.accounts, held, HeldBy(arrivals, sv.orders, mark, drift));
        BackedExactly();
        return;
      }
      RefinedHolds(now, size, fills, Message(s, table, id));
      MessageMarks(s, table, id, was);
      MessagePasses(s, table, id, fills, arrivals, levels, bids);
      ghost var after := Message(s, table, id).sides;
      mbo, levels, bids := now, after.bids + after.asks, |after.bids|;
      mark := LastPrice(fills, table, mark);
      drift := Slipped(Behind(slip, table, id, fills), arrivals, sv.orders, was, mark);
      HeldAfter(arrivals, table, sv.orders, was, mark, slip, id, fills);
      InStepSame(after, sv.orders, sv.accounts, Behind(held, table, id, fills), HeldBy(arrivals, sv.orders, mark, drift));
      PaidLength(old(sv.accounts), sv.accounts, table[id].client, table[id].buy, fills, table);
      if old(Backed()) && mark == was {
        BackedAfter(after, sv.orders, sv.accounts, table, arrivals, was, slip, held, id, fills);
        BackedMeans();
      }
    }

    /** One atomic pair while the market is open. */
    method SubmitPair(bidId: u32, askId: u32, isCash: bool, buyingPower: int)
      returns (reason: Reason, fills: seq<Fill>, taker: u32)
      requires Valid() && Room() && PairIncoming(sv.orders, levels, bidId, askId) && bidId !in arrivals && askId !in arrivals
      modifies this`mbo, this`mark, this`levels, this`bids, this`drift, sv
      ensures Valid() && Balanced() == old(Balanced())
      ensures reason == old(sv.PairReason(bidId, askId, isCash, buyingPower, levels, bids))
      ensures isCash && !old(sv.orders[bidId].cancel) ==>
                && PairJudged(reason, old(sv.accounts[sv.orders[bidId].client]), old(SidesOf(levels, bids)), old(sv.orders), bidId, askId,
                              old(HeldBy(arrivals, sv.orders, mark, drift)))
                && (reason == NoReason ==>
                      PairFundsKept(sv.accounts, old(SidesOf(levels, bids)), old(sv.orders), bidId, askId,
                                    old(HeldBy(arrivals, sv.orders, mark, drift))))
      ensures reason != NoReason ==> Rejected(old(sv.orders), sv.orders, bidId, fills) && Shown() == old(Shown()) && drift == old(drift)
      ensures reason != NoReason ==> sv.accounts == old(sv.accounts) && sv.exchangeCash == old(sv.exchangeCash)
      ensures reason == NoReason ==> Outcome(SidesOf(levels, bids), fills) == old(PairMessage(SidesOf(levels, bids), sv.orders, bidId, askId))
      ensures reason == NoReason ==> sv.orders == AfterPair(old(sv.orders), bidId, askId, fills, taker)
      ensures reason == NoReason ==>
                AllPaid(old(sv.accounts), sv.accounts, old(sv.orders[bidId].client), taker == bidId, fills, old(sv.orders))
      ensures reason == NoReason ==> mark == LastPrice(fills, old(sv.orders), old(mark))
      ensures reason == NoReason ==> MarkedAtWorst(fills, old(sv.orders), taker == bidId, old(mark), mark)
      ensures reason == NoReason ==> drift == Slipped(old(drift), arrivals, sv.orders, old(mark), mark)
      ensures reason != NoReason || mark == old(mark) ==> Backed() == old(Backed())
    {
      hide InStep, HoldsBook, Tied, PairMessage, AllPaid, AfterPair, PairIncoming, Server.PairReason, PairSettleable,
           Refines, OldBook,
           HeldBy, Slipped, Waits, Away, Size, TakerOf, Backed, Congruent, MarkedAtWorst, LastPrice,
           Tallied, PairFundsKept, PairJudged;
      BackedExactly();
      var table, was := sv.orders, mark;
      ghost var s, held := SidesOf(levels, bids), HeldBy(arrivals, sv.orders, mark, drift);
      InStepParts(s, table, sv.accounts, held);
      RoomForBook(mbo, levels, bids);
      PairKnown(table, levels, bidId, askId);
      var now, size, bidFilled, askFilled;
      reason, now, size, fills, bidFilled, askFilled, taker := sv.ServerPair(bidId, askId, mbo, isCash, buyingPower, levels, bids, held);
      if reason != NoReason {
        RejectedSpares(table, bidId, arrivals, levels);
        HeldSame(arrivals, table, sv.orders, mark, drift);
        InStepSame(SidesOf(levels, bids), sv.orders, sv.accounts, held, HeldBy(arrivals, sv.orders, mark, drift));
        BackedExactly();
        return;
      }
      RefinedHolds(now, size, fills, PairMessage(s, table, bidId, askId));
      PairMarks(s, table, bidId, askId, taker, was);
      PairPasses(s, table, bidId, askId, taker, fills, arrivals, levels, bids);
      ghost var after := PairMessage(s, table, bidId, askId).sides;
      mbo, levels, bids := now, after.bids + after.asks, |after.bids|;
      mark := LastPrice(fills, table, mark);
      drift := Slipped(drift, arrivals, sv.orders, was, mark);
      HeldSlips(arrivals, table, sv.orders, was, mark, old(drift));
      InStepSame(SidesOf(levels, bids), sv.orders, sv.accounts, held, HeldBy(arrivals, sv.orders, mark, drift));
      BackedExactly();
      PaidLength(old(sv.accounts), sv.accounts, old(sv.orders[bidId].client), taker == bidId, fills, table);
      SlippedSame(|sv.accounts|, old(drift), arrivals, sv.orders, mark);
    }

    // ---------- server_auction_order ----------

    /** Why the window turns an add away: only plain orders park, late in the day only against the
    imbalance, and only what the client can pay for. */
    function ParkReason(o: Order, special: bool): Reason
      requires o.client < |sv.accounts|
      reads this, sv
    {
      var a := sv.accounts[o.client];
      if o.canRep || special then BadQualifier
      else if o.quantity == 0 then InvalidQuantity
      else if !o.market && o.price == 0 then InvalidPrice
      else if auctioning && isOpen && imbalanceBuy != imbalanceSell && o.buy == (imbalanceBuy > imbalanceSell) then OffsetOnly
      else if o.buy && o.quantity * HeldPrice(o, mark) > a.cash - a.reservedCash then NoBuyingPower
      else if !o.buy && o.quantity > a.shares - a.reservedShares then NoShares
      else NoReason
    }

    lemma ParkIsJudged(id: u32, special: bool)
      requires sv.Valid() && id in sv.orders
      ensures var o := sv.orders[id];
              ParkJudged(ParkReason(o, special), o, sv.accounts[o.client], special, mark, Offsetting(), imbalanceBuy, imbalanceSell)
    {
    }

    /** Late in the closing window, with more parked on one side than on the other. */
    predicate Offsetting()
      reads this
    {
      auctioning && isOpen && imbalanceBuy != imbalanceSell
    }

    /** An add parks for the next cross: its funds are held, and it goes behind everyone before it. special
    says that it carries a stop, wake, pair, iceberg or OCO bit. */
    method Park(id: u32, special: bool) returns (reason: Reason)
      requires Valid() && id in sv.orders && !sv.orders[id].cancel && id !in arrivals && Count(levels, id) == 0
      modifies this`arrivals, this`imbalanceBuy, this`imbalanceSell, sv`orders, sv`accounts
      ensures Valid() && (old(Balanced()) ==> Balanced()) && Backed() == old(Backed()) && |sv.accounts| == old(|sv.accounts|)
      ensures reason == old(ParkReason(sv.orders[id], special))
      ensures ParkJudged(reason, old(sv.orders[id]), old(sv.accounts[sv.orders[id].client]), special, mark,
                         old(Offsetting()), old(imbalanceBuy), old(imbalanceSell))
      ensures reason == NoReason && old(Offsetting()) ==> Offset(old(imbalanceBuy), old(imbalanceSell), imbalanceBuy, imbalanceSell)
      ensures reason == NoReason ==> HoldCovered(old(sv.orders[id]), old(sv.accounts[sv.orders[id].client]), sv.accounts[old(sv.orders[id].client)], mark)
      ensures reason != NoReason ==> Window() == old(Window()) && sv.accounts == old(sv.accounts) && sv.orders == Emptied(old(sv.orders), id)
      ensures reason == NoReason ==> arrivals == old(arrivals) + [id] && sv.orders == old(sv.orders)
      ensures reason == NoReason ==> Moves(old(sv.accounts), sv.accounts, OneHeld(id, sv.orders, mark))
    {
      hide InStep, HoldsBook, Tied, OneHold, Moves, Waits, Away, HeldBy, ParkReason, Backed, Congruent;
      var o := sv.orders[id];
      ghost var s, table, a := SidesOf(levels, bids), sv.orders, sv.accounts;
      BackedExactly();
      reason := ParkReason(o, special);
      ParkIsJudged(id, special);
      if reason != NoReason {
        RejectedParks(s, table, a, id, arrivals, levels, bids, mark, drift);
        sv.orders := Emptied(sv.orders, id);
        BackedExactly();
        return;
      }
      sv.accounts := HoldOne(sv.accounts, id, sv.orders, mark);
      HeldCovered(a, sv.accounts, id, sv.orders, mark);
      if o.buy {
        imbalanceBuy := Low32(imbalanceBuy + o.quantity);
      } else {
        imbalanceSell := Low32(imbalanceSell + o.quantity);
      }
      arrivals := arrivals + [id];
      ParkedMore(s, sv.orders, a, sv.accounts, old(arrivals), id, levels, mark, drift);
      BackedExactly();
    }

    /** Why a cancel does not take a parked order out. */
    function UnparkReason(o: Order): Reason
      requires o.otherId in sv.orders
      reads this, sv
    {
      if frozen then BadQualifier
      else if sv.orders[o.otherId].client != o.client then NotYourOrder
      else if sv.orders[o.otherId].quantity == 0 then OrderAlreadyDone
      else NoReason
    }

    /** A cancel in the window empties its target and gives its hold back, parked or not: nothing here
    checks where the target is. Book and order table stay in step if and only if it does not rest, the
    imbalance is what is parked if and only if it was parked, and every reserve is backed if and only
    if it was, or had nothing to give back. */
    method Unpark(id: u32) returns (reason: Reason)
      requires Valid() && id in sv.orders && sv.orders[id].otherId in sv.orders
      modifies this`imbalanceBuy, this`imbalanceSell, this`drift, sv`orders, sv`accounts
      ensures reason == old(UnparkReason(sv.orders[id]))
      ensures reason == NoReason <==> !frozen && old(var t := sv.orders[sv.orders[id].otherId]; t.client == sv.orders[id].client && t.quantity > 0)
      ensures reason != NoReason ==> Valid() && Window() == old(Window()) && drift == old(drift)
      ensures reason != NoReason ==> Backed() == old(Backed()) && Balanced() == old(Balanced())
      ensures reason != NoReason ==> sv.orders == old(sv.orders) && sv.accounts == old(sv.accounts)
      ensures var t := old(sv.orders[id].otherId);
              reason == NoReason ==>
                && sv.orders == Emptied(old(sv.orders), t)
                && Moves(old(sv.accounts), sv.accounts, OneFreed(t, old(sv.orders), mark))
                && drift == DriftOut(old(drift), t, arrivals, old(sv.orders), mark)
                && (Valid() <==> Count(levels, t) == 0)
                && (old(Balanced()) ==> (Balanced() <==> t in arrivals))
                && (old(Backed()) && Count(levels, t) == 0 ==> (Backed() <==> t in arrivals || HoldsNothing(t, old(sv.orders), mark)))
    {
      hide InStep, HoldsBook, Waits, Away, HeldBy, Backed, Balanced, Moves, HoldsNothing, TotalCash, TotalShares;
      reason := UnparkReason(sv.orders[id]);
      if reason == NoReason {
        TakeOut(sv.orders[id].otherId);
      }
    }

    /** The accepted cancel's effects on its target. */
    method TakeOut(target: u32)
      requires Valid() && target in sv.orders && sv.orders[target].quantity > 0
      modifies this`imbalanceBuy, this`imbalanceSell, this`drift, sv`orders, sv`accounts
      ensures sv.orders == Emptied(old(sv.orders), target)
      ensures Moves(old(sv.accounts), sv.accounts, OneFreed(target, old(sv.orders), mark))
      ensures drift == DriftOut(old(drift), target, arrivals, old(sv.orders), mark)
      ensures Valid() <==> Count(levels, target) == 0
      ensures old(Balanced()) ==> (Balanced() <==> target in arrivals)
      ensures old(Backed()) && Count(levels, target) == 0 ==>
                (Backed() <==> target in arrivals || HoldsNothing(target, old(sv.orders), mark))
    {
      hide InStep, HoldsBook, Moves, Waits, Away, HeldBy, OneFreed, ReservesOk, TotalCash, TotalShares, HoldsNothing,
           SidesOf,
           Low32, Even, DriftOut;
      ghost var s, table, a, slip := SidesOf(levels, bids), sv.orders, sv.accounts, drift;
      var o := sv.orders[target];
      sv.accounts := FreeOne(sv.accounts, target, sv.orders, mark);
      TakenOut(s, table, a, sv.accounts, target, arrivals, levels, bids, mark, slip);
      if old(Balanced()) {
        UnparkedEven(table, target, arrivals, levels, imbalanceBuy, imbalanceSell);
      }
      if o.buy {
        imbalanceBuy := Low32(imbalanceBuy - o.quantity);
      } else {
        imbalanceSell := Low32(imbalanceSell - o.quantity);
      }
      sv.orders := Emptied(sv.orders, target);
      drift := DriftOut(drift, target, arrivals, table, mark);
    }

    // ---------- server_auction ----------

    /** The cross: whoever is parked is filled by price and arrival, or handed on, or dies; the book's
    part goes first. What it costs whom is CrossSettled; the exchange is in step afterwards and nothing
    is parked, if and only if the book's part fits the 16 bits it goes through. */
    method Cross(takerId: u32, only: set<u32>)
      returns (ghost l: Lists, clearing: u16, matched: nat, bidFill: nat, askFill: nat, ghost crossed: Table)
      requires Valid() && Room() && |arrivals| + 1 < Pq.INDEX_LIMIT && takerId !in sv.orders && takerId != MAX_U32
      modifies this`mbo, this`mark, this`levels, this`bids, this`arrivals, this`converted, this`imbalanceBuy, this`imbalanceSell, sv`orders, sv`accounts
      ensures LinedUp(l, old(arrivals), old(sv.orders))
      ensures W.Cleared(CurvesOf(l, old(sv.orders), old(levels), old(bids)), old(mark), clearing, matched)
      ensures bidFill == Min(InReach(old(levels), old(bids), false, clearing), matched)
      ensures askFill == Min(InReach(old(levels), old(bids), true, clearing), matched)
      ensures arrivals == [] && Balanced() && mark == if matched > 0 then clearing else old(mark)
      ensures Valid() <==> bidFill <= 0xFFFF && askFill <= 0xFFFF
      ensures Valid() ==> Backed() == old(Backed())
      ensures crossed == CrossedOrders(l, old(sv.orders), old(SidesOf(levels, bids)), matched, bidFill, askFill, clearing, takerId)
      ensures CrossSettled(old(sv.accounts), sv.accounts, l, old(sv.orders), crossed, old(SidesOf(levels, bids)), bidFill, askFill, clearing, takerId)
      ensures LeftCrossing(l, old(sv.orders), crossed) <==> HasOverfull(l, old(sv.orders), matched - bidFill, matched - askFill)
      ensures AllHanded(crossed, sv.orders, old(arrivals), only, clearing)
      ensures converted == old(converted) + Residual(old(arrivals), crossed, only)
      ensures bids <= |levels|
      ensures SidesOf(levels, bids) == AfterBook(old(SidesOf(levels, bids)), bidFill, askFill, clearing, takerId)
    {
      hide InStep, HoldsBook, Tied, Waits, Away, HeldBy, OldBook, CrossedOrders, CrossSettled, AllHanded, Residual,
           LinedUp, W.Cleared, Parked, AfterBook, Minus, InReach, CurvesOf, QuotedSides,
           U16, TotalCash, TotalShares, DistinctIds, SidesOf, Backed, Congruent, LeftCrossing,
           HasOverfull, AllLive;
      ghost var s, table, a, held := SidesOf(levels, bids), sv.orders, sv.accounts, HeldBy(arrivals, sv.orders, mark, drift);
      BackedExactly();
      InStepParts(s, table, a, held);
      AgreesQuoted(s, table);
      RoomForBook(mbo, levels, bids);
      AwayCanPark(arrivals, table, levels);
      var lists, unfilled, now;
      ghost var after;
      lists, clearing, matched, bidFill, askFill, unfilled, now, after := Auctioneer.Cross(sv, arrivals, mbo, mark, takerId, levels, bids, held);
      l, crossed := lists, sv.orders;
      LinedUpLive(l, old(arrivals), table);
      CrossLeftExactly(l, table, levels, bids, mark, clearing, matched, takerId);
      CrossedParked(l, table, s, matched, bidFill, askFill, clearing, takerId, arrivals, levels, bids);
      CrossConserves(a, sv.accounts, l, table, crossed, s, bidFill, askFill, clearing, takerId);
      HandOn(now, after, only, clearing, matched > 0, table);
      if Valid() {
        BackedExactly();
      }
    }

    /** The end of the cross: its print moves the mark, and the parked orders leave. */
    method HandOn(now: Mbo, ghost after: Sides, only: set<u32>, clearing: u16, traded: bool, ghost table: Table)
      requires sv.Valid() && HoldsBook(now, after) && SidesOf(after.bids + after.asks, |after.bids|) == after
      requires InStep(after, sv.orders, sv.accounts, Minus(HeldBy(arrivals, table, mark, drift), arrivals, table, mark))
      requires Away(arrivals, sv.orders, after.bids + after.asks)
      modifies this`mbo, this`mark, this`levels, this`bids, this`arrivals, this`converted, this`imbalanceBuy, this`imbalanceSell, sv`orders
      ensures arrivals == [] && Balanced() && mark == if traded then clearing else old(mark)
      ensures Valid() <==> sv.Money() == money && TotalShares(sv.accounts) == shares
      ensures AllHanded(old(sv.orders), sv.orders, old(arrivals), only, clearing)
      ensures converted == old(converted) + Residual(old(arrivals), old(sv.orders), only)
      ensures bids <= |levels| && SidesOf(levels, bids) == after
    {
      hide InStep, HoldsBook, Tied, Waits, Away, HeldBy, AllHanded, Residual, Minus, TotalCash, TotalShares;
      AwayParts(arrivals, sv.orders, after.bids + after.asks);
      var handed, residual := Drain(sv.orders, arrivals, only, clearing);
      HandedInStep(after, table, sv.orders, handed, sv.accounts, arrivals, only, clearing, mark,
                   if traded then clearing else mark, drift);
      HandedClients(sv.orders, handed, arrivals, only, clearing, |sv.accounts|);
      sv.orders := handed;
      if traded {
        mark := clearing;
      }
      converted := converted + residual;
      mbo, levels, bids, arrivals := now, after.bids + after.asks, |after.bids|, [];
      imbalanceBuy, imbalanceSell := 0, 0;
      NobodyWaits(handed, levels);
    }

    // ---------- server_order's first choice ----------

    /** Does this message go to the window instead of the book? */
    predicate Diverted(auctionOnly: bool)
      reads this
    {
      auctionOnly || (auctioning && !isOpen)
    }

    /** Why a single message is turned away. */
    ghost function MessageReason(id: u32, auctionOnly: bool, special: bool, isCash: bool, buyingPower: int): Reason
      requires Valid() && Incoming(sv.orders, levels, id)
      reads this, sv
    {
      if Diverted(auctionOnly) then if sv.orders[id].cancel then UnparkReason(sv.orders[id]) else ParkReason(sv.orders[id], special)
      else if !isOpen then MarketClosed
      else sv.OrderReason(id, isCash, buyingPower, levels, bids)
    }

    /** In the window it takes nothing out, or what is parked, or what has no hold. */
    ghost predicate Returns(id: u32)
      requires id in sv.orders
      reads this, sv
    {
      var o := sv.orders[id];
      o.cancel ==> o.otherId in arrivals || HoldsNothing(o.otherId, sv.orders, mark)
    }

    /** Any single message, with everything it does. Book and order table are out of step afterwards if
    and only if the window accepted a cancel of an order that rests. While the mark stays, every reserve
    is backed if and only if the window accepted no cancel of an order that was not parked and had a
    hold to give back, and nothing rests bare. special says that the message carries a bit that only the
    window's refusal is modelled for. */
    method Execute(id: u32, auctionOnly: bool, special: bool, isCash: bool, buyingPower: int)
      returns (reason: Reason, fills: seq<Fill>)
      requires Valid() && Room() && Incoming(sv.orders, levels, id) && id !in arrivals && (special ==> Diverted(auctionOnly))
      modifies this`mbo, this`mark, this`levels, this`bids, this`drift, this`arrivals, this`imbalanceBuy, this`imbalanceSell, sv
      ensures reason == old(MessageReason(id, auctionOnly, special, isCash, buyingPower))
      // where it goes
      ensures old(isOpen) && !auctionOnly ==> Window() == old(Window())
      ensures old(isOpen) && !auctionOnly && reason == NoReason ==>
                bids <= |levels| && Outcome(SidesOf(levels, bids), fills) == old(Message(SidesOf(levels, bids), sv.orders, id))
      ensures !old(isOpen) && !old(auctioning) && !auctionOnly ==> reason == MarketClosed
      ensures old(frozen && sv.orders[id].cancel) && (auctionOnly || (old(auctioning) && !old(isOpen))) ==> reason != NoReason
      // turned away
      ensures reason != NoReason ==> Shown() == old(Shown()) && Window() == old(Window()) && drift == old(drift) && fills == []
      ensures reason != NoReason ==> sv.accounts == old(sv.accounts) && sv.exchangeCash == old(sv.exchangeCash)
      ensures reason != NoReason ==>
                sv.orders == if old(Diverted(auctionOnly) && sv.orders[id].cancel) then old(sv.orders) else Emptied(old(sv.orders), id)
      // parked, or taken out again
      ensures reason == NoReason && old(Diverted(auctionOnly)) ==> Shown() == old(Shown()) && sv.exchangeCash == old(sv.exchangeCash) && fills == []
      ensures reason == NoReason && old(Diverted(auctionOnly) && !sv.orders[id].cancel) ==>
                && sv.orders == old(sv.orders) && arrivals == old(arrivals) + [id] && drift == old(drift)
                && Moves(old(sv.accounts), sv.accounts, OneHeld(id, sv.orders, mark))
      ensures var t := old(sv.orders[id].otherId);
              reason == NoReason && old(Diverted(auctionOnly) && sv.orders[id].cancel) ==>
                && t in old(sv.orders) && sv.orders == Emptied(old(sv.orders), t) && arrivals == old(arrivals)
                && Moves(old(sv.accounts), sv.accounts, OneFreed(t, old(sv.orders), mark))
                && drift == DriftOut(old(drift), t, arrivals, old(sv.orders), mark)
      ensures old(Diverted(auctionOnly) && !sv.orders[id].cancel) ==>
                && ParkJudged(reason, old(sv.orders[id]), old(sv.accounts[sv.orders[id].client]), special, mark,
                              old(Offsetting()), old(imbalanceBuy), old(imbalanceSell))
                && (reason == NoReason && old(Offsetting()) ==> Offset(old(imbalanceBuy), old(imbalanceSell), imbalanceBuy, imbalanceSell))
                && |sv.accounts| == old(|sv.accounts|)
                && (reason == NoReason ==>
                      HoldCovered(old(sv.orders[id]), old(sv.accounts[sv.orders[id].client]),
                                  sv.accounts[old(sv.orders[id].client)], mark))
      // executed
      ensures reason == NoReason && !old(Diverted(auctionOnly)) ==>
                && bids <= |levels| && Executed(old(SidesOf(levels, bids)), SidesOf(levels, bids), old(sv.orders), sv.orders, id, fills)
                && AllPaid(old(sv.accounts), sv.accounts, old(sv.orders[id].client), old(sv.orders[id].buy), fills, old(sv.orders))
                && Window() == old(Window()) && mark == LastPrice(fills, old(sv.orders), old(mark))
                && MarkedAtWorst(fills, old(sv.orders), old(sv.orders[id].buy), old(mark), mark)
                && drift == Slipped(Behind(old(drift), old(sv.orders), id, fills), arrivals, sv.orders, old(mark), mark)
      // in step
      ensures Valid() <==> !(reason == NoReason && old(Diverted(auctionOnly) && sv.orders[id].cancel)
                             && Count(old(levels), old(sv.orders[id].otherId)) > 0)
      ensures Valid() && mark == old(mark) && old(Backed()) ==>
                (Backed() <==> reason != NoReason
                               || if old(Diverted(auctionOnly)) then old(Returns(id)) else Bare(old(sv.orders)[id], fills) == 0)
      ensures Valid() && old(Balanced()) ==>
                (Balanced() <==> reason != NoReason
                                 || old(Diverted(auctionOnly) && sv.orders[id].cancel ==> sv.orders[id].otherId in arrivals))
    {
      hide InStep, HoldsBook, Tied, Waits, Away, HeldBy, TotalCash, TotalShares, OldBook, BookState, Backed, Balanced,
           Executed, AllPaid, Moves, OneFreed,
           Slipped, Behind, Bare, Congruent, HoldsNothing, Server.OrderReason;
      fills := [];
      CancelKnown(sv.orders, levels, id);
      if Diverted(auctionOnly) {
        if sv.orders[id].cancel {
          reason := Unpark(id);
        } else {
          reason := Park(id, special);
        }
        return;
      }
      if !isOpen {
        reason := MarketClosed;
        TurnAway(id);
        return;
      }
      ghost var s, table := SidesOf(levels, bids), sv.orders;
      reason, fills := SubmitOrder(id, isCash, buyingPower);
      if reason == NoReason {
        ExecutedMeans(s, SidesOf(levels, bids), table, sv.orders, id, fills);
      }
    }

    /** The book is closed. */
    method TurnAway(id: u32)
      requires Valid() && id in sv.orders && id !in arrivals && Count(levels, id) == 0
      modifies sv`orders
      ensures Valid() && sv.orders == Emptied(old(sv.orders), id) && Balanced() == old(Balanced())
      ensures Backed() == old(Backed())
    {
      hide InStep, HoldsBook, Tied, Waits, Away, HeldBy, TotalCash, TotalShares, Backed, Congruent;
      BackedExactly();
      RejectedParks(SidesOf(levels, bids), sv.orders, sv.accounts, id, arrivals, levels, bids, mark, drift);
      sv.orders := Emptied(sv.orders, id);
      BackedExactly();
    }

    // ---------- The calendar ----------

    /** server_market_close after its cross: the day's and the due dated orders are out. */
    method EndSession(day: Ring<u32>, gtd: Pq.Queue, today: u32, tif: map<u32, Closing.Tif>, q: Pq.Queue,
                      ring: Ring<u64>) returns (ghost gone: set<u32>)
      requires Valid() && Room()
      requires day.Valid() && (forall x | x in day.Contents() :: x in sv.orders && x in tif)
      requires gtd.Valid() && (forall e | e in gtd.Contents() :: Closing.IdOf(e) in sv.orders && Closing.IdOf(e) in tif)
      requires q.Valid() && q.Contents() == multiset{} && q.current + |day.Contents()| + gtd.current < Pq.INDEX_LIMIT
      requires ring.Valid() && ring.Contents() == []
      requires q != gtd && q.heap != gtd.heap && q.heap != ring.buffer && gtd.heap != ring.buffer
      modifies this`mbo, this`levels, this`bids, sv, q, q.heap, gtd, gtd.heap, ring, ring.buffer, day`start, day`end
      ensures Valid() && Balanced() == old(Balanced()) && Backed() == old(Backed())
      ensures forall x :: x in gone <==>
                            && Count(old(levels), x) == 1
                            && (Closing.DayOver(x, tif, old(day.Contents())) || Closing.DateCome(x, tif, old(gtd.Contents()), today))
      ensures SidesOf(levels, bids) == Pull(old(SidesOf(levels, bids)), gone)
      ensures forall x | x in tif ::
                LeavesWhenDue(x, tif[x], x in old(day.Contents()), old(gtd.Contents()), today, Count(old(levels), x), Count(levels, x))
      ensures SameTerms(sv.orders, old(sv.orders))
      ensures forall x | x in sv.orders :: sv.orders[x].quantity == if x in gone then 0 else old(sv.orders)[x].quantity
    {
      hide InStep, HoldsBook, Tied, Waits, Away, HeldBy, TotalCash, TotalShares, OldBook, BookState, Refines, Pull,
           Closing.DayOver, Closing.DateCome, SameTerms, LeavesWhenDue,
           Pq.Queue.Valid, Pq.Queue.Contents, Ring.Valid, Ring.Contents, Closing.IdOf, Closing.DateOf, Backed, Congruent;
      BackedExactly();
      ghost var s, table, held := SidesOf(levels, bids), sv.orders, HeldBy(arrivals, sv.orders, mark, drift);
      InStepParts(s, table, sv.accounts, held);
      RoomForBook(mbo, levels, bids);
      BookIsState(mbo, levels, bids, table);
      var now, size;
      now, size, gone := Closing.CloseSession(sv, day, gtd, today, tif, q, ring, mbo, levels, bids, held);
      ClosedHolds(mbo, now, size, s, gone);
      ClosedSpares(s, gone, table, sv.orders, arrivals, levels, bids);
      HeldSame(arrivals, table, sv.orders, mark, drift);
      ghost var after := Pull(s, gone);
      DueLeave(s, gone, levels, bids, tif, old(day.Contents()), old(gtd.Contents()), today);
      InStepSame(after, sv.orders, sv.accounts, held, HeldBy(arrivals, sv.orders, mark, drift));
      mbo, levels, bids := now, after.bids + after.asks, |after.bids|;
      BackedExactly();
    }

    /** server_eod. */
    method EndDay()
      requires Valid()
      modifies sv
      ensures Valid() && Balanced() == old(Balanced()) && Backed() == old(Backed()) && sv.orders == old(sv.orders)
      ensures |sv.accounts| == old(|sv.accounts|)
      ensures forall c | 0 <= c < |sv.accounts| ::
                sv.accounts[c] == old(sv.accounts[c]).(cash := old(sv.accounts[c]).cash - Billing.Borrow(mark, old(sv.accounts[c]).shares))
    {
      hide InStep, HoldsBook, Tied, Waits, Away, HeldBy, TotalCash, TotalShares, Billing.Borrow, Backed, Congruent;
      ghost var s, held := SidesOf(levels, bids), HeldBy(arrivals, sv.orders, mark, drift);
      assert sv.InStep(s, held);
      BackedExactly();
      Billing.Eod(sv, mark);
      BackedExactly();
    }

    /** server_eom. */
    method EndMonth(subs: seq<Billing.Subscription>)
      requires Valid() && |subs| == |sv.accounts|
      modifies sv
      ensures Valid() && Balanced() == old(Balanced()) && Backed() == old(Backed()) && sv.orders == old(sv.orders)
      ensures |sv.accounts| == |subs|
      ensures forall c | 0 <= c < |subs| :: sv.accounts[c] == old(sv.accounts[c]).(cash := old(sv.accounts[c]).cash - Billing.MonthlyFee(subs[c]))
    {
      hide InStep, HoldsBook, Tied, Waits, Away, HeldBy, TotalCash, TotalShares, Billing.MonthlyFee, Backed, Congruent;
      ghost var s, held := SidesOf(levels, bids), HeldBy(arrivals, sv.orders, mark, drift);
      assert sv.InStep(s, held);
      BackedExactly();
      Billing.Eom(sv, subs);
      BackedExactly();
    }

    /** What a bell does to the flags: a window starts, freezes, and ends with the open or the close. */
    method Bell(stage: Bells.Stage)
      requires Valid()
      modifies this`isOpen, this`auctioning, this`frozen
      ensures Valid() && Balanced() == old(Balanced()) && Backed() == old(Backed())
      ensures isOpen == (stage.Open? || (old(isOpen) && !stage.Close?))
      ensures auctioning == (stage.OpenWindow? || stage.CloseWindow? || (old(auctioning) && !stage.Open? && !stage.Close?))
      ensures frozen == (stage.OpenFreeze? || stage.CloseFreeze?)
      ensures old(Bells.FlagsBefore(stage, isOpen, auctioning, frozen)) ==>
                Bells.FlagsBefore(Bells.Next(Bells.Ring(0, stage)).stage, isOpen, auctioning, frozen)
    {
      hide InStep, HoldsBook, HeldBy, Waits, Away, ReservesOk, TotalCash, TotalShares, Bells.FlagsBefore;
      if Bells.FlagsBefore(stage, isOpen, auctioning, frozen) {
        Bells.BellFlags(Bells.Ring(0, stage), isOpen, auctioning, frozen);
      }
      if stage.OpenFreeze? || stage.CloseFreeze? {
        frozen := true;
        return;
      }
      auctioning, frozen := stage.OpenWindow? || stage.CloseWindow?, false;
      if stage.Open? || stage.Close? {
        isOpen := stage.Open?;
      }
    }

    /** The feed's look at what a cross would do now: it changes nothing. */
    method Look() returns (clearing: u16, matched: nat, ghost l: Lists)
      requires Valid() && Room() && |arrivals| + 1 < Pq.INDEX_LIMIT
      modifies sv`accounts
      ensures Valid() && Balanced() == old(Balanced()) && sv.accounts == old(sv.accounts)
      ensures LinedUp(l, arrivals, sv.orders) && W.Cleared(CurvesOf(l, sv.orders, levels, bids), mark, clearing, matched)
    {
      hide InStep, HoldsBook, Tied, Waits, HeldBy, TotalCash, TotalShares, OldBook, LinedUp, W.Cleared, CurvesOf;
      ghost var held := HeldBy(arrivals, sv.orders, mark, drift);
      InStepParts(SidesOf(levels, bids), sv.orders, sv.accounts, held);
      RoomForBook(mbo, levels, bids);
      l, clearing, matched := Indicative(sv, arrivals, mbo, mark, levels, bids);
    }

    /** A slot nobody refers to any more goes back. */
    method Free(id: u32)
      requires Valid() && id in sv.orders && id !in arrivals && Count(levels, id) == 0
      modifies sv`orders
      ensures Valid() && Balanced() == old(Balanced()) && Backed() == old(Backed()) && sv.orders == old(sv.orders) - {id}
    {
      hide InStep, HoldsBook, Tied, Backed, Congruent;
      BackedExactly();
      ghost var was, held := sv.orders, HeldBy(arrivals, sv.orders, mark, drift);
      sv.orders := sv.orders - {id};
      SidesJoin(levels, bids);
      AgreesKnown(SidesOf(levels, bids), was, sv.accounts, held);
      InStepApart(SidesOf(levels, bids), was, sv.orders, sv.accounts, held);
      HeldSame(arrivals, was, sv.orders, mark, drift);
      InStepSame(SidesOf(levels, bids), sv.orders, sv.accounts, held, HeldBy(arrivals, sv.orders, mark, drift));
      BackedExactly();
    }
  }

  /** A bid for 100 at 50 overtaken by its own cancel in the opening window: the cancel is accepted, gives
  back 5000 that nobody reserved and takes 100 shares off an imbalance of none. */
  method Overtaken() returns (x: Exchange, reason: Reason)
    ensures reason == NoReason && x.Valid() && !x.Backed() && !x.Balanced()
  {
    hide Exchange.Valid, Exchange.Backed, Exchange.Balanced, HoldsNothing, OneFreed, Moves, Emptied, Bells.FlagsBefore,
         Bells.Next;
    var sv := new Server([Account(10000, 0, 0, 0)]);
    x := new Exchange(sv);
    x.Bell(Bells.OpenWindow);
    x.Mint(7, Order(0, 50, 100, true, false, false, false, false, false, 0));
    x.Mint(8, Order(0, 0, 0, true, false, false, false, false, true, 7));
    BidHolds(x.sv.orders, x.mark);
    assert Count(x.levels, 7) == 0;
    reason := x.Unpark(8);
  }

  lemma BidHolds(table: Table, mark: u16)
    requires 7 in table && table[7] == Order(0, 50, 100, true, false, false, false, false, false, 0)
    ensures !HoldsNothing(7, table, mark)
  {
  }
}
