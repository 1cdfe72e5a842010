/** The server object of src/server.c with server_order for plain adds, cancels, replaces and pairs. */
module ServerOrders {
  import opened Machine
  import opened Book
  import opened BookFacts
  import opened BookRuns
  import opened Snapshot
  import opened SnapshotWriter
  import opened Ranges
  import opened Rewrite
  import opened FirstLeg
  import opened Canrep
  import opened Weights
  import opened Settle
  import opened SettlePair
  import opened LegWalk
  import opened Ledger
  import opened Desk
  import opened Prechecks
  import opened PairDesk
  import opened InSlot
  import opened FillOrKill
  import opened Funds
  import opened FundsPair
  import PairRewrite

  class Server {
    var orders: Table
    var accounts: seq<Account>
    var exchangeCash: int

    /** Nobody has sent anything yet. */
    constructor (accounts: seq<Account>)
      ensures Valid() && orders == map[] && this.accounts == accounts && exchangeCash == 0
    {
      orders, this.accounts, exchangeCash := map[], accounts, 0;
    }

    ghost predicate Valid()
      reads this
    {
      forall x | x in orders :: orders[x].client < |accounts|
    }

    /** Book, order table and reserves tell the same story. */
    ghost predicate InStep(s: Sides, held: Holds)
      reads this
    {
      Desk.InStep(s, orders, accounts, held)
    }

    function Money(): int
      reads this
    {
      TotalCash(accounts) + exchangeCash
    }

    // ---------- The fill loop ----------

    /** One fill of the settlement loop; a fill bigger than the taker stops the exchange. */
    method SettleFill(f: Fill, takerId: u32, takerIsBuy: bool) returns (overFill: bool)
      requires Valid() && takerId in orders && f.id in orders
      modifies this
      ensures overFill <==> f.qty > old(orders[takerId].quantity)
      ensures Valid() && |accounts| == old(|accounts|)
      ensures !overFill ==> orders == AfterFill(old(orders), f, takerId)
      ensures !overFill ==> OneMoved(old(accounts), accounts, old(orders[takerId].client), takerIsBuy, f, old(orders[f.id]))
      ensures Money() == old(Money()) && TotalShares(accounts) == old(TotalShares(accounts))
      ensures exchangeCash >= old(exchangeCash)
    {
      FeeRates(f.qty);
      if f.qty > orders[takerId].quantity {
        return true;
      }
      var maker, taker := orders[f.id].client, orders[takerId].client;
      var cost := f.qty * orders[f.id].price;
      orders := Less(orders, f.id, f.qty);
      orders := Less(orders, takerId, f.qty);
      accounts := FillAccounts(accounts, taker, maker, cost, f.qty, takerIsBuy);
      exchangeCash := exchangeCash + TakerFee(f.qty) - MakerRebate(f.qty);
      overFill := false;
    }

    /** The whole loop: no over-fill, and every account and order moved by exactly its fills. */
    method SettleFills(fills: seq<Fill>, takerId: u32, takerIsBuy: bool) returns (overFill: bool)
      requires Valid() && takerId in orders && FillTotal(fills) <= orders[takerId].quantity
      requires forall f | f in fills :: f.id in orders && f.id != takerId && orders[f.id].buy != takerIsBuy
      modifies this
      ensures !overFill
      ensures Valid() && |accounts| == old(|accounts|)
      ensures orders == AfterFills(old(orders), fills, takerId)
      ensures Moved(old(accounts), accounts, old(orders[takerId].client), takerIsBuy, fills, old(orders))
      ensures Money() == old(Money()) && TotalShares(accounts) == old(TotalShares(accounts))
      ensures exchangeCash >= old(exchangeCash)
    {
      ghost var was, taker := orders, orders[takerId].client;
      assert fills[0..] == fills && fills[..0] == [];
      LoopStarts(accounts, taker, takerIsBuy, was);
      overFill := false;
      for i := 0 to |fills|
        invariant !overFill && Valid() && |accounts| == old(|accounts|) && SameTerms(orders, was)
        invariant takerId in orders && FillTotal(fills[i..]) <= orders[takerId].quantity
        invariant AfterFills(orders, fills[i..], takerId) == AfterFills(was, fills, takerId)
        invariant Moved(old(accounts), accounts, taker, takerIsBuy, fills[..i], was)
        invariant Money() == old(Money()) && TotalShares(accounts) == old(TotalShares(accounts))
        invariant exchangeCash >= old(exchangeCash)
      {
        var f := fills[i];
        assert f in fills;
        assert fills[i..][0] == f && fills[i..][1..] == fills[i + 1..];
        ghost var before, table := accounts, orders;
        FillStep(table, f, takerId, fills[i + 1..]);
        FillKeepsTerms(table, f, takerId, was);
        overFill := SettleFill(f, takerId, takerIsBuy);
        if overFill {
          return;
        }
        LoopMoves(old(accounts), before, accounts, taker, takerIsBuy, fills, i, was);
      }
      assert fills[..|fills|] == fills && fills[|fills|..] == [];
    }

    // ---------- After the fill loop ----------

    /** An IOC or FOK remainder is wiped; what rests is reserved, unless the message is a cancel. */
    method ReserveRest(id: u32)
      requires Valid() && id in orders
      modifies this
      ensures Valid() && exchangeCash == old(exchangeCash)
      ensures orders == WipedOrders(old(orders), id)
      ensures ReservedBy(old(accounts), accounts, old(orders), id, if old(orders[id].cancel || !orders[id].Gtc()) then 0 else old(orders[id].quantity))
    {
      ghost var was, start := orders, accounts;
      var o := orders[id];
      if !o.Gtc() {
        orders := Emptied(orders, id);
      }
      EmptiedTerms(was, id);
      if !o.cancel {
        accounts := Reserve(accounts, orders, id, orders[id].quantity);
        ReservedTerms(start, accounts, was, orders, id, orders[id].quantity);
      } else {
        ReservedNothing(accounts, was, id);
      }
    }

    /** The target's reserve is given back and its order wiped. */
    method Retire(target: u32)
      requires Valid() && target in orders
      modifies this
      ensures Valid() && exchangeCash == old(exchangeCash)
      ensures orders == Emptied(old(orders), target)
      ensures ReservedBy(old(accounts), accounts, old(orders), target, -(old(orders[target].quantity) as int))
    {
      accounts := Unreserve(accounts, orders, target, orders[target].quantity);
      orders := Emptied(orders, target);
    }

    /** Rest, then retirement; the middle is where the accounts stood in between. */
    method Close(id: u32, ghost table: Table, ghost rested: nat, ghost pulled: nat) returns (ghost middle: seq<Account>)
      requires Valid() && id in orders && id in table && SameTerms(orders, table) && HasTarget(table[id], table)
      requires rested == if table[id].cancel || !table[id].Gtc() then 0 else orders[id].quantity
      requires table[id].Pulls() ==> table[id].otherId != id && orders[table[id].otherId].quantity == pulled
      requires !table[id].Pulls() ==> pulled == 0
      modifies this
      ensures Valid() && exchangeCash == old(exchangeCash)
      ensures orders == ClosedOrders(old(orders), id)
      ensures ReservedBy(old(accounts), middle, table, id, rested)
      ensures ReservedBy(middle, accounts, table, table[id].otherId, -(pulled as int))
    {
      hide ReservedBy;
      ghost var looped, start := orders, accounts;
      ReserveRest(id);
      RestTerms(start, accounts, table, looped, id, rested);
      middle := accounts;
      ghost var wiped := orders;
      var o := orders[id];
      if o.Pulls() {
        Retire(o.otherId);
        ReservedTerms(middle, accounts, table, wiped, o.otherId, -(pulled as int));
      } else {
        ReservedNothing(accounts, table, o.otherId);
      }
    }

    /** Everything server_order does to accounts and orders once the book has been rewritten. */
    method Settle(id: u32, fills: seq<Fill>, ghost s: Sides, ghost held: Holds) returns (filled: nat)
      requires Valid() && InStep(s, held) && Settleable(s, orders, id) && OwnTarget(orders, id)
      requires fills == Message(s, orders, id).fills
      modifies this
      ensures Valid() && |accounts| == old(|accounts|)
      ensures orders == AfterMessage(old(orders), id, fills)
      ensures InStep(Message(s, old(orders), id).sides, Behind(held, old(orders), id, fills))
      ensures filled == FillTotal(fills)
      ensures AllPaid(old(accounts), accounts, old(orders[id].client), old(orders[id].buy), fills, old(orders))
      ensures Money() == old(Money()) && TotalShares(accounts) == old(TotalShares(accounts))
      ensures exchangeCash >= old(exchangeCash)
    {
      hide SoundSides, Agrees, Message, ReservesOk, Moved, ReservedBy, AllPaid, TotalCash, TotalShares, Behind, Bare,
           LeftResting, PulledShares, TargetKept;
      ghost var table, start := orders, accounts;
      var before := orders[id].quantity;
      MessageReady(s, orders, id);
      var overFill := SettleFills(fills, id, orders[id].buy);
      AfterLoop(s, table, id);
      ClosedIsAfter(table, id, fills);
      filled := before - orders[id].quantity;
      ghost var traded := accounts;
      ghost var rested := LeftResting(table[id], fills) - Bare(table[id], fills);
      CanClose(s, table, orders, id, fills);
      ghost var middle := Close(id, table, rested, PulledShares(s, table[id]));
      MessageSettled(s, table, id, start, traded, middle, accounts, held);
    }

    // ---------- Prechecks ----------

    /** What a cash account has left in the pool the order draws on, its target's part given back;
    for a margin account, the buying power it was quoted. */
    function Limit(o: Order, isCash: bool, buyingPower: int): int
      requires Valid() && HasTarget(o, orders) && o.client < |accounts|
      reads this
    {
      var a := accounts[o.client];
      if !isCash then buyingPower
      else if o.buy then a.cash - a.reservedCash + Freed(o, true)
      else a.shares - a.reservedShares + Freed(o, false)
    }

    /** What a replacement's target gives back to the pool of buys, or of sells. */
    function Freed(o: Order, buy: bool): nat
      requires HasTarget(o, orders)
      reads this
    {
      if !o.canRep || orders[o.otherId].buy != buy then 0
      else if buy then orders[o.otherId].quantity * orders[o.otherId].price
      else orders[o.otherId].quantity
    }

    /** The same for a pair in a cash account: whatever either target frees goes to the pool it came from. */
    function PairLimit(bid: Order, ask: Order, buy: bool): int
      requires Valid() && HasTarget(bid, orders) && HasTarget(ask, orders) && bid.client < |accounts|
      reads this
    {
      var a := accounts[bid.client];
      (if buy then a.cash - a.reservedCash else a.shares - a.reservedShares) + U32(Freed(bid, buy) + Freed(ask, buy))
    }

    /** client_close_q: how much of a position this order may close for free. */
    function CloseQ(o: Order, isCash: bool): nat
      requires o.client < |accounts|
      reads this
    {
      var a := accounts[o.client];
      if isCash then 0
      else if o.buy && a.shares < 0 then -a.shares
      else if !o.buy && a.shares > a.reservedShares then a.shares - a.reservedShares
      else 0
    }

    /** Why a message is turned away: first its cancel, then its order. */
    ghost function OrderReason(id: u32, isCash: bool, buyingPower: int, levels: seq<Level>, bids: nat): Reason
      requires Valid() && id in orders && HasTarget(orders[id], orders) && bids <= |levels|
      reads this
    {
      var o := orders[id];
      var pull := if o.Pulls() then CancelReason(o, orders, levels) else NoReason;
      if pull != NoReason then pull
      else if o.PureCancel() then NoReason
      else AddReason(o, orders, levels, bids, CloseQ(o, isCash), Limit(o, isCash, buyingPower), isCash)
    }

    method Precheck(id: u32, m: Mbo, isCash: bool, buyingPower: int, ghost levels: seq<Level>, ghost bids: nat)
      returns (reason: Reason)
      requires Valid() && BookState(m, levels, bids, orders) && Incoming(orders, levels, id)
      ensures reason == OrderReason(id, isCash, buyingPower, levels, bids)
      ensures reason == NoReason ==> Ready(orders, m, levels, bids, id)
      ensures reason == NoReason && !orders[id].PureCancel() && orders[id].Gtc() ==> orders[id].price > 0
      ensures reason == NoReason && orders[id].fok && !orders[id].PureCancel() ==>
                Sweep(Facing(levels, bids, orders[id].buy), orders[id], orders[id].quantity).left == 0
    {
      hide BookState, LegCharge;
      StateFits(m, levels, bids, orders);
      var o := orders[id];
      reason := NoReason;
      if o.canRep || o.cancel {
        reason := CancelPrecheck(o, orders, m, levels, bids);
      }
      if reason == NoReason && !o.PureCancel() {
        reason := AddPrecheck(o, orders, m, CloseQ(o, isCash), Limit(o, isCash, buyingPower), isCash, levels, bids);
      }
      if reason == NoReason {
        PassedIsReady(orders, m, levels, bids, id);
      }
    }

    /** The reason a message is given is the one its funds deserve. */
    lemma OrderJudged(id: u32, isCash: bool, buyingPower: int, levels: seq<Level>, bids: nat, held: Holds)
      requires Valid() && bids <= |levels| && InStep(SidesOf(levels, bids), held) && Incoming(orders, levels, id)
      requires !orders[id].PureCancel()
      ensures Judged(OrderReason(id, isCash, buyingPower, levels, bids), accounts[orders[id].client], orders[id], SidesOf(levels, bids),
                     Message(SidesOf(levels, bids), orders, id), orders, held, isCash, buyingPower)
    {
      hide Message, SoundSides, Agrees, AddReason, CancelReason, Judged;
      var o := orders[id];
      assert ReserveOk(accounts[o.client], o.client, SidesOf(levels, bids), orders, held);
      JudgedHere(levels, bids, orders, id, accounts[o.client], held, CloseQ(o, isCash), Limit(o, isCash, buyingPower), isCash,
                 buyingPower, OrderReason(id, isCash, buyingPower, levels, bids));
    }

    // ---------- server_order ----------

    /** One single order message from arrival to settlement. A rejected order changes nothing but
    itself; an accepted one leaves the new snapshot, the order table, every account and every reserve
    in step with what the message means, but for what rests bare. An accepted fill-or-kill fills whole exactly when the book
    still reaches its quantity without its own target. */
    method ServerOrder(id: u32, m: Mbo, isCash: bool, buyingPower: int, ghost levels: seq<Level>, ghost bids: nat,
                       ghost held: Holds)
      returns (reason: Reason, now: Mbo, size: nat, fills: seq<Fill>, filled: nat)
      requires Valid() && OldBook(m, levels, bids) && InStep(SidesOf(levels, bids), held) && Incoming(orders, levels, id)
      modifies this
      ensures Valid()
      ensures reason == old(OrderReason(id, isCash, buyingPower, levels, bids))
      ensures old(orders[id].PureCancel()) ||
              Judged(reason, old(accounts[orders[id].client]), old(orders[id]), SidesOf(levels, bids),
                     Message(SidesOf(levels, bids), old(orders), id), old(orders), held, isCash, buyingPower)
      ensures reason == NoReason ==>
                FundsKept(old(accounts), accounts, SidesOf(levels, bids), old(orders), id, held, isCash && !old(orders[id].PureCancel()))
      ensures Money() == old(Money()) && TotalShares(accounts) == old(TotalShares(accounts))
      ensures exchangeCash >= old(exchangeCash)
      ensures reason != NoReason ==> now == m && fills == [] && filled == 0
                                     && accounts == old(accounts) && orders == Emptied(old(orders), id)
      ensures reason != NoReason ==> InStep(SidesOf(levels, bids), held)
      ensures reason == NoReason ==> InStep(Message(SidesOf(levels, bids), old(orders), id).sides, Behind(held, old(orders), id, fills))
      ensures reason == NoReason ==> (InStep(Message(SidesOf(levels, bids), old(orders), id).sides, held) <==> Bare(old(orders)[id], fills) == 0)
      ensures reason == NoReason ==> Refines(now, size, fills, Message(SidesOf(levels, bids), old(orders), id))
      ensures reason == NoReason ==> size <= Size(levels) + INDEX_BYTES + LEVEL_BYTES + ENTRY_BYTES
      ensures reason == NoReason ==> orders == AfterMessage(old(orders), id, fills)
      ensures reason == NoReason ==> Tallied(SidesOf(levels, bids), Message(SidesOf(levels, bids), old(orders), id).sides, orders,
                                             if old(orders[id].PureCancel()) then {} else {id})
      ensures reason == NoReason ==> AllPaid(old(accounts), accounts, old(orders[id].client), old(orders[id].buy), fills, old(orders))
      ensures reason == NoReason ==> Settleable(SidesOf(levels, bids), old(orders), id)
      ensures reason == NoReason ==> filled == FillTotal(fills)
      ensures reason == NoReason ==> FokAnswered(old(orders)[id], old(orders), levels, bids, filled)
    {
      hide SoundSides, Agrees, Message, ReservesOk, AfterMessage, FokAnswered, AllPaid, Sweep, Tallied, Judged, FundsKept;
      BookIsState(m, levels, bids, orders);
      SidesJoin(levels, bids);
      reason := Precheck(id, m, isCash, buyingPower, levels, bids);
      if !orders[id].PureCancel() {
        OrderJudged(id, isCash, buyingPower, levels, bids, held);
      }
      if reason != NoReason {
        RejectedInStep(SidesOf(levels, bids), orders, accounts, id, held);
        orders := Emptied(orders, id);
        now, size, fills, filled := m, 0, [], 0;
        return;
      }
      now, size, fills := ObCanrep(orders, id, m, levels, bids);
      HandledAsIs(orders, id);
      SidesSoundHere(levels, bids);
      FokHere(levels, bids, orders, id);
      ghost var table, start := orders, accounts;
      MessageAccounts(SidesOf(levels, bids), orders, id);
      filled := Settle(id, fills, SidesOf(levels, bids), held);
      AccountsKept(start, accounts, SidesOf(levels, bids), table, id, held, reason, isCash, buyingPower);
      BareInStep(Message(SidesOf(levels, bids), table, id), table, id, fills, orders, accounts, held);
    }

    // ---------- Pairs ----------

    /** Why a pair's cancels do not pass: the bid's first, then the ask's, then both naming one order. */
    ghost function PairPullReason(bid: Order, ask: Order, levels: seq<Level>): Reason
      requires bid.otherId in orders && ask.otherId in orders
      reads this
    {
      var first := CancelReason(bid, orders, levels);
      if first != NoReason then first
      else
        var second := CancelReason(ask, orders, levels);
        if second != NoReason then second else if bid.otherId == ask.otherId then BadQualifier else NoReason
    }

    /** On margin the two charges gate once; in cash each leg draws on its own pool. */
    ghost function PairFundsReason(bid: Order, ask: Order, isCash: bool, buyingPower: int, levels: seq<Level>,
                                   bids: nat): Reason
      requires Valid() && bids <= |levels| && HasTarget(bid, orders) && HasTarget(ask, orders)
      requires bid.client < |accounts| && ask.client < |accounts|
      reads this
    {
      var bidCharge := LegCharge(bid, orders, levels, bids, CloseQ(bid, isCash), isCash);
      var askCharge := LegCharge(ask, orders, levels, bids, CloseQ(ask, isCash), isCash);
      if !isCash then if buyingPower < bidCharge + askCharge then NoBuyingPower else NoReason
      else if PairLimit(bid, ask, true) < bidCharge then NoBuyingPower
      else if PairLimit(bid, ask, false) < askCharge then NoShares
      else NoReason
    }

    ghost function PairReason(bidId: u32, askId: u32, isCash: bool, buyingPower: int, levels: seq<Level>, bids: nat): Reason
      requires Valid() && bids <= |levels| && bidId in orders && askId in orders
      requires HasTarget(orders[bidId], orders) && HasTarget(orders[askId], orders)
      requires orders[bidId].Pulls() == orders[askId].Pulls()
      reads this
    {
      var bid, ask := orders[bidId], orders[askId];
      var pull := if bid.Pulls() then PairPullReason(bid, ask, levels) else NoReason;
      if bid.market || !bid.Gtc() then BadQualifier
      else if pull != NoReason then pull
      else if bid.cancel then NoReason
      else if bid.quantity == 0 || ask.quantity == 0 then InvalidQuantity
      else if bid.price == 0 || ask.price == 0 then InvalidPrice
      else if bid.price >= ask.price then CrossedPair
      else PairFundsReason(bid, ask, isCash, buyingPower, levels, bids)
    }

    /** pair_precheck. */
    method PairPrecheck(bidId: u32, askId: u32, m: Mbo, isCash: bool, buyingPower: int, ghost levels: seq<Level>,
                        ghost bids: nat)
      returns (reason: Reason)
      requires Valid() && BookState(m, levels, bids, orders) && PairArrives(orders, levels, bidId, askId)
      ensures reason == PairReason(bidId, askId, isCash, buyingPower, levels, bids)
      ensures reason == NoReason && PairIncoming(orders, levels, bidId, askId) ==> ReadyPair(orders, m, levels, bids, bidId, askId)
    {
      hide BookState, LegCharge, ReadyPair, PairIncoming;
      StateFits(m, levels, bids, orders);
      var bid, ask := orders[bidId], orders[askId];
      if bid.market || !bid.Gtc() {
        return BadQualifier;
      }
      if bid.Pulls() {
        reason := CancelPrecheck(bid, orders, m, levels, bids);
        if reason != NoReason {
          return;
        }
        reason := CancelPrecheck(ask, orders, m, levels, bids);
        if reason != NoReason {
          return;
        }
        if bid.otherId == ask.otherId {
          return BadQualifier;
        }
      }
      if bid.cancel {
        PassedPair(orders, m, levels, bids, bidId, askId);
        return NoReason;
      }
      if bid.quantity == 0 || ask.quantity == 0 {
        return InvalidQuantity;
      }
      if bid.price == 0 || ask.price == 0 {
        return InvalidPrice;
      }
      if bid.price >= ask.price {
        return CrossedPair;
      }
      reason := PairFunds(bid, ask, m, isCash, buyingPower, levels, bids);
      if reason == NoReason {
        PassedPair(orders, m, levels, bids, bidId, askId);
      }
    }

    /** Each leg is priced the way a lone order would be; on margin the two charges gate once. */
    method PairFunds(bid: Order, ask: Order, m: Mbo, isCash: bool, buyingPower: int, ghost levels: seq<Level>,
                     ghost bids: nat)
      returns (reason: Reason)
      requires Valid() && BookState(m, levels, bids, orders)
      requires HasTarget(bid, orders) && HasTarget(ask, orders) && bid.client < |accounts| && ask.client < |accounts|
      ensures reason == PairFundsReason(bid, ask, isCash, buyingPower, levels, bids)
    {
      SidesJoin(levels, bids);
      StoredIndexed(m, levels);
      SoundIsOk(levels);
      var bidCost, bidOpen, bidLeft := PriceLeg(m, bid, bid.quantity, CloseQ(bid, isCash), levels, bids, orders);
      var askCost, askOpen, askLeft := PriceLeg(m, ask, ask.quantity, CloseQ(ask, isCash), levels, bids, orders);
      if !isCash {
        return if buyingPower < bidOpen + askOpen then NoBuyingPower else NoReason;
      }
      if bidCost > PairLimit(bid, ask, true) {
        return NoBuyingPower;
      }
      reason := if askCost > PairLimit(bid, ask, false) then NoShares else NoReason;
    }

    /** What each pool of a cash account has free for its leg. */
    lemma PairPools(bidId: u32, askId: u32, levels: seq<Level>, bids: nat)
      requires Valid() && PairIncoming(orders, levels, bidId, askId) && !orders[bidId].cancel
      requires bids <= |levels|
      ensures var bid, ask, a := orders[bidId], orders[askId], accounts[orders[bidId].client];
              && PairLimit(bid, ask, true) == Free(a, bid, orders) && PairLimit(bid, ask, false) == Free(a, ask, orders)
              && (PairFundsReason(bid, ask, true, 0, levels, bids) == NoReason
                  <==> Free(a, bid, orders) >= Due(SidesOf(levels, bids), bid, orders)
                       && Free(a, ask, orders) >= Due(SidesOf(levels, bids), ask, orders))
    {
      hide LegCharge, Due;
      var bid, ask := orders[bidId], orders[askId];
      ChargeIsDue(levels, bids, bid, orders, 0);
      ChargeIsDue(levels, bids, ask, orders, 0);
      if bid.Pulls() {
        FitsU32(orders[bid.otherId].quantity, orders[bid.otherId].price);
      }
    }

    /** A pair of quotes from a cash account is told what its funds deserve. */
    lemma PairIsJudged(bidId: u32, askId: u32, buyingPower: int, levels: seq<Level>, bids: nat, held: Holds)
      requires Valid() && bids <= |levels| && InStep(SidesOf(levels, bids), held)
      requires PairIncoming(orders, levels, bidId, askId)
      requires !orders[bidId].cancel
      ensures PairJudged(PairReason(bidId, askId, true, buyingPower, levels, bids), accounts[orders[bidId].client],
                         SidesOf(levels, bids), orders, bidId, askId, held)
    {
      hide SoundSides, Agrees, CancelReason, PairLimit, LegCharge, PairAffords, PoolsFit, PairSameDue, PairFundsReason, Due;
      var bid, ask, s := orders[bidId], orders[askId], SidesOf(levels, bids);
      SidesJoin(levels, bids);
      assert ReserveOk(accounts[bid.client], bid.client, s, orders, held);
      if bid.Pulls() {
        CancelPasses(bid, orders, levels, bids);
        CancelPasses(ask, orders, levels, bids);
      }
      PairPools(bidId, askId, levels, bids);
      CashAlone(bid, ask, buyingPower, levels, bids);
      if PairWellFormed(s, bid, ask, orders) && PoolsFit(s, bid.client, orders, held) && PairSameDue(s, orders, bidId, askId) {
        PairFreeAffords(s, orders, bidId, askId, accounts[bid.client], held);
      }
    }

    /** A cash account's pair does not depend on any buying power. */
    lemma CashAlone(bid: Order, ask: Order, buyingPower: int, levels: seq<Level>, bids: nat)
      requires Valid() && bids <= |levels| && HasTarget(bid, orders) && HasTarget(ask, orders)
      requires bid.client < |accounts| && ask.client < |accounts|
      ensures PairFundsReason(bid, ask, true, buyingPower, levels, bids) == PairFundsReason(bid, ask, true, 0, levels, bids)
    {
    }

    /** Both legs rest, then both targets retire. */
    method ClosePair(bidId: u32, askId: u32, ghost table: Table, ghost bidPull: nat, ghost askPull: nat)
      returns (ghost st: Stages)
      requires Valid() && bidId in table && askId in table && SameTerms(orders, table)
      requires table[bidId].Gtc() && table[askId].Gtc() && table[bidId].Pulls() == table[askId].Pulls()
      requires table[bidId].cancel == table[askId].cancel
      requires HasTarget(table[bidId], table) && HasTarget(table[askId], table)
      requires table[bidId].Pulls() ==> orders[table[bidId].otherId].quantity == bidPull && orders[table[askId].otherId].quantity == askPull
      requires table[bidId].Pulls() ==> table[bidId].otherId != table[askId].otherId
      requires !table[bidId].Pulls() ==> bidPull == 0 && askPull == 0
      modifies this
      ensures Valid() && exchangeCash == old(exchangeCash)
      ensures st.traded == old(accounts) && st.end == accounts
      ensures PairClosed(st, table, bidId, askId, if table[bidId].cancel then 0 else old(orders[bidId].quantity),
                         if table[bidId].cancel then 0 else old(orders[askId].quantity), bidPull, askPull)
      ensures orders == if table[bidId].Pulls() then Emptied(Emptied(old(orders), table[bidId].otherId), table[askId].otherId) else old(orders)
    {
      hide ReservedBy, SameTerms;
      ghost var start, looped := accounts, orders;
      BothHere(looped, table, bidId, askId);
      ReserveRest(bidId);
      ReservedTerms(start, accounts, table, looped, bidId, if table[bidId].cancel then 0 else looped[bidId].quantity);
      ghost var bidRests := accounts;
      ReserveRest(askId);
      ReservedTerms(bidRests, accounts, table, looped, askId, if table[bidId].cancel then 0 else looped[askId].quantity);
      ghost var askRests := accounts;
      if orders[bidId].Pulls() {
        var bidTarget, askTarget := orders[bidId].otherId, orders[askId].otherId;
        Retire(bidTarget);
        ReservedTerms(askRests, accounts, table, looped, bidTarget, -(bidPull as int));
        ghost var bidRetires, wiped := accounts, orders;
        EmptiedHere(looped, table, bidTarget, askTarget);
        Retire(askTarget);
        ReservedTerms(bidRetires, accounts, table, wiped, askTarget, -(askPull as int));
        st := Stages(start, bidRests, askRests, bidRetires, accounts);
      } else {
        ReservedNothing(accounts, table, table[bidId].otherId);
        ReservedNothing(accounts, table, table[askId].otherId);
        st := Stages(start, bidRests, askRests, accounts, accounts);
      }
    }

    method SettlePair(bidId: u32, askId: u32, taker: u32, fills: seq<Fill>, ghost s: Sides, ghost held: Holds)
      returns (bidFilled: nat, askFilled: nat)
      requires Valid() && InStep(s, held) && PairSettleable(s, orders, bidId, askId)
      requires TakerOf(s, orders, bidId, askId, taker)
      requires SameMessage(orders[bidId], orders[askId]) && OwnTarget(orders, bidId)
      requires !(orders[bidId].canRep && orders[bidId].cancel)
      requires fills == PairMessage(s, orders, bidId, askId).fills
      modifies this
      ensures Valid()
      ensures orders == AfterPair(old(orders), bidId, askId, fills, taker)
      ensures InStep(PairMessage(s, old(orders), bidId, askId).sides, held)
      ensures bidFilled == FillTotal(First(s, old(orders), bidId, askId).fills)
      ensures askFilled == FillTotal(Second(s, old(orders), bidId, askId).fills)
      ensures AllPaid(old(accounts), accounts, old(orders[taker].client), taker == bidId, fills, old(orders))
      ensures Money() == old(Money()) && TotalShares(accounts) == old(TotalShares(accounts))
      ensures exchangeCash >= old(exchangeCash)
    {
      hide SoundSides, Agrees, PairMessage, First, Second, ReservesOk, Moved, PairClosed, AfterFills, TakerOf, AllPaid;
      ghost var table, start := orders, accounts;
      var bid, ask := orders[bidId], orders[askId];
      AgreesQuoted(s, table);
      PairLoopReady(s, table, bidId, askId, taker);
      TakerIsLeg(s, table, bidId, askId, taker);
      var overFill := SettleFills(fills, taker, taker == bidId);
      PairAfterLoop(s, table, bidId, askId, taker);
      bidFilled, askFilled := bid.quantity - orders[bidId].quantity, ask.quantity - orders[askId].quantity;
      ghost var st := ClosePair(bidId, askId, table, PulledShares(s, bid), PulledShares(s, ask));
      PairTotals(st, table, bidId, askId, if bid.cancel then 0 else old(orders[bidId].quantity) - bidFilled,
                 if bid.cancel then 0 else old(orders[askId].quantity) - askFilled, PulledShares(s, bid), PulledShares(s, ask));
      PairInStep(s, table, bidId, askId, taker, start, st, held);
      PaidThenClosed(start, st, table, bidId, askId, table[taker].client, taker == bidId, fills,
                     LeftResting(bid, First(s, table, bidId, askId).fills), LeftResting(ask, Second(s, table, bidId, askId).fills),
                     PulledShares(s, bid), PulledShares(s, ask));
    }

    /** One pair from arrival to settlement. */
    method ServerPair(bidId: u32, askId: u32, m: Mbo, isCash: bool, buyingPower: int, ghost levels: seq<Level>,
                      ghost bids: nat, ghost held: Holds)
      returns (reason: Reason, now: Mbo, size: nat, fills: seq<Fill>, bidFilled: nat, askFilled: nat, taker: u32)
      requires Valid() && OldBook(m, levels, bids) && InStep(SidesOf(levels, bids), held)
      requires PairIncoming(orders, levels, bidId, askId)
      modifies this
      ensures Valid()
      ensures reason == old(PairReason(bidId, askId, isCash, buyingPower, levels, bids))
      ensures isCash && !old(orders[bidId].cancel) ==>
                PairJudged(reason, old(accounts[orders[bidId].client]), SidesOf(levels, bids), old(orders), bidId, askId, held)
      ensures reason == NoReason && isCash && !old(orders[bidId].cancel) ==>
                PairFundsKept(accounts, SidesOf(levels, bids), old(orders), bidId, askId, held)
      ensures Money() == old(Money()) && TotalShares(accounts) == old(TotalShares(accounts))
      ensures exchangeCash >= old(exchangeCash)
      ensures reason != NoReason ==> now == m && fills == [] && accounts == old(accounts) && orders == Emptied(old(orders), bidId)
      ensures reason != NoReason ==> InStep(SidesOf(levels, bids), held)
      ensures reason == NoReason ==> InStep(PairMessage(SidesOf(levels, bids), old(orders), bidId, askId).sides, held)
      ensures reason == NoReason ==> Refines(now, size, fills, PairMessage(SidesOf(levels, bids), old(orders), bidId, askId))
      ensures reason == NoReason ==> size <= Size(levels) + 2 * (INDEX_BYTES + LEVEL_BYTES + ENTRY_BYTES)
      ensures reason == NoReason ==> bidFilled + askFilled == FillTotal(fills)
      ensures reason == NoReason ==> bidFilled == 0 || askFilled == 0
      ensures reason == NoReason ==> PairSettleable(SidesOf(levels, bids), old(orders), bidId, askId)
      ensures reason == NoReason ==> TakerOf(SidesOf(levels, bids), old(orders), bidId, askId, taker)
      ensures reason == NoReason ==> orders == AfterPair(old(orders), bidId, askId, fills, taker)
      ensures reason == NoReason ==>
                Tallied(SidesOf(levels, bids), PairMessage(SidesOf(levels, bids), old(orders), bidId, askId).sides, orders,
                        if old(orders[bidId].PureCancel()) then {} else {bidId, askId})
      ensures reason == NoReason ==> AllPaid(old(accounts), accounts, old(orders[bidId].client), taker == bidId, fills, old(orders))
    {
      hide SoundSides, Agrees, ReservesOk, First, Second, AllPaid, AfterPair, TakerOf, Tallied, PairJudged, PairFundsKept;
      BookIsState(m, levels, bids, orders);
      SidesJoin(levels, bids);
      reason := PairPrecheck(bidId, askId, m, isCash, buyingPower, levels, bids);
      if isCash && !orders[bidId].cancel {
        PairIsJudged(bidId, askId, buyingPower, levels, bids, held);
      }
      if reason != NoReason {
        RejectedInStep(SidesOf(levels, bids), orders, accounts, bidId, held);
        orders := Emptied(orders, bidId);
        now, size, fills, bidFilled, askFilled, taker := m, 0, [], 0, 0, bidId;
        return;
      }
      AgreesQuoted(SidesOf(levels, bids), orders);
      PairFillTotals(SidesOf(levels, bids), orders, bidId, askId);
      now, size, fills := PairRewrite.ObPair(orders, bidId, askId, m, levels, bids);
      taker := PickTaker(m, bidId, askId, orders, levels, bids);
      TakerIsLeg(SidesOf(levels, bids), orders, bidId, askId, taker);
      ghost var start, table := accounts, orders;
      PairAccounts(SidesOf(levels, bids), orders, bidId, askId, taker);
      bidFilled, askFilled := SettlePair(bidId, askId, taker, fills, SidesOf(levels, bids), held);
      if isCash && !table[bidId].cancel {
        PairAccountsKept(start, accounts, SidesOf(levels, bids), table, bidId, askId, taker, held);
      }
    }
  }

  // ---------- One message, settled ----------

  function WipedOrders(table: Table, id: u32): Table
    requires id in table
  {
    if table[id].Gtc() then table else Emptied(table, id)
  }

  function ClosedOrders(table: Table, id: u32): Table
    requires id in table
  {
    if table[id].Pulls() then Emptied(WipedOrders(table, id), table[id].otherId) else WipedOrders(table, id)
  }

  /** Every client's cash and shares moved by exactly these fills, as taker and as maker. */
  ghost predicate AllPaid(was: seq<Account>, now: seq<Account>, taker: nat, takerIsBuy: bool, fills: seq<Fill>,
                          table: Table) {
    |was| == |now| && forall c | 0 <= c < |was| :: Paid(was[c], now[c], c, taker, takerIsBuy, fills, table)
  }

  /** Every account moved by exactly these fills. */
  ghost predicate Moved(was: seq<Account>, now: seq<Account>, taker: nat, takerIsBuy: bool, fills: seq<Fill>, table: Table) {
    && |was| == |now|
    && forall c | 0 <= c < |was| :: Paid(was[c], now[c], c, taker, takerIsBuy, fills, table) && Released(was[c], now[c], c, fills, table)
  }

  ghost predicate OneMoved(was: seq<Account>, now: seq<Account>, taker: nat, takerIsBuy: bool, f: Fill, maker: Order) {
    && |was| == |now|
    && forall c | 0 <= c < |was| :: now[c] == FillEffect(was[c], c == taker, c == maker.client, f.qty * maker.price, f.qty, takerIsBuy)
  }

  lemma LoopStarts(a: seq<Account>, taker: nat, takerIsBuy: bool, table: Table)
    ensures Moved(a, a, taker, takerIsBuy, [], table)
  {
    forall c | 0 <= c < |a|
      ensures Paid(a[c], a[c], c, taker, takerIsBuy, [], table) && Released(a[c], a[c], c, [], table)
    {
      NothingReleased(a[c], c, table);
    }
  }

  lemma LoopMoves(was: seq<Account>, before: seq<Account>, now: seq<Account>, taker: nat, takerIsBuy: bool,
                  fills: seq<Fill>, i: nat, table: Table)
    requires i < |fills| && fills[i].id in table && table[fills[i].id].buy != takerIsBuy
    requires Moved(was, before, taker, takerIsBuy, fills[..i], table)
    requires OneMoved(before, now, taker, takerIsBuy, fills[i], table[fills[i].id])
    ensures Moved(was, now, taker, takerIsBuy, fills[..i + 1], table)
  {
    assert fills[..i + 1] == fills[..i] + [fills[i]];
    forall c | 0 <= c < |was|
      ensures Paid(was[c], now[c], c, taker, takerIsBuy, fills[..i + 1], table)
      ensures Released(was[c], now[c], c, fills[..i + 1], table)
    {
      OneFill(before[c], c, taker, takerIsBuy, fills[i], table);
      PaidConcat(was[c], before[c], now[c], c, taker, takerIsBuy, fills[..i], [fills[i]], table);
      ReleasedConcat(was[c], before[c], now[c], c, fills[..i], [fills[i]], table);
    }
  }

  /** A fill never exceeds what the taker has left, and leaves enough for the rest. */
  lemma FillStep(table: Table, f: Fill, takerId: u32, rest: seq<Fill>)
    requires takerId in table && f.id != takerId && f.qty + FillTotal(rest) <= table[takerId].quantity
    ensures takerId in AfterFill(table, f, takerId)
    ensures FillTotal(rest) <= AfterFill(table, f, takerId)[takerId].quantity
  {
    LessAt(table, f.id, f.qty, takerId);
    LessAt(Less(table, f.id, f.qty), takerId, f.qty, takerId);
  }

  lemma FillKeepsTerms(table: Table, f: Fill, takerId: u32, was: Table)
    requires SameTerms(table, was)
    ensures SameTerms(AfterFill(table, f, takerId), was)
  {
    LessKeepsTerms(table, f.id, f.qty);
    LessKeepsTerms(Less(table, f.id, f.qty), takerId, f.qty);
    TermsChain(AfterFill(table, f, takerId), Less(table, f.id, f.qty), table);
    TermsChain(AfterFill(table, f, takerId), table, was);
  }

  // ---------- A pair, settled: the facts ----------

  lemma BothHere(now: Table, table: Table, bidId: u32, askId: u32)
    requires SameTerms(now, table) && bidId in table && askId in table
    requires HasTarget(table[bidId], table) && HasTarget(table[askId], table)
    ensures bidId in now && askId in now
    ensures now[bidId] == table[bidId].(quantity := now[bidId].quantity)
    ensures now[askId] == table[askId].(quantity := now[askId].quantity)
    ensures table[bidId].Pulls() ==> table[bidId].otherId in now
    ensures table[askId].Pulls() ==> table[askId].otherId in now
  {
  }

  lemma EmptiedHere(now: Table, table: Table, gone: u32, x: u32)
    requires SameTerms(now, table) && x in now && x != gone
    ensures SameTerms(Emptied(now, gone), table) && x in Emptied(now, gone) && Emptied(now, gone)[x] == now[x]
  {
    EmptiedTerms(now, gone);
    TermsChain(Emptied(now, gone), now, table);
  }

  lemma TakerIsLeg(s: Sides, table: Table, bidId: u32, askId: u32, taker: u32)
    requires PairSettleable(s, table, bidId, askId) && TakerOf(s, table, bidId, askId, taker)
    ensures taker in table && taker in {bidId, askId}
  {
  }

  lemma PairTotals(st: Stages, table: Table, bidId: u32, askId: u32, bidRest: int, askRest: int, bidPull: int, askPull: int)
    requires bidId in table && askId in table && PairClosed(st, table, bidId, askId, bidRest, askRest, bidPull, askPull)
    ensures |st.end| == |st.traded| && TotalCash(st.end) == TotalCash(st.traded)
    ensures TotalShares(st.end) == TotalShares(st.traded)
  {
  }

  lemma PaidThenClosed(start: seq<Account>, st: Stages, table: Table, bidId: u32, askId: u32, taker: nat,
                       takerIsBuy: bool, fills: seq<Fill>,
                       bidRest: int, askRest: int, bidPull: int, askPull: int)
    requires bidId in table && askId in table
    requires Moved(start, st.traded, taker, takerIsBuy, fills, table)
    requires PairClosed(st, table, bidId, askId, bidRest, askRest, bidPull, askPull)
    ensures AllPaid(start, st.end, taker, takerIsBuy, fills, table)
  {
  }

  lemma PairFillTotals(s: Sides, table: Table, bidId: u32, askId: u32)
    requires SoundSides(s) && QuotedSides(s, table) && PairSettleable(s, table, bidId, askId)
    ensures var f1, f2 := First(s, table, bidId, askId).fills, Second(s, table, bidId, askId).fills;
            FillTotal(PairMessage(s, table, bidId, askId).fills) == FillTotal(f1) + FillTotal(f2) && (f1 == [] || f2 == [])
  {
    hide First, Second;
    OneLegTrades(s, table, bidId, askId);
    PairIs(s, table, bidId, askId);
    FillTotalConcat(First(s, table, bidId, askId).fills, Second(s, table, bidId, askId).fills);
  }

  lemma PairInStep(s: Sides, table: Table, bidId: u32, askId: u32, taker: u32, start: seq<Account>, st: Stages, held: Holds)
    requires SoundSides(s) && Agrees(s, table) && PairSettleable(s, table, bidId, askId)
    requires TakerOf(s, table, bidId, askId, taker)
    requires ReservesOk(start, s, table, held)
    requires Moved(start, st.traded, table[taker].client, taker == bidId, PairMessage(s, table, bidId, askId).fills, table)
    requires PairClosed(st, table, bidId, askId, LeftResting(table[bidId], First(s, table, bidId, askId).fills),
                        LeftResting(table[askId], Second(s, table, bidId, askId).fills),
                        PulledShares(s, table[bidId]), PulledShares(s, table[askId]))
    ensures var m := PairMessage(s, table, bidId, askId); var now := AfterPair(table, bidId, askId, m.fills, taker);
            SoundSides(m.sides) && Agrees(m.sides, now) && ReservesOk(st.end, m.sides, now, held)
  {
    hide First, Second, SoundSides, PairMessage, PairClosed, Agrees, PulledShares, LeftResting;
    var m := PairMessage(s, table, bidId, askId);
    var now := AfterPair(table, bidId, askId, m.fills, taker);
    AgreesQuoted(s, table);
    PairAgrees(s, table, bidId, askId, taker);
    AfterPairTerms(table, bidId, askId, m.fills, taker);
    PairTotals(st, table, bidId, askId, LeftResting(table[bidId], First(s, table, bidId, askId).fills),
               LeftResting(table[askId], Second(s, table, bidId, askId).fills), PulledShares(s, table[bidId]), PulledShares(s, table[askId]));
    forall c | 0 <= c < |st.end|
      ensures ReserveOk(st.end[c], c, m.sides, now, held)
    {
      PairClientInStep(s, table, bidId, askId, c, start[c], st, held);
      ReserveSame(st.end[c], c, m.sides, table, now, held);
    }
  }

  // ---------- What a message may assume and what it leaves ----------

  /** A freshly minted order the server reads off its queue: its id rests nowhere. The last two conditions are the book's own limits: a replacement
  in its target's slot rests its remainder, and no level is too long to copy. */
  ghost predicate Incoming(table: Table, levels: seq<Level>, id: u32) {
    && id in table && HasTarget(table[id], table)
    && id != MAX_U32 && Count(levels, id) == 0
    && (table[id].Pulls() && SameSlot(table[id], table[table[id].otherId]) ==> table[id].Gtc())
    && (forall l | l in levels :: |l.orders| <= COPY_LIMIT)
  }

  ghost predicate Ready(table: Table, m: Mbo, levels: seq<Level>, bids: nat, id: u32)
    requires bids <= |levels|
  {
    Settleable(SidesOf(levels, bids), table, id) && OwnTarget(table, id) && CanrepReady(m, levels, bids, table, id)
  }

  /** What the prechecks let through is what the rewrite and the settlement need. */
  lemma PassedIsReady(table: Table, m: Mbo, levels: seq<Level>, bids: nat, id: u32)
    requires OldBook(m, levels, bids) && Incoming(table, levels, id)
    requires table[id].Pulls() ==> table[table[id].otherId].client == table[id].client
    requires table[id].Pulls() ==> Count(levels, table[id].otherId) == 1 && Resting(levels, bids, table, table[id].otherId)
    requires !table[id].PureCancel() ==> table[id].quantity > 0
    requires table[id].market && !table[id].PureCancel() ==> !table[id].Gtc()
    ensures Ready(table, m, levels, bids, id)
  {
    SidesJoin(levels, bids);
  }

  lemma StateFits(m: Mbo, levels: seq<Level>, bids: nat, table: Table)
    requires BookState(m, levels, bids, table)
    ensures OldBook(m, levels, bids) && bids <= |levels|
  {
  }

  lemma BookIsState(m: Mbo, levels: seq<Level>, bids: nat, table: Table)
    requires OldBook(m, levels, bids) && SoundSides(SidesOf(levels, bids)) && Agrees(SidesOf(levels, bids), table)
    ensures BookState(m, levels, bids, table)
  {
  }

  lemma SidesSoundHere(levels: seq<Level>, bids: nat)
    requires BookOk(levels) && bids <= |levels|
    ensures SoundLevels(levels)
  {
    SoundIsOk(levels);
  }

  /** An order that never reached the book can be wiped. */
  lemma RejectedInStep(s: Sides, table: Table, accounts: seq<Account>, id: u32, held: Holds)
    requires SoundSides(s) && Agrees(s, table) && ReservesOk(accounts, s, table, held) && Count(s.bids + s.asks, id) == 0
    ensures Agrees(s, Emptied(table, id)) && ReservesOk(accounts, s, Emptied(table, id), held)
  {
    EmptiedTerms(table, id);
    QuotedSame(s.bids, true, table, Emptied(table, id));
    QuotedSame(s.asks, false, table, Emptied(table, id));
    forall l, e | l in s.bids + s.asks && e in l.orders
      ensures e.id in Emptied(table, id) && Emptied(table, id)[e.id].quantity == e.qty
    {
      LevelResting(s.bids + s.asks, l, e);
    }
    forall c | 0 <= c < |accounts|
      ensures ReserveOk(accounts[c], c, s, Emptied(table, id), held)
    {
      ReserveSame(accounts[c], c, s, table, Emptied(table, id), held);
    }
  }

  /** An accepted fill-or-kill fills whole exactly when what the book offers it, less its own target,
  is enough; so it does whenever its target is not on offer to it. */
  ghost predicate FokAnswered(o: Order, table: Table, levels: seq<Level>, bids: nat, filled: nat)
    requires bids <= |levels| && HasTarget(o, table)
  {
    o.fok && !o.PureCancel() ==>
      && (filled == o.quantity <==> Crossing(Facing(levels, bids, o.buy), o) >= o.quantity + TargetReach(o, table))
      && (TargetReach(o, table) == 0 ==> filled == o.quantity)
  }

  /** A fill-or-kill that passed its precheck, on the server's terms. */
  lemma FokHere(levels: seq<Level>, bids: nat, table: Table, id: u32)
    requires bids <= |levels| && SoundSides(SidesOf(levels, bids)) && Agrees(SidesOf(levels, bids), table)
    requires Settleable(SidesOf(levels, bids), table, id)
    requires var o := table[id]; o.fok && !o.PureCancel() ==> Sweep(Facing(levels, bids, o.buy), o, o.quantity).left == 0
    ensures FokAnswered(table[id], table, levels, bids, FillTotal(Message(SidesOf(levels, bids), table, id).fills))
  {
    hide Message, TargetReach, Crossing, Sweep;
    if table[id].fok && !table[id].PureCancel() {
      FokWhole(SidesOf(levels, bids), table, id);
      SweepReaches(SidesOf(levels, bids), table[id]);
    }
  }

  /** After an accepted message its client, if it pays its own way, covers what it has tied up in the pool
  the message drew on, and everything else is covered as far as before. */
  ghost predicate FundsKept(was: seq<Account>, now: seq<Account>, s: Sides, table: Table, id: u32, held: Holds, isCash: bool)
    requires id in table && HasTarget(table[id], table)
  {
    var o, m := table[id], Message(s, table, id);
    && o.client < |was| == |now|
    && (isCash && PoolFits(s, o, table, held) && SameDue(s, o, table) ==> Covers(now[o.client], o.client, o.buy, m, table, held))
    && forall c | 0 <= c < |was| :: Covered(was[c], now[c], c, o, s, m, table, held)
  }

  lemma AccountsKept(was: seq<Account>, now: seq<Account>, s: Sides, table: Table, id: u32, held: Holds, reason: Reason,
                     isCash: bool, buyingPower: int)
    requires SoundSides(s) && Agrees(s, table) && Settleable(s, table, id) && reason == NoReason
    requires table[id].client < |was|
    requires AllPaid(was, now, table[id].client, table[id].buy, Message(s, table, id).fills, table)
    requires table[id].PureCancel() || Judged(reason, was[table[id].client], table[id], s, Message(s, table, id), table, held, isCash, buyingPower)
    ensures FundsKept(was, now, s, table, id, held, isCash && !table[id].PureCancel())
  {
    hide Message, Affords, Covers, Covered, PoolFits, SameDue, Paid, SoundSides, Agrees, WellFormed;
    var o, c := table[id], table[id].client;
    if isCash && !o.PureCancel() && PoolFits(s, o, table, held) && SameDue(s, o, table) {
      assert Paid(was[c], now[c], c, c, o.buy, Message(s, table, id).fills, table);
      StillCovers(was[c], now[c], s, table, id, held);
    }
    forall d | 0 <= d < |was|
      ensures Covered(was[d], now[d], d, o, s, Message(s, table, id), table, held)
    {
      CoverKept(was[d], now[d], s, table, id, held, d);
    }
  }

  lemma FitsU32(q: u16, price: u16)
    ensures U32(q * price) == q * price && U32(q) == q && U32(0) == 0
  {
    hide U32;
    BareProduct(q, price);
    U32Same(q * price);
    U32Same(q);
    U32Same(0);
  }

  /** After an accepted pair from a cash account both pools cover what is tied up. */
  ghost predicate PairFundsKept(now: seq<Account>, s: Sides, table: Table, bidId: u32, askId: u32, held: Holds)
    requires bidId in table && HasTarget(table[bidId], table) && askId in table && HasTarget(table[askId], table)
  {
    && table[bidId].client < |now|
    && (PoolsFit(s, table[bidId].client, table, held) && PairSameDue(s, table, bidId, askId) ==>
          PairCovers(now[table[bidId].client], s, table, bidId, askId, held))
  }

  lemma PairAccountsKept(was: seq<Account>, now: seq<Account>, s: Sides, table: Table, bidId: u32, askId: u32,
                         taker: u32, held: Holds)
    requires SoundSides(s) && Agrees(s, table) && PairSettleable(s, table, bidId, askId)
    requires TakerOf(s, table, bidId, askId, taker)
    requires table[bidId].client < |was| && !table[bidId].cancel
    requires AllPaid(was, now, table[bidId].client, taker == bidId, PairMessage(s, table, bidId, askId).fills, table)
    requires PairJudged(NoReason, was[table[bidId].client], s, table, bidId, askId, held)
    ensures PairFundsKept(now, s, table, bidId, askId, held)
  {
    hide PairMessage, PairAffords, PairCovers, PoolsFit, PairSameDue, Paid, SoundSides, PairWellFormed, First, Second;
    var c := table[bidId].client;
    if PoolsFit(s, c, table, held) && PairSameDue(s, table, bidId, askId) {
      assert Paid(was[c], now[c], c, c, taker == bidId, PairMessage(s, table, bidId, askId).fills, table);
      AgreesQuoted(s, table);
      OneLegTrades(s, table, bidId, askId);
      PairStillCovers(was[c], now[c], s, table, bidId, askId, taker, held);
    }
  }

  /** Accounts that only reserved since the fills are paid by the fills. */
  lemma PaidThenRest(start: seq<Account>, traded: seq<Account>, middle: seq<Account>, end: seq<Account>, table: Table,
                     id: u32, x: u32,
                     d: int, e: int, taker: nat, takerIsBuy: bool, fills: seq<Fill>)
    requires Moved(start, traded, taker, takerIsBuy, fills, table)
    requires ReservedBy(traded, middle, table, id, d) && ReservedBy(middle, end, table, x, e)
    ensures AllPaid(start, end, taker, takerIsBuy, fills, table)
  {
  }

  /** The snapshot an accepted message wrote is the next message's old book. */
  lemma NextBook(now: Mbo, size: nat, fills: seq<Fill>, meaning: Outcome)
    requires Refines(now, size, fills, meaning) && SoundSides(meaning.sides)
    requires Fits(meaning.sides.bids + meaning.sides.asks) && |meaning.sides.bids + meaning.sides.asks| < 0xFFFF
    ensures var levels, bids := meaning.sides.bids + meaning.sides.asks, |meaning.sides.bids|;
            OldBook(now, levels, bids) && SidesOf(levels, bids) == meaning.sides
  {
    SoundIsOk(meaning.sides.bids + meaning.sides.asks);
  }

  // ---------- One message, settled: the facts ----------

  lemma ClosedIsAfter(table: Table, id: u32, fills: seq<Fill>)
    requires id in table
    ensures id in AfterFills(table, fills, id)
    ensures ClosedOrders(AfterFills(table, fills, id), id) == AfterMessage(table, id, fills)
  {
    FillsKeepTerms(table, fills, id);
  }

  /** The fills of a message are ready to be settled. */
  lemma MessageReady(s: Sides, table: Table, id: u32)
    requires SoundSides(s) && Agrees(s, table) && Settleable(s, table, id)
    ensures var fills := Message(s, table, id).fills;
            && FillTotal(fills) <= table[id].quantity
            && forall f | f in fills :: f.id in table && f.id != id && table[f.id].buy != table[id].buy
  {
    MessageConserves(s, table, id, Only(id));
    forall f | f in Message(s, table, id).fills
      ensures f.id in table && f.id != id && table[f.id].buy != table[id].buy
    {
      MessageFillOk(s, table, id, f);
    }
  }

  ghost predicate TargetKept(s: Sides, table: Table, now: Table, id: u32)
    requires id in table && table[id].otherId in table
  {
    var x := table[id].otherId;
    x in now && x != id && now[x].quantity == table[x].quantity == PulledShares(s, table[id])
  }

  lemma RestTerms(a: seq<Account>, b: seq<Account>, table: Table, looped: Table, id: u32, d: int)
    requires id in table && SameTerms(looped, table) && ReservedBy(a, b, looped, id, d)
    ensures ReservedBy(a, b, table, id, d)
    ensures SameTerms(WipedOrders(looped, id), table)
  {
    ReservedTerms(a, b, table, looped, id, d);
    EmptiedTerms(looped, id);
    TermsChain(WipedOrders(looped, id), looped, table);
  }

  /** Fills, rest and retirement together leave every reserve where the new book has it. */
  lemma MessageInStep(s: Sides, table: Table, id: u32, start: seq<Account>, traded: seq<Account>, middle: seq<Account>,
                      end: seq<Account>, held: Holds)
    requires SoundSides(s) && Agrees(s, table) && Settleable(s, table, id) && ReservesOk(start, s, table, held)
    requires Moved(start, traded, table[id].client, table[id].buy, Message(s, table, id).fills, table)
    requires var f := Message(s, table, id).fills; ReservedBy(traded, middle, table, id, LeftResting(table[id], f) - Bare(table[id], f))
    requires ReservedBy(middle, end, table, table[id].otherId, -(PulledShares(s, table[id]) as int))
    ensures var m := Message(s, table, id); var now := AfterMessage(table, id, m.fills);
            SoundSides(m.sides) && Agrees(m.sides, now) && ReservesOk(end, m.sides, now, Behind(held, table, id, m.fills))
  {
    var m := Message(s, table, id);
    var now, next := AfterMessage(table, id, m.fills), Behind(held, table, id, m.fills);
    MessageAgrees(s, table, id);
    AfterMessageTerms(table, id, m.fills);
    forall c | 0 <= c < |end|
      ensures ReserveOk(end[c], c, m.sides, now, next)
    {
      ClientInStep(s, table, id, c, start[c], traded[c], middle[c], end[c], held);
      ReserveSame(end[c], c, m.sides, table, now, next);
    }
  }

  /** When the fill loop is done, what rests and what is pulled are what closing expects. */
  lemma CanClose(s: Sides, table: Table, now: Table, id: u32, fills: seq<Fill>)
    requires id in table && HasTarget(table[id], table) && id in now && SameTerms(now, table) && Settleable(s, table, id)
    requires now[id].quantity == table[id].quantity - FillTotal(fills)
    requires table[id].Pulls() ==> TargetKept(s, table, now, id)
    ensures var o, rested := table[id], LeftResting(table[id], fills) - Bare(table[id], fills);
            && rested == (if o.cancel || !o.Gtc() then 0 else now[id].quantity)
            && (o.Pulls() ==> o.otherId != id && o.otherId in now && now[o.otherId].quantity == PulledShares(s, o))
            && (!o.Pulls() ==> PulledShares(s, o) == 0)
  {
  }

  /** All a settled message promises of accounts and reserves. */
  lemma MessageSettled(s: Sides, table: Table, id: u32, start: seq<Account>, traded: seq<Account>, middle: seq<Account>,
                       end: seq<Account>, held: Holds)
    requires SoundSides(s) && Agrees(s, table) && Settleable(s, table, id) && ReservesOk(start, s, table, held)
    requires Moved(start, traded, table[id].client, table[id].buy, Message(s, table, id).fills, table)
    requires var f := Message(s, table, id).fills; ReservedBy(traded, middle, table, id, LeftResting(table[id], f) - Bare(table[id], f))
    requires ReservedBy(middle, end, table, table[id].otherId, -(PulledShares(s, table[id]) as int))
    ensures var m := Message(s, table, id); var now := AfterMessage(table, id, m.fills);
            && SoundSides(m.sides) && Agrees(m.sides, now) && ReservesOk(end, m.sides, now, Behind(held, table, id, m.fills))
            && AllPaid(start, end, table[id].client, table[id].buy, m.fills, table)
    ensures |end| == |start| && TotalCash(end) == TotalCash(traded) && TotalShares(end) == TotalShares(traded)
  {
    hide SoundSides, Agrees, Message, ReservesOk, AfterMessage, Behind, Bare, LeftResting, PulledShares, Moved,
         ReservedBy, AllPaid,
         TotalCash, TotalShares;
    var fills := Message(s, table, id).fills;
    var rested, pulled := LeftResting(table[id], fills) - Bare(table[id], fills), -(PulledShares(s, table[id]) as int);
    ReservedTotals(traded, middle, table, id, rested);
    ReservedTotals(middle, end, table, table[id].otherId, pulled);
    MessageInStep(s, table, id, start, traded, middle, end, held);
    PaidThenRest(start, traded, middle, end, table, id, table[id].otherId, rested, pulled, table[id].client,
                 table[id].buy, fills);
    PaidLength(start, end, table[id].client, table[id].buy, fills, table);
  }

  lemma PaidLength(was: seq<Account>, now: seq<Account>, taker: nat, takerIsBuy: bool, fills: seq<Fill>, table: Table)
    requires AllPaid(was, now, taker, takerIsBuy, fills, table)
    ensures |now| == |was|
  {
  }

  /** How a message moves the book's total, as three moves. */
  lemma MessageDelta(s: Sides, table: Table, id: u32, w: Weight)
    requires SoundSides(s) && Settleable(s, table, id)
    ensures var m, o := Message(s, table, id), table[id];
            WeighSides(m.sides, w) == WeighSides(s, w) + -(WeighFills(m.fills, w) as int) + LeftResting(o, m.fills) * w(id)
                                      + -(PulledShares(s, o) as int) * w(o.otherId)
  {
    MessageConserves(s, table, id, w);
    Negated(PulledShares(s, table[id]), w(table[id].otherId));
  }

  lemma ClientInStep(s: Sides, table: Table, id: u32, c: nat, start: Account, traded: Account, middle: Account,
                     end: Account, held: Holds)
    requires SoundSides(s) && Settleable(s, table, id) && ReserveOk(start, c, s, table, held)
    requires Released(start, traded, c, Message(s, table, id).fills, table)
    requires var f := Message(s, table, id).fills; var d := LeftResting(table[id], f) - Bare(table[id], f);
             Shift(traded, middle, d * BidValue(c, table)(id), d * AskShares(c, table)(id))
    requires var d, x := -(PulledShares(s, table[id]) as int), table[id].otherId;
             Shift(middle, end, d * BidValue(c, table)(x), d * AskShares(c, table)(x))
    ensures var m := Message(s, table, id); ReserveOk(end, c, m.sides, table, Behind(held, table, id, m.fills))
  {
    hide SoundSides, Message, WeighSides, WeighFills, LeftResting, PulledShares, BidValue, AskShares, Bare, Behind;
    var m, o := Message(s, table, id), table[id];
    var cash, shares := BidValue(c, table), AskShares(c, table);
    var rests, bare := LeftResting(o, m.fills), Bare(o, m.fills);
    MessageDelta(s, table, id, cash);
    MessageDelta(s, table, id, shares);
    BehindIs(held, table, id, m.fills, c);
    Less2(rests, bare, cash(id));
    Less2(rests, bare, shares(id));
    ThreeShifts(start, traded, middle, end, c, s, m.sides, table,
                -(WeighFills(m.fills, cash) as int), (rests - bare) * cash(id), -(PulledShares(s, o) as int) * cash(o.otherId),
                -(WeighFills(m.fills, shares) as int), (rests - bare) * shares(id), -(PulledShares(s, o) as int) * shares(o.otherId),
                held, Behind(held, table, id, m.fills));
  }

  /** What was in step but for what rests bare is in step if and only if nothing does. */
  lemma BareInStep(m: Outcome, table: Table, id: u32, fills: seq<Fill>, now: Table, a: seq<Account>, held: Holds)
    requires Desk.InStep(m.sides, now, a, Behind(held, table, id, fills)) && id in table
    requires now == AfterMessage(table, id, fills)
    requires table[id].client < |a| && (!table[id].PureCancel() && table[id].Gtc() ==> table[id].price > 0)
    ensures Desk.InStep(m.sides, now, a, held) <==> Bare(table[id], fills) == 0
  {
    hide AfterMessage, SoundSides, Agrees, ReservesOk, Behind;
    AfterMessageTerms(table, id, fills);
    if Bare(table[id], fills) > 0 {
      BareExactly(a, m.sides, table, now, held, id, fills);
    } else {
      NothingBare(table, id, fills, held);
    }
  }

  /** Ten shares at 49 that replace and cancel ten at 50: accepted, and what rests is bare. */
  lemma BareRests()
    ensures var levels := [At(50, [Entry(1, 10)])];
            var table: Table := map[1 := Order(0, 50, 10, true, false, false, false, false, false, 0),
                                    2 := Order(0, 49, 10, true, false, false, false, true, true, 1)];
            && SoundSides(SidesOf(levels, 1)) && Agrees(SidesOf(levels, 1), table)
            && CancelReason(table[2], table, levels) == NoReason && AddReason(table[2], table, levels, 1, 0, 490, true) == NoReason
            && Bare(table[2], Message(SidesOf(levels, 1), table, 2).fills) == 10
  {
    var orders := [Entry(1, 10)];
    var levels := [At(50, orders)];
    var table: Table := map[1 := Order(0, 50, 10, true, false, false, false, false, false, 0),
                            2 := Order(0, 49, 10, true, false, false, false, true, true, 1)];
    var s := SidesOf(levels, 1);
    assert orders[1..] == [] && levels[1..] == [] && levels[..1] == levels && s.bids + s.asks == levels;
    forall id: u32
      ensures Count(levels, id) == if id == 1 then 1 else 0
    {
      assert Occurs(orders, id) == (if id == 1 then 1 else 0) + Occurs(orders[1..], id);
      assert Count(levels, id) == Occurs(orders, id) + Count(levels[1..], id);
    }
    assert SoundLevel(levels[0]);
    SumRepeat(49, 10);
    var none := Sweep(Facing(levels, 1, true), table[2], 10);
    assert Facing(levels, 1, true) == [] && none.fills == [] && none.left == 10;
    assert LegPath(table[2], table, levels, 1) == [] + Repeat(49, 10) == Repeat(49, 10);
    assert Pull(s, {1}).asks == [];
    assert Message(s, table, 2).fills == [];
  }

  lemma NothingBare(table: Table, id: u32, fills: seq<Fill>, held: Holds)
    requires id in table && Bare(table[id], fills) == 0
    ensures Behind(held, table, id, fills) == held
  {
  }

  lemma BehindIs(held: Holds, table: Table, id: u32, fills: seq<Fill>, c: nat)
    requires id in table
    ensures var next, bare := Behind(held, table, id, fills)(c), Bare(table[id], fills);
            next.cash == held(c).cash - bare * BidValue(c, table)(id) && next.shares == held(c).shares - bare * AskShares(c, table)(id)
  {
  }

  lemma Less2(a: int, b: int, n: int)
    ensures (a - b) * n == a * n - b * n
  {
  }

  /** Three moves of a reserve that add up to the move of the book and of what is held besides. */
  lemma ThreeShifts(start: Account, traded: Account, middle: Account, end: Account, c: nat, before: Sides, after: Sides,
                    table: Table,
                    cash1: int, cash2: int, cash3: int, shares1: int, shares2: int, shares3: int, held: Holds, next: Holds)
    requires ReserveOk(start, c, before, table, held)
    requires Shift(start, traded, cash1, shares1) && Shift(traded, middle, cash2, shares2)
    requires Shift(middle, end, cash3, shares3)
    requires WeighSides(after, BidValue(c, table)) + next(c).cash
             == WeighSides(before, BidValue(c, table)) + held(c).cash + cash1 + cash2 + cash3
    requires WeighSides(after, AskShares(c, table)) + next(c).shares
             == WeighSides(before, AskShares(c, table)) + held(c).shares + shares1 + shares2 + shares3
    ensures ReserveOk(end, c, after, table, next)
  {
    ShiftTwice(start, traded, middle, cash1, shares1, cash2, shares2);
    ShiftTwice(start, middle, end, cash1 + cash2, shares1 + shares2, cash3, shares3);
    ReserveMoves(start, end, c, before, after, table, cash1 + cash2 + cash3, shares1 + shares2 + shares3, held, next);
  }

  /** The order's and its target's quantities when the fill loop is done. */
  lemma AfterLoop(s: Sides, table: Table, id: u32)
    requires SoundSides(s) && Agrees(s, table) && Settleable(s, table, id)
    ensures var fills := Message(s, table, id).fills; var now := AfterFills(table, fills, id);
            && SameTerms(now, table)
            && id in now && now[id].quantity == table[id].quantity - FillTotal(fills)
            && (table[id].Pulls() ==> TargetKept(s, table, now, id))
  {
    var fills, o := Message(s, table, id).fills, table[id];
    MessageReady(s, table, id);
    FillsKeepTerms(table, fills, id);
    TakerAfter(table, fills, id);
    if o.Pulls() {
      forall f | f in fills
        ensures f.id != o.otherId
      {
        MessageFillOk(s, table, id, f);
      }
      NoFillsOf(fills, o.otherId);
      MakerAfter(table, fills, id, o.otherId);
      HeldQuantity(s, table, o.otherId);
    }
  }
}
