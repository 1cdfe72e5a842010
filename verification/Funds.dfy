/** What the checks of an order's funds are for (leg_walk, add_precheck and client_close_q of
src/server.c): an account that pays its own way covers everything its orders tie up, before the
message and after it. Said of books, fills and accounts, not of the checks themselves. */
module Funds {
  import opened Machine
  import opened Book
  import opened BookFacts
  import opened BookRuns
  import opened Legs
  import opened Ranges
  import opened FirstLeg
  import opened Weights
  import opened Settle
  import opened SettlePair
  import opened LegWalk
  import opened Ledger
  import opened Desk
  import opened Prechecks
  import opened FillOrKill

  // ---------- What is tied up, and what has to be paid ----------

  /** What a client's bids in this book and its parked orders tie up, */
  ghost function TiedCash(s: Sides, c: nat, table: Table, held: Holds): int {
    WeighSides(s, BidValue(c, table)) + held(c).cash
  }

  /** and its asks. */
  ghost function TiedShares(s: Sides, c: nat, table: Table, held: Holds): int {
    WeighSides(s, AskShares(c, table)) + held(c).shares
  }

  /** Out of its own pool the client can pay for every share traded and still cover what is tied up in
  the book that the message leaves. */
  ghost predicate Affords(a: Account, o: Order, m: Outcome, table: Table, held: Holds) {
    if o.buy then a.cash - WeighFills(m.fills, PriceOf(table)) >= TiedCash(m.sides, o.client, table, held)
    else a.shares - FillTotal(m.fills) >= TiedShares(m.sides, o.client, table, held)
  }

  /** The total that the pool's reserve stands for fits its 32-bit field. */
  ghost predicate PoolFits(s: Sides, o: Order, table: Table, held: Holds) {
    if o.buy then 0 <= TiedCash(s, o.client, table, held) < 0x1_0000_0000
    else 0 <= TiedShares(s, o.client, table, held) < 0x1_0000_0000
  }

  /** The price of every share an order would trade on this book, and then rest, in turn. */
  ghost function PathOn(s: Sides, o: Order, table: Table): seq<u16> {
    var w := Sweep(Opposite(s, o.buy), o, o.quantity);
    SharePath(w.fills, table) + Repeat(o.price, if o.Gtc() then w.left else 0)
  }

  /** The same of a message that is done. */
  ghost function PathOf(o: Order, m: Outcome, table: Table): seq<u16> {
    SharePath(m.fills, table) + Repeat(o.price, if LeftResting(o, m.fills) > 0 then LeftResting(o, m.fills) else 0)
  }

  /** What an order has to find on this book: cash for every share it buys, shares for what it sells. */
  ghost function Due(s: Sides, o: Order, table: Table): nat {
    if o.buy then Sum(PathOn(s, o, table)) else |PathOn(s, o, table)|
  }

  /** The book without its target costs the order what the book with it would have. */
  ghost predicate SameDue(s: Sides, o: Order, table: Table) {
    Due(Pull(s, o.Pulled()), o, table) == Due(s, o, table)
  }

  /** It offers the order the very same shares. */
  ghost predicate SamePath(s: Sides, o: Order, table: Table) {
    PathOn(Pull(s, o.Pulled()), o, table) == PathOn(s, o, table)
  }

  /** What a message costs a margin account in new exposure: a short that it buys back, or longs that it
  sells and that are not being sold already, are free, and every other share counts at its price. */
  ghost function Exposure(a: Account, o: Order, m: Outcome, table: Table): nat {
    var path := PathOf(o, m, table);
    var closes := if o.buy then -a.shares else a.shares - a.reservedShares;
    if closes >= |path| then 0 else Sum(path[if closes < 0 then 0 else closes..])
  }

  /** Nothing about the order itself is in the way: it is sized and priced, may trade as it asks to, and
  pulls an order of its own client that rests; and a fill-or-kill finds enough in reach. */
  ghost predicate WellFormed(s: Sides, o: Order, table: Table) {
    && o.quantity > 0 && (if o.market then !o.Gtc() else o.price > 0)
    && (o.fok ==> Crossing(Opposite(s, o.buy), o) >= o.quantity)
    && (o.Pulls() ==> o.otherId in table && table[o.otherId].client == o.client && Count(s.bids + s.asks, o.otherId) == 1)
  }

  /** What a message that is more than a cancel is told. Malformed, it is turned away. Well formed, it
  is turned away for its funds or not at all: a cash account passes exactly when it can afford what the
  message does, and a margin account exactly when its buying power covers the new exposure. */
  ghost predicate Judged(reason: Reason, a: Account, o: Order, s: Sides, m: Outcome, table: Table, held: Holds,
                         isCash: bool, buyingPower: int)
  {
    && (!WellFormed(s, o, table) ==> reason != NoReason)
    && (WellFormed(s, o, table) ==> reason == NoReason || reason == if o.buy then NoBuyingPower else NoShares)
    && (WellFormed(s, o, table) && isCash && PoolFits(s, o, table, held) && SameDue(s, o, table) ==>
          (reason == NoReason <==> Affords(a, o, m, table, held)))
    && (WellFormed(s, o, table) && !isCash && SamePath(s, o, table) ==>
          (reason == NoReason <==> buyingPower >= Exposure(a, o, m, table)))
  }

  // ---------- Pulling a target that is out of reach ----------

  /** An order this taker would not trade with may go or stay. */
  lemma {:induction false} SweepPruned(levels: seq<Level>, t: Order, q: nat, x: u32)
    requires SoundLevels(levels) && ReachFirst(levels, t)
    requires forall l | l in levels && Crosses(t, l.price) :: Occurs(l.orders, x) == 0
    ensures Sweep(Prune(levels, {x}), t, q).fills == Sweep(levels, t, q).fills
    ensures Sweep(Prune(levels, {x}), t, q).left == Sweep(levels, t, q).left
  {
    if levels != [] {
      var l, rest := levels[0], Prune(levels[1..], {x});
      assert l in levels && SoundLevel(l) && forall m | m in levels[1..] :: m in levels;
      if Crosses(t, l.price) {
        KeepAbsent(l.orders, x);
        assert Prune(levels, {x}) == [l] + rest && ([l] + rest)[1..] == rest;
        SweepOne(levels, t, q);
        SweepOne(Prune(levels, {x}), t, q);
        SweepPruned(levels[1..], t, Eat(l.orders, q).left, x);
      } else {
        forall m | m in levels
          ensures !Crosses(t, m.price)
        {
          var i :| 0 <= i < |levels| && levels[i] == m;
        }
        PruneSides(levels, {x}, 0, t);
        SweepNothing(levels, t, q);
        SweepNothing(Prune(levels, {x}), t, q);
      }
    }
  }

  lemma OppositePull(s: Sides, gone: set<u32>, buy: bool)
    ensures Opposite(Pull(s, gone), buy) == Prune(Opposite(s, buy), gone)
  {
    PruneReverse(s.bids, gone);
  }

  /** With no share of its own target in reach, an order finds the same to trade without it. */
  lemma OutOfReach(s: Sides, o: Order, table: Table)
    requires SoundSides(s) && Agrees(s, table) && HasTarget(o, table) && TargetReach(o, table) == 0
    requires o.Pulls() ==> table[o.otherId].quantity > 0
    ensures SamePath(s, o, table) && SameDue(s, o, table)
  {
    var best := Opposite(s, o.buy);
    BestInReach(s, o);
    OppositePull(s, o.Pulled(), o.buy);
    if o.Pulls() {
      ReverseQuoted(s.bids, true, table);
      forall l | l in best && Crosses(o, l.price)
        ensures Occurs(l.orders, o.otherId) == 0
      {
        OccursMember(l.orders, o.otherId);
      }
      SweepPruned(best, o, o.quantity, o.otherId);
    } else {
      PruneSoundNone(best);
    }
  }

  /** An order to sell that may rest needs its shares wherever they go. */
  lemma SellsAll(s: Sides, o: Order, table: Table)
    requires !o.buy && o.Gtc()
    ensures Due(s, o, table) == o.quantity && SameDue(s, o, table)
  {
    AllShares(s, o, table);
    AllShares(Pull(s, o.Pulled()), o, table);
  }

  lemma AllShares(s: Sides, o: Order, table: Table)
    requires o.Gtc()
    ensures |PathOn(s, o, table)| == o.quantity
  {
    SweepFills(Opposite(s, o.buy), o, o.quantity);
    TakerCost(Sweep(Opposite(s, o.buy), o, o.quantity).fills, table);
  }

  // ---------- What the walk charges, and what the message costs ----------

  /** The walk prices the shares that the old book offers. */
  lemma WalksPath(levels: seq<Level>, bids: nat, o: Order, table: Table)
    requires bids <= |levels|
    ensures LegPath(o, table, levels, bids) == PathOn(SidesOf(levels, bids), o, table)
  {
  }

  /** So a cash account is charged what is due there. */
  lemma ChargeIsDue(levels: seq<Level>, bids: nat, o: Order, table: Table, closeQ: nat)
    requires bids <= |levels|
    ensures LegCharge(o, table, levels, bids, closeQ, true) == Due(SidesOf(levels, bids), o, table)
  {
    WalksPath(levels, bids, o, table);
  }

  /** What the book without the target offers is what the message trades and leaves resting. */
  lemma MessagePath(s: Sides, table: Table, id: u32)
    requires SoundSides(s) && Agrees(s, table) && Settleable(s, table, id) && !table[id].PureCancel()
    ensures var o := table[id]; PathOn(Pull(s, o.Pulled()), o, table) == PathOf(o, Message(s, table, id), table)
  {
    hide SharePath, Repeat, Sweep, FillTotal, SoundSides;
    var o := table[id];
    var p := Pull(s, o.Pulled());
    SweepFills(Opposite(p, o.buy), o, o.quantity);
    if ShrinksInPlace(o, table) {
      ShrinkQuiet(s, table, o, o.Pulled());
      SweepNothing(Opposite(p, o.buy), o, o.quantity);
      assert FillTotal([]) == 0 by {
        NothingFilled();
      }
    }
  }

  lemma NothingFilled()
    ensures FillTotal([]) == 0
  {
  }

  /** Where its target stands, an order finds nobody across to trade with, whoever else is pulled. */
  lemma ShrinkQuiet(s: Sides, table: Table, o: Order, gone: set<u32>)
    requires SoundSides(s) && QuotedSides(s, table) && HasTarget(o, table) && ShrinksInPlace(o, table) && !o.market
    requires Count(s.bids + s.asks, o.otherId) == 1
    ensures NoneCross(Opposite(Pull(s, gone), o.buy), o)
  {
    var p := Pull(s, gone);
    var l := FoundAt(s, table, o.otherId);
    SplitSound(s.bids, s.asks);
    PrunePrices(s.bids, gone);
    PrunePrices(s.asks, gone);
    forall m | m in Opposite(p, o.buy)
      ensures !Crosses(o, m.price)
    {
      ReverseMember(p.bids, m);
    }
  }

  /** What is due on the book without the target is what the message pays and leaves resting. */
  lemma DueIsPaid(s: Sides, table: Table, id: u32)
    requires SoundSides(s) && Agrees(s, table) && Settleable(s, table, id) && !table[id].PureCancel()
    ensures var o, m := table[id], Message(s, table, id);
            && LeftResting(o, m.fills) >= 0
            && Due(Pull(s, o.Pulled()), o, table)
               == if o.buy then WeighFills(m.fills, PriceOf(table)) + LeftResting(o, m.fills) * o.price
                  else FillTotal(m.fills) + LeftResting(o, m.fills)
  {
    hide Message, PathOn, Sum, SharePath, Repeat, LeftResting;
    var o, m := table[id], Message(s, table, id);
    MessageConserves(s, table, id, Only(id));
    MessagePath(s, table, id);
    PathCost(o, m, table);
  }

  lemma PathCost(o: Order, m: Outcome, table: Table)
    requires LeftResting(o, m.fills) >= 0
    ensures Sum(PathOf(o, m, table)) == WeighFills(m.fills, PriceOf(table)) + LeftResting(o, m.fills) * o.price
    ensures |PathOf(o, m, table)| == FillTotal(m.fills) + LeftResting(o, m.fills)
  {
    hide Sum, SharePath, Repeat, LeftResting;
    TakerCost(m.fills, table);
    SumConcat(SharePath(m.fills, table), Repeat(o.price, LeftResting(o, m.fills)));
    SumRepeat(o.price, LeftResting(o, m.fills));
  }

  lemma {:induction false} NoWeight(fills: seq<Fill>, w: Weight)
    requires forall f | f in fills :: w(f.id) == 0
    ensures WeighFills(fills, w) == 0
  {
    if fills != [] {
      assert fills[0] in fills && forall f | f in fills[1..] :: f in fills;
      NoWeight(fills[1..], w);
    }
  }

  /** How the message moves what its own client has tied up in the pool it draws on. */
  lemma TiedMoves(s: Sides, table: Table, id: u32, held: Holds)
    requires SoundSides(s) && Agrees(s, table) && Settleable(s, table, id) && OwnTarget(table, id)
    ensures var o, m := table[id], Message(s, table, id); var x := o.otherId;
            if o.buy then
              TiedCash(m.sides, o.client, table, held)
              == TiedCash(s, o.client, table, held) + LeftResting(o, m.fills) * o.price
                 - (if o.Pulls() && table[x].buy then table[x].quantity * table[x].price else 0)
            else
              TiedShares(m.sides, o.client, table, held)
              == TiedShares(s, o.client, table, held) + LeftResting(o, m.fills)
                 - (if o.Pulls() && !table[x].buy then table[x].quantity else 0)
  {
    hide Message, WeighSides, WeighFills, LeftResting, SoundSides;
    var o, m := table[id], Message(s, table, id);
    var w := if o.buy then BidValue(o.client, table) else AskShares(o.client, table);
    MessageConserves(s, table, id, w);
    forall f | f in m.fills
      ensures w(f.id) == 0
    {
      MessageFillOk(s, table, id, f);
    }
    NoWeight(m.fills, w);
    if o.Pulls() {
      HeldQuantity(s, table, o.otherId);
    }
  }

  // ---------- The law of a cash account ----------

  /** What a cash account has free for the order, its target's part counted as free. */
  ghost function Free(a: Account, o: Order, table: Table): int
    requires HasTarget(o, table)
  {
    var x := o.otherId;
    if o.buy then a.cash - a.reservedCash + if o.Pulls() && table[x].buy then table[x].quantity * table[x].price else 0
    else a.shares - a.reservedShares + if o.Pulls() && !table[x].buy then table[x].quantity else 0
  }

  /** What it has free covers what is due on the book the order meets exactly when it can afford the message. */
  lemma FreeAffords(s: Sides, table: Table, id: u32, a: Account, held: Holds)
    requires SoundSides(s) && Agrees(s, table) && Settleable(s, table, id) && OwnTarget(table, id) && !table[id].PureCancel()
    requires ReserveOk(a, table[id].client, s, table, held) && PoolFits(s, table[id], table, held)
    ensures var o := table[id];
            Free(a, o, table) >= Due(Pull(s, o.Pulled()), o, table) <==> Affords(a, o, Message(s, table, id), table, held)
  {
    hide Message, Due, WeighSides, WeighFills, LeftResting;
    TiedMoves(s, table, id, held);
    DueIsPaid(s, table, id);
    ReserveExact(a, table[id].client, s, table, held);
  }

  // ---------- Where the check and the law part ----------

  /** The check holds what a client has free against the book with the target still in it. It lets through
  what the client can afford, whatever the client has, if and only if both books cost the order the same. */
  lemma FundedExactly(s: Sides, table: Table, id: u32, held: Holds)
    requires SoundSides(s) && Agrees(s, table) && Settleable(s, table, id) && OwnTarget(table, id) && !table[id].PureCancel()
    requires PoolFits(s, table[id], table, held)
    ensures var o := table[id];
            (forall a: Account | ReserveOk(a, o.client, s, table, held) ::
               Free(a, o, table) >= Due(s, o, table) <==> Affords(a, o, Message(s, table, id), table, held))
            <==> SameDue(s, o, table)
  {
    hide Message, Due, WeighSides, Affords, PoolFits, SoundSides, Agrees, Low32;
    var o := table[id];
    forall a: Account | ReserveOk(a, o.client, s, table, held)
      ensures Free(a, o, table) >= Due(Pull(s, o.Pulled()), o, table) <==> Affords(a, o, Message(s, table, id), table, held)
    {
      FreeAffords(s, table, id, a, held);
    }
    if !SameDue(s, o, table) {
      var less := if Due(s, o, table) < Due(Pull(s, o.Pulled()), o, table) then Due(s, o, table) else Due(Pull(s, o.Pulled()), o, table);
      var a := HasFree(s, table, o, held, less);
    }
  }

  /** Some account has exactly this much free. */
  lemma HasFree(s: Sides, table: Table, o: Order, held: Holds, free: nat) returns (a: Account)
    requires HasTarget(o, table)
    ensures ReserveOk(a, o.client, s, table, held) && Free(a, o, table) == free
  {
    hide Low32;
    var c := o.client;
    var cash, shares := Low32(WeighSides(s, BidValue(c, table)) + held(c).cash), Low32(WeighSides(s, AskShares(c, table)) + held(c).shares);
    var none := Account(0, cash, 0, shares);
    a := Account(free - Free(none, o, table), cash, free - Free(none, o, table), shares);
  }

  // ---------- What an order is told ----------

  lemma CancelPasses(o: Order, table: Table, levels: seq<Level>, bids: nat)
    requires bids <= |levels| && SoundSides(SidesOf(levels, bids)) && Agrees(SidesOf(levels, bids), table)
    requires o.otherId in table
    ensures CancelReason(o, table, levels) == NoReason <==> table[o.otherId].client == o.client && Count(levels, o.otherId) == 1
  {
    if table[o.otherId].quantity == 0 {
      EmptyNotResting(levels, bids, table, o.otherId);
    }
  }

  lemma FokFinds(levels: seq<Level>, bids: nat, o: Order)
    requires bids <= |levels| && SoundSides(SidesOf(levels, bids))
    ensures var s := SidesOf(levels, bids);
            Sweep(Facing(levels, bids, o.buy), o, o.quantity).left == 0 <==> Crossing(Opposite(s, o.buy), o) >= o.quantity
  {
    var best := Opposite(SidesOf(levels, bids), o.buy);
    BestInReach(SidesOf(levels, bids), o);
    SweepTakes(best, o, o.quantity);
    SweepFills(best, o, o.quantity);
  }

  /** The charge of a margin account is the new exposure on the old book. */
  lemma ChargeIsExposure(a: Account, o: Order, s: Sides, m: Outcome, table: Table, levels: seq<Level>, bids: nat,
                         closeQ: nat)
    requires bids <= |levels| && s == SidesOf(levels, bids) && PathOn(s, o, table) == PathOf(o, m, table)
    requires var closes := if o.buy then -a.shares else a.shares - a.reservedShares; closeQ == if closes < 0 then 0 else closes
    ensures LegCharge(o, table, levels, bids, closeQ, false) == Exposure(a, o, m, table)
  {
    WalksPath(levels, bids, o, table);
  }

  /** The reason the checks give, seen from what they are for. */
  lemma JudgedHere(levels: seq<Level>, bids: nat, table: Table, id: u32, a: Account, held: Holds, closeQ: nat, limit: int,
                   isCash: bool, buyingPower: int, reason: Reason)
    requires bids <= |levels| && InStep(SidesOf(levels, bids), table, [], held)
    requires id in table && HasTarget(table[id], table) && id != MAX_U32 && Count(levels, id) == 0 && !table[id].PureCancel()
    requires table[id].Pulls() && SameSlot(table[id], table[table[id].otherId]) ==> table[id].Gtc()
    requires ReserveOk(a, table[id].client, SidesOf(levels, bids), table, held)
    requires limit == if isCash then Free(a, table[id], table) else buyingPower
    requires var closes := if table[id].buy then -a.shares else a.shares - a.reservedShares;
             closeQ == if isCash || closes < 0 then 0 else closes
    requires var o := table[id]; var pull := if o.Pulls() then CancelReason(o, table, levels) else NoReason;
             reason == if pull != NoReason then pull else AddReason(o, table, levels, bids, closeQ, limit, isCash)
    ensures Judged(reason, a, table[id], SidesOf(levels, bids), Message(SidesOf(levels, bids), table, id), table, held, isCash, buyingPower)
  {
    hide Message, LegCharge, Sweep, Crossing, Due, Affords, PoolFits, SoundSides, Agrees, Exposure, PathOn, PathOf;
    var o, s := table[id], SidesOf(levels, bids);
    SidesJoin(levels, bids);
    FokFinds(levels, bids, o);
    if o.Pulls() {
      CancelPasses(o, table, levels, bids);
    }
    if WellFormed(s, o, table) {
      if isCash {
        ChargeIsDue(levels, bids, o, table, closeQ);
        if PoolFits(s, o, table, held) {
          FreeAffords(s, table, id, a, held);
        }
      } else if SamePath(s, o, table) {
        MessagePath(s, table, id);
        ChargeIsExposure(a, o, s, Message(s, table, id), table, levels, bids, closeQ);
      }
    }
  }

  // ---------- After the message ----------

  /** What an account paid for fills, its own rebates and the taker's fees aside. */
  lemma StillCovers(was: Account, now: Account, s: Sides, table: Table, id: u32, held: Holds)
    requires SoundSides(s) && Agrees(s, table) && Settleable(s, table, id)
    requires var m := Message(s, table, id); Paid(was, now, table[id].client, table[id].client, table[id].buy, m.fills, table)
    requires Affords(was, table[id], Message(s, table, id), table, held)
    ensures Covers(now, table[id].client, table[id].buy, Message(s, table, id), table, held)
  {
  }

  /** Cash plus the fees the taker paid, less the rebates it earned, covers what its bids tie up; its shares
  cover its asks. */
  ghost predicate Covers(now: Account, c: nat, buy: bool, m: Outcome, table: Table, held: Holds) {
    if buy then now.cash + Fees(m.fills) - Rebates(m.fills, c, table) >= TiedCash(m.sides, c, table, held)
    else now.shares >= TiedShares(m.sides, c, table, held)
  }

  lemma {:induction false} SameFillWeights(fills: seq<Fill>, a: Weight, b: Weight)
    requires forall f | f in fills :: a(f.id) == b(f.id)
    ensures WeighFills(fills, a) == WeighFills(fills, b)
  {
    if fills != [] {
      assert fills[0] in fills && forall f | f in fills[1..] :: f in fills;
      SameFillWeights(fills[1..], a, b);
    }
  }

  /** As far covered after the message as before, in the pools the message does not draw on. */
  ghost predicate Covered(was: Account, now: Account, c: nat, o: Order, s: Sides, m: Outcome, table: Table, held: Holds) {
    && (c != o.client || !o.buy ==>
          now.cash + (if c == o.client then Fees(m.fills) else 0) - TiedCash(m.sides, c, table, held)
          >= was.cash - TiedCash(s, c, table, held))
    && (c != o.client || o.buy ==>
          now.shares - TiedShares(m.sides, c, table, held) >= was.shares - TiedShares(s, c, table, held))
  }

  /** A message leaves everybody else covered as far as before: what a maker pays or delivers is no longer
  tied up. The same holds of its own client in the pool that it does not draw on, but for the fees. */
  lemma CoverKept(was: Account, now: Account, s: Sides, table: Table, id: u32, held: Holds, c: nat)
    requires SoundSides(s) && Agrees(s, table) && Settleable(s, table, id)
    requires Paid(was, now, c, table[id].client, table[id].buy, Message(s, table, id).fills, table)
    ensures Covered(was, now, c, table[id], s, Message(s, table, id), table, held)
  {
    hide Message, WeighSides, WeighFills, LeftResting, SoundSides, Fees, Rebates, FillTotal;
    var o, m := table[id], Message(s, table, id);
    MessageConserves(s, table, id, BidValue(c, table));
    MessageConserves(s, table, id, AskShares(c, table));
    forall f | f in m.fills
      ensures if o.buy then BidValue(c, table)(f.id) == 0 && AskShares(c, table)(f.id) == MakerShares(c, table)(f.id)
              else BidValue(c, table)(f.id) == MakerValue(c, table)(f.id) && AskShares(c, table)(f.id) == 0
    {
      MessageFillOk(s, table, id, f);
    }
    if o.buy {
      NoWeight(m.fills, BidValue(c, table));
      SameFillWeights(m.fills, AskShares(c, table), MakerShares(c, table));
    } else {
      NoWeight(m.fills, AskShares(c, table));
      SameFillWeights(m.fills, BidValue(c, table), MakerValue(c, table));
    }
  }

  // ---------- A margin account ----------

  /** An order no larger than the position it closes passes on no buying power at all, and one with
  nothing to close counts whole. */
  lemma ClosingIsFree(a: Account, s: Sides, table: Table, id: u32)
    requires SoundSides(s) && Agrees(s, table) && Settleable(s, table, id) && !table[id].PureCancel()
    ensures var o, m := table[id], Message(s, table, id);
            var closes := if o.buy then -a.shares else a.shares - a.reservedShares;
            && (closes >= o.quantity ==> Exposure(a, o, m, table) == 0)
            && (closes <= 0 ==> Exposure(a, o, m, table) == WeighFills(m.fills, PriceOf(table)) + LeftResting(o, m.fills) * o.price)
  {
    hide Message, WeighFills, Sum, LeftResting, SharePath, Repeat;
    var o, m := table[id], Message(s, table, id);
    MessageConserves(s, table, id, Only(id));
    PathCost(o, m, table);
    assert LeftResting(o, m.fills) <= o.quantity - FillTotal(m.fills) by {
      RestsAtMost(o, m.fills);
    }
    assert PathOf(o, m, table)[0..] == PathOf(o, m, table);
    if |PathOf(o, m, table)| == 0 {
      assert Sum(PathOf(o, m, table)) == 0 by {
        SumNothing();
      }
    }
  }

  lemma RestsAtMost(o: Order, fills: seq<Fill>)
    requires FillTotal(fills) <= o.quantity
    ensures LeftResting(o, fills) <= o.quantity - FillTotal(fills)
  {
  }

  lemma SumNothing()
    ensures Sum([]) == 0
  {
  }

  // ---------- Where the charge falls short ----------

  /** Two asks, the first of them about to be replaced by a bid that reaches both. */
  ghost function TwoAsks(): Sides {
    Sides([], [At(50, [Entry(7, 10)])] + [At(60, [Entry(9, 10)])])
  }

  function TwoOwners(): Table {
    var ask := Order(0, 50, 10, false, false, false, false, false, false, 0);
    map[7 := ask, 9 := ask.(client := 1, price := 60), 8 := Order(0, 60, 10, true, false, false, false, true, false, 7)]
  }

  /** A client with 500 in cash replaces its own ask for 10 at 50 by a bid for 10 at 60, where another
  client's ask for 10 at 60 waits behind it. The walk prices the ask that is about to go, so the check
  asks for 500; the message costs 600. */
  lemma ReplacesOwnAsk()
    ensures var s, table := TwoAsks(), TwoOwners(); var a := Account(500, 0, 10, 10);
            && Free(a, table[8], table) == 500 && AddReason(table[8], table, s.asks, 0, 0, 500, true) == NoReason
            && !SameDue(s, table[8], table) && !Affords(a, table[8], Message(s, table, 8), table, NoHolds())
  {
    hide Due, Message, WeighSides, Prune, LegCharge, Sweep;
    OldDue();
    NewDue();
    assert SidesOf(TwoAsks().asks, 0) == TwoAsks();
    ChargeIsDue(TwoAsks().asks, 0, TwoOwners()[8], TwoOwners(), 0);
  }

  lemma OldDue()
    ensures Due(TwoAsks(), TwoOwners()[8], TwoOwners()) == 500
  {
    hide Sweep, SharePath, Repeat, Sum, WeighFills;
    WholeLevel(7, 10, 50, [At(60, [Entry(9, 10)])], TwoOwners()[8]);
    OneFillCosts(7, TwoOwners());
  }

  lemma NewDue()
    ensures Due(Pull(TwoAsks(), {7}), TwoOwners()[8], TwoOwners()) == 600
    ensures Message(TwoAsks(), TwoOwners(), 8) == Outcome(Sides([], []), [Fill(9, 10, false)])
    ensures WeighFills([Fill(9, 10, false)], PriceOf(TwoOwners())) == 600
  {
    hide Sweep, SharePath, Repeat, Sum, WeighFills, Prune, PriceOf, RestLeft;
    var far := [At(60, [Entry(9, 10)])];
    PrunesNear();
    assert [At(50, [Entry(7, 10)])] + far == [At(50, [Entry(7, 10)]), At(60, [Entry(9, 10)])] && far == far + [];
    WholeLevel(9, 10, 60, [], TwoOwners()[8]);
    OneFillCosts(9, TwoOwners());
    assert RestLeft([], TwoOwners()[8], 8, 0) == [] by {
      NothingRests(TwoOwners()[8], 8);
    }
  }

  lemma NothingRests(t: Order, id: u32)
    ensures RestLeft([], t, id, 0) == []
  {
  }

  lemma PrunesNear()
    ensures Prune([At(50, [Entry(7, 10)]), At(60, [Entry(9, 10)])], {7}) == [At(60, [Entry(9, 10)])] && Prune([], {7}) == []
  {
    var levels := [At(50, [Entry(7, 10)]), At(60, [Entry(9, 10)])];
    var far := levels[1..];
    assert far == [At(60, [Entry(9, 10)])] && far[1..] == [] && [Entry(7, 10)][1..] == [] && [Entry(9, 10)][1..] == [];
    assert Keep([Entry(7, 10)], {7}) == [] && Keep([Entry(9, 10)], {7}) == [Entry(9, 10)];
    assert Prune(far, {7}) == far + Prune([], {7}) == far;
  }

  /** What ten shares of one maker cost. */
  lemma OneFillCosts(x: u32, table: Table)
    requires x in table
    ensures Sum(SharePath([Fill(x, 10, false)], table) + Repeat(60, 0)) == 10 * table[x].price == WeighFills([Fill(x, 10, false)], PriceOf(table))
  {
    var fills := [Fill(x, 10, false)];
    assert fills[1..] == [];
    assert SharePath(fills, table) == Repeat(table[x].price, 10) + SharePath([], table) == Repeat(table[x].price, 10);
    assert Repeat(table[x].price, 10) + Repeat(60, 0) == Repeat(table[x].price, 10);
    SumRepeat(table[x].price, 10);
    assert WeighFills(fills, PriceOf(table)) == 10 * PriceOf(table)(x) + WeighFills([], PriceOf(table));
  }

  /** A taker that takes one whole level. */
  lemma WholeLevel(x: u32, q: u16, price: u16, rest: seq<Level>, t: Order)
    requires q > 0 && Crosses(t, price)
    ensures Sweep([At(price, [Entry(x, q)])] + rest, t, q) == Swept(rest, [Fill(x, q, false)], 0)
  {
    var orders := [Entry(x, q)];
    assert orders[1..] == [] && Eat(orders[1..], 0) == Eaten([], [], 0);
    assert Eat(orders, q) == Eaten([], [Fill(x, q, false)], 0);
    assert ([At(price, orders)] + rest)[1..] == rest;
    SweepOne([At(price, orders)] + rest, t, q);
    SweepNothing(rest, t, 0);
  }
}
