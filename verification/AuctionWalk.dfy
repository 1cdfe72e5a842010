/** The call auction's price (auction_walk of src/server.c): one ascending walk over four sorted
sources finds the largest volume any price can match, and the lowest limit price that matches it. */
module AuctionWalk {
  import opened Machine

  /** A parked limit order or a resting level: a price and its shares. */
  datatype Lot = Lot(price: u16, shares: nat)

  /** What the walk reads: parked limits and resting levels, both sides, with market orders as base. */
  datatype Curves = Curves(bids: seq<Lot>, asks: seq<Lot>, bookBids: seq<Lot>, bookAsks: seq<Lot>, baseDemand: nat, baseSupply: nat)

  ghost predicate Climbing(lots: seq<Lot>) {
    forall i, j | 0 <= i < j < |lots| :: lots[i].price <= lots[j].price
  }

  ghost predicate Sorted(c: Curves) {
    Climbing(c.bids) && Climbing(c.asks) && Climbing(c.bookBids) && Climbing(c.bookAsks)
  }

  // ---------- Demand and supply ----------

  function Sum(lots: seq<Lot>): nat {
    if lots == [] then 0 else lots[0].shares + Sum(lots[1..])
  }

  /** Shares that would buy at this price. */
  function AtOrAbove(lots: seq<Lot>, price: int): nat {
    if lots == [] then 0 else (if lots[0].price >= price then lots[0].shares else 0) + AtOrAbove(lots[1..], price)
  }

  /** Shares that would sell at this price. */
  function AtOrBelow(lots: seq<Lot>, price: int): nat {
    if lots == [] then 0 else (if lots[0].price <= price then lots[0].shares else 0) + AtOrBelow(lots[1..], price)
  }

  function Demand(c: Curves, price: int): nat {
    c.baseDemand + AtOrAbove(c.bids, price) + AtOrAbove(c.bookBids, price)
  }

  function Supply(c: Curves, price: int): nat {
    c.baseSupply + AtOrBelow(c.asks, price) + AtOrBelow(c.bookAsks, price)
  }

  function Crossed(c: Curves, price: int): nat {
    if Demand(c, price) < Supply(c, price) then Demand(c, price) else Supply(c, price)
  }

  /** Some order or level is priced here. */
  ghost predicate LimitPrice(c: Curves, price: int) {
    exists l :: (l in c.bids || l in c.asks || l in c.bookBids || l in c.bookAsks) && l.price == price
  }

  lemma {:induction false} SumConcat(a: seq<Lot>, b: seq<Lot>)
    ensures Sum(a + b) == Sum(a) + Sum(b)
  {
    if a == [] {
      assert a + b == b;
    } else {
      assert (a + b)[1..] == a[1..] + b;
      SumConcat(a[1..], b);
    }
  }

  /** Splitting a sorted source at a price. */
  lemma {:induction false} AboveSplit(lots: seq<Lot>, i: nat, price: int)
    requires i <= |lots|
    requires forall k | 0 <= k < i :: lots[k].price < price
    requires forall k | i <= k < |lots| :: price <= lots[k].price
    ensures AtOrAbove(lots, price) == Sum(lots[i..])
  {
    if lots != [] {
      if i == 0 {
        AboveSplit(lots[1..], 0, price);
        assert lots[1..][0..] == lots[0..][1..];
      } else {
        AboveSplit(lots[1..], i - 1, price);
        assert lots[1..][i - 1..] == lots[i..];
      }
    }
  }

  lemma {:induction false} BelowSplit(lots: seq<Lot>, i: nat, price: int)
    requires i <= |lots|
    requires forall k | 0 <= k < i :: lots[k].price <= price
    requires forall k | i <= k < |lots| :: price < lots[k].price
    ensures AtOrBelow(lots, price) == Sum(lots[..i])
  {
    if lots != [] {
      if i == 0 {
        BelowSplit(lots[1..], 0, price);
        assert lots[1..][..0] == lots[..0];
      } else {
        BelowSplit(lots[1..], i - 1, price);
        assert lots[..i][1..] == lots[1..][..i - 1];
      }
    }
  }

  lemma {:induction false} CurvesMonotone(lots: seq<Lot>, p: int, q: int)
    requires p <= q
    ensures AtOrAbove(lots, q) <= AtOrAbove(lots, p) && AtOrBelow(lots, p) <= AtOrBelow(lots, q)
  {
    if lots != [] {
      CurvesMonotone(lots[1..], p, q);
    }
  }

  /** Demand falls and supply climbs with the price. */
  lemma DemandSupplyMonotone(c: Curves, p: int, q: int)
    requires p <= q
    ensures Demand(c, q) <= Demand(c, p) && Supply(c, p) <= Supply(c, q)
  {
    CurvesMonotone(c.bids, p, q);
    CurvesMonotone(c.asks, p, q);
    CurvesMonotone(c.bookBids, p, q);
    CurvesMonotone(c.bookAsks, p, q);
  }

  // ---------- The frontier ----------

  /** What of a source has been walked: everything up to and including price lo. */
  ghost predicate Walked(lots: seq<Lot>, i: nat, lo: int) {
    && i <= |lots|
    && (forall k | 0 <= k < i :: lots[k].price <= lo)
    && (forall k | i <= k < |lots| :: lo < lots[k].price)
  }

  datatype At = At(bid: nat, ask: nat, bookBid: nat, bookAsk: nat)

  ghost predicate Frontier(c: Curves, at: At, lo: int) {
    Walked(c.bids, at.bid, lo) && Walked(c.asks, at.ask, lo) && Walked(c.bookBids, at.bookBid, lo) && Walked(c.bookAsks, at.bookAsk, lo)
  }

  /** The next price: the least still unwalked. */
  ghost predicate Lowest(lots: seq<Lot>, i: nat, price: u16) {
    i <= |lots| && forall k | i <= k < |lots| :: price <= lots[k].price
  }

  /** Demand at the next price is everything not yet walked, bids only. */
  lemma DemandAt(c: Curves, at: At, lo: int, price: u16)
    requires Frontier(c, at, lo) && lo < price && Lowest(c.bids, at.bid, price) && Lowest(c.bookBids, at.bookBid, price)
    ensures forall p | lo < p <= price :: Demand(c, p) == c.baseDemand + Sum(c.bids[at.bid..]) + Sum(c.bookBids[at.bookBid..])
  {
    forall p | lo < p <= price
      ensures Demand(c, p) == c.baseDemand + Sum(c.bids[at.bid..]) + Sum(c.bookBids[at.bookBid..])
    {
      AboveSplit(c.bids, at.bid, p);
      AboveSplit(c.bookBids, at.bookBid, p);
    }
  }

  lemma SupplyAt(c: Curves, at: At, lo: int)
    requires Frontier(c, at, lo)
    ensures Supply(c, lo) == c.baseSupply + Sum(c.asks[..at.ask]) + Sum(c.bookAsks[..at.bookAsk])
  {
    BelowSplit(c.asks, at.ask, lo);
    BelowSplit(c.bookAsks, at.bookAsk, lo);
  }

  // ---------- The best price so far ----------

  /** Among the prices up to lo, matched is the most that can cross, and clearing is the lowest limit
  price where it does. */
  ghost predicate BestUpTo(c: Curves, lo: int, matched: nat, clearing: u16) {
    && (forall p | 0 <= p <= lo :: Crossed(c, p) <= matched)
    && (matched > 0 ==> clearing <= lo && LimitPrice(c, clearing) && Crossed(c, clearing) == matched)
    && (matched > 0 ==> forall p | 0 <= p < clearing && LimitPrice(c, p) :: Crossed(c, p) < matched)
  }

  lemma BestStep(c: Curves, at: At, lo: int, price: u16, matched: nat, clearing: u16)
    requires Frontier(c, at, lo) && lo < price && LimitPrice(c, price)
    requires Lowest(c.bids, at.bid, price) && Lowest(c.asks, at.ask, price)
    requires Lowest(c.bookBids, at.bookBid, price) && Lowest(c.bookAsks, at.bookAsk, price)
    requires BestUpTo(c, lo, matched, clearing)
    ensures var crossed := Crossed(c, price);
            BestUpTo(c, price, if crossed > matched then crossed else matched, if crossed > matched then price else clearing)
  {
    DemandAt(c, at, lo, price);
    forall p | 0 <= p <= price && lo < p
      ensures Crossed(c, p) <= Crossed(c, price)
    {
      DemandSupplyMonotone(c, p, price);
    }
    forall p | 0 <= p < price && LimitPrice(c, p)
      ensures p <= lo
    {
      Between(c, at, lo, price, p);
    }
  }

  /** No limit price lies strictly between the walked part and the next price. */
  lemma Between(c: Curves, at: At, lo: int, price: u16, p: int)
    requires Frontier(c, at, lo) && LimitPrice(c, p) && p < price
    requires Lowest(c.bids, at.bid, price) && Lowest(c.asks, at.ask, price)
    requires Lowest(c.bookBids, at.bookBid, price) && Lowest(c.bookAsks, at.bookAsk, price)
    ensures p <= lo
  {
    var l :| (l in c.bids || l in c.asks || l in c.bookBids || l in c.bookAsks) && l.price == p;
  }

  // ---------- auction_walk ----------

  lemma SumNext(lots: seq<Lot>, i: nat)
    requires i < |lots|
    ensures Sum(lots[..i + 1]) == Sum(lots[..i]) + lots[i].shares
    ensures Sum(lots[i..]) == lots[i].shares + Sum(lots[i + 1..])
  {
    assert lots[..i + 1] == lots[..i] + [lots[i]] && [lots[i]][1..] == [];
    SumConcat(lots[..i], [lots[i]]);
  }

  /** The shares of the lots at exactly this price, from index i on. */
  method TakePrice(lots: seq<Lot>, i: nat, price: u16, ghost lo: int) returns (next: nat, shares: nat)
    requires Climbing(lots) && Walked(lots, i, lo) && lo < price && Lowest(lots, i, price)
    ensures i <= next && Walked(lots, next, price) && Sum(lots[i..]) == shares + Sum(lots[next..])
    ensures Sum(lots[..next]) == Sum(lots[..i]) + shares
  {
    next, shares := i, 0;
    while next < |lots| && lots[next].price == price
      invariant i <= next <= |lots| && forall k | i <= k < next :: lots[k].price == price
      invariant Sum(lots[i..]) == shares + Sum(lots[next..])
      invariant Sum(lots[..next]) == Sum(lots[..i]) + shares
    {
      SumNext(lots, next);
      shares := shares + lots[next].shares;
      next := next + 1;
    }
  }

  /** The least price still unwalked across the four sources. */
  method NextPrice(c: Curves, at: At, ghost lo: int) returns (price: u16)
    requires Sorted(c) && Frontier(c, at, lo)
    requires at.bid < |c.bids| || at.ask < |c.asks| || at.bookBid < |c.bookBids| || at.bookAsk < |c.bookAsks|
    ensures lo < price && LimitPrice(c, price)
    ensures Lowest(c.bids, at.bid, price) && Lowest(c.asks, at.ask, price)
    ensures Lowest(c.bookBids, at.bookBid, price) && Lowest(c.bookAsks, at.bookAsk, price)
  {
    price := MAX_U16;
    if at.bid < |c.bids| && c.bids[at.bid].price < price {
      price := c.bids[at.bid].price;
    }
    if at.ask < |c.asks| && c.asks[at.ask].price < price {
      price := c.asks[at.ask].price;
    }
    if at.bookBid < |c.bookBids| && c.bookBids[at.bookBid].price < price {
      price := c.bookBids[at.bookBid].price;
    }
    if at.bookAsk < |c.bookAsks| && c.bookAsks[at.bookAsk].price < price {
      price := c.bookAsks[at.bookAsk].price;
    }
    assert at.bid < |c.bids| ==> c.bids[at.bid] in c.bids;
    assert at.ask < |c.asks| ==> c.asks[at.ask] in c.asks;
    assert at.bookBid < |c.bookBids| ==> c.bookBids[at.bookBid] in c.bookBids;
    assert at.bookAsk < |c.bookAsks| ==> c.bookAsks[at.bookAsk] in c.bookAsks;
  }

  /** The clearing price and the matched volume: no price matches more, and among the limit prices
  none below matches as much. */
  method Walk(c: Curves, mark: u16) returns (clearing: u16, matched: nat)
    requires Sorted(c)
    ensures Cleared(c, mark, clearing, matched)
    ensures matched > 0 ==> (NoneBelow(c, clearing, matched) <==> LowestGuard(c, mark))
  {
    hide NoneBelow, LowestGuard, Cleared, BestUpTo, LimitPrice, Sorted, AtOrAbove, AtOrBelow;
    var bidsAtOrAbove := TotalShares(c.bids);
    var bookBids := TotalShares(c.bookBids);
    bidsAtOrAbove := bidsAtOrAbove + bookBids;
    var asksAtOrBelow := 0;
    var at := At(0, 0, 0, 0);
    matched, clearing := 0, mark;
    ghost var lo: int := -1;
    WholeAndNone(c.bids);
    WholeAndNone(c.asks);
    WholeAndNone(c.bookBids);
    WholeAndNone(c.bookAsks);
    NothingBest(c, mark);
    while at.bid < |c.bids| || at.ask < |c.asks| || at.bookBid < |c.bookBids| || at.bookAsk < |c.bookAsks|
      invariant -1 <= lo < 0x1_0000 && Frontier(c, at, lo) && BestUpTo(c, lo, matched, clearing)
      invariant matched == 0 ==> clearing == mark
      invariant bidsAtOrAbove == Sum(c.bids[at.bid..]) + Sum(c.bookBids[at.bookBid..])
      invariant asksAtOrBelow == Sum(c.asks[..at.ask]) + Sum(c.bookAsks[..at.bookAsk])
      invariant lo < 0 ==> at == At(0, 0, 0, 0)
      decreases 0x1_0000 - lo
    {
      var price := NextPrice(c, at, lo);
      var next, bidsHere, asksHere := OnePrice(c, at, price, lo);
      DemandAt(c, at, lo, price);
      SupplyAt(c, next, price);
      BestStep(c, at, lo, price, matched, clearing);
      asksAtOrBelow := asksAtOrBelow + asksHere;
      var demand, supply := c.baseDemand + bidsAtOrAbove, c.baseSupply + asksAtOrBelow;
      var crossed := if demand < supply then demand else supply;
      if crossed > matched {
        matched, clearing := crossed, price;
      }
      bidsAtOrAbove := bidsAtOrAbove - bidsHere;
      at, lo := next, price;
    }
    AllWalked(c, at, lo, mark, matched, clearing);
    if matched == 0 && c.baseDemand > 0 && c.baseSupply > 0 {
      clearing := mark;
      matched := if c.baseDemand < c.baseSupply then c.baseDemand else c.baseSupply;
    }
    if matched > 0 {
      LowestExactly(c, mark, clearing, matched);
    }
  }

  method TotalShares(lots: seq<Lot>) returns (total: nat)
    ensures total == Sum(lots)
  {
    total := 0;
    for i := 0 to |lots|
      invariant total + Sum(lots[i..]) == Sum(lots)
    {
      total := total + lots[i].shares;
    }
  }

  lemma WholeAndNone(lots: seq<Lot>)
    ensures lots[0..] == lots && lots[..0] == []
  {
  }

  /** All four sources move past one price. */
  method OnePrice(c: Curves, at: At, price: u16, ghost lo: int) returns (next: At, bidsHere: nat, asksHere: nat)
    requires Sorted(c) && Frontier(c, at, lo) && lo < price
    requires Lowest(c.bids, at.bid, price) && Lowest(c.asks, at.ask, price)
    requires Lowest(c.bookBids, at.bookBid, price) && Lowest(c.bookAsks, at.bookAsk, price)
    ensures Frontier(c, next, price)
    ensures Sum(c.bids[at.bid..]) + Sum(c.bookBids[at.bookBid..]) == bidsHere + Sum(c.bids[next.bid..]) + Sum(c.bookBids[next.bookBid..])
    ensures Sum(c.asks[..next.ask]) + Sum(c.bookAsks[..next.bookAsk]) == Sum(c.asks[..at.ask]) + Sum(c.bookAsks[..at.bookAsk]) + asksHere
  {
    var ask, asks := TakePrice(c.asks, at.ask, price, lo);
    var bookAsk, bookAsks := TakePrice(c.bookAsks, at.bookAsk, price, lo);
    var bid, bids := TakePrice(c.bids, at.bid, price, lo);
    var bookBid, bookBids := TakePrice(c.bookBids, at.bookBid, price, lo);
    next, bidsHere, asksHere := At(bid, ask, bookBid, bookAsk), bids + bookBids, asks + bookAsks;
  }

  /** Past the last limit price nothing more crosses than at it; with no limits at all, only the
  market orders can. */
  lemma Finished(c: Curves, at: At, lo: int, matched: nat, clearing: u16)
    requires Frontier(c, at, lo) && BestUpTo(c, lo, matched, clearing) && lo < 0x1_0000
    requires at == At(|c.bids|, |c.asks|, |c.bookBids|, |c.bookAsks|)
    requires lo < 0 ==> at == At(0, 0, 0, 0)
    ensures lo >= 0 ==> forall p | 0 <= p < 0x1_0000 :: Crossed(c, p) <= matched
    ensures lo >= 0 && matched == 0 ==> c.baseDemand == 0 || c.baseSupply == 0
    ensures lo < 0 ==> matched == 0 && (forall p :: !LimitPrice(c, p))
    ensures lo < 0 ==> forall p :: Demand(c, p) == c.baseDemand && Supply(c, p) == c.baseSupply
  {
    if lo >= 0 {
      SupplyAt(c, at, lo);
      forall p | lo < p < 0x1_0000
        ensures Crossed(c, p) <= Crossed(c, lo)
      {
        SupplyAt(c, at, p);
        DemandSupplyMonotone(c, lo, p);
      }
      assert Crossed(c, lo) <= matched;
    } else {
      forall p
        ensures !LimitPrice(c, p)
      {
      }
    }
  }

  lemma NothingBest(c: Curves, mark: u16)
    ensures BestUpTo(c, -1, 0, mark)
  {
  }

  // ---------- The lowest price of all ----------

  ghost predicate NoneBelow(c: Curves, clearing: int, matched: nat) {
    forall p | 0 <= p < clearing :: Crossed(c, p) < matched
  }

  /** When the clearing price is the lowest of all prices, read off the curves before the walk: there
  is a limit at zero, or an ask whose price still finds more demand than the market orders supply;
  and, when no order has a limit, a mark of zero. */
  ghost predicate LowestGuard(c: Curves, mark: u16) {
    if exists p :: LimitPrice(c, p) then LimitPrice(c, 0) || exists l :: Selling(c, l)
    else mark == 0
  }

  /** An ask, parked or resting, that adds to what the market orders supply. */
  ghost predicate Selling(c: Curves, l: Lot) {
    (l in c.asks || l in c.bookAsks) && l.shares > 0 && Demand(c, l.price) > c.baseSupply
  }

  lemma {:induction false} NoneAt(lots: seq<Lot>, p: int)
    requires forall l | l in lots :: l.shares == 0 || l.price != p
    ensures AtOrBelow(lots, p) == AtOrBelow(lots, p - 1)
  {
    if lots != [] {
      assert lots[0] in lots && forall l | l in lots[1..] :: l in lots;
      NoneAt(lots[1..], p);
    }
  }

  lemma {:induction false} NoneNegative(lots: seq<Lot>, p: int)
    requires p < 0
    ensures AtOrBelow(lots, p) == 0
  {
    if lots != [] {
      NoneNegative(lots[1..], p);
    }
  }

  /** Supply beyond the market orders comes from an ask, and is reached at that ask's price. */
  lemma {:induction false} SupplySource(c: Curves, p: int) returns (l: Lot)
    requires Supply(c, p) > c.baseSupply
    ensures (l in c.asks || l in c.bookAsks) && l.shares > 0 && l.price <= p && Supply(c, l.price) == Supply(c, p)
    decreases if p < 0 then 0 else p + 1
  {
    if p < 0 {
      NoneNegative(c.asks, p);
      NoneNegative(c.bookAsks, p);
      assert false;
    } else if exists x :: (x in c.asks || x in c.bookAsks) && x.shares > 0 && x.price == p {
      l :| (l in c.asks || l in c.bookAsks) && l.shares > 0 && l.price == p;
    } else {
      NoneAt(c.asks, p);
      NoneAt(c.bookAsks, p);
      l := SupplySource(c, p - 1);
    }
  }

  /** What the walk promises of its price and volume. */
  ghost predicate Cleared(c: Curves, mark: u16, clearing: u16, matched: nat) {
    && (forall p | 0 <= p < 0x1_0000 :: Crossed(c, p) <= matched)
    && (matched > 0 ==>
          && Crossed(c, clearing) == matched
          && (forall p | 0 <= p < clearing && LimitPrice(c, p) :: Crossed(c, p) < matched)
          && (LimitPrice(c, clearing) || (clearing == mark && forall p :: !LimitPrice(c, p))))
    && (matched == 0 ==> clearing == mark)
  }

  /** The walk is over: what it holds, and the market orders alone if no limit crossed. */
  lemma AllWalked(c: Curves, at: At, lo: int, mark: u16, matched: nat, clearing: u16)
    requires Frontier(c, at, lo) && BestUpTo(c, lo, matched, clearing) && lo < 0x1_0000
    requires at == At(|c.bids|, |c.asks|, |c.bookBids|, |c.bookAsks|)
    requires (lo < 0 ==> at == At(0, 0, 0, 0)) && (matched == 0 ==> clearing == mark)
    ensures Cleared(c, mark, clearing, if matched > 0 then matched else if c.baseDemand < c.baseSupply then c.baseDemand else c.baseSupply)
  {
    Finished(c, at, lo, matched, clearing);
  }

  /** There is one such price and volume. */
  lemma ClearedOnce(c: Curves, mark: u16, clearing: u16, matched: nat, price: u16, volume: nat)
    requires Cleared(c, mark, clearing, matched) && Cleared(c, mark, price, volume)
    ensures price == clearing && volume == matched
  {
    assert matched > 0 ==> Crossed(c, clearing) <= volume;
    assert volume > 0 ==> Crossed(c, price) <= matched;
    assert LimitPrice(c, clearing) && clearing < price && volume > 0 ==> Crossed(c, clearing) < volume;
    assert LimitPrice(c, price) && price < clearing && matched > 0 ==> Crossed(c, price) < matched;
  }

  /** No price below the clearing price where supply comes from an ask matches as much. */
  lemma NotFromAsk(c: Curves, mark: u16, clearing: u16, matched: nat, p: int)
    requires Cleared(c, mark, clearing, matched) && matched > 0 && 0 <= p < clearing && Supply(c, p) > c.baseSupply
    ensures Crossed(c, p) < matched
  {
    var l := SupplySource(c, p);
    DemandSupplyMonotone(c, l.price, p);
    assert LimitPrice(c, l.price);
  }

  /** The clearing price is the lowest of all prices that match as much exactly when the guard holds. */
  lemma LowestExactly(c: Curves, mark: u16, clearing: u16, matched: nat)
    requires Cleared(c, mark, clearing, matched) && matched > 0
    ensures NoneBelow(c, clearing, matched) <==> LowestGuard(c, mark)
  {
    DemandSupplyMonotone(c, 0, clearing);
    if exists p :: LimitPrice(c, p) {
      assert LimitPrice(c, clearing);
      if LowestGuard(c, mark) {
        forall p | 0 <= p < clearing
          ensures Crossed(c, p) < matched
        {
          GuardedBelow(c, mark, clearing, matched, p);
        }
      } else {
        UnguardedZero(c, mark, clearing, matched);
      }
    } else {
      NoLimits(c);
      assert !LimitPrice(c, clearing) && Crossed(c, 0) == Crossed(c, clearing);
    }
  }

  lemma GuardedBelow(c: Curves, mark: u16, clearing: u16, matched: nat, p: int)
    requires Cleared(c, mark, clearing, matched) && matched > 0 && 0 <= p < clearing
    requires LimitPrice(c, 0) || exists l :: Selling(c, l)
    ensures Crossed(c, p) < matched
  {
    DemandSupplyMonotone(c, p, clearing);
    DemandSupplyMonotone(c, 0, p);
    DemandSupplyMonotone(c, 0, clearing);
    if Supply(c, p) > c.baseSupply {
      NotFromAsk(c, mark, clearing, matched, p);
    } else if LimitPrice(c, 0) {
      var zero: int := 0;
      assert p >= zero && Crossed(c, zero) < matched && Demand(c, zero) >= matched;
      assert c.baseSupply <= Supply(c, zero) < matched;
    } else {
      var l :| Selling(c, l);
      SellsMore(c, l);
      assert c.baseSupply < Crossed(c, l.price) <= matched;
    }
  }

  lemma SellsMore(c: Curves, l: Lot)
    requires Selling(c, l)
    ensures Crossed(c, l.price) > c.baseSupply
  {
    if l in c.asks {
      CountsItself(c.asks, l);
    } else {
      CountsItself(c.bookAsks, l);
    }
  }

  lemma {:induction false} CountsItself(lots: seq<Lot>, l: Lot)
    requires l in lots
    ensures AtOrBelow(lots, l.price) >= l.shares
  {
    if lots[0] != l {
      CountsItself(lots[1..], l);
    }
  }

  lemma UnguardedZero(c: Curves, mark: u16, clearing: u16, matched: nat)
    requires Cleared(c, mark, clearing, matched) && matched > 0 && LimitPrice(c, clearing)
    requires !LimitPrice(c, 0) && !exists l :: Selling(c, l)
    ensures 0 < clearing && Crossed(c, 0) == matched
  {
    DemandSupplyMonotone(c, 0, clearing);
    if matched > c.baseSupply {
      var l := SupplySource(c, clearing);
      DemandSupplyMonotone(c, l.price, clearing);
      assert Selling(c, l);
    }
    assert Crossed(c, 0) <= matched;
  }

  lemma SomeLimit(c: Curves)
    ensures c.bids != [] || c.asks != [] || c.bookBids != [] || c.bookAsks != [] ==> exists p :: LimitPrice(c, p)
  {
    if c.bids != [] {
      assert LimitPrice(c, c.bids[0].price);
    } else if c.asks != [] {
      assert LimitPrice(c, c.asks[0].price);
    } else if c.bookBids != [] {
      assert LimitPrice(c, c.bookBids[0].price);
    } else if c.bookAsks != [] {
      assert LimitPrice(c, c.bookAsks[0].price);
    }
  }

  lemma NoLimits(c: Curves)
    requires !exists p :: LimitPrice(c, p)
    ensures forall p :: Crossed(c, p) == if c.baseDemand < c.baseSupply then c.baseDemand else c.baseSupply
  {
    SomeLimit(c);
  }

  lemma OneBid(p: int)
    ensures AtOrAbove([Lot(50, 10)], p) == if p <= 50 then 10 else 0
  {
    assert [Lot(50, 10)][1..] == [];
  }

  /** One parked bid at 50 against a parked market sell clears at 50, though every lower price would
  match the same ten shares; the guard says so. */
  lemma NotLowestOfAll()
    ensures var c := Curves([Lot(50, 10)], [], [], [], 0, 10);
            Cleared(c, 0, 50, 10) && !LowestGuard(c, 0) && Crossed(c, 49) == 10
  {
    hide AtOrAbove;
    var c := Curves([Lot(50, 10)], [], [], [], 0, 10);
    forall p
      ensures Crossed(c, p) == if p <= 50 then 10 else 0
    {
      OneBid(p);
      NoLots(p);
    }
    assert c.bids[0] == Lot(50, 10);
    assert LimitPrice(c, 50);
  }

  // ---------- In 32 bits ----------

  /** The program sums shares in 32-bit fields. They are the curves at every price if and only if all
  the demand there is, and all the supply, fit. */
  lemma SumsFit(c: Curves)
    ensures (forall p | 0 <= p < 0x1_0000 :: U32(Demand(c, p)) == Demand(c, p) && U32(Supply(c, p)) == Supply(c, p))
            <==> Demand(c, 0) < 0x1_0000_0000 && Supply(c, 0xFFFF) < 0x1_0000_0000
  {
    hide AtOrAbove, AtOrBelow;
    forall p | 0 <= p < 0x1_0000
      ensures Demand(c, p) <= Demand(c, 0) && Supply(c, p) <= Supply(c, 0xFFFF)
    {
      DemandSupplyMonotone(c, 0, p);
      DemandSupplyMonotone(c, p, 0xFFFF);
    }
    assert U32(Demand(c, 0)) == Demand(c, 0) <==> Demand(c, 0) < 0x1_0000_0000;
    assert U32(Supply(c, 0xFFFF)) == Supply(c, 0xFFFF) <==> Supply(c, 0xFFFF) < 0x1_0000_0000;
  }

  /** Market orders for 2^32 shares read as none, where ten could trade. */
  lemma SumsWrap()
    ensures var c := Curves([], [], [], [], 0x1_0000_0000, 10);
            U32(Demand(c, 50)) == 0 && Crossed(c, 50) == 10
  {
    NoLots(50);
  }

  lemma NoLots(p: int)
    ensures AtOrAbove([], p) == AtOrBelow([], p) == 0
  {
  }
}
