/** The order table and the book after a pair: at most one leg trades, neither fills the other's
target, and every resting entry still matches its order. */
module SettlePair {
  import opened Machine
  import opened Book
  import opened BookFacts
  import opened BookRuns
  import opened Weights
  import opened Settle

  /** What pair_precheck establishes, each leg's target resting on that leg's own side. */
  ghost predicate PairSettleable(s: Sides, table: Table, bidId: u32, askId: u32) {
    && bidId in table && askId in table && bidId != askId
    && LegSettleable(s, table, bidId) && LegSettleable(s, table, askId)
    && table[bidId].buy && !table[askId].buy
    && (table[bidId].PureCancel() <==> table[askId].PureCancel())
    && (!table[bidId].PureCancel() ==> table[bidId].price < table[askId].price)
    && (table[bidId].Pulls() ==> table[table[bidId].otherId].buy)
    && (table[askId].Pulls() ==> !table[table[askId].otherId].buy)
  }

  ghost predicate LegSettleable(s: Sides, table: Table, id: u32)
    requires id in table
  {
    var o := table[id];
    && HasTarget(o, table) && Orderly(o, id) && !o.market && o.Gtc()
    && Count(s.bids + s.asks, id) == 0
    && (o.Pulls() ==> Count(s.bids + s.asks, o.otherId) == 1)
  }

  /** The book after both targets went, and after the bid. */
  ghost function Clean(s: Sides, table: Table, bidId: u32, askId: u32): Sides
    requires bidId in table && HasTarget(table[bidId], table) && askId in table && HasTarget(table[askId], table)
  {
    Pull(s, Gone(table[bidId], table) + Gone(table[askId], table))
  }

  ghost function First(s: Sides, table: Table, bidId: u32, askId: u32): Outcome
    requires bidId in table && HasTarget(table[bidId], table) && askId in table && HasTarget(table[askId], table)
  {
    Step(Clean(s, table, bidId, askId), table, table[bidId], bidId)
  }

  ghost function Second(s: Sides, table: Table, bidId: u32, askId: u32): Outcome
    requires bidId in table && HasTarget(table[bidId], table) && askId in table && HasTarget(table[askId], table)
  {
    Step(First(s, table, bidId, askId).sides, table, table[askId], askId)
  }

  lemma CleanReady(s: Sides, table: Table, bidId: u32, askId: u32)
    requires SoundSides(s) && QuotedSides(s, table) && PairSettleable(s, table, bidId, askId)
    ensures var c := Clean(s, table, bidId, askId);
            && SoundSides(c) && QuotedSides(c, table)
            && Count(c.bids + c.asks, bidId) == 0 && Count(c.bids + c.asks, askId) == 0
    ensures var r := First(s, table, bidId, askId).sides;
            && SoundSides(r) && QuotedSides(r, table) && Count(r.bids + r.asks, askId) == 0
  {
    var gone := Gone(table[bidId], table) + Gone(table[askId], table);
    var c := Clean(s, table, bidId, askId);
    PullSound(s, gone);
    PullQuoted(s.bids, true, table, gone);
    PullQuoted(s.asks, false, table, gone);
    StepSound(c, table, table[bidId], bidId);
    StepQuoted(c, table, bidId);
    StepCounts(c, table, table[bidId], bidId, askId);
  }

  /** The bid's fills: resting asks at prices it accepts. */
  lemma BidFills(s: Sides, table: Table, bidId: u32, askId: u32, f: Fill)
    requires SoundSides(s) && QuotedSides(s, table) && PairSettleable(s, table, bidId, askId)
    requires f in First(s, table, bidId, askId).fills
    ensures f.id in table && !table[f.id].buy && table[f.id].price <= table[bidId].price < table[askId].price
    ensures f.id != bidId && f.id != askId && !table[bidId].PureCancel()
    ensures var c := Clean(s, table, bidId, askId); Count(c.bids + c.asks, f.id) > 0
  {
    CleanReady(s, table, bidId, askId);
    StepFillOk(Clean(s, table, bidId, askId), table, bidId, f);
  }

  /** The ask's fills: resting bids at prices it accepts, never the bid leg itself. */
  lemma AskFills(s: Sides, table: Table, bidId: u32, askId: u32, f: Fill)
    requires SoundSides(s) && QuotedSides(s, table) && PairSettleable(s, table, bidId, askId)
    requires f in Second(s, table, bidId, askId).fills
    ensures f.id in table && table[f.id].buy && table[bidId].price < table[askId].price <= table[f.id].price
    ensures f.id != bidId && f.id != askId && !table[askId].PureCancel()
    ensures var c := Clean(s, table, bidId, askId); Count(c.bids + c.asks, f.id) > 0
  {
    CleanReady(s, table, bidId, askId);
    StepFillOk(First(s, table, bidId, askId).sides, table, askId, f);
    StepCounts(Clean(s, table, bidId, askId), table, table[bidId], bidId, f.id);
  }

  /** A resting order sits on its side at its price. */
  lemma FoundAt(s: Sides, table: Table, x: u32) returns (l: Level)
    requires QuotedSides(s, table) && Count(s.bids + s.asks, x) > 0
    ensures x in table && l.price == table[x].price && if table[x].buy then l in s.bids else l in s.asks
  {
    var e;
    l, e := CountFind(s.bids + s.asks, x);
  }

  /** At most one leg trades. */
  lemma OneLegTrades(s: Sides, table: Table, bidId: u32, askId: u32)
    requires SoundSides(s) && QuotedSides(s, table) && PairSettleable(s, table, bidId, askId)
    ensures First(s, table, bidId, askId).fills == [] || Second(s, table, bidId, askId).fills == []
  {
    var f1, f2 := First(s, table, bidId, askId).fills, Second(s, table, bidId, askId).fills;
    if f1 != [] && f2 != [] {
      BidFills(s, table, bidId, askId, f1[0]);
      AskFills(s, table, bidId, askId, f2[0]);
      CleanReady(s, table, bidId, askId);
      var c := Clean(s, table, bidId, askId);
      var ask := FoundAt(c, table, f1[0].id);
      var bid := FoundAt(c, table, f2[0].id);
      SplitSound(c.bids, c.asks);
    }
  }

  /** Neither leg fills the other's target. */
  lemma TargetsSpared(s: Sides, table: Table, bidId: u32, askId: u32, f: Fill)
    requires SoundSides(s) && QuotedSides(s, table) && PairSettleable(s, table, bidId, askId)
    requires f in First(s, table, bidId, askId).fills || f in Second(s, table, bidId, askId).fills
    ensures table[bidId].Pulls() ==> f.id != table[bidId].otherId
    ensures table[askId].Pulls() ==> f.id != table[askId].otherId
  {
    var gone := Gone(table[bidId], table) + Gone(table[askId], table);
    PullCounts(s, gone, f.id);
    if f in First(s, table, bidId, askId).fills {
      BidFills(s, table, bidId, askId, f);
    } else {
      AskFills(s, table, bidId, askId, f);
    }
  }

  // ---------- Conservation ----------

  lemma {:induction false} PruneUnion(levels: seq<Level>, a: set<u32>, b: set<u32>)
    ensures Prune(Prune(levels, a), b) == Prune(levels, a + b)
  {
    if levels != [] {
      PruneUnion(levels[1..], a, b);
      KeepUnion(levels[0].orders, a, b);
      PruneConcat(PruneLevel(levels[0], a), Prune(levels[1..], a), b);
      if PruneLevel(levels[0], a) != [] {
        assert Prune(PruneLevel(levels[0], a), b) == PruneLevel(PruneLevel(levels[0], a)[0], b) + Prune(PruneLevel(levels[0], a)[1..], b);
      }
    }
  }

  lemma PullUnion(s: Sides, a: set<u32>, b: set<u32>)
    ensures Pull(Pull(s, a), b) == Pull(s, a + b)
  {
    PruneUnion(s.bids, a, b);
    PruneUnion(s.asks, a, b);
  }

  /** The shares a leg's target takes along when it leaves before the trading. */
  function GoneShares(s: Sides, table: Table, o: Order): nat
    requires HasTarget(o, table)
  {
    if o.Pulls() && !Shrinks(o, table[o.otherId]) then Held(s, o.otherId) else 0
  }

  lemma PullLeg(s: Sides, table: Table, o: Order, w: Weight)
    requires HasTarget(o, table)
    ensures WeighSides(Pull(s, Gone(o, table)), w) + GoneShares(s, table, o) * w(o.otherId) == WeighSides(s, w)
  {
    PullNothing(s, w);
    PullConserves(s, o.otherId, w);
  }

  lemma HeldApart(s: Sides, gone: set<u32>, x: u32, y: u32)
    requires gone <= {y} && x != y
    ensures Held(Pull(s, gone), x) == Held(s, x)
  {
    PullNothing(s, Only(x));
    PullConserves(s, y, Only(x));
    assert gone == {} || gone == {y};
  }

  lemma PullBoth(s: Sides, table: Table, bidId: u32, askId: u32, w: Weight)
    requires PairSettleable(s, table, bidId, askId)
    ensures var bid, ask := table[bidId], table[askId];
            WeighSides(Clean(s, table, bidId, askId), w) + GoneShares(s, table, bid) * w(bid.otherId) + GoneShares(s, table, ask) * w(ask.otherId)
            == WeighSides(s, w)
  {
    var bid, ask := table[bidId], table[askId];
    var g1, g2 := Gone(bid, table), Gone(ask, table);
    PullUnion(s, g1, g2);
    PullLeg(s, table, bid, w);
    PullLeg(Pull(s, g1), table, ask, w);
    if ask.Pulls() && bid.Pulls() {
      HeldApart(s, g1, ask.otherId, bid.otherId);
    } else {
      PullNothing(s, Only(ask.otherId));
    }
  }

  /** One leg on the book it finds. */
  lemma StepWeighs(s: Sides, table: Table, o: Order, id: u32, w: Weight)
    requires HasTarget(o, table) && o.Gtc()
    requires ShrinksInPlace(o, table) ==> Count(s.bids + s.asks, o.otherId) == 1
    ensures var r := Step(s, table, o, id);
            && 0 <= LeftResting(o, r.fills) && FillTotal(r.fills) <= o.quantity
            && WeighSides(r.sides, w) + WeighFills(r.fills, w) + (if ShrinksInPlace(o, table) then Held(s, o.otherId) * w(o.otherId) else 0)
               == WeighSides(s, w) + LeftResting(o, r.fills) * w(id)
  {
    if ShrinksInPlace(o, table) && !o.PureCancel() {
      SwapConserves(s, o.otherId, Entry(id, o.quantity), w);
    } else {
      StepPlain(s, table, o, id, w);
    }
  }

  /** A leg that shrinks in place finds its target untouched by the pulling. */
  lemma ShrinkTarget(s: Sides, table: Table, bidId: u32, askId: u32, id: u32)
    requires PairSettleable(s, table, bidId, askId) && id in {bidId, askId} && ShrinksInPlace(table[id], table)
    ensures var c := Clean(s, table, bidId, askId); var x := table[id].otherId;
            Count(c.bids + c.asks, x) == 1 && Held(c, x) == Held(s, x)
  {
    var x := table[id].otherId;
    LegTargets(s, table, bidId, askId);
    PullCounts(s, Gone(table[bidId], table) + Gone(table[askId], table), x);
    PullBoth(s, table, bidId, askId, Only(x));
  }

  lemma AskTargetStays(s: Sides, table: Table, bidId: u32, askId: u32)
    requires SoundSides(s) && QuotedSides(s, table) && PairSettleable(s, table, bidId, askId)
    requires ShrinksInPlace(table[askId], table)
    requires var c := Clean(s, table, bidId, askId); Count(c.bids + c.asks, table[askId].otherId) == 1
    requires ShrinksInPlace(table[bidId], table) ==>
               var c := Clean(s, table, bidId, askId); Count(c.bids + c.asks, table[bidId].otherId) == 1
    ensures var r := First(s, table, bidId, askId).sides; var x := table[askId].otherId;
            Count(r.bids + r.asks, x) == 1 && Held(r, x) == Held(Clean(s, table, bidId, askId), x)
  {
    var x := table[askId].otherId;
    var c, first := Clean(s, table, bidId, askId), First(s, table, bidId, askId);
    CleanReady(s, table, bidId, askId);
    forall f | f in first.fills
      ensures f.id != x
    {
      TargetsSpared(s, table, bidId, askId, f);
    }
    NoFillsOf(first.fills, x);
    StepWeighs(c, table, table[bidId], bidId, Only(x));
    HeldPositive(c, x);
    HeldIsResting(first.sides, x);
    if Count(first.sides.bids + first.sides.asks, x) == 0 {
      NoneRestingAnywhere(first.sides.bids + first.sides.asks, x);
    }
  }

  /** A resting order holds shares. */
  lemma HeldPositive(s: Sides, x: u32)
    requires SoundSides(s) && Count(s.bids + s.asks, x) == 1
    ensures Held(s, x) > 0
  {
    var l, e := CountFind(s.bids + s.asks, x);
    assert SoundLevel(l) && EntryOk(e);
    LevelResting(s.bids + s.asks, l, e);
    HeldIsResting(s, x);
  }

  /** A leg that shrinks in place still finds its target when its turn comes. */
  lemma ShrinksFound(s: Sides, table: Table, bidId: u32, askId: u32)
    requires SoundSides(s) && QuotedSides(s, table) && PairSettleable(s, table, bidId, askId)
    ensures var c, r := Clean(s, table, bidId, askId), First(s, table, bidId, askId).sides;
            && Found(s, c, table, table[bidId]) && Found(s, r, table, table[askId])
  {
    if ShrinksInPlace(table[bidId], table) {
      ShrinkTarget(s, table, bidId, askId, bidId);
    }
    if ShrinksInPlace(table[askId], table) {
      ShrinkTarget(s, table, bidId, askId, askId);
      AskTargetStays(s, table, bidId, askId);
    }
  }

  ghost predicate Found(s: Sides, now: Sides, table: Table, o: Order)
    requires HasTarget(o, table)
  {
    ShrinksInPlace(o, table) ==> Count(now.bids + now.asks, o.otherId) == 1 && Held(now, o.otherId) == Held(s, o.otherId)
  }

  /** One leg on the book it finds, with all its target's shares on the books. */
  lemma LegWeighs(s: Sides, now: Sides, table: Table, o: Order, id: u32, w: Weight)
    requires HasTarget(o, table) && o.Gtc() && Found(s, now, table, o)
    ensures var r := Step(now, table, o, id);
            && 0 <= LeftResting(o, r.fills) && FillTotal(r.fills) <= o.quantity
            && WeighSides(r.sides, w) + WeighFills(r.fills, w) + PulledShares(s, o) * w(o.otherId)
               == WeighSides(now, w) + LeftResting(o, r.fills) * w(id) + GoneShares(s, table, o) * w(o.otherId)
  {
    StepWeighs(now, table, o, id, w);
  }

  /** Nothing is created or lost by a pair. */
  lemma PairConserves(s: Sides, table: Table, bidId: u32, askId: u32, w: Weight)
    requires SoundSides(s) && QuotedSides(s, table) && PairSettleable(s, table, bidId, askId)
    ensures var bid, ask := table[bidId], table[askId];
            var f1, f2 := First(s, table, bidId, askId).fills, Second(s, table, bidId, askId).fills;
            && 0 <= LeftResting(bid, f1) && 0 <= LeftResting(ask, f2) && FillTotal(f1) <= bid.quantity && FillTotal(f2) <= ask.quantity
            && WeighSides(PairMessage(s, table, bidId, askId).sides, w) + WeighFills(f1, w) + WeighFills(f2, w)
               + PulledShares(s, bid) * w(bid.otherId) + PulledShares(s, ask) * w(ask.otherId)
               == WeighSides(s, w) + LeftResting(bid, f1) * w(bidId) + LeftResting(ask, f2) * w(askId)
  {
    ShrinksFound(s, table, bidId, askId);
    PullBoth(s, table, bidId, askId, w);
    LegWeighs(s, Clean(s, table, bidId, askId), table, table[bidId], bidId, w);
    LegWeighs(s, First(s, table, bidId, askId).sides, table, table[askId], askId, w);
  }

  // ---------- The table ----------

  function AfterPair(table: Table, bidId: u32, askId: u32, fills: seq<Fill>, taker: u32): Table
    requires bidId in table && askId in table
  {
    var t := AfterFills(table, fills, taker);
    var t1 := if table[bidId].Pulls() then Emptied(t, table[bidId].otherId) else t;
    if table[askId].Pulls() then Emptied(t1, table[askId].otherId) else t1
  }

  lemma AfterPairTerms(table: Table, bidId: u32, askId: u32, fills: seq<Fill>, taker: u32)
    requires bidId in table && askId in table
    ensures SameTerms(AfterPair(table, bidId, askId, fills, taker), table)
  {
    FillsKeepTerms(table, fills, taker);
    var t := AfterFills(table, fills, taker);
    EmptiedTerms(t, table[bidId].otherId);
    TermsChain(Emptied(t, table[bidId].otherId), t, table);
    var t1 := if table[bidId].Pulls() then Emptied(t, table[bidId].otherId) else t;
    EmptiedTerms(t1, table[askId].otherId);
    TermsChain(Emptied(t1, table[askId].otherId), t1, table);
  }

  /** The leg whose fills these are. */
  ghost predicate TakerOf(s: Sides, table: Table, bidId: u32, askId: u32, taker: u32)
    requires bidId in table && HasTarget(table[bidId], table) && askId in table && HasTarget(table[askId], table)
  {
    && taker in {bidId, askId}
    && (First(s, table, bidId, askId).fills != [] ==> taker == bidId)
    && (Second(s, table, bidId, askId).fills != [] ==> taker == askId)
  }

  /** Every fill of a pair is some resting third order's. */
  lemma PairFillIds(s: Sides, table: Table, bidId: u32, askId: u32)
    requires SoundSides(s) && QuotedSides(s, table) && PairSettleable(s, table, bidId, askId)
    ensures forall f | f in PairMessage(s, table, bidId, askId).fills ::
              && f.id in table && f.id != bidId && f.id != askId
              && (table[bidId].Pulls() ==> f.id != table[bidId].otherId)
              && (table[askId].Pulls() ==> f.id != table[askId].otherId)
  {
    forall f | f in PairMessage(s, table, bidId, askId).fills
      ensures f.id in table && f.id != bidId && f.id != askId
      ensures table[bidId].Pulls() ==> f.id != table[bidId].otherId
      ensures table[askId].Pulls() ==> f.id != table[askId].otherId
    {
      TargetsSpared(s, table, bidId, askId, f);
      if f in First(s, table, bidId, askId).fills {
        BidFills(s, table, bidId, askId, f);
      } else {
        AskFills(s, table, bidId, askId, f);
      }
    }
  }

  lemma PairHeld(s: Sides, table: Table, bidId: u32, askId: u32, taker: u32, x: u32)
    requires SoundSides(s) && Agrees(s, table) && PairSettleable(s, table, bidId, askId)
    requires TakerOf(s, table, bidId, askId, taker)
    ensures var m := PairMessage(s, table, bidId, askId); var now := AfterPair(table, bidId, askId, m.fills, taker);
            Held(m.sides, x) > 0 || Count(s.bids + s.asks, x) > 0 || (x in {bidId, askId} && !table[bidId].PureCancel()) ==>
              x in now && now[x].quantity == Held(m.sides, x)
  {
    hide SoundSides, WeighSides, WeighFills, FillTotal, AfterFills, Step, Pull;
    var f1, f2 := First(s, table, bidId, askId).fills, Second(s, table, bidId, askId).fills;
    PairFillIds(s, table, bidId, askId);
    OneLegTrades(s, table, bidId, askId);
    LegTargets(s, table, bidId, askId);
    PairOneHeld(s, table, bidId, askId, x);
    HeldQuantity(s, table, x);
    if x in {bidId, askId} {
      LegAfter(table, bidId, askId, x, f1, f2, taker);
    } else if x in table && WeighFills(f1 + f2, Only(x)) <= table[x].quantity {
      MakerAfter(table, f1 + f2, taker, x);
    }
  }

  /** One order's shares after the pair. */
  lemma PairOneHeld(s: Sides, table: Table, bidId: u32, askId: u32, x: u32)
    requires SoundSides(s) && QuotedSides(s, table) && PairSettleable(s, table, bidId, askId)
    ensures var bid, ask := table[bidId], table[askId];
            var f1, f2 := First(s, table, bidId, askId).fills, Second(s, table, bidId, askId).fills;
            && FillTotal(f1) <= bid.quantity && FillTotal(f2) <= ask.quantity
            && Held(PairMessage(s, table, bidId, askId).sides, x) + WeighFills(f1 + f2, Only(x))
               + (if bid.Pulls() && x == bid.otherId then Held(s, x) else 0) + (if ask.Pulls() && x == ask.otherId then Held(s, x) else 0)
               == Held(s, x) + (if x == bidId then LeftResting(bid, f1) else 0) + (if x == askId then LeftResting(ask, f2) else 0)
  {
    PairConserves(s, table, bidId, askId, Only(x));
    WeighFillsConcat(First(s, table, bidId, askId).fills, Second(s, table, bidId, askId).fills, Only(x));
  }

  /** A leg's quantity after the fill loop is what it has not traded. */
  lemma LegAfter(table: Table, bidId: u32, askId: u32, x: u32, f1: seq<Fill>, f2: seq<Fill>, taker: u32)
    requires bidId in table && askId in table && bidId != askId && x in {bidId, askId} && taker in {bidId, askId}
    requires f1 == [] || f2 == []
    requires f1 != [] ==> taker == bidId
    requires f2 != [] ==> taker == askId
    requires forall f | f in f1 + f2 :: f.id != bidId && f.id != askId
    requires FillTotal(f1) <= table[bidId].quantity && FillTotal(f2) <= table[askId].quantity
    ensures var now := AfterFills(table, f1 + f2, taker);
            x in now && now[x].quantity == table[x].quantity - FillTotal(if x == bidId then f1 else f2)
    ensures WeighFills(f1 + f2, Only(x)) == 0
  {
    NoFillsOf(f1 + f2, x);
    assert f1 + [] == f1 && [] + f2 == f2;
    if x == taker {
      TakerAfter(table, f1 + f2, taker);
    } else {
      MakerAfter(table, f1 + f2, taker, x);
    }
  }

  /** A leg's id is not a target, since targets rest. */
  lemma LegTargets(s: Sides, table: Table, bidId: u32, askId: u32)
    requires PairSettleable(s, table, bidId, askId)
    ensures table[bidId].Pulls() ==> table[bidId].otherId !in {bidId, askId}
    ensures table[askId].Pulls() ==> table[askId].otherId !in {bidId, askId}
    ensures table[bidId].Pulls() && table[askId].Pulls() ==> table[bidId].otherId != table[askId].otherId
  {
  }

  /** A pair keeps the book sound and the order table in step with it, entry by entry. */
  lemma PairAgrees(s: Sides, table: Table, bidId: u32, askId: u32, taker: u32)
    requires SoundSides(s) && Agrees(s, table) && PairSettleable(s, table, bidId, askId)
    requires TakerOf(s, table, bidId, askId, taker)
    ensures var m := PairMessage(s, table, bidId, askId);
            SoundSides(m.sides) && Agrees(m.sides, AfterPair(table, bidId, askId, m.fills, taker))
  {
    var m := PairMessage(s, table, bidId, askId);
    var now := AfterPair(table, bidId, askId, m.fills, taker);
    PairSound(s, table, bidId, askId);
    CleanReady(s, table, bidId, askId);
    StepQuoted(First(s, table, bidId, askId).sides, table, askId);
    AfterPairTerms(table, bidId, askId, m.fills, taker);
    QuotedSame(m.sides.bids, true, table, now);
    QuotedSame(m.sides.asks, false, table, now);
    forall x: u32 | Held(m.sides, x) > 0
      ensures x in now && now[x].quantity == Held(m.sides, x)
    {
      PairHeld(s, table, bidId, askId, taker, x);
    }
    CountedByHeld(m.sides, now);
  }

  /** Whoever is filled or pulled by a pair has no shares left in the table, and either leg has what rests. */
  lemma PairAccounts(s: Sides, table: Table, bidId: u32, askId: u32, taker: u32)
    requires SoundSides(s) && Agrees(s, table) && PairSettleable(s, table, bidId, askId)
    requires TakerOf(s, table, bidId, askId, taker)
    ensures var m := PairMessage(s, table, bidId, askId);
            Tallied(s, m.sides, AfterPair(table, bidId, askId, m.fills, taker), if table[bidId].PureCancel() then {} else {bidId, askId})
  {
    hide PairMessage, AfterPair, SoundSides, Count, TakerOf;
    forall x: u32 | Count(s.bids + s.asks, x) > 0 || (x in {bidId, askId} && !table[bidId].PureCancel())
      ensures var m := PairMessage(s, table, bidId, askId); var now := AfterPair(table, bidId, askId, m.fills, taker);
              x in now && now[x].quantity == Held(m.sides, x)
    {
      PairHeld(s, table, bidId, askId, taker, x);
    }
  }
}
