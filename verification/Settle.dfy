/** The order table and the book after one message: every resting entry still matches its order, and
every share is accounted for (the value side of server_order in src/server.c). */
module Settle {
  import opened Machine
  import opened Book
  import opened BookFacts
  import opened BookRuns
  import opened OneLeg
  import opened Weights

  // ---------- The order table agrees with the book ----------

  ghost predicate Quoted(levels: seq<Level>, buy: bool, table: Table) {
    forall l, e | l in levels && e in l.orders :: e.id in table && table[e.id].price == l.price && table[e.id].buy == buy
  }

  ghost predicate Counted(levels: seq<Level>, table: Table) {
    forall l, e | l in levels && e in l.orders :: e.id in table && table[e.id].quantity == e.qty
  }

  /** Each entry's price, side and size are its order's. */
  ghost predicate Agrees(s: Sides, table: Table) {
    Quoted(s.bids, true, table) && Quoted(s.asks, false, table) && Counted(s.bids + s.asks, table)
  }

  // ---------- What the fill loop does to the table ----------

  function Less(table: Table, id: u32, q: nat): Table {
    if id in table then table[id := table[id].(quantity := U16(table[id].quantity - q))] else table
  }

  /** Each fill comes off the maker's order and off the taker's. */
  function AfterFill(table: Table, f: Fill, taker: u32): Table {
    Less(Less(table, f.id, f.qty), taker, f.qty)
  }

  function AfterFills(table: Table, fills: seq<Fill>, taker: u32): Table {
    if fills == [] then table else AfterFills(AfterFill(table, fills[0], taker), fills[1..], taker)
  }

  /** The two tables differ at most in quantities. */
  ghost predicate SameTerms(a: Table, b: Table) {
    a.Keys == b.Keys && forall x | x in a :: a[x] == b[x].(quantity := a[x].quantity)
  }

  lemma LessKeepsTerms(table: Table, id: u32, q: nat)
    ensures SameTerms(Less(table, id, q), table)
  {
  }

  lemma TermsChain(a: Table, b: Table, c: Table)
    requires SameTerms(a, b) && SameTerms(b, c)
    ensures SameTerms(a, c)
  {
  }

  lemma {:induction false} FillsKeepTerms(table: Table, fills: seq<Fill>, taker: u32)
    ensures SameTerms(AfterFills(table, fills, taker), table)
  {
    if fills != [] {
      var f := fills[0];
      var once := Less(table, f.id, f.qty);
      LessKeepsTerms(table, f.id, f.qty);
      LessKeepsTerms(once, taker, f.qty);
      TermsChain(Less(once, taker, f.qty), once, table);
      FillsKeepTerms(AfterFill(table, f, taker), fills[1..], taker);
      TermsChain(AfterFills(table, fills, taker), AfterFill(table, f, taker), table);
    }
  }

  lemma LessAt(table: Table, id: u32, q: nat, x: u32)
    requires x in table && (id == x ==> q <= table[x].quantity)
    ensures x in Less(table, id, q)
    ensures Less(table, id, q)[x].quantity == if id == x then table[x].quantity - q else table[x].quantity
  {
    if id == x {
      U16Same(table[x].quantity - q);
    }
  }

  /** A maker loses exactly its fills, without wrapping. */
  lemma {:induction false} MakerAfter(table: Table, fills: seq<Fill>, taker: u32, x: u32)
    requires x in table && x != taker
    requires WeighFills(fills, Only(x)) <= table[x].quantity
    ensures x in AfterFills(table, fills, taker)
    ensures AfterFills(table, fills, taker)[x].quantity == table[x].quantity - WeighFills(fills, Only(x))
  {
    if fills != [] {
      var f := fills[0];
      LessAt(table, f.id, f.qty, x);
      LessAt(Less(table, f.id, f.qty), taker, f.qty, x);
      MakerAfter(AfterFill(table, f, taker), fills[1..], taker, x);
    }
  }

  /** The taker loses all of them. */
  lemma {:induction false} TakerAfter(table: Table, fills: seq<Fill>, taker: u32)
    requires taker in table && forall f | f in fills :: f.id != taker
    requires FillTotal(fills) <= table[taker].quantity
    ensures taker in AfterFills(table, fills, taker)
    ensures AfterFills(table, fills, taker)[taker].quantity == table[taker].quantity - FillTotal(fills)
  {
    if fills != [] {
      var f := fills[0];
      assert f in fills && forall g | g in fills[1..] :: g in fills;
      U16Same(table[taker].quantity - f.qty);
      TakerAfter(AfterFill(table, f, taker), fills[1..], taker);
    }
  }

  // ---------- Conservation of one message ----------

  function ShrinksInPlace(o: Order, table: Table): bool
    requires HasTarget(o, table)
  {
    o.canRep && Shrinks(o, table[o.otherId])
  }

  /** What is left of the incoming order in the book. */
  function LeftResting(o: Order, fills: seq<Fill>): int {
    if !o.PureCancel() && o.Gtc() then o.quantity - FillTotal(fills) else 0
  }

  /** An order's shares anywhere in the book. */
  function Held(s: Sides, x: u32): nat {
    WeighSides(s, Only(x))
  }

  lemma SubmitConserves(s: Sides, t: Order, id: u32, w: Weight)
    requires !t.PureCancel()
    ensures var r := Submit(s, t, id);
            && 0 <= LeftResting(t, r.fills)
            && FillTotal(r.fills) <= t.quantity
            && WeighSides(r.sides, w) + WeighFills(r.fills, w) == WeighSides(s, w) + LeftResting(t, r.fills) * w(id)
  {
    hide Sweep, Rest, Reverse, WeighLevels, WeighFills, FillTotal;
    var best := Opposite(s, t.buy);
    var sw := Sweep(best, t, t.quantity);
    SweepFills(best, t, t.quantity);
    SweepConserves(best, t, t.quantity, w);
    if sw.left > 0 && t.Gtc() {
      RestWeighs(Own(s, t.buy), t.price, Entry(id, sw.left), w);
    }
    if !t.buy {
      WeighReverse(s.bids, w);
      WeighReverse(sw.levels, w);
    }
  }

  /** A replacement in place trades the old size for the new one. */
  lemma SwapConserves(s: Sides, was: u32, e: Entry, w: Weight)
    requires Count(s.bids + s.asks, was) == 1
    ensures WeighSides(Sides(Swap(s.bids, was, e), Swap(s.asks, was, e)), w) + Held(s, was) * w(was)
            == WeighSides(s, w) + e.qty * w(e.id)
  {
    CountConcat(s.bids, s.asks, was);
    SwapLevelsWeigh(s.bids, was, e, w);
    SwapLevelsWeigh(s.asks, was, e, w);
    Distribute(SharesOf(s.bids, was), SharesOf(s.asks, was), w(was));
  }

  lemma PullNothing(s: Sides, w: Weight)
    ensures WeighSides(Pull(s, {}), w) == WeighSides(s, w)
  {
    PruneNothing(s.bids, w);
    PruneNothing(s.asks, w);
  }

  lemma PullConserves(s: Sides, x: u32, w: Weight)
    ensures WeighSides(Pull(s, {x}), w) + Held(s, x) * w(x) == WeighSides(s, w)
  {
    PruneWeighs(s.bids, x, w);
    PruneWeighs(s.asks, x, w);
    Distribute(SharesOf(s.bids, x), SharesOf(s.asks, x), w(x));
  }

  // ---------- Where the fills and the entries come from ----------

  lemma {:induction false} EatIds(orders: seq<Entry>, q: nat)
    ensures forall f | f in Eat(orders, q).fills :: Occurs(orders, f.id) > 0
    ensures forall e | e in Eat(orders, q).rest :: exists x :: x in orders && x.id == e.id
  {
    if orders != [] && q > 0 {
      assert orders[0] in orders && forall x | x in orders[1..] :: x in orders;
      if orders[0].qty <= q {
        EatIds(orders[1..], q - orders[0].qty);
      }
    }
  }

  /** Only resting orders are filled. */
  lemma {:induction false} FillIds(levels: seq<Level>, t: Order, q: nat)
    ensures forall f | f in Sweep(levels, t, q).fills :: Count(levels, f.id) > 0
  {
    if levels != [] && q > 0 && Crosses(t, levels[0].price) {
      EatIds(levels[0].orders, q);
      if Eat(levels[0].orders, q).rest == [] {
        FillIds(levels[1..], t, Eat(levels[0].orders, q).left);
      }
    }
  }

  lemma StepFillIds(s: Sides, table: Table, o: Order, id: u32, f: Fill)
    requires HasTarget(o, table) && f in Step(s, table, o, id).fills
    ensures Count(s.bids + s.asks, f.id) > 0
  {
    FillIds(Opposite(s, o.buy), o, o.quantity);
    CountConcat(s.bids, s.asks, f.id);
    CountReverse(s.bids, f.id);
  }

  lemma {:induction false} SweepQuoted(levels: seq<Level>, buy: bool, table: Table, t: Order, q: nat)
    requires Quoted(levels, buy, table)
    ensures Quoted(Sweep(levels, t, q).levels, buy, table)
  {
    if levels != [] && q > 0 && Crosses(t, levels[0].price) {
      assert levels[0] in levels && forall l | l in levels[1..] :: l in levels;
      EatIds(levels[0].orders, q);
      var e := Eat(levels[0].orders, q);
      if e.rest == [] {
        SweepQuoted(levels[1..], buy, table, t, e.left);
      } else {
        assert forall l | l in [At(levels[0].price, e.rest)] + levels[1..] :: l == At(levels[0].price, e.rest) || l in levels;
      }
    }
  }

  lemma ReverseQuoted(levels: seq<Level>, buy: bool, table: Table)
    ensures Quoted(levels, buy, table) <==> Quoted(Reverse(levels), buy, table)
  {
    forall l: Level
      ensures l in levels <==> l in Reverse(levels)
    {
      ReverseMember(levels, l);
    }
  }

  lemma {:induction false} RestQuoted(levels: seq<Level>, buy: bool, table: Table, price: u16, e: Entry)
    requires Quoted(levels, buy, table)
    requires e.id in table && table[e.id].price == price && table[e.id].buy == buy
    ensures Quoted(Rest(levels, price, e), buy, table)
  {
    var r := Rest(levels, price, e);
    if levels == [] || price < levels[0].price {
      assert forall l | l in r :: l == At(price, [e]) || l in levels;
    } else if price == levels[0].price {
      assert levels[0] in levels;
      assert forall l | l in r :: l == At(price, levels[0].orders + [e]) || l in levels;
    } else {
      assert levels[0] in levels && forall l | l in levels[1..] :: l in levels;
      RestQuoted(levels[1..], buy, table, price, e);
      assert forall l | l in r :: l == levels[0] || l in Rest(levels[1..], price, e);
    }
  }

  lemma {:induction false} SwapIds(orders: seq<Entry>, was: u32, e: Entry, x: Entry)
    requires x in SwapEntry(orders, was, e)
    ensures x in orders || (x == e && Occurs(orders, was) > 0)
  {
    if orders[0].id == was {
      assert x == e || x in orders[1..];
    } else if x != orders[0] {
      SwapIds(orders[1..], was, e, x);
    }
  }

  lemma {:induction false} SwapQuoted(levels: seq<Level>, buy: bool, table: Table, was: u32, e: Entry)
    requires Quoted(levels, buy, table)
    requires was in table && e.id in table && table[e.id].price == table[was].price && table[e.id].buy == table[was].buy
    ensures Quoted(Swap(levels, was, e), buy, table)
  {
    if levels != [] {
      assert levels[0] in levels && forall l | l in levels[1..] :: l in levels;
      SwapQuoted(levels[1..], buy, table, was, e);
      var first := At(levels[0].price, SwapEntry(levels[0].orders, was, e));
      forall x | x in first.orders
        ensures x.id in table && table[x.id].price == first.price && table[x.id].buy == buy
      {
        SwapIds(levels[0].orders, was, e, x);
        OccursMember(levels[0].orders, was);
      }
    }
  }

  lemma PullQuoted(levels: seq<Level>, buy: bool, table: Table, gone: set<u32>)
    requires Quoted(levels, buy, table)
    ensures Quoted(Prune(levels, gone), buy, table)
  {
    forall l, e | l in Prune(levels, gone) && e in l.orders
      ensures e.id in table && table[e.id].price == l.price && table[e.id].buy == buy
    {
      PruneMember(levels, gone, l);
      var m :| m in levels && m.price == l.price && l == At(m.price, Keep(m.orders, gone)) && l.orders != [];
      KeepMember(m.orders, gone, e);
    }
  }

  ghost predicate QuotedSides(s: Sides, table: Table) {
    Quoted(s.bids, true, table) && Quoted(s.asks, false, table)
  }

  lemma StepQuoted(s: Sides, table: Table, id: u32)
    requires id in table && HasTarget(table[id], table) && QuotedSides(s, table)
    ensures QuotedSides(Step(s, table, table[id], id).sides, table)
  {
    var o := table[id];
    if o.PureCancel() {
    } else if ShrinksInPlace(o, table) {
      SwapQuoted(s.bids, true, table, o.otherId, Entry(id, o.quantity));
      SwapQuoted(s.asks, false, table, o.otherId, Entry(id, o.quantity));
    } else {
      var best := Opposite(s, o.buy);
      ReverseQuoted(s.bids, true, table);
      SweepQuoted(best, !o.buy, table, o, o.quantity);
      var w := Sweep(best, o, o.quantity);
      ReverseQuoted(w.levels, true, table);
      if w.left > 0 && o.Gtc() {
        RestQuoted(Own(s, o.buy), o.buy, table, o.price, Entry(id, w.left));
      }
    }
  }

  // ---------- Counting shares instead of entries ----------

  lemma HeldIsResting(s: Sides, x: u32)
    ensures Held(s, x) == SharesOf(s.bids + s.asks, x)
  {
    WeighLevelsConcat(s.bids, s.asks, Only(x));
  }

  /** In a sound book that the table agrees with, an order's shares are its table quantity. */
  lemma HeldQuantity(s: Sides, table: Table, x: u32)
    requires SoundSides(s) && Counted(s.bids + s.asks, table)
    ensures Count(s.bids + s.asks, x) > 0 ==> x in table && Held(s, x) == table[x].quantity > 0
    ensures Count(s.bids + s.asks, x) == 0 ==> Held(s, x) == 0
  {
    var all := s.bids + s.asks;
    HeldIsResting(s, x);
    if Count(all, x) == 0 {
      NoneRestingAnywhere(all, x);
    } else {
      var l, e := CountFind(all, x);
      assert SoundLevel(l);
      LevelResting(all, l, e);
    }
  }

  lemma {:induction false} CountFind(levels: seq<Level>, x: u32) returns (l: Level, e: Entry)
    requires Count(levels, x) > 0
    ensures l in levels && e in l.orders && e.id == x
  {
    if Occurs(levels[0].orders, x) > 0 {
      OccursMember(levels[0].orders, x);
      l := levels[0];
      e :| e in l.orders && e.id == x;
    } else {
      l, e := CountFind(levels[1..], x);
    }
  }

  /** The other way round: if the share counts agree, so does every entry. */
  lemma CountedByHeld(s: Sides, table: Table)
    requires SoundSides(s)
    requires forall x: u32 | Held(s, x) > 0 :: x in table && table[x].quantity == Held(s, x)
    ensures Counted(s.bids + s.asks, table)
  {
    var all := s.bids + s.asks;
    forall l, e | l in all && e in l.orders
      ensures e.id in table && table[e.id].quantity == e.qty
    {
      assert SoundLevel(l) && EntryOk(e);
      LevelResting(all, l, e);
      HeldIsResting(s, e.id);
    }
  }

  // ---------- One message ----------

  /** What settling can rely on: the order is new, its target rests, and a replacement in its
  target's own slot rests its remainder. */
  ghost predicate Settleable(s: Sides, table: Table, id: u32) {
    && id in table && HasTarget(table[id], table)
    && Orderly(table[id], id)
    && Count(s.bids + s.asks, id) == 0
    && var o := table[id];
       (o.Pulls() ==> Count(s.bids + s.asks, o.otherId) == 1 && (SameSlot(o, table[o.otherId]) ==> o.Gtc()))
  }

  function Emptied(table: Table, id: u32): Table {
    if id in table then table[id := table[id].(quantity := 0)] else table
  }

  /** The table when server_order is done: makers and taker less their fills, an IOC or FOK order's
  remainder wiped, the target wiped. */
  function AfterMessage(table: Table, id: u32, fills: seq<Fill>): Table
    requires id in table
  {
    var t := AfterFills(table, fills, id);
    var t1 := if table[id].Gtc() then t else Emptied(t, id);
    if table[id].Pulls() then Emptied(t1, table[id].otherId) else t1
  }

  /** Shares of the target that leave with it. */
  function PulledShares(s: Sides, o: Order): nat {
    if o.Pulls() then Held(s, o.otherId) else 0
  }

  lemma StepPlain(s: Sides, table: Table, o: Order, id: u32, w: Weight)
    requires HasTarget(o, table) && !ShrinksInPlace(o, table)
    ensures var r := Step(s, table, o, id);
            && 0 <= LeftResting(o, r.fills) && FillTotal(r.fills) <= o.quantity
            && WeighSides(r.sides, w) + WeighFills(r.fills, w) == WeighSides(s, w) + LeftResting(o, r.fills) * w(id)
  {
    if !o.PureCancel() {
      SubmitConserves(s, o, id, w);
    }
  }

  lemma PulledWeighs(s: Sides, o: Order, w: Weight)
    ensures WeighSides(Pull(s, o.Pulled()), w) + PulledShares(s, o) * w(o.otherId) == WeighSides(s, w)
  {
    if o.Pulls() {
      PullConserves(s, o.otherId, w);
    } else {
      PullNothing(s, w);
    }
  }

  lemma ShrinkConserves(s: Sides, table: Table, id: u32, w: Weight)
    requires SoundSides(s) && Settleable(s, table, id) && ShrinksInPlace(table[id], table) && table[id].Pulls()
    ensures var o := table[id]; var m := Step(Pull(s, {}), table, o, id);
            && m.fills == [] && LeftResting(o, m.fills) == o.quantity
            && WeighSides(m.sides, w) + PulledShares(s, o) * w(o.otherId) == WeighSides(s, w) + o.quantity * w(id)
  {
    var o := table[id];
    PullNothing(s, w);
    PullNothing(s, Only(o.otherId));
    PullCounts(s, {}, o.otherId);
    SwapConserves(Pull(s, {}), o.otherId, Entry(id, o.quantity), w);
  }

  /** Nothing is created or lost by a message. */
  lemma MessageConserves(s: Sides, table: Table, id: u32, w: Weight)
    requires SoundSides(s) && Settleable(s, table, id)
    ensures var o := table[id]; var m := Message(s, table, id);
            && 0 <= LeftResting(o, m.fills) && FillTotal(m.fills) <= o.quantity
            && WeighSides(m.sides, w) + WeighFills(m.fills, w) + PulledShares(s, o) * w(o.otherId)
               == WeighSides(s, w) + LeftResting(o, m.fills) * w(id)
  {
    var o := table[id];
    if ShrinksInPlace(o, table) {
      ShrinkConserves(s, table, id, w);
    } else {
      PulledWeighs(s, o, w);
      StepPlain(Pull(s, o.Pulled()), table, o, id, w);
    }
  }

  lemma PullCounts(s: Sides, gone: set<u32>, x: u32)
    ensures var p := Pull(s, gone); Count(p.bids + p.asks, x) == if x in gone then 0 else Count(s.bids + s.asks, x)
  {
    PruneConcat(s.bids, s.asks, gone);
    CountPrune(s.bids + s.asks, gone, x);
  }

  /** Every fill is of an order that rests, stays, and trades at a price the taker accepts. */
  ghost predicate FillOk(f: Fill, s: Sides, table: Table, o: Order, id: u32) {
    && f.id in table && f.id != id
    && (o.Pulls() ==> f.id != o.otherId)
    && table[f.id].buy != o.buy
    && Crosses(o, table[f.id].price)
    && Count(s.bids + s.asks, f.id) > 0
  }

  lemma {:induction false} SweepFillOk(levels: seq<Level>, buy: bool, table: Table, t: Order, q: nat)
    requires Quoted(levels, buy, table)
    ensures forall f | f in Sweep(levels, t, q).fills :: f.id in table && table[f.id].buy == buy && Crosses(t, table[f.id].price)
  {
    if levels != [] && q > 0 && Crosses(t, levels[0].price) {
      assert levels[0] in levels && forall l | l in levels[1..] :: l in levels;
      EatIds(levels[0].orders, q);
      forall f | f in Eat(levels[0].orders, q).fills
        ensures f.id in table && table[f.id].buy == buy && Crosses(t, table[f.id].price)
      {
        OccursMember(levels[0].orders, f.id);
      }
      if Eat(levels[0].orders, q).rest == [] {
        SweepFillOk(levels[1..], buy, table, t, Eat(levels[0].orders, q).left);
      }
    }
  }

  lemma StepFillOk(s: Sides, table: Table, id: u32, f: Fill)
    requires id in table && HasTarget(table[id], table) && QuotedSides(s, table)
    requires f in Step(s, table, table[id], id).fills
    ensures f.id in table && table[f.id].buy != table[id].buy && Crosses(table[id], table[f.id].price)
    ensures Count(s.bids + s.asks, f.id) > 0
  {
    var o := table[id];
    StepFillIds(s, table, o, id, f);
    ReverseQuoted(s.bids, true, table);
    SweepFillOk(Opposite(s, o.buy), !o.buy, table, o, o.quantity);
  }

  lemma MessageFillOk(s: Sides, table: Table, id: u32, f: Fill)
    requires SoundSides(s) && Agrees(s, table) && Settleable(s, table, id)
    requires f in Message(s, table, id).fills
    ensures FillOk(f, s, table, table[id], id)
  {
    var gone := Gone(table[id], table);
    PullQuoted(s.bids, true, table, gone);
    PullQuoted(s.asks, false, table, gone);
    StepFillOk(Pull(s, gone), table, id, f);
    PullCounts(s, gone, f.id);
  }

  /** After the message, an order's shares in the book are its table quantity: also when none are left, of
  an order that rested before or of the one that came. */
  lemma MessageHeld(s: Sides, table: Table, id: u32, x: u32)
    requires SoundSides(s) && Agrees(s, table) && Settleable(s, table, id)
    ensures var m := Message(s, table, id); var now := AfterMessage(table, id, m.fills);
            Held(m.sides, x) > 0 || Count(s.bids + s.asks, x) > 0 || (x == id && !table[id].PureCancel()) ==>
              x in now && now[x].quantity == Held(m.sides, x)
  {
    var o, m := table[id], Message(s, table, id);
    MessageConserves(s, table, id, Only(x));
    HeldQuantity(s, table, x);
    FillsKeepTerms(table, m.fills, id);
    forall f | f in m.fills
      ensures f.id != id
    {
      MessageFillOk(s, table, id, f);
    }
    if x == id {
      NoFillsOf(m.fills, id);
      TakerAfter(table, m.fills, id);
      if o.Pulls() {
        HeldQuantity(s, table, o.otherId);
      }
    } else if x in table && WeighFills(m.fills, Only(x)) <= table[x].quantity {
      MakerAfter(table, m.fills, id, x);
    }
  }

  /** The table's quantities are the shares in the book, of every order that rested or came just now. */
  ghost predicate Tallied(s: Sides, after: Sides, now: Table, came: set<u32>) {
    forall x: u32 | Count(s.bids + s.asks, x) > 0 || x in came :: x in now && now[x].quantity == Held(after, x)
  }

  /** Whoever is filled, pulled, or not to rest has none left. */
  lemma MessageAccounts(s: Sides, table: Table, id: u32)
    requires SoundSides(s) && Agrees(s, table) && Settleable(s, table, id)
    ensures var m := Message(s, table, id);
            Tallied(s, m.sides, AfterMessage(table, id, m.fills), if table[id].PureCancel() then {} else {id})
  {
    hide Message, AfterMessage, SoundSides, Count;
    forall x: u32 | Count(s.bids + s.asks, x) > 0 || (x == id && !table[id].PureCancel())
      ensures var m := Message(s, table, id); var now := AfterMessage(table, id, m.fills);
              x in now && now[x].quantity == Held(m.sides, x)
    {
      MessageHeld(s, table, id, x);
    }
  }

  lemma {:induction false} NoFillsOf(fills: seq<Fill>, x: u32)
    requires forall f | f in fills :: f.id != x
    ensures WeighFills(fills, Only(x)) == 0
  {
    if fills != [] {
      assert fills[0] in fills && forall f | f in fills[1..] :: f in fills;
      NoFillsOf(fills[1..], x);
    }
  }

  lemma QuotedSame(levels: seq<Level>, buy: bool, was: Table, now: Table)
    requires Quoted(levels, buy, was) && SameTerms(now, was)
    ensures Quoted(levels, buy, now)
  {
  }

  lemma AfterMessageTerms(table: Table, id: u32, fills: seq<Fill>)
    requires id in table
    ensures SameTerms(AfterMessage(table, id, fills), table)
  {
    FillsKeepTerms(table, fills, id);
    var t := AfterFills(table, fills, id);
    EmptiedTerms(t, id);
    TermsChain(Emptied(t, id), t, table);
    var t1 := if table[id].Gtc() then t else Emptied(t, id);
    EmptiedTerms(t1, table[id].otherId);
    TermsChain(Emptied(t1, table[id].otherId), t1, table);
  }

  lemma EmptiedTerms(table: Table, id: u32)
    ensures SameTerms(Emptied(table, id), table)
  {
  }

  /** A message keeps the book sound and the order table in step with it, entry by entry. */
  lemma MessageAgrees(s: Sides, table: Table, id: u32)
    requires SoundSides(s) && Agrees(s, table) && Settleable(s, table, id)
    ensures var m := Message(s, table, id);
            SoundSides(m.sides) && Agrees(m.sides, AfterMessage(table, id, m.fills))
  {
    var m := Message(s, table, id);
    var now := AfterMessage(table, id, m.fills);
    MessageSound(s, table, id);
    var gone := Gone(table[id], table);
    PullQuoted(s.bids, true, table, gone);
    PullQuoted(s.asks, false, table, gone);
    StepQuoted(Pull(s, gone), table, id);
    AfterMessageTerms(table, id, m.fills);
    QuotedSame(m.sides.bids, true, table, now);
    QuotedSame(m.sides.asks, false, table, now);
    forall x: u32 | Held(m.sides, x) > 0
      ensures x in now && now[x].quantity == Held(m.sides, x)
    {
      MessageHeld(s, table, id, x);
    }
    CountedByHeld(m.sides, now);
  }
}
