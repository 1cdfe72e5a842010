/** One side of a rewrite: resolving its cancel, copying the untouched levels around it and
serializing its op (ob_side_init, ob_copy_range, ob_copy_cut and ob_apply_op of src/ob.c). */
module Rewrite {
  import opened Machine
  import opened Book
  import opened BookFacts
  import opened Snapshot
  import opened SnapshotWriter
  import opened Ranges

  /** OBSide: the request, and where its cancel rests in the old book. */
  datatype Side = Side(
    rep: Order,
    orderId: u32,
    target: Target,       // the order other_id names, when the request cancels or replaces
    cancelIndex: u16,     // the old level it rests on
    cancelWasSole: bool)  // was it alone there
  {
    predicate Pulls() {
      target.Target?
    }

    /** Which of the two level-local ops a same-slot replacement takes. */
    predicate InPlace() {
      target.Target? && SameSlot(rep, target.order)
    }

    /** The target this side's trading must step around: only a replacement has one. */
    function Own(): Target {
      if rep.canRep then target else NoTarget
    }
  }

  /** The order rests in the book as the order table says. */
  ghost predicate Resting(levels: seq<Level>, bids: nat, table: Table, id: u32) {
    && id in table
    && exists i :: RestsAt(levels, i, id, table[id].quantity) && levels[i].price == table[id].price && (table[id].buy <==> i < bids)
  }

  /** What the server checks before it hands an order to the book (cancel_precheck, add_precheck). */
  ghost predicate Accepted(levels: seq<Level>, bids: nat, table: Table, o: Order) {
    && (o.Pulls() ==> Resting(levels, bids, table, o.otherId))
    && o.Sized()
    && (o.market && !o.PureCancel() ==> !o.Gtc())
  }

  /** The side knows where its cancel rests. */
  ghost predicate Located(levels: seq<Level>, bids: nat, s: Side) {
    && (s.rep.Pulls() <==> s.target.Target?)
    && (s.target.Target? ==>
          && s.target.id == s.rep.otherId
          && s.cancelIndex < |levels|
          && RestsAt(levels, s.cancelIndex, s.target.id, s.target.order.quantity)
          && levels[s.cancelIndex].price == s.target.order.price
          && (s.target.order.buy <==> s.cancelIndex < bids)
          && (s.cancelWasSole <==> Keep(levels[s.cancelIndex].orders, {s.target.id}) == []))
  }

  lemma SoleByQuantity(l: Level, e: Entry)
    requires LevelOk(l) && e in l.orders && Occurs(l.orders, e.id) <= 1
    ensures l.quantity == e.qty <==> Keep(l.orders, {e.id}) == []
  {
    KeepOne(l.orders, e);
    var kept := Keep(l.orders, {e.id});
    if kept != [] {
      KeepMember(l.orders, {e.id}, kept[0]);
    }
  }

  /** ob_side_init with ob_locate_cancel. */
  method SideInit(table: Table, m: Mbo, ghost levels: seq<Level>, ghost bids: nat, id: u32) returns (s: Side)
    requires OldBook(m, levels, bids)
    requires id in table && Accepted(levels, bids, table, table[id])
    ensures Located(levels, bids, s) && s.rep == table[id] && s.orderId == id
    ensures s.target.Target? ==> s.target.order == table[s.target.id]
  {
    var rep := table[id];
    if !rep.Pulls() {
      return Side(rep, id, NoTarget, 0, false);
    }
    var can := table[rep.otherId];
    ghost var at :| RestsAt(levels, at, rep.otherId, can.quantity) && levels[at].price == can.price && (can.buy <==> at < bids);
    StoredIndexed(m, levels);
    var i := 0;
    while m.index[i].price != can.price
      invariant 0 <= i <= at
    {
      i := i + 1;
    }
    assert i == at;
    assert levels[i] in levels;
    OnlyThere(levels, i, rep.otherId, can.quantity, i);
    SoleByQuantity(levels[i], Entry(rep.otherId, can.quantity));
    s := Side(rep, id, Target(rep.otherId, can), i, m.index[i].quantity == can.quantity);
  }

  // ---------- Copying what is untouched ----------

  /** The ids the copy ranges watch for. */
  function CancelIds(sides: seq<Side>): set<u32> {
    if sides == [] then {}
    else (if sides[0].Pulls() then {sides[0].target.id} else {}) + CancelIds(sides[1..])
  }

  lemma {:induction false} CancelIdsMember(sides: seq<Side>, id: u32)
    ensures id in CancelIds(sides) <==> exists s :: s in sides && s.Pulls() && s.target.id == id
  {
    if sides != [] {
      CancelIdsMember(sides[1..], id);
      assert sides == [sides[0]] + sides[1..];
    }
  }

  /** One or two sides; two cancels sit on different levels. */
  ghost predicate SidesOk(levels: seq<Level>, bids: nat, sides: seq<Side>) {
    && (forall s | s in sides :: Located(levels, bids, s))
    && (forall a, b | a in sides && b in sides && a != b && a.Pulls() && b.Pulls() :: a.cancelIndex != b.cancelIndex)
  }

  /** A run no cancel rests in is copied as it is. */
  lemma UncutRun(levels: seq<Level>, bids: nat, sides: seq<Side>, i: nat, j: nat)
    requires BookOk(levels) && SidesOk(levels, bids, sides) && i <= j <= |levels|
    requires forall s | s in sides && s.Pulls() :: !(i <= s.cancelIndex < j)
    ensures Prune(levels[i..j], CancelIds(sides)) == levels[i..j]
  {
    var run := levels[i..j];
    forall l, e | l in run && e in l.orders
      ensures e.id !in CancelIds(sides)
    {
      CancelIdsMember(sides, e.id);
      var k :| i <= k < j && levels[k] == l;
      if s :| s in sides && s.Pulls() && s.target.id == e.id {
        OnlyThere(levels, s.cancelIndex, e.id, s.target.order.quantity, k);
        OccursMember(l.orders, e.id);
      }
    }
    PruneNone(run, CancelIds(sides));
  }

  /** The level of a cancel loses exactly that order. */
  lemma CutLevel(levels: seq<Level>, bids: nat, sides: seq<Side>, s: Side)
    requires BookOk(levels) && SidesOk(levels, bids, sides) && s in sides && s.Pulls()
    ensures Keep(levels[s.cancelIndex].orders, CancelIds(sides)) == Keep(levels[s.cancelIndex].orders, {s.target.id})
  {
    var l := levels[s.cancelIndex];
    CancelIdsMember(sides, s.target.id);
    forall e | e in l.orders
      ensures e.id in CancelIds(sides) <==> e.id == s.target.id
    {
      CancelIdsMember(sides, e.id);
      if b :| b in sides && b.Pulls() && b.target.id == e.id && e.id != s.target.id {
        OnlyThere(levels, b.cancelIndex, e.id, b.target.order.quantity, s.cancelIndex);
        OccursMember(l.orders, e.id);
      }
    }
    KeepSame(l.orders, CancelIds(sides), {s.target.id});
  }

  lemma {:induction false} KeepSame(orders: seq<Entry>, a: set<u32>, b: set<u32>)
    requires forall e | e in orders :: e.id in a <==> e.id in b
    ensures Keep(orders, a) == Keep(orders, b)
  {
    if orders != [] {
      KeepSame(orders[1..], a, b);
    }
  }

  /** cuts lists, in order, the levels inside [from, to) where a cancel rests. */
  ghost predicate CutsOf(sides: seq<Side>, from: nat, to: nat, cuts: seq<u16>) {
    && (forall i, j | 0 <= i < j < |cuts| :: cuts[i] < cuts[j])
    && (forall c: u16 :: c in cuts <==> from <= c < to && exists s :: s in sides && s.Pulls() && s.cancelIndex == c)
  }

  method Cuts(sides: seq<Side>, from: u16, to: u16) returns (cuts: seq<u16>)
    requires |sides| <= 2
    ensures CutsOf(sides, from, to, cuts)
    ensures forall j | 0 <= j < |cuts| :: from <= cuts[j] < to
  {
    cuts := [];
    for i := 0 to |sides|
      invariant |cuts| <= i
      invariant forall k, j | 0 <= k < j < |cuts| :: cuts[k] != cuts[j]
      invariant forall c: u16 :: c in cuts <==> from <= c < to && exists s :: s in sides[..i] && s.Pulls() && s.cancelIndex == c
    {
      assert sides[..i + 1] == sides[..i] + [sides[i]];
      if sides[i].Pulls() && from <= sides[i].cancelIndex < to && sides[i].cancelIndex !in cuts {
        cuts := cuts + [sides[i].cancelIndex];
      }
    }
    assert sides[..|sides|] == sides;
    if |cuts| == 2 && cuts[0] > cuts[1] {
      ghost var was := cuts;
      cuts := [cuts[1], cuts[0]];
      forall c: u16
        ensures c in cuts <==> c in was
      {
        assert cuts == [was[1], was[0]] && was == [was[0], was[1]];
        assert c in cuts <==> c == was[1] || c == was[0];
      }
    }
    assert forall j | 0 <= j < |cuts| :: cuts[j] in cuts;
  }

  /** ob_copy_cut: the level of a cancel is spliced, or dropped when the cancel was alone there. */
  method CopyCut(from: Cursor, to: Writer, ghost bids: nat, sides: seq<Side>)
    requires from.Valid() && to.Valid() && to.open == []
    requires BookOk(from.levels) && SidesOk(from.levels, bids, sides)
    requires from.index < |from.levels|
    requires exists s :: s in sides && s.Pulls() && s.cancelIndex == from.index
    modifies from, to
    ensures from.Valid() && from.index == old(from.index) + 1
    ensures to.Valid() && to.open == []
    ensures to.levels == old(to.levels) + PruneLevel(from.levels[old(from.index)], CancelIds(sides))
  {
    ghost var levels, at := from.levels, from.index;
    var k := FindCut(from, bids, sides);
    var s := sides[k];
    CutLevel(levels, bids, sides, s);
    assert levels[at] in levels;
    if s.cancelWasSole {
      assert to.levels + [] == to.levels;
    } else {
      to.SpliceLevel(from, s.target.id);
      KeepShrinks(levels[at].orders, {s.target.id});
      to.Jump();
    }
    from.Jump();
  }

  /** The first side whose cancel has the price of the current level. */
  method FindCut(from: Cursor, ghost bids: nat, sides: seq<Side>) returns (k: nat)
    requires from.Valid() && from.index < |from.levels|
    requires BookOk(from.levels) && SidesOk(from.levels, bids, sides)
    requires exists s :: s in sides && s.Pulls() && s.cancelIndex == from.index
    ensures k < |sides| && sides[k].Pulls() && sides[k].cancelIndex == from.index
  {
    k := 0;
    while !(sides[k].Pulls() && from.Metadata().price == sides[k].target.order.price)
      invariant 0 <= k < |sides|
      invariant exists s :: s in sides[k..] && s.Pulls() && s.cancelIndex == from.index
      decreases |sides| - k
    {
      assert sides[k..] == [sides[k]] + sides[k + 1..];
      assert sides[k] in sides;
      k := k + 1;
    }
    assert sides[k] in sides;
  }

  /** ob_copy_range: old levels [start, stop) with every watched cancel spliced out. */
  method CopyRange(from: Cursor, to: Writer, ghost bids: nat, start: u16, stop: u16, sides: seq<Side>)
    requires from.Valid() && to.Valid() && to.open == []
    requires BookOk(from.levels) && SidesOk(from.levels, bids, sides) && |sides| <= 2
    requires start <= stop <= |from.levels|
    modifies from, to
    ensures from.Valid() && from.index == stop
    ensures to.Valid() && to.open == []
    ensures to.levels == old(to.levels) + Prune(from.levels[start..stop], CancelIds(sides))
  {
    ghost var levels, gone, was := from.levels, CancelIds(sides), to.levels;
    from.ToIndex(start);
    if stop <= start {
      assert levels[start..stop] == [] && was + [] == was;
      return;
    }
    var cuts := Cuts(sides, start, stop);
    var at := start;
    assert levels[start..at] == [] && was + [] == was;
    hide BookOk, SidesOk, CutsOf, Prune;
    for k := 0 to |cuts|
      invariant start <= at <= stop && from.Valid() && from.index == at
      invariant to.Valid() && to.open == []
      invariant to.levels == was + Prune(levels[start..at], gone)
      invariant forall j | 0 <= j < |cuts| :: if j < k then cuts[j] < at else at <= cuts[j] < stop
    {
      CopyToCut(from, to, bids, sides, cuts, k, start, at, stop, was);
      at := cuts[k] + 1;
    }
    CopyTail(from, to, bids, sides, cuts, start, at, stop, was);
  }

  /** The run after the last cut. */
  method CopyTail(from: Cursor, to: Writer, ghost bids: nat, ghost sides: seq<Side>, ghost cuts: seq<u16>,
                  ghost start: nat, at: u16, stop: u16, ghost was: seq<Level>)
    requires from.Valid() && to.Valid() && to.open == []
    requires BookOk(from.levels) && SidesOk(from.levels, bids, sides) && CutsOf(sides, start, stop, cuts)
    requires start <= at <= stop <= |from.levels| && from.index == at
    requires forall j | 0 <= j < |cuts| :: cuts[j] < at
    requires to.levels == was + Prune(from.levels[start..at], CancelIds(sides))
    modifies from, to
    ensures from.Valid() && from.index == stop
    ensures to.Valid() && to.open == []
    ensures to.levels == was + Prune(from.levels[start..stop], CancelIds(sides))
  {
    UncutBetween(from.levels, bids, sides, cuts, |cuts|, start, at, stop, stop);
    Assoc(was, Prune(from.levels[start..at], CancelIds(sides)), from.levels[at..stop]);
    to.CopySpan(from, stop - at);
  }

  /** The run up to the next cut in one block, then the cut. */
  method CopyToCut(from: Cursor, to: Writer, ghost bids: nat, sides: seq<Side>, cuts: seq<u16>, k: nat,
                   ghost start: nat, at: u16, ghost stop: nat, ghost was: seq<Level>)
    requires from.Valid() && to.Valid() && to.open == []
    requires BookOk(from.levels) && SidesOk(from.levels, bids, sides) && CutsOf(sides, start, stop, cuts)
    requires k < |cuts| && start <= at <= cuts[k] < stop <= |from.levels| && from.index == at
    requires forall j | 0 <= j < k :: cuts[j] < at
    requires to.levels == was + Prune(from.levels[start..at], CancelIds(sides))
    modifies from, to
    ensures from.Valid() && from.index == cuts[k] + 1
    ensures to.Valid() && to.open == []
    ensures to.levels == was + Prune(from.levels[start..cuts[k] + 1], CancelIds(sides))
  {
    hide BookOk, Prune, CutsOf, SidesOk;
    CutWithin(cuts, sides, start, stop, k);
    UncutBetween(from.levels, bids, sides, cuts, k, start, at, cuts[k], stop);
    RunAndLevel(was, from.levels, start, at, cuts[k], CancelIds(sides));
    to.CopySpan(from, cuts[k] - at);
    CopyCut(from, to, bids, sides);
  }

  lemma CutWithin(cuts: seq<u16>, sides: seq<Side>, from: nat, to: nat, k: nat)
    requires CutsOf(sides, from, to, cuts) && k < |cuts|
    ensures from <= cuts[k] < to && exists s :: s in sides && s.Pulls() && s.cancelIndex == cuts[k]
  {
    assert cuts[k] in cuts;
  }

  /** Between two cuts nothing is spliced. */
  lemma UncutBetween(levels: seq<Level>, bids: nat, sides: seq<Side>, cuts: seq<u16>, k: nat,
                     start: nat, at: nat, next: nat, stop: nat)
    requires BookOk(levels) && SidesOk(levels, bids, sides) && CutsOf(sides, start, stop, cuts)
    requires start <= at <= next <= stop <= |levels| && k <= |cuts|
    requires next == if k < |cuts| then cuts[k] else stop
    requires forall j | 0 <= j < k :: cuts[j] < at
    ensures Prune(levels[start..next], CancelIds(sides)) == Prune(levels[start..at], CancelIds(sides)) + levels[at..next]
  {
    forall s | s in sides && s.Pulls()
      ensures !(at <= s.cancelIndex < next)
    {
      if start <= s.cancelIndex < stop {
        assert s.cancelIndex in cuts;
      }
    }
    UncutRun(levels, bids, sides, at, next);
    assert levels[start..next] == levels[start..at] + levels[at..next];
    PruneConcat(levels[start..at], levels[at..next], CancelIds(sides));
  }

  lemma RunAndLevel(was: seq<Level>, levels: seq<Level>, start: nat, at: nat, cut: nat, gone: set<u32>)
    requires start <= at <= cut < |levels|
    requires Prune(levels[start..cut], gone) == Prune(levels[start..at], gone) + levels[at..cut]
    ensures was + Prune(levels[start..cut + 1], gone)
            == (was + Prune(levels[start..at], gone)) + levels[at..cut] + PruneLevel(levels[cut], gone)
  {
    assert levels[start..cut + 1] == levels[start..cut] + [levels[cut]];
    PruneConcat(levels[start..cut], [levels[cut]], gone);
    assert Prune([levels[cut]], gone) == PruneLevel(levels[cut], gone) + Prune([levels[cut]][1..], gone);
    var p, run, last := Prune(levels[start..at], gone), levels[at..cut], PruneLevel(levels[cut], gone);
    Assoc(was, p, run);
    Assoc(was, p + run, last);
  }

  // ---------- The affected range of a side ----------

  /** The range of a side: its own level for a cancel or a same-slot replacement, else Plan. */
  ghost predicate SidePlan(levels: seq<Level>, bids: nat, s: Side, co: Target, r: Range, fills: seq<Fill>, n: nat)
    requires bids <= |levels| && Located(levels, bids, s)
  {
    if s.rep.PureCancel() then
      r.op == (if s.cancelWasSole then CanWipe else CanNoWipe) && r.lui == r.hui == s.cancelIndex && fills == []
    else if s.InPlace() && s.rep.canRep then
      && r.op == (if s.rep.quantity >= s.target.order.quantity then CanRep else Shrink)
      && r.lui == r.hui == s.cancelIndex && fills == []
    else
      Plan(levels, bids, s.rep, Skipped(s.Own(), co), r, fills, n)
  }

  /** ob_affected_range. */
  method AffectedRange(m: Mbo, ghost levels: seq<Level>, ghost bids: nat, s: Side, co: Target)
    returns (r: Range, fills: seq<Fill>, ghost n: nat)
    requires OldBook(m, levels, bids) && Located(levels, bids, s) && TargetsOk(levels, s.Own(), co)
    requires s.rep.Sized()
    requires s.rep.market && !s.rep.PureCancel() ==> !s.rep.Gtc()
    ensures SidePlan(levels, bids, s, co, r, fills, n)
  {
    if s.rep.PureCancel() {
      r := Range(s.cancelIndex, s.cancelIndex, if s.cancelWasSole then CanWipe else CanNoWipe, 0, s.rep.quantity);
      fills, n := [], 0;
    } else if s.rep.canRep && s.InPlace() {
      // Shrink swaps the entry where it stands, CanRep queues it again
      r := Range(s.cancelIndex, s.cancelIndex, if s.rep.quantity >= s.target.order.quantity then CanRep else Shrink, 0,
                 s.rep.quantity);
      fills, n := [], 0;
    } else {
      r, fills, n := TradeRange(m, levels, bids, s.rep, s.Own(), co);
    }
  }

  /** How many levels the op leaves behind (ob_op_level_delta). */
  function LevelDelta(op: Op): (d: nat) {
    if op != Exact && op != CanWipe then 1 else 0
  }

  /** The level the op leaves behind. */
  ghost function Mid(levels: seq<Level>, s: Side, co: Target, r: Range): (mid: seq<Level>)
    requires r.op in {Append, CanRep, CanNoWipe, Shrink} ==> r.lui < |levels|
    requires r.op in {CanRep, CanNoWipe, Shrink} ==> s.target.Target?
    requires r.op == FillSome ==> r.modified < |levels|
    ensures |mid| == LevelDelta(r.op)
  {
    match r.op
    case New => [At(s.rep.price, [Entry(s.orderId, s.rep.quantity)])]
    case Append => [At(levels[r.lui].price, levels[r.lui].orders + [Entry(s.orderId, s.rep.quantity)])]
    case RestRemainder => [At(s.rep.price, [Entry(s.orderId, r.remaining)])]
    case FillSome => [At(levels[r.modified].price, BiteInto(levels, s, co, r).rest)]
    case CanRep => [At(levels[r.lui].price, Keep(levels[r.lui].orders, {s.target.id}) + [Entry(s.orderId, s.rep.quantity)])]
    case Exact => []
    case CanWipe => []
    case CanNoWipe => [At(levels[r.lui].price, Keep(levels[r.lui].orders, {s.target.id}))]
    case Shrink => [At(levels[r.lui].price, SwapEntry(levels[r.lui].orders, s.target.id, Entry(s.orderId, s.rep.quantity)))]
  }

  /** What the taker does to the level it only bites into. */
  ghost function BiteInto(levels: seq<Level>, s: Side, co: Target, r: Range): Eaten
    requires r.modified < |levels|
  {
    Eat(Keep(levels[r.modified].orders, Skipped(s.Own(), co)), r.remaining)
  }

  ghost function MidFills(levels: seq<Level>, s: Side, co: Target, r: Range): seq<Fill>
    requires r.op == FillSome ==> r.modified < |levels|
  {
    if r.op == FillSome then BiteInto(levels, s, co, r).fills else []
  }

  /** What ob_apply_op needs from its range to write its level. */
  ghost predicate Applies(levels: seq<Level>, s: Side, r: Range) {
    && (r.op in {Append, CanRep, CanNoWipe, Shrink} ==> r.lui < |levels|)
    && (r.op in {CanRep, CanNoWipe, Shrink} ==>
          s.target.Target? && RestsAt(levels, r.lui, s.target.id, s.target.order.quantity) && Occurs(levels[r.lui].orders, s.target.id) == 1)
    && (r.op in {Append, Shrink} ==> |levels[r.lui].orders| <= COPY_LIMIT)
    && (r.op == Shrink ==> s.rep.quantity <= s.target.order.quantity)
    && (r.op == FillSome ==> r.modified < |levels|)
  }

  /** ob_apply_op: serialize the op; the old runner sits at lui. */
  method ApplyOp(s: Side, co: Target, r: Range, from: Cursor, to: Writer) returns (fills: seq<Fill>)
    requires from.Valid() && to.Valid() && to.open == []
    requires LevelsOk(from.levels) && Applies(from.levels, s, r)
    requires r.lui <= |from.levels| && from.index == r.lui
    modifies from, to
    ensures from.Valid() && to.Valid() && to.open == []
    ensures to.levels == old(to.levels) + Mid(from.levels, s, co, r)
    ensures fills == MidFills(from.levels, s, co, r)
  {
    ghost var levels, was := from.levels, to.levels;
    fills := [];
    if r.op == New {
      to.InsertLevel(s.orderId, s.rep.price, s.rep.quantity);
    } else if r.op == Append {
      AppendHere(s, from, to);
    } else if r.op == RestRemainder {
      to.InsertLevel(s.orderId, s.rep.price, r.remaining);
    } else if r.op == FillSome {
      from.ToIndex(r.modified);
      fills := BiteHere(s, co, r, from, to);
    } else if r.op == CanRep {
      RequeueHere(s, from, to);
    } else if r.op == CanNoWipe {
      SpliceHere(s, from, to);
    } else if r.op == Shrink {
      ShrinkHere(s, from, to);
    }
    if r.op != Exact && r.op != CanWipe {
      to.Jump();
    } else {
      assert was + [] == was;
    }
  }

  method AppendHere(s: Side, from: Cursor, to: Writer)
    requires from.Valid() && to.Valid() && to.open == [] && from.index < |from.levels|
    requires LevelsOk(from.levels) && |from.levels[from.index].orders| <= COPY_LIMIT
    modifies to
    ensures to.Valid() && to.levels == old(to.levels)
    ensures var l := from.levels[from.index];
            to.open == [At(l.price, l.orders + [Entry(s.orderId, s.rep.quantity)])] && |l.orders| < 0xFFFF
  {
    assert from.levels[from.index] in from.levels;
    KeptOne(from.levels[from.index].orders, Entry(s.orderId, s.rep.quantity));
    to.CopyLevel(from);
    to.AppLevel(s.orderId, s.rep.quantity);
  }

  method BiteHere(s: Side, co: Target, r: Range, from: Cursor, to: Writer) returns (fills: seq<Fill>)
    requires from.Valid() && to.Valid() && to.open == [] && from.index < |from.levels|
    requires LevelsOk(from.levels) && from.index == r.modified
    modifies to
    ensures to.Valid() && to.levels == old(to.levels)
    ensures var e := BiteInto(from.levels, s, co, r);
            to.open == [At(from.levels[from.index].price, e.rest)] && fills == e.fills && |e.rest| < 0x1_0000
  {
    assert from.levels[from.index] in from.levels;
    fills := to.FillRemove(from, r.remaining, SkipId(s.Own()), SkipId(co));
    KeepShrinks(from.levels[from.index].orders, Skipped(s.Own(), co));
    EatShrinks(Keep(from.levels[from.index].orders, Skipped(s.Own(), co)), r.remaining);
  }

  method RequeueHere(s: Side, from: Cursor, to: Writer)
    requires from.Valid() && to.Valid() && to.open == [] && from.index < |from.levels|
    requires LevelsOk(from.levels) && s.target.Target?
    requires RestsAt(from.levels, from.index, s.target.id, s.target.order.quantity)
    requires Occurs(from.levels[from.index].orders, s.target.id) == 1
    modifies to
    ensures to.Valid() && to.levels == old(to.levels)
    ensures var l := from.levels[from.index]; var kept := Keep(l.orders, {s.target.id});
            to.open == [At(l.price, kept + [Entry(s.orderId, s.rep.quantity)])] && |kept| < 0xFFFF
  {
    assert from.levels[from.index] in from.levels;
    KeepOne(from.levels[from.index].orders, Entry(s.target.id, s.target.order.quantity));
    KeptOne(Keep(from.levels[from.index].orders, {s.target.id}), Entry(s.orderId, s.rep.quantity));
    to.SpliceLevel(from, s.target.id);
    to.AppLevel(s.orderId, s.rep.quantity);
  }

  method SpliceHere(s: Side, from: Cursor, to: Writer)
    requires from.Valid() && to.Valid() && to.open == [] && from.index < |from.levels|
    requires LevelsOk(from.levels) && s.target.Target?
    modifies to
    ensures to.Valid() && to.levels == old(to.levels)
    ensures var l := from.levels[from.index]; var kept := Keep(l.orders, {s.target.id});
            to.open == [At(l.price, kept)] && |kept| < 0x1_0000
  {
    assert from.levels[from.index] in from.levels;
    KeepShrinks(from.levels[from.index].orders, {s.target.id});
    to.SpliceLevel(from, s.target.id);
  }

  method ShrinkHere(s: Side, from: Cursor, to: Writer)
    requires from.Valid() && to.Valid() && to.open == [] && from.index < |from.levels|
    requires LevelsOk(from.levels) && |from.levels[from.index].orders| <= COPY_LIMIT && s.target.Target?
    requires RestsAt(from.levels, from.index, s.target.id, s.target.order.quantity)
    requires Occurs(from.levels[from.index].orders, s.target.id) == 1
    requires s.rep.quantity <= s.target.order.quantity
    modifies to
    ensures to.Valid() && to.levels == old(to.levels)
    ensures var l := from.levels[from.index]; var swapped := SwapEntry(l.orders, s.target.id, Entry(s.orderId, s.rep.quantity));
            to.open == [At(l.price, swapped)] && |swapped| < 0x1_0000
  {
    ghost var l := from.levels[from.index];
    assert l in from.levels;
    OnlyEntry(l.orders, Entry(s.target.id, s.target.order.quantity));
    SwapLength(l.orders, s.target.id, Entry(s.orderId, s.rep.quantity));
    ghost var k :| 0 <= k < |l.orders| && l.orders[k] == Entry(s.target.id, s.target.order.quantity);
    to.CopyLevel(from);
    assert to.open[0] == l && to.open[0].orders[k].id == s.target.id;
    to.ShrinkLevel(s.target.id, s.rep.quantity, s.orderId);
  }

  lemma {:induction false} OnlyEntry(orders: seq<Entry>, e: Entry)
    requires e in orders && Occurs(orders, e.id) <= 1
    ensures forall x | x in orders && x.id == e.id :: x == e
  {
    if orders[0].id == e.id {
      OccursMember(orders[1..], e.id);
      assert orders == [orders[0]] + orders[1..];
    } else {
      OnlyEntry(orders[1..], e);
      assert orders == [orders[0]] + orders[1..];
    }
  }

  lemma {:induction false} SwapLength(orders: seq<Entry>, was: u32, e: Entry)
    ensures |SwapEntry(orders, was, e)| == |orders|
  {
    if orders != [] {
      SwapLength(orders[1..], was, e);
    }
  }

  lemma {:induction false} EatShrinks(orders: seq<Entry>, q: nat)
    ensures |Eat(orders, q).rest| <= |orders|
  {
    if orders != [] && q > 0 && orders[0].qty <= q {
      EatShrinks(orders[1..], q - orders[0].qty);
    }
  }

  // ---------- Which orders an op's level holds ----------

  lemma {:induction false} OccursSwap(orders: seq<Entry>, was: u32, e: Entry, id: u32)
    ensures Occurs(SwapEntry(orders, was, e), id) <= Occurs(orders, id) + (if e.id == id then 1 else 0)
    ensures Occurs(orders, was) == 1 && id == was && e.id != id ==> Occurs(SwapEntry(orders, was, e), id) == 0
  {
    if orders != [] && orders[0].id != was {
      OccursSwap(orders[1..], was, e, id);
    }
  }

  lemma {:induction false} OccursEat(orders: seq<Entry>, q: nat, id: u32)
    ensures Occurs(Eat(orders, q).rest, id) <= Occurs(orders, id)
  {
    if orders != [] && q > 0 && orders[0].qty <= q {
      OccursEat(orders[1..], q - orders[0].qty, id);
    }
  }

  lemma CountSingle(l: Level, id: u32)
    ensures Count([l], id) == Occurs(l.orders, id)
  {
    assert [l][1..] == [];
  }

  /** The op's level holds nothing but orders of its range and the incoming order. */
  lemma MidCount(levels: seq<Level>, s: Side, co: Target, r: Range, id: u32)
    requires Applies(levels, s, r) && r.lui <= After(r) <= |levels|
    requires r.op in {Append, CanRep, CanNoWipe, Shrink} ==> After(r) == r.lui + 1
    requires r.op == FillSome ==> r.lui <= r.modified < After(r)
    ensures Count(Mid(levels, s, co, r), id) <= Count(levels[r.lui..After(r)], id) + (if s.orderId == id then 1 else 0)
  {
    var mid, range := Mid(levels, s, co, r), levels[r.lui..After(r)];
    if mid != [] {
      assert mid == [mid[0]];
      CountSingle(mid[0], id);
      var e := Entry(s.orderId, s.rep.quantity);
      if r.op == New || r.op == RestRemainder {
        assert mid[0].orders[1..] == [];
      } else {
        var k := if r.op == FillSome then r.modified else r.lui;
        assert range[k - r.lui] == levels[k];
        CountAt(range, k - r.lui, id);
        assert [e][1..] == [];
        if r.op == Append {
          OccursConcat(levels[k].orders, [e], id);
        } else if r.op == FillSome {
          OccursKeep(levels[k].orders, Skipped(s.Own(), co), id);
          OccursEat(Keep(levels[k].orders, Skipped(s.Own(), co)), r.remaining, id);
        } else if r.op == Shrink {
          OccursSwap(levels[k].orders, s.target.id, e, id);
        } else {
          OccursKeep(levels[k].orders, {s.target.id}, id);
          OccursConcat(Keep(levels[k].orders, {s.target.id}), [e], id);
        }
      }
    }
  }
}
