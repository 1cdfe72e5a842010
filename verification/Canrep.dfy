/** ob_canrep: the one-pass rewrite of a single order message refines its simple meaning. */
module Canrep {
  import opened Machine
  import opened Book
  import opened BookFacts
  import opened Legs
  import opened Snapshot
  import opened SnapshotWriter
  import opened Ranges
  import opened Rewrite
  import opened OneLeg
  import opened FirstLeg
  import opened BookRuns
  import opened Priority

  // ---------- How many levels, and how many of them are bids ----------

  /** A cancel that was alone on its level takes the level with it, when the level is in [i, j). */
  function Dropped(s: Side, i: nat, j: nat): nat {
    if s.Pulls() && s.cancelWasSole && i <= s.cancelIndex < j then 1 else 0
  }

  function DroppedAll(sides: seq<Side>, i: nat, j: nat): nat {
    if sides == [] then 0 else Dropped(sides[0], i, j) + DroppedAll(sides[1..], i, j)
  }

  lemma {:induction false} DroppedNext(sides: seq<Side>, i: nat, j: nat)
    requires i <= j
    ensures DroppedAll(sides, i, j + 1) == DroppedAll(sides, i, j) + DroppedAll(sides, j, j + 1)
  {
    if sides != [] {
      DroppedNext(sides[1..], i, j);
    }
  }

  lemma {:induction false} DroppedNone(sides: seq<Side>, i: nat, j: nat)
    requires forall s | s in sides && s.Pulls() && s.cancelWasSole :: !(i <= s.cancelIndex < j)
    ensures DroppedAll(sides, i, j) == 0
  {
    if sides != [] {
      DroppedNone(sides[1..], i, j);
    }
  }

  lemma {:induction false} DroppedOne(sides: seq<Side>, k: nat, i: nat, j: nat)
    requires k < |sides|
    requires forall a | 0 <= a < |sides| && a != k && sides[a].Pulls() && sides[a].cancelWasSole :: !(i <= sides[a].cancelIndex < j)
    ensures DroppedAll(sides, i, j) == Dropped(sides[k], i, j)
  {
    if k == 0 {
      DroppedNone(sides[1..], i, j);
    } else {
      DroppedOne(sides[1..], k - 1, i, j);
    }
  }

  /** Whether a level survives pulling the cancels. */
  lemma LevelSurvives(levels: seq<Level>, bids: nat, sides: seq<Side>, j: nat)
    requires BookOk(levels) && SidesOk(levels, bids, sides) && |sides| <= 2 && j < |levels|
    requires |sides| == 2 ==> sides[0] != sides[1]
    ensures |PruneLevel(levels[j], CancelIds(sides))| == 1 - DroppedAll(sides, j, j + 1)
  {
    assert levels[j] in levels;
    if k :| 0 <= k < |sides| && sides[k].Pulls() && sides[k].cancelIndex == j {
      CutLevel(levels, bids, sides, sides[k]);
      DroppedOne(sides, k, j, j + 1);
    } else {
      UncutRun(levels, bids, sides, j, j + 1);
      DroppedNone(sides, j, j + 1);
      assert levels[j..j + 1] == [levels[j]];
      assert Prune([levels[j]], CancelIds(sides)) == PruneLevel(levels[j], CancelIds(sides)) + Prune([levels[j]][1..], CancelIds(sides));
    }
  }

  /** The length of a copied range: only a lone cancel inside it costs a level. */
  lemma {:induction false} PruneLength(levels: seq<Level>, bids: nat, sides: seq<Side>, i: nat, j: nat)
    requires BookOk(levels) && SidesOk(levels, bids, sides) && |sides| <= 2 && i <= j <= |levels|
    requires |sides| == 2 ==> sides[0] != sides[1]
    ensures |Prune(levels[i..j], CancelIds(sides))| == j - i - DroppedAll(sides, i, j)
    decreases j
  {
    if i == j {
      DroppedNone(sides, i, j);
      assert levels[i..j] == [];
    } else {
      PruneLength(levels, bids, sides, i, j - 1);
      LevelSurvives(levels, bids, sides, j - 1);
      DroppedNext(sides, i, j - 1);
      PruneNext(levels, i, j - 1, CancelIds(sides));
    }
  }

  lemma PruneNext(levels: seq<Level>, i: nat, j: nat, gone: set<u32>)
    requires i <= j < |levels|
    ensures |Prune(levels[i..j + 1], gone)| == |Prune(levels[i..j], gone)| + |PruneLevel(levels[j], gone)|
  {
    assert levels[i..j + 1] == levels[i..j] + [levels[j]];
    PruneConcat(levels[i..j], [levels[j]], gone);
    assert Prune([levels[j]], gone) == PruneLevel(levels[j], gone) + Prune([levels[j]][1..], gone);
  }

  // ---------- The two sides as one run of levels ----------

  /** What the serializer writes: lower copy, the op's level, upper copy. */
  ghost function NewLevels(levels: seq<Level>, s: Side, co: Target, r: Range, gone: set<u32>): seq<Level>
    requires Applies(levels, s, r) && r.lui <= After(r) <= |levels|
  {
    Prune(levels[..r.lui], gone) + Mid(levels, s, co, r) + Prune(levels[After(r)..], gone)
  }

  /** How many of them are bids. */
  ghost function NewBids(levels: seq<Level>, bids: nat, s: Side, r: Range, gone: set<u32>): nat
    requires bids <= |levels| && r.lui <= After(r) <= |levels|
    requires LocalOp(r.op) && SlotSide(s) ==> After(r) <= bids
  {
    if LocalOp(r.op) then
      if SlotSide(s) then |Prune(levels[..r.lui], gone)| + LevelDelta(r.op) + |Prune(levels[After(r)..bids], gone)|
      else |Prune(levels[..bids], gone)|
    else if s.rep.buy then
      |Prune(levels[..bids], gone)| + if r.op == RestRemainder then 1 else 0
    else
      |Prune(levels[..r.lui], gone)| + if r.op == FillSome then 1 else 0
  }

  /** The result of a leg on the old book. */
  ghost function LegSides(levels: seq<Level>, bids: nat, gone: set<u32>, s: Side, co: Target, r: Range): Sides
    requires bids <= |levels| && Applies(levels, s, r) && r.lui <= After(r) <= |levels|
    requires LocalOp(r.op) ==> if SlotSide(s) then After(r) <= bids else bids <= r.lui
  {
    if LocalOp(r.op) then LocalSides(levels, bids, gone, s, Mid(levels, s, co, r), r)
    else TradeSides(levels, bids, gone, s, co, r)
  }

  lemma LocalWhole(levels: seq<Level>, bids: nat, gone: set<u32>, s: Side, mid: seq<Level>, r: Range)
    requires bids <= |levels| && r.lui <= After(r) <= |levels|
    requires if SlotSide(s) then After(r) <= bids else bids <= r.lui
    ensures var sides := LocalSides(levels, bids, gone, s, mid, r);
            sides.bids + sides.asks == Prune(levels[..r.lui], gone) + mid + Prune(levels[After(r)..], gone)
  {
    if SlotSide(s) {
      PruneTail(levels, After(r), bids, gone);
      Assoc(Prune(levels[..r.lui], gone) + mid, Prune(levels[After(r)..bids], gone), Prune(levels[bids..], gone));
    } else {
      PruneHead(levels, bids, r.lui, gone);
      var a, b, c := Prune(levels[..bids], gone), Prune(levels[bids..r.lui], gone), Prune(levels[After(r)..], gone);
      Assoc(a, b, mid);
      Assoc(a, b + mid, c);
    }
  }

  lemma TradeWhole(levels: seq<Level>, bids: nat, gone: set<u32>, s: Side, co: Target, r: Range)
    requires bids <= |levels| && Applies(levels, s, r) && r.lui <= After(r) <= |levels|
    requires r.op in {RestRemainder, Exact, FillSome}
    requires if s.rep.buy then r.lui == bids else After(r) == bids
    ensures var sides := TradeSides(levels, bids, gone, s, co, r);
            sides.bids + sides.asks == NewLevels(levels, s, co, r, gone)
  {
    assert Rested(s, r) + BittenLevel(levels, s, co, r) == Mid(levels, s, co, r) == BittenLevel(levels, s, co, r) + Rested(s, r);
    var a, x, y, b := Prune(levels[..r.lui], gone), Rested(s, r), BittenLevel(levels, s, co, r), Prune(levels[After(r)..], gone);
    Assoc(a, x, y + b);
    Assoc(x, y, b);
    Assoc(a, y, x + b);
    Assoc(y, x, b);
    Assoc(a, x + y, b);
    Assoc(a, y + x, b);
  }

  /** A ready leg, on the old book: its sides, its fills, and how the serialized levels split. */
  lemma LegOnOldBook(levels: seq<Level>, bids: nat, table: Table, s: Side, co: Target, r: Range, fills: seq<Fill>,
                     n: nat, gone: set<u32>)
    requires LegReady(levels, bids, table, s, co, r, fills, n, gone) && Applies(levels, s, r)
    ensures r.lui <= After(r) <= |levels|
    ensures LocalOp(r.op) ==> if SlotSide(s) then After(r) <= bids else bids <= r.lui
    ensures !LocalOp(r.op) ==> r.op in {RestRemainder, Exact, FillSome} && if s.rep.buy then r.lui == bids else After(r) == bids
    ensures var sides := LegSides(levels, bids, gone, s, co, r);
            && Step(Pull(SidesOf(levels, bids), gone), table, s.rep, s.orderId) == Outcome(sides, fills + MidFills(levels, s, co, r))
            && sides.bids + sides.asks == NewLevels(levels, s, co, r, gone)
            && |sides.bids| == NewBids(levels, bids, s, r, gone)
  {
    hide Step, Prune, Pull, Plan, Sweep;
    if LocalOp(r.op) {
      LocalShape(levels, bids, table, s, co, r, fills, n, gone);
      LocalLeg(levels, bids, table, s, co, r, fills, n, gone);
      LocalWhole(levels, bids, gone, s, Mid(levels, s, co, r), r);
    } else {
      TradeShape(levels, bids, table, s, co, r, fills, n, gone);
      TradeLeg(levels, bids, table, s, co, r, fills, n, gone);
      TradeWhole(levels, bids, gone, s, co, r);
    }
  }

  // ---------- One side alone ----------

  /** An entry of a level other than the target's is not the target. */
  lemma NotTarget(levels: seq<Level>, bids: nat, s: Side, j: nat)
    requires BookOk(levels) && Located(levels, bids, s) && s.target.Target? && j < |levels| && j != s.cancelIndex
    ensures Keep(levels[j].orders, {s.target.id}) == levels[j].orders
  {
    OnlyThere(levels, s.cancelIndex, s.target.id, s.target.order.quantity, j);
    KeepAbsent(levels[j].orders, s.target.id);
  }

  /** The slot an APPEND joins is never the target's level: that would be the same slot. */
  lemma AppendElsewhere(levels: seq<Level>, bids: nat, s: Side, co: Target, r: Range, fills: seq<Fill>, n: nat)
    requires BookOk(levels) && bids <= |levels| && Located(levels, bids, s) && s.target.Target? && s.rep.canRep
    requires SidePlan(levels, bids, s, co, r, fills, n) && r.op == Append
    ensures r.lui < |levels| && r.lui != s.cancelIndex
  {
  }

  /** A single order's leg is ready, whatever op its range got. */
  lemma SingleReady(levels: seq<Level>, bids: nat, table: Table, s: Side, r: Range, fills: seq<Fill>, n: nat)
    requires BookOk(levels) && |levels| < 0xFFFF && bids <= |levels|
    requires Located(levels, bids, s) && HasTarget(s.rep, table)
    requires s.target.Target? ==> s.target.order == table[s.rep.otherId]
    requires s.rep.Sized() && (s.rep.market && !s.rep.PureCancel() ==> !s.rep.Gtc())
    requires s.rep.canRep && s.InPlace() ==> s.rep.Gtc()
    requires SidePlan(levels, bids, s, NoTarget, r, fills, n)
    ensures LegReady(levels, bids, table, s, NoTarget, r, fills, n, Gone(s.rep, table))
  {
    var gone := Gone(s.rep, table);
    if r.op == Append {
      if s.target.Target? {
        AppendElsewhere(levels, bids, s, NoTarget, r, fills, n);
        NotTarget(levels, bids, s, r.lui);
      } else {
        KeepNone(levels[r.lui].orders, gone);
      }
    } else if r.op == Shrink {
      KeepNone(levels[r.lui].orders, gone);
    } else if !LocalOp(r.op) {
      SingleSkips(levels, bids, table, s, n);
    }
  }

  lemma SingleSkips(levels: seq<Level>, bids: nat, table: Table, s: Side, n: nat)
    requires LevelsOk(levels) && bids <= |levels| && n <= |Facing(levels, bids, s.rep.buy)|
    requires HasTarget(s.rep, table) && !s.rep.PureCancel() && (s.rep.Pulls() <==> s.target.Target?)
    requires s.target.Target? ==> s.target.id == s.rep.otherId
    requires s.rep.Pulls() ==> !Shrinks(s.rep, table[s.rep.otherId])
    ensures SkipsGone(Facing(levels, bids, s.rep.buy)[..n], s.Own(), NoTarget, Gone(s.rep, table))
  {
    var part := Facing(levels, bids, s.rep.buy)[..n];
    FacingOk(levels, bids, s.rep.buy);
    forall l, e | l in part && e in l.orders
      ensures e.id in Gone(s.rep, table) <==> e.id in Skipped(s.Own(), NoTarget)
    {
      assert l in Facing(levels, bids, s.rep.buy);
      assert LevelOk(l);
      assert EntryOk(e);
    }
  }

  lemma FacingOk(levels: seq<Level>, bids: nat, buy: bool)
    requires LevelsOk(levels) && bids <= |levels|
    ensures LevelsOk(Facing(levels, bids, buy))
    ensures forall l | l in Facing(levels, bids, buy) :: l in levels
  {
    forall l | l in Facing(levels, bids, buy)
      ensures l in levels && LevelOk(l)
    {
      ReverseMember(levels[..bids], l);
    }
  }

  /** Ops that work on an old level find it there. */
  lemma PlanApplies(levels: seq<Level>, bids: nat, s: Side, co: Target, r: Range, fills: seq<Fill>, n: nat)
    requires BookOk(levels) && bids <= |levels| && Located(levels, bids, s)
    requires SidePlan(levels, bids, s, co, r, fills, n)
    requires forall l | l in levels :: |l.orders| <= COPY_LIMIT
    ensures Applies(levels, s, r)
  {
    if s.target.Target? {
      OnlyThere(levels, s.cancelIndex, s.target.id, s.target.order.quantity, s.cancelIndex);
    }
    FacingLength(levels, bids, s.rep.buy);
    assert r.op in {Append, Shrink} ==> levels[r.lui] in levels;
  }

  /** The ids a lone side's copies watch for differ from those that leave first only for a SHRINK,
  whose target sits inside the range. */
  lemma CopiesMatch(levels: seq<Level>, bids: nat, table: Table, s: Side, co: Target, r: Range, fills: seq<Fill>, n: nat)
    requires HasTarget(s.rep, table)
    requires LegReady(levels, bids, table, s, co, r, fills, n, Gone(s.rep, table))
    requires r.lui <= After(r) <= |levels|
    ensures Prune(levels[..r.lui], CancelIds([s])) == Prune(levels[..r.lui], Gone(s.rep, table))
    ensures Prune(levels[After(r)..], CancelIds([s])) == Prune(levels[After(r)..], Gone(s.rep, table))
  {
    assert CancelIds([s]) == (if s.Pulls() then {s.target.id} else {}) + CancelIds([s][1..]);
    if r.op == Shrink {
      assert CancelIds([s]) == {s.target.id} && Gone(s.rep, table) == {};
      WithoutTarget(levels, bids, s, 0, r.lui, levels[..r.lui]);
      WithoutTarget(levels, bids, s, After(r), |levels|, levels[After(r)..]);
    } else {
      assert CancelIds([s]) == Gone(s.rep, table);
    }
  }

  /** Pulling a target changes nothing away from its level. */
  lemma WithoutTarget(levels: seq<Level>, bids: nat, s: Side, i: nat, j: nat, part: seq<Level>)
    requires BookOk(levels) && Located(levels, bids, s) && s.target.Target?
    requires i <= j <= |levels| && !(i <= s.cancelIndex < j) && part == levels[i..j]
    ensures Prune(part, {s.target.id}) == Prune(part, {})
  {
    OnlyThere(levels, s.cancelIndex, s.target.id, s.target.order.quantity, s.cancelIndex);
    Elsewhere(levels, s.cancelIndex, s.target.id, i, j, {}, part);
    PruneId(part, {}, s.target.id);
    assert {} + {s.target.id} == {s.target.id};
  }

  // ---------- level_count and hi_bid_index ----------

  /** The level count ob_canrep works out before it writes anything, in 16-bit arithmetic. */
  function LevelCount(s: Side, r: Range, oldCount: u16): u16 {
    var untouched := U16(r.lui + (oldCount - r.hui - 1));
    var count := U16(untouched + LevelDelta(r.op));
    if !s.Pulls() then count
    else if r.hui == MAX_U16 then (if s.cancelWasSole then U16(count - 1) else count)
    else if r.lui == MAX_U16 then count
    else if s.cancelWasSole && (s.cancelIndex < r.lui || s.cancelIndex >= r.hui + 1) then U16(count - 1)
    else count
  }

  /** The boundary ob_apply_op returns; written is the new runner's index before the op. */
  function OpHiBid(s: Side, r: Range, hi: u16, written: u16): u16 {
    var pulled := if hi != MAX_U16 && s.rep.canRep && s.cancelWasSole && s.cancelIndex <= hi then Step16(hi, -1) else hi;
    match r.op
    case New => if s.rep.buy then Step16(pulled, 1) else pulled
    case Append => pulled
    case RestRemainder => if s.rep.buy then written else Step16(written, -1)
    case FillSome => if s.rep.buy then Step16(written, -1) else written
    case Exact => Step16(written, -1)
    case CanWipe => if hi != MAX_U16 && s.cancelIndex <= hi then Step16(hi, -1) else hi
    case _ => hi
  }

  lemma CountsAlone(levels: seq<Level>, bids: nat, s: Side, i: nat, j: nat)
    requires BookOk(levels) && Located(levels, bids, s) && i <= j <= |levels|
    ensures |Prune(levels[i..j], CancelIds([s]))| == j - i - Dropped(s, i, j)
  {
    PruneLength(levels, bids, [s], i, j);
    assert DroppedAll([s], i, j) == Dropped(s, i, j) + DroppedAll([s][1..], i, j);
  }

  /** The same count without the wraps. */
  lemma LevelCountPlain(s: Side, r: Range, n: u16)
    requires r.lui <= After(r) <= n < 0xFFFF
    requires s.Pulls() && s.cancelWasSole ==> s.cancelIndex < n
    ensures LevelCount(s, r, n)
            == r.lui - Dropped(s, 0, r.lui) + LevelDelta(r.op) + (n - After(r)) - Dropped(s, After(r), n)
  {
    if r.hui == MAX_U16 {
      U16Wraps(r.lui + (n - r.hui - 1));
    } else {
      U16Same(r.lui + (n - r.hui - 1));
    }
    var untouched := r.lui + (n - After(r));
    U16Same(untouched + LevelDelta(r.op));
    if s.Pulls() && s.cancelWasSole && (s.cancelIndex < r.lui || s.cancelIndex >= After(r)) {
      U16Same(untouched + LevelDelta(r.op) - 1);
    }
  }

  /** The count written in the header is the number of levels that follow. */
  lemma LevelCountRight(levels: seq<Level>, bids: nat, s: Side, r: Range)
    requires BookOk(levels) && |levels| < 0xFFFF && Located(levels, bids, s)
    requires Applies(levels, s, r) && r.lui <= After(r) <= |levels|
    ensures LevelCount(s, r, |levels|) == |NewLevels(levels, s, NoTarget, r, CancelIds([s]))|
  {
    CountsAlone(levels, bids, s, 0, r.lui);
    CountsAlone(levels, bids, s, After(r), |levels|);
    assert levels[0..r.lui] == levels[..r.lui] && levels[After(r)..|levels|] == levels[After(r)..];
    LevelCountPlain(s, r, |levels|);
  }

  /** How many bids the serialized levels hold, without the copies. */
  lemma NewBidsPlain(levels: seq<Level>, bids: nat, s: Side, r: Range)
    requires BookOk(levels) && bids <= |levels| && Located(levels, bids, s)
    requires r.lui <= After(r) <= |levels|
    requires LocalOp(r.op) ==> if SlotSide(s) then After(r) <= bids else bids <= r.lui
    ensures |Prune(levels[..r.lui], CancelIds([s]))| == r.lui - Dropped(s, 0, r.lui)
    ensures NewBids(levels, bids, s, r, CancelIds([s])) == BidCount(bids, s, r)
  {
    CountsAlone(levels, bids, s, 0, r.lui);
    CountsAlone(levels, bids, s, 0, bids);
    assert levels[0..r.lui] == levels[..r.lui] && levels[0..bids] == levels[..bids];
    if After(r) <= bids {
      CountsAlone(levels, bids, s, After(r), bids);
    }
  }

  /** The same in plain arithmetic: how many of the new levels are bids. */
  function BidCount(bids: nat, s: Side, r: Range): int {
    if LocalOp(r.op) then
      if SlotSide(s) then r.lui - Dropped(s, 0, r.lui) + LevelDelta(r.op) + (bids - After(r)) - Dropped(s, After(r), bids)
      else bids - Dropped(s, 0, bids)
    else if s.rep.buy then bids - Dropped(s, 0, bids) + (if r.op == RestRemainder then 1 else 0)
    else r.lui - Dropped(s, 0, r.lui) + (if r.op == FillSome then 1 else 0)
  }

  lemma HiBidPlain(bids: nat, s: Side, r: Range, written: int)
    requires bids < 0xFFFF && r.lui <= After(r) < 0xFFFF
    requires LocalOp(r.op) ==> if SlotSide(s) then After(r) <= bids else bids <= r.lui
    requires !LocalOp(r.op) ==> r.op in {RestRemainder, Exact, FillSome} && if s.rep.buy then r.lui == bids else After(r) == bids
    requires LocalOp(r.op) ==> After(r) == if r.op == New then r.lui else r.lui + 1
    requires s.rep.PureCancel() <==> r.op in {CanNoWipe, CanWipe}
    requires s.rep.Pulls() <==> s.Pulls()
    requires r.op in {CanRep, Shrink, CanNoWipe, CanWipe} ==> s.Pulls() && r.lui == s.cancelIndex && (s.target.order.buy <==> s.cancelIndex < bids)
    requires r.op in {CanRep, Shrink} ==> s.target.order.buy == s.rep.buy
    requires r.op == Append && s.Pulls() ==> r.lui != s.cancelIndex
    requires written == r.lui - Dropped(s, 0, r.lui)
    ensures 0 <= BidCount(bids, s, r) < 0x1_0000 && 0 <= written < 0x1_0000
    ensures OpHiBid(s, r, HiBid(bids), written) == HiBid(BidCount(bids, s, r))
  {
  }

  /** The boundary written in the header marks the last bid level. */
  lemma HiBidRight(levels: seq<Level>, bids: nat, table: Table, s: Side, r: Range, fills: seq<Fill>, n: nat, gone: set<u32>)
    requires LegReady(levels, bids, table, s, NoTarget, r, fills, n, gone)
    ensures r.lui <= After(r) <= |levels|
    ensures LocalOp(r.op) ==> if SlotSide(s) then After(r) <= bids else bids <= r.lui
    ensures NewBids(levels, bids, s, r, CancelIds([s])) < 0x1_0000
    ensures |Prune(levels[..r.lui], CancelIds([s]))| < 0x1_0000
    ensures OpHiBid(s, r, HiBid(bids), |Prune(levels[..r.lui], CancelIds([s]))|) == HiBid(NewBids(levels, bids, s, r, CancelIds([s])))
  {
    if LocalOp(r.op) {
      LocalShape(levels, bids, table, s, NoTarget, r, fills, n, gone);
    } else {
      TradeShape(levels, bids, table, s, NoTarget, r, fills, n, gone);
    }
    if r.op == Append && s.target.Target? && s.rep.canRep {
      AppendElsewhere(levels, bids, s, NoTarget, r, fills, n);
    }
    NewBidsPlain(levels, bids, s, r);
    HiBidPlain(bids, s, r, |Prune(levels[..r.lui], CancelIds([s]))|);
  }

  // ---------- The size of the new snapshot ----------

  lemma {:induction false} PruneSize(levels: seq<Level>, gone: set<u32>)
    ensures |Prune(levels, gone)| <= |levels| && |Data(Prune(levels, gone))| <= |Data(levels)|
  {
    if levels != [] {
      PruneSize(levels[1..], gone);
      KeepShrinks(levels[0].orders, gone);
      DataConcat(PruneLevel(levels[0], gone), Prune(levels[1..], gone));
      DataConcat([levels[0]], levels[1..]);
      assert [levels[0]] + levels[1..] == levels;
      DataOne(levels[0]);
      if PruneLevel(levels[0], gone) != [] {
        DataOne(PruneLevel(levels[0], gone)[0]);
      }
    }
  }

  /** The op's level never needs more than one index entry, one header and one entry beyond what
  its range held. */
  lemma MidSize(levels: seq<Level>, s: Side, co: Target, r: Range)
    requires Applies(levels, s, r) && r.lui <= After(r) <= |levels|
    requires r.op in {Append, CanRep, CanNoWipe, Shrink} ==> After(r) == r.lui + 1
    requires r.op == FillSome ==> r.lui <= r.modified < After(r)
    ensures var mid, range := Mid(levels, s, co, r), levels[r.lui..After(r)];
            INDEX_BYTES * |mid| + 4 * |Data(mid)| <= INDEX_BYTES * |range| + 4 * |Data(range)| + INDEX_BYTES + LEVEL_BYTES + ENTRY_BYTES
  {
    var mid, range := Mid(levels, s, co, r), levels[r.lui..After(r)];
    if mid != [] {
      DataOne(mid[0]);
      assert mid == [mid[0]];
    }
    if r.op in {Append, CanRep, CanNoWipe, Shrink} {
      assert range == [levels[r.lui]];
      DataOne(levels[r.lui]);
      if r.op in {CanRep, CanNoWipe} {
        KeepShrinks(levels[r.lui].orders, {s.target.id});
      } else if r.op == Shrink {
        SwapLength(levels[r.lui].orders, s.target.id, Entry(s.orderId, s.rep.quantity));
      }
    } else if r.op == FillSome {
      KeepShrinks(levels[r.modified].orders, Skipped(s.Own(), co));
      EatShrinks(Keep(levels[r.modified].orders, Skipped(s.Own(), co)), r.remaining);
      LevelInside(levels, r.lui, r.modified, After(r));
    }
  }

  lemma LevelInside(levels: seq<Level>, i: nat, k: nat, j: nat)
    requires i <= k < j <= |levels|
    ensures 1 + 2 * |levels[k].orders| <= |Data(levels[i..j])|
  {
    assert levels[i..j] == levels[i..k] + [levels[k]] + levels[k + 1..j];
    RunData(levels[i..k], [levels[k]], levels[k + 1..j]);
    DataOne(levels[k]);
  }

  /** A single message grows the snapshot by at most one index entry, header and order entry. */
  lemma NewSize(levels: seq<Level>, s: Side, co: Target, r: Range, gone: set<u32>)
    requires Applies(levels, s, r) && r.lui <= After(r) <= |levels|
    requires r.op in {Append, CanRep, CanNoWipe, Shrink} ==> After(r) == r.lui + 1
    requires r.op == FillSome ==> r.lui <= r.modified < After(r)
    ensures Size(NewLevels(levels, s, co, r, gone)) <= Size(levels) + INDEX_BYTES + LEVEL_BYTES + ENTRY_BYTES
  {
    var a, range, c := levels[..r.lui], levels[r.lui..After(r)], levels[After(r)..];
    assert levels == a + range + c;
    RunData(a, range, c);
    DataConcat(a + range, c);
    MidSize(levels, s, co, r);
    PruneSize(a, gone);
    PruneSize(c, gone);
    DataConcat(Prune(a, gone) + Mid(levels, s, co, r), Prune(c, gone));
    DataConcat(Prune(a, gone), Mid(levels, s, co, r));
  }

  // ---------- ob_canrep ----------

  /** The contract the server keeps for every order it hands to the book. */
  ghost predicate CanrepReady(m: Mbo, levels: seq<Level>, bids: nat, table: Table, id: u32) {
    && OldBook(m, levels, bids)
    && (forall l | l in levels :: |l.orders| <= COPY_LIMIT)
    && id in table
    && Accepted(levels, bids, table, table[id])
    && (table[id].Pulls() ==> table[id].otherId != id)
  }

  /** Is this a replacement in its target's own slot? */
  predicate InItsSlot(table: Table, id: u32)
    requires id in table && HasTarget(table[id], table)
  {
    table[id].Pulls() && SameSlot(table[id], table[table[id].otherId])
  }

  /** A replacement in its target's slot is handled without a look at its time in force: it rests
  whatever it says. */
  function AsHandled(table: Table, id: u32): (r: Table)
    requires id in table && HasTarget(table[id], table)
    ensures r.Keys == table.Keys && r[id].Pulls() == table[id].Pulls() && r[id].otherId == table[id].otherId
  {
    if InItsSlot(table, id) then table[id := table[id].(market := false, ioc := false, fok := false)] else table
  }

  /** The snapshot written is the book the message means, with the same fills in the same order. */
  ghost predicate Refines(now: Mbo, size: nat, fills: seq<Fill>, meaning: Outcome) {
    var levels := meaning.sides.bids + meaning.sides.asks;
    && Represents(now, levels)
    && size == Size(levels)
    && |meaning.sides.bids| < 0x1_0000 && now.hiBidIndex == HiBid(|meaning.sides.bids|)
    && fills == meaning.fills
  }

  lemma AllTogether(levels: seq<Level>, bids: nat, table: Table, s: Side, r: Range, fills: seq<Fill>, n: nat)
    requires HasTarget(s.rep, table) && s.orderId in table && table[s.orderId] == s.rep
    requires LegReady(levels, bids, table, s, NoTarget, r, fills, n, Gone(s.rep, table)) && Applies(levels, s, r)
    ensures r.lui <= After(r) <= |levels|
    ensures LevelCount(s, r, |levels|) == |NewLevels(levels, s, NoTarget, r, CancelIds([s]))|
    ensures var meaning := Message(SidesOf(levels, bids), table, s.orderId);
            && meaning.sides.bids + meaning.sides.asks == NewLevels(levels, s, NoTarget, r, CancelIds([s]))
            && meaning.fills == fills + MidFills(levels, s, NoTarget, r)
            && |meaning.sides.bids| < 0x1_0000
            && |Prune(levels[..r.lui], CancelIds([s]))| < 0x1_0000
            && OpHiBid(s, r, HiBid(bids), |Prune(levels[..r.lui], CancelIds([s]))|) == HiBid(|meaning.sides.bids|)
    ensures Size(NewLevels(levels, s, NoTarget, r, CancelIds([s]))) <= Size(levels) + INDEX_BYTES + LEVEL_BYTES + ENTRY_BYTES
  {
    var gone := Gone(s.rep, table);
    LegOnOldBook(levels, bids, table, s, NoTarget, r, fills, n, gone);
    CopiesMatch(levels, bids, table, s, NoTarget, r, fills, n);
    LevelCountRight(levels, bids, s, r);
    HiBidRight(levels, bids, table, s, r, fills, n, gone);
    BidsMatch(levels, bids, table, s, r, fills, n);
    RangeShape(levels, bids, table, s, r, fills, n, gone);
    NewSize(levels, s, NoTarget, r, CancelIds([s]));
  }

  lemma RangeShape(levels: seq<Level>, bids: nat, table: Table, s: Side, r: Range, fills: seq<Fill>, n: nat, gone: set<u32>)
    requires LegReady(levels, bids, table, s, NoTarget, r, fills, n, gone)
    ensures r.op in {Append, CanRep, CanNoWipe, Shrink} ==> After(r) == r.lui + 1
    ensures r.op == FillSome ==> r.lui <= r.modified < After(r)
  {
    if LocalOp(r.op) {
      LocalShape(levels, bids, table, s, NoTarget, r, fills, n, gone);
    } else {
      TradeShape(levels, bids, table, s, NoTarget, r, fills, n, gone);
    }
  }

  /** The bid count is the same whether or not a SHRINK's target is watched for. */
  lemma BidsMatch(levels: seq<Level>, bids: nat, table: Table, s: Side, r: Range, fills: seq<Fill>, n: nat)
    requires HasTarget(s.rep, table)
    requires LegReady(levels, bids, table, s, NoTarget, r, fills, n, Gone(s.rep, table))
    requires r.lui <= After(r) <= |levels|
    requires LocalOp(r.op) ==> if SlotSide(s) then After(r) <= bids else bids <= r.lui
    ensures NewBids(levels, bids, s, r, Gone(s.rep, table)) == NewBids(levels, bids, s, r, CancelIds([s]))
  {
    assert CancelIds([s]) == (if s.Pulls() then {s.target.id} else {}) + CancelIds([s][1..]);
    if r.op == Shrink {
      assert CancelIds([s]) == {s.target.id} && Gone(s.rep, table) == {};
      WithoutTarget(levels, bids, s, 0, r.lui, levels[..r.lui]);
      if SlotSide(s) {
        WithoutTarget(levels, bids, s, After(r), bids, levels[After(r)..bids]);
      } else {
        WithoutTarget(levels, bids, s, 0, bids, levels[..bids]);
      }
    } else {
      assert CancelIds([s]) == Gone(s.rep, table);
    }
  }

  /** The side as its range handles it. */
  ghost function HandledSide(s: Side): Side {
    if s.InPlace() && s.rep.canRep then s.(rep := s.rep.(market := false, ioc := false, fok := false)) else s
  }

  /** Neither the range nor the op of such a replacement depends on its time in force. */
  lemma HandledSame(levels: seq<Level>, bids: nat, s: Side, r: Range, fills: seq<Fill>, n: nat)
    requires bids <= |levels| && Located(levels, bids, s) && SidePlan(levels, bids, s, NoTarget, r, fills, n)
    requires Applies(levels, s, r)
    requires r.lui <= After(r) <= |levels|
    ensures var h := HandledSide(s);
            && Located(levels, bids, h) && SidePlan(levels, bids, h, NoTarget, r, fills, n) && Applies(levels, h, r)
            && NewLevels(levels, h, NoTarget, r, CancelIds([h])) == NewLevels(levels, s, NoTarget, r, CancelIds([s]))
            && MidFills(levels, h, NoTarget, r) == MidFills(levels, s, NoTarget, r)
            && CancelIds([h]) == CancelIds([s])
    ensures forall count :: LevelCount(HandledSide(s), r, count) == LevelCount(s, r, count)
    ensures forall hi, written :: OpHiBid(HandledSide(s), r, hi, written) == OpHiBid(s, r, hi, written)
  {
    assert CancelIds([s]) == (if s.Pulls() then {s.target.id} else {}) + CancelIds([s][1..]);
    var h := HandledSide(s);
    assert CancelIds([h]) == (if h.Pulls() then {h.target.id} else {}) + CancelIds([h][1..]);
  }

  /** What the plan of the lone side promises about the result, as it is handled. */
  lemma HandledTogether(levels: seq<Level>, bids: nat, table: Table, s: Side, r: Range, fills: seq<Fill>, n: nat)
    requires s.orderId in table && table[s.orderId] == s.rep && HasTarget(s.rep, table)
    requires s.rep.Pulls() ==> s.rep.otherId != s.orderId
    requires BookOk(levels) && |levels| < 0xFFFF && bids <= |levels| && (forall l | l in levels :: |l.orders| <= COPY_LIMIT)
    requires Located(levels, bids, s) && SidePlan(levels, bids, s, NoTarget, r, fills, n)
    requires s.target.Target? ==> s.target.order == table[s.target.id]
    requires s.rep.Sized() && (s.rep.market && !s.rep.PureCancel() ==> !s.rep.Gtc())
    ensures Applies(levels, s, r) && r.lui <= After(r) <= |levels|
    ensures var meaning := Message(SidesOf(levels, bids), AsHandled(table, s.orderId), s.orderId);
            && meaning.sides.bids + meaning.sides.asks == NewLevels(levels, s, NoTarget, r, CancelIds([s]))
            && meaning.fills == fills + MidFills(levels, s, NoTarget, r)
            && |meaning.sides.bids| < 0x1_0000
            && |Prune(levels[..r.lui], CancelIds([s]))| < 0x1_0000
            && LevelCount(s, r, |levels|) == |NewLevels(levels, s, NoTarget, r, CancelIds([s]))|
            && OpHiBid(s, r, HiBid(bids), |Prune(levels[..r.lui], CancelIds([s]))|) == HiBid(|meaning.sides.bids|)
    ensures Size(NewLevels(levels, s, NoTarget, r, CancelIds([s]))) <= Size(levels) + INDEX_BYTES + LEVEL_BYTES + ENTRY_BYTES
  {
    hide BookOk, Message, NewLevels, SidePlan, MidFills, LevelCount, OpHiBid;
    var h, as_ := HandledSide(s), AsHandled(table, s.orderId);
    PlanRange(levels, bids, s, r, fills, n);
    HandledSame(levels, bids, s, r, fills, n);
    SingleReady(levels, bids, as_, h, r, fills, n);
    AllTogether(levels, bids, as_, h, r, fills, n);
  }

  lemma PlanRange(levels: seq<Level>, bids: nat, s: Side, r: Range, fills: seq<Fill>, n: nat)
    requires BookOk(levels) && |levels| < 0xFFFF && bids <= |levels| && (forall l | l in levels :: |l.orders| <= COPY_LIMIT)
    requires Located(levels, bids, s) && SidePlan(levels, bids, s, NoTarget, r, fills, n)
    ensures Applies(levels, s, r) && r.lui <= After(r) <= |levels|
  {
    PlanApplies(levels, bids, s, NoTarget, r, fills, n);
    FacingLength(levels, bids, s.rep.buy);
  }

  /** An order that rests waits in the queue at its price. */
  lemma RestingWaits(levels: seq<Level>, bids: nat, table: Table, x: u32)
    requires Sound(levels) && bids <= |levels| && Resting(levels, bids, table, x)
    ensures Waiting(SidesOf(levels, bids), table, x)
  {
    var i :| RestsAt(levels, i, x, table[x].quantity) && levels[i].price == table[x].price && (table[x].buy <==> i < bids);
    var own := Own(SidesOf(levels, bids), table[x].buy);
    assert own[if i < bids then i else i - bids] == levels[i];
    QueueOf(own, levels[i]);
  }

  /** The book as it is handled keeps everybody's turn, and in its target's slot the order rests. */
  lemma HandledTurns(levels: seq<Level>, bids: nat, table: Table, id: u32)
    requires BookOk(levels) && bids <= |levels| && id in table && Accepted(levels, bids, table, table[id])
    requires table[id].Pulls() ==> table[id].otherId != id
    ensures var s := SidesOf(levels, bids); var m := Message(s, AsHandled(table, id), id);
            KeepsTurns(s, m.sides, m.fills, table, id, true)
  {
    hide Message, Requeued, ByPriority, Queue, Keep;
    var s := SidesOf(levels, bids);
    SoundIsOk(levels);
    assert s.bids + s.asks == levels;
    if table[id].Pulls() {
      RestingWaits(levels, bids, table, table[id].otherId);
    }
    MessageTurns(s, AsHandled(table, id), id);
  }

  method ObCanrep(table: Table, id: u32, m: Mbo, ghost levels: seq<Level>, ghost bids: nat)
    returns (now: Mbo, size: nat, fills: seq<Fill>)
    requires CanrepReady(m, levels, bids, table, id)
    ensures Refines(now, size, fills, Message(SidesOf(levels, bids), AsHandled(table, id), id))
    ensures KeepsTurns(SidesOf(levels, bids), Message(SidesOf(levels, bids), AsHandled(table, id), id).sides, fills, table, id, true)
    ensures size <= Size(levels) + INDEX_BYTES + LEVEL_BYTES + ENTRY_BYTES
  {
    HandledTurns(levels, bids, table, id);
    var side := SideInit(table, m, levels, bids, id);
    var range, rangeFills;
    ghost var n;
    range, rangeFills, n := AffectedRange(m, levels, bids, side, NoTarget);
    HandledTogether(levels, bids, table, side, range, rangeFills, n);
    var levelCount := LevelCount(side, range, m.levelCount);
    var to, written, opFills := Serialize(m, levels, bids, side, range);
    fills := rangeFills + opFills;
    var hi := OpHiBid(side, range, m.hiBidIndex, written);
    now, size := to.Finish(if levelCount == 0 then MAX_U16 else hi, levelCount);
  }

  /** Lower copy, op, upper copy. */
  method Serialize(m: Mbo, ghost levels: seq<Level>, ghost bids: nat, side: Side, r: Range)
    returns (to: Writer, written: nat, fills: seq<Fill>)
    requires OldBook(m, levels, bids) && Located(levels, bids, side)
    requires Applies(levels, side, r) && r.lui <= After(r) <= |levels|
    ensures fresh(to) && to.Valid() && to.open == []
    ensures to.levels == NewLevels(levels, side, NoTarget, r, CancelIds([side]))
    ensures written == |Prune(levels[..r.lui], CancelIds([side]))|
    ensures fills == MidFills(levels, side, NoTarget, r)
  {
    var from := new Cursor(m, levels);
    to := new Writer();
    var sides := [side];
    hide BookOk, Prune, Located, MidFills;
    CopyRange(from, to, bids, 0, r.lui, sides);
    assert levels[0..r.lui] == levels[..r.lui];
    assert to.levels == Prune(levels[..r.lui], CancelIds(sides));
    written := to.Written();
    fills := ApplyOp(side, NoTarget, r, from, to);
    CopyRange(from, to, bids, After(r), m.levelCount, sides);
    assert levels[After(r)..|levels|] == levels[After(r)..];
  }
}
