/** ob_affected_range: which old levels one side of a message touches, and how.

The range runs from lui to hui in 16-bit arithmetic: hui may be the sentinel for "one before
level 0", and an insertion has lui == hui + 1. Plan says what each op type promises about the
range; it is all the rewrite needs to know. */
module Ranges {
  import opened Machine
  import opened Book
  import opened BookFacts
  import opened Snapshot

  datatype Op = New | Append | RestRemainder | FillSome | CanRep | Exact | CanNoWipe | CanWipe | Shrink

  /** The order a leg cancels, if it cancels one. */
  datatype Target = NoTarget | Target(id: u32, order: Order)

  /** What ob_affected_range hands back. */
  datatype Range = Range(lui: u16, hui: u16, op: Op, modified: u16, remaining: u16)

  /** hi_bid_index for a book with this many bid levels. */
  function HiBid(bids: nat): u16
    requires bids < 0x1_0000
  {
    if bids == 0 then MAX_U16 else bids - 1
  }

  /** The old book as every operation finds it. */
  ghost predicate OldBook(m: Mbo, levels: seq<Level>, bids: nat) {
    && Stored(m, levels)
    && BookOk(levels)
    && |levels| < 0xFFFF
    && bids <= |levels|
    && m.hiBidIndex == HiBid(bids)
  }

  /** The old levels an order of this direction may trade with, best price first. */
  ghost function Facing(levels: seq<Level>, bids: nat, buy: bool): seq<Level>
    requires bids <= |levels|
  {
    Opposite(Sides(levels[..bids], levels[bids..]), buy)
  }

  /** The first old level after the range. */
  function After(r: Range): u16 {
    Step16(r.hui, 1)
  }

  // ---------- Where a resting order goes ----------

  /** A slot for a price on one side: a fresh level before index at, or the level at index at. */
  ghost predicate SlotAt(levels: seq<Level>, bids: nat, price: u16, buy: bool, at: int, found: bool) {
    && 0 <= at <= |levels|
    && (if buy then at <= bids else bids <= at)
    && Below(levels[..at], price)
    && if found
       then at < |levels| && levels[at].price == price && (buy ==> at < bids)
       else Above(levels[at..], price)
  }

  /** The slot's neighbours, which is all the search looks at. */
  ghost predicate Neighbours(levels: seq<Level>, bids: nat, price: u16, buy: bool, at: int, found: bool) {
    && 0 <= at <= |levels|
    && (if buy then at <= bids else bids <= at)
    && (at == 0 || levels[at - 1].price < price)
    && if found then at < |levels| && levels[at].price == price && (buy ==> at < bids)
       else at == |levels| || price < levels[at].price
  }

  lemma NeighboursSlot(levels: seq<Level>, bids: nat, price: u16, buy: bool, at: nat, found: bool)
    requires Ascending(levels) && Neighbours(levels, bids, price, buy, at, found)
    ensures SlotAt(levels, bids, price, buy, at, found)
  {
  }

  /** multiplier * price: a seller sees the book upside down. */
  function Signed(buy: bool, price: u16): int {
    if buy then price as int else -(price as int)
  }

  /** lui and hui of a slot: an empty range before level at, or the level itself. */
  predicate SlotRange(buy: bool, op: Op, untouchedBelow: u16, untouchedAbove: u16, at: int) {
    var lui, hui := if buy then untouchedBelow else untouchedAbove, if buy then untouchedAbove else untouchedBelow;
    && (op == New || op == Append)
    && lui == at
    && Step16(hui, 1) == if op == Append then at + 1 else at
  }

  /** The search for a nonmarketable order's level: outward from the inside of its own side. */
  method FindSlot(m: Mbo, ghost levels: seq<Level>, ghost bids: nat, price: u16, buy: bool)
    returns (op: Op, untouchedBelow: u16, untouchedAbove: u16, ghost at: nat)
    requires Indexed(m, levels) && Ascending(levels) && |levels| < 0xFFFF
    requires bids <= |levels| && m.hiBidIndex == HiBid(bids)
    requires if buy then bids == |levels| || price < levels[bids].price else bids == 0 || levels[bids - 1].price < price
    ensures SlotRange(buy, op, untouchedBelow, untouchedAbove, at)
    ensures Neighbours(levels, bids, price, buy, at, op == Append)
    ensures Neighbours(levels, bids, price, buy, if buy then untouchedBelow else untouchedAbove, op == Append)
  {
    var hi := m.hiBidIndex;
    if buy && hi != MAX_U16 && m.index[hi].price < price {
      return New, Step16(hi, 1), hi, bids;
    }
    var start := if buy then Step16(hi, 1) else hi;
    var bottom := if buy then 0 else Step16(m.levelCount, -1);
    op, untouchedBelow, untouchedAbove, at := SearchOut(m, levels, bids, price, buy, start, bottom);
  }

  method SearchOut(m: Mbo, ghost levels: seq<Level>, ghost bids: nat, price: u16, buy: bool, from: u16, bottom: u16)
    returns (op: Op, untouchedBelow: u16, untouchedAbove: u16, ghost at: nat)
    requires Indexed(m, levels) && Ascending(levels) && |levels| < 0xFFFF && bids <= |levels|
    requires buy ==> from == bids && bottom == 0 && (bids == |levels| || price < levels[bids].price)
    requires !buy ==> from == HiBid(bids) && bottom == HiBid(|levels|) && (bids == 0 || levels[bids - 1].price < price)
    ensures SlotRange(buy, op, untouchedBelow, untouchedAbove, at)
    ensures Neighbours(levels, bids, price, buy, at, op == Append)
    ensures Neighbours(levels, bids, price, buy, if buy then untouchedBelow else untouchedAbove, op == Append)
  {
    var multiplier: int := if buy then 1 else -1;
    var start := from;
    at := bids;  // the slot between what was passed and what is still to be searched
    while start != bottom
      invariant 0 <= at <= |levels|
      invariant if buy then at <= bids && start == at else bids <= at && start == HiBid(at)
      invariant if buy then at == |levels| || price < levels[at].price else at == 0 || levels[at - 1].price < price
      decreases if buy then at else |levels| - at
    {
      var next := Step16(start, -multiplier);
      var levelPrice := m.index[next].price;
      if Signed(buy, price) == Signed(buy, levelPrice) {
        return Append, next, next, next;
      }
      if Signed(buy, price) > Signed(buy, levelPrice) {
        return New, start, next, at;
      }
      at := at - multiplier;
      start := next;
    }
    return New, bottom, Step16(bottom, -multiplier), at;
  }

  // ---------- What a leg may not trade with ----------

  /** The id to skip on a level, or the sentinel nobody rests under. */
  function SkipId(t: Target): u32 {
    if t.Target? then t.id else MAX_U32
  }

  function Skipped(own: Target, co: Target): set<u32> {
    {SkipId(own), SkipId(co)}
  }

  /** A target rests in the book, at its own price and size. */
  ghost predicate Placed(levels: seq<Level>, t: Target) {
    t.Target? ==> exists i :: RestsAt(levels, i, t.id, t.order.quantity) && levels[i].price == t.order.price
  }

  ghost predicate TargetsOk(levels: seq<Level>, own: Target, co: Target) {
    && Placed(levels, own)
    && Placed(levels, co)
    && (own.Target? && co.Target? ==> own.id != co.id)
  }

  /** How much of a level is a target's. */
  function Share(t: Target, price: u16): u16 {
    if t.Target? && t.order.price == price then t.order.quantity else 0
  }

  lemma ShareKept(levels: seq<Level>, t: Target, j: nat)
    requires BookOk(levels) && Placed(levels, t) && j < |levels|
    ensures Share(t, levels[j].price) == 0 ==> Occurs(levels[j].orders, SkipId(t)) == 0
    ensures Share(t, levels[j].price) > 0 ==>
      Entry(SkipId(t), Share(t, levels[j].price)) in levels[j].orders && Occurs(levels[j].orders, SkipId(t)) <= 1
  {
    assert LevelOk(levels[j]) by { assert levels[j] in levels; }
    if t.Target? {
      var i :| RestsAt(levels, i, t.id, t.order.quantity) && levels[i].price == t.order.price;
      assert levels[i] in levels;
      OnlyThere(levels, i, t.id, t.order.quantity, j);
    } else {
      NoSentinel(levels[j].orders);
    }
  }

  lemma KeepShare(orders: seq<Entry>, id: u32, share: u32)
    requires share == 0 ==> Occurs(orders, id) == 0
    requires share > 0 ==> Entry(id, share) in orders && Occurs(orders, id) <= 1
    ensures Total(Keep(orders, {id})) == Total(orders) - share
  {
    if share == 0 {
      KeepAbsent(orders, id);
    } else {
      KeepOne(orders, Entry(id, share));
    }
  }

  /** The size of a level that this leg can trade with: its total less what either leg pulls. */
  lemma EffectiveQuantity(levels: seq<Level>, own: Target, co: Target, j: nat)
    requires BookOk(levels) && TargetsOk(levels, own, co) && j < |levels|
    ensures Total(Keep(levels[j].orders, Skipped(own, co)))
            == levels[j].quantity - Share(own, levels[j].price) - Share(co, levels[j].price)
  {
    var orders, a, b := levels[j].orders, SkipId(own), SkipId(co);
    var sa, sb := Share(own, levels[j].price), Share(co, levels[j].price);
    assert levels[j] in levels;
    ShareKept(levels, own, j);
    ShareKept(levels, co, j);
    KeepUnion(orders, {a}, {b});
    assert {a} + {b} == Skipped(own, co);
    KeepShare(orders, a, sa);
    OccursKeep(orders, {a}, b);
    if sb > 0 {
      KeepMember(orders, {a}, Entry(b, sb));
      SkipIdsDiffer(levels, own, co, orders);
    }
    KeepShare(Keep(orders, {a}), b, sb);
  }

  lemma SkipIdsDiffer(levels: seq<Level>, own: Target, co: Target, orders: seq<Entry>)
    requires TargetsOk(levels, own, co) && co.Target?
    requires forall e | e in orders :: EntryOk(e)
    requires exists e :: e in orders && e.id == SkipId(co)
    ensures SkipId(own) != SkipId(co)
  {
  }

  // ---------- Walking through the levels that cross ----------

  /** The index of the k-th level facing the order. */
  function FacingIndex(bids: nat, buy: bool, k: nat): int {
    if buy then bids + k else bids - 1 - k
  }

  lemma FacingAt(levels: seq<Level>, bids: nat, buy: bool, k: nat)
    requires bids <= |levels|
    requires k < if buy then |levels| - bids else bids
    ensures |Facing(levels, bids, buy)| == if buy then |levels| - bids else bids
    ensures Facing(levels, bids, buy)[k] == levels[FacingIndex(bids, buy, k)]
  {
    if !buy {
      ReverseAt(levels[..bids], k);
    }
  }

  lemma FacingLength(levels: seq<Level>, bids: nat, buy: bool)
    requires bids <= |levels|
    ensures |Facing(levels, bids, buy)| == if buy then |levels| - bids else bids
  {
    if !buy && bids > 0 {
      FacingAt(levels, bids, buy, 0);
    }
  }

  /** The first n facing levels vanish under the order: it fills them in turn. */
  ghost predicate Cleared(facing: seq<Level>, gone: set<u32>, rep: Order, n: nat, fills: seq<Fill>, remaining: nat)
    requires n <= |facing|
  {
    Sweep(Prune(facing[..n], gone), rep, rep.quantity) == Swept([], fills, remaining)
  }

  /** No level from the n-th on would trade. */
  ghost predicate Halted(facing: seq<Level>, rep: Order, n: nat) {
    n >= |facing| || !Crosses(rep, facing[n].price)
  }

  /** What the walk leaves: n facing levels are in the range, and this is why it stopped. */
  ghost predicate Walked(facing: seq<Level>, gone: set<u32>, rep: Order, op: Op, n: nat, fills: seq<Fill>, remaining: nat)
    requires n <= |facing|
  {
    match op
    case RestRemainder => Cleared(facing, gone, rep, n, fills, remaining) && remaining > 0 && rep.Gtc() && Halted(facing, rep, n)
    case Exact => Cleared(facing, gone, rep, n, fills, remaining) && (remaining == 0 || (!rep.Gtc() && Halted(facing, rep, n)))
    case FillSome =>
      && n > 0
      && Cleared(facing, gone, rep, n - 1, fills, remaining)
      && Crosses(rep, facing[n - 1].price)
      && remaining < Total(Keep(facing[n - 1].orders, gone))
    case _ => false
  }

  lemma ClearedNone(facing: seq<Level>, gone: set<u32>, rep: Order)
    ensures Cleared(facing, gone, rep, 0, [], rep.quantity)
  {
    assert facing[..0] == [];
  }

  /** One more level swallowed whole. */
  lemma ClearNext(facing: seq<Level>, gone: set<u32>, rep: Order, n: nat, fills: seq<Fill>, remaining: nat)
    requires n < |facing| && LevelOk(facing[n]) && Crosses(rep, facing[n].price)
    requires Cleared(facing, gone, rep, n, fills, remaining)
    requires Total(Keep(facing[n].orders, gone)) <= remaining
    ensures var kept := Keep(facing[n].orders, gone);
            Cleared(facing, gone, rep, n + 1, fills + Whole(kept), remaining - Total(kept))
  {
    var l, kept := facing[n], Keep(facing[n].orders, gone);
    assert facing[..n + 1] == facing[..n] + [l];
    PruneConcat(facing[..n], [l], gone);
    assert Prune([l], gone) == PruneLevel(l, gone);
    SweepThrough(Prune(facing[..n], gone), PruneLevel(l, gone), rep, rep.quantity);
    forall e | e in kept
      ensures e.qty > 0
    {
      KeepMember(l.orders, gone, e);
    }
    EatAll(kept, remaining);
    if kept != [] {
      assert PruneLevel(l, gone)[1..] == [];
      assert Whole(kept) + [] == Whole(kept);
    }
  }

  /** Queue a full fill for every order of a level that either leg leaves in the book. */
  method FillLevel(orders: seq<Entry>, ownId: u32, coId: u32) returns (fills: seq<Fill>)
    ensures fills == Whole(Keep(orders, {ownId, coId}))
  {
    fills := [];
    assert orders[0..] == orders;
    for i := 0 to |orders|
      invariant fills + Whole(Keep(orders[i..], {ownId, coId})) == Whole(Keep(orders, {ownId, coId}))
    {
      assert orders[i..][1..] == orders[i + 1..];
      if orders[i].id == ownId || orders[i].id == coId {
        continue;
      }
      fills := fills + [Fill(orders[i].id, orders[i].qty, false)];
    }
    assert orders[|orders|..] == [];
  }

  lemma FacingPrice(m: Mbo, levels: seq<Level>, bids: nat, buy: bool, n: nat)
    requires OldBook(m, levels, bids) && n < |Facing(levels, bids, buy)|
    ensures 0 <= FacingIndex(bids, buy, n) < |m.index|
    ensures m.index[FacingIndex(bids, buy, n)].price == Facing(levels, bids, buy)[n].price
  {
    StoredIndexed(m, levels);
    FacingLength(levels, bids, buy);
    FacingAt(levels, bids, buy, n);
  }

  /** One level of the walk: its size to this order, and its fills when it is swallowed whole. */
  method Visit(m: Mbo, ghost levels: seq<Level>, ghost bids: nat, rep: Order, own: Target, co: Target, level: u16,
               ghost n: nat, ghost fills: seq<Fill>, remaining: u16)
    returns (effective: nat, eaten: seq<Fill>)
    requires OldBook(m, levels, bids) && TargetsOk(levels, own, co)
    requires n < |Facing(levels, bids, rep.buy)| && level == FacingIndex(bids, rep.buy, n)
    requires Crosses(rep, Facing(levels, bids, rep.buy)[n].price)
    requires Cleared(Facing(levels, bids, rep.buy), Skipped(own, co), rep, n, fills, remaining)
    ensures effective == Total(Keep(Facing(levels, bids, rep.buy)[n].orders, Skipped(own, co)))
    ensures effective <= remaining ==>
      Cleared(Facing(levels, bids, rep.buy), Skipped(own, co), rep, n + 1, fills + eaten, remaining - effective)
  {
    ghost var facing := Facing(levels, bids, rep.buy);
    StoredIndexed(m, levels);
    FacingLength(levels, bids, rep.buy);
    FacingAt(levels, bids, rep.buy, n);
    EffectiveQuantity(levels, own, co, level);
    // the size on the level, less what either leg is pulling from it
    effective := m.index[level].quantity - Share(own, m.index[level].price) - Share(co, m.index[level].price);
    eaten := [];
    if effective <= remaining {
      assert facing[n] in levels;
      ClearNext(facing, Skipped(own, co), rep, n, fills, remaining);
      eaten := FillLevel(OrdersAt(m, levels, level), SkipId(own), SkipId(co));
    }
  }

  /** The walk over the crossing levels, from the inside of the other side outward. */
  method Walk(m: Mbo, ghost levels: seq<Level>, ghost bids: nat, rep: Order, own: Target, co: Target, start: u16, top: u16)
    returns (op: Op, untouchedAbove: u16, modified: u16, remaining: u16, fills: seq<Fill>, ghost n: nat)
    requires OldBook(m, levels, bids) && TargetsOk(levels, own, co) && (rep.quantity > 0 || !rep.Gtc())
    requires Facing(levels, bids, rep.buy) != []
    requires Crosses(rep, Facing(levels, bids, rep.buy)[0].price)
    requires start == FacingIndex(bids, rep.buy, 0) && top == FacingIndex(bids, rep.buy, |Facing(levels, bids, rep.buy)| - 1)
    ensures 0 < n <= |Facing(levels, bids, rep.buy)|
    ensures untouchedAbove == FacingIndex(bids, rep.buy, n - 1)
    ensures Walked(Facing(levels, bids, rep.buy), Skipped(own, co), rep, op, n, fills, remaining)
    ensures op == FillSome ==> modified == untouchedAbove
    ensures Crosses(rep, Facing(levels, bids, rep.buy)[n - 1].price)
  {
    hide Cleared, Skipped, TargetsOk, Stored, BookOk;
    ghost var facing, gone := Facing(levels, bids, rep.buy), Skipped(own, co);
    var multiplier: int := if rep.buy then 1 else -1;
    var level := start;
    remaining, fills, n, untouchedAbove, modified := rep.quantity, [], 0, top, 0;
    ClearedNone(facing, gone, rep);
    while true
      invariant 0 <= n < |facing| && level == FacingIndex(bids, rep.buy, n)
      invariant Cleared(facing, gone, rep, n, fills, remaining) && (n > 0 || rep.Gtc() ==> remaining > 0)
      invariant Crosses(rep, facing[if n == 0 then 0 else n - 1].price)
      decreases |facing| - n
    {
      FacingPrice(m, levels, bids, rep.buy, n);
      var price := m.index[level].price;
      if !rep.market && remaining > 0 && Signed(rep.buy, rep.price) < Signed(rep.buy, price) {
        // the next level is out of reach
        op := if rep.Gtc() then RestRemainder else Exact;
        untouchedAbove := Step16(level, -multiplier);
        return;
      }
      var effective, eaten := Visit(m, levels, bids, rep, own, co, level, n, fills, remaining);
      n := n + 1;
      if effective > remaining {
        return FillSome, level, level, remaining, fills, n;
      }
      fills := fills + eaten;
      remaining := remaining - effective;
      if remaining == 0 {
        return Exact, level, modified, remaining, fills, n;
      }
      if level == top {
        op := if rep.Gtc() then RestRemainder else Exact;
        untouchedAbove := top;
        return;
      }
      level := level + multiplier;
    }
  }

  // ---------- The affected range ----------

  /** The range covers the n inside levels of the other side. */
  predicate CoversFacing(bids: nat, buy: bool, r: Range, n: nat) {
    if buy then r.lui == bids && After(r) == bids + n else After(r) == bids && r.lui == bids - n
  }

  /** What the range of a trading or resting leg promises; n counts the facing levels inside it. */
  ghost predicate Plan(levels: seq<Level>, bids: nat, rep: Order, gone: set<u32>, r: Range, fills: seq<Fill>, n: nat)
    requires bids <= |levels|
  {
    var facing := Facing(levels, bids, rep.buy);
    if r.op == New || r.op == Append then
      && SlotAt(levels, bids, rep.price, rep.buy, r.lui, r.op == Append)
      && After(r) == (if r.op == Append then r.lui + 1 else r.lui)
      && rep.Gtc() && Halted(facing, rep, 0) && fills == []
    else
      && n <= |facing| && CoversFacing(bids, rep.buy, r, n)
      && (n > 0 ==> Crosses(rep, facing[0].price) && Crosses(rep, facing[n - 1].price))
      && (r.op == RestRemainder ==> n > 0)
      && Walked(facing, gone, rep, r.op, n, fills, r.remaining)
      && (r.op == FillSome ==> r.modified == FacingIndex(bids, rep.buy, n - 1))
  }

  /** lui and hui from the two ends of the untouched part, by direction. */
  function Ends(buy: bool, below: u16, above: u16, op: Op, modified: u16, remaining: u16): Range {
    Range(if buy then below else above, if buy then above else below, op, modified, remaining)
  }

  lemma PlanWalk(levels: seq<Level>, bids: nat, rep: Order, gone: set<u32>, op: Op, below: u16, above: u16,
                 modified: u16, remaining: u16, fills: seq<Fill>, n: nat)
    requires |levels| < 0xFFFF && bids <= |levels| && n <= |Facing(levels, bids, rep.buy)|
    requires Walked(Facing(levels, bids, rep.buy), gone, rep, op, n, fills, remaining)
    requires n > 0 ==> below == FacingIndex(bids, rep.buy, 0) && above == FacingIndex(bids, rep.buy, n - 1)
    requires n == 0 && rep.buy ==> below == bids && above == HiBid(bids)
    requires n == 0 && !rep.buy ==> below == HiBid(bids) && above == bids
    requires op == FillSome ==> modified == above
    requires n > 0 ==> Crosses(rep, Facing(levels, bids, rep.buy)[0].price) && Crosses(rep, Facing(levels, bids, rep.buy)[n - 1].price)
    requires op == RestRemainder ==> n > 0
    ensures Plan(levels, bids, rep, gone, Ends(rep.buy, below, above, op, modified, remaining), fills, n)
  {
    FacingLength(levels, bids, rep.buy);
  }

  lemma PlanSlot(levels: seq<Level>, bids: nat, rep: Order, gone: set<u32>, op: Op, below: u16, above: u16, at: nat)
    requires |levels| < 0xFFFF && bids <= |levels| && Ascending(levels)
    requires SlotRange(rep.buy, op, below, above, at)
    requires Neighbours(levels, bids, rep.price, rep.buy, at, op == Append)
    requires rep.Gtc() && Halted(Facing(levels, bids, rep.buy), rep, 0)
    ensures Plan(levels, bids, rep, gone, Ends(rep.buy, below, above, op, 0, rep.quantity), [], 0)
  {
    NeighboursSlot(levels, bids, rep.price, rep.buy, at, op == Append);
  }

  /** Nothing faces the order that it would trade with. */
  ghost predicate NoTrade(levels: seq<Level>, bids: nat, rep: Order)
    requires bids <= |levels|
  {
    Halted(Facing(levels, bids, rep.buy), rep, 0)
  }

  /** The marketability test: is the inside level of the other side within reach? */
  method Marketable(m: Mbo, ghost levels: seq<Level>, ghost bids: nat, rep: Order) returns (crosses: bool)
    requires OldBook(m, levels, bids)
    ensures crosses == !NoTrade(levels, bids, rep)
  {
    FacingLength(levels, bids, rep.buy);
    var hi := m.hiBidIndex;
    var loAsk := Step16(hi, 1);
    var start := if rep.buy then loAsk else hi;
    var hasOpponents := if rep.buy then loAsk < m.levelCount else hi != MAX_U16;
    if hasOpponents {
      FacingPrice(m, levels, bids, rep.buy, 0);
    }
    crosses := hasOpponents && (rep.market || Signed(rep.buy, m.index[start].price) <= Signed(rep.buy, rep.price));
  }

  /** The side of ob_affected_range that trades or rests. */
  method TradeRange(m: Mbo, ghost levels: seq<Level>, ghost bids: nat, rep: Order, own: Target, co: Target)
    returns (r: Range, fills: seq<Fill>, ghost n: nat)
    requires OldBook(m, levels, bids) && TargetsOk(levels, own, co) && (rep.quantity > 0 || !rep.Gtc())
    requires rep.market ==> !rep.Gtc()
    ensures Plan(levels, bids, rep, Skipped(own, co), r, fills, n)
  {
    ghost var facing, gone := Facing(levels, bids, rep.buy), Skipped(own, co);
    var multiplier: int := if rep.buy then 1 else -1;
    var start := if rep.buy then Step16(m.hiBidIndex, 1) else m.hiBidIndex;
    var crosses := Marketable(m, levels, bids, rep);
    if crosses {
      FacingLength(levels, bids, rep.buy);
      var top := if rep.buy then Step16(m.levelCount, -1) else 0;
      var op, above, modified, remaining;
      op, above, modified, remaining, fills, n := Walk(m, levels, bids, rep, own, co, start, top);
      PlanWalk(levels, bids, rep, gone, op, start, above, modified, remaining, fills, n);
      r := Ends(rep.buy, start, above, op, modified, remaining);
    } else if rep.market || !rep.Gtc() {
      // nobody to trade with and nothing may rest: an empty range, and no level is written
      ClearedNone(facing, gone, rep);
      fills, n := [], 0;
      PlanWalk(levels, bids, rep, gone, Exact, start, Step16(start, -multiplier), 0, rep.quantity, fills, n);
      r := Ends(rep.buy, start, Step16(start, -multiplier), Exact, 0, rep.quantity);
    } else {
      r, fills, n := RestRange(m, levels, bids, rep, gone);
    }
  }

  method RestRange(m: Mbo, ghost levels: seq<Level>, ghost bids: nat, rep: Order, ghost gone: set<u32>)
    returns (r: Range, fills: seq<Fill>, ghost n: nat)
    requires OldBook(m, levels, bids) && (rep.quantity > 0 || !rep.Gtc())
    requires rep.Gtc() && !rep.market && NoTrade(levels, bids, rep)
    ensures Plan(levels, bids, rep, gone, r, fills, n)
  {
    StoredIndexed(m, levels);
    FacingLength(levels, bids, rep.buy);
    if |Facing(levels, bids, rep.buy)| > 0 {
      FacingAt(levels, bids, rep.buy, 0);
    }
    var op, below, above;
    ghost var at;
    op, below, above, at := FindSlot(m, levels, bids, rep.price, rep.buy);
    PlanSlot(levels, bids, rep, gone, op, below, above, at);
    r, fills, n := Ends(rep.buy, below, above, op, 0, rep.quantity), [], 0;
  }
}
