/** The runner that fills a new snapshot (mbo_copy_level, mbo_app_level, mbo_shrink_level,
mbo_insert_level, mbo_fill_remove, mbo_splice_level, ob_copy_span and mbo_jump of src/ob.c). */
module SnapshotWriter {
  import opened Machine
  import opened Book
  import opened BookFacts
  import opened Snapshot

  /** Longest level mbo_copy_level can copy: it narrows the byte size to 16 bits. */
  const COPY_LIMIT := 8191

  /** The byte count mbo_copy_level passes to memcpy is the level's size exactly up to here. */
  lemma CopySizeExact(count: u16)
    ensures U16(LEVEL_BYTES + ENTRY_BYTES * count) == LEVEL_BYTES + ENTRY_BYTES * count <==> count <= COPY_LIMIT
  {
  }

  lemma KeptOne(kept: seq<Entry>, e: Entry)
    ensures Words(kept + [e]) == Words(kept) + [e.id, e.qty]
    ensures Total(kept + [e]) == Total(kept) + e.qty
  {
    WordsConcat(kept, [e]);
    TotalConcat(kept, [e]);
    assert Words([e]) == [e.id, e.qty] + Words([e][1..]);
    assert Total([e]) == e.qty + Total([e][1..]);
  }

  lemma KeepNext(orders: seq<Entry>, i: nat, gone: set<u32>)
    requires i < |orders|
    ensures var kept, e := Keep(orders[..i], gone), orders[i];
            Keep(orders[..i + 1], gone) == if e.id in gone then kept else kept + [e]
    ensures var kept, e := Keep(orders[..i], gone), orders[i];
            e.id !in gone ==> Words(Keep(orders[..i + 1], gone)) == Words(kept) + [e.id, e.qty]
    ensures var kept, e := Keep(orders[..i], gone), orders[i];
            e.id !in gone ==> Total(Keep(orders[..i + 1], gone)) == Total(kept) + e.qty
  {
    assert orders[..i + 1] == orders[..i] + [orders[i]];
    KeepConcat(orders[..i], [orders[i]], gone);
    assert Keep([orders[i]], gone) == if orders[i].id in gone then [] else [orders[i]];
    KeptOne(Keep(orders[..i], gone), orders[i]);
  }

  lemma {:induction false} SwapFirst(orders: seq<Entry>, id: u32, i: nat, e: Entry)
    requires i < |orders| && orders[i].id == id
    requires forall k | 0 <= k < i :: orders[k].id != id
    ensures SwapEntry(orders, id, e) == orders[i := e]
    ensures Words(orders[i := e]) == Words(orders)[2 * i := e.id][2 * i + 1 := e.qty]
    ensures Total(orders[i := e]) == Total(orders) - orders[i].qty + e.qty
  {
    if i == 0 {
      assert orders[0 := e] == [e] + orders[1..];
    } else {
      SwapFirst(orders[1..], id, i - 1, e);
      assert orders[i := e][1..] == orders[1..][i - 1 := e];
    }
  }

  class Writer {
    var index: seq<MboIndex>
    var data: seq<u32>
    var level: nat  // the word where the level being written starts

    ghost var levels: seq<Level>  // finished levels
    ghost var open: seq<Level>    // the level being written, if any

    ghost predicate Valid()
      reads this
    {
      && |open| <= 1
      && index == IndexFrom(levels + open, 0)
      && data == Data(levels + open)
      && level == |Data(levels)|
    }

    constructor ()
      ensures Valid() && levels == [] && open == []
    {
      index, data, level, levels, open := [], [], 0, [], [];
    }

    /** new_runner->index: how many levels are finished. */
    function Written(): (n: nat)
      requires Valid() && open == []
      reads this
      ensures n == |levels|
    {
      |index|
    }

    /** The finished snapshot and the byte size it takes. */
    method Finish(hiBidIndex: u16, levelCount: u16) returns (m: Mbo, size: nat)
      requires Valid() && open == [] && levelCount == |levels|
      ensures Represents(m, levels) && m.hiBidIndex == hiBidIndex && size == Size(levels)
    {
      assert levels + open == levels;
      m := Mbo(hiBidIndex, levelCount, index, data);
      size := MBO_BYTES + INDEX_BYTES * levelCount + 4 * level;
    }

    /** Every writer operation ends in this state: one more open level. */
    lemma Opened(l: Level)
      requires index == IndexFrom(levels, 0) + [MboIndex(l.price, 4 * level, l.quantity)]
      requires data == Data(levels) + Payload(l.orders)
      requires level == |Data(levels)| && open == [l]
      ensures Valid()
    {
      IndexConcat(levels, [l], 0);
      DataConcat(levels, [l]);
      DataOne(l);
    }

    /** mbo_jump on the new side: the open level is finished. */
    method Jump()
      requires Valid() && |open| == 1 && |open[0].orders| < 0x1_0000
      modifies this
      ensures Valid() && open == [] && levels == old(levels + open)
    {
      DataConcat(levels, open);
      DataOne(open[0]);
      assert open == [open[0]];
      assert data[level] == U16(|open[0].orders|);
      level := level + 1 + 2 * data[level];
      levels, open := levels + open, [];
      assert levels + open == levels;
    }

    /** Start a level: its index entry, then its payload. */
    method Put(price: u16, quantity: nat, payload: seq<u32>, ghost orders: seq<Entry>)
      requires Valid() && open == []
      requires payload == Payload(orders)
      modifies this
      ensures Valid() && levels == old(levels) && open == [Level(price, quantity, orders)]
    {
      assert levels + open == levels;
      index := index + [MboIndex(price, 4 * level, quantity)];
      data := data + payload;
      open := [Level(price, quantity, orders)];
      Opened(open[0]);
    }

    /** mbo_copy_level. */
    method CopyLevel(from: Cursor)
      requires Valid() && open == [] && from.Valid() && from.index < |from.levels|
      requires |from.levels[from.index].orders| <= COPY_LIMIT
      modifies this
      ensures Valid() && levels == old(levels) && open == [from.levels[from.index]]
    {
      var m := from.Metadata();
      var bytes := U16(LEVEL_BYTES + ENTRY_BYTES * from.OrderCount());
      from.Here();
      Put(m.price, m.quantity, from.mbo.data[from.level..from.level + bytes / 4], from.levels[from.index].orders);
    }

    /** mbo_insert_level: a fresh level with one order. */
    method InsertLevel(id: u32, price: u16, quantity: u32)
      requires Valid() && open == []
      modifies this
      ensures Valid() && levels == old(levels) && open == [At(price, [Entry(id, quantity)])]
    {
      KeptOne([], Entry(id, quantity));
      assert [] + [Entry(id, quantity)] == [Entry(id, quantity)];
      Put(price, quantity, [1, id, quantity], [Entry(id, quantity)]);
    }

    /** The open level sits at the end of the index and of the payload area. */
    lemma OpenParts()
      requires Valid() && |open| == 1
      ensures index == IndexFrom(levels, 0) + [MboIndex(open[0].price, 4 * level, open[0].quantity)]
      ensures data == Data(levels) + Payload(open[0].orders)
    {
      assert open == [open[0]];
      IndexConcat(levels, open, 0);
      DataConcat(levels, open);
      DataOne(open[0]);
    }

    /** mbo_app_level: queue one more order on the open level. */
    method AppLevel(id: u32, quantity: u32)
      requires Valid() && |open| == 1 && |open[0].orders| < 0xFFFF
      modifies this
      ensures Valid() && levels == old(levels)
      ensures open == [Level(old(open[0].price), old(open[0].quantity) + quantity, old(open[0].orders) + [Entry(id, quantity)])]
    {
      ghost var was := open[0];
      OpenParts();
      var last := |index| - 1;
      data := data[level := data[level] + 1] + [id, quantity];
      index := index[last := index[last].(quantity := index[last].quantity + quantity)];
      open := [Level(was.price, was.quantity + quantity, was.orders + [Entry(id, quantity)])];
      KeptOne(was.orders, Entry(id, quantity));
      assert data == Data(levels) + Payload(open[0].orders);
      Opened(open[0]);
    }

    /** Where entry i of the open level is stored. */
    lemma OpenWords(i: nat)
      requires Valid() && |open| == 1 && i < |open[0].orders|
      ensures level + 2 + 2 * i < |data|
      ensures data[level + 1 + 2 * i] == open[0].orders[i].id
      ensures data[level + 2 + 2 * i] == open[0].orders[i].qty
    {
      OpenParts();
      WordsAt(open[0].orders, i);
    }

    /** The slot of the first order with this id on the open level. */
    method FindOrder(id: u32) returns (i: nat)
      requires Valid() && |open| == 1
      requires exists k :: 0 <= k < |open[0].orders| && open[0].orders[k].id == id
      ensures i < |open[0].orders| && open[0].orders[i].id == id
      ensures forall k | 0 <= k < i :: open[0].orders[k].id != id
    {
      i := 0;
      OpenWords(i);
      while data[level + 1 + 2 * i] != id
        invariant 0 <= i < |open[0].orders| && level + 2 + 2 * i < |data|
        invariant forall k | 0 <= k < i :: open[0].orders[k].id != id
        invariant exists k :: i <= k < |open[0].orders| && open[0].orders[k].id == id
        invariant data[level + 1 + 2 * i] == open[0].orders[i].id
        decreases |open[0].orders| - i
      {
        i := i + 1;
        OpenWords(i);
      }
    }

    /** mbo_shrink_level: the first order with this id gets a new size and id, in place. */
    method ShrinkLevel(id: u32, quantity: u32, newId: u32)
      requires Valid() && |open| == 1
      requires exists k :: 0 <= k < |open[0].orders| && open[0].orders[k].id == id
      requires forall e | e in open[0].orders && e.id == id :: quantity <= e.qty
      requires open[0].quantity == Total(open[0].orders)
      modifies this
      ensures Valid() && levels == old(levels)
      ensures open == [At(old(open[0].price), SwapEntry(old(open[0].orders), id, Entry(newId, quantity)))]
    {
      ghost var was := open[0];
      var i := FindOrder(id);
      OpenParts();
      OpenWords(i);
      assert was.orders[i] in was.orders;
      SwapFirst(was.orders, id, i, Entry(newId, quantity));
      var last := |index| - 1;
      var cut := data[level + 2 + 2 * i] - quantity;
      index := index[last := index[last].(quantity := index[last].quantity - cut)];
      data := data[level + 2 + 2 * i := quantity][level + 1 + 2 * i := newId];
      open := [At(was.price, SwapEntry(was.orders, id, Entry(newId, quantity)))];
      assert data == Data(levels) + Payload(open[0].orders) by {
        PokeWords(Data(levels), was.orders, i, Entry(newId, quantity));
      }
      Opened(open[0]);
    }

    /** mbo_splice_level: the level without the cancelled order. */
    method SpliceLevel(from: Cursor, cancelId: u32)
      requires Valid() && open == [] && from.Valid() && from.index < |from.levels|
      requires from.levels[from.index].quantity == Total(from.levels[from.index].orders)
      modifies this
      ensures Valid() && levels == old(levels)
      ensures open == [At(from.levels[from.index].price, Keep(from.levels[from.index].orders, {cancelId}))]
    {
      var m := from.Metadata();
      var quantity, kept := Spliced(m.quantity, from.CurrentOrders(), cancelId);
      Put(m.price, quantity, Payload(kept), kept);
    }

    /** mbo_fill_remove: the taker eats into this level; pulled orders are neither filled nor kept. */
    method FillRemove(from: Cursor, remainingQuantity: u32, cancelId: u32, cancelId2: u32) returns (fills: seq<Fill>)
      requires Valid() && open == [] && from.Valid() && from.index < |from.levels|
      requires from.levels[from.index].quantity == Total(from.levels[from.index].orders)
      modifies this
      ensures Valid() && levels == old(levels)
      ensures var e := Eat(Keep(from.levels[from.index].orders, {cancelId, cancelId2}), remainingQuantity);
              open == [At(from.levels[from.index].price, e.rest)] && fills == e.fills
    {
      var m := from.Metadata();
      var quantity, kept;
      quantity, kept, fills := Bitten(m.quantity, from.CurrentOrders(), remainingQuantity, cancelId, cancelId2);
      Put(m.price, quantity, Payload(kept), kept);
    }

    /** A whole run of finished levels at once. */
    method PutRun(words: seq<u32>, more: seq<MboIndex>, ghost run: seq<Level>)
      requires Valid() && open == []
      requires words == Data(run) && more == IndexFrom(run, level)
      modifies this
      ensures Valid() && open == [] && levels == old(levels) + run
    {
      assert levels + open == levels;
      IndexConcat(levels, run, 0);
      DataConcat(levels, run);
      index := index + more;
      data := data + words;
      level := level + |words|;
      levels := levels + run;
      assert levels + open == levels;
    }

    /** ob_copy_span: a run of untouched levels in one copy, every offset shifted by the same delta. */
    method CopySpan(from: Cursor, count: nat)
      requires Valid() && open == [] && from.Valid() && from.index + count <= |from.levels|
      modifies this, from
      ensures from.Valid() && from.index == old(from.index) + count
      ensures Valid() && open == [] && levels == old(levels) + from.levels[old(from.index)..old(from.index) + count]
    {
      if count == 0 {
        assert levels + [] == levels;
        return;
      }
      ghost var at := from.index;
      ghost var before, run, after := from.levels[..at], from.levels[at..at + count], from.levels[at + count..];
      assert from.levels == before + run + after;
      assert from.levels[..at + count] == before + run;
      var words, more := Span(from.mbo, from.index, count, level, before, run, after);
      PutRun(words, more, run);
      from.Advance(count, |words|);
    }
  }

  /** Overwriting one entry's two words overwrites that entry. */
  lemma PokeWords(before: seq<u32>, orders: seq<Entry>, i: nat, e: Entry)
    requires i < |orders|
    requires Words(orders[i := e]) == Words(orders)[2 * i := e.id][2 * i + 1 := e.qty]
    ensures var at := |before| + 1 + 2 * i;
            (before + Payload(orders))[at + 1 := e.qty][at := e.id] == before + Payload(orders[i := e])
  {
    var at := |before| + 1 + 2 * i;
    var l, r := (before + Payload(orders))[at + 1 := e.qty][at := e.id], before + Payload(orders[i := e]);
    forall k | 0 <= k < |l|
      ensures l[k] == r[k]
    {
      if k > |before| {
        assert r[k] == Words(orders[i := e])[k - |before| - 1];
      }
    }
  }

  /** The orders of a level without one of them, and what is left of its total. */
  method Spliced(total: nat, orders: seq<Entry>, cancelId: u32) returns (quantity: nat, kept: seq<Entry>)
    requires total == Total(orders)
    ensures kept == Keep(orders, {cancelId}) && quantity == Total(kept)
  {
    quantity, kept := total, [];
    for i := 0 to |orders|
      invariant kept == Keep(orders[..i], {cancelId})
      invariant quantity == Total(orders[i..]) + Total(kept)
    {
      KeepNext(orders, i, {cancelId});
      if orders[i].id == cancelId {
        quantity := quantity - orders[i].qty;
      } else {
        kept := kept + [orders[i]];
      }
    }
    assert orders[..|orders|] == orders;
  }

  /** The state of the eating loop: what stays, the fills, the taker's rest and the level's total. */
  datatype Bite = Bite(kept: seq<Entry>, fills: seq<Fill>, remaining: u32, quantity: nat)

  /** The orders of a level the taker ate into, what is left of its total, and the fills. */
  method Bitten(total: nat, orders: seq<Entry>, remainingQuantity: u32, cancelId: u32, cancelId2: u32)
    returns (quantity: nat, kept: seq<Entry>, fills: seq<Fill>)
    requires total == Total(orders)
    ensures var e := Eat(Keep(orders, {cancelId, cancelId2}), remainingQuantity);
            kept == e.rest && quantity == Total(e.rest) && fills == e.fills
  {
    ghost var gone := {cancelId, cancelId2};
    var b := Bite([], [], remainingQuantity, total);
    assert orders[0..] == orders;
    for i := 0 to |orders|
      invariant b.quantity == Total(orders[i..]) + Total(b.kept)
      invariant Ate(b, Keep(orders[i..], gone)) == Eat(Keep(orders, gone), remainingQuantity)
    {
      EatNext(b, orders, i, gone);
      b := BiteStep(b, orders[i], orders[i].id == cancelId || orders[i].id == cancelId2);
    }
    assert orders[|orders|..] == [];
    assert b.kept + [] == b.kept && b.fills + [] == b.fills;
    quantity, kept, fills := b.quantity, b.kept, b.fills;
  }

  /** One more order of the level: pulled, kept whole, cut, or filled. */
  function BiteStep(b: Bite, e: Entry, pulled: bool): Bite
    requires e.qty <= b.quantity
  {
    if pulled then
      // pulled by either leg: its size just comes off the level
      b.(quantity := b.quantity - e.qty)
    else if b.remaining == 0 then
      b.(kept := b.kept + [e])
    else if e.qty > b.remaining then
      Bite(b.kept + [Entry(e.id, e.qty - b.remaining)], b.fills + [Fill(e.id, b.remaining, true)], 0, b.quantity - b.remaining)
    else
      Bite(b.kept, b.fills + [Fill(e.id, e.qty, false)], b.remaining - e.qty, b.quantity - e.qty)
  }

  /** What was eaten so far, followed by what is still to be eaten. */
  function Ate(b: Bite, rest: seq<Entry>): Eaten {
    var e := Eat(rest, b.remaining);
    Eaten(b.kept + e.rest, b.fills + e.fills, e.left)
  }

  lemma AteOne(b: Bite, e: Entry, tail: seq<Entry>)
    requires e.qty <= b.quantity
    ensures Ate(BiteStep(b, e, false), tail) == Ate(b, [e] + tail)
    ensures var n := BiteStep(b, e, false); n.quantity - Total(n.kept) == b.quantity - Total(b.kept) - e.qty
  {
    assert ([e] + tail)[1..] == tail;
    KeptOne(b.kept, e);
    if e.qty > b.remaining {
      KeptOne(b.kept, Entry(e.id, e.qty - b.remaining));
    }
  }

  lemma EatNext(b: Bite, orders: seq<Entry>, i: nat, gone: set<u32>)
    requires i < |orders| && b.quantity == Total(orders[i..]) + Total(b.kept)
    ensures orders[i].qty <= b.quantity
    ensures var n := BiteStep(b, orders[i], orders[i].id in gone);
            && n.quantity == Total(orders[i + 1..]) + Total(n.kept)
            && Ate(n, Keep(orders[i + 1..], gone)) == Ate(b, Keep(orders[i..], gone))
  {
    assert orders[i..][1..] == orders[i + 1..];
    if orders[i].id !in gone {
      AteOne(b, orders[i], Keep(orders[i + 1..], gone));
    }
  }

  /** The words of a run of levels and its index entries, moved to start at word target. */
  method Span(mbo: Mbo, at: nat, count: nat, target: nat, ghost before: seq<Level>, ghost run: seq<Level>,
              ghost after: seq<Level>)
    returns (words: seq<u32>, more: seq<MboIndex>)
    requires Stored(mbo, before + run + after) && 0 < count && at == |before| && count == |run|
    ensures words == Data(run) && more == IndexFrom(run, target)
    ensures |Data(before + run)| == |Data(before)| + |words|
  {
    RunEnds(mbo, before, run, after);
    RunData(before, run, after);
    RunIndex(before, run, after);
    var start, last := mbo.index[at].byteOffset, mbo.index[at + count - 1].byteOffset;
    var span := last + (LEVEL_BYTES + ENTRY_BYTES * mbo.data[last / 4]) - start;
    Words4(|Data(before)|, |Data(before + run)|);
    words := mbo.data[start / 4..start / 4 + span / 4];
    // the shift is negative once something before the run has shrunk
    more := Rebased(mbo.index[at..at + count], 4 * target - start, run, |Data(before)|, target);
  }

  lemma Words4(a: nat, b: nat)
    requires a <= b
    ensures 4 * a / 4 == a && (4 * b - 4 * a) / 4 == b - a
  {
  }

  /** A run starts where its first payload does, and ends where its last payload does. */
  lemma RunEnds(mbo: Mbo, before: seq<Level>, run: seq<Level>, after: seq<Level>)
    requires Stored(mbo, before + run + after) && run != []
    ensures mbo.index[|before|].byteOffset == 4 * |Data(before)|
    ensures var last := mbo.index[|before| + |run| - 1].byteOffset;
            && last / 4 < |mbo.data|
            && last + (LEVEL_BYTES + ENTRY_BYTES * mbo.data[last / 4]) == 4 * |Data(before + run)|
  {
    var n := |run| - 1;
    assert before + run + after == before + [run[0]] + (run[1..] + after);
    OffsetAt(mbo, before, run[0], run[1..] + after);
    LastEnds(mbo, before + run[..n], run[n], after, before + run);
  }

  lemma LastEnds(mbo: Mbo, init: seq<Level>, l: Level, after: seq<Level>, upTo: seq<Level>)
    requires upTo == init + [l]
    requires Stored(mbo, upTo + after)
    ensures var last := mbo.index[|init|].byteOffset;
            && last / 4 < |mbo.data|
            && last + (LEVEL_BYTES + ENTRY_BYTES * mbo.data[last / 4]) == 4 * |Data(upTo)|
  {
    OffsetAt(mbo, init, l, after);
    PayloadAt(mbo, init, l, after);
  }

  /** Index entries with every byte offset shifted by the same delta. */
  method Rebased(src: seq<MboIndex>, delta: int, ghost run: seq<Level>, ghost from: nat, ghost to: nat)
    returns (dst: seq<MboIndex>)
    requires src == IndexFrom(run, from) && delta == 4 * to - 4 * from
    ensures dst == IndexFrom(run, to)
  {
    dst := [];
    ghost var at: nat := 0;  // words of the run already rebased
    for i := 0 to |src|
      invariant dst + IndexFrom(run[i..], to + at) == IndexFrom(run, to)
      invariant src[i..] == IndexFrom(run[i..], from + at)
    {
      assert run[i..][1..] == run[i + 1..] && src[i..][1..] == src[i + 1..];
      assert src[i] == src[i..][0];
      dst := dst + [src[i].(byteOffset := src[i].byteOffset + delta)];
      at := at + |Payload(run[i].orders)|;
    }
    assert run[|src|..] == [];
  }
}
