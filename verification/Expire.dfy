/** ob_expire of src/ob.c: a whole batch of resting orders pruned in one new snapshot, by two passes
that share one cursor over the sorted cancels. */
module Expire {
  import opened Machine
  import opened Book
  import opened BookFacts
  import opened Snapshot
  import opened SnapshotWriter
  import opened Ranges
  import opened FirstLeg
  import opened Canrep

  // ---------- The sorted batch ----------

  /** One expiry; the program packs it as price << 32 | id. */
  datatype Key = Key(price: u16, id: u32)

  function Word(k: Key): u64 {
    k.price * 0x1_0000_0000 + k.id
  }

  predicate Before(a: Key, b: Key) {
    a.price < b.price || (a.price == b.price && a.id < b.id)
  }

  /** The heap's order on packed words is price first, then id, and the word gives both back. */
  lemma WordOrder(a: Key, b: Key)
    ensures Word(a) < Word(b) <==> Before(a, b)
    ensures Word(a) / 0x1_0000_0000 == a.price && Word(a) % 0x1_0000_0000 == a.id
  {
  }

  ghost predicate Sorted(keys: seq<Key>) {
    forall i, j | 0 <= i < j < |keys| :: Before(keys[i], keys[j])
  }

  /** The ids of a run of keys. */
  function Ids(keys: seq<Key>): set<u32> {
    set k | k in keys :: k.id
  }

  /** Every key names an order that rests at its price. */
  ghost predicate AllRest(keys: seq<Key>, levels: seq<Level>) {
    forall k | k in keys :: exists i :: 0 <= i < |levels| && levels[i].price == k.price && Occurs(levels[i].orders, k.id) > 0
  }

  // ---------- cancels_hit ----------

  ghost predicate IdsClimb(run: seq<Key>) {
    forall i, j | 0 <= i < j < |run| :: run[i].id < run[j].id
  }

  /** Binary search over one price's run: exact. */
  method CancelsHit(run: seq<Key>, id: u32) returns (hit: bool)
    requires IdsClimb(run)
    ensures hit <==> id in Ids(run)
  {
    var lo, hi := 0, |run|;
    while lo < hi
      invariant 0 <= lo <= hi <= |run|
      invariant forall i | 0 <= i < lo :: run[i].id < id
      invariant forall i | hi <= i < |run| :: id < run[i].id
    {
      var mid := (lo + hi) / 2;
      if run[mid].id == id {
        assert run[mid] in run;
        return true;
      }
      if run[mid].id < id {
        lo := mid + 1;
      } else {
        hi := mid;
      }
    }
    hit := false;
  }

  // ---------- level_hits ----------

  /** The cursor has passed exactly the keys priced below this level. */
  ghost predicate Passed(keys: seq<Key>, c: nat, price: int) {
    && c <= |keys|
    && (forall k | 0 <= k < c :: keys[k].price < price)
    && (forall k | c <= k < |keys| :: price <= keys[k].price)
  }

  /** These are all the keys of one price. */
  ghost predicate RunAt(keys: seq<Key>, c: nat, hits: nat, price: u16) {
    && c + hits <= |keys|
    && (forall k | 0 <= k < |keys| :: keys[k].price == price <==> c <= k < c + hits)
  }

  method LevelHits(keys: seq<Key>, from: nat, price: u16) returns (c: nat, hits: nat)
    requires Sorted(keys) && from <= |keys| && forall k | 0 <= k < from :: keys[k].price < price
    ensures RunAt(keys, c, hits, price) && Passed(keys, c, price) && Passed(keys, c + hits, price + 1)
  {
    c := from;
    while c < |keys| && keys[c].price < price
      invariant from <= c <= |keys| && forall k | 0 <= k < c :: keys[k].price < price
    {
      c := c + 1;
    }
    hits := 0;
    while c + hits < |keys| && keys[c + hits].price == price
      invariant c + hits <= |keys| && forall k | c <= k < c + hits :: keys[k].price == price
    {
      hits := hits + 1;
    }
  }

  // ---------- One level and its run ----------

  /** On a level, the ids of its own run are the only ones of the whole batch. */
  lemma RunIsBatch(keys: seq<Key>, c: nat, hits: nat, levels: seq<Level>, i: nat)
    requires BookOk(levels) && i < |levels| && AllRest(keys, levels) && RunAt(keys, c, hits, levels[i].price)
    ensures Keep(levels[i].orders, Ids(keys[c..c + hits])) == Keep(levels[i].orders, Ids(keys))
  {
    var run := keys[c..c + hits];
    forall e | e in levels[i].orders
      ensures e.id in Ids(run) <==> e.id in Ids(keys)
    {
      if e.id in Ids(keys) {
        var k :| k in keys && k.id == e.id;
        var j :| 0 <= j < |levels| && levels[j].price == k.price && Occurs(levels[j].orders, k.id) > 0;
        OnlyThere(levels, i, e.id, e.qty, j);
        var at :| 0 <= at < |keys| && keys[at] == k;
        assert run[at - c] == k;
      }
    }
    SameKept(levels[i].orders, Ids(run), Ids(keys));
  }

  lemma {:induction false} SameKept(orders: seq<Entry>, a: set<u32>, b: set<u32>)
    requires forall e | e in orders :: e.id in a <==> e.id in b
    ensures Keep(orders, a) == Keep(orders, b)
  {
    if orders != [] {
      SameKept(orders[1..], a, b);
    }
  }

  /** A run takes one order off its level per key. */
  lemma {:induction false} RunLength(orders: seq<Entry>, run: seq<Key>)
    requires forall id: u32 :: Occurs(orders, id) <= 1
    requires forall k | k in run :: Occurs(orders, k.id) > 0
    requires forall i, j | 0 <= i < j < |run| :: run[i].id != run[j].id
    ensures |Keep(orders, Ids(run))| == |orders| - |run|
  {
    if run == [] {
      KeepNone(orders, Ids(run));
    } else {
      var n := |run| - 1;
      var init, last := run[..n], run[n];
      RunLength(orders, init);
      assert Ids(run) == Ids(init) + {last.id} by {
        assert run == init + [last];
      }
      KeepUnion(orders, Ids(init), {last.id});
      assert last in run && last.id !in Ids(init);
      OccursKeep(orders, Ids(init), last.id);
      OccursMember(Keep(orders, Ids(init)), last.id);
      var e :| e in Keep(orders, Ids(init)) && e.id == last.id;
      KeepOne(Keep(orders, Ids(init)), e);
    }
  }

  /** The program's test for a level that survives: fewer hits than orders. */
  lemma LevelSurvivesHits(keys: seq<Key>, c: nat, hits: nat, levels: seq<Level>, i: nat)
    requires BookOk(levels) && i < |levels| && Sorted(keys) && AllRest(keys, levels) && RunAt(keys, c, hits, levels[i].price)
    ensures hits < |levels[i].orders| <==> PruneLevel(levels[i], Ids(keys)) != []
    ensures hits == 0 ==> Keep(levels[i].orders, Ids(keys)) == levels[i].orders
    ensures Keep(levels[i].orders, Ids(keys[c..c + hits])) == Keep(levels[i].orders, Ids(keys))
    ensures IdsClimb(keys[c..c + hits])
  {
    var run := keys[c..c + hits];
    RunIsBatch(keys, c, hits, levels, i);
    forall id: u32
      ensures Occurs(levels[i].orders, id) <= 1
    {
      CountAt(levels, i, id);
      assert Count(levels, id) <= 1;
    }
    forall k | k in run
      ensures Occurs(levels[i].orders, k.id) > 0
    {
      RunRests(keys, c, hits, levels, i, k);
    }
    RunLength(levels[i].orders, run);
    if hits == 0 {
      KeepNone(levels[i].orders, Ids(run));
    }
  }

  lemma RunRests(keys: seq<Key>, c: nat, hits: nat, levels: seq<Level>, i: nat, k: Key)
    requires Ascending(levels) && i < |levels| && AllRest(keys, levels) && RunAt(keys, c, hits, levels[i].price)
    requires k in keys[c..c + hits]
    ensures Occurs(levels[i].orders, k.id) > 0
  {
    assert k in keys && k.price == levels[i].price;
    var j :| 0 <= j < |levels| && levels[j].price == k.price && Occurs(levels[j].orders, k.id) > 0;
  }

  // ---------- The two passes ----------

  ghost predicate ExpireReady(m: Mbo, levels: seq<Level>, bids: nat, keys: seq<Key>) {
    && OldBook(m, levels, bids)
    && (forall l | l in levels :: |l.orders| <= COPY_LIMIT)
    && Sorted(keys) && AllRest(keys, levels)
  }

  /** Where the shared cursor stands before level i. */
  ghost predicate CursorAt(keys: seq<Key>, c: nat, levels: seq<Level>, i: nat)
    requires i <= |levels|
  {
    c <= |keys| && (forall k | 0 <= k < c :: 0 < i && keys[k].price <= levels[i - 1].price)
  }

  lemma CursorNext(keys: seq<Key>, c: nat, hits: nat, levels: seq<Level>, i: nat)
    requires i < |levels| && Passed(keys, c + hits, levels[i].price + 1)
    ensures CursorAt(keys, c + hits, levels, i + 1)
  {
  }

  lemma CursorReady(keys: seq<Key>, c: nat, levels: seq<Level>, i: nat)
    requires Ascending(levels) && i < |levels| && CursorAt(keys, c, levels, i)
    ensures c <= |keys| && forall k | 0 <= k < c :: keys[k].price < levels[i].price
  {
  }

  lemma OneMoreLevel(levels: seq<Level>, i: nat, gone: set<u32>)
    requires i < |levels|
    ensures Prune(levels[..i + 1], gone) == Prune(levels[..i], gone) + PruneLevel(levels[i], gone)
    ensures |PruneLevel(levels[i], gone)| <= 1
  {
    assert levels[..i + 1] == levels[..i] + [levels[i]];
    PruneConcat(levels[..i], [levels[i]], gone);
    assert Prune([levels[i]], gone) == PruneLevel(levels[i], gone) + Prune([levels[i]][1..], gone);
  }

  lemma CountNext(levels: seq<Level>, i: nat, bids: nat, gone: set<u32>)
    requires i < |levels| && bids <= |levels|
    ensures var one := |PruneLevel(levels[i], gone)|;
            && (one == 0 || one == 1) && (one == 0 <==> PruneLevel(levels[i], gone) == [])
            && |Prune(levels[..i + 1], gone)| == |Prune(levels[..i], gone)| + one
            && |Prune(levels[..if i + 1 < bids then i + 1 else bids], gone)|
               == |Prune(levels[..if i < bids then i else bids], gone)| + if i < bids then one else 0
  {
    OneMoreLevel(levels, i, gone);
  }

  lemma NoneCounted(levels: seq<Level>, keys: seq<Key>)
    ensures levels[..0] == [] && Prune([], Ids(keys)) == [] && CursorAt(keys, 0, levels, 0)
  {
  }

  /** Fewer hits than orders: the level survives. */
  method Survives(m: Mbo, keys: seq<Key>, c: nat, i: nat, ghost levels: seq<Level>, ghost bids: nat)
    returns (next: nat, survives: bool)
    requires ExpireReady(m, levels, bids, keys) && i < |levels| && CursorAt(keys, c, levels, i)
    ensures CursorAt(keys, next, levels, i + 1) && (survives <==> PruneLevel(levels[i], Ids(keys)) != [])
  {
    hide CursorAt, PruneLevel;
    StoredIndexed(m, levels);
    CursorReady(keys, c, levels, i);
    var from, hits := LevelHits(keys, c, m.index[i].price);
    LevelSurvivesHits(keys, from, hits, levels, i);
    survives := hits < |OrdersAt(m, levels, i)|;
    next := from + hits;
    CursorNext(keys, from, hits, levels, i);
  }

  /** How many of the first i levels survive, and how many of those are bids. */
  method CountSurvivors(m: Mbo, keys: seq<Key>, ghost levels: seq<Level>, ghost bids: nat)
    returns (levelCount: u16, bidLevels: u16)
    requires ExpireReady(m, levels, bids, keys)
    ensures levelCount == |Prune(levels, Ids(keys))| && bidLevels == |Prune(levels[..bids], Ids(keys))|
  {
    hide Prune, PruneLevel, CursorAt;
    ghost var gone := Ids(keys);
    var c: nat := 0;
    levelCount, bidLevels := 0, 0;
    NoneCounted(levels, keys);
    StoredIndexed(m, levels);
    for i := 0 to m.levelCount
      invariant CursorAt(keys, c, levels, i)
      invariant levelCount == |Prune(levels[..i], gone)| <= i
      invariant bidLevels == |Prune(levels[..if i < bids then i else bids], gone)| <= levelCount
    {
      CountNext(levels, i, bids, gone);
      var survives;
      c, survives := Survives(m, keys, c, i, levels, bids);
      if survives {
        levelCount := levelCount + 1;
        if m.hiBidIndex != MAX_U16 && i <= m.hiBidIndex {
          bidLevels := bidLevels + 1;
        }
      }
    }
    assert levels[..|levels|] == levels;
  }

  /** mbo_prune_level: the level without its run's orders, and what is left of its total. */
  method PrunedOrders(orders: seq<Entry>, run: seq<Key>) returns (kept: seq<Entry>, quantity: nat)
    requires IdsClimb(run)
    ensures kept == Keep(orders, Ids(run)) && quantity == Total(kept)
  {
    kept, quantity := [], 0;
    for i := 0 to |orders|
      invariant kept == Keep(orders[..i], Ids(run)) && quantity == Total(kept)
    {
      KeepNext(orders, i, Ids(run));
      var hit := CancelsHit(run, orders[i].id);
      if !hit {
        kept := kept + [orders[i]];
        quantity := quantity + orders[i].qty;
      }
    }
    assert orders[..|orders|] == orders;
  }

  /** One level of pass two. */
  method PassLevel(from: Cursor, to: Writer, keys: seq<Key>, c: nat, hits: nat)
    requires from.Valid() && to.Valid() && to.open == [] && from.index < |from.levels|
    requires BookOk(from.levels) && |from.levels[from.index].orders| <= COPY_LIMIT
    requires Sorted(keys) && AllRest(keys, from.levels) && RunAt(keys, c, hits, from.levels[from.index].price)
    modifies from, to
    ensures from.Valid() && from.index == old(from.index) + 1
    ensures to.Valid() && to.open == []
    ensures to.levels == old(to.levels) + PruneLevel(from.levels[old(from.index)], Ids(keys))
  {
    ghost var l := from.levels[from.index];
    assert l in from.levels;
    LevelSurvivesHits(keys, c, hits, from.levels, from.index);
    if hits == 0 {
      to.CopyLevel(from);
      to.Jump();
    } else if hits < from.OrderCount() {
      var kept, quantity := PrunedOrders(from.CurrentOrders(), keys[c..c + hits]);
      KeepShrinks(l.orders, Ids(keys[c..c + hits]));
      to.Put(from.Metadata().price, quantity, Payload(kept), kept);
      to.Jump();
    } else {
      assert to.levels + [] == to.levels;
    }
    from.Jump();
  }

  /** ob_expire: exactly the book with the batch filtered out. */
  method ObExpire(keys: seq<Key>, m: Mbo, ghost levels: seq<Level>, ghost bids: nat) returns (now: Mbo, size: nat)
    requires ExpireReady(m, levels, bids, keys)
    ensures Refines(now, size, [], Outcome(Pull(SidesOf(levels, bids), Ids(keys)), []))
    ensures size <= Size(levels)
  {
    var levelCount, bidLevels := CountSurvivors(m, keys, levels, bids);
    ghost var gone := Ids(keys);
    var from := new Cursor(m, levels);
    var to := new Writer();
    var c: nat := 0;
    assert levels[..0] == [];
    for i := 0 to m.levelCount
      invariant fresh(from) && fresh(to) && from.Valid() && from.levels == levels && from.index == i
      invariant to.Valid() && to.open == [] && to.levels == Prune(levels[..i], gone)
      invariant CursorAt(keys, c, levels, i)
    {
      CursorReady(keys, c, levels, i);
      var hits;
      c, hits := LevelHits(keys, c, from.Metadata().price);
      OneMoreLevel(levels, i, gone);
      assert levels[i] in levels;
      PassLevel(from, to, keys, c, hits);
      c := c + hits;
      CursorNext(keys, c - hits, hits, levels, i);
    }
    assert levels[..|levels|] == levels;
    PruneTail(levels, 0, bids, gone);
    PruneSize(levels, gone);
    BidsFit(levels, bids, gone);
    now, size := to.Finish(if bidLevels > 0 then bidLevels - 1 else MAX_U16, levelCount);
  }

  lemma BidsFit(levels: seq<Level>, bids: nat, gone: set<u32>)
    requires bids <= |levels| < 0xFFFF
    ensures |Prune(levels[..bids], gone)| < 0x1_0000
    ensures Prune(levels[..bids], gone) + Prune(levels[bids..], gone) == Prune(levels, gone)
  {
    PruneSize(levels[..bids], gone);
    PruneConcat(levels[..bids], levels[bids..], gone);
    assert levels[..bids] + levels[bids..] == levels;
  }
}
