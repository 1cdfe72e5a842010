/** The parked orders made ready for a cross (the first half of auction_walk in src/server.c): market
orders in two lines by arrival, limits through two heaps into two sorted buffers, and within a price
the earliest first at the end the side is filled from. */
module AuctionPark {
  import opened Machine
  import opened Book
  import opened BookFacts
  import opened Settle
  import opened Ledger
  import opened Desk
  import opened ServerOrders
  import opened AuctionFill
  import opened AuctionHold
  import opened RingBuffer
  import opened Drains
  import opened Expire
  import Pq

  /** Market orders by arrival; limits climbing in price, bids filled from the top, asks from the bottom. */
  datatype Lists = Lists(marketBids: seq<u32>, marketAsks: seq<u32>, bidSorted: seq<u32>, askSorted: seq<u32>)

  predicate LiveLimit(id: u32, table: Table, isBuy: bool) {
    id in table && table[id].quantity > 0 && !table[id].market && table[id].buy == isBuy
  }

  predicate LiveMarket(id: u32, table: Table, isBuy: bool) {
    id in table && table[id].quantity > 0 && table[id].market && table[id].buy == isBuy
  }

  /** One side's market orders, in the order they arrived. */
  function Markets(arrivals: seq<u32>, table: Table, isBuy: bool): seq<u32> {
    if arrivals == [] then []
    else
      var id := arrivals[|arrivals| - 1];
      Markets(arrivals[..|arrivals| - 1], table, isBuy) + if LiveMarket(id, table, isBuy) then [id] else []
  }

  // ---------- The order of a side ----------

  ghost predicate Earlier(x: u32, y: u32, arrivals: seq<u32>) {
    exists i, j :: 0 <= i < j < |arrivals| && arrivals[i] == x && arrivals[j] == y
  }

  /** The better price goes first, and within a price the earlier arrival. */
  ghost predicate Ahead(x: u32, y: u32, arrivals: seq<u32>, table: Table, isBuy: bool) {
    && x in table && y in table
    && ((if isBuy then table[x].price > table[y].price else table[x].price < table[y].price)
        || (table[x].price == table[y].price && Earlier(x, y, arrivals)))
  }

  /** All of a side's live limits and nothing else, in the order they are to be filled. */
  ghost predicate Ranked(best: seq<u32>, arrivals: seq<u32>, table: Table, isBuy: bool) {
    && (forall id :: id in best <==> id in arrivals && LiveLimit(id, table, isBuy))
    && forall a, b | 0 <= a < b < |best| :: Ahead(best[a], best[b], arrivals, table, isBuy)
  }

  /** Both sides, ready to be filled. */
  ghost predicate LinedUp(l: Lists, arrivals: seq<u32>, table: Table) {
    && l.marketBids == Markets(arrivals, table, true) && l.marketAsks == Markets(arrivals, table, false)
    && Ranked(Reversed(l.bidSorted), arrivals, table, true) && Ranked(l.askSorted, arrivals, table, false)
  }

  // ---------- The words in the heaps ----------

  /** Both heaps climb. Asks are filled from the bottom and bids from the top, so a bid carries the
  complement of its place of arrival; done twice it is the place again. */
  function Tie(isBuy: bool, i: u32): u32 {
    if isBuy then MAX_U32 - i else i
  }

  function KeyAt(arrivals: seq<u32>, table: Table, isBuy: bool, i: nat): Key
    requires i < |arrivals| <= 0x1_0000_0000 && arrivals[i] in table
  {
    Key(table[arrivals[i]].price, Tie(isBuy, i))
  }

  /** What goes into a side's heap. */
  function LimitKeys(arrivals: seq<u32>, table: Table, isBuy: bool): seq<Key>
    requires |arrivals| <= 0x1_0000_0000
  {
    if arrivals == [] then []
    else
      var n := |arrivals| - 1;
      LimitKeys(arrivals[..n], table, isBuy) + if LiveLimit(arrivals[n], table, isBuy) then [KeyAt(arrivals, table, isBuy, n)] else []
  }

  /** The key of the i-th arrival, a live limit. */
  ghost predicate KeyOfArrival(k: Key, i: nat, arrivals: seq<u32>, table: Table, isBuy: bool)
    requires |arrivals| <= 0x1_0000_0000
  {
    i < |arrivals| && LiveLimit(arrivals[i], table, isBuy) && k == KeyAt(arrivals, table, isBuy, i)
  }

  lemma {:induction false} LimitKeysAre(arrivals: seq<u32>, table: Table, isBuy: bool)
    requires |arrivals| <= 0x1_0000_0000
    ensures forall k :: k in LimitKeys(arrivals, table, isBuy) <==> exists i :: KeyOfArrival(k, i, arrivals, table, isBuy)
    ensures NoTwins(LimitKeys(arrivals, table, isBuy))
  {
    if arrivals != [] {
      var n := |arrivals| - 1;
      var shorter := arrivals[..n];
      LimitKeysAre(shorter, table, isBuy);
      forall k: Key, i: nat | i < n
        ensures KeyOfArrival(k, i, arrivals, table, isBuy) <==> KeyOfArrival(k, i, shorter, table, isBuy)
      {
      }
      forall k: Key, i: nat | KeyOfArrival(k, i, arrivals, table, isBuy)
        ensures k in LimitKeys(arrivals, table, isBuy)
      {
        if i < n {
          assert KeyOfArrival(k, i, shorter, table, isBuy);
        }
      }
      forall k | k in LimitKeys(arrivals, table, isBuy)
        ensures exists i :: KeyOfArrival(k, i, arrivals, table, isBuy)
      {
        if k in LimitKeys(shorter, table, isBuy) {
          var i :| KeyOfArrival(k, i, shorter, table, isBuy);
          assert KeyOfArrival(k, i, arrivals, table, isBuy);
        } else {
          assert KeyOfArrival(k, n, arrivals, table, isBuy);
        }
      }
      if LiveLimit(arrivals[n], table, isBuy) {
        assert KeyAt(arrivals, table, isBuy, n) !in LimitKeys(shorter, table, isBuy);
      }
    }
  }

  /** The order a word stands for. */
  function Arrived(word: u64, arrivals: seq<u32>, isBuy: bool): u32
    requires Tie(isBuy, KeyOf(word).id) < |arrivals|
  {
    arrivals[Tie(isBuy, KeyOf(word).id)]
  }

  lemma WordHasArrival(words: seq<u64>, arrivals: seq<u32>, table: Table, isBuy: bool, n: nat)
    requires |arrivals| <= 0x1_0000_0000 && n < |words|
    requires forall k :: k in Unpacked(words) <==> k in LimitKeys(arrivals, table, isBuy)
    ensures var i := Tie(isBuy, KeyOf(words[n]).id); KeyOfArrival(KeyOf(words[n]), i, arrivals, table, isBuy)
  {
    LimitKeysAre(arrivals, table, isBuy);
    var key := KeyOf(words[n]);
    assert Unpacked(words)[n] == key;
    assert key in LimitKeys(arrivals, table, isBuy);
    var i :| KeyOfArrival(KeyOf(words[n]), i, arrivals, table, isBuy);
  }

  /** The buffer, turned into ids. */
  ghost predicate Decoded(ids: seq<u32>, words: seq<u64>, arrivals: seq<u32>, isBuy: bool) {
    |ids| == |words|
    && forall n | 0 <= n < |words| :: Tie(isBuy, KeyOf(words[n]).id) < |arrivals| && ids[n] == Arrived(words[n], arrivals, isBuy)
  }

  /** Sorted by price and then by the tie, a side is in the order it is to be filled. */
  lemma DecodedRanked(ids: seq<u32>, words: seq<u64>, arrivals: seq<u32>, table: Table, isBuy: bool)
    requires |arrivals| <= 0x1_0000_0000 && Decoded(ids, words, arrivals, isBuy) && Sorted(Unpacked(words))
    requires forall k :: k in Unpacked(words) <==> k in LimitKeys(arrivals, table, isBuy)
    ensures Ranked(if isBuy then Reversed(ids) else ids, arrivals, table, isBuy)
  {
    hide LimitKeys, KeyOf;
    var best := if isBuy then Reversed(ids) else ids;
    forall id
      ensures id in best <==> id in arrivals && LiveLimit(id, table, isBuy)
    {
      RankedMember(ids, words, arrivals, table, isBuy, id);
      SameMembers(ids, id);
    }
    forall a, b | 0 <= a < b < |best|
      ensures Ahead(best[a], best[b], arrivals, table, isBuy)
    {
      var x, y := if isBuy then |ids| - 1 - a else a, if isBuy then |ids| - 1 - b else b;
      WordHasArrival(words, arrivals, table, isBuy, x);
      WordHasArrival(words, arrivals, table, isBuy, y);
      var i, j := Tie(isBuy, KeyOf(words[x]).id), Tie(isBuy, KeyOf(words[y]).id);
      assert Unpacked(words)[x] == KeyOf(words[x]) && Unpacked(words)[y] == KeyOf(words[y]);
      assert arrivals[i] == best[a] && arrivals[j] == best[b];
    }
  }

  lemma SameMembers(ids: seq<u32>, id: u32)
    ensures id in Reversed(ids) <==> id in ids
  {
    if id in ids {
      var n :| 0 <= n < |ids| && ids[n] == id;
      assert Reversed(ids)[|ids| - 1 - n] == id;
    }
  }

  lemma RankedMember(ids: seq<u32>, words: seq<u64>, arrivals: seq<u32>, table: Table, isBuy: bool, id: u32)
    requires |arrivals| <= 0x1_0000_0000 && Decoded(ids, words, arrivals, isBuy)
    requires forall k :: k in Unpacked(words) <==> k in LimitKeys(arrivals, table, isBuy)
    ensures id in ids <==> id in arrivals && LiveLimit(id, table, isBuy)
  {
    LimitKeysAre(arrivals, table, isBuy);
    if id in ids {
      var n :| 0 <= n < |ids| && ids[n] == id;
      WordHasArrival(words, arrivals, table, isBuy, n);
    }
    if id in arrivals && LiveLimit(id, table, isBuy) {
      var i :| 0 <= i < |arrivals| && arrivals[i] == id;
      var k := KeyAt(arrivals, table, isBuy, i);
      assert KeyOfArrival(k, i, arrivals, table, isBuy);
      assert k in LimitKeys(arrivals, table, isBuy);
      var n :| 0 <= n < |words| && Unpacked(words)[n] == k;
      assert ids[n] == Arrived(words[n], arrivals, isBuy);
    }
  }

  // ---------- auction_walk, first half ----------

  /** A heap holding exactly a side's live limits so far. */
  ghost predicate Heaped(q: Pq.Queue, arrivals: seq<u32>, table: Table, isBuy: bool)
    reads q, q.heap
  {
    && q.Valid() && |arrivals| + 1 < Pq.INDEX_LIMIT && q.current <= |arrivals| + 1
    && q.Contents() == multiset(Packed(LimitKeys(arrivals, table, isBuy)))
  }

  /** Every arrival into its line or its heap. With release each gives its hold back; without, the
  accounts stay as they are. */
  method Separate(sv: Server, arrivals: seq<u32>, mark: u16, release: bool)
    returns (bids: Pq.Queue, asks: Pq.Queue, marketBids: seq<u32>, marketAsks: seq<u32>)
    requires sv.Valid() && (forall id | id in arrivals :: id in sv.orders) && |arrivals| + 1 < Pq.INDEX_LIMIT
    modifies sv`accounts
    ensures sv.Valid() && fresh(bids) && fresh(asks) && fresh(bids.heap) && fresh(asks.heap) && bids != asks
    ensures bids.heap != asks.heap
    ensures Heaped(bids, arrivals, sv.orders, true) && Heaped(asks, arrivals, sv.orders, false)
    ensures marketBids == Markets(arrivals, sv.orders, true) && marketAsks == Markets(arrivals, sv.orders, false)
    ensures release ==> Moves(old(sv.accounts), sv.accounts, Freed(arrivals, sv.orders, mark))
    ensures !release ==> sv.accounts == old(sv.accounts)
  {
    hide Moves, Heaped, Markets;
    bids := new Pq.Queue();
    asks := new Pq.Queue();
    marketBids, marketAsks := [], [];
    NothingHeaped(bids, sv.orders, true);
    NothingHeaped(asks, sv.orders, false);
    NothingFreed(sv.accounts, sv.orders, mark);
    assert arrivals[..0] == [];
    for i := 0 to |arrivals|
      invariant sv.Valid() && fresh(bids.heap) && fresh(asks.heap) && bids.heap != asks.heap
      invariant Heaped(bids, arrivals[..i], sv.orders, true) && Heaped(asks, arrivals[..i], sv.orders, false)
      invariant marketBids == Markets(arrivals[..i], sv.orders, true)
      invariant marketAsks == Markets(arrivals[..i], sv.orders, false)
      invariant release ==> Moves(old(sv.accounts), sv.accounts, Freed(arrivals[..i], sv.orders, mark))
      invariant !release ==> sv.accounts == old(sv.accounts)
    {
      var id := arrivals[i];
      assert id in arrivals;
      var o := sv.orders[id];
      NextMarkets(arrivals, i, sv.orders);
      if o.quantity == 0 {
        SkipOne(bids, asks, arrivals, i, sv.orders);
        if release {
          FreedNothing(old(sv.accounts), sv.accounts, arrivals, i, sv.orders, mark);
        }
        continue;
      }
      if release {
        ghost var before := sv.accounts;
        sv.accounts := FreeOne(sv.accounts, id, sv.orders, mark);
        SameLength(before, sv.accounts, OneFreed(id, sv.orders, mark));
        FreedNext(old(sv.accounts), before, sv.accounts, arrivals, i, sv.orders, mark);
      }
      if o.market {
        SkipOne(bids, asks, arrivals, i, sv.orders);
        if o.buy {
          marketBids := marketBids + [id];
        } else {
          marketAsks := marketAsks + [id];
        }
      } else if o.buy {
        SkipSide(asks, arrivals, i, sv.orders, false);
        PushLimit(bids, arrivals, i, sv.orders, true);
      } else {
        SkipSide(bids, arrivals, i, sv.orders, true);
        PushLimit(asks, arrivals, i, sv.orders, false);
      }
    }
    assert arrivals[..|arrivals|] == arrivals;
  }

  lemma SameLength(a: seq<Account>, b: seq<Account>, d: Holds)
    requires Moves(a, b, d)
    ensures |b| == |a|
  {
  }

  /** Where the loop starts. */
  lemma NothingHeaped(q: Pq.Queue, table: Table, isBuy: bool)
    requires q.Valid() && q.Contents() == multiset{}
    ensures Heaped(q, [], table, isBuy) && Markets([], table, isBuy) == []
  {
    q.NotEmpty();
    assert Packed([]) == [];
  }

  lemma NothingFreed(a: seq<Account>, table: Table, mark: u16)
    ensures Moves(a, a, Freed([], table, mark))
  {
    NothingMoves(a, Freed([], table, mark));
  }

  lemma NextMarkets(arrivals: seq<u32>, i: nat, table: Table)
    requires i < |arrivals|
    ensures forall isBuy :: Markets(arrivals[..i + 1], table, isBuy)
                            == Markets(arrivals[..i], table, isBuy) + if LiveMarket(arrivals[i], table, isBuy) then [arrivals[i]] else []
  {
    assert arrivals[..i + 1][..i] == arrivals[..i];
  }

  lemma NextKeys(arrivals: seq<u32>, i: nat, table: Table, isBuy: bool)
    requires i < |arrivals| < 0x1_0000_0000
    ensures LimitKeys(arrivals[..i + 1], table, isBuy)
            == LimitKeys(arrivals[..i], table, isBuy) + if LiveLimit(arrivals[i], table, isBuy) then [KeyAt(arrivals, table, isBuy, i)] else []
  {
    assert arrivals[..i + 1][..i] == arrivals[..i];
  }

  lemma SkipSide(q: Pq.Queue, arrivals: seq<u32>, i: nat, table: Table, isBuy: bool)
    requires i < |arrivals| < Pq.INDEX_LIMIT - 1 && Heaped(q, arrivals[..i], table, isBuy)
    requires !LiveLimit(arrivals[i], table, isBuy)
    ensures Heaped(q, arrivals[..i + 1], table, isBuy)
  {
    NextKeys(arrivals, i, table, isBuy);
    assert LimitKeys(arrivals[..i + 1], table, isBuy) == LimitKeys(arrivals[..i], table, isBuy);
  }

  lemma SkipOne(bids: Pq.Queue, asks: Pq.Queue, arrivals: seq<u32>, i: nat, table: Table)
    requires i < |arrivals| < Pq.INDEX_LIMIT - 1 && Heaped(bids, arrivals[..i], table, true)
    requires Heaped(asks, arrivals[..i], table, false)
    requires !LiveLimit(arrivals[i], table, true) && !LiveLimit(arrivals[i], table, false)
    ensures Heaped(bids, arrivals[..i + 1], table, true) && Heaped(asks, arrivals[..i + 1], table, false)
  {
    SkipSide(bids, arrivals, i, table, true);
    SkipSide(asks, arrivals, i, table, false);
  }

  method PushLimit(q: Pq.Queue, arrivals: seq<u32>, i: nat, table: Table, isBuy: bool)
    requires i < |arrivals| < Pq.INDEX_LIMIT - 1 && Heaped(q, arrivals[..i], table, isBuy)
    requires LiveLimit(arrivals[i], table, isBuy)
    modifies q, q.heap
    ensures Heaped(q, arrivals[..i + 1], table, isBuy) && (q.heap == old(q.heap) || fresh(q.heap))
  {
    hide Pq.Queue.Valid, Pq.Queue.Contents, LimitKeys, Packed;
    NextKeys(arrivals, i, table, isBuy);
    PackedMore(LimitKeys(arrivals[..i], table, isBuy), KeyAt(arrivals, table, isBuy, i));
    q.Push(Word(Key(table[arrivals[i]].price, Tie(isBuy, i))));
  }

  lemma PackedMore(keys: seq<Key>, k: Key)
    ensures Packed(keys + [k]) == Packed(keys) + [Word(k)]
  {
  }

  /** The words of a buffer, each turned into the order it stands for. */
  method Decode(words: seq<u64>, arrivals: seq<u32>, ghost table: Table, isBuy: bool) returns (ids: seq<u32>)
    requires |arrivals| <= 0x1_0000_0000 && Sorted(Unpacked(words))
    requires forall k :: k in Unpacked(words) <==> k in LimitKeys(arrivals, table, isBuy)
    ensures Ranked(if isBuy then Reversed(ids) else ids, arrivals, table, isBuy)
  {
    hide LimitKeys, Packed, Unpacked, KeyOf, Ranked;
    ids := [];
    for i := 0 to |words|
      invariant Decoded(ids, words[..i], arrivals, isBuy)
    {
      WordHasArrival(words, arrivals, table, isBuy, i);
      ids := ids + [Arrived(words[i], arrivals, isBuy)];
    }
    assert words[..|words|] == words;
    DecodedRanked(ids, words, arrivals, table, isBuy);
  }

  /** A heap popped into its buffer, which is read flat. */
  method Sort(q: Pq.Queue, arrivals: seq<u32>, ghost table: Table, isBuy: bool) returns (ids: seq<u32>)
    requires |arrivals| + 1 < Pq.INDEX_LIMIT && Heaped(q, arrivals, table, isBuy)
    modifies q, q.heap
    ensures Ranked(if isBuy then Reversed(ids) else ids, arrivals, table, isBuy)
    ensures q.Valid() && q.Contents() == multiset{}
  {
    hide Pq.HeapOk, Pq.Elems, Queued, LimitKeys, Packed, Unpacked, Sorted, NoTwins, Rising, Ranked;
    var ring := new Ring<u64>();
    DrainSorted(q, ring);
    LimitKeysAre(arrivals, table, isBuy);
    DrainedKeys(ring.Contents(), LimitKeys(arrivals, table, isBuy));
    ring.FlatReads();
    var n := ring.Count();
    ids := Decode(ring.buffer[..n], arrivals, table, isBuy);
  }

  /** The parkers of a cross, in the order each side is to be filled. */
  method LineUp(sv: Server, arrivals: seq<u32>, mark: u16, release: bool) returns (l: Lists)
    requires sv.Valid() && (forall id | id in arrivals :: id in sv.orders) && |arrivals| + 1 < Pq.INDEX_LIMIT
    modifies sv`accounts
    ensures sv.Valid() && LinedUp(l, arrivals, sv.orders)
    ensures release ==> Moves(old(sv.accounts), sv.accounts, Freed(arrivals, sv.orders, mark))
    ensures !release ==> sv.accounts == old(sv.accounts)
  {
    hide Heaped, Ranked, Moves;
    var bids, asks, marketBids, marketAsks := Separate(sv, arrivals, mark, release);
    var bidSorted := Sort(bids, arrivals, sv.orders, true);
    var askSorted := Sort(asks, arrivals, sv.orders, false);
    l := Lists(marketBids, marketAsks, bidSorted, askSorted);
  }

  // ---------- What a cross may rely on ----------

  /** The parked orders of both sides: none twice, none in the book, best price first. */
  ghost predicate Parked(l: Lists, table: Table, levels: seq<Level>) {
    && DistinctIds(l.marketBids + Reversed(l.bidSorted)) && DistinctIds(l.marketAsks + l.askSorted)
    && BestFirst(Reversed(l.bidSorted), table, true) && BestFirst(l.askSorted, table, false)
    && (forall id | id in l.marketBids + l.bidSorted :: id in table && Count(levels, id) == 0)
    && (forall id | id in l.marketAsks + l.askSorted :: id in table && Count(levels, id) == 0)
    && (forall id | id in l.marketBids + l.bidSorted :: id !in l.marketAsks + l.askSorted)
  }

  lemma {:induction false} MarketsAre(arrivals: seq<u32>, table: Table, isBuy: bool)
    requires DistinctIds(arrivals)
    ensures var line := Markets(arrivals, table, isBuy);
            && (forall id :: id in line <==> id in arrivals && LiveMarket(id, table, isBuy))
            && forall a, b | 0 <= a < b < |line| :: line[a] != line[b] && Earlier(line[a], line[b], arrivals)
  {
    if arrivals != [] {
      var n := |arrivals| - 1;
      var shorter, line := arrivals[..n], Markets(arrivals, table, isBuy);
      MarketsAre(shorter, table, isBuy);
      assert arrivals == shorter + [arrivals[n]];
      forall a, b | 0 <= a < b < |line|
        ensures line[a] != line[b] && Earlier(line[a], line[b], arrivals)
      {
        if b < |Markets(shorter, table, isBuy)| {
          var i, j :| 0 <= i < j < n && shorter[i] == line[a] && shorter[j] == line[b];
          assert arrivals[i] == line[a] && arrivals[j] == line[b];
        } else {
          assert line[a] in Markets(shorter, table, isBuy) && line[a] in shorter;
          var i :| 0 <= i < n && shorter[i] == line[a];
          assert arrivals[i] == line[a] && arrivals[n] == line[b];
        }
      }
    }
  }

  /** Nobody is ahead of itself, nor are two orders ahead of each other. */
  lemma AheadOnce(x: u32, y: u32, arrivals: seq<u32>, table: Table, isBuy: bool)
    requires DistinctIds(arrivals) && Ahead(x, y, arrivals, table, isBuy)
    ensures x != y && !Ahead(y, x, arrivals, table, isBuy)
  {
  }

  /** A line of market orders followed by ranked limits names nobody twice. */
  lemma SideDistinct(markets: seq<u32>, best: seq<u32>, arrivals: seq<u32>, table: Table, isBuy: bool)
    requires DistinctIds(arrivals) && markets == Markets(arrivals, table, isBuy) && Ranked(best, arrivals, table, isBuy)
    ensures DistinctIds(markets + best) && BestFirst(best, table, isBuy)
  {
    MarketsAre(arrivals, table, isBuy);
    var line := markets + best;
    forall a, b | 0 <= a < b < |line|
      ensures line[a] != line[b]
    {
      if a < |markets| <= b {
        assert line[a] in markets && line[b] in best;
      } else if |markets| <= a {
        AheadOnce(line[a], line[b], arrivals, table, isBuy);
      }
    }
    forall a, b | 0 <= a < b < |best|
      ensures Ahead(best[a], best[b], arrivals, table, isBuy)
    {
    }
  }

  /** Lists made from arrivals that do not rest are what a cross relies on. */
  lemma LinedUpParked(l: Lists, arrivals: seq<u32>, table: Table, levels: seq<Level>)
    requires LinedUp(l, arrivals, table) && DistinctIds(arrivals)
    requires forall id | id in arrivals :: id in table && Count(levels, id) == 0
    ensures Parked(l, table, levels)
  {
    SideDistinct(l.marketBids, Reversed(l.bidSorted), arrivals, table, true);
    SideDistinct(l.marketAsks, l.askSorted, arrivals, table, false);
    MarketsAre(arrivals, table, true);
    MarketsAre(arrivals, table, false);
    forall id | id in l.marketBids + l.bidSorted
      ensures id in arrivals && table[id].buy
    {
      SameMembers(l.bidSorted, id);
    }
    forall id | id in l.marketAsks + l.askSorted
      ensures id in arrivals && !table[id].buy
    {
    }
  }

  /** First come first served: when shares are handed out along a ranked line, nobody gets any before
  everybody ahead of it is full. */
  lemma NobodyPassed(line: seq<u32>, table: Table, shares: nat, a: nat, b: nat)
    requires DistinctIds(line) && a < b < |line| && forall id | id in line :: id in table
    requires var now := Served(line, table, shares); line[b] in now && now[line[b]].quantity < table[line[b]].quantity
    ensures var now := Served(line, table, shares); line[a] in now && now[line[a]].quantity == 0
  {
    hide Served;
    ServedAt(line, table, shares, a);
    ServedAt(line, table, shares, b);
    assert line[..b] == line[..a] + ([line[a]] + line[a + 1..b]);
    WaitingConcat(line[..a], [line[a]] + line[a + 1..b], table);
    assert ([line[a]] + line[a + 1..b])[1..] == line[a + 1..b];
  }
}
