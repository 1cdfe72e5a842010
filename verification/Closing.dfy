/** The end of a session (server_market_close, collect_expire and server_prune_book of src/server.c):
the day orders and the dated orders that are due leave the book, the order table and the reserves. */
module Closing {
  import opened Machine
  import opened Book
  import opened BookFacts
  import opened BookRuns
  import opened Snapshot
  import opened SnapshotWriter
  import opened Ranges
  import opened FirstLeg
  import opened Canrep
  import opened Weights
  import opened Settle
  import opened SettlePair
  import opened Ledger
  import opened Desk
  import opened Prechecks
  import opened Expire
  import opened ServerOrders
  import opened RingBuffer
  import opened Drains
  import Pq

  /** The time in force bits of an order: until cancelled, this session, or until a date. */
  datatype Tif = UntilCancelled | Day | Dated(date: u32)

  // ---------- One expiry ----------

  /** Taking out one resting order and giving back its reserve leaves everything in step. */
  lemma OneExpired(s: Sides, table: Table, x: u32, a: seq<Account>, b: seq<Account>, held: Holds)
    requires SoundSides(s) && Agrees(s, table) && ReservesOk(a, s, table, held) && x in table
    requires Count(s.bids + s.asks, x) == 1
    requires ReservedBy(a, b, table, x, -(table[x].quantity as int))
    ensures SoundSides(Pull(s, {x})) && Agrees(Pull(s, {x}), Emptied(table, x))
    ensures ReservesOk(b, Pull(s, {x}), Emptied(table, x), held)
  {
    var p, now := Pull(s, {x}), Emptied(table, x);
    PullSound(s, {x});
    EmptiedTerms(table, x);
    HeldQuantity(s, table, x);
    PulledAgrees(s, table, x);
    forall c | 0 <= c < |b|
      ensures ReserveOk(b[c], c, p, now, held)
    {
      ClientExpired(s, table, x, c, a[c], b[c], held);
      ReserveSame(b[c], c, p, table, now, held);
    }
  }

  lemma ClientExpired(s: Sides, table: Table, x: u32, c: nat, was: Account, now: Account, held: Holds)
    requires ReserveOk(was, c, s, table, held) && x in table && Held(s, x) == table[x].quantity
    requires var d := -(table[x].quantity as int); Shift(was, now, d * BidValue(c, table)(x), d * AskShares(c, table)(x))
    ensures ReserveOk(now, c, Pull(s, {x}), table, held)
  {
    hide WeighSides, Pull, BidValue, AskShares;
    var q, cash, shares := table[x].quantity, BidValue(c, table), AskShares(c, table);
    PullConserves(s, x, cash);
    PullConserves(s, x, shares);
    Negated(q, cash(x));
    Negated(q, shares(x));
    ReserveFollows(was, now, c, s, Pull(s, {x}), table, -q * cash(x), -q * shares(x), held);
  }

  lemma PulledAgrees(s: Sides, table: Table, x: u32)
    requires SoundSides(s) && Agrees(s, table)
    ensures Agrees(Pull(s, {x}), Emptied(table, x))
  {
    var p, now := Pull(s, {x}), Emptied(table, x);
    PullQuoted(s.bids, true, table, {x});
    PullQuoted(s.asks, false, table, {x});
    QuotedSame(p.bids, true, table, now);
    QuotedSame(p.asks, false, table, now);
    PullSound(s, {x});
    forall y: u32 | Held(p, y) > 0
      ensures y in now && now[y].quantity == Held(p, y)
    {
      PullCounts(s, {x}, y);
      HeldIsResting(p, y);
      HeldQuantity(s, table, y);
      PullConserves(s, x, Only(y));
      if Count(p.bids + p.asks, y) == 0 {
        NoneRestingAnywhere(p.bids + p.asks, y);
        assert false;
      }
    }
    CountedByHeld(p, now);
  }

  // ---------- The batch ----------

  /** The heap holds one word for each id in gone, which all rest. */
  ghost predicate Batched(words: multiset<u64>, keys: seq<Key>, gone: set<u32>, levels: seq<Level>) {
    words == multiset(Packed(keys)) && Ids(keys) == gone && AllRest(keys, levels) && NoTwins(keys)
  }

  lemma OneMoreKey(words: multiset<u64>, keys: seq<Key>, gone: set<u32>, levels: seq<Level>, k: Key)
    requires Batched(words, keys, gone, levels) && k.id !in gone && AllRest([k], levels)
    ensures Batched(words + multiset{Word(k)}, keys + [k], gone + {k.id}, levels)
  {
    assert Packed(keys + [k]) == Packed(keys) + [Word(k)];
    assert forall x | x in keys :: x.id in Ids(keys);
    assert k in [k];
    forall x | x in keys + [k]
      ensures x in keys || x == k
    {
    }
    assert forall x | x in keys :: x in keys + [k];
    assert (keys + [k])[|keys|] == k;
    assert Ids(keys + [k]) == gone + {k.id};
  }

  /** The drained words are the batch, sorted. */
  lemma SortedBatch(words: seq<u64>, keys: seq<Key>, gone: set<u32>, levels: seq<Level>)
    requires Batched(multiset(words), keys, gone, levels) && Rising(words)
    ensures Sorted(Unpacked(words)) && AllRest(Unpacked(words), levels) && Ids(Unpacked(words)) == gone
  {
    hide Sorted;
    DrainedKeys(words, keys);
  }

  // ---------- collect_expire ----------

  /** Where the session's end has got to: the orders in gone are out of the table and the reserves,
  as if they were out of the book, and nothing else changed. */
  ghost predicate Collected(orders: Table, accounts: seq<Account>, start: Table, s: Sides, gone: set<u32>, held: Holds) {
    && SoundSides(Pull(s, gone)) && Agrees(Pull(s, gone), orders) && ReservesOk(accounts, Pull(s, gone), orders, held)
    && SameTerms(orders, start)
    && forall x | x in start :: orders[x].quantity == if x in gone then 0 else start[x].quantity
  }

  lemma NoneCollected(orders: Table, accounts: seq<Account>, s: Sides, held: Holds)
    requires SoundSides(s) && Agrees(s, orders) && ReservesOk(accounts, s, orders, held)
    ensures Collected(orders, accounts, orders, s, {}, held)
  {
    PullAtAll(s);
  }

  lemma PullAtAll(s: Sides)
    requires SoundSides(s)
    ensures Pull(s, {}) == s
  {
    SplitSound(s.bids, s.asks);
    PruneNone(s.bids);
    PruneNone(s.asks);
  }

  lemma {:induction false} PruneNone(levels: seq<Level>)
    requires forall l | l in levels :: SoundLevel(l)
    ensures Prune(levels, {}) == levels
  {
    if levels != [] {
      KeepNone(levels[0].orders);
      assert SoundLevel(levels[0]);
      PruneNone(levels[1..]);
    }
  }

  lemma {:induction false} KeepNone(orders: seq<Entry>)
    ensures Keep(orders, {}) == orders
  {
    if orders != [] {
      KeepNone(orders[1..]);
    }
  }

  lemma CollectedOne(orders: Table, a: seq<Account>, start: Table, s: Sides, gone: set<u32>, x: u32, b: seq<Account>,
                     held: Holds)
    requires Collected(orders, a, start, s, gone, held) && x in start && x !in gone && Count(s.bids + s.asks, x) == 1
    requires ReservedBy(a, b, orders, x, -(orders[x].quantity as int))
    ensures Collected(Emptied(orders, x), b, start, s, gone + {x}, held)
  {
    PullCounts(s, gone, x);
    OneExpired(Pull(s, gone), orders, x, a, b, held);
    PullUnion(s, gone, {x});
    EmptiedTerms(orders, x);
    TermsChain(Emptied(orders, x), orders, start);
  }

  lemma RestingHasShares(m: Mbo, levels: seq<Level>, bids: nat, table: Table, id: u32)
    requires BookState(m, levels, bids, table) && Count(levels, id) == 1
    ensures id in table && table[id].quantity > 0
  {
    SidesJoin(levels, bids);
    HeldQuantity(SidesOf(levels, bids), table, id);
  }

  /** The guards: a live order, its bits still say it is due, and it is in the book. */
  method Expires(o: Order, id: u32, due: bool, m: Mbo, ghost start: Table, ghost gone: set<u32>,
                 ghost levels: seq<Level>, ghost bids: nat)
    returns (r: bool)
    requires BookState(m, levels, bids, start) && id in start
    requires o == start[id].(quantity := o.quantity) && o.quantity == if id in gone then 0 else start[id].quantity
    ensures r <==> due && id !in gone && Count(levels, id) == 1
  {
    if Count(levels, id) == 1 {
      RestingHasShares(m, levels, bids, start, id);
    }
    if o.quantity == 0 || !due {
      return false;
    }
    r := InBook(m, id, o.price, levels);
    FoundIsResting(levels, bids, start, id);
  }

  /** One id whose time may be up; due says that its bits, and its date, still say so. */
  method CollectExpire(sv: Server, id: u32, due: bool, q: Pq.Queue, m: Mbo, ghost start: Table, ghost gone: set<u32>,
                       ghost keys: seq<Key>,
                       ghost levels: seq<Level>, ghost bids: nat, ghost held: Holds)
    returns (ghost more: set<u32>, ghost all: seq<Key>)
    requires BookState(m, levels, bids, start) && sv.Valid() && id in start && q.Valid() && q.current < Pq.INDEX_LIMIT
    requires Collected(sv.orders, sv.accounts, start, SidesOf(levels, bids), gone, held)
    requires Batched(q.Contents(), keys, gone, levels)
    modifies sv, q, q.heap
    ensures sv.Valid() && q.Valid() && q.current <= old(q.current) + 1 && (q.heap == old(q.heap) || fresh(q.heap))
    ensures more == gone + if due && Count(levels, id) == 1 then {id} else {}
    ensures Collected(sv.orders, sv.accounts, start, SidesOf(levels, bids), more, held)
    ensures Batched(q.Contents(), all, more, levels)
    ensures |sv.accounts| == old(|sv.accounts|) && sv.Money() == old(sv.Money())
    ensures TotalShares(sv.accounts) == old(TotalShares(sv.accounts))
  {
    hide BookState, Batched, ReservedBy, Pq.HeapOk, Pq.Elems, Pq.Queue.Valid, Agrees, SoundSides, ReservesOk,
         Server.Valid, TotalCash, TotalShares;
    var o := sv.orders[id];
    var expires := Expires(o, id, due, m, start, gone, levels, bids);
    more, all := gone, keys;
    if !expires {
      return;
    }
    ghost var was, a, key := sv.orders, sv.accounts, Key(o.price, id);
    RestsAtKey(m, levels, bids, start, key);
    sv.Retire(id);
    ReservedTotals(a, sv.accounts, was, id, -(o.quantity as int));
    StateJoins(m, levels, bids, start);
    CollectedOne(was, a, start, SidesOf(levels, bids), gone, id, sv.accounts, held);
    OneMoreKey(q.Contents(), keys, gone, levels, key);
    q.Push(Word(Key(o.price, id)));
    more, all := gone + {id}, keys + [key];
  }

  lemma StateJoins(m: Mbo, levels: seq<Level>, bids: nat, table: Table)
    requires BookState(m, levels, bids, table)
    ensures bids <= |levels| && SidesOf(levels, bids).bids + SidesOf(levels, bids).asks == levels
  {
    SidesJoin(levels, bids);
  }

  lemma RestsAtKey(m: Mbo, levels: seq<Level>, bids: nat, table: Table, k: Key)
    requires BookState(m, levels, bids, table) && Count(levels, k.id) == 1 && k.id in table && table[k.id].price == k.price
    ensures AllRest([k], levels)
  {
    FoundIsResting(levels, bids, table, k.id);
    var i :| 0 <= i < |levels| && RestsHere(levels[i], k.price, k.id);
  }

  // ---------- server_market_close ----------

  /** The orders of a queue of day orders that expire now. */
  ghost predicate DayOver(x: u32, tif: map<u32, Tif>, day: seq<u32>) {
    x in day && x in tif && tif[x] == Day
  }

  /** The orders whose date has come and whose heap entry, date above id, still names that date. */
  ghost predicate DateCome(x: u32, tif: map<u32, Tif>, dated: multiset<u64>, today: u32) {
    x in tif && tif[x].Dated? && tif[x].date <= today && tif[x].date * 0x1_0000_0000 + x in dated
  }

  /** Every day order that was queued, and then every dated one whose date is here. */
  method CloseDay(sv: Server, day: Ring<u32>, tif: map<u32, Tif>, q: Pq.Queue, m: Mbo, ghost levels: seq<Level>,
                  ghost bids: nat, ghost held: Holds)
    returns (ghost gone: set<u32>, ghost keys: seq<Key>)
    requires BookState(m, levels, bids, sv.orders) && sv.Valid()
    requires ReservesOk(sv.accounts, SidesOf(levels, bids), sv.orders, held)
    requires day.Valid() && (forall x | x in day.Contents() :: x in sv.orders && x in tif)
    requires q.Valid() && q.Contents() == multiset{} && q.current + |day.Contents()| < Pq.INDEX_LIMIT
    modifies sv, q, q.heap, day`start, day`end
    ensures sv.Valid() && day.Valid() && day.Contents() == []
    ensures q.Valid() && q.current <= old(q.current) + old(|day.Contents()|) && (q.heap == old(q.heap) || fresh(q.heap))
    ensures forall x :: x in gone <==> DayOver(x, tif, old(day.Contents())) && Count(levels, x) == 1
    ensures Collected(sv.orders, sv.accounts, old(sv.orders), SidesOf(levels, bids), gone, held)
    ensures Batched(q.Contents(), keys, gone, levels)
    ensures |sv.accounts| == old(|sv.accounts|) && sv.Money() == old(sv.Money())
    ensures TotalShares(sv.accounts) == old(TotalShares(sv.accounts))
  {
    hide BookState, Collected, Batched, Pq.HeapOk, Pq.Elems, Pq.Queue.Valid, Ring.Valid, Ring.Contents, Queued,
         Server.Valid, TotalCash, TotalShares;
    ghost var all, start := day.Contents(), sv.orders;
    gone, keys := {}, [];
    StateJoins(m, levels, bids, sv.orders);
    NothingCollected(m, levels, bids, sv.orders, sv.accounts, held);
    NoKeys(levels);
    ghost var k := 0;
    while !day.IsEmpty()
      invariant sv.Valid() && day.Valid() && k <= |all| && day.Contents() == all[k..]
      invariant q.Valid() && q.current <= old(q.current) + k && (q.heap == old(q.heap) || fresh(q.heap))
      invariant forall x :: x in gone <==> DayOver(x, tif, all[..k]) && Count(levels, x) == 1
      invariant Collected(sv.orders, sv.accounts, start, SidesOf(levels, bids), gone, held)
      invariant Batched(q.Contents(), keys, gone, levels)
      invariant |sv.accounts| == old(|sv.accounts|) && sv.Money() == old(sv.Money())
      invariant TotalShares(sv.accounts) == old(TotalShares(sv.accounts))
      decreases |all| - k
    {
      var head := day.Deque();
      var id := head.value;
      assert id == all[k] && all[..k + 1] == all[..k] + [all[k]];
      gone, keys := CollectExpire(sv, id, tif[id] == Day, q, m, start, gone, keys, levels, bids, held);
      k := k + 1;
    }
    assert all[..k] == all;
  }

  lemma NothingCollected(m: Mbo, levels: seq<Level>, bids: nat, orders: Table, accounts: seq<Account>, held: Holds)
    requires BookState(m, levels, bids, orders) && ReservesOk(accounts, SidesOf(levels, bids), orders, held)
    ensures Collected(orders, accounts, orders, SidesOf(levels, bids), {}, held)
  {
    NoneCollected(orders, accounts, SidesOf(levels, bids), held);
  }

  lemma NoKeys(levels: seq<Level>)
    ensures Batched(multiset{}, [], {}, levels)
  {
    assert Packed([]) == [];
  }

  function DateOf(entry: u64): u32 {
    entry / 0x1_0000_0000
  }

  function IdOf(entry: u64): u32 {
    entry % 0x1_0000_0000
  }

  lemma EntryParts(entry: u64)
    ensures DateOf(entry) * 0x1_0000_0000 + IdOf(entry) == entry
  {
  }

  lemma EntryUnpacks(date: u32, id: u32)
    ensures DateOf(date * 0x1_0000_0000 + id) == date && IdOf(date * 0x1_0000_0000 + id) == id
  {
  }

  /** After this pop one more id may have had its date come. */
  lemma OneMoreDate(tif: map<u32, Tif>, popped: multiset<u64>, entry: u64, today: u32)
    requires DateOf(entry) <= today && IdOf(entry) in tif
    ensures forall x :: DateCome(x, tif, popped + multiset{entry}, today)
                        <==> DateCome(x, tif, popped, today) || (x == IdOf(entry) && tif[x] == Dated(DateOf(entry)))
  {
    EntryParts(entry);
    forall x | DateCome(x, tif, popped + multiset{entry}, today) && !DateCome(x, tif, popped, today)
      ensures x == IdOf(entry) && tif[x] == Dated(DateOf(entry))
    {
      EntryUnpacks(tif[x].date, x);
    }
  }

  /** What is left in the heap is dated later than today. */
  lemma LaterDates(tif: map<u32, Tif>, popped: multiset<u64>, left: multiset<u64>, today: u32)
    requires forall e | e in left :: DateOf(e) > today
    ensures forall x :: DateCome(x, tif, popped + left, today) <==> DateCome(x, tif, popped, today)
  {
    forall x | x in tif && tif[x].Dated? && tif[x].date * 0x1_0000_0000 + x in left
      ensures tif[x].date > today
    {
      EntryUnpacks(tif[x].date, x);
    }
  }

  lemma LeastDate(left: multiset<u64>, least: u64, today: u32)
    requires (forall e | e in left :: least <= e) && DateOf(least) > today
    ensures forall e | e in left :: DateOf(e) > today
  {
    forall e | e in left
      ensures DateOf(least) <= DateOf(e)
    {
    }
  }

  method CloseDated(sv: Server, gtd: Pq.Queue, today: u32, tif: map<u32, Tif>, q: Pq.Queue, m: Mbo,
                    ghost start: Table, ghost had: set<u32>, ghost batch: seq<Key>, ghost levels: seq<Level>, ghost bids: nat, ghost held: Holds)
    returns (ghost gone: set<u32>, ghost keys: seq<Key>)
    requires BookState(m, levels, bids, start) && sv.Valid()
    requires Collected(sv.orders, sv.accounts, start, SidesOf(levels, bids), had, held)
    requires gtd.Valid() && (forall e | e in gtd.Contents() :: IdOf(e) in start && IdOf(e) in tif)
    requires q.Valid() && Batched(q.Contents(), batch, had, levels) && q.current + gtd.current < Pq.INDEX_LIMIT
    requires q != gtd && q.heap != gtd.heap
    modifies sv, q, q.heap, gtd, gtd.heap
    ensures sv.Valid() && gtd.Valid() && gtd.heap == old(gtd.heap) && forall e | e in gtd.Contents() :: DateOf(e) > today
    ensures q.Valid() && q.current < Pq.INDEX_LIMIT && (q.heap == old(q.heap) || fresh(q.heap))
    ensures forall x :: x in gone <==> x in had || (DateCome(x, tif, old(gtd.Contents()), today) && Count(levels, x) == 1)
    ensures Collected(sv.orders, sv.accounts, start, SidesOf(levels, bids), gone, held)
    ensures Batched(q.Contents(), keys, gone, levels)
    ensures |sv.accounts| == old(|sv.accounts|) && sv.Money() == old(sv.Money())
    ensures TotalShares(sv.accounts) == old(TotalShares(sv.accounts))
  {
    hide BookState, Collected, Batched, DateCome, Pq.HeapOk, Pq.Elems, Pq.Queue.Valid, Pq.Queue.Contents, Server.Valid,
         TotalCash, TotalShares, DateOf, IdOf;
    StateJoins(m, levels, bids, start);
    gone, keys := had, batch;
    ghost var popped: multiset<u64>, all := multiset{}, gtd.Contents();
    NoDates(tif, today);
    while !gtd.IsEmpty()
      invariant sv.Valid() && gtd.Valid() && gtd.heap == old(gtd.heap) && popped + gtd.Contents() == all
      invariant q.Valid() && q.current + gtd.current < Pq.INDEX_LIMIT && (q.heap == old(q.heap) || fresh(q.heap))
      invariant forall x :: x in gone <==> x in had || (DateCome(x, tif, popped, today) && Count(levels, x) == 1)
      invariant Collected(sv.orders, sv.accounts, start, SidesOf(levels, bids), gone, held)
      invariant Batched(q.Contents(), keys, gone, levels)
      invariant |sv.accounts| == old(|sv.accounts|) && sv.Money() == old(sv.Money())
      invariant TotalShares(sv.accounts) == old(TotalShares(sv.accounts))
      decreases |gtd.Contents()|
    {
      if DateOf(gtd.Peek()) > today {
        LeastDate(gtd.Contents(), gtd.Peek(), today);
        break;
      }
      ghost var was, entry := popped, gtd.Peek();
      assert entry in all;
      gone, keys := TakeDated(sv, gtd, tif, q, m, start, gone, keys, levels, bids, held);
      popped := was + multiset{entry};
      OneMoreDate(tif, was, entry, today);
    }
    LaterDates(tif, popped, gtd.Contents(), today);
  }

  /** The entry on top of the dated heap. */
  method TakeDated(sv: Server, gtd: Pq.Queue, tif: map<u32, Tif>, q: Pq.Queue, m: Mbo,
                   ghost start: Table, ghost had: set<u32>, ghost batch: seq<Key>, ghost levels: seq<Level>, ghost bids: nat, ghost held: Holds)
    returns (ghost gone: set<u32>, ghost keys: seq<Key>)
    requires BookState(m, levels, bids, start) && sv.Valid()
    requires Collected(sv.orders, sv.accounts, start, SidesOf(levels, bids), had, held)
    requires gtd.Valid() && !gtd.IsEmpty() && IdOf(gtd.Peek()) in start && IdOf(gtd.Peek()) in tif
    requires q.Valid() && Batched(q.Contents(), batch, had, levels) && q.current + gtd.current < Pq.INDEX_LIMIT
    requires q != gtd && q.heap != gtd.heap
    modifies sv, q, q.heap, gtd, gtd.heap
    ensures sv.Valid() && gtd.Valid() && gtd.heap == old(gtd.heap)
    ensures gtd.Contents() == old(gtd.Contents()) - multiset{old(gtd.Peek())}
    ensures q.Valid() && q.current + gtd.current <= old(q.current + gtd.current) && (q.heap == old(q.heap) || fresh(q.heap))
    ensures var entry := old(gtd.Peek());
            gone == had + if tif[IdOf(entry)] == Dated(DateOf(entry)) && Count(levels, IdOf(entry)) == 1 then {IdOf(entry)} else {}
    ensures Collected(sv.orders, sv.accounts, start, SidesOf(levels, bids), gone, held)
    ensures Batched(q.Contents(), keys, gone, levels)
    ensures |sv.accounts| == old(|sv.accounts|) && sv.Money() == old(sv.Money())
    ensures TotalShares(sv.accounts) == old(TotalShares(sv.accounts))
  {
    hide BookState, Collected, Batched, Pq.HeapOk, Pq.Elems, Pq.Queue.Valid, Pq.Queue.Contents, Server.Valid, TotalCash,
         TotalShares, DateOf, IdOf;
    StateJoins(m, levels, bids, start);
    ghost var top := gtd.Peek();
    var entry := gtd.Pop();
    assert entry == top;
    gone, keys := CollectExpire(sv, IdOf(entry), tif[IdOf(entry)] == Dated(DateOf(entry)), q, m, start, had, batch, levels, bids, held);
  }

  lemma NoDates(tif: map<u32, Tif>, today: u32)
    ensures forall x :: !DateCome(x, tif, multiset{}, today)
  {
  }

  /** server_prune_book: the heap drained flat and sorted, and one new snapshot without the batch. */
  method PruneBook(q: Pq.Queue, ring: Ring<u64>, m: Mbo, ghost keys: seq<Key>, ghost gone: set<u32>,
                   ghost levels: seq<Level>, ghost bids: nat)
    returns (now: Mbo, size: nat)
    requires OldBook(m, levels, bids) && (forall l | l in levels :: |l.orders| <= COPY_LIMIT)
    requires q.Valid() && Batched(q.Contents(), keys, gone, levels) && q.current < Pq.INDEX_LIMIT
    requires ring.Valid() && ring.Contents() == [] && q.heap != ring.buffer
    modifies q, q.heap, ring, ring.buffer
    ensures Refines(now, size, [], Outcome(Pull(SidesOf(levels, bids), gone), [])) && size <= Size(levels)
    ensures q.Valid() && q.Contents() == multiset{} && q.heap == old(q.heap)
    ensures ring.Valid() && ring.Contents() == [] && (ring.buffer == old(ring.buffer) || fresh(ring.buffer))
  {
    hide Pq.HeapOk, Pq.Elems, Batched, Queued, Refines, Size, Sorted, AllRest, Unpacked;
    DrainSorted(q, ring);
    ghost var words := ring.Contents();
    var n := ring.Count();
    ring.FlatReads();
    SortedBatch(words, keys, gone, levels);
    now, size := ObExpire(Unpacked(ring.buffer[..n]), m, levels, bids);
    for i := 0 to n
      invariant ring.Valid() && |ring.Contents()| == n - i
      invariant q.Valid() && q.Contents() == multiset{} && q.heap == old(q.heap)
      modifies ring`start, ring`end
    {
      var head := ring.Deque();
    }
  }

  /** The end of a session, after its cross: every day order and every dated order that is due is out
  of the book, out of the table and out of the reserves; the rest is untouched and all is in step. */
  method CloseSession(sv: Server, day: Ring<u32>, gtd: Pq.Queue, today: u32, tif: map<u32, Tif>, q: Pq.Queue,
                      ring: Ring<u64>,
                      m: Mbo, ghost levels: seq<Level>, ghost bids: nat, ghost held: Holds)
    returns (now: Mbo, size: nat, ghost gone: set<u32>)
    requires BookState(m, levels, bids, sv.orders) && sv.Valid() && sv.InStep(SidesOf(levels, bids), held)
    requires forall l | l in levels :: |l.orders| <= COPY_LIMIT
    requires day.Valid() && (forall x | x in day.Contents() :: x in sv.orders && x in tif)
    requires gtd.Valid() && (forall e | e in gtd.Contents() :: IdOf(e) in sv.orders && IdOf(e) in tif)
    requires q.Valid() && q.Contents() == multiset{} && q.current + |day.Contents()| + gtd.current < Pq.INDEX_LIMIT
    requires ring.Valid() && ring.Contents() == []
    requires q != gtd && q.heap != gtd.heap && q.heap != ring.buffer && gtd.heap != ring.buffer
    modifies sv, q, q.heap, gtd, gtd.heap, ring, ring.buffer, day`start, day`end
    ensures sv.Valid() && sv.InStep(Pull(SidesOf(levels, bids), gone), held)
    ensures forall x :: x in gone <==>
                          && Count(levels, x) == 1
                          && (DayOver(x, tif, old(day.Contents())) || DateCome(x, tif, old(gtd.Contents()), today))
    ensures SameTerms(sv.orders, old(sv.orders))
    ensures forall x | x in sv.orders :: sv.orders[x].quantity == if x in gone then 0 else old(sv.orders)[x].quantity
    ensures |sv.accounts| == old(|sv.accounts|) && sv.Money() == old(sv.Money())
    ensures TotalShares(sv.accounts) == old(TotalShares(sv.accounts))
    ensures gone != {} ==> Refines(now, size, [], Outcome(Pull(SidesOf(levels, bids), gone), [])) && size <= Size(levels)
    ensures gone == {} ==> now == m
    ensures day.Valid() && day.Contents() == [] && gtd.Valid() && forall e | e in gtd.Contents() :: DateOf(e) > today
  {
    hide DayOver, DateCome, Batched, Refines, Size, SoundSides, Agrees, ReservesOk, Ring.Contents, Pq.Queue.Contents,
         Pq.HeapOk, Pq.Elems, Queued, Server.Valid, TotalCash, TotalShares, IdOf, DateOf;
    ghost var start := sv.orders;
    ghost var keys;
    gone, keys := CloseDay(sv, day, tif, q, m, levels, bids, held);
    gone, keys := CloseDated(sv, gtd, today, tif, q, m, start, gone, keys, levels, bids, held);
    now, size := m, 0;
    EmptyBatch(q.Contents(), keys, gone, levels);
    if !q.IsEmpty() {
      now, size := PruneBook(q, ring, m, keys, gone, levels, bids);
    }
  }

  lemma EmptyBatch(words: multiset<u64>, keys: seq<Key>, gone: set<u32>, levels: seq<Level>)
    requires Batched(words, keys, gone, levels)
    ensures words == multiset{} <==> gone == {}
  {
    if keys != [] {
      assert Packed(keys)[0] in words && keys[0].id in gone;
    }
  }
}
