/** Popping a heap into an empty ring buffer (src/server.c): the buffer ends up a flat sorted array. */
module Drains {
  import opened Machine
  import Pq
  import opened RingBuffer
  import opened Expire

  ghost predicate Rising(s: seq<u64>) {
    forall i, j | 0 <= i < j < |s| :: s[i] <= s[j]
  }

  /** Nothing popped is above what is left. */
  ghost predicate AllBelow(s: seq<u64>, left: multiset<u64>) {
    forall x, y | x in s && y in left :: x <= y
  }

  /** The next least goes behind everything popped before it. */
  lemma OneMore(s: seq<u64>, left: multiset<u64>, key: u64)
    requires Rising(s) && AllBelow(s, left)
    requires key in left && forall y | y in left :: key <= y
    ensures Rising(s + [key]) && AllBelow(s + [key], left - multiset{key})
    ensures multiset(s + [key]) + (left - multiset{key}) == multiset(s) + left
  {
    assert multiset(s + [key]) == multiset(s) + multiset{key};
    forall x, y | x in s + [key] && y in left
      ensures x <= y
    {
      assert x in s || x == key;
    }
    forall i | 0 <= i < |s|
      ensures s[i] <= key
    {
      assert s[i] in s;
    }
  }

  /** As many entries as the heap had: sorted, a permutation, and in the buffer from index 0. */
  method DrainSorted(q: Pq.Queue, ring: Ring<u64>)
    requires q.Valid() && ring.Valid() && ring.Contents() == [] && q.heap != ring.buffer && q.current < Pq.INDEX_LIMIT
    modifies q, q.heap, ring, ring.buffer
    ensures q.Valid() && q.Contents() == multiset{} && q.heap == old(q.heap)
    ensures ring.Valid() && ring.Flat() && (ring.buffer == old(ring.buffer) || fresh(ring.buffer))
    ensures Rising(ring.Contents()) && multiset(ring.Contents()) == old(q.Contents())
  {
    hide Pq.HeapOk, Pq.Elems, Pq.Queue.Contents, Queued, Ring.Contents, Rising, AllBelow, Pq.Queue.Valid, Ring.Valid;
    q.NotEmpty();
    var n := q.current - 1;
    ghost var all := q.Contents();
    NothingYet(all);
    ring.EmptyIsFlat();
    for i := 0 to n
      invariant q.Valid() && q.heap == old(q.heap) && q.current == n + 1 - i
      invariant ring.Valid() && ring.Flat() && (ring.buffer == old(ring.buffer) || fresh(ring.buffer))
      invariant |ring.Contents()| == i && Rising(ring.Contents()) && AllBelow(ring.Contents(), q.Contents())
      invariant multiset(ring.Contents()) + q.Contents() == all
    {
      MoveOne(q, ring);
    }
    q.NotEmpty();
  }

  /** The least of the heap goes behind what is in the ring. */
  method MoveOne(q: Pq.Queue, ring: Ring<u64>)
    requires q.Valid() && ring.Valid() && q.heap != ring.buffer && 1 < q.current
    requires q.current + |ring.Contents()| < Pq.INDEX_LIMIT
    requires Rising(ring.Contents()) && AllBelow(ring.Contents(), q.Contents())
    modifies q, q.heap, ring, ring.buffer
    ensures q.Valid() && q.heap == old(q.heap) && q.current == old(q.current) - 1
    ensures ring.Valid() && (ring.buffer == old(ring.buffer) || fresh(ring.buffer)) && (old(ring.Flat()) ==> ring.Flat())
    ensures |ring.Contents()| == old(|ring.Contents()|) + 1
    ensures Rising(ring.Contents()) && AllBelow(ring.Contents(), q.Contents())
    ensures multiset(ring.Contents()) + q.Contents() == old(multiset(ring.Contents()) + q.Contents())
  {
    hide Pq.HeapOk, Pq.Elems, Pq.Queue.Contents, Queued, Ring.Contents, Rising, AllBelow, Pq.Queue.Valid, Ring.Valid;
    ghost var popped, left := ring.Contents(), q.Contents();
    q.NotEmpty();
    var key := q.Pop();
    OneMore(popped, left, key);
    if ring.start == ring.end {
      ring.FullIsLong();
    }
    var ok := ring.Queue(key);
  }

  lemma NothingYet(all: multiset<u64>)
    ensures Rising([]) && AllBelow([], all) && multiset([]) + all == all
  {
  }

  // ---------- Drained words, unpacked ----------

  function Packed(keys: seq<Key>): seq<u64> {
    seq(|keys|, i requires 0 <= i < |keys| => Word(keys[i]))
  }

  /** What the heap's word packs. */
  function KeyOf(w: u64): Key {
    Key(U16(w / 0x1_0000_0000), w % 0x1_0000_0000)
  }

  ghost predicate NoTwins<T>(s: seq<T>) {
    forall i, j | 0 <= i < j < |s| :: s[i] != s[j]
  }

  lemma {:induction false} TwinsCount(s: seq<u64>, w: u64)
    ensures NoTwins(s) ==> multiset(s)[w] <= 1
    ensures !NoTwins(s) ==> exists x :: multiset(s)[x] >= 2
  {
    if s != [] {
      var t, x := s[..|s| - 1], s[|s| - 1];
      assert s == t + [x];
      TwinsCount(t, w);
      if NoTwins(s) {
        if x == w {
          assert w !in t;
        }
      } else if NoTwins(t) {
        var k :| 0 <= k < |t| && t[k] == x;
        assert x in t;
        assert multiset(s)[x] >= 2;
      } else {
        var y :| multiset(t)[y] >= 2;
        assert multiset(s)[y] >= 2;
      }
    }
  }

  lemma WordsApart(keys: seq<Key>)
    requires NoTwins(keys)
    ensures NoTwins(Packed(keys))
  {
    forall i, j | 0 <= i < j < |keys|
      ensures Packed(keys)[i] != Packed(keys)[j]
    {
      WordOrder(keys[i], keys[j]);
      WordOrder(keys[j], keys[i]);
    }
  }

  function Unpacked(words: seq<u64>): seq<Key> {
    seq(|words|, i requires 0 <= i < |words| => KeyOf(words[i]))
  }

  lemma WordUnpacks(k: Key)
    ensures KeyOf(Word(k)) == k
  {
    WordOrder(k, k);
  }

  lemma BatchApart(words: seq<u64>, keys: seq<Key>)
    requires multiset(words) == multiset(Packed(keys)) && NoTwins(keys)
    ensures NoTwins(words)
  {
    hide NoTwins, Packed;
    WordsApart(keys);
    if !NoTwins(words) {
      TwinsCount(words, 0);
      var x :| multiset(words)[x] >= 2;
      TwinsCount(Packed(keys), x);
      assert false;
    }
  }

  lemma SameBatch(words: seq<u64>, keys: seq<Key>)
    requires multiset(words) == multiset(Packed(keys))
    ensures forall i | 0 <= i < |words| :: Word(Unpacked(words)[i]) == words[i] && Unpacked(words)[i] in keys
    ensures forall k | k in keys :: k in Unpacked(words)
  {
    hide Word, KeyOf;
    forall i | 0 <= i < |words|
      ensures Word(Unpacked(words)[i]) == words[i] && Unpacked(words)[i] in keys
    {
      assert words[i] in multiset(Packed(keys));
      var j :| 0 <= j < |keys| && Packed(keys)[j] == words[i];
      WordUnpacks(keys[j]);
    }
    forall k | k in keys
      ensures k in Unpacked(words)
    {
      var j :| 0 <= j < |keys| && keys[j] == k;
      assert Packed(keys)[j] in multiset(words);
      var i :| 0 <= i < |words| && words[i] == Word(k);
      WordUnpacks(k);
      assert Unpacked(words)[i] == k;
    }
  }

  /** The words that come out are the keys that went in, in the order of price and then id. */
  lemma DrainedKeys(words: seq<u64>, keys: seq<Key>)
    requires multiset(words) == multiset(Packed(keys)) && NoTwins(keys) && Rising(words)
    ensures Sorted(Unpacked(words)) && forall k :: k in Unpacked(words) <==> k in keys
  {
    hide Word, KeyOf, Packed;
    BatchApart(words, keys);
    SameBatch(words, keys);
    var sorted := Unpacked(words);
    forall i, j | 0 <= i < j < |words|
      ensures Before(sorted[i], sorted[j])
    {
      WordOrder(sorted[i], sorted[j]);
    }
  }
}
