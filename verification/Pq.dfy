/** The 4-ary min-heap with growth (src/pq.c): whatever the interleaving of pushes and pops, it is the
multiset of what was pushed and not yet popped, and pop returns the least of it. */
module Pq {
  import opened Machine

  // include/pq.h
  const INITIAL_CAPACITY := 1024

  /** Below this the hole of a pop never gets to a slot whose 32-bit child index wraps. */
  const INDEX_LIMIT := 0x4000_0003

  // ---------- The tree in a sequence ----------

  function Parent(j: nat): (p: nat)
    requires 2 <= j
    ensures 1 <= p < j
  {
    (j - 2) / 4 + 1
  }

  function FirstChild(i: nat): nat
    requires 1 <= i
  {
    4 * i - 2
  }

  /** The program's index of the first child is that of the tree exactly up to slot 2^30; one slot on,
  the children are looked for at slot 2. */
  lemma ChildIndex(i: u32)
    requires 1 <= i
    ensures U32(4 * i - 2) == FirstChild(i) <==> i <= 0x4000_0000
    ensures i == 0x4000_0001 ==> U32(4 * i - 2) == 2
  {
  }

  lemma Children(i: nat, j: nat)
    requires 1 <= i && 2 <= j
    ensures Parent(j) == i <==> FirstChild(i) <= j < FirstChild(i) + 4
  {
  }

  /** The live slots, as a multiset. */
  function Elems(h: seq<u64>, n: nat): multiset<u64>
    requires 1 <= n <= |h|
  {
    multiset(h[1..n])
  }

  ghost predicate HeapOk(h: seq<u64>, n: nat) {
    1 <= n <= |h| && forall j | 2 <= j < n :: h[Parent(j)] <= h[j]
  }

  lemma {:induction false} RootLeast(h: seq<u64>, n: nat, j: nat)
    requires HeapOk(h, n) && 1 <= j < n
    ensures h[1] <= h[j]
  {
    if j > 1 {
      RootLeast(h, n, Parent(j));
    }
  }

  lemma RootIsMinimum(h: seq<u64>, n: nat)
    requires HeapOk(h, n) && n > 1
    ensures h[1] in Elems(h, n) && forall x | x in Elems(h, n) :: h[1] <= x
  {
    assert h[1..n][0] == h[1];
    forall x | x in Elems(h, n)
      ensures h[1] <= x
    {
      var k :| 0 <= k < n - 1 && h[1..n][k] == x;
      RootLeast(h, n, k + 1);
    }
  }

  lemma ElemsSet(h: seq<u64>, n: nat, i: nat, x: u64)
    requires 1 <= i < n <= |h|
    ensures Elems(h[i := x], n) == Elems(h, n) - multiset{h[i]} + multiset{x}
  {
    var s := h[1..n];
    assert h[i := x][1..n] == s[i - 1 := x];
    assert s == s[..i - 1] + [s[i - 1]] + s[i..];
    assert s[i - 1 := x] == s[..i - 1] + [x] + s[i..];
  }

  lemma ElemsSwap(h: seq<u64>, n: nat, i: nat, j: nat, x: u64)
    requires 1 <= i < n <= |h| && 1 <= j < n && i != j && h[i] == x
    ensures Elems(h[i := h[j]][j := x], n) == Elems(h, n)
  {
    ElemsSet(h, n, i, h[j]);
    ElemsSet(h[i := h[j]], n, j, x);
    assert h[j] in Elems(h, n) && x in Elems(h, n) by {
      assert h[1..n][j - 1] == h[j] && h[1..n][i - 1] == x;
    }
  }

  // ---------- Sifting up ----------

  /** The heap with the new event in the hole: only the hole may be less than its parent. */
  ghost predicate Rising(h: seq<u64>, n: nat, run: nat) {
    && 1 <= run < n <= |h|
    && (forall j | 2 <= j < n && j != run :: h[Parent(j)] <= h[j])
    && (run >= 2 ==> forall j | 2 <= j < n && Parent(j) == run :: h[Parent(run)] <= h[j])
  }

  lemma RiseStep(h: seq<u64>, n: nat, run: nat)
    requires Rising(h, n, run) && run >= 2 && h[run] < h[Parent(run)]
    ensures Rising(h[run := h[Parent(run)]][Parent(run) := h[run]], n, Parent(run))
    ensures Elems(h[run := h[Parent(run)]][Parent(run) := h[run]], n) == Elems(h, n)
  {
    var p := Parent(run);
    var g := h[run := h[p]][p := h[run]];
    ElemsSwap(h, n, run, p, h[run]);
    forall j | 2 <= j < n && j != p
      ensures g[Parent(j)] <= g[j]
    {
      if Parent(j) == run {
        assert h[p] <= h[j];
      }
    }
  }

  // ---------- Sifting down ----------

  /** The heap with the moved event in the hole: only the hole may be greater than its children. */
  ghost predicate Sinking(h: seq<u64>, n: nat, run: nat) {
    && 1 <= run < n <= |h|
    && (forall j | 2 <= j < n && Parent(j) != run :: h[Parent(j)] <= h[j])
    && (run >= 2 ==> forall j | 2 <= j < n && Parent(j) == run :: h[Parent(run)] <= h[j])
  }

  lemma SinkStep(h: seq<u64>, n: nat, run: nat, best: nat)
    requires Sinking(h, n, run) && 2 <= best < n && Parent(best) == run && h[best] < h[run]
    requires forall j | 2 <= j < n && Parent(j) == run :: h[best] <= h[j]
    ensures Sinking(h[run := h[best]][best := h[run]], n, best)
    ensures Elems(h[run := h[best]][best := h[run]], n) == Elems(h, n)
  {
    ElemsSwap(h, n, run, best, h[run]);
    var g := h[run := h[best]][best := h[run]];
    forall j | 2 <= j < n && Parent(j) != best
      ensures g[Parent(j)] <= g[j]
    {
    }
  }

  /** Taking the root out and moving the last event into the hole. */
  lemma SinkStart(h: seq<u64>, n: nat)
    requires HeapOk(h, n + 1) && n >= 2
    ensures Sinking(h[1 := h[n]], n, 1)
    ensures Elems(h[1 := h[n]], n) == Elems(h, n + 1) - multiset{h[1]}
  {
    assert h[1..n + 1] == h[1..n] + [h[n]];
    ElemsSet(h, n, 1, h[n]);
    assert h[1..n][0] == h[1];
  }

  // ---------- The queue ----------

  class Queue {
    var heap: array<u64>  // slot 0 holds the capacity
    var current: u32      // the next free slot

    ghost predicate Valid()
      reads this, heap
    {
      && 1 <= current <= heap.Length
      && heap.Length >= 2 && heap[0] == heap.Length
      && HeapOk(heap[..], current)
    }

    ghost function Contents(): multiset<u64>
      reads this, heap
      requires Valid()
    {
      Elems(heap[..], current)
    }

    constructor ()
      ensures Valid() && fresh(heap) && Contents() == multiset{}
    {
      heap := new u64[INITIAL_CAPACITY];
      current := 1;
      new;
      heap[0] := INITIAL_CAPACITY;
      assert heap[..][1..1] == [];
    }

    lemma NotEmpty()
      requires Valid()
      ensures current >= 1 && (Contents() == multiset{} <==> current == 1)
    {
      if current > 1 {
        assert heap[..][1..current][0] in Contents();
      } else {
        assert heap[..][1..1] == [];
      }
    }

    function IsEmpty(): (r: bool)
      requires Valid()
      reads this, heap
      ensures r <==> Contents() == multiset{}
    {
      NotEmpty();
      current == 1
    }

    function Peek(): (event: u64)
      requires Valid() && !IsEmpty()
      reads this, heap
      ensures event in Contents() && forall x | x in Contents() :: event <= x
    {
      RootIsMinimum(heap[..], current);
      heap[1]
    }

    /** Twice the room, same contents. */
    method Grow()
      requires Valid() && current == heap.Length
      modifies this
      ensures Valid() && fresh(heap) && heap.Length == 2 * old(heap.Length)
      ensures current == old(current) && Contents() == old(Contents())
    {
      var doubled := new u64[2 * heap.Length];
      for i := 0 to heap.Length
        invariant forall j | 0 <= j < i :: doubled[j] == heap[j]
        modifies doubled
      {
        doubled[i] := heap[i];
      }
      doubled[0] := 2 * heap.Length;
      assert doubled[..][1..current] == heap[..][1..current];
      heap := doubled;
    }

    /** The program stops when it has counted to the last 32-bit slot. */
    method Push(event: u64)
      requires Valid() && current != MAX_U32
      modifies this, heap
      ensures Valid() && Contents() == old(Contents()) + multiset{event}
      ensures heap == old(heap) || fresh(heap)
      ensures current == old(current) + 1
    {
      hide HeapOk, Rising, Elems;
      if current == heap[0] {
        Grow();
      }
      PushStart(heap[..], current, event);
      RiseIn(heap[..][current := event], event);
    }

    /** The hole rises from the first free slot until the event is home. */
    method RiseIn(ghost start: seq<u64>, event: u64)
      requires 1 <= current < heap.Length == |start| && current != MAX_U32 && start[0] == heap[0] == heap.Length
      requires Rising(start, current + 1, current) && start[current] == event
      requires forall j | 1 <= j < current :: heap[j] == start[j]
      modifies heap, `current
      ensures Valid() && current == old(current) + 1 && Contents() == Elems(start, current)
    {
      hide HeapOk, Rising, Elems;
      var run := current;
      ghost var h: seq<u64> := start;
      ghost var n := current + 1;
      while run > 1
        invariant 1 <= run < n <= |h| && Rising(h, n, run) && h[run] == event && Elems(h, n) == Elems(start, n)
        invariant |h| == heap.Length && heap[0] == heap.Length && forall j | 1 <= j < n && j != run :: heap[j] == h[j]
        decreases run
        modifies heap
      {
        var parent := Parent(run);
        if heap[parent] <= event {
          break;
        }
        RiseStep(h, n, run);
        h := h[run := h[parent]][parent := event];
        heap[run] := heap[parent];
        run := parent;
      }
      RisenHome(h, n, run);
      heap[run] := event;
      current := current + 1;
      SameLive(h, heap[..], n);
    }

    /** The least of the children of run, all of which are below n. */
    method LeastChild(n: nat, run: nat) returns (best: nat)
      requires 1 <= run && n <= heap.Length && FirstChild(run) < n
      ensures 2 <= best < n && Parent(best) == run
      ensures forall j | 2 <= j < n && Parent(j) == run :: heap[best] <= heap[j]
    {
      var first := FirstChild(run);
      var end := if first + 4 > n then n else first + 4;
      best := first;
      for k := first + 1 to end
        invariant first <= best < k && forall j | first <= j < k :: heap[best] <= heap[j]
      {
        if heap[k] < heap[best] {
          best := k;
        }
      }
      forall j | 2 <= j
        ensures Parent(j) == run <==> first <= j < first + 4
      {
        Children(run, j);
      }
    }

    /** The least event; 0 from an empty queue, as in the program. */
    method Pop() returns (event: u64)
      requires Valid() && current < INDEX_LIMIT
      modifies this, heap
      ensures Valid() && heap == old(heap)
      ensures old(Contents()) == multiset{} ==> event == 0 && Contents() == old(Contents())
      ensures old(Contents()) != multiset{} ==>
                && event in old(Contents()) && (forall x | x in old(Contents()) :: event <= x)
                && Contents() == old(Contents()) - multiset{event}
                && current == old(current) - 1
    {
      if current == 1 {
        assert Contents() == multiset{} by {
          assert heap[..][1..1] == [];
        }
        return 0;
      }
      RootIsMinimum(heap[..], current);
      ghost var was := heap[..];
      current := current - 1;
      event := heap[1];
      var last := heap[current];
      heap[current] := 0;
      if current == 1 {
        heap[1] := last;
        assert was[1..2] == [event] && heap[..][1..1] == [];
        return;
      }
      SinkStart(was, current);
      SinkIn(was[1 := last], last);
    }

    /** The hole sinks from the root until the moved event is home. */
    method SinkIn(ghost start: seq<u64>, last: u64)
      requires |start| == heap.Length && 2 <= current < INDEX_LIMIT - 1 && current < heap.Length
      requires Sinking(start, current, 1) && start[1] == last && start[0] == heap[0] == heap.Length
      requires forall j | 2 <= j < current :: heap[j] == start[j]
      modifies heap
      ensures Valid() && Contents() == Elems(start, current)
    {
      hide HeapOk, Sinking, Elems;
      var run := 1;
      ghost var h: seq<u64> := start;
      ghost var n := current;
      ChildIndex(run);
      while U32(4 * run - 2) < current
        invariant U32(4 * run - 2) == FirstChild(run)
        invariant 1 <= run < n <= |h| && Sinking(h, n, run) && h[run] == last && Elems(h, n) == Elems(start, n)
        invariant |h| == heap.Length && heap[0] == heap.Length && forall j | 1 <= j < n && j != run :: heap[j] == h[j]
        decreases n - run
      {
        var best := LeastChild(current, run);
        LeastInHeap(h, heap[..], n, run, best);
        if heap[best] >= last {
          break;
        }
        SinkStep(h, n, run, best);
        h := h[run := h[best]][best := last];
        heap[run] := heap[best];
        run := best;
        ChildIndex(run);
      }
      Home(h, n, run);
      heap[run] := last;
      SameLive(h, heap[..], n);
    }
  }

  /** The heap only looks at its live slots. */
  lemma SameLive(h: seq<u64>, a: seq<u64>, n: nat)
    requires HeapOk(h, n) && |a| == |h| && forall j | 1 <= j < n :: a[j] == h[j]
    ensures HeapOk(a, n) && Elems(a, n) == Elems(h, n)
  {
    assert a[1..n] == h[1..n];
  }

  /** A new event in the first free slot. */
  lemma PushStart(h: seq<u64>, n: nat, event: u64)
    requires HeapOk(h, n) && n < |h|
    ensures Rising(h[n := event], n + 1, n) && Elems(h[n := event], n + 1) == Elems(h, n) + multiset{event}
  {
    assert h[n := event][1..n + 1] == h[1..n] + [event];
  }

  lemma RisenHome(h: seq<u64>, n: nat, run: nat)
    requires Rising(h, n, run) && (run == 1 || h[Parent(run)] <= h[run])
    ensures HeapOk(h, n)
  {
  }

  /** Away from the hole the array and the heap are the same. */
  lemma LeastInHeap(h: seq<u64>, a: seq<u64>, n: nat, run: nat, best: nat)
    requires 1 <= run < n <= |h| == |a| && 2 <= best < n && Parent(best) == run
    requires forall j | 1 <= j < n && j != run :: a[j] == h[j]
    requires forall j | 2 <= j < n && Parent(j) == run :: a[best] <= a[j]
    ensures h[best] == a[best] && forall j | 2 <= j < n && Parent(j) == run :: h[best] <= h[j]
  {
  }

  /** No child beats the moved event: the heap is whole. */
  lemma Home(h: seq<u64>, n: nat, run: nat)
    requires Sinking(h, n, run)
    requires FirstChild(run) >= n || forall j | 2 <= j < n && Parent(j) == run :: h[run] <= h[j]
    ensures HeapOk(h, n)
  {
    forall j | 2 <= j < n && Parent(j) == run
      ensures h[run] <= h[j]
    {
      Children(run, j);
    }
  }
}
