/** The binary max-heap with growth (src/xpq.c), the twin of the min-heap: pop returns the greatest. */
module MaxHeap {
  import opened Machine
  import Pq

  function Parent(j: nat): (p: nat)
    requires 2 <= j
    ensures 1 <= p < j
  {
    j / 2
  }

  ghost predicate HeapOk(h: seq<u64>, n: nat) {
    1 <= n <= |h| && forall j | 2 <= j < n :: h[Parent(j)] >= h[j]
  }

  lemma {:induction false} RootGreatest(h: seq<u64>, n: nat, j: nat)
    requires HeapOk(h, n) && 1 <= j < n
    ensures h[1] >= h[j]
  {
    if j > 1 {
      RootGreatest(h, n, Parent(j));
    }
  }

  lemma RootIsMaximum(h: seq<u64>, n: nat)
    requires HeapOk(h, n) && n > 1
    ensures h[1] in Pq.Elems(h, n) && forall x | x in Pq.Elems(h, n) :: h[1] >= x
  {
    assert h[1..n][0] == h[1];
    forall x | x in Pq.Elems(h, n)
      ensures h[1] >= x
    {
      var k :| 0 <= k < n - 1 && h[1..n][k] == x;
      RootGreatest(h, n, k + 1);
    }
  }

  // ---------- Sifting up ----------

  /** Only the hole may be greater than its parent. */
  ghost predicate Rising(h: seq<u64>, n: nat, run: nat) {
    && 1 <= run < n <= |h|
    && (forall j | 2 <= j < n && j != run :: h[Parent(j)] >= h[j])
    && (run >= 2 ==> forall j | 2 <= j < n && Parent(j) == run :: h[Parent(run)] >= h[j])
  }

  lemma RiseStep(h: seq<u64>, n: nat, run: nat)
    requires Rising(h, n, run) && run >= 2 && h[run] > h[Parent(run)]
    ensures Rising(h[run := h[Parent(run)]][Parent(run) := h[run]], n, Parent(run))
    ensures Pq.Elems(h[run := h[Parent(run)]][Parent(run) := h[run]], n) == Pq.Elems(h, n)
  {
    var p := Parent(run);
    var g := h[run := h[p]][p := h[run]];
    Pq.ElemsSwap(h, n, run, p, h[run]);
    forall j | 2 <= j < n && j != p
      ensures g[Parent(j)] >= g[j]
    {
      if Parent(j) == run {
        assert h[p] >= h[j];
      }
    }
  }

  lemma RiseStart(h: seq<u64>, n: nat, event: u64)
    requires HeapOk(h, n) && n < |h|
    ensures Rising(h[n := event], n + 1, n) && Pq.Elems(h[n := event], n + 1) == Pq.Elems(h, n) + multiset{event}
  {
    assert h[n := event][1..n + 1] == h[1..n] + [event];
  }

  lemma RisenHome(h: seq<u64>, n: nat, run: nat)
    requires Rising(h, n, run) && (run == 1 || h[Parent(run)] >= h[run])
    ensures HeapOk(h, n)
  {
  }

  // ---------- Sifting down ----------

  /** Only the hole may be less than its children. */
  ghost predicate Sinking(h: seq<u64>, n: nat, run: nat) {
    && 1 <= run < n <= |h|
    && (forall j | 2 <= j < n && Parent(j) != run :: h[Parent(j)] >= h[j])
    && (run >= 2 ==> forall j | 2 <= j < n && Parent(j) == run :: h[Parent(run)] >= h[j])
  }

  /** The hole follows a greatest child, which is not less than the moved event. */
  lemma SinkStep(h: seq<u64>, n: nat, run: nat, best: nat)
    requires Sinking(h, n, run) && (best == 2 * run || best == 2 * run + 1) && best < n
    requires 2 * run < n ==> h[best] >= h[2 * run]
    requires 2 * run + 1 < n ==> h[best] >= h[2 * run + 1]
    requires h[best] >= h[run]
    ensures Sinking(h[run := h[best]][best := h[run]], n, best)
    ensures Pq.Elems(h[run := h[best]][best := h[run]], n) == Pq.Elems(h, n)
  {
    Pq.ElemsSwap(h, n, run, best, h[run]);
    var g := h[run := h[best]][best := h[run]];
    forall j | 2 <= j < n && Parent(j) != best
      ensures g[Parent(j)] >= g[j]
    {
    }
  }

  lemma SinkStart(h: seq<u64>, n: nat)
    requires HeapOk(h, n + 1) && n >= 2
    ensures Sinking(h[1 := h[n]], n, 1)
    ensures Pq.Elems(h[1 := h[n]], n) == Pq.Elems(h, n + 1) - multiset{h[1]}
  {
    assert h[1..n + 1] == h[1..n] + [h[n]];
    Pq.ElemsSet(h, n, 1, h[n]);
    assert h[1..n][0] == h[1];
  }

  /** The program's index of the left child is that of the tree exactly below slot 2^31, whose left
  child is looked for at slot 0, where the capacity is. */
  lemma ChildIndex(i: u32)
    ensures U32(2 * i) == 2 * i <==> i < 0x8000_0000
    ensures i == 0x8000_0000 ==> U32(2 * i) == 0
  {
  }

  /** Below this the hole of a pop never gets to a slot whose 32-bit child index wraps. */
  const INDEX_LIMIT := 0x8000_0002

  lemma Home(h: seq<u64>, n: nat, run: nat)
    requires Sinking(h, n, run)
    requires 2 * run < n ==> h[run] >= h[2 * run]
    requires 2 * run + 1 < n ==> h[run] >= h[2 * run + 1]
    ensures HeapOk(h, n)
  {
    forall j | 2 <= j < n && Parent(j) == run
      ensures h[run] >= h[j]
    {
      assert j == 2 * run || j == 2 * run + 1;
    }
  }

  lemma SameLive(h: seq<u64>, a: seq<u64>, n: nat)
    requires HeapOk(h, n) && |a| == |h| && forall j | 1 <= j < n :: a[j] == h[j]
    ensures HeapOk(a, n) && Pq.Elems(a, n) == Pq.Elems(h, n)
  {
    assert a[1..n] == h[1..n];
  }

  // ---------- The heap ----------

  class Heap {
    var heap: array<u64>  // slot 0 holds the capacity
    var current: u32      // the next free slot

    ghost predicate Valid()
      reads this, heap
    {
      && 1 <= current <= heap.Length
      && heap.Length >= 2 && heap[0] == heap.Length
      && HeapOk(heap[..], current)
    }

    ghost function Contents(): multiset<u64>
      reads this, heap
      requires Valid()
    {
      Pq.Elems(heap[..], current)
    }

    constructor ()
      ensures Valid() && fresh(heap) && Contents() == multiset{}
    {
      heap := new u64[Pq.INITIAL_CAPACITY];
      current := 1;
      new;
      heap[0] := Pq.INITIAL_CAPACITY;
      assert heap[..][1..1] == [];
    }

    lemma NotEmpty()
      requires Valid()
      ensures Contents() == multiset{} <==> current == 1
    {
      if current > 1 {
        assert heap[..][1..current][0] in Contents();
      } else {
        assert heap[..][1..1] == [];
      }
    }

    function IsEmpty(): (r: bool)
      requires Valid()
      reads this, heap
      ensures r <==> Contents() == multiset{}
    {
      NotEmpty();
      current == 1
    }

    function Peek(): (event: u64)
      requires Valid() && !IsEmpty()
      reads this, heap
      ensures event in Contents() && forall x | x in Contents() :: event >= x
    {
      RootIsMaximum(heap[..], current);
      heap[1]
    }

    method Grow()
      requires Valid() && current == heap.Length
      modifies this
      ensures Valid() && fresh(heap) && heap.Length == 2 * old(heap.Length)
      ensures current == old(current) && Contents() == old(Contents())
    {
      var doubled := new u64[2 * heap.Length];
      for i := 0 to heap.Length
        invariant forall j | 0 <= j < i :: doubled[j] == heap[j]
        modifies doubled
      {
        doubled[i] := heap[i];
      }
      doubled[0] := 2 * heap.Length;
      assert doubled[..][1..current] == heap[..][1..current];
      heap := doubled;
    }

    /** The program stops when it has counted to the last 32-bit slot. */
    method Push(event: u64)
      requires Valid() && current != MAX_U32
      modifies this, heap
      ensures Valid() && Contents() == old(Contents()) + multiset{event}
      ensures heap == old(heap) || fresh(heap)
      ensures current == old(current) + 1
    {
      hide HeapOk, Rising, Pq.Elems;
      if current == heap[0] {
        Grow();
      }
      RiseStart(heap[..], current, event);
      RiseIn(heap[..][current := event], event);
    }

    method RiseIn(ghost start: seq<u64>, event: u64)
      requires 1 <= current < heap.Length == |start| && current != MAX_U32 && start[0] == heap[0] == heap.Length
      requires Rising(start, current + 1, current) && start[current] == event
      requires forall j | 1 <= j < current :: heap[j] == start[j]
      modifies heap, `current
      ensures Valid() && current == old(current) + 1 && Contents() == Pq.Elems(start, current)
    {
      hide HeapOk, Rising, Pq.Elems;
      var run := current;
      ghost var h: seq<u64> := start;
      ghost var n := current + 1;
      while run > 1
        invariant 1 <= run < n <= |h| && Rising(h, n, run) && h[run] == event && Pq.Elems(h, n) == Pq.Elems(start, n)
        invariant |h| == heap.Length && heap[0] == heap.Length && forall j | 1 <= j < n && j != run :: heap[j] == h[j]
        decreases run
        modifies heap
      {
        var parent := Parent(run);
        if heap[parent] >= event {
          break;
        }
        RiseStep(h, n, run);
        h := h[run := h[parent]][parent := event];
        heap[run] := heap[parent];
        run := parent;
      }
      RisenHome(h, n, run);
      heap[run] := event;
      current := current + 1;
      SameLive(h, heap[..], n);
    }

    /** The greatest event; 0 from an empty heap, as in the program. */
    method Pop() returns (event: u64)
      requires Valid() && current < INDEX_LIMIT
      modifies this, heap
      ensures Valid() && heap == old(heap)
      ensures old(Contents()) == multiset{} ==> event == 0 && Contents() == old(Contents())
      ensures old(Contents()) != multiset{} ==>
                && event in old(Contents()) && (forall x | x in old(Contents()) :: event >= x)
                && Contents() == old(Contents()) - multiset{event}
                && current == old(current) - 1
    {
      if current == 1 {
        assert Contents() == multiset{} by {
          assert heap[..][1..1] == [];
        }
        return 0;
      }
      RootIsMaximum(heap[..], current);
      ghost var was := heap[..];
      current := current - 1;
      event := heap[1];
      var last := heap[current];
      heap[current] := 0;
      if current == 1 {
        heap[1] := last;
        assert was[1..2] == [event] && heap[..][1..1] == [];
        return;
      }
      SinkStart(was, current);
      SinkIn(was[1 := last], last);
    }

    /** The hole sinks along the greater children, past equal ones too, until the moved event is home. */
    method SinkIn(ghost start: seq<u64>, last: u64)
      requires |start| == heap.Length && 2 <= current < INDEX_LIMIT - 1 && current < heap.Length
      requires Sinking(start, current, 1) && start[1] == last && start[0] == heap[0] == heap.Length
      requires forall j | 2 <= j < current :: heap[j] == start[j]
      modifies heap
      ensures Valid() && Contents() == Pq.Elems(start, current)
    {
      hide HeapOk, Sinking, Pq.Elems;
      var run := 1;
      ghost var h: seq<u64> := start;
      ghost var n := current;
      while true
        invariant 1 <= run < n <= |h| && Sinking(h, n, run) && h[run] == last && Pq.Elems(h, n) == Pq.Elems(start, n)
        invariant |h| == heap.Length && heap[0] == heap.Length && forall j | 1 <= j < n && j != run :: heap[j] == h[j]
        decreases n - run
      {
        ChildIndex(run);
        var left := U32(2 * run);
        var right := left + 1;
        if right >= current && left >= current {
          heap[run] := last;
          break;
        }
        if right >= current {
          if heap[left] > last {
            SinkStep(h, n, run, left);
            h := h[run := h[left]][left := last];
            heap[run] := heap[left];
            heap[left] := last;
            run := left;
          } else {
            heap[run] := last;
          }
          break;
        }
        if heap[right] < last && heap[left] < last {
          heap[run] := last;
          break;
        }
        var best := if heap[right] >= heap[left] then right else left;
        SinkStep(h, n, run, best);
        h := h[run := h[best]][best := last];
        heap[run] := heap[best];
        run := best;
      }
      Home(h, n, run);
      SameLive(h, heap[..], n);
    }
  }
}
