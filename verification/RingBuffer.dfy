/** The growing ring buffer (src/cb.c): whatever the interleaving of calls, it is the sequence of what
was queued and not yet dequeued, across wrap and growth. */
module RingBuffer {
  import opened Machine

  // include/cb.h
  const CB_INITIAL_CAPACITY: u32 := 1024
  const EMPTY: u32 := MAX_U32
  const LAST_CAPACITY: u32 := 0x8000_0000  // twice this does not fit 32 bits

  datatype Option<T> = None | Some(value: T)

  /** An index around the edge of a ring of n. */
  function Wrap(i: nat, n: nat): (r: nat)
    requires i < 2 * n
    ensures r == i % n
  {
    if i < n then i else i - n
  }

  /** The queued entries of a buffer: from start to end, around the edge when end is not past start. */
  function Queued<T>(buffer: seq<T>, start: u32, end: u32): seq<T>
    requires start == EMPTY || (start < |buffer| && end < |buffer|)
  {
    if start == EMPTY then []
    else if start < end then buffer[start..end]
    else buffer[start..] + buffer[..end]
  }

  class Ring<T(0)> {
    var start: u32
    var end: u32
    var capacity: u32
    var buffer: array<T>

    ghost predicate Valid()
      reads this, buffer
    {
      && capacity == buffer.Length <= LAST_CAPACITY && Doubled(capacity, CB_INITIAL_CAPACITY)
      && (if start == EMPTY then end == 0 else start < capacity && end < capacity)
    }

    ghost function Contents(): seq<T>
      reads this, buffer
      requires Valid()
    {
      Queued(buffer[..], start, end)
    }

    /** Filled from empty and never dequeued: entry i is at index i. */
    ghost predicate Flat()
      reads this
    {
      start == EMPTY || start == 0
    }

    constructor ()
      ensures Valid() && fresh(buffer) && Contents() == [] && Flat()
    {
      start, end, capacity := EMPTY, 0, CB_INITIAL_CAPACITY;
      buffer := new T[CB_INITIAL_CAPACITY];
    }

    /** The entries in order from index 0, in twice the room. */
    method Grow()
      requires Valid() && start == end && capacity < LAST_CAPACITY
      modifies this
      ensures Valid() && fresh(buffer) && Contents() == old(Contents())
      ensures start == 0 && end == old(capacity) && capacity == 2 * old(capacity)
    {
      NextCapacity(capacity);
      var doubled := new T[2 * capacity];
      var head := capacity - start;
      for i := 0 to head
        invariant doubled[..i] == buffer[start..start + i]
        modifies doubled
      {
        doubled[i] := buffer[start + i];
      }
      for i := 0 to end
        invariant doubled[..head + i] == buffer[start..] + buffer[..i]
        modifies doubled
      {
        doubled[head + i] := buffer[i];
      }
      assert doubled[..capacity] == Contents();
      start, end, capacity, buffer := 0, capacity, 2 * capacity, doubled;
    }

    /** cb_queue; false where the program stops because it cannot double. */
    method Queue(value: T) returns (ok: bool)
      requires Valid()
      modifies this, buffer
      ensures Valid() && (buffer == old(buffer) || fresh(buffer))
      ensures !ok <==> old(start == end && capacity == LAST_CAPACITY)
      ensures Contents() == old(Contents()) + if ok then [value] else []
      ensures old(Flat()) ==> Flat()
    {
      ghost var was := Contents();
      if start == EMPTY {
        start := 0;
      } else if start == end {
        if capacity == LAST_CAPACITY {
          return false;
        }
        Grow();
      }
      Stored(buffer[..], start, end, value, was);
      buffer[end] := value;
      end := Wrap(end + 1, capacity);
      ok := true;
    }

    /** cb_last. */
    function Last(): (r: Option<T>)
      requires Valid()
      reads this, buffer
      ensures r == if Contents() == [] then None else Some(Contents()[|Contents()| - 1])
    {
      if start == EMPTY then None
      else
        EntryAt(buffer[..], start, end, Count() - 1);
        Some(buffer[Wrap(end + capacity - 1, capacity)])
    }

    /** cb_deque: the oldest entry. */
    method Deque() returns (r: Option<T>)
      requires Valid()
      modifies `start, `end
      ensures Valid()
      ensures old(Contents()) == [] ==> r == None && Contents() == []
      ensures old(Contents()) != [] ==> r == Some(old(Contents())[0]) && Contents() == old(Contents())[1..]
    {
      if start == EMPTY {
        return None;
      }
      Dropped(buffer[..], start, end);
      r := Some(buffer[start]);
      start := Wrap(start + 1, capacity);
      if start == end {
        start, end := EMPTY, 0;
      }
    }

    function IsEmpty(): (r: bool)
      requires Valid()
      reads this, buffer
      ensures r <==> Contents() == []
    {
      start == EMPTY
    }

    /** cb_count: a full ring, whose start and end meet, is not an empty one. */
    function Count(): (n: u32)
      requires Valid()
      reads this, buffer
      ensures n == |Contents()|
    {
      if start == EMPTY then 0 else Wrap(end + capacity - start - 1, capacity) + 1
    }

    /** cb_at: the i-th from the front. */
    function At(i: u32): (r: T)
      requires Valid() && i < Count()
      reads this, buffer
      ensures r == Contents()[i]
    {
      EntryAt(buffer[..], start, end, i);
      buffer[Wrap(start + i, capacity)]
    }

    method Clear()
      requires Valid()
      modifies `start, `end
      ensures Valid() && Contents() == [] && Flat()
    {
      start, end := EMPTY, 0;
    }

    lemma EmptyIsFlat()
      requires Valid() && Contents() == []
      ensures Flat()
    {
    }

    lemma FullIsLong()
      requires Valid() && start == end
      ensures |Contents()| == capacity
    {
    }

    /** A flat ring can be read as an array. */
    lemma FlatReads()
      requires Valid() && Flat()
      ensures |Contents()| <= buffer.Length && buffer[..|Contents()|] == Contents()
    {
    }
  }

  lemma Times(n: nat)
    requires n >= CB_INITIAL_CAPACITY && Doubled(n, CB_INITIAL_CAPACITY)
    ensures Doubled(8 * n, CB_INITIAL_CAPACITY)
  {
    assert Doubled(2 * n, CB_INITIAL_CAPACITY);
    assert Doubled(4 * n, CB_INITIAL_CAPACITY);
  }

  lemma FirstCapacity()
    ensures Doubled(CB_INITIAL_CAPACITY, CB_INITIAL_CAPACITY)
  {
  }

  lemma LastIsCapacity()
    ensures Doubled(LAST_CAPACITY, CB_INITIAL_CAPACITY)
  {
    hide Doubled;
    FirstCapacity();
    Times(0x400);
    Times(0x2000);
    Times(0x1_0000);
    Times(0x8_0000);
    Times(0x40_0000);
    Times(0x200_0000);
    Times(0x1000_0000);
  }

  lemma NextCapacity(n: u32)
    requires Doubled(n, CB_INITIAL_CAPACITY)
    ensures n < LAST_CAPACITY ==> 2 * n <= LAST_CAPACITY && Doubled(2 * n, CB_INITIAL_CAPACITY)
    ensures 1 <= n
  {
    LastIsCapacity();
    DoubledAtLeast(n, CB_INITIAL_CAPACITY);
    if n < LAST_CAPACITY {
      NoneBetween(n, LAST_CAPACITY, CB_INITIAL_CAPACITY);
    }
  }

  /** One more entry at the end of a ring with room. */
  lemma Stored<T>(b: seq<T>, start: u32, end: u32, value: T, was: seq<T>)
    requires start < |b| && end < |b| <= LAST_CAPACITY
    requires (start == end == 0 && was == []) || (start != end && was == Queued(b, start, end))
    ensures Queued(b[end := value], start, Wrap(end + 1, |b|)) == was + [value]
  {
    var c := b[end := value];
    if start <= end {
      assert c[start..end + 1] == b[start..end] + [value];
      assert end + 1 == |b| ==> c[start..] + c[..0] == c[start..end + 1];
    } else {
      assert c[start..] == b[start..] && c[..end + 1] == b[..end] + [value];
      Assoc(b[start..], b[..end], [value]);
    }
  }

  /** The i-th entry from the front, wherever the edge is. */
  lemma EntryAt<T>(b: seq<T>, start: u32, end: u32, i: nat)
    requires start < |b| && end < |b| <= LAST_CAPACITY && i < |Queued(b, start, end)|
    ensures start + i < 2 * |b| && Queued(b, start, end)[i] == b[Wrap(start + i, |b|)]
  {
  }

  /** Without its first entry. */
  lemma Dropped<T>(b: seq<T>, start: u32, end: u32)
    requires start < |b| && end < |b| <= LAST_CAPACITY
    ensures Queued(b, start, end) != [] && Queued(b, start, end)[0] == b[start]
    ensures var next := Wrap(start + 1, |b|); Queued(b, start, end)[1..] == if next == end then [] else Queued(b, next, end)
  {
    var q := Queued(b, start, end);
    if start < end {
      assert q[1..] == b[start + 1..end];
    } else {
      assert q == [b[start]] + (b[start + 1..] + b[..end]);
      assert q[1..] == b[start + 1..] + b[..end];
      if start + 1 == |b| {
        assert q[1..] == b[0..end];
      }
    }
  }
}
