/** The blob store (src/bs.c): variable-size blobs in one growing buffer, kept in a ring of slots with
reference counts. It refines a queue of byte strings: blobs never overlap, and their bytes survive
wrapping, in-place growth and compacting growth until their slot is reclaimed. */
module BlobStore {
  import opened Machine

  const INITIAL_METADATA_INDEX := 65535
  const INITIAL_STORE := 8192

  /** BSM: one slot. */
  datatype Bsm = Bsm(refs: nat, offset: nat, size: nat)
  {
    function End(): nat {
      offset + size
    }
  }

  // ---------- Layout ----------

  /** Blobs lie end to end in ring order, except that the one at wrap (if there is one) went back to
  the bottom, below the first. */
  ghost predicate Layout(spans: seq<Bsm>, wrap: nat, capacity: nat) {
    && (forall i | 0 <= i < |spans| :: spans[i].size > 0)
    && (forall i | 0 < i < |spans| && i != wrap :: spans[i].offset == spans[i - 1].End())
    && (spans != [] ==> 1 <= wrap <= |spans| && spans[wrap - 1].End() <= capacity)
    && (spans != [] && wrap < |spans| ==> spans[wrap].offset == 0 && spans[|spans| - 1].End() <= spans[0].offset)
  }

  /** Within one run, later blobs are higher. */
  lemma {:induction false} RunClimbs(spans: seq<Bsm>, wrap: nat, capacity: nat, i: nat, j: nat)
    requires Layout(spans, wrap, capacity) && i < j < |spans| && (j < wrap || wrap <= i)
    ensures spans[i].End() <= spans[j].offset
  {
    if i + 1 < j {
      RunClimbs(spans, wrap, capacity, i, j - 1);
    }
  }

  predicate Apart(a: Bsm, b: Bsm) {
    a.End() <= b.offset || b.End() <= a.offset
  }

  /** Every blob is in bounds, and no two overlap. */
  lemma LayoutApart(spans: seq<Bsm>, wrap: nat, capacity: nat)
    requires Layout(spans, wrap, capacity)
    ensures forall i | 0 <= i < |spans| :: spans[i].End() <= capacity
    ensures forall i, j | 0 <= i < j < |spans| :: Apart(spans[i], spans[j])
  {
    forall i | 0 <= i < |spans|
      ensures spans[i].End() <= (if i < wrap then capacity else spans[0].offset)
    {
      if i < wrap - 1 {
        RunClimbs(spans, wrap, capacity, i, wrap - 1);
      } else if wrap <= i < |spans| - 1 {
        RunClimbs(spans, wrap, capacity, i, |spans| - 1);
      }
    }
    forall i, j | 0 <= i < j < |spans|
      ensures Apart(spans[i], spans[j])
    {
      if j < wrap || wrap <= i {
        RunClimbs(spans, wrap, capacity, i, j);
      } else if i > 0 {
        RunClimbs(spans, wrap, capacity, 0, i);
      }
    }
  }

  /** The program's test for a wrapped store. */
  lemma WrappedTest(spans: seq<Bsm>, wrap: nat, capacity: nat)
    requires Layout(spans, wrap, capacity) && spans != []
    ensures spans[0].offset > spans[|spans| - 1].offset <==> wrap < |spans|
    ensures wrap <= |spans|
  {
    if wrap == |spans| && |spans| > 1 {
      RunClimbs(spans, wrap, capacity, 0, |spans| - 1);
    }
  }

  /** Growing the buffer leaves the layout as it is. */
  lemma LayoutGrows(spans: seq<Bsm>, wrap: nat, capacity: nat, more: nat)
    requires Layout(spans, wrap, capacity) && capacity <= more
    ensures Layout(spans, wrap, more)
  {
  }

  /** The head goes: the rest is laid out as before. */
  lemma LayoutTail(spans: seq<Bsm>, wrap: nat, capacity: nat)
    requires Layout(spans, wrap, capacity) && spans != []
    ensures Layout(spans[1..], TailWrap(spans, wrap), capacity)
  {
    LayoutApart(spans, wrap, capacity);
    var t, w := spans[1..], TailWrap(spans, wrap);
    forall i | 0 < i < |t| && i != w
      ensures t[i].offset == t[i - 1].End()
    {
      assert t[i] == spans[i + 1] && t[i - 1] == spans[i];
    }
    if t != [] && w < |t| {
      assert spans[1].offset == spans[0].End();
    }
  }

  function TailWrap(spans: seq<Bsm>, wrap: nat): nat
    requires spans != []
  {
    if wrap > 1 then wrap - 1 else |spans| - 1
  }

  lemma LayoutShrinks(spans: seq<Bsm>, wrap: nat, capacity: nat, size: nat)
    requires Layout(spans, wrap, capacity) && spans != [] && 0 < size <= spans[|spans| - 1].size
    ensures Layout(spans[|spans| - 1 := spans[|spans| - 1].(size := size)], wrap, capacity)
  {
  }

  lemma LayoutRefs(spans: seq<Bsm>, wrap: nat, capacity: nat, i: nat, refs: nat)
    requires Layout(spans, wrap, capacity) && i < |spans|
    ensures Layout(spans[i := spans[i].(refs := refs)], wrap, capacity)
  {
  }

  // ---------- Compaction ----------

  function Total(spans: seq<Bsm>): nat {
    if spans == [] then 0 else Total(spans[..|spans| - 1]) + spans[|spans| - 1].size
  }

  lemma {:induction false} TotalTakes(spans: seq<Bsm>, i: nat)
    requires i < |spans|
    ensures Total(spans[..i + 1]) == Total(spans[..i]) + spans[i].size
  {
    assert spans[..i + 1][..i] == spans[..i];
  }

  /** Up to the wrap the blobs fill the buffer from the first offset on. */
  lemma {:induction false} TotalLow(spans: seq<Bsm>, wrap: nat, capacity: nat, n: nat)
    requires Layout(spans, wrap, capacity) && 1 <= n <= wrap && spans != []
    ensures Total(spans[..n]) == spans[n - 1].End() - spans[0].offset
  {
    TotalTakes(spans, n - 1);
    if n > 1 {
      TotalLow(spans, wrap, capacity, n - 1);
    } else {
      assert spans[..0] == [];
    }
  }

  lemma {:induction false} TotalHigh(spans: seq<Bsm>, wrap: nat, capacity: nat, n: nat)
    requires Layout(spans, wrap, capacity) && spans != [] && wrap < n <= |spans|
    ensures Total(spans[..n]) == Total(spans[..wrap]) + spans[n - 1].End()
  {
    TotalTakes(spans, n - 1);
    if n > wrap + 1 {
      TotalHigh(spans, wrap, capacity, n - 1);
    }
  }

  /** The live bytes fit the old buffer, so they fit the doubled one. */
  lemma TotalFits(spans: seq<Bsm>, wrap: nat, capacity: nat)
    requires Layout(spans, wrap, capacity)
    ensures Total(spans) <= capacity
  {
    if spans != [] {
      TotalLow(spans, wrap, capacity, wrap);
      assert spans[..|spans|] == spans;
      if wrap < |spans| {
        TotalHigh(spans, wrap, capacity, |spans|);
      }
    }
  }

  /** The blobs pushed together from the bottom. */
  ghost predicate Compacted(packed: seq<Bsm>, spans: seq<Bsm>) {
    && |packed| == |spans|
    && forall i | 0 <= i < |spans| :: packed[i] == spans[i].(offset := Total(spans[..i]))
  }

  lemma CompactedLayout(packed: seq<Bsm>, spans: seq<Bsm>, wrap: nat, capacity: nat)
    requires Compacted(packed, spans) && Layout(spans, wrap, capacity)
    ensures Layout(packed, |packed|, capacity)
  {
    TotalFits(spans, wrap, capacity);
    forall i | 0 < i < |packed|
      ensures packed[i].offset == packed[i - 1].End()
    {
      TotalTakes(spans, i - 1);
    }
    if packed != [] {
      TotalTakes(spans, |spans| - 1);
      assert spans[..|spans|] == spans;
    }
  }

  // ---------- The ring ----------

  /** One step of index arithmetic modulo the capacity. */
  function Wrap(i: nat, capacity: nat): nat {
    if i < capacity then i else i - capacity
  }

  /** The capacity is a 32-bit field that only ever doubles. What is stored is the doubled value exactly
  below 2^31; at 2^31 it is 0. */
  lemma DoublingFits(capacity: u32)
    ensures U32(2 * capacity) == 2 * capacity <==> capacity < 0x8000_0000
    ensures capacity == 0x8000_0000 ==> U32(2 * capacity) == 0
  {
  }

  lemma WrapIsMod(i: nat, capacity: nat)
    requires 0 < capacity && i < 2 * capacity
    ensures Wrap(i, capacity) == i % capacity
  {
    if i >= capacity {
      assert i == capacity + (i - capacity);
    }
  }

  /** One reference fewer. */
  function Unref(spans: seq<Bsm>, i: nat): seq<Bsm>
    requires i < |spans| && spans[i].refs > 0
  {
    spans[i := spans[i].(refs := spans[i].refs - 1)]
  }

  /** How many of the first slots are free to go. */
  function Dead(spans: seq<Bsm>): (d: nat)
    ensures d <= |spans|
    ensures forall i | 0 <= i < d :: spans[i].refs == 0
    ensures d < |spans| ==> spans[d].refs > 0
  {
    if spans == [] || spans[0].refs > 0 then 0 else 1 + Dead(spans[1..])
  }

  // ---------- Slots as ids ----------

  /** The ring by value. */
  datatype Ring = Ring(start: nat, capacity: nat, spans: seq<Bsm>, blobs: seq<seq<u8>>)
  {
    /** Where a slot stands in the ring, if it is live. */
    function Index(slot: nat): nat {
      if slot >= start then slot - start else if slot + capacity >= start then slot + capacity - start else capacity
    }

    function SlotOf(i: nat): nat {
      Wrap(start + i, capacity)
    }

    predicate Live(slot: nat) {
      slot < capacity && Index(slot) < |spans|
    }

    function Refs(slot: nat): nat
    {
      if Live(slot) then spans[Index(slot)].refs else 0
    }

    function Bytes(slot: nat): seq<u8> {
      if Live(slot) && Index(slot) < |blobs| then blobs[Index(slot)] else []
    }

    ghost predicate Ok() {
      && |blobs| == |spans| <= capacity
      && (spans != [] ==> start < capacity)
    }
  }

  /** Slot and index are inverse to each other. */
  lemma IndexOfSlot(r: Ring, i: nat)
    requires r.Ok() && i < |r.spans|
    ensures r.Index(r.SlotOf(i)) == i && r.Live(r.SlotOf(i))
  {
  }

  lemma SlotOfIndex(r: Ring, slot: nat)
    requires r.Ok() && r.Live(slot)
    ensures r.SlotOf(r.Index(slot)) == slot
  {
  }

  /** Dropping the first d slots: the others are as they were. */
  lemma RingDrops(r: Ring, now: Ring, d: nat)
    requires r.Ok() && now.Ok() && d <= |r.spans| && now.capacity == r.capacity
    requires now.spans == r.spans[d..] && now.blobs == r.blobs[d..]
    requires forall j | 0 <= j < |now.spans| :: now.SlotOf(j) == r.SlotOf(j + d)
    ensures forall s :: now.Live(s) <==> r.Live(s) && d <= r.Index(s)
    ensures forall s | now.Live(s) :: now.Refs(s) == r.Refs(s) && now.Bytes(s) == r.Bytes(s)
  {
    forall s | now.Live(s)
      ensures r.Live(s) && d <= r.Index(s) && now.Refs(s) == r.Refs(s) && now.Bytes(s) == r.Bytes(s)
    {
      SlotOfIndex(now, s);
      var j := now.Index(s);
      assert now.SlotOf(j) == r.SlotOf(j + d);
      IndexOfSlot(r, j + d);
    }
    forall s | r.Live(s) && d <= r.Index(s)
      ensures now.Live(s)
    {
      SlotOfIndex(r, s);
      var j := r.Index(s) - d;
      assert now.SlotOf(j) == r.SlotOf(j + d);
      IndexOfSlot(now, j);
    }
  }

  class Store {
    var mdStart: nat
    var mdEnd: nat
    const mdCapacity: nat
    const metadata: array<Bsm>
    var store: array<u8>

    ghost var spans: seq<Bsm>      // the live slots, oldest first
    ghost var wrap: nat            // how many of them lie before the store wrapped
    ghost var blobs: seq<seq<u8>>  // what each of them holds

    ghost function Value(): Ring
      reads this
    {
      Ring(mdStart, mdCapacity, spans, blobs)
    }

    /** The slot of the i-th live blob: stable for as long as the blob lives. */
    ghost function SlotAt(i: nat): nat
      reads this
    {
      Wrap(mdStart + i, mdCapacity)
    }

    ghost predicate RingOk()
      reads this, metadata
    {
      && metadata.Length == mdCapacity && 2 <= mdCapacity <= INITIAL_METADATA_INDEX
      && |spans| <= mdCapacity
      && (spans == [] <==> mdStart == INITIAL_METADATA_INDEX)
      && (spans == [] ==> mdEnd == 0)
      && (spans != [] ==> mdStart < mdCapacity && mdEnd == SlotAt(|spans|))
      && (forall i | 0 <= i < |spans| :: SlotAt(i) < mdCapacity && metadata[SlotAt(i)] == spans[i])
    }

    ghost predicate BytesOk()
      reads this, store
    {
      && |blobs| == |spans|
      && forall i | 0 <= i < |spans| :: spans[i].End() <= store.Length && blobs[i] == store[spans[i].offset..spans[i].End()]
    }

    ghost predicate Shaped()
      reads this, metadata, store
    {
      RingOk() && store.Length > 0 && Layout(spans, wrap, store.Length) && BytesOk()
    }

    /** The oldest live blob is still wanted. */
    ghost predicate Valid()
      reads this, metadata, store
    {
      Shaped() && (spans != [] ==> spans[0].refs > 0)
    }

    constructor (metadataCapacity: nat)
      requires 2 <= metadataCapacity <= INITIAL_METADATA_INDEX
      ensures Valid() && fresh(metadata) && fresh(store) && spans == [] && blobs == [] && mdCapacity == metadataCapacity
    {
      mdStart, mdEnd, mdCapacity := INITIAL_METADATA_INDEX, 0, metadataCapacity;
      metadata := new Bsm[metadataCapacity](i => Bsm(0, 0, 0));
      store := new u8[INITIAL_STORE](i => 0);
      spans, wrap, blobs := [], 0, [];
    }

    predicate Full()
      reads this
    {
      mdStart == mdEnd
    }

    lemma FullMeans()
      requires RingOk()
      ensures Full() <==> |spans| == mdCapacity
    {
    }

    lemma SameCount()
      requires BytesOk()
      ensures |blobs| == |spans|
    {
    }

    lemma EmptyMeans()
      requires RingOk()
      ensures spans == [] <==> mdStart == INITIAL_METADATA_INDEX
      ensures spans == [] ==> mdEnd == 0
      ensures spans != [] ==> mdStart < metadata.Length && metadata[mdStart] == spans[0]
    {
      assert spans != [] ==> SlotAt(0) == mdStart;
    }

    // ---------- bs_reserve ----------

    /** A new slot after the last one, at this offset. */
    method Place(size: nat, refs: nat, offset: nat, ghost wrapNow: nat) returns (slot: nat)
      requires Valid() && !Full() && spans != [] && refs > 0
      requires Layout(spans + [Bsm(refs, offset, size)], wrapNow, store.Length)
      modifies this, metadata
      ensures Valid() && store == old(store) && mdStart == old(mdStart)
      ensures spans == old(spans) + [Bsm(refs, offset, size)] && slot == SlotAt(|old(spans)|)
      ensures blobs == old(blobs) + [store[offset..offset + size]]
    {
      hide Layout;
      FullMeans();
      slot := mdEnd;
      metadata[mdEnd] := Bsm(refs, offset, size);
      mdEnd := Wrap(mdEnd + 1, mdCapacity);
      InBounds(spans + [Bsm(refs, offset, size)], wrapNow, store.Length, |spans|);
      spans, wrap, blobs := spans + [Bsm(refs, offset, size)], wrapNow, blobs + [store[offset..offset + size]];
    }

    /** Twice the buffer, every blob where it was. */
    method GrowInPlace()
      requires Valid()
      modifies this
      ensures Valid() && fresh(store) && store.Length == 2 * old(store.Length)
      ensures spans == old(spans) && wrap == old(wrap) && blobs == old(blobs)
      ensures mdStart == old(mdStart) && mdEnd == old(mdEnd)
    {
      hide Layout;
      var doubled := new u8[2 * store.Length](i => 0);
      forall i | 0 <= i < store.Length {
        doubled[i] := store[i];
      }
      LayoutGrows(spans, wrap, store.Length, doubled.Length);
      assert doubled[..store.Length] == store[..];
      forall i | 0 <= i < |spans|
        ensures doubled[spans[i].offset..spans[i].End()] == store[spans[i].offset..spans[i].End()]
      {
        SliceBelow(doubled[..], store.Length, spans[i].offset, spans[i].End());
      }
      store := doubled;
    }

    /** One blob into the new buffer; what is below stays. */
    method CopyBlob(doubled: array<u8>, at: nat, from: nat, size: nat)
      requires doubled != store && from + size <= store.Length && at + size <= doubled.Length
      modifies doubled
      ensures doubled[at..at + size] == store[from..from + size]
      ensures doubled[..at] == old(doubled[..at])
    {
      forall i | 0 <= i < size {
        doubled[at + i] := store[from + i];
      }
      assert doubled[at..at + size] == store[from..from + size];
    }

    /** The compaction, t blobs done: they lie packed below at, and the rest is as it was. */
    ghost predicate Packing(doubled: array<u8>, t: nat, i: nat, at: nat, packed: seq<Bsm>)
      reads this, metadata, store, doubled
    {
      && metadata.Length == mdCapacity && mdStart < mdCapacity && |spans| < mdCapacity && mdEnd == SlotAt(|spans|)
      && BytesOk() && doubled != store && doubled.Length == 2 * store.Length && Total(spans) <= store.Length
      && t <= |spans| && i == SlotAt(t) && at == Total(spans[..t]) && |packed| == t
      && Copied(doubled[..], packed, blobs, at)
      && (forall j | 0 <= j < t :: packed[j] == spans[j].(offset := Total(spans[..j])) && metadata[SlotAt(j)] == packed[j])
      && (forall j | t <= j < |spans| :: metadata[SlotAt(j)] == spans[j])
    }

    lemma NextSlot(t: nat)
      requires mdStart < mdCapacity && t < |spans| <= mdCapacity
      ensures SlotAt(t) < mdCapacity && Wrap(SlotAt(t) + 1, mdCapacity) == SlotAt(t + 1)
      ensures forall j | 0 <= j < |spans| && j != t :: SlotAt(j) != SlotAt(t)
    {
    }

    method PackOne(doubled: array<u8>, ghost t: nat, i: nat, at: nat, ghost packed: seq<Bsm>)
      returns (next: nat, top: nat, ghost more: seq<Bsm>)
      requires Packing(doubled, t, i, at, packed) && i != mdEnd
      modifies doubled, metadata
      ensures t < |spans| && Packing(doubled, t + 1, next, top, more)
    {
      hide Copied, Total, Wrap;
      NextSlot(t);
      TotalTakes(spans, t);
      TotalUpTo(spans, t + 1);
      ghost var low := doubled[..];
      var b := metadata[i];
      CopyBlob(doubled, at, b.offset, b.size);
      CopiedNext(low, doubled[..], packed, blobs, at, b.(offset := at));
      metadata[i] := b.(offset := at);
      more := packed + [b.(offset := at)];
      top := at + b.size;
      next := Wrap(i + 1, mdCapacity);
    }

    /** Twice the buffer, the blobs pushed together from the bottom, oldest first. */
    method Compact()
      requires Valid() && spans != [] && !Full()
      modifies this, metadata
      ensures Valid() && fresh(store) && store.Length == 2 * old(store.Length)
      ensures Compacted(spans, old(spans)) && wrap == |spans| && blobs == old(blobs)
      ensures mdStart == old(mdStart) && mdEnd == old(mdEnd)
    {
      hide Layout, Total, Compacted, Packing;
      FullMeans();
      TotalFits(spans, wrap, store.Length);
      var doubled := new u8[2 * store.Length](i => 0);
      ghost var packed := PackAll(doubled);
      CompactedLayout(packed, spans, wrap, store.Length);
      LayoutGrows(packed, |packed|, store.Length, doubled.Length);
      SameRefs(packed, spans);
      store := doubled;
      spans, wrap := packed, |packed|;
    }

    method PackAll(doubled: array<u8>) returns (ghost packed: seq<Bsm>)
      requires RingOk() && BytesOk() && spans != [] && !Full() && Total(spans) <= store.Length
      requires doubled != store && doubled.Length == 2 * store.Length
      modifies doubled, metadata
      ensures Compacted(packed, spans) && Copied(doubled[..], packed, blobs, doubled.Length)
      ensures |packed| == |spans| == |blobs| && forall j | 0 <= j < |spans| :: metadata[SlotAt(j)] == packed[j]
    {
      var i, at := mdStart, 0;
      ghost var t: nat := 0;
      packed := [];
      assert spans[..0] == [];
      while i != mdEnd
        invariant Packing(doubled, t, i, at, packed)
        decreases |spans| - t
        modifies doubled, metadata
      {
        hide Packing;
        i, at, packed := PackOne(doubled, t, i, at, packed);
        t := t + 1;
      }
      PackedAll(doubled, t, i, at, packed);
    }

    lemma PackedAll(doubled: array<u8>, t: nat, i: nat, at: nat, packed: seq<Bsm>)
      requires Packing(doubled, t, i, at, packed) && i == mdEnd
      ensures t == |spans| && Compacted(packed, spans) && Copied(doubled[..], packed, blobs, at)
      ensures forall j | 0 <= j < |spans| :: metadata[SlotAt(j)] == packed[j]
    {
    }

    /** How far the next blob is from fitting after the last one. */
    ghost function Shortfall(size: nat): nat
      requires spans != []
      reads this, store
    {
      var end := spans[|spans| - 1].End() + size;
      if end <= store.Length then 0 else end - store.Length
    }

    lemma LastIndex()
      requires RingOk() && spans != []
      ensures var last := if mdEnd == 0 then mdCapacity - 1 else mdEnd - 1;
              last < mdCapacity && metadata[last] == spans[|spans| - 1] && metadata[mdStart] == spans[0]
    {
      assert SlotAt(0) == mdStart && SlotAt(|spans| - 1) == if mdEnd == 0 then mdCapacity - 1 else mdEnd - 1;
    }

    /** bs_reserve: a slot and a range of its own, with everything else untouched. The retries end. */
    method Reserve(size: nat, refs: nat) returns (slot: nat, full: bool)
      requires Valid() && size > 0 && refs > 0
      modifies this, metadata
      ensures Valid() && full == old(Full()) && (store == old(store) || fresh(store))
      ensures full ==> spans == old(spans) && blobs == old(blobs) && mdStart == old(mdStart)
      ensures !full ==> |spans| == |old(spans)| + 1 && slot == SlotAt(|old(spans)|)
      ensures !full ==> spans[|old(spans)|].refs == refs && spans[|old(spans)|].size == size
      ensures !full ==> |blobs| == |spans| && blobs[..|old(spans)|] == old(blobs)
      ensures !full && old(spans) != [] ==> mdStart == old(mdStart)
      ensures !full ==> forall i | 0 <= i < |old(spans)| :: spans[i].refs == old(spans)[i].refs && spans[i].size == old(spans)[i].size
      decreases if spans != [] && wrap < |spans| then 1 else 0, if spans == [] then 0 else Shortfall(size)
    {
      hide Layout, BytesOk;
      SameCount();
      if Full() {
        return 0, true;
      }
      if mdStart == INITIAL_METADATA_INDEX {
        slot := ReserveFirst(size, refs);
        return slot, false;
      }
      LastIndex();
      WrappedTest(spans, wrap, store.Length);
      var first, last := metadata[mdStart], metadata[if mdEnd == 0 then mdCapacity - 1 else mdEnd - 1];
      var offset := last.End();
      ghost var wrapNow := wrap;
      if first.offset > last.offset {
        if first.offset < last.End() + size {
          Compact();
          SameCount();
          slot, full := Reserve(size, refs);
          return;
        }
        AfterLast(spans, wrap, store.Length, Bsm(refs, offset, size));
      } else if store.Length - last.End() < size {
        if first.offset < size {
          GrowInPlace();
          SameCount();
          slot, full := Reserve(size, refs);
          return;
        }
        offset := 0;
        AtBottom(spans, wrap, store.Length, Bsm(refs, offset, size));
      } else {
        wrapNow := |spans| + 1;
        AfterLast(spans, wrap, store.Length, Bsm(refs, offset, size));
      }
      slot := Place(size, refs, offset, wrapNow);
      full := false;
    }

    /** The first blob goes to the bottom of a buffer doubled until it fits. */
    method ReserveFirst(size: nat, refs: nat) returns (slot: nat)
      requires Valid() && spans == [] && size > 0 && refs > 0
      modifies this, metadata
      ensures Valid() && (store == old(store) || fresh(store))
      ensures slot == SlotAt(0) && spans == [Bsm(refs, 0, size)] && |blobs| == 1
    {
      if store.Length < size {
        var capacity := store.Length;
        while capacity < size
          invariant capacity > 0
        {
          capacity := capacity * 2;
        }
        store := new u8[capacity](i => 0);
      }
      mdStart := 0;
      metadata[mdEnd] := Bsm(refs, 0, size);
      mdEnd := 1;
      spans, wrap, blobs := [Bsm(refs, 0, size)], 1, [store[0..size]];
      slot := 0;
    }

    // ---------- Writing, shrinking, references ----------

    /** What a caller writes through the address it was given. */
    method Fill(slot: nat, data: seq<u8>, ghost i: nat)
      requires Valid() && i < |spans| && slot == SlotAt(i) && |data| <= spans[i].size
      modifies this`blobs, store
      ensures Valid() && blobs == old(blobs)[i := data + old(blobs)[i][|data|..]]
    {
      hide Layout;
      var b := metadata[slot];
      LayoutApart(spans, wrap, store.Length);
      forall k | 0 <= k < |data| {
        store[b.offset + k] := data[k];
      }
      forall j | 0 <= j < |spans| && j != i
        ensures store[spans[j].offset..spans[j].End()] == blobs[j]
      {
        assert Apart(spans[if i < j then i else j], spans[if i < j then j else i]);
      }
      assert store[b.offset..b.End()] == data + blobs[i][|data|..];
      blobs := blobs[i := data + blobs[i][|data|..]];
    }

    /** bs_resize: only the last blob, and only down. */
    method Resize(actualSize: nat) returns (failed: bool)
      requires Valid() && actualSize > 0
      modifies this`spans, this`blobs, metadata
      ensures Valid()
      ensures failed <==> old(spans) != [] && old(spans)[|old(spans)| - 1].size < actualSize
      ensures failed || old(spans) == [] ==> spans == old(spans) && blobs == old(blobs)
      ensures !failed && old(spans) != [] ==>
                blobs == old(blobs)[|old(spans)| - 1 := old(blobs)[|old(spans)| - 1][..actualSize]]
      ensures |spans| == |old(spans)| && forall i | 0 <= i < |spans| :: spans[i].refs == old(spans)[i].refs
    {
      hide Layout, BytesOk;
      EmptyMeans();
      if mdStart == INITIAL_METADATA_INDEX && mdEnd == 0 {
        return false;
      }
      LastIndex();
      var last := if mdEnd == 0 then mdCapacity - 1 else mdEnd - 1;
      if metadata[last].size < actualSize {
        return true;
      }
      LastSlot();
      ShrinkLast(last, actualSize);
      failed := false;
    }

    method ShrinkLast(last: nat, actualSize: nat)
      requires Valid() && spans != [] && last == SlotAt(|spans| - 1) && 0 < actualSize <= spans[|spans| - 1].size
      modifies this`spans, this`blobs, metadata
      ensures Valid() && spans == old(spans)[|old(spans)| - 1 := old(spans)[|old(spans)| - 1].(size := actualSize)]
      ensures blobs == old(blobs)[|old(spans)| - 1 := old(blobs)[|old(spans)| - 1][..actualSize]]
    {
      hide Layout;
      ghost var n := |spans| - 1;
      ghost var b := spans[n];
      SlotsDiffer(n);
      LayoutShrinks(spans, wrap, store.Length, actualSize);
      InBounds(spans, wrap, store.Length, n);
      SliceFront(store[..], b.offset, b.End(), actualSize);
      metadata[last] := metadata[last].(size := actualSize);
      spans, blobs := spans[n := b.(size := actualSize)], blobs[n := blobs[n][..actualSize]];
    }

    lemma LastSlot()
      requires RingOk() && spans != []
      ensures SlotAt(|spans| - 1) == if mdEnd == 0 then mdCapacity - 1 else mdEnd - 1
    {
    }

    /** bs_bump_refs. */
    method BumpRefs(slot: nat, ghost i: nat)
      requires Valid() && i < |spans| && slot == SlotAt(i)
      modifies this`spans, metadata
      ensures Valid() && spans == old(spans)[i := old(spans)[i].(refs := old(spans)[i].refs + 1)]
    {
      hide Layout;
      SlotsDiffer(i);
      LayoutRefs(spans, wrap, store.Length, i, spans[i].refs + 1);
      metadata[slot] := metadata[slot].(refs := metadata[slot].refs + 1);
      spans := spans[i := spans[i].(refs := spans[i].refs + 1)];
    }

    /** bs_get: the blob's bytes, one reference fewer, and every blob that is now dead together with
    all before it gone. */
    method Get(slot: nat, ghost i: nat) returns (data: seq<u8>)
      requires Valid() && i < |spans| && slot == SlotAt(i) && spans[i].refs > 0
      modifies this, metadata
      ensures Valid() && store == old(store) && data == old(blobs)[i]
      ensures spans == Unref(old(spans), i)[Dead(Unref(old(spans), i))..]
      ensures blobs == old(blobs)[Dead(Unref(old(spans), i))..]
      ensures forall j | 0 <= j < |spans| :: SlotAt(j) == Wrap(old(mdStart) + j + Dead(Unref(old(spans), i)), mdCapacity)
    {
      hide Layout, Dead, Wrap;
      SlotsDiffer(i);
      InBounds(spans, wrap, store.Length, i);
      LayoutRefs(spans, wrap, store.Length, i, spans[i].refs - 1);
      data := store[metadata[slot].offset..metadata[slot].offset + metadata[slot].size];
      metadata[slot] := metadata[slot].(refs := metadata[slot].refs - 1);
      spans := Unref(spans, i);
      if slot == mdStart {
        Reclaim();
      } else {
        DeadNone(spans);
      }
    }

    lemma SlotsDiffer(i: nat)
      requires RingOk() && i < |spans|
      ensures SlotAt(i) == mdStart <==> i == 0
      ensures forall j | 0 <= j < |spans| && j != i :: SlotAt(j) != SlotAt(i)
    {
    }

    /** The head moves past dead slots. */
    method Reclaim()
      requires Shaped() && spans != []
      modifies this
      ensures Valid() && store == old(store)
      ensures spans == old(spans)[Dead(old(spans))..] && blobs == old(blobs)[Dead(old(spans))..]
      ensures forall j | 0 <= j < |spans| :: SlotAt(j) == Wrap(old(mdStart) + j + Dead(old(spans)), mdCapacity)
    {
      hide Layout, Dead, BytesOk, RingOk, Wrap;
      ghost var was := spans;
      ghost var d: nat := 0;
      EmptyMeans();
      SameCount();
      while metadata[mdStart].refs == 0
        invariant Shaped() && spans != [] && store == old(store) && mdStart < metadata.Length
        invariant metadata[mdStart] == spans[0]
        invariant |old(blobs)| == |was| && d + Dead(spans) == Dead(was) && d < |was| && spans == was[d..]
        invariant blobs == old(blobs)[d..]
        invariant forall j | 0 <= j < |spans| :: SlotAt(j) == Wrap(old(mdStart) + j + d, mdCapacity)
        decreases |spans|
      {
        ghost var start := mdStart;
        assert forall j | 0 <= j < |spans| :: SlotAt(j) == Wrap(start + j, mdCapacity);
        label head:
        DropHead();
        forall j | 0 <= j < |spans|
          ensures SlotAt(j) == Wrap(old(mdStart) + j + (d + 1), mdCapacity)
        {
          assert old@head(SlotAt(j + 1)) == Wrap(start + (j + 1), mdCapacity);
        }
        d := d + 1;
        EmptyMeans();
        SameCount();
        if mdStart == INITIAL_METADATA_INDEX {
          break;
        }
      }
      DeadEnd(spans);
    }

    /** One dead slot off the head; when it was the last, the ring is as new. */
    method DropHead()
      requires Shaped() && spans != [] && spans[0].refs == 0
      modifies this
      ensures Shaped() && store == old(store) && spans == old(spans)[1..] && blobs == old(blobs)[1..]
      ensures Dead(old(spans)) == 1 + Dead(spans)
      ensures forall j | 0 <= j < |spans| :: SlotAt(j) == Wrap(old(mdStart) + j + 1, mdCapacity)
    {
      hide Layout, TailWrap, Bsm.End, Dead;
      DeadHead(spans);
      LayoutTail(spans, wrap, store.Length);
      mdStart := Wrap(mdStart + 1, mdCapacity);
      if mdStart == mdEnd {
        mdStart, mdEnd := INITIAL_METADATA_INDEX, 0;
      }
      wrap := TailWrap(spans, wrap);
      spans, blobs := spans[1..], blobs[1..];
    }
  }

  /** The first blobs, copied below at. */
  ghost predicate Copied(d: seq<u8>, packed: seq<Bsm>, blobs: seq<seq<u8>>, at: nat) {
    && at <= |d| && |packed| <= |blobs|
    && forall j | 0 <= j < |packed| :: packed[j].End() <= at && d[packed[j].offset..packed[j].End()] == blobs[j]
  }

  lemma CopiedNext(d: seq<u8>, e: seq<u8>, packed: seq<Bsm>, blobs: seq<seq<u8>>, at: nat, b: Bsm)
    requires Copied(d, packed, blobs, at) && |e| == |d| && e[..at] == d[..at]
    requires b.offset == at && b.End() <= |e| && |packed| < |blobs| && e[at..b.End()] == blobs[|packed|]
    ensures Copied(e, packed + [b], blobs, b.End())
  {
    forall j | 0 <= j < |packed|
      ensures e[packed[j].offset..packed[j].End()] == d[packed[j].offset..packed[j].End()]
    {
      SliceBelow(d, at, packed[j].offset, packed[j].End());
      SliceBelow(e, at, packed[j].offset, packed[j].End());
    }
  }

  lemma SliceFront(d: seq<u8>, lo: nat, hi: nat, size: nat)
    requires lo <= hi <= |d| && size <= hi - lo
    ensures d[lo..hi][..size] == d[lo..lo + size]
  {
  }

  lemma SliceBelow(d: seq<u8>, at: nat, lo: nat, hi: nat)
    requires lo <= hi <= at <= |d|
    ensures d[lo..hi] == d[..at][lo..hi]
  {
  }

  lemma DeadHead(spans: seq<Bsm>)
    requires spans != [] && spans[0].refs == 0
    ensures Dead(spans) == 1 + Dead(spans[1..])
  {
  }

  lemma DeadEnd(spans: seq<Bsm>)
    requires spans == [] || spans[0].refs > 0
    ensures Dead(spans) == 0
  {
  }

  lemma DeadNone(spans: seq<Bsm>)
    requires spans != [] && spans[0].refs > 0
    ensures Dead(spans) == 0
  {
  }

  lemma SameRefs(packed: seq<Bsm>, spans: seq<Bsm>)
    requires Compacted(packed, spans)
    ensures |packed| == |spans| && forall i | 0 <= i < |spans| :: packed[i].refs == spans[i].refs && packed[i].size == spans[i].size
  {
  }

  lemma {:induction false} TotalUpTo(spans: seq<Bsm>, n: nat)
    requires n <= |spans|
    ensures Total(spans[..n]) <= Total(spans)
    decreases |spans| - n
  {
    if n == |spans| {
      assert spans[..n] == spans;
    } else {
      TotalTakes(spans, n);
      TotalUpTo(spans, n + 1);
    }
  }

  /** Next to the last blob, when it ends before the first one or, unwrapped, before the buffer does. */
  lemma AfterLast(spans: seq<Bsm>, wrap: nat, capacity: nat, x: Bsm)
    requires Layout(spans, wrap, capacity) && spans != [] && x.size > 0 && x.offset == spans[|spans| - 1].End()
    requires x.End() <= if wrap < |spans| then spans[0].offset else capacity
    ensures Layout(spans + [x], if wrap < |spans| then wrap else |spans| + 1, capacity)
  {
  }

  /** Back at the bottom, below the first. */
  lemma AtBottom(spans: seq<Bsm>, wrap: nat, capacity: nat, x: Bsm)
    requires Layout(spans, wrap, capacity) && spans != [] && wrap == |spans| && x.size > 0
    requires x.offset == 0 && x.size <= spans[0].offset
    ensures Layout(spans + [x], wrap, capacity)
  {
  }

  lemma InBounds(spans: seq<Bsm>, wrap: nat, capacity: nat, i: nat)
    requires Layout(spans, wrap, capacity) && i < |spans|
    ensures spans[i].End() <= capacity
  {
    LayoutApart(spans, wrap, capacity);
  }
}
