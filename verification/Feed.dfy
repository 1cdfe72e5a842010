/** The pinning protocol on the blob store (schedule_response, server_stream and the snapshot swap of
src/server.c, the delivery branch of src/main.c): every delivery reads the bytes that were current
when it was pinned, nothing leaks, and each client has at most one stream delivery in the air. */
module Feed {
  import opened Machine
  import B = BlobStore

  // ---------- What the store operations do, slot by slot ----------

  /** References moved by this much, one slot excepted from nothing: all slots listed. */
  ghost predicate Counts(was: B.Ring, now: B.Ring, slot: nat, d: int) {
    forall s: nat :: now.Refs(s) == was.Refs(s) + (if s == slot then d else 0)
  }

  /** Every blob still referenced holds what it held. */
  ghost predicate Keeps(was: B.Ring, now: B.Ring) {
    forall s: nat | was.Refs(s) > 0 && now.Refs(s) > 0 :: now.Bytes(s) == was.Bytes(s)
  }

  lemma AfterGet(was: B.Ring, now: B.Ring, i: nat)
    requires was.Ok() && now.Ok() && i < |was.spans| && was.spans[i].refs > 0 && now.capacity == was.capacity
    requires var less := B.Unref(was.spans, i); var d := B.Dead(less);
             && now.spans == less[d..] && now.blobs == was.blobs[d..]
             && forall j | 0 <= j < |now.spans| :: now.SlotOf(j) == was.SlotOf(j + d)
    ensures Counts(was, now, was.SlotOf(i), -1) && Keeps(was, now)
  {
    var less, slot := B.Unref(was.spans, i), was.SlotOf(i);
    var d := B.Dead(less);
    var mid := B.Ring(was.start, was.capacity, less, was.blobs);
    B.RingDrops(mid, now, d);
    B.IndexOfSlot(was, i);
    forall s: nat
      ensures now.Refs(s) == was.Refs(s) + (if s == slot then -1 else 0)
      ensures was.Refs(s) > 0 && now.Refs(s) > 0 ==> now.Bytes(s) == was.Bytes(s)
    {
      if was.Live(s) {
        B.SlotOfIndex(was, s);
        var k := was.Index(s);
        assert mid.Live(s) && mid.Index(s) == k && mid.Refs(s) == less[k].refs;
        assert less[k].refs == was.spans[k].refs - (if k == i then 1 else 0);
        assert s == slot <==> k == i;
        assert !now.Live(s) ==> k < d && less[k].refs == 0;
      } else {
        assert !mid.Live(s) && !now.Live(s) && s != slot;
      }
    }
  }

  lemma AfterReserve(was: B.Ring, now: B.Ring, slot: nat, refs: nat)
    requires was.Ok() && now.Ok() && now.capacity == was.capacity && |was.spans| < was.capacity
    requires |now.spans| == |was.spans| + 1 && slot == now.SlotOf(|was.spans|) && now.spans[|was.spans|].refs == refs
    requires was.spans != [] ==> now.start == was.start
    requires now.blobs[..|was.spans|] == was.blobs
    requires forall i | 0 <= i < |was.spans| :: now.spans[i].refs == was.spans[i].refs
    ensures Counts(was, now, slot, refs) && Keeps(was, now) && was.Refs(slot) == 0 && now.Live(slot)
    ensures now.Index(slot) == |was.spans|
  {
    B.IndexOfSlot(now, |was.spans|);
    forall s: nat
      ensures now.Refs(s) == was.Refs(s) + (if s == slot then refs else 0)
      ensures was.Refs(s) > 0 ==> now.Bytes(s) == was.Bytes(s)
    {
      if now.Live(s) {
        B.SlotOfIndex(now, s);
        if now.Index(s) < |was.spans| {
          assert now.blobs[..|was.spans|][now.Index(s)] == now.blobs[now.Index(s)];
        }
      }
    }
  }

  lemma AfterBump(was: B.Ring, now: B.Ring, i: nat)
    requires was.Ok() && now.Ok() && i < |was.spans|
    requires now == was.(spans := was.spans[i := was.spans[i].(refs := was.spans[i].refs + 1)])
    ensures Counts(was, now, was.SlotOf(i), 1) && Keeps(was, now)
  {
    B.IndexOfSlot(was, i);
    forall s: nat
      ensures now.Refs(s) == was.Refs(s) + (if s == was.SlotOf(i) then 1 else 0)
    {
      if was.Live(s) {
        B.SlotOfIndex(was, s);
      }
    }
  }

  /** Writing one blob leaves the rest. */
  lemma AfterWrite(was: B.Ring, now: B.Ring, i: nat, data: seq<u8>)
    requires was.Ok() && now.Ok() && i < |was.spans| && now.start == was.start && now.capacity == was.capacity
    requires |now.spans| == |was.spans| && forall j | 0 <= j < |was.spans| :: now.spans[j].refs == was.spans[j].refs
    requires now.blobs == was.blobs[i := data]
    ensures Counts(was, now, was.SlotOf(i), 0) && now.Bytes(was.SlotOf(i)) == data
    ensures forall s: nat | s != was.SlotOf(i) :: now.Bytes(s) == was.Bytes(s)
  {
    B.IndexOfSlot(was, i);
    forall s: nat
      ensures now.Refs(s) == was.Refs(s)
      ensures s != was.SlotOf(i) ==> now.Bytes(s) == was.Bytes(s)
    {
      if was.Live(s) {
        B.SlotOfIndex(was, s);
      }
    }
  }

  // ---------- The protocol's own state ----------

  /** A response in the air, with the snapshot it pinned. */
  datatype Delivery = Delivery(client: nat, slot: nat, stream: bool)

  /** The conflation slot of a client. */
  datatype Pending = Nothing | Newest(slot: nat)

  /** How many deliveries pin a slot. */
  function InAir(flights: seq<Delivery>, slot: nat): nat {
    if flights == [] then 0 else (if flights[0].slot == slot then 1 else 0) + InAir(flights[1..], slot)
  }

  /** How many stream deliveries a client has in the air. */
  function Streams(flights: seq<Delivery>, client: nat): nat {
    if flights == [] then 0
    else (if flights[0].stream && flights[0].client == client then 1 else 0) + Streams(flights[1..], client)
  }

  function Held(pending: seq<Pending>, slot: nat): nat {
    if pending == [] then 0 else (if pending[0] == Newest(slot) then 1 else 0) + Held(pending[1..], slot)
  }

  lemma {:induction false} FlightsConcat(a: seq<Delivery>, b: seq<Delivery>, slot: nat, client: nat)
    ensures InAir(a + b, slot) == InAir(a, slot) + InAir(b, slot)
    ensures Streams(a + b, client) == Streams(a, client) + Streams(b, client)
  {
    if a == [] {
      assert a + b == b;
    } else {
      assert (a + b)[1..] == a[1..] + b;
      FlightsConcat(a[1..], b, slot, client);
    }
  }

  lemma FlightAdds(flights: seq<Delivery>, d: Delivery, slot: nat, client: nat)
    ensures InAir(flights + [d], slot) == InAir(flights, slot) + (if d.slot == slot then 1 else 0)
    ensures Streams(flights + [d], client) == Streams(flights, client) + (if d.stream && d.client == client then 1 else 0)
  {
    FlightsConcat(flights, [d], slot, client);
    assert [d][1..] == [];
  }

  lemma FlightLands(flights: seq<Delivery>, k: nat, slot: nat, client: nat)
    requires k < |flights|
    ensures InAir(flights[..k] + flights[k + 1..], slot) == InAir(flights, slot) - (if flights[k].slot == slot then 1 else 0)
    ensures Streams(flights[..k] + flights[k + 1..], client)
            == Streams(flights, client) - (if flights[k].stream && flights[k].client == client then 1 else 0)
  {
    assert flights == flights[..k] + [flights[k]] + flights[k + 1..];
    FlightsConcat(flights[..k] + [flights[k]], flights[k + 1..], slot, client);
    FlightAdds(flights[..k], flights[k], slot, client);
    FlightsConcat(flights[..k], flights[k + 1..], slot, client);
  }

  lemma {:induction false} FlightPins(flights: seq<Delivery>, k: nat)
    requires k < |flights|
    ensures InAir(flights, flights[k].slot) > 0
    ensures flights[k].stream ==> Streams(flights, flights[k].client) > 0
  {
    if k > 0 {
      FlightPins(flights[1..], k - 1);
    }
  }

  lemma {:induction false} HeldSet(pending: seq<Pending>, c: nat, p: Pending, slot: nat)
    requires c < |pending|
    ensures Held(pending[c := p], slot)
            == Held(pending, slot) - (if pending[c] == Newest(slot) then 1 else 0) + (if p == Newest(slot) then 1 else 0)
  {
    if c == 0 {
      assert pending[0 := p][1..] == pending[1..];
    } else {
      HeldSet(pending[1..], c - 1, p, slot);
      assert pending[c := p][1..] == pending[1..][c - 1 := p];
    }
  }

  lemma {:induction false} HeldPins(pending: seq<Pending>, c: nat)
    requires c < |pending| && pending[c].Newest?
    ensures Held(pending, pending[c].slot) > 0
  {
    if c > 0 {
      HeldPins(pending[1..], c - 1);
    }
  }

  // ---------- References are exactly the pins ----------

  /** Who pins: the current view, the superseded one until it is handed back, the deliveries in the
  air and the conflation slots. */
  datatype Pinned = Pinned(current: nat, retiring: Pending, flights: seq<Delivery>, pending: seq<Pending>)

  function Pins(p: Pinned, slot: nat): nat {
    (if p.current == slot then 1 else 0) + (if p.retiring == Newest(slot) then 1 else 0) + InAir(p.flights, slot) + Held(p.pending, slot)
  }

  ghost predicate Accounted(r: B.Ring, p: Pinned) {
    forall s: nat :: r.Refs(s) == Pins(p, s)
  }

  /** What each pin saw. */
  datatype Seen = Seen(current: seq<u8>, sent: seq<seq<u8>>, held: seq<seq<u8>>)

  ghost predicate Faithful(r: B.Ring, p: Pinned, seen: Seen) {
    && r.Bytes(p.current) == seen.current
    && |seen.sent| == |p.flights| && |seen.held| == |p.pending|
    && (forall k | 0 <= k < |p.flights| :: r.Bytes(p.flights[k].slot) == seen.sent[k])
    && (forall c | 0 <= c < |p.pending| && p.pending[c].Newest? :: r.Bytes(p.pending[c].slot) == seen.held[c])
  }

  /** One stream delivery in the air per client at most; a conflation slot fills only behind one. */
  ghost predicate OneInAir(p: Pinned, streaming: seq<bool>) {
    && |streaming| == |p.pending|
    && (forall d | d in p.flights :: d.client < |streaming|)
    && (forall c | 0 <= c < |streaming| :: Streams(p.flights, c) == if streaming[c] then 1 else 0)
    && (forall c | 0 <= c < |streaming| && p.pending[c].Newest? :: streaming[c])
  }

  /** Everything still pinned reads as before. */
  lemma FaithfulStays(was: B.Ring, now: B.Ring, p: Pinned, q: Pinned, seen: Seen)
    requires Faithful(was, p, seen) && Accounted(was, p) && Accounted(now, q) && Keeps(was, now)
    requires q.current == p.current && q.flights == p.flights && q.pending == p.pending
    ensures Faithful(now, q, seen)
  {
    assert was.Refs(p.current) > 0 && now.Refs(p.current) > 0;
    forall k | 0 <= k < |p.flights|
      ensures was.Refs(p.flights[k].slot) > 0 && now.Refs(p.flights[k].slot) > 0
    {
      FlightPins(p.flights, k);
    }
    forall c | 0 <= c < |p.pending| && p.pending[c].Newest?
      ensures was.Refs(p.pending[c].slot) > 0 && now.Refs(p.pending[c].slot) > 0
    {
      HeldPins(p.pending, c);
    }
  }

  /** A pin on the current view for a new delivery. */
  lemma PinFlight(was: B.Ring, now: B.Ring, p: Pinned, seen: Seen, d: Delivery)
    requires Faithful(was, p, seen) && Accounted(was, p) && Counts(was, now, p.current, 1) && Keeps(was, now)
    requires d.slot == p.current
    ensures var q := p.(flights := p.flights + [d]);
            Accounted(now, q) && Faithful(now, q, seen.(sent := seen.sent + [seen.current]))
  {
    var q := p.(flights := p.flights + [d]);
    forall s: nat
      ensures now.Refs(s) == Pins(q, s)
    {
      FlightAdds(p.flights, d, s, 0);
    }
    forall k | 0 <= k < |p.flights|
      ensures now.Bytes(p.flights[k].slot) == was.Bytes(p.flights[k].slot)
    {
      FlightPins(p.flights, k);
    }
    forall c | 0 <= c < |p.pending| && p.pending[c].Newest?
      ensures now.Bytes(p.pending[c].slot) == was.Bytes(p.pending[c].slot)
    {
      HeldPins(p.pending, c);
    }
  }

  /** A delivery lands and hands its reference back. */
  lemma UnpinFlight(was: B.Ring, now: B.Ring, p: Pinned, seen: Seen, k: nat)
    requires Faithful(was, p, seen) && Accounted(was, p) && k < |p.flights|
    requires Counts(was, now, p.flights[k].slot, -1) && Keeps(was, now)
    ensures var q := p.(flights := p.flights[..k] + p.flights[k + 1..]);
            Accounted(now, q) && Faithful(now, q, seen.(sent := seen.sent[..k] + seen.sent[k + 1..]))
  {
    var q := p.(flights := p.flights[..k] + p.flights[k + 1..]);
    forall s: nat
      ensures now.Refs(s) == Pins(q, s)
    {
      FlightLands(p.flights, k, s, 0);
    }
    forall j | 0 <= j < |q.flights|
      ensures now.Bytes(q.flights[j].slot) == was.Bytes(q.flights[j].slot)
    {
      FlightPins(q.flights, j);
      FlightPins(p.flights, if j < k then j else j + 1);
    }
    forall c | 0 <= c < |p.pending| && p.pending[c].Newest?
      ensures now.Bytes(p.pending[c].slot) == was.Bytes(p.pending[c].slot)
    {
      HeldPins(p.pending, c);
    }
  }

  /** The conflation slot is emptied: its reference goes back. */
  lemma UnpinHeld(was: B.Ring, now: B.Ring, p: Pinned, seen: Seen, c: nat)
    requires Faithful(was, p, seen) && Accounted(was, p) && c < |p.pending| && p.pending[c].Newest?
    requires Counts(was, now, p.pending[c].slot, -1) && Keeps(was, now)
    ensures var q := p.(pending := p.pending[c := Nothing]); Accounted(now, q) && Faithful(now, q, seen)
  {
    var q := p.(pending := p.pending[c := Nothing]);
    forall s: nat
      ensures now.Refs(s) == Pins(q, s)
    {
      HeldSet(p.pending, c, Nothing, s);
    }
    forall k | 0 <= k < |p.flights|
      ensures now.Bytes(p.flights[k].slot) == was.Bytes(p.flights[k].slot)
    {
      FlightPins(p.flights, k);
    }
    forall b | 0 <= b < |q.pending| && q.pending[b].Newest?
      ensures now.Bytes(q.pending[b].slot) == was.Bytes(q.pending[b].slot)
    {
      HeldPins(q.pending, b);
      HeldPins(p.pending, b);
    }
  }

  /** The conflation slot takes the current view. */
  lemma PinHeld(was: B.Ring, now: B.Ring, p: Pinned, seen: Seen, c: nat)
    requires Faithful(was, p, seen) && Accounted(was, p) && c < |p.pending| && p.pending[c] == Nothing
    requires Counts(was, now, p.current, 1) && Keeps(was, now)
    ensures var q := p.(pending := p.pending[c := Newest(p.current)]);
            Accounted(now, q) && Faithful(now, q, seen.(held := seen.held[c := seen.current]))
  {
    var q := p.(pending := p.pending[c := Newest(p.current)]);
    forall s: nat
      ensures now.Refs(s) == Pins(q, s)
    {
      HeldSet(p.pending, c, Newest(p.current), s);
    }
    forall k | 0 <= k < |p.flights|
      ensures now.Bytes(p.flights[k].slot) == was.Bytes(p.flights[k].slot)
    {
      FlightPins(p.flights, k);
    }
    forall b | 0 <= b < |p.pending| && p.pending[b].Newest?
      ensures now.Bytes(p.pending[b].slot) == was.Bytes(p.pending[b].slot)
    {
      HeldPins(p.pending, b);
    }
  }

  /** Chaining moves the conflation slot's pin to a delivery: no reference changes hands. */
  lemma ChainPin(r: B.Ring, p: Pinned, seen: Seen, c: nat, d: Delivery)
    requires Faithful(r, p, seen) && Accounted(r, p) && c < |p.pending| && p.pending[c] == Newest(d.slot)
    ensures var q := p.(flights := p.flights + [d], pending := p.pending[c := Nothing]);
            Accounted(r, q) && Faithful(r, q, seen.(sent := seen.sent + [seen.held[c]]))
  {
    var q := p.(flights := p.flights + [d], pending := p.pending[c := Nothing]);
    forall s: nat
      ensures r.Refs(s) == Pins(q, s)
    {
      FlightAdds(p.flights, d, s, 0);
      HeldSet(p.pending, c, Nothing, s);
    }
  }

  function Idle(clients: nat): seq<bool> {
    seq(clients, i => false)
  }

  function Empties(clients: nat): seq<Pending> {
    seq(clients, i => Nothing)
  }

  function Blanks(clients: nat): seq<seq<u8>> {
    seq(clients, i => [])
  }

  // ---------- The feed ----------

  class BookFeed {
    const store: B.Store
    var current: nat
    var retiring: Pending
    var flights: seq<Delivery>
    var streaming: seq<bool>  // stream_in_flight of each client
    var pending: seq<Pending>

    ghost var seen: Seen      // the bytes at each pin's time

    ghost function Now(): Pinned
      reads this
    {
      Pinned(current, retiring, flights, pending)
    }

    ghost predicate Valid()
      reads this, store, store.metadata, store.store
    {
      store.Valid() && Accounted(store.Value(), Now()) && Faithful(store.Value(), Now(), seen) && OneInAir(Now(), streaming)
    }

    /** An empty view, nobody in the air. */
    constructor (clients: nat, metadataCapacity: nat, first: seq<u8>)
      requires 2 <= metadataCapacity <= B.INITIAL_METADATA_INDEX && first != []
      ensures Valid() && fresh(store) && fresh(store.metadata) && fresh(store.store)
      ensures flights == [] && retiring == Nothing && seen.current == first && |streaming| == clients
    {
      hide B.Store.Valid;
      var s := new B.Store(metadataCapacity);
      EmptyNotFull(s);
      var slot, full := s.Reserve(|first|, 1);
      ValueOk(s);
      ghost var was := s.Value();
      s.Fill(slot, first, 0);
      ValueOk(s);
      AfterWrite(was, s.Value(), 0, s.blobs[0]);
      store, current, retiring, flights := s, slot, Nothing, [];
      streaming, pending := Idle(clients), Empties(clients);
      seen := Seen(first, [], Blanks(clients));
      new;
      FirstView(store.Value(), slot, clients, first);
    }

    /** bs_bump_refs on a blob that is still wanted. */
    method Pin(slot: nat)
      requires store.Valid() && store.Value().Refs(slot) > 0
      modifies store`spans, store.metadata
      ensures store.Valid() && Counts(old(store.Value()), store.Value(), slot, 1) && Keeps(old(store.Value()), store.Value())
    {
      hide B.Store.Valid;
      ghost var was := store.Value();
      ValueOk(store);
      B.SlotOfIndex(was, slot);
      ghost var i := was.Index(slot);
      store.BumpRefs(slot, i);
      ValueOk(store);
      AfterBump(was, store.Value(), i);
    }

    /** bs_get on a blob that is still wanted: its bytes, and one reference fewer. */
    method Unpin(slot: nat) returns (data: seq<u8>)
      requires store.Valid() && store.Value().Refs(slot) > 0
      modifies store, store.metadata
      ensures store.Valid() && store.store == old(store.store) && data == old(store.Value().Bytes(slot))
      ensures Counts(old(store.Value()), store.Value(), slot, -1) && Keeps(old(store.Value()), store.Value())
    {
      hide B.Store.Valid;
      ghost var was := store.Value();
      ValueOk(store);
      B.SlotOfIndex(was, slot);
      ghost var i := was.Index(slot);
      data := store.Get(slot, i);
      ValueOk(store);
      AfterGet(was, store.Value(), i);
    }

    lemma CurrentPinned()
      requires Valid()
      ensures store.Value().Refs(current) > 0
    {
    }

    /** schedule_response: the ack carries the current view, pinned for the trip. */
    method Respond(client: nat)
      requires Valid() && client < |streaming|
      modifies this, store`spans, store.metadata
      ensures Valid() && flights == old(flights) + [Delivery(client, current, false)]
      ensures seen == old(seen).(sent := old(seen).sent + [old(seen).current])
      ensures current == old(current) && pending == old(pending) && streaming == old(streaming) && retiring == old(retiring)
    {
      hide B.Store.Valid;
      ghost var was := Now();
      CurrentPinned();
      var d := Delivery(client, current, false);
      PinFlight2(client, false);
      Pin(current);
      PinFlight(old(store.Value()), store.Value(), was, seen, d);
      flights := flights + [d];
      seen := seen.(sent := seen.sent + [seen.current]);
    }

    /** server_stream for one subscriber: a delivery if none is in the air, else the conflation slot. */
    method Stream(client: nat)
      requires Valid() && client < |streaming|
      modifies this, store, store.metadata
      ensures Valid() && store.store == old(store.store) && current == old(current) && retiring == old(retiring)
      ensures old(streaming[client]) ==> flights == old(flights) && pending == old(pending)[client := Newest(current)]
      ensures !old(streaming[client]) ==> flights == old(flights) + [Delivery(client, current, true)] && pending == old(pending)
      ensures streaming == old(streaming)[client := true]
      ensures seen == if old(streaming[client]) then old(seen).(held := old(seen).held[client := old(seen).current])
                      else old(seen).(sent := old(seen).sent + [old(seen).current])
    {
      hide B.Store.Valid;
      CurrentPinned();
      if !streaming[client] {
        ghost var was := Now();
        var d := Delivery(client, current, true);
        PinFlight2(client, true);
        Pin(current);
        PinFlight(old(store.Value()), store.Value(), was, seen, d);
        flights, streaming := flights + [d], streaming[client := true];
        seen := seen.(sent := seen.sent + [seen.current]);
      } else {
        if pending[client].Newest? {
          DropHeld(client);
        }
        HoldNewest(client);
      }
    }

    /** The pin of a superseded conflation slot goes back. */
    method DropHeld(client: nat)
      requires Valid() && client < |pending| && pending[client].Newest?
      modifies this`pending, store, store.metadata
      ensures Valid() && store.store == old(store.store) && pending == old(pending)[client := Nothing]
    {
      hide B.Store.Valid;
      ghost var was := Now();
      HeldPins(pending, client);
      assert store.Value().Refs(pending[client].slot) == Pins(Now(), pending[client].slot);
      var data := Unpin(pending[client].slot);
      UnpinHeld(old(store.Value()), store.Value(), was, seen, client);
      pending := pending[client := Nothing];
    }

    method HoldNewest(client: nat)
      requires Valid() && client < |pending| && pending[client] == Nothing && streaming[client]
      modifies this`pending, this`seen, store`spans, store.metadata
      ensures Valid() && pending == old(pending)[client := Newest(current)]
      ensures seen == old(seen).(held := old(seen).held[client := old(seen).current])
    {
      hide B.Store.Valid;
      ghost var was := Now();
      CurrentPinned();
      Pin(current);
      PinHeld(old(store.Value()), store.Value(), was, seen, client);
      pending := pending[client := Newest(current)];
      seen := seen.(held := seen.held[client := seen.current]);
    }

    /** A delivery lands: it reads what its pin saw. A stream delivery hands the air to the newest
    snapshot that piled up behind it, or frees it. */
    method Deliver(k: nat) returns (data: seq<u8>)
      requires Valid() && k < |flights|
      modifies this, store, store.metadata
      ensures Valid() && store.store == old(store.store) && current == old(current) && retiring == old(retiring)
      ensures data == old(seen).sent[k]
      ensures var d, landed := old(flights)[k], old(flights)[..k] + old(flights)[k + 1..];
              && (d.stream && old(pending)[d.client].Newest? ==>
                    flights == landed + [Delivery(d.client, old(pending)[d.client].slot, true)] && pending == old(pending)[d.client := Nothing])
              && (!(d.stream && old(pending)[d.client].Newest?) ==> flights == landed && pending == old(pending))
      ensures var d, left := old(flights)[k], old(seen).sent[..k] + old(seen).sent[k + 1..];
              seen == old(seen).(sent := if d.stream && old(pending)[d.client].Newest? then left + [old(seen).held[d.client]] else left)
      ensures var d := old(flights)[k];
              streaming == if d.stream && !old(pending)[d.client].Newest? then old(streaming)[d.client := false] else old(streaming)
    {
      hide B.Store.Valid, Accounted, Faithful, OneInAir, Counts, Keeps;
      ghost var was, told, air := Now(), seen, streaming;
      var d := flights[k];
      FlightReads(store.Value(), was, seen, streaming, k);
      data := Unpin(d.slot);
      UnpinFlight(old(store.Value()), store.Value(), was, told, k);
      flights := flights[..k] + flights[k + 1..];
      seen := seen.(sent := seen.sent[..k] + seen.sent[k + 1..]);
      if d.stream {
        if pending[d.client].Newest? {
          var chain := Delivery(d.client, pending[d.client].slot, true);
          ChainPin(store.Value(), Now(), seen, d.client, chain);
          LandAndChain(was, air, k);
          flights, pending := flights + [chain], pending[d.client := Nothing];
          seen := seen.(sent := seen.sent + [seen.held[d.client]]);
        } else {
          LandInAir(was, air, k);
          streaming := streaming[d.client := false];
        }
      } else {
        LandInAir(was, air, k);
      }
    }

    // ---------- The snapshot swap ----------

    /** A new view is reserved, written and made current; the old one waits to be handed back. */
    method BeginBook(maxSize: nat, data: seq<u8>) returns (full: bool)
      requires Valid() && retiring == Nothing && 0 < |data| <= maxSize
      modifies this, store, store.metadata, store.store
      ensures Valid() && (store.store == old(store.store) || fresh(store.store))
      ensures flights == old(flights) && pending == old(pending) && streaming == old(streaming)
      ensures full ==> current == old(current) && retiring == Nothing && seen == old(seen)
      ensures !full ==> retiring == Newest(old(current)) && seen == old(seen).(current := data)
    {
      hide B.Store.Valid;
      ghost var was := Now();
      var slot;
      slot, full := WriteBlob(maxSize, data);
      if !full {
        SwapView(old(store.Value()), store.Value(), was, seen, slot, data);
        retiring, current := Newest(current), slot;
        seen := seen.(current := data);
      } else {
        FaithfulStays(old(store.Value()), store.Value(), was, was, seen);
      }
    }

    /** A fresh blob with these bytes and one reference. */
    method WriteBlob(maxSize: nat, data: seq<u8>) returns (slot: nat, full: bool)
      requires store.Valid() && 0 < |data| <= maxSize
      modifies store, store.metadata, store.store
      ensures store.Valid() && (store.store == old(store.store) || fresh(store.store))
      ensures full ==> Counts(old(store.Value()), store.Value(), 0, 0) && Keeps(old(store.Value()), store.Value())
      ensures !full ==> Counts(old(store.Value()), store.Value(), slot, 1) && Keeps(old(store.Value()), store.Value())
      ensures !full ==> store.Value().Bytes(slot) == data && old(store.Value().Refs(slot)) == 0
    {
      hide B.Store.Valid;
      ghost var was, n := store.Value(), |store.spans|;
      ValueOk(store);
      NotFullRoom(store);
      slot, full := store.Reserve(maxSize, 1);
      ValueOk(store);
      if full {
        SameRing(was, store.Value());
        return;
      }
      ghost var reserved := store.Value();
      AfterReserve(was, reserved, slot, 1);
      store.Fill(slot, data, n);
      ghost var filled := store.Value();
      ValueOk(store);
      AfterWrite(reserved, filled, n, data + reserved.blobs[n][|data|..]);
      var failed := store.Resize(|data|);
      ValueOk(store);
      AfterWrite(filled, store.Value(), n, data);
      WrittenKeeps(was, reserved, filled, store.Value(), slot);
    }

    /** bs_get on the superseded view: one reference fewer, everything in the air untouched. */
    method EndBook()
      requires Valid() && retiring.Newest?
      modifies this`retiring, store, store.metadata
      ensures Valid() && store.store == old(store.store) && retiring == Nothing
    {
      hide B.Store.Valid;
      ghost var was := Now();
      assert store.Value().Refs(retiring.slot) == Pins(Now(), retiring.slot);
      var data := Unpin(retiring.slot);
      retiring := Nothing;
      RetireView(old(store.Value()), store.Value(), was);
      FaithfulStays(old(store.Value()), store.Value(), was, Now(), seen);
    }

    lemma PinFlight2(client: nat, stream: bool)
      requires OneInAir(Now(), streaming) && client < |streaming| && (stream ==> !streaming[client])
      ensures OneInAir(Now().(flights := flights + [Delivery(client, current, stream)]), if stream then streaming[client := true] else streaming)
    {
      forall c | 0 <= c < |streaming|
        ensures Streams(flights + [Delivery(client, current, stream)], c) == Streams(flights, c) + (if stream && c == client then 1 else 0)
      {
        FlightAdds(flights, Delivery(client, current, stream), 0, c);
      }
    }
  }

  lemma EmptyNotFull(s: B.Store)
    requires s.Valid() && s.spans == []
    ensures !s.Full()
  {
  }

  lemma NotFullRoom(s: B.Store)
    requires s.Valid()
    ensures !s.Full() ==> |s.spans| < s.mdCapacity
  {
    s.FullMeans();
  }

  lemma FirstView(r: B.Ring, slot: nat, clients: nat, first: seq<u8>)
    requires r.Ok() && |r.spans| == 1 && r.spans[0].refs == 1 && slot == r.SlotOf(0) && r.Bytes(slot) == first
    ensures var p := Pinned(slot, Nothing, [], Empties(clients));
            Accounted(r, p) && Faithful(r, p, Seen(first, [], Blanks(clients))) && OneInAir(p, Idle(clients))
  {
    B.IndexOfSlot(r, 0);
    forall s: nat
      ensures r.Refs(s) == if s == slot then 1 else 0
    {
      if r.Live(s) {
        B.SlotOfIndex(r, s);
      }
    }
    forall s: nat
      ensures Held(Empties(clients), s) == 0
    {
      NothingHeld(clients, s);
    }
  }

  lemma {:induction false} NothingHeld(clients: nat, slot: nat)
    ensures Held(Empties(clients), slot) == 0
  {
    if clients > 0 {
      assert Empties(clients)[1..] == Empties(clients - 1);
      NothingHeld(clients - 1, slot);
    }
  }

  lemma SameRing(was: B.Ring, now: B.Ring)
    requires now == was
    ensures Counts(was, now, 0, 0) && Keeps(was, now)
  {
  }

  /** Reserving, filling and shrinking one new blob. */
  lemma WrittenKeeps(a: B.Ring, b: B.Ring, c: B.Ring, d: B.Ring, slot: nat)
    requires Counts(a, b, slot, 1) && Keeps(a, b) && a.Refs(slot) == 0
    requires Counts(b, c, slot, 0) && (forall s: nat | s != slot :: c.Bytes(s) == b.Bytes(s))
    requires Counts(c, d, slot, 0) && (forall s: nat | s != slot :: d.Bytes(s) == c.Bytes(s))
    ensures Counts(a, d, slot, 1) && Keeps(a, d)
  {
    forall s: nat
      ensures d.Refs(s) == a.Refs(s) + (if s == slot then 1 else 0)
    {
      assert c.Refs(s) == b.Refs(s) && d.Refs(s) == c.Refs(s);
    }
  }

  /** The new view takes over; the old one stays pinned as retiring. */
  lemma SwapView(was: B.Ring, now: B.Ring, p: Pinned, seen: Seen, slot: nat, data: seq<u8>)
    requires Faithful(was, p, seen) && Accounted(was, p) && p.retiring == Nothing
    requires Counts(was, now, slot, 1) && Keeps(was, now) && was.Refs(slot) == 0 && now.Bytes(slot) == data
    ensures var q := p.(current := slot, retiring := Newest(p.current));
            Accounted(now, q) && Faithful(now, q, seen.(current := data))
  {
    assert Pins(p, slot) == 0;
    forall k | 0 <= k < |p.flights|
      ensures now.Bytes(p.flights[k].slot) == was.Bytes(p.flights[k].slot)
    {
      FlightPins(p.flights, k);
      assert was.Refs(p.flights[k].slot) > 0;
    }
    forall c | 0 <= c < |p.pending| && p.pending[c].Newest?
      ensures now.Bytes(p.pending[c].slot) == was.Bytes(p.pending[c].slot)
    {
      HeldPins(p.pending, c);
      assert was.Refs(p.pending[c].slot) > 0;
    }
  }

  lemma RetireView(was: B.Ring, now: B.Ring, p: Pinned)
    requires Accounted(was, p) && p.retiring.Newest? && Counts(was, now, p.retiring.slot, -1)
    ensures Accounted(now, p.(retiring := Nothing))
  {
  }

  /** One delivery off the air; a client whose stream landed has none. */
  lemma LandInAir(p: Pinned, streaming: seq<bool>, k: nat)
    requires OneInAir(p, streaming) && k < |p.flights|
    ensures var d, rest := p.flights[k], p.flights[..k] + p.flights[k + 1..];
            && d.client < |streaming|
            && (!d.stream ==> OneInAir(p.(flights := rest), streaming))
            && (d.stream ==> streaming[d.client] && (forall c | 0 <= c < |streaming| :: Streams(rest, c) == if streaming[c] && c != d.client then 1 else 0))
            && (d.stream && p.pending[d.client] == Nothing ==> OneInAir(p.(flights := rest), streaming[d.client := false]))
            && (forall x | x in rest :: x.client < |streaming|)
  {
    var d, rest := p.flights[k], p.flights[..k] + p.flights[k + 1..];
    assert d in p.flights;
    FlightPins(p.flights, k);
    forall c | 0 <= c < |streaming|
      ensures Streams(rest, c) == Streams(p.flights, c) - (if d.stream && d.client == c then 1 else 0)
    {
      FlightLands(p.flights, k, 0, c);
    }
  }

  /** What a delivery in the air can rely on. */
  lemma FlightReads(r: B.Ring, p: Pinned, seen: Seen, streaming: seq<bool>, k: nat)
    requires Accounted(r, p) && Faithful(r, p, seen) && OneInAir(p, streaming) && k < |p.flights|
    ensures r.Refs(p.flights[k].slot) > 0 && |seen.sent| == |p.flights| && r.Bytes(p.flights[k].slot) == seen.sent[k]
    ensures p.flights[k].client < |streaming| == |p.pending| == |seen.held|
  {
    FlightPins(p.flights, k);
    assert r.Refs(p.flights[k].slot) == Pins(p, p.flights[k].slot);
    assert p.flights[k] in p.flights;
  }

  lemma LandAndChain(p: Pinned, streaming: seq<bool>, k: nat)
    requires OneInAir(p, streaming) && k < |p.flights| && p.flights[k].stream
    requires p.flights[k].client < |p.pending| && p.pending[p.flights[k].client].Newest?
    ensures var d, rest := p.flights[k], p.flights[..k] + p.flights[k + 1..];
            OneInAir(p.(flights := rest + [Delivery(d.client, p.pending[d.client].slot, true)], pending := p.pending[d.client := Nothing]), streaming)
  {
    var d, rest := p.flights[k], p.flights[..k] + p.flights[k + 1..];
    LandInAir(p, streaming, k);
    ChainInAir(p.(flights := rest), streaming, d.client, Delivery(d.client, p.pending[d.client].slot, true));
  }

  lemma ChainInAir(p: Pinned, streaming: seq<bool>, client: nat, chain: Delivery)
    requires |streaming| == |p.pending| && client < |streaming| && streaming[client] && chain.stream
    requires chain.client == client
    requires forall x | x in p.flights :: x.client < |streaming|
    requires forall c | 0 <= c < |streaming| :: Streams(p.flights, c) == if streaming[c] && c != client then 1 else 0
    requires forall c | 0 <= c < |streaming| && p.pending[c].Newest? :: streaming[c]
    ensures OneInAir(p.(flights := p.flights + [chain], pending := p.pending[client := Nothing]), streaming)
  {
    forall c | 0 <= c < |streaming|
      ensures Streams(p.flights + [chain], c) == Streams(p.flights, c) + (if c == client then 1 else 0)
    {
      FlightAdds(p.flights, chain, 0, c);
    }
  }

  lemma ValueOk(s: B.Store)
    requires s.Valid()
    ensures s.Value().Ok()
    ensures forall i | 0 <= i < |s.spans| :: s.SlotAt(i) == s.Value().SlotOf(i)
    ensures |s.blobs| == |s.spans| && forall i | 0 <= i < |s.spans| :: |s.blobs[i]| == s.spans[i].size
  {
  }
}
