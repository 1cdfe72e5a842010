/** The life of an order's slot over any run of adds, cancels and cancel-replaces (src/main.c and
src/server.c on the free list of src/fl.c): minted for one message, then on the wire, in the book or
named by one terminal response, and released by exactly one of the two parties. */
module OrderSlots {
  import opened Machine
  import opened Book
  import opened BookFacts
  import opened BookRuns
  import opened Canrep
  import opened Weights
  import opened Settle
  import opened FillCounts
  import FreeList

  // include/constants.h: the four lowest reserved packets
  const MIN_RESERVED_PACKET: u32 := 0x3FFF_FFFC

  // ---------- What a response says ----------

  /** The status bits that decide whether the slot comes back. */
  datatype Status = Status(reject: bool, control: bool, fill: bool, partial: bool, cancel: bool, canRep: bool)

  /** One response on its way to a client. */
  datatype Response = Response(orderId: u32, status: Status)

  /** main's test for handing the slot back. */
  predicate Terminal(st: Status) {
    st.reject || st.control || (st.fill && !st.partial) || (st.cancel && !st.canRep)
  }

  const REJECTED := Status(true, false, false, false, false, false)

  function MakerStatus(f: Fill): Status {
    Status(false, false, true, f.partial, false, false)
  }

  /** server_order's ack: an IOC or FOK that found nothing is a reject. */
  function TakerStatus(o: Order, filled: nat): Status {
    var left := if o.Gtc() then o.quantity - filled else 0;
    Status(!o.Gtc() && filled == 0, false, filled > 0, filled > 0 && left > 0, o.cancel && !o.canRep, o.canRep)
  }

  /** The ack returns the slot exactly when nothing rests under it. */
  lemma TakerTerminal(s: Sides, table: Table, id: u32)
    requires SoundSides(s) && Settleable(s, table, id)
    ensures var m := Message(s, table, id);
            Terminal(TakerStatus(table[id], FillTotal(m.fills))) <==> LeftResting(table[id], m.fills) == 0
  {
    MessageConserves(s, table, id, Only(id));
  }

  /** How many responses will hand a slot back. */
  function Releases(responses: seq<Response>, x: u32): nat {
    if responses == [] then 0
    else Releases(responses[..|responses| - 1], x)
         + if responses[|responses| - 1].orderId == x && Terminal(responses[|responses| - 1].status) then 1 else 0
  }

  lemma ReleasesMore(responses: seq<Response>, r: Response, x: u32)
    ensures Releases(responses + [r], x) == Releases(responses, x) + if r.orderId == x && Terminal(r.status) then 1 else 0
  {
    assert (responses + [r])[..|responses|] == responses;
  }

  lemma {:induction false} ReleasesWithout(responses: seq<Response>, k: nat, x: u32)
    requires k < |responses|
    ensures Releases(responses[..k] + responses[k + 1..], x)
            == Releases(responses, x) - if responses[k].orderId == x && Terminal(responses[k].status) then 1 else 0
  {
    var n := |responses| - 1;
    if k == n {
      assert responses[..k] + responses[k + 1..] == responses[..n];
    } else {
      ReleasesWithout(responses[..n], k, x);
      assert responses[..n][..k] + responses[..n][k + 1..] == responses[..k] + responses[k + 1..n];
      assert responses[..k] + responses[k + 1..] == responses[..k] + responses[k + 1..n] + [responses[n]];
      ReleasesMore(responses[..k] + responses[k + 1..n], responses[n], x);
    }
  }

  /** The responses to the makers of one message. */
  function MakerResponses(fills: seq<Fill>): seq<Response> {
    if fills == [] then [] else MakerResponses(fills[..|fills| - 1]) + [Response(fills[|fills| - 1].id, MakerStatus(fills[|fills| - 1]))]
  }

  // ---------- The slots ----------

  /** A live id is in exactly one place, a free one in none. */
  ghost predicate Accounted(wire: multiset<u32>, book: Sides, responses: seq<Response>, live: set<u32>) {
    forall x: u32 :: wire[x] + Count(book.bids + book.asks, x) + Releases(responses, x) == if x in live then 1 else 0
  }

  function Returned(r: Response): set<u32> {
    if Terminal(r.status) then {r.orderId} else {}
  }

  /** A slot that a pending response gives back is live, and neither on the wire nor in the book, and
  no other response gives it back. */
  lemma ReturnedOnce(wire: multiset<u32>, book: Sides, responses: seq<Response>, live: set<u32>, k: nat)
    requires Accounted(wire, book, responses, live) && k < |responses| && Terminal(responses[k].status)
    ensures var x := responses[k].orderId;
            x in live && wire[x] == 0 && Count(book.bids + book.asks, x) == 0 && Releases(responses, x) == 1
  {
    ReleasesWithout(responses, k, responses[k].orderId);
  }

  lemma DeliveredAccounted(wire: multiset<u32>, book: Sides, responses: seq<Response>, live: set<u32>, k: nat)
    requires Accounted(wire, book, responses, live) && k < |responses|
    ensures Accounted(wire, book, responses[..k] + responses[k + 1..], live - Returned(responses[k]))
    ensures Returned(responses[k]) <= live
  {
    hide Releases;
    if Terminal(responses[k].status) {
      ReturnedOnce(wire, book, responses, live, k);
    }
    forall x: u32
      ensures wire[x] + Count(book.bids + book.asks, x) + Releases(responses[..k] + responses[k + 1..], x)
              == if x in live - Returned(responses[k]) then 1 else 0
    {
      ReleasesWithout(responses, k, x);
    }
  }

  lemma MintedAccounted(wire: multiset<u32>, book: Sides, responses: seq<Response>, live: set<u32>, id: u32)
    requires Accounted(wire, book, responses, live) && id !in live
    ensures Accounted(wire + multiset{id}, book, responses, live + {id})
  {
    hide Releases, Count;
  }

  /** One message executed: the target's slot goes back at once, each maker's and the taker's when
  their terminal response arrives, and what rests keeps its slot. */
  lemma ExecutedAccounted(wire: multiset<u32>, book: Sides, responses: seq<Response>, live: set<u32>, table: Table, id: u32)
    requires Accounted(wire, book, responses, live) && id in wire && SoundSides(book) && Settleable(book, table, id)
    ensures var o := table[id]; var m := Message(book, table, id);
            var acked := responses + MakerResponses(m.fills) + [Response(id, TakerStatus(o, FillTotal(m.fills)))];
            o.Pulled() <= live && Accounted(wire - multiset{id}, m.sides, acked, live - o.Pulled())
  {
    hide Releases, Message, Terminal, TakerStatus, LeftResting;
    var o, m := table[id], Message(book, table, id);
    var told := responses + MakerResponses(m.fills);
    var ack := Response(id, TakerStatus(o, FillTotal(m.fills)));
    TakerTerminal(book, table, id);
    MessageConserves(book, table, id, Only(id));
    forall x: u32
      ensures (wire - multiset{id})[x] + Count(m.sides.bids + m.sides.asks, x) + Releases(told + [ack], x)
              == if x in live - o.Pulled() then 1 else 0
    {
      MessageCounts(book, table, id, x);
      MakersReleased(responses, m.fills, x);
      ReleasesMore(told, ack, x);
    }
  }

  lemma {:induction false} MakersReleased(responses: seq<Response>, fills: seq<Fill>, x: u32)
    ensures Releases(responses + MakerResponses(fills), x) == Releases(responses, x) + FullFills(fills, x)
  {
    if fills == [] {
      assert responses + [] == responses;
    } else {
      var rest, f := fills[..|fills| - 1], fills[|fills| - 1];
      MakersReleased(responses, rest, x);
      var r := Response(f.id, MakerStatus(f));
      assert responses + MakerResponses(fills) == responses + MakerResponses(rest) + [r];
      ReleasesMore(responses + MakerResponses(rest), r, x);
      assert fills == rest + [f];
      FullFillsConcat(rest, [f], x);
    }
  }

  lemma InAndOut(live: set<u32>, gone: set<u32>, minted: set<u32>)
    requires gone <= live && minted !! live
    ensures live + minted - gone == live - gone + minted && gone <= live + minted
  {
  }

  class Desk {
    const orders: FreeList.FreeList<Order>
    var wire: multiset<u32>         // minted and not yet executed: in an event or in a queue
    var responses: seq<Response>    // on their way to the clients
    ghost var book: Sides

    ghost predicate Valid()
      reads this, orders, orders.stack, orders.data
    {
      && orders.Valid() && orders.idLimit == MIN_RESERVED_PACKET
      && SoundSides(book) && Accounted(wire, book, responses, orders.live)
    }

    constructor ()
      ensures Valid() && wire == multiset{} && responses == [] && book == Sides([], []) && orders.live == {}
      ensures fresh(orders) && fresh(orders.stack) && fresh(orders.data)
    {
      orders := new FreeList.FreeList<Order>(MIN_RESERVED_PACKET);
      wire, responses, book := multiset{}, [], Sides([], []);
    }

    /** The delivery of a response: an id is promised, the client may send an order, the order gets
    that id, and only then a terminal response's slot goes back. stopped is the end of the program.
    Until the stack pointer has once stood one below the limit the id is below every reserved packet. */
    method Deliver(k: nat, wants: FreeList.Option<Order>) returns (stopped: bool, promised: u32)
      requires Valid() && k < |responses|
      modifies this, orders, orders.stack, orders.data
      ensures !stopped ==> Valid() && book == old(book) && responses == old(responses)[..k] + old(responses)[k + 1..]
      ensures !stopped ==> promised !in old(orders.live)
      ensures !stopped ==> wire == old(wire) + if wants.Some? then multiset{promised} else multiset{}
      ensures !stopped ==> orders.live == old(orders.live) - Returned(old(responses)[k]) + if wants.Some? then {promised} else {}
      ensures !stopped && wants.Some? ==> promised <= MIN_RESERVED_PACKET
      ensures !stopped && wants.Some? && old(orders.high) < MIN_RESERVED_PACKET ==>
                (promised == MIN_RESERVED_PACKET <==> old(orders.sp) + 1 == MIN_RESERVED_PACKET)
      ensures !stopped && old(orders.high) < MIN_RESERVED_PACKET && old(orders.sp) + 1 < MIN_RESERVED_PACKET ==> orders.high < MIN_RESERVED_PACKET
      ensures orders.stack == old(orders.stack) || fresh(orders.stack)
      ensures orders.data == old(orders.data) || fresh(orders.data)
    {
      hide Accounted, SoundSides, FreeList.FreeList.Valid, FreeList.KeepsSlots, Returned;
      var r := responses[k];
      ghost var live := orders.live;
      DeliveredAccounted(wire, book, responses, live, k);
      responses := responses[..k] + responses[k + 1..];
      stopped, promised := Promise(wants);
      if stopped {
        return;
      }
      ghost var minted: set<u32> := if wants.Some? then {promised} else {};
      if wants.Some? {
        MintedAccounted(old(wire), book, responses, live - Returned(r), promised);
        wire := wire + multiset{promised};
      } else {
        assert live - Returned(r) + minted == live - Returned(r);
      }
      assert Accounted(wire, book, responses, live - Returned(r) + minted);
      InAndOut(live, Returned(r), minted);
      assert orders.live == live + minted;
      GiveBack(r);
      assert orders.live == live - Returned(r) + minted;
    }

    /** A terminal response's slot goes back. */
    method GiveBack(r: Response)
      requires orders.Valid() && Returned(r) <= orders.live
      modifies orders, orders.stack
      ensures orders.Valid() && orders.stack == old(orders.stack) && orders.data == old(orders.data)
      ensures orders.high == old(orders.high)
      ensures orders.live == old(orders.live) - Returned(r)
    {
      hide FreeList.FreeList.Valid;
      if Terminal(r.status) {
        orders.Release(r.orderId);
      } else {
        assert orders.live == orders.live - {};
      }
    }

    /** fl_next_id, then fl_insert if the client produced an order. */
    method Promise(wants: FreeList.Option<Order>) returns (stopped: bool, promised: u32)
      requires orders.Valid() && orders.idLimit == MIN_RESERVED_PACKET
      modifies orders, orders.stack, orders.data
      ensures orders.Valid() && (orders.stack == old(orders.stack) || fresh(orders.stack))
      ensures orders.data == old(orders.data) || fresh(orders.data)
      ensures !stopped ==> promised !in old(orders.live)
      ensures !stopped ==> orders.live == old(orders.live) + if wants.Some? then {promised} else {}
      ensures !stopped && wants.Some? ==> promised <= MIN_RESERVED_PACKET
      ensures !stopped && wants.Some? && old(orders.high) < MIN_RESERVED_PACKET ==>
                (promised == MIN_RESERVED_PACKET <==> old(orders.sp) + 1 == MIN_RESERVED_PACKET)
      ensures !stopped && old(orders.high) < MIN_RESERVED_PACKET && old(orders.sp) + 1 < MIN_RESERVED_PACKET ==> orders.high < MIN_RESERVED_PACKET
    {
      hide FreeList.FreeList.Valid, FreeList.KeepsSlots, FreeList.IsCapacity;
      orders.Bounds();
      LimitIsNoCapacity();
      promised := 0;
      var next := orders.NextId();
      stopped := next.None?;
      if next.Some? {
        promised := next.value;
        if wants.Some? {
          var id := orders.Insert(wants.value);
          promised := id.value;
          assert promised == next.value;
        }
      }
    }

    /** A rejected message: nothing but its ack. */
    method Reject(id: u32)
      requires Valid() && id in wire
      modifies `wire, `responses
      ensures Valid() && wire == old(wire) - multiset{id} && responses == old(responses) + [Response(id, REJECTED)]
    {
      hide SoundSides, FreeList.FreeList.Valid, Releases, Count;
      forall x: u32
        ensures Releases(responses + [Response(id, REJECTED)], x) == Releases(responses, x) + if x == id then 1 else 0
      {
        ReleasesMore(responses, Response(id, REJECTED), x);
      }
      wire := wire - multiset{id};
      responses := responses + [Response(id, REJECTED)];
    }

    /** An accepted message: its fills, its target's slot, its ack. */
    method Execute(id: u32, table: Table, fills: seq<Fill>)
      requires Valid() && id in wire && Settleable(book, table, id) && fills == Message(book, table, id).fills
      modifies this, orders, orders.stack
      ensures Valid() && wire == old(wire) - multiset{id} && orders.stack == old(orders.stack)
      ensures book == Message(old(book), table, id).sides
      ensures responses == old(responses) + MakerResponses(fills) + [Response(id, TakerStatus(table[id], FillTotal(fills)))]
      ensures orders.live == old(orders.live) - table[id].Pulled()
    {
      hide Accounted, SoundSides, FreeList.FreeList.Valid, Message;
      var o := table[id];
      ExecutedAccounted(wire, book, responses, orders.live, table, id);
      MessageSound(book, table, id);
      ghost var start, after, live := responses, Message(book, table, id).sides, orders.live;
      wire := wire - multiset{id};
      for i := 0 to |fills|
        invariant responses == start + MakerResponses(fills[..i])
        modifies `responses
      {
        assert fills[..i + 1][..i] == fills[..i];
        responses := responses + [Response(fills[i].id, MakerStatus(fills[i]))];
      }
      assert fills[..|fills|] == fills;
      if o.Pulls() {
        orders.Release(o.otherId);
      }
      assert orders.live == live - o.Pulled();
      responses := responses + [Response(id, TakerStatus(o, FillTotal(fills)))];
      book := after;
    }
  }

  lemma LimitIsNoCapacity()
    ensures !FreeList.IsCapacity(MIN_RESERVED_PACKET) && !FreeList.IsCapacity(MIN_RESERVED_PACKET - 1)
  {
    assert !Doubled(0x0FFF_FFFF, FreeList.FL_INITIAL_CAPACITY);
    assert !Doubled(0x1FFF_FFFE, FreeList.FL_INITIAL_CAPACITY);
  }
}
