/** The queues an order passes through between the wire and server_order (src/server.c): hardware
queue, software queue, the converted orders waiting behind sentinels, and the events that move them.

Turn is one event of the main loop, in whatever order the scheduler delivers them. */
module ExecQueues {
  import opened Machine

  // include/server.h
  const SENTINEL: u32 := MAX_U32

  /** The queue events of the main loop. */
  datatype Event = HwToSw | ExecStart | ExecEnd | ExecToSw

  // ---------- Batches behind sentinels ----------

  /** The orders among queued words. */
  function Orders(h: seq<u32>): seq<u32> {
    if h == [] then [] else (if h[0] == SENTINEL then [] else [h[0]]) + Orders(h[1..])
  }

  function Sentinels(h: seq<u32>): nat {
    if h == [] then 0 else (if h[0] == SENTINEL then 1 else 0) + Sentinels(h[1..])
  }

  /** What comes before the first sentinel. */
  function Batch(h: seq<u32>): seq<u32> {
    if h == [] || h[0] == SENTINEL then [] else [h[0]] + Batch(h[1..])
  }

  /** What comes after the first sentinel. */
  function Behind(h: seq<u32>): seq<u32> {
    if h == [] then [] else if h[0] == SENTINEL then h[1..] else Behind(h[1..])
  }

  predicate Capped(h: seq<u32>) {
    h == [] || h[|h| - 1] == SENTINEL
  }

  predicate Plain(h: seq<u32>) {
    SENTINEL !in h
  }

  /** One word in front of a queue. */
  lemma InFront(x: u32, t: seq<u32>)
    ensures Orders([x] + t) == (if x == SENTINEL then [] else [x]) + Orders(t)
    ensures Sentinels([x] + t) == (if x == SENTINEL then 1 else 0) + Sentinels(t)
    ensures Batch([x] + t) == if x == SENTINEL then [] else [x] + Batch(t)
    ensures Behind([x] + t) == if x == SENTINEL then t else Behind(t)
  {
    assert ([x] + t)[1..] == t;
  }

  lemma {:induction false} Joined(a: seq<u32>, b: seq<u32>)
    ensures Orders(a + b) == Orders(a) + Orders(b)
    ensures Sentinels(a + b) == Sentinels(a) + Sentinels(b)
  {
    hide Orders, Sentinels;
    if a == [] {
      NoneQueued();
      assert a + b == b;
    } else {
      var x, t := a[0], a[1..];
      Joined(t, b);
      JoinedFront(x, t, b);
      assert a == [x] + t;
    }
  }

  lemma JoinedFront(x: u32, t: seq<u32>, b: seq<u32>)
    requires Orders(t + b) == Orders(t) + Orders(b) && Sentinels(t + b) == Sentinels(t) + Sentinels(b)
    ensures Orders([x] + t + b) == Orders([x] + t) + Orders(b)
    ensures Sentinels([x] + t + b) == Sentinels([x] + t) + Sentinels(b)
  {
    hide Orders, Sentinels;
    InFront(x, t);
    InFront(x, t + b);
    Assoc([x], t, b);
    Assoc(if x == SENTINEL then [] else [x], Orders(t), Orders(b));
  }

  lemma {:induction false} PlainOrders(a: seq<u32>)
    requires Plain(a)
    ensures Orders(a) == a && Sentinels(a) == 0
  {
    if a != [] {
      assert a == [a[0]] + a[1..];
      PlainOrders(a[1..]);
    }
  }

  /** One drain takes exactly one batch and its sentinel. */
  lemma {:induction false} FirstBatch(h: seq<u32>)
    requires Capped(h) && h != []
    ensures Orders(h) == Batch(h) + Orders(Behind(h)) && Sentinels(h) == 1 + Sentinels(Behind(h))
    ensures Capped(Behind(h)) && Plain(Batch(h))
  {
    hide Orders, Sentinels, Batch, Behind;
    var x, t := h[0], h[1..];
    assert h == [x] + t;
    InFront(x, t);
    if x != SENTINEL {
      assert t[|t| - 1] == SENTINEL;
      FirstBatch(t);
    }
  }

  /** A new batch and its cap behind what is there. */
  lemma Cap(h: seq<u32>, batch: seq<u32>)
    requires Plain(batch)
    ensures Orders(h + batch + [SENTINEL]) == Orders(h) + batch
    ensures Sentinels(h + batch + [SENTINEL]) == Sentinels(h) + 1 && Capped(h + batch + [SENTINEL])
  {
    Joined(h + batch, [SENTINEL]);
    Joined(h, batch);
    PlainOrders(batch);
  }

  // ---------- Who came from where ----------

  /** The entries whose mark is the given one, in order. */
  function Marked(s: seq<u32>, marks: seq<bool>, mark: bool): seq<u32>
    requires |s| == |marks|
  {
    if s == [] then []
    else Marked(s[..|s| - 1], marks[..|s| - 1], mark) + (if marks[|s| - 1] == mark then [s[|s| - 1]] else [])
  }

  /** s is a merge of the two streams: each keeps its own order. */
  ghost predicate Merges(s: seq<u32>, fromWire: seq<u32>, converted: seq<u32>, marks: seq<bool>) {
    |s| == |marks| && Marked(s, marks, true) == fromWire && Marked(s, marks, false) == converted
  }

  function Repeat(mark: bool, n: nat): (r: seq<bool>)
    ensures |r| == n
  {
    seq(n, i => mark)
  }

  lemma MarkedOne(s: seq<u32>, marks: seq<bool>, x: u32, m: bool, mark: bool)
    requires |s| == |marks|
    ensures Marked(s + [x], marks + [m], mark) == Marked(s, marks, mark) + (if m == mark then [x] else [])
  {
    assert (s + [x])[..|s|] == s && (marks + [m])[..|s|] == marks;
  }

  lemma {:induction false} MergesMore(s: seq<u32>, a: seq<u32>, b: seq<u32>, marks: seq<bool>, t: seq<u32>, mark: bool)
    requires Merges(s, a, b, marks)
    ensures Merges(s + t, if mark then a + t else a, if mark then b else b + t, marks + Repeat(mark, |t|))
  {
    hide Marked;
    if t == [] {
      assert s + t == s && marks + Repeat(mark, 0) == marks && a + t == a && b + t == b;
    } else {
      var u, x := t[..|t| - 1], t[|t| - 1];
      var more := marks + Repeat(mark, |u|);
      MergesMore(s, a, b, marks, u, mark);
      MarkedOne(s + u, more, x, mark, true);
      MarkedOne(s + u, more, x, mark, false);
      assert s + t == s + u + [x] && a + t == a + u + [x] && b + t == b + u + [x];
      assert marks + Repeat(mark, |t|) == more + [mark];
    }
  }

  /** What has happened to the orders so far. */
  datatype Log = Log(
    arrived: seq<u32>,    // everything off the wire
    converted: seq<u32>,  // everything the server put behind a sentinel
    moved: seq<u32>,      // off the hardware queue
    drained: seq<u32>,    // out of the holder
    executed: seq<u32>,   // given to server_order
    marks: seq<bool>)     // of everything that entered the software queue: from the wire?

  /** Nothing is lost, doubled or overtaken: hw and sw are queued, waiting is behind sentinels. */
  ghost predicate Tells(log: Log, hw: seq<u32>, sw: seq<u32>, waiting: seq<u32>) {
    && log.arrived == log.moved + hw
    && log.converted == log.drained + waiting
    && Merges(log.executed + sw, log.moved, log.drained, log.marks)
  }

  function Arrived(log: Log, id: u32): Log {
    log.(arrived := log.arrived + [id])
  }

  function Converted(log: Log, batch: seq<u32>): Log {
    log.(converted := log.converted + batch)
  }

  function Moved(log: Log, id: u32): Log {
    log.(moved := log.moved + [id], marks := log.marks + Repeat(true, 1))
  }

  function Drained(log: Log, batch: seq<u32>): Log {
    log.(drained := log.drained + batch, marks := log.marks + Repeat(false, |batch|))
  }

  function Executed(log: Log, id: u32): Log {
    log.(executed := log.executed + [id])
  }

  lemma TellsMoved(log: Log, x: u32, hw: seq<u32>, sw: seq<u32>, waiting: seq<u32>)
    requires Tells(log, [x] + hw, sw, waiting)
    ensures Tells(Moved(log, x), hw, sw + [x], waiting)
  {
    hide Merges;
    MergesMore(log.executed + sw, log.moved, log.drained, log.marks, [x], true);
    Assoc(log.executed, sw, [x]);
    Assoc(log.moved, [x], hw);
  }

  lemma TellsDrained(log: Log, hw: seq<u32>, sw: seq<u32>, batch: seq<u32>, waiting: seq<u32>)
    requires Tells(log, hw, sw, batch + waiting)
    ensures Tells(Drained(log, batch), hw, sw + batch, waiting)
  {
    hide Merges;
    MergesMore(log.executed + sw, log.moved, log.drained, log.marks, batch, false);
    Assoc(log.executed, sw, batch);
    Assoc(log.drained, batch, waiting);
  }

  lemma TellsExecuted(log: Log, hw: seq<u32>, x: u32, sw: seq<u32>, waiting: seq<u32>, minted: seq<u32>)
    requires Tells(log, hw, [x] + sw, waiting)
    ensures Tells(Converted(Executed(log, x), minted), hw, sw, waiting + minted)
  {
    hide Merges;
    Assoc(log.executed, [x], sw);
    Assoc(log.drained, waiting, minted);
  }

  // ---------- The queues ----------

  class Engine {
    var hw: seq<u32>
    var sw: seq<u32>
    var holder: seq<u32>            // convert_holder: minted and converted orders, batch by batch
    var executing: bool
    var pending: multiset<Event>    // scheduled and not yet popped

    ghost var log: Log
    ghost var turns: nat

    ghost predicate EventsAgree()
      reads this
    {
      && pending[HwToSw] == |hw|
      && pending[ExecStart] + pending[ExecEnd] == (if sw == [] then 0 else 1)
      && (executing <==> pending[ExecEnd] == 1)
      && pending[ExecToSw] == Sentinels(holder)
      && Capped(holder)
    }

    /** How many more turns the queued orders can take. */
    ghost function Work(): nat
      reads this
    {
      4 * |hw| + 2 * |sw| + pending[ExecStart] + 3 * |Orders(holder)| + Sentinels(holder)
    }

    ghost predicate Valid()
      reads this
    {
      EventsAgree() && Tells(log, hw, sw, Orders(holder)) && turns + Work() <= 4 * (|log.arrived| + |log.converted|)
    }

    constructor ()
      ensures Valid() && pending == multiset{} && log == Log([], [], [], [], [], []) && turns == 0
    {
      hw, sw, holder, executing, pending := [], [], [], false, multiset{};
      log, turns := Log([], [], [], [], [], []), 0;
    }

    // ---------- The handlers, guards included ----------

    /** server_arrival. */
    method Arrive(id: u32)
      requires Valid()
      modifies this
      ensures Valid() && log == Arrived(old(log), id) && turns == old(turns)
    {
      hw := hw + [id];
      pending := pending + multiset{HwToSw};
      log := Arrived(log, id);
    }

    /** server_hw_to_sw. */
    method MoveToSoftware()
      modifies `hw, `sw, `pending
      ensures old(hw) == [] ==> hw == [] && sw == old(sw) && pending == old(pending)
      ensures old(hw) != [] ==>
                && hw == old(hw)[1..] && sw == old(sw) + [old(hw)[0]]
                && pending == old(pending) + if old(sw) == [] then multiset{ExecStart} else multiset{}
    {
      if hw == [] {
        return;
      }
      var moving := hw[0];
      hw := hw[1..];
      // a waiting order has its start, or its end, scheduled already
      if sw == [] {
        pending := pending + multiset{ExecStart};
      }
      sw := sw + [moving];
    }

    /** server_exec_start. */
    method StartExecuting()
      modifies `executing, `pending
      ensures old(executing) || sw == [] ==> executing == old(executing) && pending == old(pending)
      ensures !old(executing) && sw != [] ==> executing && pending == old(pending) + multiset{ExecEnd}
    {
      if executing || sw == [] {
        return;
      }
      executing := true;
      pending := pending + multiset{ExecEnd};
    }

    /** server_exec_end around server_order, which may queue converted orders: minted. */
    method FinishExecuting(minted: seq<u32>)
      modifies `sw, `holder, `executing, `pending
      ensures old(sw) == [] ==> sw == [] && holder == old(holder) && !executing && pending == old(pending)
      ensures old(sw) != [] ==>
                && sw == old(sw)[1..] && executing == (sw != [] && old(executing))
                && var capped := old(holder) + minted != [];
                   && holder == (if capped then old(holder) + minted + [SENTINEL] else [])
                   && pending == old(pending) + (if capped then multiset{ExecToSw} else multiset{}) + (if sw != [] then multiset{ExecEnd} else multiset{})
    {
      if sw == [] {
        executing := false;
        return;
      }
      sw := sw[1..];
      holder := holder + minted;
      if holder != [] {
        holder := holder + [SENTINEL];
        pending := pending + multiset{ExecToSw};
      }
      if sw == [] {
        executing := false;
      } else {
        pending := pending + multiset{ExecEnd};
      }
    }

    /** server_exec_to_sw: one batch leaves the holder for the software queue. */
    method Drain()
      requires Capped(holder)
      modifies `sw, `holder, `pending
      ensures holder == Behind(old(holder)) && sw == old(sw) + Batch(old(holder))
      ensures pending == old(pending) + if old(sw) == [] && sw != [] then multiset{ExecStart} else multiset{}
    {
      hide Batch, Behind;
      NoneQueued();
      if holder == [] {
        assert sw + [] == sw;
        return;
      }
      var id := holder[0];
      holder := holder[1..];
      assert old(holder) == [id] + holder;
      InFront(id, holder);
      if holder == [] || id == SENTINEL {
        assert old(holder)[|holder|] == id;
        assert sw + [] == sw;
        return;
      }
      if sw == [] {
        pending := pending + multiset{ExecStart};
      }
      Flush(id);
    }

    /** The loop of server_exec_to_sw, with one order already in hand. */
    method Flush(first: u32)
      requires Capped([first] + holder) && first != SENTINEL
      modifies `sw, `holder
      ensures holder == Behind(old([first] + holder)) && sw == old(sw) + Batch(old([first] + holder)) && sw != []
    {
      hide Batch, Behind;
      var id := first;
      ghost var whole := [id] + holder;
      while holder != [] && id != SENTINEL
        invariant Capped([id] + holder) && (sw == [] ==> id != SENTINEL)
        invariant sw + Batch([id] + holder) == old(sw) + Batch(whole)
        invariant Behind([id] + holder) == Behind(whole)
        decreases |holder|
      {
        ghost var rest := holder;
        InFront(id, rest);
        assert rest == [rest[0]] + rest[1..];
        Assoc(sw, [id], Batch(rest));
        assert ([id] + rest)[|rest|] == rest[|rest| - 1];
        sw := sw + [id];
        id := holder[0];
        holder := holder[1..];
      }
      assert ([id] + holder)[|holder|] == SENTINEL;
      InFront(id, holder);
      assert sw + [] == sw;
    }

    // ---------- One turn ----------

    /** Any pending event, and any converted orders server_order leaves behind. */
    method Turn(event: Event, minted: seq<u32>)
      requires Valid() && event in pending && Plain(minted)
      modifies this
      ensures Valid() && turns == old(turns) + 1 && log.arrived == old(log.arrived)
      ensures event == ExecEnd ==> old(sw) != [] && log == Converted(Executed(old(log), old(sw)[0]), minted)
      ensures event != ExecEnd ==> log.executed == old(log.executed) && log.converted == old(log.converted)
    {
      match event
      case HwToSw => HwTurn();
      case ExecStart => StartTurn();
      case ExecEnd => EndTurn(minted);
      case ExecToSw => DrainTurn();
    }

    method HwTurn()
      requires Valid() && HwToSw in pending
      modifies this
      ensures Valid() && turns == old(turns) + 1 && old(hw) != [] && log == Moved(old(log), old(hw)[0])
    {
      hide Tells, Orders, Sentinels, Capped;
      pending := pending - multiset{HwToSw};
      turns := turns + 1;
      assert hw == [hw[0]] + hw[1..];
      TellsMoved(log, hw[0], hw[1..], sw, Orders(holder));
      log := Moved(log, hw[0]);
      MoveToSoftware();
    }

    method StartTurn()
      requires Valid() && ExecStart in pending
      modifies this
      ensures Valid() && turns == old(turns) + 1 && log == old(log)
    {
      hide Tells, Orders, Sentinels, Capped;
      pending := pending - multiset{ExecStart};
      turns := turns + 1;
      StartExecuting();
    }

    method EndTurn(minted: seq<u32>)
      requires Valid() && ExecEnd in pending && Plain(minted)
      modifies this
      ensures Valid() && turns == old(turns) + 1
      ensures old(sw) != [] && log == Converted(Executed(old(log), old(sw)[0]), minted)
    {
      hide Tells, Orders, Sentinels, Plain;
      pending := pending - multiset{ExecEnd};
      turns := turns + 1;
      Cap(holder, minted);
      NoneQueued();
      assert sw == [sw[0]] + sw[1..];
      TellsExecuted(log, hw, sw[0], sw[1..], Orders(holder), minted);
      assert holder + minted == [] ==> holder == [] && minted == [] && Orders(holder) + minted == [];
      log := Converted(Executed(log, sw[0]), minted);
      FinishExecuting(minted);
    }

    method DrainTurn()
      requires Valid() && ExecToSw in pending
      modifies this
      ensures Valid() && turns == old(turns) + 1 && log == Drained(old(log), Batch(old(holder)))
    {
      hide Tells, Orders, Sentinels, Batch, Behind;
      pending := pending - multiset{ExecToSw};
      turns := turns + 1;
      NoneQueued();
      FirstBatch(holder);
      TellsDrained(log, hw, sw, Batch(holder), Orders(Behind(holder)));
      log := Drained(log, Batch(holder));
      Drain();
    }

    /** The end of server_auction: the stranded residual goes back as one batch. */
    method AuctionResidual(residual: seq<u32>)
      requires Valid() && Plain(residual)
      modifies this
      ensures Valid() && log == Converted(old(log), residual) && turns == old(turns)
    {
      if residual == [] {
        return;
      }
      Cap(holder, residual);
      holder := holder + residual + [SENTINEL];
      pending := pending + multiset{ExecToSw};
      log := Converted(log, residual);
    }
  }

  lemma NoneQueued()
    ensures Orders([]) == Batch([]) == Behind([]) == [] && Sentinels([]) == 0
  {
  }

  /** When no event is left every order has been executed, each source in its own order. */
  lemma QuietMeansDone(e: Engine)
    requires e.Valid() && e.pending == multiset{}
    ensures Merges(e.log.executed, e.log.arrived, e.log.converted, e.log.marks)
  {
    NoSentinelNoOrders(e.holder);
    assert e.log.executed + e.sw == e.log.executed;
  }

  lemma NoSentinelNoOrders(h: seq<u32>)
    requires Capped(h) && Sentinels(h) == 0
    ensures h == []
  {
    if h != [] {
      FirstBatch(h);
      assert false;
    }
  }

  /** While an order waits anywhere, an event that moves it is scheduled. */
  lemma WaitingIsScheduled(e: Engine)
    requires e.Valid() && (e.hw != [] || e.sw != [] || e.holder != [])
    ensures e.pending != multiset{}
    ensures e.hw != [] ==> HwToSw in e.pending
    ensures e.sw != [] ==> (ExecStart in e.pending) != (ExecEnd in e.pending)
    ensures e.holder != [] ==> ExecToSw in e.pending
  {
    if e.holder != [] {
      FirstBatch(e.holder);
    }
  }
}
