/** The session bells (src/server.c, src/main.c), each scheduling the next one on the real scheduler:
one bell is pending at any time, and it rings on its exact second of its trading day. */
module Bells {
  import opened Machine
  import opened Wheel
  import opened Scheduler

  // include/constants.h
  const DAY_TO_NS := 86400 * S_TO_NS
  const FIRST_OPEN_NS := 14 * 3600 * S_TO_NS + 30 * 60 * S_TO_NS
  const OPEN_TO_CLOSE_NS := 6 * 3600 * S_TO_NS + 30 * 60 * S_TO_NS
  const CLOSE_TO_OPEN_NS := 17 * 3600 * S_TO_NS + 30 * 60 * S_TO_NS
  const AUCTION_OPEN_WINDOW_NS := 3 * 3600 * S_TO_NS
  const AUCTION_CLOSE_WINDOW_NS := 10 * 60 * S_TO_NS
  const AUCTION_OPEN_FREEZE_NS := 5 * S_TO_NS
  const AUCTION_CLOSE_FREEZE_NS := 60 * S_TO_NS
  const FRIDAY_MOD := 1
  const WEEKEND_NS := 2 * DAY_TO_NS

  const CONTROL_PARAM_OPEN: u32 := MAX_PARAM
  const CONTROL_PARAM_CLOSE: u32 := MAX_PARAM - 1
  const CONTROL_PARAM_AUCTION_OPEN: u32 := MAX_PARAM - 2
  const CONTROL_PARAM_AUCTION_CLOSE: u32 := MAX_PARAM - 3
  const CONTROL_PARAM_CANDLE: u32 := MAX_PARAM - 10

  /** A control event's bits. */
  function Control(param: u32): (bits: u32)
    requires param <= MAX_PARAM
    ensures Bell(bits) <==> param >= CONTROL_PARAM_AUCTION_FREEZE
    ensures Bits(bits) == bits && (bits == SLOW <==> param == CONTROL_PARAM_SLOW)
  {
    CONTROL_TYPE * 0x4000_0000 + param
  }

  // ---------- The calendar ----------

  /** Day 0 is a Thursday, so days 2 and 3 of every week are Saturday and Sunday. */
  predicate Weekend(day: nat) {
    day % 7 == 2 || day % 7 == 3
  }

  /** The k-th trading day, counted from day 0. */
  function TradingDay(k: nat): nat {
    k + 2 * ((k + 3) / 5)
  }

  /** The trading days are exactly the days that are not weekends, */
  lemma TradingDays(day: nat)
    ensures !Weekend(day) <==> exists k: nat :: TradingDay(k) == day
  {
    if !Weekend(day) {
      var k := day - 2 * ((day + 5) / 7);
      assert TradingDay(k) == day;
    }
    forall k: nat
      ensures !Weekend(TradingDay(k))
    {
    }
  }

  /** in order, and only Friday is followed by a weekend. */
  lemma NextTradingDay(k: nat)
    ensures TradingDay(k + 1) == TradingDay(k) + (if TradingDay(k) % 7 == FRIDAY_MOD then 3 else 1)
  {
  }

  // ---------- The timetable ----------

  datatype Stage = OpenWindow | OpenFreeze | Open | CloseWindow | CloseFreeze | Close

  /** A ring of the timetable: which trading day, which bell. */
  datatype Ring = Ring(day: nat, stage: Stage)

  function Next(r: Ring): Ring {
    match r.stage
    case OpenWindow => Ring(r.day, OpenFreeze)
    case OpenFreeze => Ring(r.day, Open)
    case Open => Ring(r.day, CloseWindow)
    case CloseWindow => Ring(r.day, CloseFreeze)
    case CloseFreeze => Ring(r.day, Close)
    case Close => Ring(r.day + 1, OpenWindow)
  }

  function Clockface(h: nat, m: nat, s: nat): nat {
    h * 3600 + m * 60 + s
  }

  /** UTC time of day. */
  function TimeOfDay(stage: Stage): (seconds: nat)
    ensures seconds < 86400
  {
    match stage
    case OpenWindow => Clockface(11, 30, 0)
    case OpenFreeze => Clockface(14, 29, 55)
    case Open => Clockface(14, 30, 0)
    case CloseWindow => Clockface(20, 50, 0)
    case CloseFreeze => Clockface(20, 59, 0)
    case Close => Clockface(21, 0, 0)
  }

  /** The second, counted from the start of day 0. */
  function Due(r: Ring): nat {
    TradingDay(r.day) * 86400 + TimeOfDay(r.stage)
  }

  function Param(stage: Stage): (param: u32)
    ensures CONTROL_PARAM_AUCTION_FREEZE <= param <= MAX_PARAM
  {
    match stage
    case OpenWindow => CONTROL_PARAM_AUCTION_OPEN
    case Open => CONTROL_PARAM_OPEN
    case CloseWindow => CONTROL_PARAM_AUCTION_CLOSE
    case Close => CONTROL_PARAM_CLOSE
    case _ => CONTROL_PARAM_AUCTION_FREEZE
  }

  lemma DueDay(r: Ring)
    ensures Due(r) * S_TO_NS / DAY_TO_NS == TradingDay(r.day)
  {
    assert Due(r) * S_TO_NS == TradingDay(r.day) * DAY_TO_NS + TimeOfDay(r.stage) * S_TO_NS;
  }

  /** The delays of the program add up to the timetable. */
  lemma DueNext(r: Ring)
    ensures Due(r) < Due(Next(r)) <= Due(r) + 3 * 86400
    ensures (Due(Next(r)) - Due(r)) * S_TO_NS ==
            match r.stage
            case OpenWindow => AUCTION_OPEN_WINDOW_NS - AUCTION_OPEN_FREEZE_NS
            case OpenFreeze => AUCTION_OPEN_FREEZE_NS
            case Open => OPEN_TO_CLOSE_NS - AUCTION_CLOSE_WINDOW_NS
            case CloseWindow => AUCTION_CLOSE_WINDOW_NS - AUCTION_CLOSE_FREEZE_NS
            case CloseFreeze => AUCTION_CLOSE_FREEZE_NS
            case Close => CLOSE_TO_OPEN_NS - AUCTION_OPEN_WINDOW_NS + (if TradingDay(r.day) % 7 == FRIDAY_MOD then WEEKEND_NS else 0)
  {
    NextTradingDay(r.day);
  }

  // ---------- Bells on the scheduler ----------

  /** The only bells pending are bell bits for this second: so many in the wheel, so many slow. */
  ghost predicate Pending(wheel: Slots, slow: multiset<u64>, cur: nat, second: u32, bits: u32, inWheel: nat, inSlow: nat) {
    && (forall n: Moment, b: u32 | Bell(b) :: Scheduled(wheel, cur, n, b) == if n.Ns() == second * S_TO_NS && b == bits then inWheel else 0)
    && (forall w: u64 | Bell(Bits(w)) :: slow[w] == if w == Word(second, bits) then inSlow else 0)
  }

  /** Exactly one bell is pending. */
  ghost predicate OneBell(wheel: Slots, slow: multiset<u64>, cur: nat, second: u32, bits: u32) {
    Pending(wheel, slow, cur, second, bits, 1, 0) || Pending(wheel, slow, cur, second, bits, 0, 1)
  }

  ghost predicate NoBell(wheel: Slots, slow: multiset<u64>, cur: nat) {
    Pending(wheel, slow, cur, 0, 0, 0, 0)
  }

  lemma OtherAdded(was: Slots, now: Slots, slow: multiset<u64>, cur: nat, ns: nat, other: u32, second: u32, bits: u32,
                   i: nat, j: nat)
    requires Pending(was, slow, cur, second, bits, i, j) && Added(was, now, cur, ns, other) && !Bell(other)
    ensures Pending(now, slow, cur, second, bits, i, j)
  {
    hide Scheduled;
  }

  lemma OtherAddedSlow(wheel: Slots, was: multiset<u64>, now: multiset<u64>, cur: nat, due: nat, other: u32,
                       second: u32, bits: u32, i: nat, j: nat)
    requires Pending(wheel, was, cur, second, bits, i, j) && AddedSlow(was, now, due, other) && !Bell(other)
    ensures Pending(wheel, now, cur, second, bits, i, j)
  {
    hide Scheduled, Word;
  }

  lemma BellAdded(was: Slots, now: Slots, slow: multiset<u64>, cur: nat, second: u32, bits: u32)
    requires NoBell(was, slow, cur) && Added(was, now, cur, second * S_TO_NS, bits)
    ensures Pending(now, slow, cur, second, bits, 1, 0)
  {
    hide Scheduled, Word;
  }

  lemma BellAddedSlow(wheel: Slots, was: multiset<u64>, now: multiset<u64>, cur: nat, second: u32, bits: u32)
    requires NoBell(wheel, was, cur) && AddedSlow(was, now, second * S_TO_NS, bits)
    ensures Pending(wheel, now, cur, second, bits, 0, 1)
  {
    hide Scheduled, Bell, Word, Rounded;
    var w :| Rounded(w, second * S_TO_NS, bits) && now == was + multiset{w};
    ExactWord(w, second, bits);
  }

  /** A word rounded from a whole second is that second's. */
  lemma ExactWord(w: u64, second: u32, bits: u32)
    requires Rounded(w, second * S_TO_NS, bits)
    ensures w == Word(second, bits)
  {
    PartsWord(w);
  }

  lemma OtherPopped(was: Slots, from: nat, now: Slots, cur: nat, slow: multiset<u64>, at: Moment, other: u32,
                    second: u32, bits: u32, i: nat, j: nat)
    requires Pending(was, slow, from, second, bits, i, j) && Removed(was, from, now, cur, at, other) && !Bell(other)
    ensures Pending(now, slow, cur, second, bits, i, j)
  {
    hide Scheduled, Word;
  }

  /** The first bell is the first opening window's. */
  lemma FirstDue()
    ensures Due(Ring(0, OpenWindow)) * S_TO_NS == FIRST_OPEN_NS - AUCTION_OPEN_WINDOW_NS && Due(Ring(0, OpenWindow)) < SPAN
  {
  }

  lemma EmptyNoBell(wheel: Slots)
    requires Added(seq(BUCKETS, i => multiset{}), wheel, 0, 0, SLOW)
    ensures NoBell(wheel, multiset{}, 0)
  {
    SlowIsNoBell();
    hide Bell;
  }

  /** A popped bell is the pending one, on its second; then none is left. */
  lemma BellPopped(was: Slots, from: nat, now: Slots, cur: nat, slow: multiset<u64>, at: Moment, bell: u32, second: u32,
                   bits: u32)
    requires OneBell(was, slow, from, second, bits) && Scheduled(was, from, at, bell) > 0 && Bell(bell)
    requires Removed(was, from, now, cur, at, bell)
    ensures at.Ns() == second * S_TO_NS && bell == bits && NoBell(now, slow, cur)
  {
    hide Scheduled, Word;
    forall n: Moment | n.Ns() == second * S_TO_NS
      ensures n == at
    {
      AtNs(n);
      AtNs(at);
    }
  }

  /** A bell moves to the moment of its word. */
  lemma {:induction false} MovedBells(moves: seq<Move>, n: Moment, b: u32)
    requires (forall v | v in moves :: MoveOk(v)) && Bell(b)
    ensures n.Ns() % S_TO_NS != 0 || n.Ns() / S_TO_NS >= SPAN ==> MovedTo(moves, n, b) == 0
    ensures n.Ns() % S_TO_NS == 0 && n.Ns() / S_TO_NS < SPAN ==> MovedTo(moves, n, b) == MovedWords(moves)[Word(n.Ns() / S_TO_NS, b)]
  {
    if moves != [] {
      var rest, v := moves[..|moves| - 1], moves[|moves| - 1];
      MovedBells(rest, n, b);
      assert v in moves && MoveOk(v);
      OneMovedBell(v, n, b);
    }
  }

  lemma OneMovedBell(v: Move, n: Moment, b: u32)
    requires MoveOk(v) && Bell(b)
    ensures v.at == n && Bits(v.word) == b <==>
            n.Ns() % S_TO_NS == 0 && n.Ns() / S_TO_NS < SPAN && v.word == Word(n.Ns() / S_TO_NS, b)
  {
    hide Word, Priority, Bits, Moment.Ns;
    var ns := n.Ns();
    PartsWord(v.word);
    AtNs(n);
    AtNs(v.at);
    WholeSecond(ns, Priority(v.word));
    if ns % S_TO_NS == 0 && ns / S_TO_NS < SPAN {
      WordParts(ns / S_TO_NS, b);
    }
  }

  lemma WholeSecond(ns: nat, second: u32)
    ensures ns == second * S_TO_NS <==> ns % S_TO_NS == 0 && ns / S_TO_NS == second
  {
  }

  /** The pump takes the bell from the slow heap to the wheel, to its exact second, or leaves it. */
  lemma BellPumped(was: Slots, from: nat, now: Slots, cur: nat, slow: multiset<u64>, left: multiset<u64>, at: Moment,
                   pump: Moment,
                   moves: seq<Move>, second: u32, bits: u32)
    requires OneBell(was, slow, from, second, bits) && Pumped(was, from, now, cur, at, pump, moves)
    requires left + MovedWords(moves) == slow && (forall v | v in moves :: MoveOk(v)) && Bell(bits)
    ensures OneBell(now, left, cur, second, bits)
  {
    hide Scheduled, Word, Bell, Bits;
    SlowIsNoBell();
    WordParts(second, bits);
    var word := Word(second, bits);
    var moved := MovedWords(moves)[word];
    assert slow[word] == left[word] + moved && slow[word] <= 1;
    forall n: Moment, b: u32 | Bell(b)
      ensures Scheduled(now, cur, n, b) == Scheduled(was, from, n, b) + if n.Ns() == second * S_TO_NS && b == bits then moved else 0
    {
      MovedBells(moves, n, b);
      if n.Ns() % S_TO_NS == 0 && n.Ns() / S_TO_NS < SPAN {
        var w := Word(n.Ns() / S_TO_NS, b);
        WordParts(n.Ns() / S_TO_NS, b);
        assert slow[w] == left[w] + MovedWords(moves)[w];
      }
    }
    forall w: u64 | Bell(Bits(w))
      ensures left[w] == if w == word then slow[word] - moved else 0
    {
      assert slow[w] == left[w] + MovedWords(moves)[w];
    }
  }

  /** The flags while a bell is awaited: open between the bells, accumulating from each window's start to
  its bell, frozen at the end of it. */
  predicate FlagsBefore(stage: Stage, isOpen: bool, auctioning: bool, frozen: bool) {
    && (isOpen <==> stage.CloseWindow? || stage.CloseFreeze? || stage.Close?)
    && (auctioning <==> stage.OpenFreeze? || stage.Open? || stage.CloseFreeze? || stage.Close?)
    && (frozen <==> stage.Open? || stage.Close?)
  }

  /** What a bell makes of the flags is what they have to be while the next bell is awaited. */
  lemma BellFlags(r: Ring, isOpen: bool, auctioning: bool, frozen: bool)
    requires FlagsBefore(r.stage, isOpen, auctioning, frozen)
    ensures FlagsBefore(Next(r).stage, r.stage.Open? || (isOpen && !r.stage.Close?),
                        r.stage.OpenWindow? || r.stage.CloseWindow? || (auctioning && !r.stage.Open? && !r.stage.Close?),
                        r.stage.OpenFreeze? || r.stage.CloseFreeze?)
    ensures isOpen <==> r.stage.CloseWindow? || r.stage.CloseFreeze? || r.stage.Close?
  {
  }

  // ---------- The session ----------

  class Session {
    const sch: Sch
    var isOpen: bool
    var auctioning: bool
    var frozen: bool
    ghost var next: Ring    // the bell that is pending

    constructor (sch: Sch)
      ensures this.sch == sch && !isOpen && !auctioning && !frozen && next == Ring(0, OpenWindow)
    {
      this.sch := sch;
      isOpen, auctioning, frozen := false, false, false;
      next := Ring(0, OpenWindow);
    }

    ghost predicate FlagsAgree()
      reads this
    {
      FlagsBefore(next.stage, isOpen, auctioning, frozen)
    }

    ghost predicate Chained()
      reads `next, sch
    {
      && Due(next) < SPAN
      && OneBell(sch.wheel, sch.slow, sch.bucket, Due(next), Control(Param(next.stage)))
    }

    ghost predicate Valid()
      reads this, sch, sch.buckets, sch.slowBucket, sch.Objs()
    {
      sch.Valid() && FlagsAgree() && Chained()
    }

    /** The clock stands at the bell that rang, and no other is pending. */
    ghost predicate Silent()
      reads `next, sch, sch.buckets, sch.slowBucket, sch.Objs()
    {
      sch.Valid() && Due(Next(next)) < SPAN && NoBell(sch.wheel, sch.slow, sch.bucket) && sch.Clock().Ns() == Due(next) * S_TO_NS
    }

    ghost predicate Rung()
      reads this, sch, sch.buckets, sch.slowBucket, sch.Objs()
    {
      FlagsAgree() && Silent()
    }

    lemma SilentAt()
      requires Silent()
      ensures sch.Clock().Ns() == Due(next) * S_TO_NS
    {
    }

    /** One sch_schedule of the bell that comes after the one that rang. */
    method ScheduleBell(param: u32, delay: nat, ghost second: u32)
      requires sch.Valid() && sch.Roomy() && NoBell(sch.wheel, sch.slow, sch.bucket)
      requires sch.Clock().Ns() + delay == second * S_TO_NS && CONTROL_PARAM_AUCTION_FREEZE <= param <= MAX_PARAM
      modifies sch`wheel, sch`slow, sch.Objs()
      ensures sch.Valid() && (old(sch.RoomFor(1)) ==> sch.Roomy()) && fresh(sch.Objs() - old(sch.Objs()))
      ensures OneBell(sch.wheel, sch.slow, sch.bucket, second, Control(param))
    {
      hide Pq.Queue.Valid, Pq.Queue.Contents, Sch.Valid, Scheduled, Pending, Added, AddedSlow;
      CeilSecond(second * S_TO_NS);
      ghost var was, had := sch.wheel, sch.slow;
      sch.Schedule(Control(param), delay);
      assert old(sch.RoomFor(1)) ==> sch.Roomy();
      if delay <= (BUCKETS - 1) * SPAN {
        BellAdded(was, sch.wheel, had, sch.bucket, second, Control(param));
      } else {
        BellAddedSlow(was, had, sch.slow, sch.bucket, second, Control(param));
      }
    }

    /** The bell that rang schedules the next one of the timetable. */
    method RingNext(param: u32, delay: int)
      requires Silent() && sch.Roomy() && param == Param(Next(next).stage)
      requires delay == (Due(Next(next)) - Due(next)) * S_TO_NS
      modifies `next, sch`wheel, sch`slow, sch.Objs()
      ensures sch.Valid() && Chained() && next == Next(old(next)) && fresh(sch.Objs() - old(sch.Objs()))
    {
      hide Pq.Queue.Valid, Pq.Queue.Contents, Sch.Valid, OneBell, NoBell, Due, Next;
      sch.NotMine();
      DueNext(next);
      next := Next(next);
      ScheduleBell(param, delay, Due(next));
    }

    /** server_auction_accumulate. */
    method Accumulate()
      requires Rung() && sch.Roomy() && (next.stage.OpenWindow? || next.stage.CloseWindow?)
      modifies this, sch`wheel, sch`slow, sch.Objs()
      ensures Valid() && next == Next(old(next)) && fresh(sch.Objs() - old(sch.Objs()))
    {
      hide Pq.Queue.Valid, Pq.Queue.Contents, Sch.Valid, Silent, Chained, Due, TradingDay, TimeOfDay, FlagsBefore;
      sch.NotMine();
      DueNext(next);
      BellFlags(next, isOpen, auctioning, frozen);
      auctioning := true;
      frozen := false;
      var window := if isOpen then AUCTION_CLOSE_WINDOW_NS else AUCTION_OPEN_WINDOW_NS;
      var freeze := if isOpen then AUCTION_CLOSE_FREEZE_NS else AUCTION_OPEN_FREEZE_NS;
      RingNext(CONTROL_PARAM_AUCTION_FREEZE, window - freeze);
    }

    /** server_auction_freeze. */
    method Freeze()
      requires Rung() && sch.Roomy() && (next.stage.OpenFreeze? || next.stage.CloseFreeze?)
      modifies this, sch`wheel, sch`slow, sch.Objs()
      ensures Valid() && next == Next(old(next)) && fresh(sch.Objs() - old(sch.Objs()))
    {
      hide Pq.Queue.Valid, Pq.Queue.Contents, Sch.Valid, Silent, Chained, Due, TradingDay, TimeOfDay, FlagsBefore;
      sch.NotMine();
      DueNext(next);
      BellFlags(next, isOpen, auctioning, frozen);
      frozen := true;
      var bell := if isOpen then CONTROL_PARAM_CLOSE else CONTROL_PARAM_OPEN;
      var freeze := if isOpen then AUCTION_CLOSE_FREEZE_NS else AUCTION_OPEN_FREEZE_NS;
      RingNext(bell, freeze);
    }

    /** server_market_open, after its cross. */
    method MarketOpen()
      requires Rung() && sch.RoomFor(1) && next.stage.Open?
      modifies this, sch`wheel, sch`slow, sch.Objs()
      ensures Valid() && next == Next(old(next)) && fresh(sch.Objs() - old(sch.Objs()))
    {
      hide Pq.Queue.Valid, Pq.Queue.Contents, Sch.Valid, Silent, Chained, Due, TradingDay, TimeOfDay, FlagsBefore;
      sch.NotMine();
      DueNext(next);
      BellFlags(next, isOpen, auctioning, frozen);
      auctioning, frozen, isOpen := false, false, true;
      RingSession();
    }

    /** The bell after the open. */
    method RingSession()
      requires Silent() && sch.RoomFor(1) && next.stage.Open?
      modifies `next, sch`wheel, sch`slow, sch.Objs()
      ensures sch.Valid() && Chained() && next == Next(old(next)) && fresh(sch.Objs() - old(sch.Objs()))
    {
      hide Pq.Queue.Valid, Pq.Queue.Contents, Sch.Valid, Sch.Stored, OneBell, NoBell, Due, TradingDay, TimeOfDay;
      sch.NotMine();
      DueNext(next);
      next := Next(next);
      ScheduleSession(Due(next));
    }

    /** The closing window's start, and the first candle, one second on. */
    method ScheduleSession(ghost second: u32)
      requires sch.Valid() && sch.RoomFor(1) && NoBell(sch.wheel, sch.slow, sch.bucket)
      requires sch.Clock().Ns() + (OPEN_TO_CLOSE_NS - AUCTION_CLOSE_WINDOW_NS) == second * S_TO_NS
      modifies sch`wheel, sch`slow, sch.Objs()
      ensures sch.Valid() && fresh(sch.Objs() - old(sch.Objs()))
      ensures OneBell(sch.wheel, sch.slow, sch.bucket, second, Control(CONTROL_PARAM_AUCTION_CLOSE))
    {
      hide Sch.Roomy, Sch.RoomFor, Sch.Valid, OneBell, NoBell;
      sch.NotMine();
      sch.RoomForOne();
      CeilSecond(second * S_TO_NS);
      ScheduleBell(CONTROL_PARAM_AUCTION_CLOSE, OPEN_TO_CLOSE_NS - AUCTION_CLOSE_WINDOW_NS, second);
      ScheduleOther(Control(CONTROL_PARAM_CANDLE), S_TO_NS, second, Control(CONTROL_PARAM_AUCTION_CLOSE));
    }

    /** server_market_close, after its cross and the expiries. */
    method MarketClose()
      requires Rung() && sch.Roomy() && next.stage.Close?
      modifies this, sch`wheel, sch`slow, sch.Objs()
      ensures Valid() && next == Next(old(next)) && fresh(sch.Objs() - old(sch.Objs()))
    {
      hide Pq.Queue.Valid, Pq.Queue.Contents, Sch.Valid, Silent, Chained, Due, TradingDay, TimeOfDay, FlagsBefore;
      sch.NotMine();
      DueNext(next);
      DueDay(next);
      BellFlags(next, isOpen, auctioning, frozen);
      auctioning, frozen, isOpen := false, false, false;
      SilentAt();
      var today := sch.Clock().Ns() / DAY_TO_NS;
      var gap := CLOSE_TO_OPEN_NS - AUCTION_OPEN_WINDOW_NS;
      if today % 7 == FRIDAY_MOD {
        gap := gap + WEEKEND_NS;
      }
      RingNext(CONTROL_PARAM_AUCTION_OPEN, gap);
    }

    /** Any schedule that is not a bell leaves the pending bell as it is. */
    method ScheduleOther(event: u64, delta: nat, ghost second: u32, ghost bits: u32)
      requires sch.Valid() && sch.Roomy() && OneBell(sch.wheel, sch.slow, sch.bucket, second, bits)
      requires !Bell(Bits(event)) && Bits(event) != SLOW
      requires delta > (BUCKETS - 1) * SPAN ==> CeilSeconds(sch.Clock().Ns() + delta) < SPAN
      modifies sch`wheel, sch`slow, sch.Objs()
      ensures sch.Valid() && fresh(sch.Objs() - old(sch.Objs()))
      ensures OneBell(sch.wheel, sch.slow, sch.bucket, second, bits)
    {
      hide Pq.Queue.Valid, Pq.Queue.Contents, Sch.Valid, Scheduled, Pending, Added, AddedSlow;
      ghost var was, had, i := sch.wheel, sch.slow, if Pending(sch.wheel, sch.slow, sch.bucket, second, bits, 1, 0) then 1 else 0;
      sch.Schedule(event, delta);
      if delta <= (BUCKETS - 1) * SPAN {
        OtherAdded(was, sch.wheel, had, sch.bucket, sch.Clock().Ns() + delta, Bits(event), second, bits, i, 1 - i);
      } else {
        OtherAddedSlow(was, had, sch.slow, sch.bucket, sch.Clock().Ns() + delta, Bits(event), second, bits, i, 1 - i);
      }
    }

    // ---------- The main loop ----------

    /** main: the pump, and the first opening window. */
    method Begin()
      requires sch.Stored() && sch.RoomFor(1) && sch.bucket == 0 && sch.now == 0 && sch.slow == multiset{}
      requires forall k | 0 <= k < BUCKETS :: sch.wheel[k] == multiset{}
      requires !isOpen && !auctioning && !frozen && next == Ring(0, OpenWindow)
      modifies this, sch`wheel, sch`slow, sch`pump, sch.Objs()
      ensures Valid() && next == old(next) && fresh(sch.Objs() - old(sch.Objs()))
    {
      hide Pq.Queue.Valid, Pq.Queue.Contents, Pq.HeapOk, Pq.Elems, Sch.Valid, Sch.Stored, Scheduled, Pending, NoBell,
           OneBell, Added, Due, TradingDay, TimeOfDay;
      sch.NotMine();
      FirstDue();
      sch.Start();
      EmptyNoBell(sch.wheel);
      ScheduleBell(CONTROL_PARAM_AUCTION_OPEN, FIRST_OPEN_NS - AUCTION_OPEN_WINDOW_NS, Due(next));
    }

    /** The dispatch of a bell. */
    method OnBell(param: u32)
      requires Rung() && sch.RoomFor(1) && param == Param(next.stage)
      modifies this, sch`wheel, sch`slow, sch.Objs()
      ensures Valid() && next == Next(old(next)) && fresh(sch.Objs() - old(sch.Objs()))
    {
      hide Rung, Valid;
      if param == CONTROL_PARAM_OPEN {
        MarketOpen();
      } else if param == CONTROL_PARAM_CLOSE {
        MarketClose();
      } else if param == CONTROL_PARAM_AUCTION_OPEN || param == CONTROL_PARAM_AUCTION_CLOSE {
        Accumulate();
      } else {
        Freeze();
      }
    }

    /** One pop. A bell that comes out is the pending one, on its second, and brings the next. */
    method Turn() returns (event: u64)
      requires Valid() && sch.RoomFor(1) && Due(Next(next)) < SPAN
      modifies this, sch, sch.Objs()
      ensures Valid() && fresh(sch.Objs() - old(sch.Objs()))
      ensures Bell(Bits(event)) ==> Bits(event) == Control(Param(old(next).stage)) && next == Next(old(next))
      ensures Bell(Bits(event)) ==> sch.Clock().Ns() == Due(old(next)) * S_TO_NS
      ensures !Bell(Bits(event)) ==> next == old(next) && isOpen == old(isOpen) && auctioning == old(auctioning) && frozen == old(frozen)
    {
      hide Pq.Queue.Valid, Pq.Queue.Contents, Sch.Valid, Scheduled, Pending, Removed, Pumped, NextOfAll, Due;
      sch.NotMine();
      SlowIsNoBell();
      ghost var was, had, from, second, bits := sch.wheel, sch.slow, sch.bucket, Due(next), Control(Param(next.stage));
      ghost var i := if Pending(was, had, from, second, bits, 1, 0) then 1 else 0;
      ghost var moves;
      event, moves := sch.Pop();
      if Bits(event) == SLOW {
        BellPumped(was, from, sch.wheel, sch.bucket, had, sch.slow, sch.Clock(), sch.pump, moves, second, bits);
      } else if Bell(Bits(event)) {
        BellPopped(was, from, sch.wheel, sch.bucket, had, sch.Clock(), Bits(event), second, bits);
        OnBell(Bits(event) % 0x4000_0000);
      } else {
        OtherPopped(was, from, sch.wheel, sch.bucket, had, sch.Clock(), Bits(event), second, bits, i, 1 - i);
      }
    }

    /** Anything else that is scheduled between two pops. */
    method Other(event: u64, delta: nat)
      requires Valid() && sch.Roomy()
      requires !Bell(Bits(event)) && Bits(event) != SLOW
      requires delta > (BUCKETS - 1) * SPAN ==> CeilSeconds(sch.Clock().Ns() + delta) < SPAN
      modifies sch`wheel, sch`slow, sch.Objs()
      ensures Valid() && fresh(sch.Objs() - old(sch.Objs()))
    {
      hide Sch.Valid, OneBell, Due;
      ScheduleOther(event, delta, Due(next), Control(Param(next.stage)));
    }
  }
}
