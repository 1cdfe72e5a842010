/** The two-level timing wheel (src/sch.c): 64 buckets of 2^32 ns over the heaps of src/pq.c, and a
slow heap of whole seconds that a self-rescheduling pump feeds into the wheel.

Time is kept as (bucket number since the start, nanoseconds into the bucket). Scheduled counts, for
each moment and each event, how often the wheel holds it; against that count the scheduler is one
priority queue ordered by time and then by event bits. */
module Wheel {
  import opened Machine

  // include/constants.h
  const SPAN := 0x1_0000_0000
  const BUCKETS := 64
  const S_TO_NS := 1_000_000_000
  const JITTER := 0x2000_0000
  const MAX_PARAM := 0x3FFF_FFFF
  const CONTROL_TYPE := 3
  const CONTROL_PARAM_AUCTION_FREEZE := MAX_PARAM - 4
  const CONTROL_PARAM_SLOW := MAX_PARAM - 8

  /** The pump's own event. */
  const SLOW: u32 := CONTROL_TYPE * 0x4000_0000 + CONTROL_PARAM_SLOW

  // ---------- Event words ----------

  /** Priority in the upper half, event in the lower. */
  function Word(priority: u32, bits: u32): u64 {
    priority * SPAN + bits
  }

  function Priority(w: u64): (p: u32) {
    w / SPAN
  }

  function Bits(w: u64): (b: u32) {
    w % SPAN
  }

  lemma WordParts(p: u32, b: u32)
    ensures Priority(Word(p, b)) == p && Bits(Word(p, b)) == b
  {
  }

  lemma PartsWord(w: u64)
    ensures Word(Priority(w), Bits(w)) == w
  {
  }

  /** Comparing words compares priority first and event bits second. */
  lemma WordOrder(v: u64, w: u64)
    ensures v <= w <==> Priority(v) < Priority(w) || (Priority(v) == Priority(w) && Bits(v) <= Bits(w))
  {
    PartsWord(v);
    PartsWord(w);
  }

  /** The session bells: control events with one of the five highest parameters. */
  predicate Bell(bits: u32) {
    bits / 0x4000_0000 == CONTROL_TYPE && bits % 0x4000_0000 >= CONTROL_PARAM_AUCTION_FREEZE
  }

  lemma SlowIsNoBell()
    ensures !Bell(SLOW)
  {
  }

  // ---------- Moments and slots ----------

  /** A moment: how many bucket spans have gone by, and how far into the current one. */
  datatype Moment = Moment(bucket: nat, offset: u32)
  {
    function Ns(): nat {
      bucket * SPAN + offset
    }
  }

  function At(ns: nat): (m: Moment)
    ensures m.Ns() == ns
  {
    Moment(ns / SPAN, ns % SPAN)
  }

  lemma AtNs(m: Moment)
    ensures At(m.Ns()) == m
  {
  }

  function Slot(bucket: nat): (k: nat)
    ensures k < BUCKETS
  {
    bucket % BUCKETS
  }

  /** Sixty-four consecutive buckets have sixty-four different slots. */
  lemma SlotsApart(base: nat, a: nat, b: nat)
    requires base <= a < base + BUCKETS && base <= b < base + BUCKETS
    ensures Slot(a) == Slot(b) <==> a == b
  {
  }

  lemma SlotLap(a: nat)
    ensures Slot(a + BUCKETS) == Slot(a)
  {
  }

  // ---------- What the wheel holds ----------

  /** The contents of the 64 bucket heaps. */
  type Slots = s: seq<multiset<u64>> | |s| == BUCKETS witness seq(BUCKETS, i => multiset{})

  /** How often the wheel, standing at bucket cur, holds this event for this moment. */
  ghost function Scheduled(wheel: Slots, cur: nat, m: Moment, bits: u32): nat {
    if cur <= m.bucket < cur + BUCKETS then wheel[Slot(m.bucket)][Word(m.offset, bits)] else 0
  }

  function Put(wheel: Slots, m: Moment, bits: u32): Slots {
    wheel[Slot(m.bucket) := wheel[Slot(m.bucket)] + multiset{Word(m.offset, bits)}]
  }

  function Take(wheel: Slots, m: Moment, bits: u32): Slots {
    wheel[Slot(m.bucket) := wheel[Slot(m.bucket)] - multiset{Word(m.offset, bits)}]
  }

  /** Putting an event in reach adds exactly that event at exactly that moment. */
  lemma PutAdds(wheel: Slots, cur: nat, m: Moment, bits: u32, n: Moment, b: u32)
    requires cur <= m.bucket < cur + BUCKETS
    ensures Scheduled(Put(wheel, m, bits), cur, n, b) == Scheduled(wheel, cur, n, b) + (if n == m && b == bits then 1 else 0)
  {
    WordParts(m.offset, bits);
    WordParts(n.offset, b);
    if cur <= n.bucket < cur + BUCKETS {
      SlotsApart(cur, m.bucket, n.bucket);
    }
  }

  lemma TakeRemoves(wheel: Slots, cur: nat, m: Moment, bits: u32, n: Moment, b: u32)
    requires cur <= m.bucket < cur + BUCKETS && Scheduled(wheel, cur, m, bits) > 0
    ensures Scheduled(Take(wheel, m, bits), cur, n, b) == Scheduled(wheel, cur, n, b) - (if n == m && b == bits then 1 else 0)
  {
    WordParts(m.offset, bits);
    WordParts(n.offset, b);
    if cur <= n.bucket < cur + BUCKETS {
      SlotsApart(cur, m.bucket, n.bucket);
    }
  }

  /** Stepping over empty buckets changes nothing: what a slot holds is for this lap only. */
  lemma AdvanceKeeps(wheel: Slots, cur: nat, to: nat, n: Moment, b: u32)
    requires cur <= to < cur + BUCKETS
    requires forall k | cur <= k < to :: wheel[Slot(k)] == multiset{}
    ensures Scheduled(wheel, to, n, b) == Scheduled(wheel, cur, n, b)
  {
    if cur + BUCKETS <= n.bucket < to + BUCKETS {
      SlotLap(n.bucket - BUCKETS);
    }
  }

  // ---------- The invariant ----------

  /** Nothing in the wheel is overdue. */
  ghost predicate NoneOverdue(wheel: Slots, cur: nat, now: u32) {
    forall w | w in wheel[Slot(cur)] :: now <= Priority(w)
  }

  /** The pump's event is in the wheel, once, and nowhere else. */
  ghost predicate OnePump(wheel: Slots, cur: nat, pump: Moment) {
    && cur <= pump.bucket < cur + BUCKETS
    && forall m: Moment :: Scheduled(wheel, cur, m, SLOW) == if m == pump then 1 else 0
  }

  /** Every slow event matures after the next pump. */
  ghost predicate SlowAhead(slow: multiset<u64>, pump: Moment) {
    forall w | w in slow :: Bits(w) != SLOW && pump.Ns() < Priority(w) * S_TO_NS
  }

  ghost predicate WheelOk(wheel: Slots, slow: multiset<u64>, cur: nat, now: u32, pump: Moment) {
    NoneOverdue(wheel, cur, now) && OnePump(wheel, cur, pump) && SlowAhead(slow, pump)
    && Moment(cur, now).Ns() <= pump.Ns() <= Moment(cur, now).Ns() + (BUCKETS - 2) * SPAN
  }

  // ---------- Scheduling ----------

  /** A delta of at most 63 spans from now lands within reach, at exactly now plus delta. */
  lemma FastReach(cur: nat, now: u32, delta: nat)
    requires delta <= (BUCKETS - 1) * SPAN
    ensures var sum, m := now + delta, At(Moment(cur, now).Ns() + delta);
            m == Moment(cur + sum / SPAN, sum % SPAN) && cur <= m.bucket < cur + BUCKETS && (m.bucket == cur ==> now <= m.offset)
  {
  }

  lemma PutOk(wheel: Slots, slow: multiset<u64>, cur: nat, now: u32, pump: Moment, m: Moment, bits: u32)
    requires WheelOk(wheel, slow, cur, now, pump) && bits != SLOW
    requires cur <= m.bucket < cur + BUCKETS && (m.bucket == cur ==> now <= m.offset)
    ensures WheelOk(Put(wheel, m, bits), slow, cur, now, pump)
  {
    forall n: Moment
      ensures Scheduled(Put(wheel, m, bits), cur, n, SLOW) == if n == pump then 1 else 0
    {
      PutAdds(wheel, cur, m, bits, n, SLOW);
    }
    PutNoneOverdue(wheel, cur, now, m, bits);
  }

  lemma PutNoneOverdue(wheel: Slots, cur: nat, now: u32, m: Moment, bits: u32)
    requires NoneOverdue(wheel, cur, now)
    requires cur <= m.bucket < cur + BUCKETS && (m.bucket == cur ==> now <= m.offset)
    ensures NoneOverdue(Put(wheel, m, bits), cur, now)
  {
    SlotsApart(cur, cur, m.bucket);
    WordParts(m.offset, bits);
  }

  function CeilSeconds(due: nat): nat {
    (due + S_TO_NS - 1) / S_TO_NS
  }

  /** The slow heap's word as the program computes it, in 64 bits. */
  function SlowWord(second: nat, bits: u32): u64 {
    U64(second * SPAN + bits)
  }

  lemma WordIs(p: u32, b: u32)
    ensures Word(p, b) == p * SPAN + b
  {
  }

  lemma SpanTwice(second: nat, laps: nat, left: nat, bits: u32)
    requires second == laps * SPAN + left && left < SPAN
    ensures second * SPAN + bits == laps * 0x1_0000_0000_0000_0000 + (left * SPAN + bits)
    ensures left * SPAN + bits < 0x1_0000_0000_0000_0000
  {
  }

  lemma U64Laps(laps: nat, r: nat)
    requires r < 0x1_0000_0000_0000_0000
    ensures U64(laps * 0x1_0000_0000_0000_0000 + r) == r
  {
  }

  /** It gives its second back exactly when the second fits 32 bits, */
  lemma SlowWordExact(second: nat, bits: u32)
    ensures Bits(SlowWord(second, bits)) == bits
    ensures Priority(SlowWord(second, bits)) == second % SPAN
    ensures Priority(SlowWord(second, bits)) == second <==> second < SPAN
    ensures second < SPAN ==> SlowWord(second, bits) == Word(second, bits)
  {
    hide U64, Word, Priority, Bits;
    var laps, left := second / SPAN, second % SPAN;
    SpanTwice(second, laps, left, bits);
    U64Laps(laps, left * SPAN + bits);
    WordIs(left, bits);
    WordParts(left, bits);
  }

  /** and an event due after 2^32 seconds would fire at the start. */
  lemma SlowWordWraps()
    ensures CeilSeconds(SPAN * S_TO_NS) == SPAN && Priority(SlowWord(SPAN, SLOW)) == 0
  {
    SlowWordExact(SPAN, SLOW);
  }

  /** Rounding up to the second: never before the due time, less than a second after it. */
  lemma CeilSecond(due: nat)
    ensures var s := CeilSeconds(due);
            due <= s * S_TO_NS < due + S_TO_NS && (due % S_TO_NS == 0 ==> s * S_TO_NS == due)
  {
  }

  // ---------- Popping ----------

  /** The least word of the first occupied bucket is the least of everything. */
  lemma LeastOfAll(wheel: Slots, from: nat, cur: nat, w: u64, n: Moment, b: u32)
    requires from <= cur < from + BUCKETS && forall k | from <= k < cur :: wheel[Slot(k)] == multiset{}
    requires forall x | x in wheel[Slot(cur)] :: w <= x
    requires Scheduled(wheel, from, n, b) > 0
    ensures Moment(cur, Priority(w)).Ns() < n.Ns() || (Moment(cur, Priority(w)) == n && Bits(w) <= b)
  {
    if n.bucket == cur {
      WordParts(n.offset, b);
      WordOrder(w, Word(n.offset, b));
    }
  }

  /** What is left of the bucket is not overdue at the popped event's time. */
  lemma RestNotOverdue(wheel: Slots, cur: nat, w: u64)
    requires w in wheel[Slot(cur)] && forall x | x in wheel[Slot(cur)] :: w <= x
    ensures NoneOverdue(Take(wheel, Moment(cur, Priority(w)), Bits(w)), cur, Priority(w))
  {
    PartsWord(w);
    forall x | x in Take(wheel, Moment(cur, Priority(w)), Bits(w))[Slot(cur)]
      ensures Priority(w) <= Priority(x)
    {
      WordOrder(w, x);
    }
  }

  lemma WordScheduled(wheel: Slots, cur: nat, w: u64)
    requires w in wheel[Slot(cur)]
    ensures Scheduled(wheel, cur, Moment(cur, Priority(w)), Bits(w)) > 0
  {
    PartsWord(w);
  }

  lemma TakeOk(wheel: Slots, slow: multiset<u64>, cur: nat, w: u64, pump: Moment)
    requires OnePump(wheel, cur, pump) && SlowAhead(slow, pump)
    requires pump.Ns() <= Moment(cur, Priority(w)).Ns() + (BUCKETS - 2) * SPAN
    requires w in wheel[Slot(cur)] && (forall x | x in wheel[Slot(cur)] :: w <= x) && Bits(w) != SLOW
    ensures WheelOk(Take(wheel, Moment(cur, Priority(w)), Bits(w)), slow, cur, Priority(w), pump)
  {
    var at := Moment(cur, Priority(w));
    WordScheduled(wheel, cur, w);
    RestNotOverdue(wheel, cur, w);
    LeastOfAll(wheel, cur, cur, w, pump, SLOW);
    forall n: Moment
      ensures Scheduled(Take(wheel, at, Bits(w)), cur, n, SLOW) == if n == pump then 1 else 0
    {
      TakeRemoves(wheel, cur, at, Bits(w), n, SLOW);
    }
  }

  // ---------- Pumping ----------

  /** Anything past the threshold matures after the next pump. */
  lemma PastThreshold(now: nat, s: nat)
    requires s > (now + (BUCKETS - 2) * SPAN) / S_TO_NS
    ensures s * S_TO_NS > now + (BUCKETS - 2) * SPAN
  {
  }

  /** Anything up to the threshold lands within reach of the wheel, spreading jitter included. */
  lemma MigrationReach(cur: nat, now: u32, s: u32, jitter: nat)
    requires s <= (Moment(cur, now).Ns() + (BUCKETS - 2) * SPAN) / S_TO_NS && jitter < JITTER
    requires Moment(cur, now).Ns() < s * S_TO_NS
    ensures var m := At(s * S_TO_NS + jitter);
            cur <= m.bucket < cur + BUCKETS && (m.bucket == cur ==> now <= m.offset)
  {
  }

  ghost predicate NoPump(wheel: Slots, cur: nat) {
    forall m: Moment :: Scheduled(wheel, cur, m, SLOW) == 0
  }

  lemma PutNoPump(wheel: Slots, cur: nat, m: Moment, bits: u32)
    requires NoPump(wheel, cur) && bits != SLOW && cur <= m.bucket < cur + BUCKETS
    ensures NoPump(Put(wheel, m, bits), cur)
  {
    forall n: Moment
      ensures Scheduled(Put(wheel, m, bits), cur, n, SLOW) == 0
    {
      PutAdds(wheel, cur, m, bits, n, SLOW);
    }
  }

  lemma TakePump(wheel: Slots, cur: nat, pump: Moment)
    requires OnePump(wheel, cur, pump)
    ensures NoPump(Take(wheel, pump, SLOW), cur)
  {
    forall n: Moment
      ensures Scheduled(Take(wheel, pump, SLOW), cur, n, SLOW) == 0
    {
      TakeRemoves(wheel, cur, pump, SLOW, n, SLOW);
    }
  }

  lemma PutPump(wheel: Slots, cur: nat, m: Moment)
    requires NoPump(wheel, cur) && cur <= m.bucket < cur + BUCKETS
    ensures OnePump(Put(wheel, m, SLOW), cur, m)
  {
    forall n: Moment
      ensures Scheduled(Put(wheel, m, SLOW), cur, n, SLOW) == if n == m then 1 else 0
    {
      PutAdds(wheel, cur, m, SLOW, n, SLOW);
    }
  }

  /** A pump taken off a wheel where it is alone leaves the wheel ready for the next lap. */
  lemma SlowIsPump(wheel: Slots, cur: nat, pump: Moment, w: u64)
    requires OnePump(wheel, cur, pump) && w in wheel[Slot(cur)] && Bits(w) == SLOW
    ensures Moment(cur, Priority(w)) == pump
  {
    WordScheduled(wheel, cur, w);
  }
}
