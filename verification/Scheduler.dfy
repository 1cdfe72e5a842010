/** The scheduler object of src/sch.c: schedule, pop and the slow pump, refining one priority queue. */
module Scheduler {
  import opened Machine
  import opened Wheel
  import Pq

  /** One event the pump moved from the slow heap to the wheel. */
  datatype Move = Move(word: u64, at: Moment)

  /** It lands on its second, or up to the spreading jitter after; a bell lands exactly on it. */
  predicate MoveOk(v: Move) {
    var due := Priority(v.word) * S_TO_NS;
    if Bell(Bits(v.word)) then v.at.Ns() == due else due <= v.at.Ns() < due + JITTER
  }

  /** The wheel with the moved events in it. */
  function WithMoves(wheel: Slots, moves: seq<Move>): Slots {
    if moves == [] then wheel else Put(WithMoves(wheel, moves[..|moves| - 1]), moves[|moves| - 1].at, Bits(moves[|moves| - 1].word))
  }

  function MovedWords(moves: seq<Move>): multiset<u64> {
    if moves == [] then multiset{} else MovedWords(moves[..|moves| - 1]) + multiset{moves[|moves| - 1].word}
  }

  class Sch {
    var now: u32             // nanoseconds into the current bucket
    var bucket: nat          // bucket spans since the start
    const buckets: seq<Pq.Queue>
    const slowBucket: Pq.Queue

    ghost var wheel: Slots   // what the bucket heaps hold
    ghost var slow: multiset<u64>
    ghost var pump: Moment   // when the pump's event fires next

    ghost function Objs(): set<object>
      reads buckets, slowBucket
    {
      {slowBucket, slowBucket.heap} + (set q | q in buckets :: q as object) + (set q | q in buckets :: q.heap as object)
    }

    /** Sixty-five heaps that share nothing, holding what the ghost state says. */
    ghost predicate Stored()
      reads `wheel, `slow, buckets, slowBucket, Objs()
    {
      && |buckets| == BUCKETS
      && (forall i, j | 0 <= i < j < BUCKETS :: buckets[i] != buckets[j] && buckets[i].heap != buckets[j].heap)
      && (forall i | 0 <= i < BUCKETS :: buckets[i] != slowBucket && buckets[i].heap != slowBucket.heap)
      && (forall i | 0 <= i < BUCKETS :: buckets[i].Valid() && buckets[i].Contents() == wheel[i])
      && slowBucket.Valid() && slowBucket.Contents() == slow
    }

    /** Room in every heap for everything the pump might move into it. */
    ghost predicate Roomy()
      reads buckets, slowBucket
    {
      forall i | 0 <= i < |buckets| :: buckets[i].current + slowBucket.current < Pq.INDEX_LIMIT
    }

    /** Room for k more. */
    ghost predicate RoomFor(k: nat)
      reads buckets, slowBucket
    {
      forall i | 0 <= i < |buckets| :: buckets[i].current + slowBucket.current + k < Pq.INDEX_LIMIT
    }

    /** At most k more events in the slow heap and any one bucket together. */
    twostate predicate GrewBy(k: nat)
      reads buckets, slowBucket
    {
      forall i | 0 <= i < |buckets| :: buckets[i].current + slowBucket.current <= old(buckets[i].current) + old(slowBucket.current) + k
    }

    function Clock(): Moment
      reads this
    {
      Moment(bucket, now)
    }

    ghost predicate Valid()
      reads this, buckets, slowBucket, Objs()
    {
      Stored() && WheelOk(wheel, slow, bucket, now, pump)
    }

    /** sch_init. */
    constructor ()
      ensures Stored() && fresh(Objs()) && bucket == 0 && now == 0
      ensures forall k | 0 <= k < BUCKETS :: wheel[k] == multiset{}
      ensures slow == multiset{}
    {
      hide Pq.Elems, Pq.HeapOk, Pq.Queue.Valid, Pq.Queue.Contents;
      var made: seq<Pq.Queue> := [];
      for i := 0 to BUCKETS
        invariant |made| == i
        invariant forall j | 0 <= j < i :: fresh(made[j]) && fresh(made[j].heap) && made[j].Valid() && made[j].Contents() == multiset{}
        invariant forall j, k | 0 <= j < k < i :: made[j] != made[k] && made[j].heap != made[k].heap
      {
        var q := new Pq.Queue();
        made := made + [q];
      }
      var s := new Pq.Queue();
      now, bucket, buckets, slowBucket := 0, 0, made, s;
      wheel, slow, pump := seq(BUCKETS, i => multiset{}), multiset{}, Moment(0, 0);
    }

    /** The slow heap is one of the objects, and has room. */
    lemma SlowHere()
      requires Stored() && Roomy()
      ensures slowBucket.current < Pq.INDEX_LIMIT && slowBucket in Objs() && slowBucket.heap in Objs()
      ensures slow == multiset{} <==> slowBucket.Contents() == multiset{}
      ensures slowBucket.Valid() && slowBucket.Contents() == slow
      ensures forall i | 0 <= i < |buckets| :: buckets[i] != slowBucket && buckets[i].heap != slowBucket.heap
    {
      assert buckets[0].current + slowBucket.current < Pq.INDEX_LIMIT;
    }

    lemma RoomForOne()
      ensures RoomFor(1) ==> Roomy()
    {
    }

    lemma NotMine()
      ensures this !in Objs()
    {
    }

    /** So is every bucket's heap. */
    lemma BucketHere(k: nat)
      requires Stored() && k < BUCKETS
      ensures |buckets| == BUCKETS && buckets[k] in Objs() && buckets[k].heap in Objs()
      ensures buckets[k].Valid() && buckets[k].Contents() == wheel[k]
      ensures buckets[k] != slowBucket && buckets[k].heap != slowBucket.heap
      ensures Roomy() ==> buckets[k].current < Pq.INDEX_LIMIT
    {
      assert buckets[k] in buckets;
    }

    /** The first pump, at time zero, before anything else is scheduled. */
    method Start()
      requires Stored() && Roomy() && bucket == 0 && now == 0 && slow == multiset{}
      requires forall k | 0 <= k < BUCKETS :: wheel[k] == multiset{}
      modifies `wheel, `pump, Objs()
      ensures Valid() && fresh(Objs() - old(Objs())) && slow == multiset{} && pump == Clock()
      ensures Added(seq(BUCKETS, i => multiset{}), wheel, bucket, 0, SLOW) && GrewBy(1)
    {
      hide Pq.Elems, Pq.HeapOk, Pq.Queue.Valid, Pq.Queue.Contents, Stored, Roomy, Put, Word;
      NotMine();
      AllEmpty(wheel);
      PumpAdded(wheel, 0);
      FastReach(0, 0, 0);
      PutPump(wheel, 0, Moment(0, 0));
      PutNoneOverdue(wheel, 0, 0, Moment(0, 0), SLOW);
      ScheduleFast(SLOW, 0);
      pump := Moment(0, 0);
    }

    // ---------- The heaps ----------

    method PushBucket(k: nat, w: u64)
      requires Stored() && k < BUCKETS && buckets[k].current < Pq.INDEX_LIMIT
      modifies `wheel, buckets[k], buckets[k].heap
      ensures Stored() && wheel == old(wheel)[k := old(wheel)[k] + multiset{w}]
      ensures fresh(Objs() - old(Objs()))
      ensures buckets[k].current == old(buckets[k].current) + 1
      ensures forall i | 0 <= i < BUCKETS && i != k :: buckets[i].current == old(buckets[i].current)
    {
      hide Pq.Elems, Pq.HeapOk, Pq.Queue.Valid, Pq.Queue.Contents;
      buckets[k].Push(w);
      wheel := wheel[k := wheel[k] + multiset{w}];
    }

    method PopBucket(k: nat) returns (w: u64)
      requires Stored() && k < BUCKETS && wheel[k] != multiset{} && buckets[k].current < Pq.INDEX_LIMIT
      modifies `wheel, buckets[k], buckets[k].heap
      ensures Stored() && Objs() == old(Objs())
      ensures w in old(wheel)[k] && forall x | x in old(wheel)[k] :: w <= x
      ensures wheel == old(wheel)[k := old(wheel)[k] - multiset{w}]
      ensures buckets[k].current == old(buckets[k].current) - 1
      ensures forall i | 0 <= i < BUCKETS && i != k :: buckets[i].current == old(buckets[i].current)
    {
      hide Pq.Elems, Pq.HeapOk, Pq.Queue.Valid, Pq.Queue.Contents, Word;
      assert buckets[k] in buckets;
      w := buckets[k].Pop();
      wheel := wheel[k := wheel[k] - multiset{w}];
    }

    method PushSlow(w: u64)
      requires Stored() && slowBucket.current < Pq.INDEX_LIMIT
      modifies `slow, slowBucket, slowBucket.heap
      ensures Stored() && slow == old(slow) + multiset{w}
      ensures fresh(Objs() - old(Objs()))
      ensures slowBucket.current == old(slowBucket.current) + 1
    {
      hide Pq.Elems, Pq.HeapOk, Pq.Queue.Valid, Pq.Queue.Contents;
      slowBucket.Push(w);
      slow := slow + multiset{w};
    }

    method PopSlow() returns (w: u64)
      requires Stored() && slow != multiset{} && slowBucket.current < Pq.INDEX_LIMIT
      modifies `slow, slowBucket, slowBucket.heap
      ensures Stored() && Objs() == old(Objs())
      ensures w in old(slow) && (forall x | x in old(slow) :: w <= x) && slow == old(slow) - multiset{w}
      ensures slowBucket.current == old(slowBucket.current) - 1
    {
      hide Pq.Elems, Pq.HeapOk, Pq.Queue.Valid, Pq.Queue.Contents, Word;
      w := slowBucket.Pop();
      slow := slow - multiset{w};
    }

    // ---------- sch_schedule ----------

    /** Into the wheel, at exactly now plus delta. */
    method ScheduleFast(bits: u32, delta: nat)
      requires Stored() && Roomy() && delta <= (BUCKETS - 1) * SPAN
      modifies `wheel, Objs()
      ensures Stored() && fresh(Objs() - old(Objs()))
      ensures wheel == Put(old(wheel), At(Clock().Ns() + delta), bits)
      ensures slow == old(slow) && slowBucket.current == old(slowBucket.current) && GrewBy(1)
    {
      hide Pq.Elems, Pq.HeapOk, Pq.Queue.Valid, Pq.Queue.Contents, Stored, Roomy, Objs;
      var sum := now + delta;
      NotMine();
      FastReach(bucket, now, delta);
      BucketHere(Slot(bucket + sum / SPAN));
      PushBucket(Slot(bucket + sum / SPAN), Word(sum % SPAN, bits));
    }

    /** Into the slow heap, at the first whole second not before it is due. */
    method ScheduleSlow(bits: u32, delta: nat, ghost second: u32)
      requires Stored() && Roomy()
      requires CeilSeconds(Clock().Ns() + delta) == second  // a 32-bit second, exactly when the word keeps it: SlowWordExact
      modifies `slow, Objs()
      ensures Stored() && fresh(Objs() - old(Objs()))
      ensures slow == old(slow) + multiset{Word(second, bits)} && GrewBy(1)
    {
      hide Pq.Elems, Pq.HeapOk, Pq.Queue.Valid, Pq.Queue.Contents, Stored, Roomy, Objs, Word;
      SlowHere();
      NotMine();
      var absoluteNs := bucket * SPAN + now + delta;
      var absoluteS := CeilSeconds(absoluteNs);
      SlowWordExact(absoluteS, bits);
      PushSlow(SlowWord(absoluteS, bits));
    }

    /** sch_schedule for everything but the pump's own event. */
    method Schedule(event: u64, delta: nat)
      requires Valid() && Roomy() && Bits(event) != SLOW
      requires delta > (BUCKETS - 1) * SPAN ==> CeilSeconds(Clock().Ns() + delta) < SPAN
      modifies `wheel, `slow, Objs()
      ensures Valid() && fresh(Objs() - old(Objs())) && GrewBy(1)
      ensures delta <= (BUCKETS - 1) * SPAN ==> slow == old(slow) && Added(old(wheel), wheel, bucket, Clock().Ns() + delta, Bits(event))
      ensures delta > (BUCKETS - 1) * SPAN ==> wheel == old(wheel) && AddedSlow(old(slow), slow, Clock().Ns() + delta, Bits(event))
    {
      hide Pq.Elems, Pq.HeapOk, Pq.Queue.Valid, Pq.Queue.Contents, Stored, Roomy, Objs, WheelOk, Put, Added, AddedSlow,
           Word, At;
      ghost var was := wheel;
      NotMine();
      if delta > (BUCKETS - 1) * SPAN {
        ScheduleSlow(Bits(event), delta, CeilSeconds(Clock().Ns() + delta));
        SlowPutOk(wheel, old(slow), bucket, now, pump, Bits(event), delta);
      } else {
        ScheduleFast(Bits(event), delta);
        FastPutOk(was, slow, bucket, now, pump, Bits(event), delta);
      }
    }

    // ---------- sch_pop ----------

    /** To the first occupied bucket: at most 63 steps, because the pump is always ahead. */
    method Advance()
      requires Stored() && WheelOk(wheel, slow, bucket, now, pump)
      modifies `bucket
      ensures Stored() && old(bucket) <= bucket <= pump.bucket && wheel[Slot(bucket)] != multiset{}
      ensures forall k | old(bucket) <= k < bucket :: wheel[Slot(k)] == multiset{}
    {
      hide Pq.Elems, Pq.HeapOk, Pq.Queue.Valid, Pq.Queue.Contents, Stored, Objs, WheelOk;
      NotMine();
      WheelParts(wheel, slow, bucket, now, pump);
      PumpThere(wheel, bucket, pump);
      BucketHere(Slot(bucket));
      if buckets[Slot(bucket)].IsEmpty() {
        bucket := bucket + 1;
        BucketHere(Slot(bucket));
        while buckets[Slot(bucket)].IsEmpty()
          invariant Stored() && old(bucket) <= bucket <= pump.bucket
          invariant |buckets| == BUCKETS && buckets[Slot(bucket)].Valid()
          invariant buckets[Slot(bucket)].Contents() == wheel[Slot(bucket)]
          invariant forall k | old(bucket) <= k < bucket :: wheel[Slot(k)] == multiset{}
          decreases pump.bucket - bucket
        {
          bucket := bucket + 1;
          BucketHere(Slot(bucket));
        }
      }
    }

    /** One slow event, to its second and a jitter (a bell to its second), which is never behind now. */
    method MigrateOne(currentTime: nat, ghost threshold: nat, jitter: nat) returns (ghost move: Move)
      requires Stored() && Roomy() && NoPump(wheel, bucket) && NoneOverdue(wheel, bucket, now) && SlowAhead(slow, Clock())
      requires slow != multiset{} && currentTime == Clock().Ns() && jitter < JITTER
      requires threshold == (currentTime + (BUCKETS - 2) * SPAN) / S_TO_NS && exists w :: w in slow && Priority(w) <= threshold
      modifies `wheel, `slow, Objs()
      ensures Stored() && Roomy() && fresh(Objs() - old(Objs()))
      ensures NoPump(wheel, bucket) && NoneOverdue(wheel, bucket, now) && SlowAhead(slow, Clock())
      ensures move.word in old(slow) && slow == old(slow) - multiset{move.word} && MoveOk(move)
      ensures wheel == Put(old(wheel), move.at, Bits(move.word)) && bucket <= move.at.bucket < bucket + BUCKETS
    {
      hide Pq.Elems, Pq.HeapOk, Pq.Queue.Valid, Pq.Queue.Contents, Stored, NoPump, NoneOverdue, SlowAhead, Word, At,
           Put, MoveOk, Bell;
      NotMine();
      SlowHere();
      var w := PopDue(threshold);
      var jittered := Lands(w, currentTime, jitter);
      move := Move(w, At(jittered));
      PutNoPump(wheel, bucket, move.at, Bits(w));
      PutNoneOverdue(wheel, bucket, now, move.at, Bits(w));
      PutSlot(wheel, jittered, Bits(w));
      BucketHere(Slot(jittered / SPAN));
      PushBucket(Slot(jittered / SPAN), Word(jittered % SPAN, Bits(w)));
    }

    /** The least slow event, which is due by the threshold. */
    method PopDue(ghost threshold: nat) returns (w: u64)
      requires Stored() && Roomy() && SlowAhead(slow, Clock()) && exists x :: x in slow && Priority(x) <= threshold
      modifies `slow, slowBucket, slowBucket.heap
      ensures Stored() && Objs() == old(Objs()) && SlowAhead(slow, Clock())
      ensures w in old(slow) && slow == old(slow) - multiset{w} && slowBucket.current == old(slowBucket.current) - 1
      ensures Priority(w) <= threshold && Bits(w) != SLOW && Clock().Ns() < Priority(w) * S_TO_NS
    {
      hide Pq.Elems, Pq.HeapOk, Pq.Queue.Valid, Pq.Queue.Contents, Stored, Word;
      ghost var low :| low in slow && Priority(low) <= threshold;
      SlowHere();
      w := PopSlow();
      WordOrder(w, low);
    }

    /** Its second and a jitter, or a bell's second: on this lap, and never behind now. */
    method Lands(w: u64, currentTime: nat, jitter: nat) returns (jittered: int)
      requires currentTime == Clock().Ns() && currentTime < Priority(w) * S_TO_NS && jitter < JITTER
      requires Priority(w) <= (currentTime + (BUCKETS - 2) * SPAN) / S_TO_NS
      ensures jittered >= 0 && MoveOk(Move(w, At(jittered))) && jittered == Priority(w) * S_TO_NS + if Bell(Bits(w)) then 0 else jitter
      ensures var m := At(jittered); bucket <= m.bucket < bucket + BUCKETS && (m.bucket == bucket ==> now <= m.offset)
    {
      hide Bell, Bits, Priority, At;
      jittered := Priority(w) * S_TO_NS;
      var spread := if Bell(Bits(w)) then 0 else jitter;
      jittered := jittered + spread;
      MigrationReach(bucket, now, Priority(w), spread);
      if jittered <= currentTime {
        jittered := currentTime + 1;
      }
    }

    /** The pump reschedules itself, 62 spans on. */
    method NextPump()
      requires Stored() && Roomy() && NoPump(wheel, bucket) && NoneOverdue(wheel, bucket, now)
      requires forall w | w in slow :: Bits(w) != SLOW && Clock().Ns() + (BUCKETS - 2) * SPAN < Priority(w) * S_TO_NS
      modifies `wheel, `pump, Objs()
      ensures Valid() && fresh(Objs() - old(Objs()))
      ensures slow == old(slow) && pump == At(Clock().Ns() + (BUCKETS - 2) * SPAN)
      ensures wheel == Put(old(wheel), pump, SLOW) && bucket <= pump.bucket < bucket + BUCKETS
    {
      hide Pq.Elems, Pq.HeapOk, Pq.Queue.Valid, Pq.Queue.Contents, Stored, Roomy, Objs, Word, At, Put, NoPump,
           NoneOverdue, OnePump;
      NotMine();
      var delta := (BUCKETS - 2) * SPAN;
      FastReach(bucket, now, delta);
      ghost var next := At(Clock().Ns() + delta);
      PutPump(wheel, bucket, next);
      PutNoneOverdue(wheel, bucket, now, next, SLOW);
      ScheduleFast(SLOW, delta);
      pump := next;
    }

    /** The pump's work: every slow event up to the threshold moves into the wheel. */
    method Migrate() returns (ghost moves: seq<Move>)
      requires Stored() && Roomy() && NoPump(wheel, bucket) && NoneOverdue(wheel, bucket, now) && SlowAhead(slow, Clock())
      modifies `wheel, `slow, Objs()
      ensures Stored() && Roomy() && fresh(Objs() - old(Objs()))
      ensures NoPump(wheel, bucket) && NoneOverdue(wheel, bucket, now)
      ensures wheel == WithMoves(old(wheel), moves) && slow + MovedWords(moves) == old(slow)
      ensures (forall v | v in moves :: MoveOk(v)) && InReach(moves, bucket)
      ensures forall w | w in slow :: Bits(w) != SLOW && Clock().Ns() + (BUCKETS - 2) * SPAN < Priority(w) * S_TO_NS
    {
      hide Pq.Elems, Pq.HeapOk, Pq.Queue.Valid, Pq.Queue.Contents, Stored, Roomy, Put, WithMoves, MovedWords, MoveOk,
           Word, NoPump, NoneOverdue, SlowAhead;
      NotMine();
      SlowHere();
      var currentTime := bucket * SPAN + now;
      var threshold := (currentTime + (BUCKETS - 2) * SPAN) / S_TO_NS;
      moves := [];
      NoMoves(wheel);
      while !slowBucket.IsEmpty()
        invariant Stored() && Roomy() && fresh(Objs() - old(Objs()))
        invariant slowBucket.Valid() && slowBucket.Contents() == slow
        invariant NoPump(wheel, bucket) && NoneOverdue(wheel, bucket, now) && SlowAhead(slow, Clock())
        invariant wheel == WithMoves(old(wheel), moves) && slow + MovedWords(moves) == old(slow)
        invariant (forall v | v in moves :: MoveOk(v)) && InReach(moves, bucket)
        decreases |slow|
      {
        if Priority(slowBucket.Peek()) > threshold {
          AllPast(slow, slowBucket.Peek(), Clock(), threshold);
          return;
        }
        var jitter: nat :| jitter < JITTER;
        ghost var had, was, done := slow, wheel, moves;
        ghost var move := MigrateOne(currentTime, threshold, jitter);
        moves := done + [move];
        MovesNext(old(wheel), done, move);
        SlowHere();
      }
    }

    /** The next event of all, by time and then by event bits. A pump event also brings the slow
    events that come into range over to the wheel and schedules the next pump. */
    method Pop() returns (event: u64, ghost moves: seq<Move>)
      requires Valid() && Roomy()
      modifies this, Objs()
      ensures Valid() && fresh(Objs() - old(Objs()))
      ensures old(Clock().Ns()) <= Clock().Ns() && bucket < old(bucket) + BUCKETS
      ensures Clock().offset == Priority(event)
      ensures Scheduled(old(wheel), old(bucket), Clock(), Bits(event)) > 0
      ensures NextOfAll(old(wheel), old(slow), old(bucket), Clock(), Bits(event))
      ensures Bits(event) != SLOW ==> moves == [] && slow == old(slow) && pump == old(pump)
      ensures Bits(event) != SLOW ==> Removed(old(wheel), old(bucket), wheel, bucket, Clock(), Bits(event))
      ensures Bits(event) == SLOW ==> Clock() == old(pump) && pump == At(Clock().Ns() + (BUCKETS - 2) * SPAN)
      ensures Bits(event) == SLOW ==> slow + MovedWords(moves) == old(slow) && forall v | v in moves :: MoveOk(v)
      ensures Bits(event) == SLOW ==> Pumped(old(wheel), old(bucket), wheel, bucket, Clock(), pump, moves)
      ensures Bits(event) != SLOW ==> GrewBy(0)
    {
      hide Pumped, InReach, MovedTo, Roomy, Pq.Elems, Pq.HeapOk, Pq.Queue.Valid, Pq.Queue.Contents, Stored, WheelOk,
           Scheduled, Removed, NoPump, NoneOverdue, Put, Take, WithMoves, MovedWords, MoveOk, NextOfAll, At;
      event := TakeNext();
      moves := [];
      if Bits(event) == SLOW {
        ghost var taken := wheel;
        moves := Pump();
        PumpAdds(old(wheel), old(bucket), taken, bucket, Clock(), pump, moves);
      }
    }

    method Pump() returns (ghost moves: seq<Move>)
      requires Stored() && Roomy() && NoPump(wheel, bucket) && NoneOverdue(wheel, bucket, now) && SlowAhead(slow, Clock())
      modifies `wheel, `slow, `pump, Objs()
      ensures Valid() && fresh(Objs() - old(Objs()))
      ensures pump == At(Clock().Ns() + (BUCKETS - 2) * SPAN)
      ensures slow + MovedWords(moves) == old(slow) && forall v | v in moves :: MoveOk(v)
      ensures wheel == Put(WithMoves(old(wheel), moves), pump, SLOW) && InReach(moves, bucket)
      ensures bucket <= pump.bucket < bucket + BUCKETS
    {
      hide Pq.Elems, Pq.HeapOk, Pq.Queue.Valid, Pq.Queue.Contents, Stored, Roomy, WheelOk, NoPump, NoneOverdue, Put,
           WithMoves, MovedWords, MoveOk, At;
      moves := Migrate();
      NextPump();
    }

    /** The next event of all, out of its bucket, and the clock at its time. */
    method TakeNext() returns (event: u64)
      requires Valid() && Roomy()
      modifies `bucket, `now, `wheel, Objs()
      ensures Stored() && Roomy() && Objs() == old(Objs())
      ensures old(Clock().Ns()) <= Clock().Ns() && bucket < old(bucket) + BUCKETS && now == Priority(event)
      ensures Scheduled(old(wheel), old(bucket), Clock(), Bits(event)) > 0
      ensures NextOfAll(old(wheel), slow, old(bucket), Clock(), Bits(event))
      ensures wheel == Take(old(wheel), Clock(), Bits(event))
      ensures Removed(old(wheel), old(bucket), wheel, bucket, Clock(), Bits(event)) && GrewBy(0)
      ensures Bits(event) != SLOW ==> WheelOk(wheel, slow, bucket, now, pump)
      ensures Bits(event) == SLOW ==> Clock() == pump && NoPump(wheel, bucket) && NoneOverdue(wheel, bucket, now) && SlowAhead(slow, Clock())
    {
      hide Pq.Elems, Pq.HeapOk, Pq.Queue.Valid, Pq.Queue.Contents, Stored, Objs, WheelOk, Scheduled, Removed, NoPump,
           NoneOverdue, SlowAhead, Take, NextOfAll, At;
      NotMine();
      ghost var was, from, start := wheel, bucket, now;
      Advance();
      PumpInReach(was, slow, from, start, pump);
      BucketHere(Slot(bucket));
      event := PopBucket(Slot(bucket));
      PopOk(was, slow, from, start, bucket, event, pump);
      now := Priority(event);
    }
  }

  // ---------- Popping ----------

  /** No pending event, in the wheel or slow, comes before this one. */
  ghost predicate NextOfAll(wheel: Slots, slow: multiset<u64>, cur: nat, at: Moment, bits: u32) {
    && (forall n: Moment, b: u32 | Scheduled(wheel, cur, n, b) > 0 :: at.Ns() < n.Ns() || (at == n && bits <= b))
    && (forall w | w in slow :: at.Ns() < Priority(w) * S_TO_NS)
  }

  /** Exactly this event is gone, at the bucket where the wheel now stands. */
  ghost predicate Removed(was: Slots, from: nat, now: Slots, cur: nat, at: Moment, bits: u32) {
    forall n: Moment, b: u32 :: Scheduled(now, cur, n, b) == Scheduled(was, from, n, b) - (if n == at && b == bits then 1 else 0)
  }

  /** Everything Pop promises of the event it takes, before any pumping. */
  lemma PopOk(was: Slots, slow: multiset<u64>, from: nat, start: u32, cur: nat, w: u64, pump: Moment)
    requires WheelOk(was, slow, from, start, pump) && from <= cur <= pump.bucket
    requires forall k | from <= k < cur :: was[Slot(k)] == multiset{}
    requires w in was[Slot(cur)] && forall x | x in was[Slot(cur)] :: w <= x
    ensures var at := Moment(cur, Priority(w)); var now := Take(was, at, Bits(w));
            && Moment(from, start).Ns() <= at.Ns()
            && Scheduled(was, from, at, Bits(w)) > 0
            && NextOfAll(was, slow, from, at, Bits(w))
            && now == was[Slot(cur) := was[Slot(cur)] - multiset{w}]
            && Removed(was, from, now, cur, at, Bits(w))
            && (Bits(w) != SLOW ==> WheelOk(now, slow, cur, Priority(w), pump))
            && (Bits(w) == SLOW ==> at == pump && NoPump(now, cur) && NoneOverdue(now, cur, Priority(w)) && SlowAhead(slow, at))
  {
    hide WheelOk;
    var at := Moment(cur, Priority(w));
    WheelParts(was, slow, from, start, pump);
    forall n: Moment, b: u32
      ensures Scheduled(was, cur, n, b) == Scheduled(was, from, n, b)
    {
      AdvanceKeeps(was, from, cur, n, b);
    }
    PartsWord(w);
    WordScheduled(was, cur, w);
    RestNotOverdue(was, cur, w);
    forall n: Moment, b: u32 | Scheduled(was, from, n, b) > 0
      ensures at.Ns() < n.Ns() || (at == n && Bits(w) <= b)
    {
      LeastOfAll(was, from, cur, w, n, b);
    }
    assert at.Ns() <= pump.Ns() by {
      assert Scheduled(was, from, pump, SLOW) == 1;
    }
    forall n: Moment, b: u32
      ensures Scheduled(Take(was, at, Bits(w)), cur, n, b) == Scheduled(was, from, n, b) - (if n == at && b == Bits(w) then 1 else 0)
    {
      TakeRemoves(was, cur, at, Bits(w), n, b);
    }
    if Bits(w) == SLOW {
      SlowIsPump(was, cur, pump, w);
      TakePump(was, cur, pump);
    } else {
      TakeOk(was, slow, cur, w, pump);
    }
  }

  lemma PumpInReach(wheel: Slots, slow: multiset<u64>, cur: nat, now: u32, pump: Moment)
    requires WheelOk(wheel, slow, cur, now, pump)
    ensures pump.bucket < cur + BUCKETS
  {
  }

  lemma WheelParts(wheel: Slots, slow: multiset<u64>, cur: nat, now: u32, pump: Moment)
    requires WheelOk(wheel, slow, cur, now, pump)
    ensures NoneOverdue(wheel, cur, now) && OnePump(wheel, cur, pump) && SlowAhead(slow, pump)
    ensures Moment(cur, now).Ns() <= pump.Ns() <= Moment(cur, now).Ns() + (BUCKETS - 2) * SPAN
  {
  }

  // ---------- Moves ----------

  // ---------- What the pump moved ----------

  /** Every moved event lies on the wheel's present lap. */
  ghost predicate InReach(moves: seq<Move>, cur: nat) {
    forall v | v in moves :: cur <= v.at.bucket < cur + BUCKETS
  }

  /** How often an event was moved to a moment. */
  function MovedTo(moves: seq<Move>, n: Moment, b: u32): nat {
    if moves == [] then 0
    else MovedTo(moves[..|moves| - 1], n, b) + (if moves[|moves| - 1].at == n && Bits(moves[|moves| - 1].word) == b then 1 else 0)
  }

  /** The pump's event is gone, every moved event is there at its moment, and so is the next pump. */
  ghost predicate Pumped(was: Slots, from: nat, now: Slots, cur: nat, at: Moment, pump: Moment, moves: seq<Move>) {
    forall n: Moment, b: u32 ::
      Scheduled(now, cur, n, b) == Scheduled(was, from, n, b) + MovedTo(moves, n, b)
                                   + (if b == SLOW && n == pump then 1 else 0) - (if b == SLOW && n == at then 1 else 0)
  }

  lemma {:induction false} MovesAdd(wheel: Slots, cur: nat, moves: seq<Move>, n: Moment, b: u32)
    requires InReach(moves, cur)
    ensures Scheduled(WithMoves(wheel, moves), cur, n, b) == Scheduled(wheel, cur, n, b) + MovedTo(moves, n, b)
  {
    if moves != [] {
      var rest, v := moves[..|moves| - 1], moves[|moves| - 1];
      assert v in moves;
      MovesAdd(wheel, cur, rest, n, b);
      PutAdds(WithMoves(wheel, rest), cur, v.at, Bits(v.word), n, b);
    }
  }

  lemma PumpAdds(was: Slots, from: nat, taken: Slots, cur: nat, at: Moment, pump: Moment, moves: seq<Move>)
    requires Removed(was, from, taken, cur, at, SLOW) && InReach(moves, cur) && cur <= pump.bucket < cur + BUCKETS
    ensures Pumped(was, from, Put(WithMoves(taken, moves), pump, SLOW), cur, at, pump, moves)
  {
    hide Scheduled, Put;
    forall n: Moment, b: u32
      ensures Scheduled(Put(WithMoves(taken, moves), pump, SLOW), cur, n, b)
              == Scheduled(was, from, n, b) + MovedTo(moves, n, b)
                 + (if b == SLOW && n == pump then 1 else 0) - (if b == SLOW && n == at then 1 else 0)
    {
      MovesAdd(taken, cur, moves, n, b);
      PutAdds(WithMoves(taken, moves), cur, pump, SLOW, n, b);
      assert Scheduled(taken, cur, n, b) == Scheduled(was, from, n, b) - (if n == at && b == SLOW then 1 else 0);
    }
  }

  lemma NoMoves(wheel: Slots)
    ensures WithMoves(wheel, []) == wheel && MovedWords([]) == multiset{}
  {
  }

  lemma MovesNext(wheel: Slots, moves: seq<Move>, v: Move)
    ensures WithMoves(wheel, moves + [v]) == Put(WithMoves(wheel, moves), v.at, Bits(v.word))
    ensures MovedWords(moves + [v]) == MovedWords(moves) + multiset{v.word}
  {
    assert (moves + [v])[..|moves|] == moves;
  }

  lemma PutSlot(wheel: Slots, ns: nat, bits: u32)
    ensures Put(wheel, At(ns), bits) == wheel[Slot(ns / SPAN) := wheel[Slot(ns / SPAN)] + multiset{Word(ns % SPAN, bits)}]
  {
  }

  /** When the least second is past the threshold, all are. */
  lemma AllPast(slow: multiset<u64>, least: u64, clock: Moment, threshold: nat)
    requires SlowAhead(slow, clock)
    requires least in slow && (forall x | x in slow :: least <= x) && Priority(least) > threshold
    requires threshold == (clock.Ns() + (BUCKETS - 2) * SPAN) / S_TO_NS
    ensures forall w | w in slow :: Bits(w) != SLOW && clock.Ns() + (BUCKETS - 2) * SPAN < Priority(w) * S_TO_NS
  {
    forall w | w in slow
      ensures clock.Ns() + (BUCKETS - 2) * SPAN < Priority(w) * S_TO_NS
    {
      WordOrder(least, w);
      PastThreshold(clock.Ns(), Priority(w));
    }
  }

  lemma PumpThere(wheel: Slots, cur: nat, pump: Moment)
    requires OnePump(wheel, cur, pump)
    ensures wheel[Slot(pump.bucket)] != multiset{}
  {
    assert Scheduled(wheel, cur, pump, SLOW) == 1;
  }

  /** A slow event never fires early, and less than a second and a jitter late; a bell due on a
  whole second fires exactly then. */
  lemma SlowLate(v: Move, due: nat, bits: u32)
    requires MoveOk(v) && Rounded(v.word, due, bits)
    ensures due <= v.at.Ns() < due + S_TO_NS + JITTER
    ensures Bell(bits) && due % S_TO_NS == 0 ==> v.at.Ns() == due
  {
  }

  /** The word of a slow event: its second is the first at or after the due time. */
  ghost predicate Rounded(w: u64, due: nat, bits: u32) {
    && Bits(w) == bits
    && due <= Priority(w) * S_TO_NS < due + S_TO_NS
    && (due % S_TO_NS == 0 ==> Priority(w) * S_TO_NS == due)
  }

  /** Exactly one more event, at exactly this time. */
  ghost predicate Added(was: Slots, now: Slots, cur: nat, ns: nat, bits: u32) {
    forall n: Moment, b: u32 :: Scheduled(now, cur, n, b) == Scheduled(was, cur, n, b) + (if n.Ns() == ns && b == bits then 1 else 0)
  }

  ghost predicate AddedSlow(was: multiset<u64>, now: multiset<u64>, due: nat, bits: u32) {
    exists w :: Rounded(w, due, bits) && now == was + multiset{w}
  }

  lemma AllEmpty(wheel: Slots)
    requires forall k | 0 <= k < BUCKETS :: wheel[k] == multiset{}
    ensures wheel == seq(BUCKETS, i => multiset{})
  {
  }

  lemma PumpAdded(wheel: Slots, cur: nat)
    ensures Added(wheel, Put(wheel, Moment(cur, 0), SLOW), cur, Moment(cur, 0).Ns(), SLOW)
  {
    hide Scheduled, Put;
    forall n: Moment, b: u32
      ensures Scheduled(Put(wheel, Moment(cur, 0), SLOW), cur, n, b)
              == Scheduled(wheel, cur, n, b) + (if n.Ns() == Moment(cur, 0).Ns() && b == SLOW then 1 else 0)
    {
      PutAdds(wheel, cur, Moment(cur, 0), SLOW, n, b);
      AtNs(n);
      AtNs(Moment(cur, 0));
    }
  }

  lemma SlowPutOk(wheel: Slots, slow: multiset<u64>, cur: nat, now: u32, pump: Moment, bits: u32, delta: nat)
    requires WheelOk(wheel, slow, cur, now, pump) && bits != SLOW && delta > (BUCKETS - 1) * SPAN
    requires CeilSeconds(Moment(cur, now).Ns() + delta) < SPAN
    ensures var w := Word(CeilSeconds(Moment(cur, now).Ns() + delta), bits);
            AddedSlow(slow, slow + multiset{w}, Moment(cur, now).Ns() + delta, bits) && WheelOk(wheel, slow + multiset{w}, cur, now, pump)
  {
    var due := Moment(cur, now).Ns() + delta;
    CeilSecond(due);
    WordParts(CeilSeconds(due), bits);
    assert Rounded(Word(CeilSeconds(due), bits), due, bits);
  }

  lemma FastPutOk(wheel: Slots, slow: multiset<u64>, cur: nat, now: u32, pump: Moment, bits: u32, delta: nat)
    requires WheelOk(wheel, slow, cur, now, pump) && bits != SLOW && delta <= (BUCKETS - 1) * SPAN
    ensures var m := At(Moment(cur, now).Ns() + delta);
            WheelOk(Put(wheel, m, bits), slow, cur, now, pump)
    ensures Added(wheel, Put(wheel, At(Moment(cur, now).Ns() + delta), bits), cur, Moment(cur, now).Ns() + delta, bits)
  {
    var m := At(Moment(cur, now).Ns() + delta);
    FastReach(cur, now, delta);
    PutOk(wheel, slow, cur, now, pump, m, bits);
    forall n: Moment, b: u32
      ensures Scheduled(Put(wheel, m, bits), cur, n, b)
              == Scheduled(wheel, cur, n, b) + (if n.Ns() == Moment(cur, now).Ns() + delta && b == bits then 1 else 0)
    {
      PutAdds(wheel, cur, m, bits, n, b);
      AtNs(n);
    }
  }
}
