/** The growing free list of ids and their slots (src/fl.c): an id is never minted while it is live,
the id announced is the id minted, and a live slot keeps its value across growth. */
module FreeList {
  import opened Machine

  // include/fl.h
  const FL_INITIAL_CAPACITY: u32 := 8192
  const LAST_CAPACITY: u32 := 0x8000_0000  // twice this does not fit 32 bits

  datatype Option<T> = None | Some(value: T)

  /** The capacities the list grows through. */
  predicate IsCapacity(n: nat) {
    Doubled(n, FL_INITIAL_CAPACITY)
  }

  /** Free ids are distinct, in range and not live. */
  ghost predicate FreeOk(stack: seq<u32>, sp: nat, live: set<u32>) {
    && (forall i | sp < i < |stack| :: 0 < stack[i] < |stack| && stack[i] !in live)
    && (forall i, j | sp < i < j < |stack| :: stack[i] != stack[j])
  }

  /** Beyond the highest place the stack pointer has reached, every place still holds its own number,
  and no id beyond it has been minted. */
  ghost predicate MarkOk(stack: seq<u32>, sp: nat, high: nat, live: set<u32>) {
    && sp <= high < |stack|
    && (forall i | high < i < |stack| :: stack[i] == i)
    && (forall i | sp < i <= high :: stack[i] <= high)
    && (forall id | id in live :: id <= high)
  }

  lemma Minted(stack: seq<u32>, sp: nat, high: nat, live: set<u32>)
    requires sp + 1 < |stack| && FreeOk(stack, sp, live) && MarkOk(stack, sp, high, live)
    ensures var id, now := stack[sp + 1], if sp + 1 > high then sp + 1 else high;
            && FreeOk(stack, sp + 1, live + {id}) && MarkOk(stack, sp + 1, now, live + {id})
            && 0 < id < |stack| && id !in live
            && if sp + 1 > high then id == sp + 1 else id <= high
  {
  }

  lemma Returned(stack: seq<u32>, sp: nat, high: nat, live: set<u32>, id: u32)
    requires 0 < sp < |stack| && id in live && 0 < id < |stack| && FreeOk(stack, sp, live) && MarkOk(stack, sp, high, live)
    ensures FreeOk(stack[sp := id], sp - 1, live - {id}) && MarkOk(stack[sp := id], sp - 1, high, live - {id})
  {
  }

  lemma GrownOk(was: seq<u32>, stack: seq<u32>, high: nat, live: set<u32>)
    requires |was| > 0 && MarkOk(was, |was| - 1, high, live)
    requires |stack| == 2 * |was| && forall j | |was| <= j < |stack| :: stack[j] == j
    ensures FreeOk(stack, |was|, live) && MarkOk(stack, |was|, |was|, live)
  {
  }

  class FreeList<T(0)> {
    var stack: array<u32>    // the free ids lie above sp
    var data: array<T>
    var sp: u32
    var capacity: u32
    const idLimit: u32
    ghost var live: set<u32>
    ghost var high: nat      // the highest sp so far

    ghost predicate Shaped()
      reads this, stack, data
    {
      && stack as object != data && stack.Length == data.Length == capacity && sp < capacity && IsCapacity(capacity)
      && (capacity > FL_INITIAL_CAPACITY ==> capacity <= 2 * high)
    }

    ghost predicate Valid()
      reads this, stack, data
    {
      && Shaped() && FreeOk(stack[..], sp, live) && MarkOk(stack[..], sp, high, live)
      && (forall id | id in live :: 0 < id < capacity)
      && |live| <= sp
      && (!IsCapacity(idLimit) ==> high <= idLimit)
    }

    constructor (idLimit: u32)
      ensures Valid() && fresh(stack) && fresh(data) && live == {} && this.idLimit == idLimit
      ensures sp == high == 0 && capacity == FL_INITIAL_CAPACITY
    {
      stack := new u32[FL_INITIAL_CAPACITY](i => if 0 <= i < FL_INITIAL_CAPACITY then i else 0);
      data := new T[FL_INITIAL_CAPACITY];
      sp, capacity, live, high := 0, FL_INITIAL_CAPACITY, {}, 0;
      this.idLimit := idLimit;
    }

    /** The id the next insert takes, once there is room. */
    function Top(): u32
      reads this, stack
      requires sp + 1 < stack.Length
    {
      stack[sp + 1]
    }

    /** The place on the stack the next insert takes its id from: doubling skips one. */
    ghost function Place(): nat
      reads this
    {
      if sp + 1 < capacity then sp + 1 else capacity + 1
    }

    lemma Bounds()
      requires Valid()
      ensures sp <= high < capacity && IsCapacity(capacity)
    {
    }

    /** fl_ready; false where the program stops: at the id limit, or at the last capacity. */
    method Ready() returns (ok: bool)
      requires Valid()
      modifies this
      ensures Valid() && live == old(live) && (ok ==> Place() == old(Place()) && sp + 1 < capacity)
      ensures ok <==> old(sp != idLimit && (sp + 1 < capacity || capacity < LAST_CAPACITY))
      ensures !ok || old(sp + 1 < capacity) ==> sp == old(sp) && high == old(high) && stack == old(stack) && data == old(data)
      ensures ok && old(sp + 1 == capacity) ==> fresh(stack) && fresh(data) && sp == high == old(capacity) && Top() == old(capacity) + 1
      ensures KeepsSlots(old(data[..]), data[..], live)
    {
      if sp == idLimit {
        return false;
      }
      if sp + 1 >= capacity {
        if capacity >= LAST_CAPACITY {
          return false;
        }
        Double();
      }
      ok := true;
    }

    /** Twice the ids; the first new one stays below the stack pointer, out of circulation. */
    method Double()
      requires Valid() && sp + 1 == capacity < LAST_CAPACITY && sp != idLimit
      modifies this
      ensures Valid() && live == old(live)
      ensures fresh(stack) && fresh(data) && sp == high == old(capacity) && capacity == 2 * old(capacity)
      ensures Top() == old(capacity) + 1
      ensures KeepsSlots(old(data[..]), data[..], live)
    {
      hide FreeOk, MarkOk;
      MarkBounds(stack[..], sp, high, live);
      var doubledStack := new u32[2 * capacity];
      for i := capacity to 2 * capacity
        invariant forall j | capacity <= j < i :: doubledStack[j] == j
        modifies doubledStack
      {
        doubledStack[i] := i;
      }
      var doubledData := new T[2 * capacity];
      for i := 0 to capacity
        invariant doubledData[..i] == data[..i]
        modifies doubledData
      {
        doubledData[i] := data[i];
      }
      GrownOk(stack[..], doubledStack[..], high, live);
      high := capacity;
      stack, data, sp, capacity := doubledStack, doubledData, capacity, 2 * capacity;
    }

    /** fl_next_id: an announcement that changes nothing anyone can see. */
    method NextId() returns (id: Option<u32>)
      requires Valid()
      modifies this
      ensures Valid() && live == old(live) && KeepsSlots(old(data[..]), data[..], live)
      ensures stack == old(stack) || fresh(stack)
      ensures data == old(data) || fresh(data)
      ensures id.Some? ==> sp + 1 < capacity && id.value == Top() && id.value !in live && Place() == old(Place())
      ensures id.Some? ==> (high == old(high) && sp == old(sp)) || (high == sp == old(capacity) && old(sp + 1 == capacity))
      ensures id.Some? && !IsCapacity(idLimit) ==> sp != idLimit
    {
      var ok := Ready();
      id := if ok then Some(stack[sp + 1]) else None;
    }

    /** fl_insert: an id that is not live becomes live. An id at or above the limit, which the list
    means to keep back, is minted for the first time exactly when the stack pointer is one below the
    limit, or doubling skips to it; then it is the limit itself, or one more if the limit is a
    capacity. */
    method Insert(value: T) returns (id: Option<u32>)
      requires Valid()
      modifies this, stack, data
      ensures Valid() && (stack == old(stack) || fresh(stack)) && (data == old(data) || fresh(data))
      ensures id.None? <==> old(sp == idLimit || (sp + 1 == capacity && capacity >= LAST_CAPACITY))
      ensures id.None? ==> live == old(live)
      ensures id.Some? ==> id.value !in old(live) && live == old(live) + {id.value} && data[id.value] == value
      ensures id.Some? && old(sp + 1 < capacity) ==> id.value == old(stack[sp + 1]) && capacity == old(capacity)
      ensures id.Some? && old(sp + 1 == capacity) ==> id.value == old(capacity) + 1
      ensures id.Some? ==> sp == old(Place()) && high == if old(Place() > high) then old(Place()) else old(high)
      ensures id.Some? ==> if old(Place() > high) then id.value == old(Place()) else id.value <= old(high)
      ensures id.Some? && old(high) < idLimit ==>
                (id.value >= idLimit <==> old(sp + 1 == idLimit || (sp + 1 == capacity && capacity + 1 == idLimit)))
      ensures id.Some? && old(high) < idLimit <= id.value ==> id.value == idLimit + if IsCapacity(idLimit) then 1 else 0
      ensures id.Some? && !IsCapacity(idLimit) ==> id.value <= idLimit
      ensures KeepsSlots(old(data[..]), data[..], old(live))
    {
      hide FreeOk, MarkOk, IsCapacity;
      MarkBounds(stack[..], sp, high, live);
      ghost var from, room, mark := sp, capacity, high;
      LimitRoom(sp, capacity, high, idLimit);
      var ok := Ready();
      if !ok {
        return None;
      }
      var taken := Take(value);
      FirstPast(from, room, mark, idLimit, taken);
      id := Some(taken);
    }

    /** The id on top, and its slot. */
    method Take(value: T) returns (id: u32)
      requires Valid() && sp + 1 < capacity && (!IsCapacity(idLimit) ==> sp + 1 <= idLimit)
      modifies `sp, `high, `live, data
      ensures Valid() && sp == old(sp) + 1 && high == (if sp > old(high) then sp else old(high))
      ensures id == old(Top()) && id !in old(live) && live == old(live) + {id} && data[id] == value
      ensures if sp > old(high) then id == sp else id <= old(high)
      ensures KeepsSlots(old(data[..]), data[..], old(live))
    {
      hide FreeOk, MarkOk, IsCapacity;
      Minted(stack[..], sp, high, live);
      sp := sp + 1;
      high := if sp > high then sp else high;
      id := stack[sp];
      live := live + {id};
      data[id] := value;
    }

    /** fl_release of a live id. */
    method Release(id: u32)
      requires Valid() && id in live
      modifies this, stack
      ensures Valid() && stack == old(stack) && data == old(data) && high == old(high)
      ensures live == old(live) - {id} && sp + 1 < capacity && Top() == id
    {
      assert |live - {id}| == |live| - 1;
      Returned(stack[..], sp, high, live, id);
      assert stack[..][sp := id] == stack[..][..sp] + [id] + stack[..][sp + 1..];
      stack[sp] := id;
      sp := sp - 1;
      live := live - {id};
    }
  }

  lemma MarkBounds(stack: seq<u32>, sp: nat, high: nat, live: set<u32>)
    requires MarkOk(stack, sp, high, live)
    ensures sp <= high < |stack|
  {
  }

  /** A limit that is a capacity and has not been reached is not behind the list. */
  lemma LimitAhead(capacity: nat, high: nat, idLimit: nat)
    requires IsCapacity(capacity) && (capacity > FL_INITIAL_CAPACITY ==> capacity <= 2 * high)
    ensures IsCapacity(idLimit) && high < idLimit ==> capacity <= idLimit
  {
    if IsCapacity(idLimit) && idLimit < capacity {
      NoneBetween(idLimit, capacity, FL_INITIAL_CAPACITY);
      DoubledAtLeast(idLimit, FL_INITIAL_CAPACITY);
    }
  }

  /** When an insert first reaches the limit. */
  lemma FirstPast(sp: nat, capacity: nat, high: nat, idLimit: nat, id: nat)
    requires sp <= high < capacity && sp != idLimit && IsCapacity(capacity)
    requires capacity > FL_INITIAL_CAPACITY ==> capacity <= 2 * high
    requires var place := if sp + 1 < capacity then sp + 1 else capacity + 1; if place > high then id == place else id <= high
    ensures high < idLimit ==> (id >= idLimit <==> sp + 1 == idLimit || (sp + 1 == capacity && capacity + 1 == idLimit))
    ensures high < idLimit <= id ==> id == idLimit + if IsCapacity(idLimit) then 1 else 0
    ensures !IsCapacity(idLimit) && high <= idLimit ==> id <= idLimit && (sp + 1 == capacity ==> capacity < idLimit)
  {
    hide IsCapacity;
    LimitAhead(capacity, high, idLimit);
    if IsCapacity(idLimit) && idLimit == capacity + 1 {
      CapacitiesApart(capacity, idLimit);
    }
  }

  lemma LimitRoom(sp: nat, capacity: nat, high: nat, idLimit: nat)
    requires sp <= high < capacity && IsCapacity(capacity) && (!IsCapacity(idLimit) ==> high <= idLimit)
    ensures !IsCapacity(idLimit) && sp != idLimit ==> (if sp + 1 < capacity then sp + 1 else capacity + 1) <= idLimit
  {
  }

  lemma CapacitiesApart(n: nat, p: nat)
    requires IsCapacity(n) && IsCapacity(p) && n < p
    ensures 2 * n <= p && n >= FL_INITIAL_CAPACITY
  {
    NoneBetween(n, p, FL_INITIAL_CAPACITY);
    DoubledAtLeast(n, FL_INITIAL_CAPACITY);
  }

  /** The slots of these ids hold what they held. */
  ghost predicate KeepsSlots<T>(was: seq<T>, now: seq<T>, ids: set<u32>) {
    |was| <= |now| && forall id | id in ids && id < |was| :: now[id] == was[id]
  }

  // ---------- Two lists that go past their limit ----------

  /** n inserts into a list from which nothing was released: ids in turn. */
  method Mint(fl: FreeList<bool>, n: nat)
    requires fl.Valid() && fl.sp == fl.high && fl.sp + n < fl.capacity && (fl.idLimit < fl.sp || fl.sp + n <= fl.idLimit)
    modifies fl, fl.stack, fl.data
    ensures fl.Valid() && fl.sp == fl.high == old(fl.sp) + n && fl.capacity == old(fl.capacity)
    ensures (fl.stack == old(fl.stack) || fresh(fl.stack)) && (fl.data == old(fl.data) || fresh(fl.data))
  {
    for i := 0 to n
      invariant fl.Valid() && fl.sp == fl.high == old(fl.sp) + i && fl.capacity == old(fl.capacity)
      invariant (fl.stack == old(fl.stack) || fresh(fl.stack)) && (fl.data == old(fl.data) || fresh(fl.data))
    {
      var id := fl.Insert(false);
    }
  }

  /** With limit 5 the fifth insert mints 5. */
  method FifthOfFive() returns (id: Option<u32>)
    ensures id == Some(5)
  {
    var fl := new FreeList<bool>(5);
    Mint(fl, 4);
    id := fl.Insert(false);
  }

  /** With a capacity for a limit, the insert that doubles mints one more than the limit. */
  method PastCapacity() returns (id: Option<u32>)
    ensures id == Some(8193)
  {
    var fl := new FreeList<bool>(FL_INITIAL_CAPACITY);
    Mint(fl, 8191);
    id := fl.Insert(false);
  }
}
