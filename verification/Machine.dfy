/** Fixed-width unsigned integers of the C program (include/types.h).

A value that the program keeps in range is given one of the subset types, so storing it
is a proof obligation; a value that the program lets wrap goes through U16, U32 or U64. */
module Machine {

  type u8 = x: int | 0 <= x < 0x100
  type u16 = x: int | 0 <= x < 0x1_0000
  type u32 = x: int | 0 <= x < 0x1_0000_0000
  type u64 = x: int | 0 <= x < 0x1_0000_0000_0000_0000

  const MAX_U16: u16 := 0xFFFF
  const MAX_U32: u32 := 0xFFFF_FFFF

  function U16(x: int): u16 {
    x % 0x1_0000
  }

  /** One step up or down in 16-bit arithmetic. */
  function Step16(x: u16, d: int): u16
    requires -1 <= d <= 1
  {
    if x + d < 0 then MAX_U16 else if x + d > MAX_U16 then 0 else x + d
  }

  lemma Step16Wraps(x: u16, d: int)
    requires -1 <= d <= 1
    ensures Step16(x, d) == U16(x + d)
  {
  }

  lemma U16Same(x: int)
    requires 0 <= x < 0x1_0000
    ensures U16(x) == x
  {
  }

  lemma U16Wraps(x: int)
    requires -0x1_0000 <= x < 0
    ensures U16(x) == x + 0x1_0000
  {
  }

  function U32(x: int): u32 {
    x % 0x1_0000_0000
  }

  lemma U32Same(x: int)
    requires 0 <= x < 0x1_0000_0000
    ensures U32(x) == x
  {
  }

  /** U32 without a remainder, for proofs that only ever add to it. */
  function Low32(x: int): u32
    decreases if x < 0 then 0x1_0000_0000 - x else x
  {
    if x < 0 then Low32(x + 0x1_0000_0000)
    else if x >= 0x1_0000_0000 then Low32(x - 0x1_0000_0000)
    else x
  }

  lemma {:induction false} Low32IsU32(x: int)
    ensures Low32(x) == U32(x)
    decreases if x < 0 then 0x1_0000_0000 - x else x
  {
    if x < 0 {
      Low32IsU32(x + 0x1_0000_0000);
    } else if x >= 0x1_0000_0000 {
      Low32IsU32(x - 0x1_0000_0000);
    }
  }

  /** Wrapping before or after an addition is the same. */
  lemma Low32Add(x: int, d: int)
    ensures Low32(Low32(x) + d) == Low32(x + d)
  {
    Low32IsU32(x);
    Low32IsU32(Low32(x) + d);
    Low32IsU32(x + d);
  }

  function U64(x: int): u64 {
    x % 0x1_0000_0000_0000_0000
  }

  /** What doubling a first capacity leads to. */
  predicate Doubled(n: nat, first: nat) {
    n == first || (n > first && n % 2 == 0 && Doubled(n / 2, first))
  }

  lemma {:induction false} NoneBetween(n: nat, p: nat, first: nat)
    requires Doubled(n, first) && Doubled(p, first) && n < p
    ensures 2 * n <= p
  {
    if n > first {
      NoneBetween(n / 2, p / 2, first);
    } else {
      DoubledAtLeast(p / 2, first);
    }
  }

  lemma {:induction false} DoubledAtLeast(n: nat, first: nat)
    requires Doubled(n, first)
    ensures n >= first
  {
  }

  /** Spelled out for proofs in which many concatenations meet. */
  lemma Assoc<T>(a: seq<T>, b: seq<T>, c: seq<T>)
    ensures (a + b) + c == a + (b + c)
  {
  }
}
