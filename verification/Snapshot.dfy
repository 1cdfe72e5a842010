/** The memory layout of a book snapshot and the runners that read and write it
(include/ob.h and the mbo_* helpers of src/ob.c).

A snapshot is a header, an index of (price, byte offset, total) triples, and after it the
level payloads: an order count and then (id, quantity) pairs. The model keeps the payload area
as 32-bit words. Represents ties a snapshot to the levels it holds; each writer operation is
proved to append exactly one level, and the bulk copy to append exactly a run of levels. */
module Snapshot {
  import opened Machine
  import opened Book
  import opened BookFacts

  // sizeof(MBO), sizeof(MBOIndex), sizeof(MBOLevel), sizeof(MBOEntry)
  const MBO_BYTES := 4
  const INDEX_BYTES := 12
  const LEVEL_BYTES := 4
  const ENTRY_BYTES := 8

  datatype MboIndex = MboIndex(price: u16, byteOffset: nat, quantity: nat)

  datatype Mbo = Mbo(hiBidIndex: u16, levelCount: u16, index: seq<MboIndex>, data: seq<u32>)

  // ---------- Layout ----------

  function Words(orders: seq<Entry>): (w: seq<u32>)
    ensures |w| == 2 * |orders|
  {
    if orders == [] then [] else [orders[0].id, orders[0].qty] + Words(orders[1..])
  }

  function Payload(orders: seq<Entry>): (w: seq<u32>)
    ensures |w| == 1 + 2 * |orders|
  {
    [U16(|orders|)] + Words(orders)
  }

  function Data(levels: seq<Level>): seq<u32> {
    if levels == [] then [] else Payload(levels[0].orders) + Data(levels[1..])
  }

  /** The index of levels whose payloads start at this word. */
  function IndexFrom(levels: seq<Level>, word: nat): (index: seq<MboIndex>)
    ensures |index| == |levels|
  {
    if levels == [] then []
    else [MboIndex(levels[0].price, 4 * word, levels[0].quantity)]
         + IndexFrom(levels[1..], word + |Payload(levels[0].orders)|)
  }

  /** The bytes of a snapshot that holds these levels. */
  function Size(levels: seq<Level>): nat {
    MBO_BYTES + INDEX_BYTES * |levels| + 4 * |Data(levels)|
  }

  ghost predicate Represents(m: Mbo, levels: seq<Level>) {
    m.levelCount == |levels| && m.index == IndexFrom(levels, 0) && m.data == Data(levels)
  }

  ghost predicate OrdersFit(levels: seq<Level>) {
    forall l | l in levels :: |l.orders| < 0x1_0000
  }

  // ---------- Layout facts ----------

  lemma {:induction false} WordsConcat(a: seq<Entry>, b: seq<Entry>)
    ensures Words(a + b) == Words(a) + Words(b)
  {
    if a == [] {
      assert a + b == b;
    } else {
      assert (a + b)[1..] == a[1..] + b;
      WordsConcat(a[1..], b);
    }
  }

  lemma {:induction false} WordsAt(orders: seq<Entry>, j: nat)
    requires j < |orders|
    ensures Words(orders)[2 * j] == orders[j].id
    ensures Words(orders)[2 * j + 1] == orders[j].qty
  {
    if j > 0 {
      WordsAt(orders[1..], j - 1);
    }
  }

  lemma {:induction false} DataConcat(a: seq<Level>, b: seq<Level>)
    ensures Data(a + b) == Data(a) + Data(b)
  {
    if a == [] {
      assert a + b == b;
    } else {
      assert (a + b)[1..] == a[1..] + b;
      DataConcat(a[1..], b);
    }
  }

  lemma DataOne(l: Level)
    ensures Data([l]) == Payload(l.orders)
  {
    assert [l][1..] == [];
  }

  lemma {:induction false} IndexConcat(a: seq<Level>, b: seq<Level>, word: nat)
    ensures IndexFrom(a + b, word) == IndexFrom(a, word) + IndexFrom(b, word + |Data(a)|)
  {
    if a == [] {
      assert a + b == b;
    } else {
      assert (a + b)[1..] == a[1..] + b;
      IndexConcat(a[1..], b, word + |Payload(a[0].orders)|);
    }
  }

  // ---------- Stored snapshots ----------

  /** A snapshot whose contents can be read back: the 16-bit order counts did not wrap. */
  ghost predicate Stored(m: Mbo, levels: seq<Level>) {
    Represents(m, levels) && OrdersFit(levels)
  }

  /** A snapshot whose size fits the blob store's 32-bit sizes keeps every byte offset in 32 bits. */
  lemma OffsetsFit(m: Mbo, a: seq<Level>, l: Level, c: seq<Level>)
    requires Stored(m, a + [l] + c) && Size(a + [l] + c) < 0x1_0000_0000
    ensures m.index[|a|].byteOffset < 0x1_0000_0000
  {
    OffsetAt(m, a, l, c);
    RunData(a, [l], c);
  }

  lemma Middle<T>(x: seq<T>, y: seq<T>, z: seq<T>)
    ensures ((x + y) + z)[|x|..|x| + |y|] == y
  {
  }

  /** Payloads lie one after another, in index order: a run b of levels is one block of words. */
  lemma RunData(a: seq<Level>, b: seq<Level>, c: seq<Level>)
    ensures |Data(a + b)| == |Data(a)| + |Data(b)| <= |Data(a + b + c)|
    ensures Data(a + b + c)[|Data(a)|..|Data(a + b)|] == Data(b)
  {
    DataConcat(a + b, c);
    DataConcat(a, b);
    Middle(Data(a), Data(b), Data(c));
  }

  /** A run b of levels is one block of index entries. */
  lemma RunIndex(a: seq<Level>, b: seq<Level>, c: seq<Level>)
    ensures IndexFrom(a + b + c, 0)[|a|..|a| + |b|] == IndexFrom(b, |Data(a)|)
  {
    IndexConcat(a + b, c, 0);
    IndexConcat(a, b, 0);
    Middle(IndexFrom(a, 0), IndexFrom(b, |Data(a)|), IndexFrom(c, |Data(a + b)|));
  }

  lemma IndexNth(a: seq<Level>, l: Level, c: seq<Level>)
    ensures IndexFrom(a + [l] + c, 0)[|a|] == MboIndex(l.price, 4 * |Data(a)|, l.quantity)
  {
    assert a + [l] + c == a + ([l] + c);
    IndexConcat(a, [l] + c, 0);
    assert IndexFrom([l] + c, |Data(a)|)[0] == MboIndex(l.price, 4 * |Data(a)|, l.quantity);
  }

  /** One stored level: where its index entry points. */
  lemma OffsetAt(m: Mbo, a: seq<Level>, l: Level, c: seq<Level>)
    requires Stored(m, a + [l] + c)
    ensures m.index[|a|].price == l.price && m.index[|a|].quantity == l.quantity
    ensures m.index[|a|].byteOffset == 4 * |Data(a)|
  {
    IndexNth(a, l, c);
  }

  /** One stored level: the words found where its index entry points. */
  lemma PayloadAt(m: Mbo, a: seq<Level>, l: Level, c: seq<Level>)
    requires Stored(m, a + [l] + c)
    ensures |Data(a + [l])| == |Data(a)| + 1 + 2 * |l.orders| <= |m.data|
    ensures m.data[|Data(a)|..|Data(a + [l])|] == Payload(l.orders)
    ensures m.data[|Data(a)|] == |l.orders|
  {
    hide Data, Words;
    RunData(a, [l], c);
    DataOne(l);
    assert m.data[|Data(a)|] == m.data[|Data(a)|..|Data(a + [l])|][0];
    assert l in a + [l] + c;
  }

  // ---------- Entries ----------

  /** The entries stored after an order count. */
  function Entries(payload: seq<u32>, n: nat): (orders: seq<Entry>)
    requires 1 + 2 * n <= |payload|
    ensures |orders| == n
  {
    if n == 0 then [] else Entries(payload, n - 1) + [Entry(payload[2 * n - 1], payload[2 * n])]
  }

  lemma {:induction false} EntriesOf(orders: seq<Entry>, n: nat)
    requires n <= |orders|
    ensures Entries(Payload(orders), n) == orders[..n]
  {
    if n > 0 {
      EntriesOf(orders, n - 1);
      WordsAt(orders, n - 1);
    }
  }

  /** The orders stored for level i, read through its byte offset. */
  function OrdersAt(m: Mbo, ghost levels: seq<Level>, i: nat): (orders: seq<Entry>)
    requires Stored(m, levels) && i < |levels|
    ensures orders == levels[i].orders
  {
    assert levels == levels[..i] + [levels[i]] + levels[i + 1..];
    OffsetAt(m, levels[..i], levels[i], levels[i + 1..]);
    PayloadAt(m, levels[..i], levels[i], levels[i + 1..]);
    EntriesOf(levels[i].orders, |levels[i].orders|);
    var word := m.index[i].byteOffset / 4;
    Entries(m.data[word..word + 1 + 2 * m.data[word]], m.data[word])
  }

  /** The index alone, which is all the price walks read. */
  ghost predicate Indexed(m: Mbo, levels: seq<Level>) {
    && m.levelCount == |m.index| == |levels|
    && forall i | 0 <= i < |levels| :: m.index[i].price == levels[i].price && m.index[i].quantity == levels[i].quantity
  }

  lemma StoredIndexed(m: Mbo, levels: seq<Level>)
    requires Stored(m, levels)
    ensures Indexed(m, levels)
  {
    forall i | 0 <= i < |levels|
      ensures m.index[i].price == levels[i].price && m.index[i].quantity == levels[i].quantity
    {
      assert levels == levels[..i] + [levels[i]] + levels[i + 1..];
      OffsetAt(m, levels[..i], levels[i], levels[i + 1..]);
    }
  }

  // ---------- Reading ----------

  /** The runner over the old snapshot. */
  class Cursor {
    const mbo: Mbo
    ghost const levels: seq<Level>
    var index: nat
    var level: nat  // the word where the current payload starts

    ghost predicate Valid()
      reads this
    {
      Stored(mbo, levels) && index <= |levels| && level == |Data(levels[..index])|
    }

    constructor (m: Mbo, ghost contents: seq<Level>)
      requires Stored(m, contents)
      ensures Valid() && mbo == m && levels == contents && index == 0
    {
      mbo, levels, index, level := m, contents, 0, 0;
    }

    lemma Here()
      requires Valid() && index < |levels|
      ensures mbo.index[index].price == levels[index].price
      ensures mbo.index[index].quantity == levels[index].quantity
      ensures mbo.index[index].byteOffset == 4 * level
      ensures level + 1 + 2 * |levels[index].orders| == |Data(levels[..index + 1])| <= |mbo.data|
      ensures mbo.data[level..level + 1 + 2 * |levels[index].orders|] == Payload(levels[index].orders)
      ensures mbo.data[level] == |levels[index].orders|
    {
      assert levels == levels[..index] + [levels[index]] + levels[index + 1..];
      OffsetAt(mbo, levels[..index], levels[index], levels[index + 1..]);
      PayloadAt(mbo, levels[..index], levels[index], levels[index + 1..]);
      assert levels[..index + 1] == levels[..index] + [levels[index]];
    }

    /** mbo_to_index. One past the last level the program reads a stale payload position that
    it never follows; here it is the end of the payload area. */
    method ToIndex(i: nat)
      requires Valid() && i <= |levels|
      modifies this
      ensures Valid() && index == i
    {
      index := i;
      if i < |mbo.index| {
        assert levels == levels[..i] + [levels[i]] + levels[i + 1..];
        OffsetAt(mbo, levels[..i], levels[i], levels[i + 1..]);
        level := mbo.index[i].byteOffset / 4;
      } else {
        assert levels[..i] == levels;
        level := |mbo.data|;
      }
    }

    /** order_count of the current level. */
    function OrderCount(): (n: u16)
      requires Valid() && index < |levels|
      reads this
      ensures n == |levels[index].orders|
    {
      Here();
      assert levels[index] in levels;
      mbo.data[level]
    }

    /** The words of the current level: its order count and its entries. */
    function CurrentPayload(): (p: seq<u32>)
      requires Valid() && index < |levels|
      reads this
      ensures p == Payload(levels[index].orders)
    {
      Here();
      mbo.data[level..level + 1 + 2 * OrderCount()]
    }

    /** The entries of the current level. */
    function CurrentOrders(): (orders: seq<Entry>)
      requires Valid() && index < |levels|
      reads this
      ensures orders == levels[index].orders
    {
      EntriesOf(levels[index].orders, |levels[index].orders|);
      Entries(CurrentPayload(), OrderCount())
    }

    /** The index entry of the current level. */
    function Metadata(): (m: MboIndex)
      requires Valid() && index < |levels|
      reads this
      ensures m.price == levels[index].price && m.quantity == levels[index].quantity
    {
      Here();
      mbo.index[index]
    }

    /** mbo_jump on the old side. */
    method Jump()
      requires Valid() && index < |levels|
      modifies this
      ensures Valid() && index == old(index) + 1
    {
      Here();
      level := level + 1 + 2 * OrderCount();
      index := index + 1;
    }

    /** Step over a copied run. */
    method Advance(count: nat, words: nat)
      requires Valid() && index + count <= |levels|
      requires level + words == |Data(levels[..index + count])|
      modifies this
      ensures Valid() && index == old(index) + count
    {
      index, level := index + count, level + words;
    }
  }
}
