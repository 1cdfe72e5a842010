/** The order of the prints: a sweep trades at ever worse prices, so the last print, which marks the
market (src/server.c), is the worst price the taker reached. */
module Prints {
  import opened Machine
  import opened Book
  import opened BookFacts
  import opened BookRuns
  import opened Settle
  import opened SettlePair
  import opened FillOrKill
  import opened Priority
  import opened PairDesk

  /** The mark after these fills: the worst price among them for a taker of this direction, or the old one. */
  ghost predicate MarkedAtWorst(fills: seq<Fill>, table: Table, buy: bool, was: u16, now: u16) {
    && (fills == [] ==> now == was)
    && (fills != [] ==> exists f | f in fills :: f.id in table && table[f.id].price == now)
    && forall f | f in fills :: f.id in table && if buy then table[f.id].price <= now else table[f.id].price >= now
  }

  /** Each fill at a price no better for the taker than the one before. */
  ghost predicate Worsening(fills: seq<Fill>, table: Table, buy: bool) {
    && (forall f | f in fills :: f.id in table)
    && forall i, j | 0 <= i < j < |fills| :: !Ahead(table[fills[j].id].price, table[fills[i].id].price, buy)
  }

  /** Fills at one price, then fills at prices no better. */
  lemma WorseningOn(a: seq<Fill>, b: seq<Fill>, table: Table, buy: bool, price: u16)
    requires forall f | f in a :: f.id in table && table[f.id].price == price
    requires Worsening(b, table, buy) && forall f | f in b :: !Ahead(table[f.id].price, price, buy)
    ensures Worsening(a + b, table, buy)
  {
    forall i, j | 0 <= i < j < |a + b|
      ensures !Ahead(table[(a + b)[j].id].price, table[(a + b)[i].id].price, buy)
    {
      assert (a + b)[i] == if i < |a| then a[i] else b[i - |a|];
      assert (a + b)[j] == if j < |a| then a[j] else b[j - |a|];
    }
  }

  lemma EatPrices(l: Level, q: nat, buy: bool, table: Table)
    requires Quoted([l], buy, table)
    ensures forall f | f in Eat(l.orders, q).fills :: f.id in table && table[f.id].price == l.price
  {
    EatIds(l.orders, q);
    forall f | f in Eat(l.orders, q).fills
      ensures f.id in table && table[f.id].price == l.price
    {
      OccursMember(l.orders, f.id);
      assert l in [l];
    }
  }

  lemma {:induction false} SweepWorsens(levels: seq<Level>, t: Order, q: nat, table: Table)
    requires Quoted(levels, !t.buy, table) && BestFirst(levels, t.buy)
    ensures Worsening(Sweep(levels, t, q).fills, table, t.buy)
    ensures forall f | f in Sweep(levels, t, q).fills :: exists l :: l in levels && l.price == table[f.id].price
  {
    hide Eat, Crosses;
    SweepOne(levels, t, q);
    if levels != [] && q > 0 && Crosses(t, levels[0].price) {
      var l := levels[0];
      assert l in levels && forall m | m in levels[1..] :: m in levels;
      EatPrices(l, q, !t.buy, table);
      var e := Eat(l.orders, q);
      SweepWorsens(levels[1..], t, e.left, table);
      var more := Sweep(levels[1..], t, e.left).fills;
      forall f | f in more
        ensures !Ahead(table[f.id].price, l.price, t.buy)
      {
        var m :| m in levels[1..] && m.price == table[f.id].price;
        var i :| 0 < i < |levels| && levels[i] == m;
      }
      WorseningOn(e.fills, more, table, t.buy, l.price);
      WorseningOn(e.fills, [], table, t.buy, l.price);
      assert e.fills + [] == e.fills;
    }
  }

  lemma LastIsWorst(fills: seq<Fill>, table: Table, buy: bool, was: u16, now: u16)
    requires Worsening(fills, table, buy)
    requires now == if fills == [] then was else table[fills[|fills| - 1].id].price
    ensures MarkedAtWorst(fills, table, buy, was, now)
  {
  }

  lemma StepWorsens(s: Sides, table: Table, id: u32)
    requires SoundSides(s) && QuotedSides(s, table) && id in table && HasTarget(table[id], table)
    ensures Worsening(Step(s, table, table[id], id).fills, table, table[id].buy)
  {
    var o := table[id];
    SoundClimbs(s);
    SidesApart(s);
    ReverseQuoted(s.bids, true, table);
    SweepWorsens(Opposite(s, o.buy), o, o.quantity, table);
  }

  /** A message's fills get worse and worse for the taker. */
  lemma MessageWorsens(s: Sides, table: Table, id: u32)
    requires SoundSides(s) && Agrees(s, table) && id in table && HasTarget(table[id], table)
    ensures Worsening(Message(s, table, id).fills, table, table[id].buy)
  {
    var gone := Gone(table[id], table);
    PullSound(s, gone);
    PullQuoted(s.bids, true, table, gone);
    PullQuoted(s.asks, false, table, gone);
    StepWorsens(Pull(s, gone), table, id);
  }

  /** So do a pair's, for whichever leg trades. */
  lemma PairWorsens(s: Sides, table: Table, bidId: u32, askId: u32, taker: u32)
    requires SoundSides(s) && QuotedSides(s, table) && PairSettleable(s, table, bidId, askId)
    requires TakerOf(s, table, bidId, askId, taker)
    ensures Worsening(PairMessage(s, table, bidId, askId).fills, table, taker == bidId)
  {
    CleanReady(s, table, bidId, askId);
    StepWorsens(Clean(s, table, bidId, askId), table, bidId);
    StepWorsens(First(s, table, bidId, askId).sides, table, askId);
    OneLegTrades(s, table, bidId, askId);
    var a, b := First(s, table, bidId, askId).fills, Second(s, table, bidId, askId).fills;
    assert a + [] == a && [] + b == b;
  }
}
