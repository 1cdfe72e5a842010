/** Whose cash and shares a cross moves (auction_fill_side and auction_consume_book of src/server.c):
every client gains what its own orders were filled, at the clearing price. */
module AuctionGain {
  import opened Machine
  import opened Book
  import opened Weights
  import opened Settle
  import opened Ledger
  import opened AuctionFill

  /** Shares gained, or given up, by client. */
  type Gains = nat -> int

  /** How far a client's own orders in a line came down. */
  function Filled(c: nat, line: seq<u32>, was: Table, now: Table): int {
    if line == [] then 0
    else Filled(c, line[..|line| - 1], was, now) + OneFilled(c, line[|line| - 1], was, now)
  }

  function OneFilled(c: nat, id: u32, was: Table, now: Table): int {
    if id in was && id in now && was[id].client == c then was[id].quantity - now[id].quantity else 0
  }

  /** Buyers gain their line's fills and sellers give theirs up. */
  function LineGains(line: seq<u32>, was: Table, now: Table, isBuy: bool): Gains {
    (c: nat) => if isBuy then Filled(c, line, was, now) else -Filled(c, line, was, now)
  }

  /** The same for the book's makers, from their fills. */
  function MakerGains(fills: seq<Fill>, table: Table, buy: bool): Gains {
    (c: nat) => Towards(WeighFills(fills, MakerShares(c, table)), buy)
  }

  /** One client's gain alone. */
  function OneGain(client: nat, d: int): Gains {
    (c: nat) => if c == client then d else 0
  }

  function Towards(q: nat, buy: bool): int {
    if buy then q as int else -(q as int)
  }

  /** Every client got its gain in shares and paid the clearing price for it; together they gained net. */
  ghost predicate Traded(a: seq<Account>, b: seq<Account>, gains: Gains, net: int, clearing: u16) {
    && |b| == |a|
    && (forall c | 0 <= c < |a| :: b[c].shares == a[c].shares + gains(c) && b[c].cash == a[c].cash - gains(c) * clearing)
    && TotalShares(b) == TotalShares(a) + net && TotalCash(b) == TotalCash(a) - net * clearing
  }

  lemma TradedTwice(a: seq<Account>, b: seq<Account>, d: seq<Account>, first: Gains, second: Gains, both: Gains, n: int,
                    m: int, clearing: u16)
    requires Traded(a, b, first, n, clearing) && Traded(b, d, second, m, clearing)
    requires forall c: nat :: both(c) == first(c) + second(c)
    ensures Traded(a, d, both, n + m, clearing)
  {
    forall c | 0 <= c < |a|
      ensures d[c].shares == a[c].shares + both(c) && d[c].cash == a[c].cash - both(c) * clearing
    {
      Times(first(c), second(c), clearing);
    }
    Times(n, m, clearing);
  }

  lemma Times(a: int, b: int, n: int)
    ensures (a + b) * n == a * n + b * n
  {
  }

  lemma TradedNothing(a: seq<Account>, gains: Gains, clearing: u16)
    requires forall c: nat :: gains(c) == 0
    ensures Traded(a, a, gains, 0, clearing)
  {
  }

  lemma TradedSame(a: seq<Account>, b: seq<Account>, gains: Gains, same: Gains, net: int, clearing: u16)
    requires Traded(a, b, gains, net, clearing) && forall c: nat :: same(c) == gains(c)
    ensures Traded(a, b, same, net, clearing)
  {
  }

  lemma {:induction false} FilledConcat(c: nat, a: seq<u32>, b: seq<u32>, was: Table, now: Table)
    ensures Filled(c, a + b, was, now) == Filled(c, a, was, now) + Filled(c, b, was, now)
  {
    if b == [] {
      assert a + b == a;
    } else {
      assert (a + b)[..|a + b| - 1] == a + b[..|b| - 1];
      FilledConcat(c, a, b[..|b| - 1], was, now);
    }
  }

  /** Only what a line's own orders were and are counts. */
  lemma {:induction false} FilledSame(c: nat, line: seq<u32>, was: Table, now: Table, was2: Table, now2: Table)
    requires forall id | id in line :: id in was && id in now && id in was2 && id in now2
    requires forall id | id in line :: was2[id] == was[id] && now2[id] == now[id]
    ensures Filled(c, line, was2, now2) == Filled(c, line, was, now)
  {
    if line != [] {
      assert line[|line| - 1] in line && forall id | id in line[..|line| - 1] :: id in line;
      FilledSame(c, line[..|line| - 1], was, now, was2, now2);
    }
  }

  lemma {:induction false} FilledNothing(c: nat, line: seq<u32>, was: Table, now: Table)
    requires forall id | id in line && id in was && id in now :: now[id].quantity == was[id].quantity
    ensures Filled(c, line, was, now) == 0
  {
    if line != [] {
      assert line[|line| - 1] in line && forall id | id in line[..|line| - 1] :: id in line;
      FilledNothing(c, line[..|line| - 1], was, now);
    }
  }

  /** One more order of the line filled. */
  lemma GainsNext(line: seq<u32>, k: nat, was: Table, now: Table, q: nat, isBuy: bool)
    requires DistinctIds(line) && k < |line| && line[k] in was && line[k] in now && now[line[k]] == was[line[k]]
    requires q <= now[line[k]].quantity && forall id | id in line :: id in was && id in now
    ensures var gains, next := LineGains(line[..k], was, now, isBuy), LineGains(line[..k + 1], was, Less(now, line[k], q), isBuy);
            forall c: nat :: next(c) == gains(c) + if c == was[line[k]].client then Towards(q, isBuy) else 0
  {
    var less := Less(now, line[k], q);
    forall c: nat
      ensures Filled(c, line[..k + 1], was, less) == Filled(c, line[..k], was, now) + if c == was[line[k]].client then q else 0
    {
      assert line[..k + 1][..k] == line[..k];
      forall id | id in line[..k]
        ensures id in line && less[id] == now[id]
      {
      }
      FilledSame(c, line[..k], was, now, was, less);
    }
  }
}
