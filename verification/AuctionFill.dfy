/** Filling the cross (auction_fill_side and auction_consume_book of src/server.c). */
module AuctionFill {
  import opened Machine
  import opened Book
  import opened BookFacts
  import opened BookRuns
  import opened Weights
  import opened Settle
  import opened LegWalk
  import opened Ledger
  import W = AuctionWalk

  // ---------- One side's queue ----------

  function Quantity(table: Table, id: u32): nat {
    if id in table then table[id].quantity else 0
  }

  /** Shares waiting in a line of orders. */
  function Waiting(line: seq<u32>, table: Table): nat {
    if line == [] then 0 else Quantity(table, line[0]) + Waiting(line[1..], table)
  }

  /** The table once shares have been handed out along the line, first come first served. */
  function Served(line: seq<u32>, table: Table, shares: nat): Table {
    if line == [] || shares == 0 then table
    else
      var q := Min(Quantity(table, line[0]), shares);
      Served(line[1..], Less(table, line[0], q), shares - q)
  }

  ghost predicate DistinctIds(line: seq<u32>) {
    forall i, j | 0 <= i < j < |line| :: line[i] != line[j]
  }

  lemma {:induction false} WaitingConcat(a: seq<u32>, b: seq<u32>, table: Table)
    ensures Waiting(a + b, table) == Waiting(a, table) + Waiting(b, table)
  {
    if a == [] {
      assert a + b == b;
    } else {
      assert (a + b)[1..] == a[1..] + b;
      WaitingConcat(a[1..], b, table);
    }
  }

  lemma {:induction false} WaitingApart(line: seq<u32>, table: Table, id: u32, q: nat)
    requires id !in line
    ensures Waiting(line, Less(table, id, q)) == Waiting(line, table)
  {
    if line != [] {
      WaitingApart(line[1..], table, id, q);
    }
  }

  /** An order behind the shares handed out is filled only as far as they reach it. */
  lemma {:induction false} ServedAt(line: seq<u32>, table: Table, shares: nat, i: nat)
    requires DistinctIds(line) && i < |line| && line[i] in table
    ensures line[i] in Served(line, table, shares)
    ensures var reach := shares - Waiting(line[..i], table);
            Served(line, table, shares)[line[i]].quantity
            == table[line[i]].quantity - (if reach <= 0 then 0 else Min(table[line[i]].quantity, reach))
  {
    if shares == 0 {
      U16Same(table[line[i]].quantity);
    } else {
      var q := Min(Quantity(table, line[0]), shares);
      var rest := line[1..];
      if i == 0 {
        assert line[..0] == [];
        LessAt(table, line[0], q, line[0]);
        ServedApart(rest, Less(table, line[0], q), shares - q, line[0]);
      } else {
        LessAt(table, line[0], q, line[i]);
        ServedAt(rest, Less(table, line[0], q), shares - q, i - 1);
        assert line[..i] == [line[0]] + rest[..i - 1];
        assert [line[0]][1..] == [];
        WaitingConcat([line[0]], rest[..i - 1], table);
        WaitingApart(rest[..i - 1], table, line[0], q);
      }
    }
  }

  lemma {:induction false} ServedApart(line: seq<u32>, table: Table, shares: nat, id: u32)
    requires id !in line && id in table
    ensures id in Served(line, table, shares) && Served(line, table, shares)[id] == table[id]
  {
    if line != [] && shares > 0 {
      ServedApart(line[1..], Less(table, line[0], Min(Quantity(table, line[0]), shares)),
                  shares - Min(Quantity(table, line[0]), shares), id);
    }
  }

  lemma {:induction false} ServedTerms(line: seq<u32>, table: Table, shares: nat)
    ensures SameTerms(Served(line, table, shares), table)
  {
    if line != [] && shares > 0 {
      var q := Min(Quantity(table, line[0]), shares);
      LessKeepsTerms(table, line[0], q);
      ServedTerms(line[1..], Less(table, line[0], q), shares - q);
      TermsChain(Served(line, table, shares), Less(table, line[0], q), table);
    }
  }

  /** Handing out stops where the line ends or the shares do. */
  lemma {:induction false} ServedConcat(a: seq<u32>, b: seq<u32>, table: Table, shares: nat)
    requires DistinctIds(a + b)
    ensures Served(a + b, table, shares) == Served(b, Served(a, table, shares), shares - Min(shares, Waiting(a, table)))
  {
    if a == [] {
      assert a + b == b;
    } else if shares > 0 {
      assert (a + b)[1..] == a[1..] + b && (a + b)[0] == a[0];
      var q := Min(Quantity(table, a[0]), shares);
      assert DistinctIds(a[1..] + b) by {
        assert forall i | 0 <= i < |a[1..] + b| :: (a[1..] + b)[i] == (a + b)[i + 1];
      }
      assert a[0] !in a[1..] by {
        assert forall i | 0 <= i < |a[1..]| :: a[1..][i] == (a + b)[i + 1];
      }
      ServedConcat(a[1..], b, Less(table, a[0], q), shares - q);
      WaitingApart(a[1..], table, a[0], q);
    }
  }

  // ---------- Which limits cross ----------

  predicate Reaches(table: Table, id: u32, clearing: u16, isBuy: bool) {
    id in table && if isBuy then table[id].price >= clearing else table[id].price <= clearing
  }

  /** The limits that cross, best price first: those ahead of the first that does not. */
  function CrossingLimits(best: seq<u32>, table: Table, clearing: u16, isBuy: bool): seq<u32> {
    if best == [] || !Reaches(table, best[0], clearing, isBuy) then []
    else [best[0]] + CrossingLimits(best[1..], table, clearing, isBuy)
  }

  /** Best price first: bids fall, asks climb. */
  ghost predicate BestFirst(best: seq<u32>, table: Table, isBuy: bool) {
    && (forall id | id in best :: id in table)
    && forall i, j | 0 <= i < j < |best| :: if isBuy then table[best[i]].price >= table[best[j]].price else table[best[i]].price <= table[best[j]].price
  }

  function Reversed(ids: seq<u32>): (r: seq<u32>)
    ensures |r| == |ids|
    ensures forall i | 0 <= i < |ids| :: r[i] == ids[|ids| - 1 - i]
  {
    seq(|ids|, i requires 0 <= i < |ids| => ids[|ids| - 1 - i])
  }

  /** The line a side is filled in: market orders by arrival, then the limits that cross. */
  function Line(markets: seq<u32>, best: seq<u32>, table: Table, clearing: u16, isBuy: bool): seq<u32> {
    markets + CrossingLimits(best, table, clearing, isBuy)
  }

  lemma {:induction false} CrossingPrefix(best: seq<u32>, table: Table, clearing: u16, isBuy: bool)
    ensures var line := CrossingLimits(best, table, clearing, isBuy);
            && |line| <= |best| && line == best[..|line|]
            && (forall i | 0 <= i < |line| :: Reaches(table, best[i], clearing, isBuy))
            && (|line| < |best| ==> !Reaches(table, best[|line|], clearing, isBuy))
  {
    if best != [] && Reaches(table, best[0], clearing, isBuy) {
      CrossingPrefix(best[1..], table, clearing, isBuy);
    }
  }

  /** The parked limits as the walk sees them. */
  function Lots(ids: seq<u32>, table: Table): (lots: seq<W.Lot>)
    ensures |lots| == |ids|
  {
    if ids == [] then []
    else [W.Lot(if ids[0] in table then table[ids[0]].price else 0, Quantity(table, ids[0]))] + Lots(ids[1..], table)
  }

  lemma {:induction false} LotsAt(ids: seq<u32>, table: Table, i: nat)
    requires i < |ids| && ids[i] in table
    ensures Lots(ids, table)[i] == W.Lot(table[ids[i]].price, table[ids[i]].quantity)
  {
    if i > 0 {
      LotsAt(ids[1..], table, i - 1);
    }
  }

  /** Everything the curve counts at the clearing price stands in the line, and nothing else. */
  lemma {:induction false} CrossingWaits(best: seq<u32>, table: Table, clearing: u16, isBuy: bool)
    requires BestFirst(best, table, isBuy)
    ensures Waiting(CrossingLimits(best, table, clearing, isBuy), table)
            == (if isBuy then W.AtOrAbove(Lots(best, table), clearing) else W.AtOrBelow(Lots(best, table), clearing))
  {
    if best != [] {
      assert best[0] in best && forall id | id in best[1..] :: id in best;
      if Reaches(table, best[0], clearing, isBuy) {
        CrossingWaits(best[1..], table, clearing, isBuy);
      } else {
        NoneCrosses(best, table, clearing, isBuy);
      }
    }
  }

  lemma {:induction false} NoneCrosses(best: seq<u32>, table: Table, clearing: u16, isBuy: bool)
    requires BestFirst(best, table, isBuy) && (best != [] ==> !Reaches(table, best[0], clearing, isBuy))
    ensures (if isBuy then W.AtOrAbove(Lots(best, table), clearing) else W.AtOrBelow(Lots(best, table), clearing)) == 0
  {
    if best != [] {
      assert best[0] in best && forall id | id in best[1..] :: id in best;
      if best[1..] != [] {
        assert best[1] in best;
      }
      NoneCrosses(best[1..], table, clearing, isBuy);
    }
  }

  lemma {:induction false} AboveConcat(a: seq<W.Lot>, b: seq<W.Lot>, price: int)
    ensures W.AtOrAbove(a + b, price) == W.AtOrAbove(a, price) + W.AtOrAbove(b, price)
  {
    if a == [] {
      assert a + b == b;
    } else {
      assert (a + b)[1..] == a[1..] + b;
      AboveConcat(a[1..], b, price);
    }
  }

  lemma {:induction false} LotsConcat(a: seq<u32>, b: seq<u32>, table: Table)
    ensures Lots(a + b, table) == Lots(a, table) + Lots(b, table)
  {
    if a == [] {
      assert a + b == b;
    } else {
      assert (a + b)[1..] == a[1..] + b;
      LotsConcat(a[1..], b, table);
    }
  }

  /** The curve does not mind which end the buffer is read from. */
  lemma {:induction false} AboveReversed(ids: seq<u32>, table: Table, price: int)
    ensures W.AtOrAbove(Lots(Reversed(ids), table), price) == W.AtOrAbove(Lots(ids, table), price)
  {
    if ids == [] {
      assert Reversed(ids) == [];
    } else {
      AboveReversed(ids[1..], table, price);
      assert Reversed(ids) == Reversed(ids[1..]) + [ids[0]];
      LotsConcat(Reversed(ids[1..]), [ids[0]], table);
      AboveConcat(Lots(Reversed(ids[1..]), table), Lots([ids[0]], table), price);
      assert [ids[0]][1..] == [] && Lots([ids[0]], table)[1..] == [];
    }
  }
}
