/** Every message keeps the book well formed, so the contract of the rewrite holds over whole runs. */
module BookRuns {
  import opened Machine
  import opened Book
  import opened BookFacts

  /** A well-formed book, leaving aside how many orders one level can count. */
  ghost predicate Sound(levels: seq<Level>) {
    && Ascending(levels)
    && SoundLevels(levels)
    && Distinct(levels)
  }

  ghost predicate SoundLevel(l: Level) {
    && l.orders != []
    && l.quantity == Total(l.orders)
    && forall e | e in l.orders :: EntryOk(e)
  }

  ghost predicate SoundLevels(levels: seq<Level>) {
    forall l | l in levels :: SoundLevel(l)
  }

  ghost predicate Fits(levels: seq<Level>) {
    forall l | l in levels :: |l.orders| < 0x1_0000
  }

  lemma SoundIsOk(levels: seq<Level>)
    ensures BookOk(levels) <==> Sound(levels) && Fits(levels)
  {
    if BookOk(levels) {
      assert forall l | l in levels :: LevelOk(l);
    }
    if Sound(levels) && Fits(levels) {
      assert forall l | l in levels :: SoundLevel(l);
    }
  }

  // ---------- Pulling ----------

  lemma PruneSound(levels: seq<Level>, gone: set<u32>)
    requires Sound(levels)
    ensures Sound(Prune(levels, gone))
  {
    PruneAscending(levels, gone);
    forall l | l in Prune(levels, gone)
      ensures SoundLevel(l)
    {
      PruneMember(levels, gone, l);
      var m :| m in levels && m.price == l.price && l == At(m.price, Keep(m.orders, gone)) && l.orders != [];
      assert SoundLevel(m);
      forall e | e in l.orders
        ensures EntryOk(e)
      {
        KeepMember(m.orders, gone, e);
      }
    }
    forall id: u32
      ensures Count(Prune(levels, gone), id) <= 1
    {
      CountPrune(levels, gone, id);
    }
  }

  // ---------- Sweeping ----------

  /** Nothing an eaten level keeps was not there before, and only the front order can shrink. */
  lemma {:induction false} EatKeeps(orders: seq<Entry>, q: nat, id: u32)
    requires forall e | e in orders :: EntryOk(e)
    ensures forall e | e in Eat(orders, q).rest :: EntryOk(e)
    ensures Occurs(Eat(orders, q).rest, id) <= Occurs(orders, id)
  {
    if orders != [] && q > 0 {
      assert orders[0] in orders && forall e | e in orders[1..] :: e in orders;
      if orders[0].qty <= q {
        EatKeeps(orders[1..], q - orders[0].qty, id);
      }
    }
  }

  /** What a sweep leaves: the levels from some point on, of which only the first can have changed. */
  lemma {:induction false} SweepTail(levels: seq<Level>, t: Order, q: nat) returns (k: nat)
    requires SoundLevels(levels)
    ensures var s := Sweep(levels, t, q).levels;
            && k <= |levels| && |s| == |levels| - k
            && SoundLevels(s)
            && (forall i | 0 <= i < |s| :: s[i].price == levels[k + i].price)
            && (forall id: u32 :: Count(s, id) <= Count(levels, id))
    ensures Sweep(levels, t, q).left > 0 && k < |levels| ==> !Crosses(t, levels[k].price)
  {
    hide Sweep;
    SweepOne(levels, t, q);
    if levels == [] || q == 0 || !Crosses(t, levels[0].price) {
      return 0;
    }
    hide Eat, Occurs, SoundLevel, Crosses, At, EntryOk, Count;
    assert levels[0] in levels;
    FewerLevels(levels);
    EatLevel(levels[0], q);
    var e := Eat(levels[0].orders, q);
    if e.rest == [] {
      var j := SweepTail(levels[1..], t, e.left);
      k := j + 1;
    } else {
      k := 0;
      FrontLevel(levels, At(levels[0].price, e.rest));
    }
  }

  /** One step of a sweep. */
  lemma SweepOne(levels: seq<Level>, t: Order, q: nat)
    ensures var s := Sweep(levels, t, q);
            if levels == [] || q == 0 || !Crosses(t, levels[0].price) then s == Swept(levels, [], q)
            else
              var e := Eat(levels[0].orders, q);
              var w := Sweep(levels[1..], t, e.left);
              if e.rest == [] then s == Swept(w.levels, e.fills + w.fills, w.left)
              else s == Swept([At(levels[0].price, e.rest)] + levels[1..], e.fills, e.left)
  {
  }

  lemma FewerLevels(levels: seq<Level>)
    requires levels != []
    ensures forall id: u32 :: Count(levels[1..], id) <= Count(levels, id)
  {
  }

  /** Only the front level changed, and only by losing orders. */
  lemma FrontLevel(levels: seq<Level>, x: Level)
    requires levels != [] && SoundLevels(levels) && SoundLevel(x) && x.price == levels[0].price
    requires forall id: u32 :: Occurs(x.orders, id) <= Occurs(levels[0].orders, id)
    ensures var s := [x] + levels[1..];
            && SoundLevels(s)
            && (forall i | 0 <= i < |s| :: s[i].price == levels[i].price)
            && forall id: u32 :: Count(s, id) <= Count(levels, id)
  {
    hide Occurs, SoundLevel;
    assert ([x] + levels[1..])[1..] == levels[1..];
  }

  /** One level of a sweep. */
  lemma EatLevel(l: Level, q: nat)
    requires SoundLevel(l)
    ensures forall id: u32 :: Occurs(Eat(l.orders, q).rest, id) <= Occurs(l.orders, id)
    ensures var rest := Eat(l.orders, q).rest; var x := At(l.price, rest);
            rest != [] ==> SoundLevel(x) && x.price == l.price && x.orders == rest && Eat(l.orders, q).left == 0
  {
    forall id: u32
      ensures Occurs(Eat(l.orders, q).rest, id) <= Occurs(l.orders, id)
    {
      EatKeeps(l.orders, q, id);
    }
    EatKeeps(l.orders, q, 0);
    LevelLeft(l.orders, q);
  }

  /** A level that survives has spent the taker. */
  lemma {:induction false} LevelLeft(orders: seq<Entry>, q: nat)
    ensures Eat(orders, q).rest != [] ==> Eat(orders, q).left == 0
  {
    if orders != [] && q > 0 && orders[0].qty <= q {
      LevelLeft(orders[1..], q - orders[0].qty);
    }
  }

  // ---------- Resting ----------

  /** Resting opens or joins exactly one price. */
  lemma {:induction false} RestPrices(levels: seq<Level>, price: u16, e: Entry)
    ensures forall l | l in Rest(levels, price, e) :: l.price == price || exists m :: m in levels && m.price == l.price
  {
    if levels != [] && price > levels[0].price {
      RestPrices(levels[1..], price, e);
      forall l | l in Rest(levels, price, e)
        ensures l.price == price || exists m :: m in levels && m.price == l.price
      {
        if l != levels[0] && l.price != price {
          assert l in Rest(levels[1..], price, e);
          var m :| m in levels[1..] && m.price == l.price;
          assert m in levels;
        }
      }
    }
  }

  lemma {:induction false} RestKeeps(levels: seq<Level>, price: u16, e: Entry)
    requires Ascending(levels) && SoundLevels(levels) && EntryOk(e)
    ensures Ascending(Rest(levels, price, e)) && SoundLevels(Rest(levels, price, e))
  {
    if levels == [] || price < levels[0].price {
      SoundOne(price, [], e);
      assert [] + [e] == [e];
    } else if price == levels[0].price {
      assert SoundLevel(levels[0]);
      SoundOne(price, levels[0].orders, e);
      assert forall l | l in levels[1..] :: l in levels;
    } else {
      assert SoundLevel(levels[0]);
      RestKeeps(levels[1..], price, e);
      RestPrices(levels[1..], price, e);
      var rest := Rest(levels[1..], price, e);
      forall l | l in rest
        ensures levels[0].price < l.price
      {
        if l.price != price {
          var m :| m in levels[1..] && m.price == l.price;
        }
      }
      assert forall l | l in [levels[0]] + rest :: l == levels[0] || l in rest;
    }
  }

  lemma SoundOne(price: u16, orders: seq<Entry>, e: Entry)
    requires EntryOk(e) && forall x | x in orders :: EntryOk(x)
    ensures SoundLevel(At(price, orders + [e]))
  {
  }

  // ---------- Replacing in place ----------

  lemma {:induction false} SwapKeeps(orders: seq<Entry>, was: u32, e: Entry, id: u32)
    requires EntryOk(e) && forall x | x in orders :: EntryOk(x)
    ensures |SwapEntry(orders, was, e)| == |orders| && forall x | x in SwapEntry(orders, was, e) :: EntryOk(x)
    ensures Occurs(SwapEntry(orders, was, e), id) <= Occurs(orders, id) + (if e.id == id && Occurs(orders, was) > 0 then 1 else 0)
  {
    if orders != [] {
      assert orders[0] in orders && forall x | x in orders[1..] :: x in orders;
      SwapKeeps(orders[1..], was, e, id);
    }
  }

  lemma {:induction false} SwapAll(levels: seq<Level>, was: u32, e: Entry)
    requires SoundLevels(levels) && EntryOk(e)
    ensures |Swap(levels, was, e)| == |levels| && SoundLevels(Swap(levels, was, e))
    ensures forall i | 0 <= i < |levels| :: Swap(levels, was, e)[i].price == levels[i].price
    ensures forall id: u32 :: Count(Swap(levels, was, e), id) <= Count(levels, id) + (if e.id == id then Count(levels, was) else 0)
  {
    if levels != [] {
      assert levels[0] in levels && SoundLevel(levels[0]);
      SwapAll(levels[1..], was, e);
      forall id: u32
        ensures Occurs(SwapEntry(levels[0].orders, was, e), id)
                <= Occurs(levels[0].orders, id) + (if e.id == id then Occurs(levels[0].orders, was) else 0)
      {
        SwapKeeps(levels[0].orders, was, e, id);
      }
      SwapKeeps(levels[0].orders, was, e, 0);
      var first := At(levels[0].price, SwapEntry(levels[0].orders, was, e));
      assert SoundLevel(first);
      var s := Swap(levels, was, e);
      assert s[1..] == Swap(levels[1..], was, e);
    }
  }

  // ---------- One message ----------

  /** What the server lets through: see cancel_precheck and add_precheck. */
  ghost predicate Orderly(o: Order, id: u32) {
    && id != MAX_U32
    && o.Sized()
    && (o.market && !o.PureCancel() ==> !o.Gtc())
  }

  ghost predicate SoundSides(s: Sides) {
    Sound(s.bids + s.asks)
  }

  lemma SplitSound(a: seq<Level>, b: seq<Level>)
    requires Sound(a + b)
    ensures Ascending(a) && Ascending(b) && SoundLevels(a) && SoundLevels(b)
    ensures forall l, m | l in a && m in b :: l.price < m.price
  {
    assert forall l | l in a :: l in a + b;
    assert forall l | l in b :: l in a + b;
    forall i, j | 0 <= i < j < |a|
      ensures a[i].price < a[j].price
    {
      assert (a + b)[i] == a[i] && (a + b)[j] == a[j];
    }
    forall i, j | 0 <= i < j < |b|
      ensures b[i].price < b[j].price
    {
      assert (a + b)[|a| + i] == b[i] && (a + b)[|a| + j] == b[j];
    }
    forall l, m | l in a && m in b
      ensures l.price < m.price
    {
      var i :| 0 <= i < |a| && a[i] == l;
      var j :| 0 <= j < |b| && b[j] == m;
      assert (a + b)[i] == l && (a + b)[|a| + j] == m;
    }
  }

  lemma JoinSound(a: seq<Level>, b: seq<Level>)
    requires Ascending(a) && Ascending(b) && SoundLevels(a) && SoundLevels(b)
    requires forall l, m | l in a && m in b :: l.price < m.price
    requires forall id: u32 :: Count(a, id) + Count(b, id) <= 1
    ensures Sound(a + b)
  {
    forall i, j | 0 <= i < j < |a + b|
      ensures (a + b)[i].price < (a + b)[j].price
    {
      if i < |a| <= j {
        assert a[i] in a && b[j - |a|] in b;
      }
    }
    forall id: u32
      ensures Count(a + b, id) <= 1
    {
      CountConcat(a, b, id);
    }
  }

  lemma {:induction false} CountReverse(a: seq<Level>, id: u32)
    ensures Count(Reverse(a), id) == Count(a, id)
  {
    if a != [] {
      CountReverse(a[1..], id);
      CountConcat(Reverse(a[1..]), [a[0]], id);
      assert [a[0]][1..] == [];
    }
  }

  lemma ReverseSound(a: seq<Level>)
    ensures SoundLevels(a) <==> SoundLevels(Reverse(a))
    ensures forall id: u32 :: Count(Reverse(a), id) == Count(a, id)
  {
    forall l: Level
      ensures l in a <==> l in Reverse(a)
    {
      ReverseMember(a, l);
    }
    forall id: u32
      ensures Count(Reverse(a), id) == Count(a, id)
    {
      CountReverse(a, id);
    }
  }

  /** What a buy leaves of the asks, and whether what is left of the buy can rest below them. */
  lemma BuySide(asks: seq<Level>, t: Order, q: nat)
    requires Ascending(asks) && SoundLevels(asks) && t.buy
    ensures var s := Sweep(asks, t, q);
            && Ascending(s.levels) && SoundLevels(s.levels)
            && (forall id: u32 :: Count(s.levels, id) <= Count(asks, id))
            && (forall l | l in s.levels :: exists m :: m in asks && m.price == l.price)
            && (s.left > 0 && !t.market ==> Above(s.levels, t.price))
  {
    var k := SweepTail(asks, t, q);
    var s := Sweep(asks, t, q);
    forall l | l in s.levels
      ensures exists m :: m in asks && m.price == l.price
      ensures s.left > 0 && !t.market ==> t.price < l.price
    {
      var i :| 0 <= i < |s.levels| && s.levels[i] == l;
      assert asks[k + i] in asks;
      assert asks[k].price <= asks[k + i].price;
    }
  }

  /** The same for a sell and the bids. */
  lemma SellSide(bids: seq<Level>, t: Order, q: nat)
    requires Ascending(bids) && SoundLevels(bids) && !t.buy
    ensures var s := Sweep(Reverse(bids), t, q); var left := Reverse(s.levels);
            && Ascending(left) && SoundLevels(left)
            && (forall id: u32 :: Count(left, id) <= Count(bids, id))
            && (forall l | l in left :: exists m :: m in bids && m.price == l.price)
            && (s.left > 0 && !t.market ==> Below(left, t.price))
  {
    var best := Reverse(bids);
    ReverseSound(bids);
    var k := SweepTail(best, t, q);
    var s := Sweep(best, t, q);
    var left := Reverse(s.levels);
    ReverseSound(s.levels);
    var n, r := |bids|, |s.levels|;
    forall i | 0 <= i < n
      ensures |best| == n && best[i] == bids[n - 1 - i]
    {
      ReverseAt(bids, n - 1 - i);
      ReverseAt(bids, i);
    }
    ReverseSize(bids);
    ReverseSize(s.levels);
    forall i | 0 <= i < r
      ensures left[i].price == bids[i].price
    {
      ReverseAt(s.levels, i);
    }
    forall l | l in left
      ensures exists m :: m in bids && m.price == l.price
      ensures s.left > 0 && !t.market ==> l.price < t.price
    {
      var i :| 0 <= i < r && left[i] == l;
      assert bids[i] in bids;
      assert bids[i].price <= bids[r - 1].price == best[k].price;
    }
  }

  lemma {:induction false} ReverseSize(a: seq<Level>)
    ensures |Reverse(a)| == |a|
  {
    if a != [] {
      ReverseSize(a[1..]);
    }
  }

  /** Trading and resting keep the book sound: prices still climb through both sides, so the best
  bid stays below the best ask. */
  lemma SubmitSound(s: Sides, t: Order, id: u32)
    requires SoundSides(s) && Orderly(t, id) && !t.PureCancel() && Count(s.bids + s.asks, id) == 0
    ensures SoundSides(Submit(s, t, id).sides)
  {
    SplitSound(s.bids, s.asks);
    CountConcat(s.bids, s.asks, id);
    SidesDistinct(s);
    var w := Sweep(Opposite(s, t.buy), t, t.quantity);
    var own := Own(s, t.buy);
    if t.buy {
      BuySide(s.asks, t, t.quantity);
    } else {
      SellSide(s.bids, t, t.quantity);
    }
    RestLeftKeeps(own, t, id, w.left);
    var r := RestLeft(own, t, id, w.left);
    if t.buy {
      JoinSound(r, w.levels);
    } else {
      JoinSound(Reverse(w.levels), r);
    }
  }

  lemma SidesDistinct(s: Sides)
    requires SoundSides(s)
    ensures forall id: u32 :: Count(s.bids, id) + Count(s.asks, id) <= 1
  {
    forall id: u32
      ensures Count(s.bids, id) + Count(s.asks, id) <= 1
    {
      CountConcat(s.bids, s.asks, id);
    }
  }

  lemma RestLeftKeeps(own: seq<Level>, t: Order, id: u32, left: u16)
    requires Ascending(own) && SoundLevels(own) && id != MAX_U32
    ensures var r := RestLeft(own, t, id, left);
            && Ascending(r) && SoundLevels(r)
            && (forall x: u32 :: Count(r, x) <= Count(own, x) + (if x == id then 1 else 0))
            && (forall l | l in r :: (left > 0 && t.Gtc() && l.price == t.price) || exists m :: m in own && m.price == l.price)
  {
    if left > 0 && t.Gtc() {
      RestKeeps(own, t.price, Entry(id, left));
      RestPrices(own, t.price, Entry(id, left));
      forall x: u32
        ensures Count(Rest(own, t.price, Entry(id, left)), x) <= Count(own, x) + (if x == id then 1 else 0)
      {
        CountRest(own, t.price, Entry(id, left), x);
      }
    }
  }

  lemma SamePrices(a: seq<Level>, was: seq<Level>)
    requires Ascending(was) && |a| == |was| && forall i | 0 <= i < |a| :: a[i].price == was[i].price
    ensures Ascending(a)
    ensures forall l | l in a :: exists m :: m in was && m.price == l.price
  {
    forall l | l in a
      ensures exists m :: m in was && m.price == l.price
    {
      var i :| 0 <= i < |a| && a[i] == l;
      assert was[i] in was;
    }
  }

  lemma SwapSound(s: Sides, was: u32, e: Entry)
    requires SoundSides(s) && EntryOk(e) && Count(s.bids + s.asks, e.id) == 0
    ensures SoundSides(Sides(Swap(s.bids, was, e), Swap(s.asks, was, e)))
  {
    SplitSound(s.bids, s.asks);
    SwapAll(s.bids, was, e);
    SwapAll(s.asks, was, e);
    SamePrices(Swap(s.bids, was, e), s.bids);
    SamePrices(Swap(s.asks, was, e), s.asks);
    SwapDistinct(s, was, e);
    JoinSound(Swap(s.bids, was, e), Swap(s.asks, was, e));
  }

  lemma SwapDistinct(s: Sides, was: u32, e: Entry)
    requires SoundSides(s) && SoundLevels(s.bids) && SoundLevels(s.asks) && EntryOk(e) && Count(s.bids + s.asks, e.id) == 0
    ensures forall id: u32 :: Count(Swap(s.bids, was, e), id) + Count(Swap(s.asks, was, e), id) <= 1
  {
    SidesDistinct(s);
    CountConcat(s.bids, s.asks, e.id);
    SwapAll(s.bids, was, e);
    SwapAll(s.asks, was, e);
    assert Count(s.bids, was) + Count(s.asks, was) <= 1;
    forall id: u32
      ensures Count(Swap(s.bids, was, e), id) + Count(Swap(s.asks, was, e), id) <= 1
    {
      assert Count(s.bids, id) + Count(s.asks, id) <= 1;
    }
  }

  lemma PullSound(s: Sides, gone: set<u32>)
    requires SoundSides(s)
    ensures SoundSides(Pull(s, gone))
    ensures forall id: u32 :: Count(Pull(s, gone).bids + Pull(s, gone).asks, id) <= Count(s.bids + s.asks, id)
  {
    PruneConcat(s.bids, s.asks, gone);
    PruneSound(s.bids + s.asks, gone);
    forall id: u32
      ensures Count(Pull(s, gone).bids + Pull(s, gone).asks, id) <= Count(s.bids + s.asks, id)
    {
      CountPrune(s.bids + s.asks, gone, id);
    }
  }

  lemma StepSound(s: Sides, table: Table, o: Order, id: u32)
    requires SoundSides(s) && HasTarget(o, table) && Orderly(o, id) && Count(s.bids + s.asks, id) == 0
    ensures SoundSides(Step(s, table, o, id).sides)
  {
    if o.PureCancel() {
    } else if o.canRep && Shrinks(o, table[o.otherId]) {
      SwapSound(s, o.otherId, Entry(id, o.quantity));
    } else {
      SubmitSound(s, o, id);
    }
  }

  /** Every order message keeps the book sound. */
  lemma MessageSound(s: Sides, table: Table, id: u32)
    requires SoundSides(s) && id in table && HasTarget(table[id], table)
    requires Orderly(table[id], id) && Count(s.bids + s.asks, id) == 0
    ensures SoundSides(Message(s, table, id).sides)
  {
    PullSound(s, Gone(table[id], table));
    StepSound(Pull(s, Gone(table[id], table)), table, table[id], id);
  }

  /** Where a step's orders come from: the book it found, and the incoming order. */
  lemma StepCounts(s: Sides, table: Table, o: Order, id: u32, x: u32)
    requires SoundSides(s) && HasTarget(o, table) && Orderly(o, id) && x != id
    ensures var r := Step(s, table, o, id).sides; Count(r.bids + r.asks, x) <= Count(s.bids + s.asks, x)
  {
    SplitSound(s.bids, s.asks);
    CountConcat(s.bids, s.asks, x);
    var r := Step(s, table, o, id).sides;
    CountConcat(r.bids, r.asks, x);
    if o.PureCancel() {
    } else if o.canRep && Shrinks(o, table[o.otherId]) {
      SwapAll(s.bids, o.otherId, Entry(id, o.quantity));
      SwapAll(s.asks, o.otherId, Entry(id, o.quantity));
    } else if o.buy {
      BuySide(s.asks, o, o.quantity);
      RestLeftKeeps(s.bids, o, id, Sweep(s.asks, o, o.quantity).left);
    } else {
      SellSide(s.bids, o, o.quantity);
      RestLeftKeeps(s.asks, o, id, Sweep(Reverse(s.bids), o, o.quantity).left);
    }
  }

  /** So does every pair. */
  lemma PairSound(s: Sides, table: Table, bidId: u32, askId: u32)
    requires SoundSides(s) && bidId in table && askId in table && bidId != askId
    requires HasTarget(table[bidId], table) && HasTarget(table[askId], table)
    requires Orderly(table[bidId], bidId) && Orderly(table[askId], askId)
    requires Count(s.bids + s.asks, bidId) == 0 && Count(s.bids + s.asks, askId) == 0
    ensures SoundSides(PairMessage(s, table, bidId, askId).sides)
  {
    var gone := Gone(table[bidId], table) + Gone(table[askId], table);
    PullSound(s, gone);
    var clean := Pull(s, gone);
    StepSound(clean, table, table[bidId], bidId);
    StepCounts(clean, table, table[bidId], bidId, askId);
    StepSound(Step(clean, table, table[bidId], bidId).sides, table, table[askId], askId);
  }
}
