# A model of the exchange engine, with proofs

This project models the single-stock exchange of the repository in Dafny and proves what the engine is
built to guarantee: the order book rewrite, the server's settlement and its queues, the call auction,
the stop orders, the session bells, the two-level timing wheel, and the snapshot memory under them.
`dafny verify dfyconfig.toml` checks all of it. Nothing here was executed; every statement below is
about the model, for all inputs and all runs it allows.

## How it is organised

- **The order book** (`src/ob.c`). `Book` is the plain meaning of a message on two sides of price
  levels: pull the target, fill best price first and first come first served, rest or drop the
  remainder. `Snapshot` and `SnapshotWriter` are the layout: an index whose byte offsets are u32, and
  payload words laid end to end, read and written by the moving runners, here `Cursor` and `Writer`.
  `Ranges` finds the affected range, `Rewrite` copies spans and applies the nine ops, and `OneLeg`,
  `FirstLeg`, `Canrep` and `Pair`, `PairRewrite` prove that the one-pass rewrite equals the meaning,
  byte size, level count and best-bid index included. `Priority` and `PriorityPair` say whose turn it is
  before and after, without the rewrite. `Expire` does the same for the batch prune.
- **The server** (`src/server.c`). `BookRuns` is the invariant of a book over any run. `Weights`,
  `Settle` and `SettlePair` are conservation: shares weighed by any price, before and after. `LegWalk`
  prices an order before it is accepted; `Ledger`, `Desk`, `Prechecks`, `PairDesk` and `Server`
  (module `ServerOrders`) are the accounts, reserves, prechecks, the fill loop and the whole of
  `server_order` for single messages and pairs, and `FillOrKill` is when such an order fills whole. `Funds`
  and `FundsPair` are what the funds checks are for, `Prints` which price marks the market.
  `Closing` is the end of a session and `Billing` the calendar charges, on the same server object.
  `Stops`, `ExecQueues` and `Bells` are the stop triggers, the queue protocol and the session chain,
  the last one on the real scheduler.
- **The call auction**, also on the server object. `AuctionHold` is what a parked order ties up,
  `AuctionPark` lines the parked orders up through the heaps, `AuctionWalk` finds the price,
  `AuctionFill`, `AuctionSide`, `AuctionBook` and `AuctionStep` are the two sides and the book's part,
  `AuctionGain` says whose money and shares move, `Auctioneer` runs the cross, and `AuctionRest`,
  `AuctionAfter` and `AuctionLeft` are what it leaves.
- **All of it together**. `Exchange` is one object with the book, the order table, the accounts and the
  parked orders. Its invariant fixes the total of money and the total of shares and ties every reserve
  to what rests and what is parked; each of its operations, from minting an order to the monthly bill,
  keeps it, in any order, but for the exceptions below. `ExchangeFacts` holds its lemmas, and `Bystanders` is why parked orders sit out the
  continuous market.
- **Scheduler and memory**. `Pq`, `MaxHeap`, `RingBuffer`, `FreeList` and `Drains` are the containers.
  `Wheel` and `Scheduler` are `src/sch.c`. `BlobStore` is `src/bs.c`, `Feed` the pinning protocol that
  the server and the main loop run on it, and `OrderSlots` the life of an order's id.

Objects whose methods update their fields are classes; what the source computes by value is functions.
Each method states what it does by an equation with a specification function or with the old state, and
the lemmas say what that function means. `hide` keeps proofs short and changes no statement.

## What the code does that its comments do not say

Each of these has an instance and the exact condition, proved.

- A cancel in the auction window (`src/server.c:986-1014`) empties its target in the order table and gives
  its hold back without asking where the target is. In the opening window every cancel goes there.
  - The target rests, from the day before: its shares stay in the book and none are left in the table
    (`Bystanders.CancelBreaks`). Book and table stay in step if and only if the target does not rest.
  - The target neither rests nor is parked, such as an order overtaken by its own cancel: a hold is given
    back that was never taken, and the imbalance falls below what waits (`Exchange.Overtaken`). Every
    reserve stays backed if and only if the target is parked or has no hold to give back, and the
    imbalance stays what is parked if and only if the target is parked (`Exchange.Exchange.Unpark`).
- A message may carry the cancel bit and the replace bit (`src/server.c:1556-1564`). It is checked and executed
  as a replacement, and then not reserved, as a cancel (`src/server.c:1976`), so what it leaves rests bare
  (`ServerOrders.BareRests`). The reserves match the book if and only if nothing does
  (`ServerOrders.Server.ServerOrder`).
- A parked market buy is held at the mark (`src/server.c:967-970`) and given back at the mark of the cross or
  of the cancel. Auction-only orders park all day while trades move the mark, so the two differ unless
  the mark is the same or the client has no market buy parked (`AuctionHold.HoldReturns`,
  `AuctionHold.HoldLeaks`).
- These three are all that a single message does to the reserves: `Exchange` adds up in `drift`, client by
  client, what slips, `Exchange.Exchange.Execute` says exactly by how much, and every reserve is what its
  client's resting and parked orders tie up if and only if the drift is none in 32 bits
  (`Exchange.Exchange.BackedExactly`).
- The synthetic taker of `src/server.c:1141-1144` holds 16 bits, so the book gives up exactly its part of a
  cross if and only if that part is at most 65535 shares (`AuctionBook.ConsumesExactly`,
  `AuctionBook.ConsumesNothing`), and exactly then no share appears or disappears
  (`Auctioneer.CrossConserves`, `Exchange.Exchange.Cross`).
- The book's part goes ahead of better-priced parked orders (`src/server.c:1347-1350`), so a parked bid can
  be left above a parked ask (`AuctionAfter.CrossLeft`). That happens if and only if some parked bid and
  some parked ask at or below it have more waiting at their prices than their sides are filled, which
  can be read off before anybody is filled (`AuctionLeft.CrossLeftExactly`). It never happens when the
  book gives nothing, an empty book above all (`AuctionAfter.NoCrossLeft`).
- A fill-or-kill replacement is checked against the book with its own target still in it
  (`src/server.c:571-573`), which the rewrite then pulls. `FillOrKill.FokReplacementUnfilled` passes and fills
  nothing. `FillOrKill.FokWhole` is the exact condition: the facing shares at prices it accepts, less
  its own target's if that is one of them, reach its quantity. A target on its own side never matters.
- The funds of a replacement are checked against the book with its own target still in it
  (`src/server.c:571-588`). A client that replaces its own ask by a bid that reaches it is asked for the price of
  that ask and pays the next one's (`Funds.ReplacesOwnAsk`). The check lets through exactly what a cash
  account can afford, whatever it has, if and only if both books cost the order the same
  (`Funds.FundedExactly`); they do when no share of its own target is in reach (`Funds.OutOfReach`), which a
  target on its own side never is, and for every order to sell that may rest (`Funds.SellsAll`).
- A replacement at its target's own price and side is routed by `src/ob.c:487-504` before its time in
  force is looked at, so an IOC or FOK one rests (`InSlot.IocRests`). The rewrite has the plain meaning
  if and only if such a replacement carries neither bit (`InSlot.SlotNeedsGtc`), and only then do book
  and order table agree afterwards (`InSlot.SlotAgreesWithGtc`). The server's contracts are about the
  messages that pass this test.
- `src/server.c:1304` keeps the lowest *limit* price at which the maximum crosses, not the lowest price
  of all (`AuctionWalk.NotLowestOfAll`). It is the lowest of all if and only if, on the curves before
  the walk, there is a limit at zero, or an ask whose price still finds more demand than the market
  orders supply; with no limits at all, if and only if the mark is zero (`AuctionWalk.LowestExactly`).
- The walk sums shares in u32 (`src/server.c:1207-1209`). The sums are the curves at every price if and only if
  all the demand and all the supply fit 32 bits (`AuctionWalk.SumsFit`, `AuctionWalk.SumsWrap`).
- A client's reserves are u32 fields (`include/server.h:66-67`). They are the totals they stand for exactly
  while those fit 32 bits (`Desk.ReserveExact`), and two bids of 65535 shares at 65535 do not
  (`Desk.ReserveWraps`); everywhere else reserves are compared as 32-bit fields.
- `src/fl.c:13-15` says that ids at or above the limit are never handed out. The check at `src/fl.c:39`
  compares the stack pointer before it moves. An id at or above the limit is minted for the first
  time exactly when an insert starts with the pointer one below the limit, or with a full list whose
  next slot is the limit (`FreeList.FreeList.Insert`, `FreeList.FirstPast`): the fifth insert into a
  list of limit 5 mints 5, and one of limit 8192 mints 8193 (`FreeList.FifthOfFive`,
  `FreeList.PastCapacity`). For the order ids the id that equals the reserved packet is
  promised exactly when the pointer is one below it (`OrderSlots.Desk.Deliver`).
- `src/sch.c:236` speaks of about 585 years. Slow events keep their second in the upper 32 bits of a
  word (`src/sch.c:54`), which gives it back if and only if it is below 2^32, about 136 years
  (`Wheel.SlowWordExact`, `Wheel.SlowWordWraps`). Events at most 63 spans ahead have no such limit.
- The 32-bit index of a heap's child is that of the tree up to slot 2^30 (`Pq.ChildIndex`) and below slot
  2^31 (`MaxHeap.ChildIndex`), earlier than the stop at `src/pq.c:30`; the doubled capacity of the blob
  store is what is stored below 2^31 and 0 at 2^31 (`BlobStore.DoublingFits`).
- The over-fill exit (`src/server.c:1876-1880`), the empty-queue guards (`src/server.c:2406-2410`,
  `src/server.c:2470-2473`) and the past-time clamp (`src/sch.c:213-214`) are modelled and proved never
  taken in the states the engine reaches.

## Model

| member | source | states |
|---|---|---|
| `Canrep.ObCanrep` | src/ob.c:1060-1139 | For every well-formed book and accepted single order the new snapshot, its level count, best-bid index, byte size and fill queue are exactly those of the plain meaning, and it is at most one index, header and entry larger. Queue by queue everybody keeps their turn: in its target's slot a strictly smaller order stands where its target stood and any other goes to the back, elsewhere what is left joins the back at its price, and the other side is served best price first, front first, nobody past the limit |
| `PairRewrite.ObPair` | src/ob.c:971-1057 | The same for an atomic pair: pull both targets, submit the bid, then the ask; at most two triples larger. Each leg ends in its target's place if it is a strict reduction there, else behind everybody at its price |
| `Priority.MessageTurns` | src/ob.c:487-504 | Any message on any sound book, said of the queues alone: a replacement in its target's slot stands at its target's index when it is strictly smaller and last otherwise, with the others in their order; any other order pulls its target, joins the back with what is left, and takes from the other side by price and then time |
| `Priority.SweepByPriority` | src/ob.c:553-640 | A level is touched only if every better one is gone, an order only if everybody ahead of it is gone, no price past the limit is touched, and a taker that is not spent leaves nobody within it |
| `Priority.SlotTurns` | src/ob.c:487-504 | The same-slot replacement alone: one queue changes, as said, and nobody trades |
| `Priority.SameSizeRequeues` | src/ob.c:492-504 | An instance: order 3 replaces order 1 for the same ten shares at 50 and stands behind order 2 |
| `PriorityPair.PairTurns` | src/ob.c:971-1057 | Where both legs of a pair stand when it is done, whatever the other leg traded |
| `Expire.ObExpire` | src/ob.c:405-457 | A sorted batch of distinct resting orders leaves exactly the book without them, boundary and level count right, never larger |
| `InSlot.SlotNeedsGtc` | src/ob.c:487-504 | A same-slot replacement is handled as its message means if and only if it is good till cancelled |
| `InSlot.HandledAsIs` | src/ob.c:487-504 | Any other message, and any good-till-cancelled one, is handled as it stands |
| `InSlot.SlotAgreesWithGtc` | src/server.c:1957-1958 | Once settled, book and order table agree if and only if a same-slot replacement is good till cancelled |
| `InSlot.IocRests` | src/ob.c:487-504 | An instance: an IOC replacement in its target's slot rests |
| `Machine.Step16Wraps` | src/ob.c:553 | A step of a level index, written out by cases, is the 16-bit addition, wraps included |
| `Ranges.FindSlot` | src/ob.c:657-692 | The quiet order's level is the one with its price, or the gap between its two neighbours in price |
| `Ranges.SearchOut` | src/ob.c:665-691 | The outward search from the inside of a side ends at that level or gap, with u16 steps |
| `Ranges.Marketable` | src/ob.c:523-548 | The marketability test is true exactly when the best facing level trades with the order |
| `Ranges.EffectiveQuantity` | src/ob.c:569-582 | A level's size less either leg's target is the total of the orders that stay on it |
| `Ranges.FillLevel` | src/ob.c:595-607 | A swallowed level queues one whole fill for each order that neither leg pulls, in order |
| `Ranges.Walk` | src/ob.c:553-640 | The walk stops where a sweep of the facing levels stops, with the same fills, the same remainder and the right op |
| `Ranges.ClearNext` | src/ob.c:589-621 | Swallowing one more level is one more level of the sweep |
| `OneLeg.WalkedSweep` | src/ob.c:548-640 | The walk and the bite into the last level together are the sweep of the facing side |
| `OneLeg.QueueStep` | src/ob.c:872-893 | NEW, APPEND and CAN_REP put the order where resting it would |
| `OneLeg.ShrinkStep` | src/ob.c:928-933 | SHRINK replaces the target where it stands in its queue |
| `OneLeg.CancelStep` | src/ob.c:477-484 | CAN_WIPE and CAN_NO_WIPE take out the target and, exactly when it was alone, its level |
| `OneLeg.TradeStep` | src/ob.c:894-919 | REST_REMAINDER, FILL_SOME and EXACT leave what trading and resting leave |
| `FirstLeg.LocalLeg` | src/ob.c:642-696 | A leg that does not trade changes its own side's range only, and that range lies on its own side |
| `FirstLeg.TradeLeg` | src/ob.c:548-640 | A leg that trades consumes the inside of the other side and rests next to it |
| `Canrep.LegOnOldBook` | src/ob.c:462-701 | For each of the nine ops the range, the fills and the serialized middle give the meaning of the order on the old book |
| `Canrep.LevelCountRight` | src/ob.c:1092-1112 | The u16 level count, sentinels and wraps included, is the number of levels written |
| `Canrep.HiBidRight` | src/ob.c:868-938 | The best-bid index each op computes, wraps included, is the number of new bid levels less one |
| `Canrep.NewSize` | src/server.c:1778-1785 | The bytes written never exceed the old size plus one triple, so the reservation suffices |
| `Rewrite.SideInit` | src/ob.c:723-734 | The target is found at its level, and it is flagged sole exactly when it is alone there |
| `Rewrite.AffectedRange` | src/ob.c:462-701 | The range, op, modified level, remainder and fills satisfy the plan the rewrite needs |
| `Rewrite.ApplyOp` | src/ob.c:857-939 | Each op writes exactly its middle levels and queues exactly its fills |
| `Rewrite.CopyRange` | src/ob.c:818-853 | Bulk copies around up to two cuts write exactly the levels of the range with the cancels pruned |
| `Rewrite.CopyCut` | src/ob.c:788-808 | A cut level is spliced, or vanishes when its only order goes |
| `SnapshotWriter.Writer.CopySpan` | src/ob.c:755-783 | One copy with a shared rebased offset equals copying the run level by level |
| `SnapshotWriter.Span` | src/ob.c:759-767 | The words from the first payload to the end of the last are exactly the payloads of the run |
| `SnapshotWriter.Rebased` | src/ob.c:769-774 | Shifting every offset by one delta gives the index of the run at its new place |
| `SnapshotWriter.CopySizeExact` | src/ob.c:133 | The 16-bit byte size of a level is exact if and only if it holds at most 8191 entries |
| `SnapshotWriter.Writer.CopyLevel` | src/ob.c:122-135 | The open level is the level read |
| `SnapshotWriter.Writer.AppLevel` | src/ob.c:139-152 | The open level gains the entry at its back and its quantity |
| `SnapshotWriter.Writer.ShrinkLevel` | src/ob.c:155-165 | The entry is replaced in place and the level total stays the total |
| `SnapshotWriter.Writer.InsertLevel` | src/ob.c:173-182 | The open level holds that one entry |
| `SnapshotWriter.Writer.FillRemove` | src/ob.c:196-242 | What stays of a bitten level, its quantity and the fills are those of first come first served among the orders not pulled |
| `SnapshotWriter.Writer.SpliceLevel` | src/ob.c:249-270 | The level without the cancelled order, its quantity right |
| `SnapshotWriter.Writer.Jump` | src/ob.c:273-280 | The next level's payload starts where this one ends |
| `SnapshotWriter.Writer.Finish` | src/ob.c:1133-1138 | The snapshot written represents the levels, in their exact size |
| `Snapshot.Cursor.ToIndex` | src/ob.c:184-188 | An offset of the index leads to that level's payload |
| `Snapshot.Cursor.Jump` | src/ob.c:273-280 | Walking by size stays consistent with the index offsets |
| `Snapshot.PayloadAt` | src/ob.c:750-754 | Payloads lie end to end in index order |
| `Snapshot.OffsetsFit` | src/ob.c:764-773 | A snapshot whose size fits 32 bits keeps every byte offset in 32 bits |
| `PairRewrite.OpCoversRight` | src/ob.c:746-748 | The modular test covers exactly the levels of the range, for empty ranges and sentinels too |
| `Pair.OneTrades` | src/ob.c:968-970 | At most one leg of a pair trades |
| `Pair.RangesOrdered` | src/ob.c:968-970 | The two affected ranges are disjoint, the bid's below the ask's |
| `Pair.PairSkips` | src/ob.c:573-582 | The orders a walking leg skips are exactly the two targets |
| `Pair.LocalThenLocal` | src/ob.c:1017-1021 | Two quiet legs: the ask's step after the bid's is its own range alone |
| `Pair.TradeThenLocal` | src/ob.c:1017-1021 | A trading bid, then a quiet ask |
| `Pair.LocalThenTrade` | src/ob.c:1017-1021 | A quiet bid, then a trading ask, which leaves the new bid alone |
| `PairRewrite.PairSteps` | src/ob.c:1017-1021 | Bid step then ask step on the pruned book are the two middles between the three copied runs |
| `PairRewrite.PairLevelCountRight` | src/ob.c:984-1003 | The wrapping level count is the sum of the five regions less the sole cancels that only the copies would have carried |
| `PairRewrite.PairBidCountRight` | src/ob.c:1023-1054 | The region-by-region bid count, wraps included, is the plain count |
| `PairRewrite.PairSize` | src/server.c:1778-1785 | A pair adds at most two triples |
| `PairRewrite.SerializePair` | src/ob.c:1005-1021 | The single pass writes the five runs of the new book and queues both legs' fills |
| `Expire.CancelsHit` | src/ob.c:350-364 | The binary search finds an id exactly when it is in the run |
| `Expire.LevelHits` | src/ob.c:393-400 | The shared cursor stops at exactly the run of this price |
| `Expire.CountSurvivors` | src/ob.c:415-432 | The first pass counts exactly the levels and bid levels the second one writes |
| `Expire.PrunedOrders` | src/ob.c:375-388 | A level keeps exactly the orders whose id is not in the run, and their total |
| `Expire.WordOrder` | src/server.c:2163 | The packed word orders by price, then id, and gives both back |
| `BookRuns.MessageSound` | src/ob.c:1060-1139 | Every message keeps prices strictly climbing, quantities positive and totals right, and each id at most once |
| `BookRuns.PairSound` | src/ob.c:971-1057 | So does every pair |
| `Weights.SweepConserves` | src/ob.c:548-640 | Whatever a share is worth, a sweep splits the side's worth into what stays and what fills |
| `Settle.MessageConserves` | src/server.c:1841-1904 | Under any weight, book after plus fills plus pulled equals book before plus rested |
| `Settle.MessageFillOk` | src/server.c:1841-1850 | Every fill is of another order on the other side, at a price the taker accepts, never of the target |
| `Settle.MessageHeld` | src/server.c:1882-1884 | After settlement an order's shares in the book are its quantity in the table, none included |
| `Settle.MessageAccounts` | src/server.c:1957-2030 | Whoever is filled whole, pulled, or dropped as IOC or FOK has a quantity of none, and whoever rests has what rests |
| `SettlePair.PairAccounts` | src/server.c:1957-2030 | The same for a pair |
| `Settle.MessageAgrees` | src/server.c:1841-1904 | Book and order table agree entry by entry after every message |
| `SettlePair.OneLegTrades` | src/server.c:1794-1811 | Of a pair's two fill lists one is empty |
| `SettlePair.TargetsSpared` | src/ob.c:573-582 | Neither leg ever fills either target |
| `SettlePair.PairConserves` | src/server.c:1841-1904 | Conservation under any weight, for a pair |
| `SettlePair.PairAgrees` | src/server.c:1841-1904 | Book and table agree entry by entry after every pair |
| `LegWalk.WalkIsSweep` | src/server.c:475-506 | The charge of the walk is that of the shares a sweep fills, those after the first close_q opening |
| `LegWalk.PriceLeg` | src/server.c:467-518 | q_remain, cost and open_notional are those of the sweep plus the resting part |
| `LegWalk.WalkPredicts` | src/server.c:467-518 | What the walk leaves is what the message leaves unfilled, and its path is the fills' path |
| `LegWalk.ChargeFits` | src/server.c:482-514 | For 16-bit price and quantity the cost fits 32 bits |
| `Ledger.FillAccounts` | src/server.c:1892-1912 | The account writes of one fill: taker, maker, fee and rebate, also when both are one client |
| `Ledger.TakerCost` | src/server.c:1851 | The taker pays the sum over the shares of the walk's path |
| `Prechecks.CancelPrecheck` | src/server.c:329-378 | The reason is exactly the specified one: a cancel passes if and only if the target is the client's own, not done, and rests |
| `Prechecks.AddPrecheck` | src/server.c:525-590 | The reason is exactly the specified one: an order passes if and only if it is well formed, a fill-or-kill would sweep the book clean, and its exact charge is within the limit of its pool |
| `PairDesk.PickTaker` | src/server.c:1800-1811 | The best-bid and best-ask test picks the leg that trades |
| `ServerOrders.Server.SettleFill` | src/server.c:1876-1912 | One fill; the over-fill exit is taken exactly when the fill is larger than the taker |
| `ServerOrders.Server.SettleFills` | src/server.c:1841-1940 | The whole loop never over-fills and moves every account by exactly its fills |
| `ServerOrders.Server.Settle` | src/server.c:1841-2038 | Fills, remainder, reserves and retirement leave book, table and reserves in step but for what a message that is a cancel too leaves bare; every account moved by exactly its own fills, and money and shares are constant |
| `ServerOrders.Server.Precheck` | src/server.c:525-648 | The reason is exactly the specified one, first the cancel's and then the order's, and what passes is what the rewrite needs |
| `ServerOrders.Server.ServerOrder` | src/server.c:1424-2070 | One single message end to end: accepted exactly when no reason is specified against it; rejected, it changes nothing but itself; accepted, snapshot and order table match what the message means, the reserves match it but for what rests bare and wholly if and only if nothing does, each client's cash and shares move by exactly its own fills, fees and rebates, a fill-or-kill fills whole exactly when the book reaches it without its own target, and total cash plus the exchange's and total shares are constant; a cash account passes exactly when it can pay for the fills and still cover what is tied up afterwards, a margin account exactly when its buying power covers the new exposure, and afterwards every client is covered as the law of `Funds` says; the exchange never loses by a trade |
| `ServerOrders.BareRests` | src/server.c:1976 | An instance: a replacement that is a cancel too is accepted and rests with no reserve |
| `ServerOrders.Server.PairPrecheck` | src/server.c:652-747 | The reason is exactly the specified one, for any pair, whichever side its targets rest on; a passed pair whose targets rest on its own sides is what the rewrite needs |
| `ServerOrders.Server.ServerPair` | src/server.c:1424-2070 | One pair end to end: accepted exactly when no reason is specified against it, and then snapshot, order table, reserves and each client's cash and shares are those of the pair's meaning; one of its legs fills nothing; a cash account's quotes pass exactly when both pools cover both legs, and are covered afterwards |
| `Funds.JudgedHere` | src/server.c:525-591 | The reason of an order that is more than a cancel, said of book, fills and accounts: malformed, it is turned away; well formed, a cash account passes if and only if its own money (or shares) pays the fills and covers everything tied up in the book the message leaves, and a margin account if and only if its buying power covers the shares that close nothing |
| `Funds.FreeAffords` | src/server.c:577-588 | What is free, the target's part included, covers what is due exactly when the client can afford the message |
| `Funds.DueIsPaid` | src/server.c:467-515 | What is due on the book without the target is what the message pays and leaves resting |
| `Funds.OutOfReach` | src/server.c:474-502 | With no share of its own target in reach the order is offered the very same shares without it |
| `Funds.SellsAll` | src/server.c:490-513 | An order to sell that may rest needs its whole size on either book |
| `Funds.FundedExactly` | src/server.c:571-588 | The check lets through what the client can afford, whatever it has, if and only if the book with its own target and the book without cost the order the same |
| `Funds.ReplacesOwnAsk` | src/server.c:571-588 | An instance where they do not: 500 in cash pass the check of a message that costs 600 |
| `Funds.StillCovers` | src/server.c:577-588 | After an accepted order its client's cash, plus the fees it paid, less its rebates, covers its bids and parked buys, or its shares its asks |
| `Funds.CoverKept` | src/server.c:1867-1948 | Every other client, and the message's own in the other pool, is covered as far as before |
| `Funds.ClosingIsFree` | src/server.c:452-465 | Buying back a short, or selling longs not on offer yet, needs no buying power; with nothing to close every share counts at its price |
| `FundsPair.PairFreeAffords` | src/server.c:736-747 | The two pools cover the two legs exactly when the client can afford the pair |
| `FundsPair.PairStillCovers` | src/server.c:736-747 | After the pair both pools cover what is tied up, but for fees |
| `FundsPair.PairOutOfReach` | src/server.c:720-724 | With the ask's target above the bid's limit the bid leg costs what the old book would have cost it |
| `ServerOrders.Server.OrderJudged` | src/server.c:525-591 | The specified reason of any single order is the one its funds deserve |
| `ServerOrders.Server.PairIsJudged` | src/server.c:652-747 | So is that of a pair of quotes from a cash account |
| `Ledger.FeeRates` | include/constants.h:92-94 | Three mills a share from the taker, two to the maker, in whole dollars; never more out than in |
| `ServerOrders.NextBook` | src/server.c:1822-1824 | The snapshot written is a legal old book for the next message |
| `FillOrKill.FokWhole` | src/server.c:571-573 | An accepted fill-or-kill fills whole if and only if the facing shares in reach, less its own target's, are enough; so always when it pulls nothing facing it |
| `FillOrKill.FokReplacementUnfilled` | src/server.c:619-647 | An instance: a fill-or-kill replacement that passes the precheck and fills nothing |
| `Desk.ReserveExact` | include/server.h:66-67 | A reserve is the total of what rests and what is parked if and only if that total fits 32 bits |
| `Desk.ReserveWraps` | include/server.h:66-67 | An instance: two resting bids whose total does not fit |
| `ServerOrders.RejectedInStep` | src/server.c:1610-1624 | A rejected order leaves book, table and reserves in step |
| `Closing.CollectExpire` | src/server.c:2120-2170 | One expiry is collected exactly when its bits still say so and it rests; reserve, table and heap follow |
| `Closing.OneExpired` | src/server.c:2146-2151 | Pulling one resting order with its reserve keeps everything in step |
| `Closing.SortedBatch` | src/server.c:2173-2181 | The drained words are the batch in strictly climbing order, each id once |
| `Closing.CloseDay` | src/server.c:2256-2260 | Exactly the queued day orders that rest are collected |
| `Closing.CloseDated` | src/server.c:2262-2271 | Exactly the dated orders that are due, and still carry that date, are collected; what stays in the heap is later |
| `Closing.PruneBook` | src/server.c:2173-2213 | Heap, flat sorted buffer and one prune: the book without the batch |
| `Closing.CloseSession` | src/server.c:2249-2274 | The end of a session takes out exactly the due orders and leaves book, table and reserves in step |
| `Billing.Charge` | src/server.c:2308-2332 | Every fee leaves a client and reaches the exchange: the total is constant |
| `Billing.Eom` | src/server.c:2308-2317 | The monthly fee by tier and add-on, exactly, with nothing else changed and reserves still in step |
| `Billing.Eod` | src/server.c:2321-2332 | One day's borrow on every short and nothing on a long, exactly |
| `Billing.BorrowRate` | src/server.c:2321-2332 | A long pays nothing, and a short three per cent a year of its value at the mark, on a 360-day year, rounded down |
| `Billing.BorrowGrows` | src/server.c:2321-2332 | The more a short is worth, the more it pays |
| `Billing.FeeFalls` | src/server.c:2289-2317 | Slower data never costs more, the add-on costs the same on every tier, and only the last tiers are free |
| `AuctionWalk.Walk` | src/server.c:1270-1320 | The volume is the maximum over all prices of the smaller of demand and supply, and the price the lowest limit price that attains it; it is the lowest of all prices if and only if the guard on the curves holds |
| `AuctionWalk.DemandSupplyMonotone` | src/server.c:1255-1257 | Demand falls and supply rises with the price |
| `AuctionWalk.LowestExactly` | src/server.c:1304-1307 | The price is the lowest of all prices if and only if a limit is at zero or some ask still finds more demand than the market orders supply, read off the curves before the walk |
| `AuctionWalk.NotLowestOfAll` | src/server.c:1304-1307 | An instance where a lower price crosses as much |
| `AuctionWalk.ClearedOnce` | src/server.c:1301-1320 | The price and the volume of a cross are unique |
| `AuctionWalk.SumsFit` | src/server.c:1207-1209 | The 32-bit sums are the curves at every price if and only if all demand and all supply fit |
| `AuctionWalk.SumsWrap` | src/server.c:1207-1209 | An instance: market orders for 2^32 shares read as none |
| `AuctionFill.CrossingWaits` | src/server.c:1106-1110 | The limits the fill loop reaches hold exactly the curve's shares at the price |
| `AuctionFill.ServedAt` | src/server.c:1075-1131 | An order in line is filled by what the shares leave after those before it |
| `AuctionBook.OneSideReached` | src/server.c:1333-1345 | At any price at most one side of the book is reached |
| `AuctionBook.ReachIsCurve` | src/server.c:1333-1341 | What the taker would cross is what the curve counts |
| `AuctionBook.ConsumesExactly` | src/server.c:1139-1145 | The synthetic taker eats exactly its shares if and only if they fit 16 bits |
| `AuctionBook.ConsumesNothing` | src/server.c:1139-1145 | An instance: asked for 65536 shares the taker takes none |
| `AuctionBook.ConsumeBook` | src/server.c:1134-1161 | The book after its part is the old book after the taker's order, its quantity cut to 16 bits, even to none, never larger |
| `AuctionStep.ConsumedInStep` | src/server.c:1163-1187 | Makers less their fills, reserves released: book, table and reserves are in step again |
| `AuctionStep.ServedInStep` | src/server.c:1075-1131 | Filling parked orders leaves them in step |
| `AuctionHold.HoldOne` | src/server.c:965-970 | Parking reserves cash at the order's price, or the mark, for a buy and shares for a sell, for its own client alone |
| `AuctionHold.FreeOne` | src/server.c:973-978 | The same given back, at the mark of that moment |
| `AuctionHold.HoldReturns` | src/server.c:965-978 | What is given back at one mark is what was held at another if and only if the marks are the same or no market buy is parked |
| `AuctionHold.HoldLeaks` | src/server.c:965-978 | An instance: a market buy held at 50 and given back at 60 |
| `AuctionPark.Separate` | src/server.c:1203-1241 | Every live arrival is in its side's market line by arrival or in its side's heap under price and tie; with release each hold comes back, without no account changes |
| `AuctionPark.Sort` | src/server.c:1243-1253 | A heap drained and decoded is the side's live limits, all of them, best price first and the earlier first within a price |
| `AuctionPark.LineUp` | src/server.c:1203-1253 | Both at once: the lists a cross fills from, made from the arrivals |
| `AuctionPark.LinedUpParked` | src/server.c:1203-1253 | Lists made from arrivals name nobody twice, nobody on both sides and nobody who rests |
| `AuctionPark.NobodyPassed` | src/server.c:1075-1131 | Nobody in a line gets a share before everybody ahead of it is full |
| `AuctionRest.Drain` | src/server.c:1374-1412 | Field by field: an auction-only remainder loses its shares and nothing else, a stranded market order becomes a limit at the clearing price with its shares, a limit keeps its price, a filled order stays as it is, nobody else is touched, and the residual is handed on |
| `AuctionRest.ResidualIs` | src/server.c:1382-1407 | The residual is exactly the parked orders with shares left that may live on, each once, the earlier first |
| `AuctionRest.HandedOn` | src/server.c:1388-1406 | Who lives on is a limit order with its shares unchanged; everybody else has none |
| `AuctionSide.FillSide` | src/server.c:1075-1131 | Markets first, then limits from the best price to the last that crosses, in their order; each client gains exactly what its own orders in the line were filled and pays the clearing price for it |
| `Auctioneer.SettleMaker` | src/server.c:1165-1185 | The maker's own client trades at the clearing price and gets its reserve back at its own; nobody else moves |
| `Auctioneer.TakeFromBook` | src/server.c:1134-1197 | The book's part, cut to 16 bits: exact shares, exact snapshot, exact order table, each maker's client paid for exactly its own fills, nobody else moved |
| `Auctioneer.Cross` | src/server.c:1324-1367 | From the arrivals: the price and volume are those of the curves, both sides fill the matched volume, at most one book side is consumed, every order ends where price and then arrival puts it, each client's cash and shares move by exactly its own fills at the clearing price, holds come back, and book, table and reserves stay in step |
| `Auctioneer.CrossConserves` | src/server.c:1341-1356 | No share appears or disappears in a cross if and only if the book's part fits 16 bits; then no money does either |
| `Auctioneer.Indicative` | src/server.c:2371-2380 | The read-only pass runs the same walk and leaves every order, account and reserve as it was |
| `Auctioneer.BothReach` | src/server.c:1301-1307 | Demand and supply at the clearing price both reach the matched volume |
| `Auctioneer.ReadCurves` | src/server.c:1255-1294 | What the walk reads off the lists and the snapshot's index is the curves of the parked orders and the book |
| `AuctionAfter.NoCrossLeft` | src/server.c:1324-1367 | When the book gives nothing to the cross, an empty book above all, no unfilled parked bid is left at or above an unfilled parked ask |
| `AuctionAfter.CrossLeft` | src/server.c:1347-1355 | An instance: the book's part goes ahead of a better-priced parked bid, which is left above a parked ask |
| `AuctionLeft.CrossLeftExactly` | src/server.c:1324-1367 | A parked bid and a parked ask that cross are left over if and only if some parked bid and ask that cross have more waiting at their prices than their sides are filled |
| `AuctionLeft.SomeoneLeft` | src/server.c:1075-1131 | If the shares do not cover everybody at an order's price or better, somebody at that price or better is left |
| `AuctionAfter.LookIsCross` | src/server.c:2371-2380 | What the read-only pass publishes is what a cross of the same orders clears at |
| `AuctionAfter.LeftOver` | src/server.c:1075-1131 | An order left unfilled had more waiting at its price than was matched |
| `Exchange.Exchange.Execute` | src/server.c:1452-1578 | Any single message, with its exact reason and its exact effect on book, orders, accounts, window, mark and drift: turned away, parked, taken out or executed; book and table are out of step afterwards if and only if the window accepted a cancel of a resting order, and with the mark as it was every reserve is backed if and only if the window gave back no hold it did not have and nothing rests bare; same-slot IOC and FOK replacements are not among the messages. With the market open an order that is not auction-only never reaches the window, a closed market outside a window turns it away, a frozen window takes nobody out, a late add never grows the imbalance, and the mark moves to the worst price reached |
| `Exchange.Exchange.SubmitOrder` | src/server.c:1462-2080 | With orders parked a message means what it means without, the parked orders stay as they are, the mark is the last trade's price, which is the worst price reached, the funds are judged and covered with the parked orders counted in, what slips is exactly stated, and all invariants of the exchange are kept |
| `Exchange.Exchange.SubmitPair` | src/server.c:1462-2080 | The same for a pair |
| `Prints.MessageWorsens` | src/server.c:1867-1948 | A message trades at ever worse prices for its taker |
| `Prints.PairWorsens` | src/server.c:1867-1948 | So does the leg of a pair that trades |
| `ExchangeFacts.MessageMarks` | src/server.c:2074-2076 | The mark after a message is the worst price among its fills, or what it was |
| `Exchange.Exchange.Park` | src/server.c:1017-1068 | An add parks exactly when it is plain and priced, late in the closing window on the lighter side of the imbalance, and covered by its client's own money or shares; then the side that was ahead stays where it was, the client's pool covers its reserve within 32 bits, the order is held, counted in the imbalance and behind everybody before it, and every reserve stays backed |
| `Exchange.Exchange.ParkIsJudged` | src/server.c:1017-1058 | The specified reason, seen from what the window is for: malformed, growing the imbalance, or not covered |
| `ExchangeFacts.HeldCovered` | src/server.c:1046-1058 | With one more hold the client's cash covers its reserve, or its shares do, while the sum fits 32 bits |
| `Exchange.Exchange.Unpark` | src/server.c:986-1014 | A cancel in the window is accepted exactly when the window is not frozen and the target is the client's own with shares left, and gives the hold back; book and table stay in step if and only if the target does not rest, reserves stay backed if and only if it was parked or had no hold, and the imbalance stays right if and only if it was parked |
| `Exchange.Overtaken` | src/server.c:986-1014 | An instance, on a new exchange: an order cancelled before it got to park leaves a reserve below what is tied up and an imbalance of less than none |
| `Exchange.Exchange.BackedExactly` | src/server.c:965-978 | Every reserve is what rests and what is parked if and only if what slipped adds up to none in 32 bits |
| `Exchange.Exchange.Cross` | src/server.c:1324-1418 | The cross on the whole exchange: nothing parked afterwards, the imbalance zero, the book less its part, a crossing pair left exactly when foreseen, the residual on its way, the mark moved, everything in step and the totals constant if and only if the book's part fits 16 bits. Every parked order goes on field by field as it should: client, side and qualifiers stay, a limit keeps its price, a market order gets the clearing price, an auction-only order loses only its shares, a filled one stays as it is |
| `Exchange.Exchange.Look` | src/server.c:2367-2380 | The feed's look changes nothing |
| `Exchange.Exchange.EndSession` | src/server.c:2249-2274 | The close with orders parked: exactly the due orders leave, the parked ones stay, totals and reserves are kept; afterwards no queued day order and no listed order whose date has come rests, and whatever stays longer is where it was |
| `ExchangeFacts.DueLeave` | src/server.c:2256-2274 | Order by order: good till cancelled or later stays, due leaves |
| `Exchange.Exchange.EndDay` | src/server.c:2321-2332 | The borrow charge keeps all invariants of the exchange |
| `Exchange.Exchange.EndMonth` | src/server.c:2308-2317 | So does the monthly fee |
| `Exchange.Exchange.Mint` | src/fl.c:91-106 | A new order in a free slot disturbs nothing |
| `Exchange.Exchange.Free` | src/fl.c:108-123 | Nor does giving back a slot nobody refers to |
| `Exchange.Exchange.Bell` | src/server.c:2216-2254 | A bell sets the flags by its stage alone and disturbs nothing else; from the flags of one bell awaited it makes those of the next |
| `Bystanders.MessageSpares` | src/server.c:1841-2038 | A message leaves an order alone that does not rest and is not its own |
| `Bystanders.PairSpares` | src/server.c:1841-2060 | So does a pair |
| `Bystanders.EmptiedAgrees` | src/server.c:1011-1012 | Emptying an order keeps book and table in agreement if and only if it does not rest |
| `Bystanders.CancelBreaks` | src/server.c:986-1014 | An instance: a resting bid cancelled in the window |
| `Stops.StopDesk.BatchInsert` | src/server.c:779-814 | The newcomer joins the batch in arrival order; everything before the batch is untouched |
| `Stops.StopDesk.Fire` | src/server.c:819-842 | An entry fires exactly when its slot still holds that live armed stop, and converts it |
| `Stops.FireKeepsListed` | src/server.c:816-827 | A handled entry, stale or not, is never needed again |
| `Stops.StopDesk.Place` | src/server.c:755-768 | A slot's new owner is listed if armed, whatever entries the old one left |
| `Stops.StopDesk.Cancel` | src/server.c:1680-1704 | A cancelled or replaced armed stop fires for no print, and none of its slot's entries fires until a new order is placed |
| `Stops.StopDesk.CheckStops` | src/server.c:888-914 | Exactly the live triggered stops are queued, each once, buys rising, sells falling, by arrival within a price, behind what was queued; none stays armed; field by field a stop limit is now a plain limit with its time in force, a plain stop a market order, FOK if it was and IOC otherwise, price, side, arrival and shares stay, and no other order changed |
| `Stops.FiredWentOff` | src/server.c:830-838 | What a fired stop has become, field by field |
| `ExecQueues.Engine.Turn` | src/server.c:2402-2510 | Any pending event in any order keeps the protocol: events match queue lengths, nothing is lost, doubled or overtaken, and the remaining work shrinks |
| `ExecQueues.Engine.Arrive` | src/server.c:2437-2444 | An arrival is queued with its own event |
| `ExecQueues.Engine.Drain` | src/server.c:2488-2510 | One drain moves exactly one batch and eats its sentinel |
| `ExecQueues.Engine.FinishExecuting` | src/server.c:2402-2434 | The executed order leaves, converted orders are capped, and the next end is scheduled exactly when one waits |
| `ExecQueues.Engine.AuctionResidual` | src/server.c:1374-1418 | The cross's residual is one capped batch with its own drain |
| `ExecQueues.FirstBatch` | src/server.c:2504-2508 | A batch ends at its own sentinel, and the rest is still capped |
| `ExecQueues.WaitingIsScheduled` | src/server.c:2446-2485 | While an order waits anywhere, the event that moves it is scheduled |
| `ExecQueues.QuietMeansDone` | src/server.c:2402-2510 | When nothing is pending every order was executed once, first in first out from each source |
| `Bells.TradingDays` | include/constants.h:81-83 | The trading days are exactly the days that are no Saturday or Sunday |
| `Bells.DueNext` | include/constants.h:68-83 | The program's delays add up to the timetable, weekend included, for every bell of every day |
| `Bells.BellFlags` | src/server.c:2216-2254 | A bell makes of the flags what they have to be while the next one is awaited |
| `Bells.BellPumped` | src/sch.c:190-222 | The pump moves the pending bell to its exact second or leaves it; it is never lost or doubled |
| `Bells.BellPopped` | src/sch.c:132-163 | A bell that comes out is the pending one, on its second |
| `Bells.Session.Turn` | src/server.c:2216-2281 | One pop of the real scheduler: exactly one bell stays pending, and it rings at its timetable's second with the session's flags right |
| `Bells.Session.OnBell` | src/main.c:371-389 | Each bell schedules exactly the next |
| `Bells.Session.Begin` | src/main.c:101-103 | The chain starts with the first opening window |
| `Bells.Session.Other` | src/server.c:2399 | Scheduling any other event leaves the bells' chain as it is |
| `Scheduler.Sch.Schedule` | src/sch.c:67-127 | Up to 63 spans ahead, at any time, the event lands at exactly now plus delta; beyond, in the slow heap at the first second not before it |
| `Scheduler.Sch.Advance` | src/sch.c:147-157 | The bucket search ends within 64 steps, before the pump |
| `Scheduler.Sch.Pop` | src/sch.c:132-233 | The event popped is the least of all by time and bits, time never goes back, exactly it leaves, and a pump moves each slow event in range once, to its own lap |
| `Scheduler.Sch.MigrateOne` | src/sch.c:198-219 | A slow event reaches the wheel at its second plus its jitter; the clamp is never needed |
| `Scheduler.SlowLate` | src/sch.c:43-49 | A slow event is never early and late by less than a second and the jitter; a bell due on a second is exact |
| `Scheduler.MovesAdd` | src/sch.c:216-219 | Every moved event adds one at its moment and nothing on any other lap |
| `Wheel.LeastOfAll` | src/sch.c:161 | The least word of the first occupied bucket is the least of everything |
| `Wheel.AdvanceKeeps` | src/sch.c:149-155 | Passing empty buckets changes no event's lap |
| `Wheel.MigrationReach` | src/sch.c:180-187 | 62 spans plus rounding and jitter stay within the wheel |
| `Wheel.SlowWordExact` | src/sch.c:54 | The slow heap's 64-bit word gives its second and its event back if and only if the second is below 2^32 |
| `Wheel.SlowWordWraps` | src/sch.c:54 | An instance: second 2^32 comes back as second 0 |
| `Pq.Queue.Push` | src/pq.c:27-69 | The multiset gains the event, growth included |
| `Pq.Queue.Pop` | src/pq.c:84-148 | The least event leaves; 0 from an empty heap |
| `Pq.RootIsMinimum` | src/pq.c:73-81 | The root of the 4-ary heap is its minimum |
| `Pq.ChildIndex` | src/pq.c:117 | The 32-bit index of the first child is that of the tree if and only if the slot is at most 2^30 |
| `MaxHeap.Heap.Push` | src/xpq.c:24-59 | The multiset gains the event, growth included |
| `MaxHeap.Heap.Pop` | src/xpq.c:65-125 | The greatest event leaves; 0 from an empty heap |
| `MaxHeap.RootIsMaximum` | src/xpq.c:61-63 | The root of the binary heap is its maximum |
| `MaxHeap.ChildIndex` | src/xpq.c:83 | The 32-bit index of the left child is that of the tree if and only if the slot is below 2^31 |
| `RingBuffer.Ring.Queue` | src/cb.c:23-66 | The sequence gains the value across wrap and growth; only a full ring at its last capacity refuses |
| `RingBuffer.Ring.Deque` | src/cb.c:76-90 | The oldest value leaves |
| `RingBuffer.Ring.Count` | src/cb.c:96-101 | The length, also when start and end meet |
| `RingBuffer.Ring.At` | src/cb.c:103-105 | The i-th from the front across the edge |
| `RingBuffer.Ring.Last` | src/cb.c:68-74 | The newest value, if any |
| `RingBuffer.Ring.FlatReads` | src/server.c:1258-1259 | A ring filled from empty can be read as an array |
| `RingBuffer.Ring.Clear` | src/cb.c:107-110 | Nothing is left, and the next values are flat again |
| `Drains.DrainSorted` | src/server.c:1243-1253 | Popping a heap into an empty ring gives a flat sorted permutation |
| `FreeList.FreeList.Insert` | src/fl.c:91-106 | An id that is not live is minted and other live slots keep their values across growth; an id at or above the limit is minted for the first time if and only if the pointer was one below the limit, or the list full with the limit next |
| `FreeList.FirstPast` | src/fl.c:38-79 | The condition, on the pointer, the capacity and the limit alone |
| `FreeList.FifthOfFive` | src/fl.c:38-44 | An instance: limit 5, and the fifth insert mints 5 |
| `FreeList.PastCapacity` | src/fl.c:38-79 | An instance: limit 8192, and 8193 is minted |
| `FreeList.FreeList.NextId` | src/fl.c:85-88 | The id announced is the one the next insert mints |
| `FreeList.FreeList.Ready` | src/fl.c:38-79 | There is room afterwards, or the list is at its limit |
| `FreeList.FreeList.Release` | src/fl.c:108-123 | A live id comes off and is next in line |
| `OrderSlots.TakerTerminal` | src/main.c:276-290 | The ack of an accepted message hands its slot back exactly when nothing of it rests |
| `FillCounts.MessageCounts` | src/ob.c:196-242 | A message takes out its target and exactly the orders whose fill is not partial |
| `OrderSlots.ReturnedOnce` | src/main.c:276-290 | A slot about to be handed back is live, not on the wire, not in the book, and handed back by this response alone |
| `OrderSlots.Desk.Deliver` | src/main.c:166-290 | The id promised is the id minted, taken before the response's slot is released; each live id stays in exactly one place; the reserved packet's id is promised exactly when the pointer is one below it |
| `OrderSlots.Desk.Execute` | src/server.c:1841-2038 | An accepted message: target released, makers and taker told, each live id still in exactly one place |
| `OrderSlots.Desk.Reject` | src/server.c:1610-1624 | A rejected message is on its way back |
| `OrderSlots.LimitIsNoCapacity` | src/server.c:132 | Neither the order ids' limit nor the number below it is a capacity of the free list |
| `BlobStore.Store.Reserve` | src/bs.c:43-212 | A new slot and range, every other blob's bytes, size and references kept through wrap, growth and compaction; the retries end |
| `BlobStore.Store.Compact` | src/bs.c:121-140 | Blobs pushed together in a doubled buffer keep their bytes |
| `BlobStore.Store.GrowInPlace` | src/bs.c:172-179 | Doubling in place keeps every blob where it was |
| `BlobStore.LayoutApart` | src/bs.c:115-212 | Live blobs are in bounds and never overlap |
| `BlobStore.WrappedTest` | src/bs.c:115 | The offset comparison is true exactly for a wrapped store |
| `BlobStore.WrapIsMod` | src/bs.c:108 | Wrapping an index once is the program's remainder |
| `BlobStore.DoublingFits` | src/bs.c:121 | The doubled capacity is what a 32-bit field stores if and only if the capacity is below 2^31 |
| `BlobStore.Store.Resize` | src/bs.c:223-237 | Only the last blob, only down, and its front bytes stay |
| `BlobStore.Store.BumpRefs` | src/bs.c:279-281 | One reference more on that blob alone |
| `BlobStore.Store.Get` | src/bs.c:241-272 | The blob's bytes, one reference fewer, and exactly the dead prefix reclaimed |
| `BlobStore.Store.Fill` | src/server.c:1784-1792 | Writing one blob leaves the others' bytes |
| `Feed.BookFeed.Respond` | src/server.c:229-244 | An ack pins the current view |
| `Feed.BookFeed.Stream` | src/server.c:286-307 | A client with a delivery in the air gets the newest view held instead, the superseded pin handed back; the bytes every pin saw stay recorded |
| `Feed.BookFeed.Deliver` | src/main.c:209-250 | A delivery reads the bytes of its pin time, returns exactly its pin, and chains the held view with the bytes it saw or frees the air; every other pin keeps its own |
| `Feed.BookFeed.BeginBook` | src/server.c:1782-1824 | A new view is written; everything pinned still reads as before |
| `Feed.BookFeed.EndBook` | src/server.c:2068 | The superseded view's own reference goes back |
| `Feed.LandAndChain` | src/main.c:217-237 | Chaining keeps one stream delivery in the air for the client |

## Left out

- Icebergs, OCO brackets, combined stop-and-now orders, price alerts and wakes: they mint orders or
  reuse fields in ways that would dominate the settlement and slot invariants. `Stops` models the
  triggers on their own order table, not inside `ServerOrders`.
- Auctioneer.Cross: at most 2^30 + 1 orders are parked, the limit of the heaps.
- Exchange.Exchange.Park: the stop, wake, pair, iceberg and OCO bits are one flag, for the window's refusal only.
  An order turned away at the window loses its shares instead of getting a reject bit.
- Exchange.Exchange.Execute: covers single messages; a pair in a window is not modelled, and stays the
  caller's to keep out of `Exchange.Exchange.SubmitPair`.
- Exchange.Exchange.Cross: needs the book within its own limits, 65534 levels and 8191 orders a level, as every
  operation on the book does; whether it stays there is not proved.
- AuctionPark.LineUp: the heaps, lines and buffers are made anew for each pass where the program clears and
  reuses one set.
- ExecQueues.Engine.AuctionResidual: which orders form the residual is a parameter; `AuctionRest.ResidualIs` says
  which they are.
- Closing.CollectExpire: the branches for an armed stop and for an iceberg slice.
- OrderSlots.Desk.Deliver: pings, stream pushes and the pair's second slot are not part of the slot
  protocol, which covers single adds, cancels and cancel-replaces.
- Feed.BookFeed.Deliver: one book tier; the derived depth tiers pin their own store the same way. Arrival
  times of deliveries are left out, so they may land in any order.
- Feed.BookFeed.Stream: the same one tier, and no arrival times.
- Bells.Session.Turn: holds while the next bell is due before 2^32 seconds, the code's own limit.
- Scheduler.Sch.Schedule: beyond 63 spans, the same limit; random jitter is any value below 2^29 ns.
- BlobStore.Store.Reserve: sizes are positive, and the capacity is not cut to 32 bits, which
  `BlobStore.DoublingFits` shows to matter from 2^31 bytes on.
- Canrep.ObCanrep: levels hold at most 8191 entries, where the byte size of a copied level fits 16 bits
  (`SnapshotWriter.CopySizeExact`), and the book at most 65534 levels, so that 65535 stays a sentinel.
- PairRewrite.ObPair: at most 65533 levels, and each leg's target rests on that leg's own side. The precheck
  lets other pairs through, and the rewrite is not made for all of them: two targets on one level are
  one cut, which takes out the first of them only (`src/ob.c:788-799`, `src/ob.c:832-838`).
- ServerOrders.Server.ServerPair: the same targets, and a pair that is not both a cancel and a replacement; the
  precheck of one that is both ends before its prices are compared (`src/server.c:690-691`).
- ServerOrders.Server.ServerOrder: the buying power of a margin account is a parameter, and cash is unbounded
  where the program has 64 bits.
- AuctionWalk.Walk: shares are summed without the 32-bit cut, which `AuctionWalk.SumsFit` shows to matter from
  2^32 shares of a side on.
- Pq.Queue.Pop: as long as no slot is reached whose child index wraps (`Pq.ChildIndex`), that is up to 2^30 + 1
  events; `MaxHeap.Heap.Pop` up to 2^31.
- Drains.DrainSorted: the same limit.
- FreeList.FreeList.Release: of a live id; releasing any other one is not refused by the program either.
- The depth views of `src/mbp.c`, candles, the trade tape, the run log, month lengths and printing.
- Trader strategies: a client is an arbitrary source of orders and wake-ups.
- `ob_cancel` and `ob_queue_position`: easy next to `ob_canrep`.
