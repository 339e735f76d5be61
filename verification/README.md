# Edge market-data cores, modelled and proved

A Dafny model of five components that turn a lossy multicast market-data feed into books, replays and
history, with proofs of what they promise over whole runs. Four of them keep a fast incremental structure
that has to agree with something simpler; the fifth is a group of parsers and printers.

- **L3 book** (`Book*.dfy`). One instrument's orders and its derived price levels, fed by deltas, buffered
  deltas, snapshot groups and resets, with a bounded guard against resurrected orders. The main theorems
  fix a venue's delta streams, let the network drop, duplicate, reorder and deliver strays of other streams, and
  show exactly when a book that says it is synced is the venue's book.
- **Replay accumulator** (`Accumulator*.dfy`). Buffers a logical event over several batches, folds it on the
  last one, and materializes the whole book again for a client that joins late.
- **Single-path authority** (`Authority*.dfy`). Elects one publisher path per scope by silence and by margin,
  overrides it per market by health, and releases overrides by the clock.
- **Rolling history** (`History*.dfy`). One-second buckets per product over an hour, under a product cap and
  a bucket budget, rolled up into candles.
- **String cores** (`Channel*.dfy`, `Products.dfy`, `Text.dfy`). The server's strict channel-filter
  parser against the client's lenient preview of it, and product ids that print and parse back.

## How it is laid out

Each stateful component has a specification module (`…Model`) of values and step functions, a class
(`…States`) whose methods update fields in place, branch by branch and loop by loop, and are proved to
leave exactly the state the specification names, and modules of theorems about every run of that
specification. Because every method's `ensures` fixes its whole new state, the theorems hold of the class.
`Collections.dfy` holds sums over maps; `Wrappers.dfy` holds `Option`.

## What the proofs found

- A duplicated snapshot order is counted towards the promised total, so one duplicate and one loss install a
  wrong book as synced (`BookVenue.RepeatedOrderInstallsAWrongBook`). The exact condition is
  `BookVenue.InstalledSnapshotIsTrueIffNoRepeat`.
- An order id added again while the guard remembers removing it is refused, and the book stays synced without
  the order (`BookReuse.ReusedIdLosesAnOrder`). Safety over every run holds of exactly those streams that never
  add one of the last 65,536 ids they took away (`BookReuse.SafeIffNeverReused`). The repository's documents
  promise that a venue never reuses an id, which is more than the book needs.
- A delta of an ended stream does harm on the next whether it was buffered across the reset, arrives between the
  reset and the snapshot, or arrives after the snapshot at or below the reset's anchor (the witnesses of
  `BookChange`). A change of stream is safe over every run if and only if no delta of the ended stream does harm at
  a book of the next; the anchor does not enter into it (`BookChange.ChangeIsSafeIff`). In general, for any strays,
  every run is safe if and only if no delta does harm where a receiver can be (`BookStrays.SafeIffHarmless`): it
  must do to the book what the stream does, be refused where the stream does nothing, or overflow the receiver.
- An order of quantity zero can outlive the level it shared (`BookDepth.ZeroOrderLosesItsLevel`), so levels are
  the orders grouped by price exactly when orders and levels of no quantity match. Every level is the sum
  resting at its price all the same.
- Re-adding a resting id, or a "full" fill of less than the resting quantity, leaves residue in the price
  levels. These are the only ways, event by event (`BookIndex.IndexKeptIffClean`) and over whole runs
  (`BookLevels.LevelsHoldIffCountIsKept`).
- The changes a delta reports do not track the book for an add of quantity zero or for an add that overflows
  the cap, and track it in every other case (`BookReport.ReportTracksBookIff`). Over every run they track exactly
  the orders that rest with a quantity (`BookReport.ConsumerHoldsTheBook`).
- The comment on the accumulator calls an order-level market that empties still order-level; an accumulator that
  joins it on the replay does not know that, because it reads granularity off the changes and not off the header
  (`AccumulatorReplay.JoinerKnowsGranularityIff`). A joiner also claims to stand exactly at the last slot named,
  even where the market has moved past it (`AccumulatorReplay.JoinerKnowsItsSlotIff`, `AccumulatorReplay.JoinerCanOverstateItsSlot`).
- The comment on the market queue calls the entry a forgotten market leaves behind harmless. It is not: a market that
  is forgotten and tracked again is dropped when its old entry comes to the front, before markets tracked earlier
  (`AuthorityTable.ReturnedMarketIsDroppedEarly`; exactly when, `AuthorityTable.StaysUntilItsTurn`).
- Which path is heard last matters to a query for the serving path and to a synthesized batch; it does not enter into
  whether an arriving batch is emitted (`AuthorityServing.AdmittedIff`).
- The win-rate test makes the median test redundant exactly above one half
  (`AuthorityEvidence.WinsForceTheMedianIff`).
- The list of candidates for an ambiguous product id can name two of them alike when a category spells out
  another's category and Source ID (`Products.AmbiguousListIsDistinctIff`).

## Assumptions about the world

- The venue's stream has consecutive per-instrument sequence numbers and does not add any of the last 65,536
  ids it took away; a snapshot describes the true book after the delta it names, and no two snapshots of a
  stream share an id.
- The network drops any message of the stream in force except a reset or an end of session, and duplicates and
  reorders deltas at will (`BookChange.LostReset` shows what a lost one does). It may also deliver any delta that
  agrees with the stream in force: one that does to the stream's book, at its number, what the stream does there.
  `BookStrays.SafeIffHarmless` says exactly which strays may be delivered at any time.
- What is assembled of a snapshot describes one of the books of the stream in force (`BookChange.LateSnapshot`
  shows what another stream's does); a snapshot order may arrive again, unless the snapshot is then installed; any
  snapshot end may be forged.
- An instrument reset keeps a buffered delta only where it agrees with the new stream.
- The theorem on price levels also assumes quantities below 2^46, full fills that cover the order, no add of an id
  that rests with a quantity, and no snapshot order that arrives twice with a quantity within one assembly.
- Recovery to the newest delta also assumes of the buffered deltas past the anchor that what comes later in sequence
  comes in no earlier datagram, and that the deltas of one datagram first arrive in order.
- The guard, cap and staleness theorems assume nothing of the stream.
- Prices and sizes outside the L3 book are exact numbers, and a change says whether its own were finite.
- Where the code takes a minimum or maximum over a hash map, the pick is proved unique, or, for two
  challengers of equal median, left open.

## Model

| member | source | states |
|---|---|---|
| BookVenue.LossyRunSafety | src/ingest/book.rs:208-381 | Over every run of dropped, duplicated and reordered messages and strays that agree with the stream in force, with gaps, buffering, sorted replay, re-snapshots and changes of stream: whenever the receiver is synced, its orders are the venue's true book after the delta numbered `last_instr_seq`; for every stream that does not add one of the last 65,536 ids it took away |
| BookVenue.NextDeltaIsTrue | src/ingest/book.rs:366-482 | The next delta of the stream, or a stray that agrees with it, turns the true book into the true book; only an overflow of the order cap unsyncs |
| BookVenue.ReplayKeepsFaithful | src/ingest/book.rs:330-338 | Replaying buffered deltas and agreeing strays in any order, with any duplicates, keeps a synced book true |
| BookVenue.CompleteIsTrue | src/ingest/book.rs:273-323 | An assembly that counted as many distinct orders as promised is the whole captured book |
| BookChange.ChangeIsSafeIff | src/ingest/book.rs:202-237 | A change of stream is safe over every run, whatever was buffered and whatever of the ended stream arrives late, if and only if no delta of the ended stream does harm at a book the next stream brings a receiver to |
| BookChange.ForeignDeltaInstallsAWrongBook | src/ingest/book.rs:222-237 | A concrete reset that keeps one delta of the ended stream, after which a synced book is not the new stream's |
| BookChange.LateDeltaAfterEndOfSession | src/ingest/book.rs:200-219 | A concrete delta of an ended session, buffered after its end and replayed on the next session's snapshot |
| BookChange.LateDeltaAfterReset | src/ingest/book.rs:222-237 | A concrete delta at the reset's own anchor that arrives after the snapshot and is applied to the synced book |
| BookChange.LostReset | src/ingest/book.rs:366-381 | A concrete receiver that missed the end of a session, took the next stream's delta and is synced on no book of it |
| BookChange.LateSnapshot | src/ingest/book.rs:243-339 | A concrete snapshot of an ended stream that installs its book on the next |
| BookChange.ResetForgets | src/ingest/book.rs:200-237 | Whatever two receivers held, remembered removing and last saw the time of, if a reset keeps the same deltas of both they are one book from then on over every run, but for the sequences they stood at until they sync; an end of session forgets those too |
| BookStrays.SafeIffHarmless | src/ingest/book.rs:208-496 | For any stream, any snapshots of it and any set of strays: every run leaves a synced receiver on the stream's book if and only if no delta, own or stray, does harm at any book a receiver can reach |
| BookStrays.NextIsTruthfulIff | src/ingest/book.rs:366-482 | The exact condition on one delivery: a receiver on the stream's book stays on it, or stops claiming to be synced, if and only if the delta does what the stream does there, is refused where the stream does nothing, or overflows the cap |
| BookVenue.ApplyIsTrueIff | src/ingest/book.rs:384-482 | A synced book does to its orders what the venue did, or unsyncs at the cap, if and only if the event does not add an id the guard still knows |
| BookVenue.InstalledSnapshotIsTrueIffNoRepeat | src/ingest/book.rs:273-318 | A complete snapshot of true orders installs the true book if and only if the received count equals the number of distinct orders, because a duplicated snapshot order is counted |
| BookVenue.RepeatedOrderInstallsAWrongBook | src/ingest/book.rs:273-318 | A concrete delivery in which one duplicated and one lost snapshot order install, as synced, a book that is not the venue's |
| BookReuse.SafeIffNeverReused | src/ingest/book.rs:384-496 | For a stream that fits the cap and was captured at its start: every run leaves a synced receiver on its book if and only if the stream never adds one of the last 65,536 ids it took away |
| BookReuse.ReusedIdLosesAnOrder | src/ingest/book.rs:386-396 | A concrete stream that cancels an order and adds its id again: the receiver stays synced and the order is missing |
| BookIndex.IndexKeptIffClean | src/ingest/book.rs:384-482 | An order event keeps the price levels equal to the resting sums if and only if it neither re-adds a resting id nor fills an order in full with less than its quantity |
| BookIndex.AssembleKeepsIndexIffFirst | src/ingest/book.rs:273-299 | A snapshot order keeps the assembled levels equal to the assembled sums if and only if its id has not arrived already with a quantity |
| BookIndex.SideIsGroupsIff | src/ingest/book.rs:143-154 | Levels that agree with the resting sums are the orders grouped by price if and only if every order of quantity zero has a level and every level of zero has an order |
| BookIndex.IndexIsGroups | src/ingest/book.rs:143-154 | Where no order and no level is of quantity zero, agreeing levels are exactly the orders grouped by price: no stale and no missing level |
| BookIndex.RoomForOneMore | src/ingest/book.rs:143-146 | With quantities below 2^46 and the 2^18 order cap, adding one more order cannot wrap a level's 64 bits |
| BookDepth.LevelsAreTheVenues | src/ingest/book.rs:143-482 | Over every lossy run of streams and strays whose adds name no id that rests with a quantity and whose full fills cover the order, each level of a synced book is the quantity the venue's true orders rest at its price, zero quantities included; and when the levels are the orders grouped by price, both ways |
| BookDepth.LevelsAreTheVenuesGroups | src/ingest/book.rs:143-482 | With positive quantities the levels are, over every such run, the venue's orders grouped by price |
| BookLevels.LevelsHoldIffCountIsKept | src/ingest/book.rs:143-482 | For a safe stream of bounded quantities captured at its start: every run keeps every level of a synced book at what rests there if and only if no add names an id that rests with a quantity and every full fill covers what it fills |
| BookDepth.ZeroOrderLosesItsLevel | src/ingest/book.rs:148-154 | A concrete order of quantity zero that still rests after the level it shared is dropped |
| BookDepth.OrderListIsDetermined | src/ingest/book.rs:503-527 | Any two lists that hold every resting order in the served order are the same list, whatever order the hash map was visited in |
| BookGuard.EveryRunIsGuarded | src/ingest/book.rs:484-501 | For arbitrary messages: removed and resting ids stay disjoint, the removal queue lists the removed set without repeats, and orders, buffer and queue stay within their caps |
| BookGuard.NoResurrection | src/ingest/book.rs:384-501 | A cancelled or filled id rests again only after a snapshot install, an instrument reset, an end of session, or 65,536 later removals |
| BookGuard.StaleSnapshotIsIgnored | src/ingest/book.rs:239-318 | After a synced book is offered a snapshot anchored at or below what it has applied, it drops any assembly it had open and, until another snapshot begins, runs as if no snapshot message had come, whatever deltas and resets come between |
| BookRecovery.RecoveryCompletes | src/ingest/book.rs:301-341 | If the buffered deltas past the snapshot reach delta `n` without a hole, then in whatever order and however often their datagrams came, the snapshot's end leaves the book synced at exactly `n` with the venue's book |
| BookRecovery.RecoversIffNoHole | src/ingest/book.rs:301-341 | A snapshot's end leaves the book synced if and only if the deltas buffered past it reach, without a hole, as far as any of them goes |
| BookRecovery.SortKeepsOrder | src/ingest/book.rs:325-331 | The stable sort puts datagrams in order and keeps the first arrivals of each datagram's deltas in theirs |
| BookRecovery.DatagramsArriveInOrder | src/ingest/processor.rs:1768-1813 | However whole datagrams are reordered and repeated, the deltas of each first arrive in order |
| BookDelivery.EveryBufferIsRead | src/ingest/book.rs:301-381 | Over every run of arbitrary messages a recovering book holds, in the order they came and up to the cap, exactly what opened the recovery in force and the deltas delivered since: the delta that showed the gap, what an instrument reset kept, the delta at which a replay stopped, or nothing |
| BookDelivery.HoldsWhatArrived | src/ingest/book.rs:353-364 | The same from any recovery's beginning: the buffer is what opened it followed by the deltas of the trace since, cut at the cap |
| BookDelivery.SyncedHoldsNothing | src/ingest/book.rs:305-381 | Over every run a synced book holds no delta back |
| BookDelivery.PastOfBoth | src/ingest/book.rs:224-237 | What a reset or a snapshot keeps of the buffer stays in its order of arrival |
| BookDelivery.EveryBookStandsSomewhere | src/ingest/book.rs:305-381 | Over every run of arbitrary messages a synced book's instrument sequence, datagram sequence and event time are those of the last delta it applied, or the installed snapshot's, or those of a buffered delta replayed on it; and every delta delivered since was an old one |
| BookDelivery.GroupInstallsIff | src/ingest/book.rs:243-323 | From any book, whatever deltas come in between, a snapshot end installs the group before it if and only if it names its id and anchor, every promised order came, and the book was not synced at or past the anchor when it began; and what it installs is exactly the promised orders |
| BookDelivery.GroupOutcome | src/ingest/book.rs:239-339 | With nothing buffered past the anchor a whole group leaves the book synced at the sequence and anchor it names with exactly the promised orders, unless it began too late, when it leaves no trace, or lost an order, when the book recovers |
| BookDelivery.DeliveryCompletesRecovery | src/ingest/book.rs:243-381 | Recovery from the messages alone: over every lossy run, if the deltas delivered since the recovery began reach delta `n` past the anchor without a hole and every order of a snapshot comes, its end leaves the receiver synced at exactly `n` on the venue's book |
| BookDelivery.DeliveryRecoversIffNoHole | src/ingest/book.rs:243-381 | And it leaves the receiver synced if and only if those delivered deltas reach, without a hole, as far as any of them goes |
| BookReport.ReportTracksBookIff | src/ingest/book.rs:347-482 | A consumer that follows the changes one event reports keeps an exact copy of the orders if and only if the event is not an add of quantity zero nor an add that overflows the cap |
| BookReport.AppliedIff | src/ingest/book.rs:347-396 | A delta is said to have applied if and only if it is the next of a synced book and not an add the guard refuses; one that did not reports nothing and changes no order and no level |
| BookReport.ConsumerHoldsTheBook | src/ingest/book.rs:301-364 | Over every run of arbitrary events: a consumer that starts over from the order list at each install and follows every report holds, whenever the book is synced, exactly the orders that rest with a quantity |
| BookReport.FollowList | src/ingest/book.rs:503-527 | Following an order list from nothing gives exactly the orders that rest with a quantity |
| BookStates.BookState.constructor | src/ingest/book.rs:163-178 | A new book is the empty, recovering book every run starts from |
| BookStates.BookState.OnEndOfSession | src/ingest/book.rs:208-219 | The whole new state: nothing of the session survives, sequences and event clock included |
| BookStates.BookState.OnInstrumentReset | src/ingest/book.rs:224-237 | The whole new state: an empty recovering book that keeps only the deltas buffered past the new anchor and both sequences |
| BookStates.BookState.OnSnapshotBegin | src/ingest/book.rs:243-270 | The whole new state: an assembly started, or dropped for a stale anchor or an impossible total; which of them, `BookDelivery.GroupInstallsIff` tells from the outcome of the whole group |
| BookStates.BookState.OnSnapshotOrder | src/ingest/book.rs:273-299 | The whole new state: the order joins only the assembly of its own snapshot id, within the promised total |
| BookStates.BookState.OnSnapshotEnd | src/ingest/book.rs:305-339 | The whole new state and whether a book was installed: install, retain past the anchor, stable sort, replay; the state the safety and recovery theorems are about |
| BookStates.BookState.ReplayBuffered | src/ingest/book.rs:330-338 | The loop leaves exactly the fold of the buffered deltas, stopping at the first that leaves the book recovering |
| BookStates.BookState.OnDeltaReporting | src/ingest/book.rs:353-364 | New state, reported changes and verdict of one delta: buffered within the cap while recovering, else applied or a gap; what the buffer then is, `BookDelivery.EveryBufferIsRead` tells from the trace |
| BookStates.BookState.ApplyOrRecover | src/ingest/book.rs:366-381 | Old deltas ignored, a gap starts recovery with that delta buffered, the next delta applied; state, reports and verdict |
| BookStates.BookState.ApplyAdd | src/ingest/book.rs:386-426 | State, report and verdict of an add, with the guard's refusal and the overflow that empties the book |
| BookStates.BookState.ApplyCancel | src/ingest/book.rs:427-446 | State, report and verdict of a cancel: the order's whole quantity leaves its level and its id is remembered |
| BookStates.BookState.ApplyExecute | src/ingest/book.rs:447-480 | State, report and verdict of an execution: a partial fill keeps the order at what is left, a full or exhausting one removes and remembers it |
| BookStates.BookState.NoteRemoved | src/ingest/book.rs:485-496 | Set and queue after the eviction loop: the last 65,536 removed ids, each once |
| BookStates.BookState.OrderSet | src/ingest/book.rs:507-527 | The returned list holds every resting order exactly once, bids best first, then asks, ties by id |
| BookStates.BookState.TopLevels | src/ingest/book.rs:531-541 | The returned levels are the best `n` of each side, best first: everything left out is worse |
| AccumulatorFold.RebaselineForgetsIff | src/model.rs:821-899 | A logical event leaves the same book from every prior state an accumulator can rest if and only if it clears both sides, whatever else it holds and in whatever positions |
| AccumulatorFold.CoveringEventForgets | src/model.rs:821-899 | An event that clears both sides leaves the same levels and orders from any two prior states at all |
| AccumulatorFold.BaselinedMeansWhole | src/model.rs:738-747 | Two accumulators with different pasts on one feed become baselined at the same batch and from then on rest exactly the same book |
| AccumulatorFold.OpenEventRestsNothing | src/model.rs:755-803 | Before the closing batch no level, order, flag or served stamp moves, and the buffer is exactly the finite changes so far |
| AccumulatorFold.BatchingDoesNotMatter | src/model.rs:764-884 | However one event is cut into batches within the buffer cap, the closing batch leaves the book and baseline flag of the event sent whole |
| AccumulatorFold.FlagsSayWhatCleared | src/model.rs:821-899 | After folding, a side is flagged cleared if and only if some change of the event clears it |
| AccumulatorTrace.LastWordDecides | src/model.rs:814-899 | For any event folded into any state: an order rests if and only if it did and no change names it or clears its side, or the last change that names it or clears the side it then rests on is an update of some size, and then with that change's side, key, price and size; a level is there if and only if it was and nothing bears on it, or the last change that sets it, deletes it or clears its side is an update, of whatever size |
| AccumulatorTrace.LastWordIsOne | src/model.rs:814-899 | That description fits one state only |
| AccumulatorTrace.FeedLeavesTheLastWord | src/model.rs:764-884 | Over every feed whose orders stay within their cap, what rests is the last word of all the changes folded so far, of none still buffered and of none given up |
| AccumulatorTrace.BaselinedIff | src/model.rs:755-884 | Over every feed an accumulator is baselined if and only if some folded event cleared both sides and since then no event was given up and none overflowed the order cap |
| AccumulatorTrace.GranularityIff | src/model.rs:821-846 | Over every feed a market is order-level if and only if some folded change has put or taken an order by its id, and its symbol is the last on the wire |
| AccumulatorTrace.ReplayHeaderIsTheFeeds | src/model.rs:1049-1087 | The replay of any feed is marked a closed snapshot led by a clear of both sides, with the granularity, slot, event time and symbol the feed folded so far has |
| AccumulatorTrace.ReplayIsBestFirst | src/model.rs:1016-1087 | The rows of the replay are the bids best price first, the asks best price first, then the orders, bids first, best first, ties by id |
| AccumulatorTrace.PriceKeyIff | src/model.rs:823 | A price's key is the nearest count of 10^-8, halves away from zero, stuck at the ends of 128 bits |
| AccumulatorReplay.LateJoinerEqualsEarlyListener | src/model.rs:1049-1118 | In every reachable state at an event boundary, a fresh accumulator given the order-level replay rests the same book, and the two stay equal over every later feed |
| AccumulatorReplay.JoinerKnowsGranularityIff | src/model.rs:901-910 | An accumulator that joins an order-level market on the replay knows it is order-level if and only if orders rest |
| AccumulatorReplay.JoinerHoldsTheBook | src/model.rs:1049-1118 | Every field of a joiner: book, symbol, slot and event time are the market's; granularity, exactness of the slot and watermark are read off the replay |
| AccumulatorReplay.JoinerKnowsItsSlotIff | src/model.rs:970-980 | In every reachable state, the joiner stands exactly where the market says it does if and only if no slot was ever named or the last fold was closed by a batch that named one |
| AccumulatorReplay.JoinerCanOverstateItsSlot | src/model.rs:970-980 | A concrete feed after which the market claims no exact slot and its joiner claims one |
| AccumulatorReplay.EveryRunIsSound | src/model.rs:715-884 | Over every feed each level is keyed by its own price, no resting order has size zero or id zero, the order cap holds and only finite changes are buffered |
| AccumulatorReplay.StampsFollowTheFold | src/model.rs:764-884 | Over every feed the watermark is the newest arrival among folded batches, slot and event time are the last those name, an abandoned event contributes nothing, and the buffer is within its cap |
| AccumulatorReplay.WatermarkNeverDecreases | src/model.rs:982-994 | One more batch never lowers the join watermark |
| AccumulatorLevels.FoldConserves | src/model.rs:996-1012 | Folding orders by price loses none: over the levels of a side the counts add up to the orders there and the sizes to all they rest |
| AccumulatorLevels.LevelReplayAggregates | src/model.rs:1073-1084 | A joiner given the level-granular replay holds no orders, at every price where orders rest one level of exactly their total size, and elsewhere the level the market had |
| AccumulatorLevels.LevelReplayConserves | src/model.rs:1049-1087 | For an order-level market the joiner's levels rest, in all, exactly what the market's orders rest |
| AccumulatorStates.BookAccumulator.constructor | src/model.rs:722-739 | A new accumulator is the empty one every feed starts from, its granularity unknown |
| AccumulatorStates.BookAccumulator.Apply | src/model.rs:764-884 | The whole new state after one batch: buffered, abandoned past the cap, or folded on `last`; what then rests, `AccumulatorTrace.FeedLeavesTheLastWord` tells from the feed |
| AccumulatorStates.BookAccumulator.FoldPending | src/model.rs:814-868 | The loop leaves exactly the fold of every buffered change in order, the cleared-side flags, and an empty buffer; what the fold is, `AccumulatorTrace.LastWordDecides` tells change by change |
| AccumulatorStates.BookAccumulator.Settle | src/model.rs:869-884 | Baseline flag, order cap and stamps after a fold |
| AccumulatorStates.BookAccumulator.ClearOneOrBoth | src/model.rs:888-899 | A clear empties its side in both populations and leaves the other side alone |
| AccumulatorStates.BookAccumulator.SameState | src/model.rs:947-968 | True if and only if both rest exactly the same levels and orders |
| AccumulatorStates.BookAccumulator.PriceFold | src/model.rs:999-1012 | One level for each price with orders, best first, each the sum and count of the orders at it, whatever order the hash map was visited in |
| AccumulatorStates.BookAccumulator.OrderRows | src/model.rs:1016-1030 | Every resting order once, bids best first, then asks, ties by id |
| AccumulatorStates.BookAccumulator.ToBook | src/model.rs:1049-1087 | The batch is the whole book behind a clear, at order or at level granularity, stamped with what is folded in; the batch the replay theorems start from |
| AuthorityHold.EmissionPins | src/ingest/authority.rs:354-409 | Every emission leaves its market following the path served; a non-leader's emission leaves a hold naming that path and the current leader |
| AuthorityHold.HandoverHasCause | src/ingest/authority.rs:354-582 | While a market stays tracked, consecutive emissions from different paths mean the leader moved in between, or is unhealthy there, or the displaced path was an override whose hold ended by release, ill health, silence or an explicit drop |
| AuthorityHold.SynthesizedNeverHandsOver | src/ingest/authority.rs:411-421 | A synthesized batch after an emission is served only from the path that emission came from |
| AuthorityServing.AdmittedIff | src/ingest/authority.rs:354-553 | An arrival is emitted if and only if its path is eligible and, once the scope has a leader: where a hold with this leader and a well, recently heard holder lasts, it is the holder or the leader whose wait is over; elsewhere it is the leader, well or with no other well path known, or a well path in place of an unwell leader; and the hold and release it leaves, so that a silent holder is displaced and a due release forced |
| AuthorityServing.EmissionIsHealthy | src/ingest/authority.rs:392-402 | Whatever is emitted comes from a path that is well on the market, unless no path heard in the scope is |
| AuthorityServing.EmissionMarks | src/ingest/authority.rs:403-408 | An emission records its path as the one followed, the leader it overrides if it does, and opens a tick exactly when another path was followed |
| AuthorityServing.TickOpensIffPathChanges | src/ingest/authority.rs:403-408 | Of two consecutive emissions on a tracked market the second opens a tick if and only if it comes from another path |
| AuthorityServing.ServedIff | src/ingest/authority.rs:555-582 | At any time a path serves a market if and only if it is the well holder; or, unheld, the leader that is well or has no well path beside it; or else the one well path heard last, ties to the higher label |
| AuthorityServing.SynthesizedIff | src/ingest/authority.rs:411-421 | A batch no datagram delivered is emitted if and only if its path serves the market and is the one followed, and moves nothing but the cleared release |
| AuthorityServing.UnpinGivesBack | src/ingest/authority.rs:331-336 | Once a hold is dropped the leader is emitted at its next batch there, if it is well |
| AuthorityServing.ReportsAreTheLast | src/ingest/authority.rs:287-317 | Over every run an eligible path is unwell on a tracked market if and only if its last report there says so, and its memo stands if and only if its last word there was a clear-led batch |
| AuthorityTable.StaysUntilItsTurn | src/ingest/authority.rs:270-285 | Over every run a tracked market that is not forgotten stays until its first entry stands at the front of a full queue, and the next insertion drops it |
| AuthorityTable.TrackDropsIff | src/ingest/authority.rs:272-285 | Tracking another market drops this one if and only if the queue is full and this one's entry is at its front |
| AuthorityTable.ReturnedMarketIsDroppedEarly | src/ingest/authority.rs:236-242 | A concrete run in which a market forgotten and tracked again is dropped by the next insertion, although every other market there has been tracked for longer |
| AuthorityTable.ConfigIsTheLast | src/ingest/authority.rs:264-268 | The tunables in force are the last ones set |
| AuthorityElection.EveryRunIsBounded | src/ingest/authority.rs:272-460 | Over every run labels are distinct and at most eight a scope, each leader is a labelled path of its scope, holds name a path other than their leader, and the market table is within its cap |
| AuthorityElection.LabelsOnlyGrow | src/ingest/authority.rs:435-460 | A label is never taken back, and a path past the cap never gets one |
| AuthorityElection.ClockIsLastMessage | src/ingest/authority.rs:371-393 | An eligible path's silence clock is the arrival of its last message on any market of the scope |
| AuthorityElection.SilenceAloneMovesTheLeader | src/ingest/authority.rs:354-393 | An admission moves its scope's leader if and only if another eligible path sends while the leader's last message anywhere in the scope is older than the timeout; and then to the sender |
| AuthorityElection.BusyLeaderIsNeverDisplaced | src/ingest/authority.rs:354-393 | Over every run in which the leader keeps speaking on whatever market within the timeout, and no window elects another, the leader never changes |
| AuthorityElection.ScopesAreIsolated | src/ingest/authority.rs:354-433 | No step on one scope changes another scope's election state |
| AuthorityEvidence.MedianBelowIffMajority | src/ingest/authority.rs:716-722 | The sorted middle sample beats a bound if and only if more than half the samples, rounded down, do |
| AuthorityEvidence.WinsForceTheMedianIff | src/ingest/authority.rs:711-722 | Passing the win rate forces the median test if and only if the rate is above one half |
| AuthorityEvidence.QualifiesIff | src/ingest/authority.rs:703-722 | Evidence qualifies if and only if it is non-empty and reaches the sample floor, the share of samples ahead by more than the margin reaches the win rate, and more than half, rounded down, are ahead by at least the margin |
| AuthorityEvidence.WindowOpensAtTheLastReset | src/ingest/authority.rs:179-190 | Over every run a scope's window opened at the time of its last election, handover or elapsed close |
| AuthorityEvidence.EvidenceIsFresh | src/ingest/authority.rs:184-190 | Over every run the samples held for a path are exactly its leads reported since the scope's last election or close, in order up to the cap, and none for the leader |
| AuthorityEvidence.WindowMovesOnFreshEvidence | src/ingest/authority.rs:674-727 | A close moves a scope if and only if its window elapsed and some path's fresh evidence passes floor, win rate and median; and then to one with the least median of those |
| AuthorityRelease.ClocksAreFromTheTrace | src/ingest/authority.rs:502-553 | A running hold clock was started by an admission of the trace that saw the leader healthy, with the leader healthy and unreported since |
| AuthorityRelease.MemosAreFromTheTrace | src/ingest/authority.rs:289-317 | A standing re-baseline memo comes from that path's own clear-led batch, with no unhealthy report since |
| AuthorityRelease.ReleaseIsTimedByTheTrace | src/ingest/authority.rs:502-553 | A release happens only on the leader's own admission, at least 15 s (natural) or 60 s (deadline) after an admission that saw it healthy with no unhealthy report since; a natural one only after its own clear-led batch |
| AuthorityOverride.HandoverHappens | src/ingest/authority.rs:354-582 | A run in which a market is handed over, at once, from its unhealthy leader to another path |
| AuthorityOverride.ReleaseHappens | src/ingest/authority.rs:502-553 | A run in which the held market is released naturally on the leader's first admission, exactly 15 s after the one that saw it well: the bound is met |
| AuthorityServing.AlternateIsUnique | src/ingest/authority.rs:555-567 | The freshest healthy alternate is one path, whatever order the hash map is visited in |
| AuthorityStates.StickyAuthority.constructor | src/ingest/authority.rs:253-262 | A new authority is the empty one every run starts from |
| AuthorityStates.StickyAuthority.MarketMut | src/ingest/authority.rs:272-285 | The market is tracked afterwards, the oldest entries having made room, and no other market's state moved |
| AuthorityStates.StickyAuthority.SetHealth | src/ingest/authority.rs:289-309 | The whole new state after a health report, including the restart of the path's hold clock and memo |
| AuthorityStates.StickyAuthority.NoteRebaselinePoint | src/ingest/authority.rs:313-317 | The memo is set for a tracked market only |
| AuthorityStates.StickyAuthority.TakeHoldRelease | src/ingest/authority.rs:339-341 | The last release is handed out once |
| AuthorityStates.StickyAuthority.Admit | src/ingest/authority.rs:354-409 | The decision and whole new state of one datagram's batch, keeping the invariant of every run; the decision is the one `AuthorityServing.AdmittedIff` states |
| AuthorityStates.StickyAuthority.AdmitSynthesized | src/ingest/authority.rs:414-421 | The decision, with nothing moved but the cleared release |
| AuthorityStates.StickyAuthority.TransferScopeTo | src/ingest/authority.rs:425-433 | The scope moves only if it exists under another leader, its evidence discarded |
| AuthorityStates.StickyAuthority.PathOrdinal | src/ingest/authority.rs:443-460 | The path's label, minted if one is left, kept if it had one |
| AuthorityStates.StickyAuthority.RefreshHold | src/ingest/authority.rs:502-553 | The hold after an admission: taken, kept, clocked, discarded or released, and which release |
| AuthorityStates.StickyAuthority.AlternatePath | src/ingest/authority.rs:556-567 | The unique freshest healthy non-leader, or none exactly when there is none |
| AuthorityStates.StickyAuthority.ServingPath | src/ingest/authority.rs:572-582 | The path that serves the market, which `AuthorityServing.ServedIff` states by hold, health, last-heard times and labels |
| AuthorityStates.StickyAuthority.ObserveMatchedLead | src/ingest/authority.rs:651-669 | One more sample for an eligible challenger within the cap, otherwise no sample |
| AuthorityStates.StickyAuthority.BestChallenger | src/ingest/authority.rs:703-727 | A returned path passed every test with a least median; none returned means none passed |
| AuthorityStates.StickyAuthority.CloseWindow | src/ingest/authority.rs:674-697 | The moved scopes are a possible outcome of the elapsed windows, and the new state is theirs |
| HistoryStore.OneEvictionAtMost | src/history.rs:334-442 | Each print evicts at most one product across both caps, never the one written and always the least recently traded; it evicts if and only if a new product meets a full table or the recount passes the budget |
| HistoryStore.EveryRunIsOk | src/history.rs:334-580 | Over every run the running bucket total is the recount and within budget, the product cap holds, touch ticks are distinct, and every bucket is within its window |
| HistoryStore.WindowBoundsBuckets | src/history.rs:334-395 | A tracked product holds between one and a window-plus-one of buckets |
| HistoryTrace.TickOrderIsTradeOrder | src/history.rs:402-442 | Over every run, of two tracked products the one with the lower tick is the one whose last accepted print came first, so what the caps evict is the least recently traded |
| HistoryTrace.CountersAreTheTraces | src/history.rs:334-348 | Over every run the store's clock counts the accepted prints and its late drops the refused ones |
| HistoryTrace.ForgetsOnlyTheUniverse | src/history.rs:558-580 | Forgetting drops a product if and only if source, category and channel are all the ones named; another universe's product on the same channel stays as it is |
| HistoryLog.BucketsRefineTheLog | src/history.rs:334-395 | Over every run, a product's bucket for a second exists if and only if the second is in the window and a print at it was accepted since the product was created, and it is the first, maximum, minimum, last and sum of those prints; the ring is the newest of them |
| HistoryLog.RejectedExactlyOutsideTheWindow | src/history.rs:337-348 | A print for a tracked product is refused if and only if its second lies outside the window of the newest accepted one |
| HistoryLog.HighestIsMax | src/history.rs:183-188 | A bucket's high is reached by one of its prints and exceeded by none |
| HistoryLog.LowestIsMin | src/history.rs:183-188 | A bucket's low is reached by one of its prints and undercut by none |
| HistoryRollup.RollupIsLawful | src/history.rs:462-491 | Candle starts descend strictly and are multiples of the granularity, each candle is the first, maximum, minimum, last and sum of its own buckets, every bucket of the window lands in exactly one, and no candle is empty |
| HistoryRollup.VolumeIsConserved | src/history.rs:462-491 | Total candle volume is total bucket volume at every granularity |
| HistoryRollup.RegroupingComposes | src/history.rs:462-491 | Regrouping the candles of one granularity gives those of any multiple of it |
| HistoryRollup.GranularitiesAgree | src/history.rs:462-506 | Two served roll-ups of one query agree: regrouping the finer answer gives the coarser |
| HistoryStates.Store.constructor | src/history.rs:227-235 | A new store is the empty one every run starts from |
| HistoryStates.Store.Ingest | src/history.rs:334-395 | The whole new state after one print, keeping the store's invariant |
| HistoryStates.Store.Touch | src/history.rs:402-422 | The product exists and is the most recently traded, the oldest having made room at the cap |
| HistoryStates.Store.EnforceBucketBudget | src/history.rs:427-442 | The store after evicting oldest products until the total is within budget |
| HistoryStates.Store.PopBelow | src/history.rs:360-378 | Exactly the buckets from the floor on are kept, and the count popped is what left |
| HistoryStates.Store.ProductsFor | src/history.rs:305-312 | The number of products a forget of that channel would drop |
| HistoryStates.Store.Rollup | src/history.rs:462-491 | The candles of the window, newest first, as the roll-up laws describe them |
| HistoryStates.Store.Candles | src/history.rs:496-506 | A prefix of the roll-up, the whole of it unless the limit cut it |
| HistoryStates.Store.RetentionOf | src/history.rs:509-526 | `truncated` exactly when the limit cuts the roll-up; oldest and newest bound every candle of it and are reached |
| HistoryStates.Store.RecentTrades | src/history.rs:529-534 | The newest prints first, as many as asked for and held |
| HistoryStates.Store.ForgetChannel | src/history.rs:558-580 | Exactly the matching products are dropped, the count is theirs, and the running total stays the recount |
| ChannelFilters.PreviewAgrees | doublezero-edge/src/channels.rs:55-82 | For every spec the server accepts, the client's lenient preview admits exactly the same (code, channel) pairs |
| ChannelFilters.PreviewListsWhatIsLost | doublezero-edge/src/channels.rs:101-118 | For every accepted spec the preview lists exactly the populated, now-admitted channels the new filter would refuse |
| ChannelFilters.NoFeedIsEmptied | src/ingest/channel_filter.rs:298-322 | Under every accepted filter a feed whose code is mentioned keeps at least one publisher, exactly those of the selected channels, and every other feed keeps all |
| ChannelFilters.AcceptedIff | src/ingest/channel_filter.rs:198-295 | A spec is accepted if and only if every clause is well formed for every feed that carries its code and no code repeats; the clauses and tokens are the ones `Text.SplitIff` and `Text.TrimIff` fix |
| Text.SplitIff | src/ingest/channel_filter.rs:200 | A split is the one sequence of pieces without the separator that joined by it is the text again |
| Text.TrimIff | src/ingest/channel_filter.rs:201-202 | A trim is the one core without white ends that is left when white ends are taken off |
| Text.ParsesIff | src/ingest/channel_filter.rs:253-256 | A text parses as a number if and only if it is an optional plus sign, any zeros and the number's decimal, within the type |
| ChannelSelections.SelectionIsTheText | src/ingest/channel_filter.rs:198-295 | For every accepted spec a code is filtered if and only if some clause names it, to exactly the ids some comma-separated token of such a clause writes, out of as many channels as the feeds of the code were derived over |
| ChannelSelections.SelectsIff | src/ingest/channel_filter.rs:206-256 | What a clause selects is said of its text alone: its trimmed text is a code and ids around the first `=`, and one of the pieces between commas, trimmed, writes the id |
| ChannelSelections.PreviewIsTheText | doublezero-edge/src/channels.rs:55-73 | For any spec at all the preview shows a code if and only if some clause names it, with exactly the ids that the tokens of the last such clause write |
| ChannelSelections.RefusalSaysWhy | src/ingest/channel_filter.rs:198-295 | A refused spec is refused at the first clause that does not pass, and the refusal names the first rule it breaks: no `=`, no such code, the first feed without channels, the first token that is no byte or that some first feed does not publish, no id, or a code named before |
| ChannelFilters.ParseWithin | src/ingest/channel_filter.rs:198-295 | The loop returns the filter of all the clauses or the first clause's refusal; which these are, `ChannelSelections.SelectionIsTheText` and `ChannelSelections.RefusalSaysWhy` tell from the text |
| ChannelFilters.ParseClause | src/ingest/channel_filter.rs:212-292 | One clause's codes and ids added to the filter, or its refusal; the ids are those `ChannelSelections.SelectsIff` reads in its text |
| ChannelFilters.ParseId | src/ingest/channel_filter.rs:246-276 | One id admitted if it is a byte that every feed of the code publishes, blank skipped, else refused |
| ChannelFilters.ParsePreview | doublezero-edge/src/channels.rs:55-73 | The client's reading of every clause it can make sense of, which `ChannelSelections.PreviewIsTheText` tells from the text |
| ChannelFilters.CollectIds | doublezero-edge/src/channels.rs:62-70 | Exactly the tokens that parse as numbers |
| ChannelFilters.ComputeDrops | doublezero-edge/src/channels.rs:101-118 | The drops of every row in order |
| Products.SuffixedPrintsAndParses | src/products.rs:57-98 | For any non-empty source without `:` the suffixed id parses back to the uppercased source, the symbol and the exact identity, whatever the symbol holds; only an empty symbol is refused |
| Products.BarePrintsAndParsesIff | src/products.rs:57-98 | The bare id parses back if and only if the symbol is non-empty and holds no `#` |
| Products.IdParsesIff | src/products.rs:82-98 | A text parses as an id if and only if it spells that id: a non-empty source without `:`, a colon, and a symbol, either without `#` or followed by `#` and a channel and an instrument written out around a dot; anything else is refused |
| Products.SuffixedIdsAreDistinct | src/products.rs:57-67 | Two markets print the same suffixed id if and only if they agree on source, symbol, channel and instrument |
| Products.SameLabelIff | src/products.rs:159-181 | Two candidates of an ambiguous id are listed alike if and only if one's category spells out the other's category and Source ID |
| Products.AmbiguousListIsDistinctIff | src/products.rs:151-181 | The whole list names every candidate differently if and only if no candidate's category does so |
| Products.AmbiguousListCanRepeat | src/products.rs:151-181 | Three concrete candidates of which two are listed alike |

## Left out

- Floating point: rounding, NaN and bit-for-bit comparison. Sizes, prices and OHLCV values are exact; the price key is rounded and saturated exactly; the win rate is a fraction.
- Hash-map and tree layout: maps, sets, deques and vectors are `map`, `set` and `seq` fields reassigned in place, and the snapshot being assembled is a value held in a field.
- Integer widths of counters, clocks and ports are unbounded, except order ids, quantities, prices and sequences of the book, the level totals (which wrap, as in a release build), the price key and channel ids.
- `BookVenue.LossyRunSafety`: excludes an installed assembly in which an order was counted twice, a recently taken id added again, deltas that do not agree with the stream in force, another stream's snapshot, and a lost reset, because with any of them it is false. For the first three the exact condition is proved beside it; for the last two an input is.
- `BookStrays.SafeIffHarmless`: over the runs of one stream and its snapshots; `BookChange.ChangeIsSafeIff` takes it across a change of stream.
- `BookReuse.SafeIffNeverReused`: the direction from unsafe streams needs a receiver that can follow the stream, so one whose book fits the cap and whose start was captured.
- `BookIndex.IndexKeptIffClean`: assumes quantities below 2^46, because past that a level total may wrap.
- `BookIndex.RoomForOneMore`: assumes quantities below 2^46, the most that the order cap leaves room for in 64 bits.
- `BookDepth.LevelsAreTheVenues`: assumes quantities below 2^46, because past that a level total may wrap, and streams of events that keep the index; which events those are is proved both ways.
- `BookDepth.LevelsAreTheVenuesGroups`: assumes positive quantities, because without them it is false: an order of quantity zero stays when the level it shared is dropped.
- `BookRecovery.RecoveryCompletes`: assumes the book fits the order cap along the way, because an overflow unsyncs it.
- `BookDelivery.DeliveryCompletesRecovery`: assumes that what opened the recovery and the deltas delivered since fit the buffer and each promised order comes once, because past the buffer's cap deltas are dropped and a repeated order is counted twice.
- `BookDelivery.DeliveryRecoversIffNoHole`: assumes the venue's book fits the order cap, because an overflow unsyncs it.
- `AccumulatorTrace.FeedLeavesTheLastWord`: for feeds whose orders stay within their cap, because an overflow drops every order; `AccumulatorTrace.LastWordDecides` holds of every event.
- `AccumulatorFold.RebaselineForgetsIff`: for events of at most 2^127 - 1 changes, because a longer one could instead delete a level at every price key there is.
- `BookLevels.LevelsHoldIffCountIsKept`: for streams that are safe, fit the cap and were captured at their start, and runs in which no snapshot order repeats, because 2^32 repeats wrap the received count.
- `AccumulatorLevels.LevelReplayConserves`: for a market whose levels exist only as orders, as the accumulator's documentation says of every order-level market.
- `AuthorityStates.StickyAuthority.TransferScopeTo`: modelled as `close_window` uses it.
- `AuthorityStates.StickyAuthority.BestChallenger`: does not say which of two challengers of equal median wins, because that follows the hash map's order.
- `AccumulatorStates.BookAccumulator.SameState`: looks levels up by key where the code walks both trees in key order.
- `ChannelFilters.ParseWithin`: the refusals' texts, the list of known codes and the summary's denominators are not modelled; which rule refused is.
- `Products.AmbiguousListIsDistinctIff`: the candidates are taken as given; matching a parsed id against the catalog (`resolve`) only filters a list.
- `Products.SuffixedPrintsAndParses`: uppercasing is an arbitrary function of the source.
- `ChannelFilters.ComputeDrops`: over rows already decoded; a row's display name and the JSON status body are not modelled.
- The accumulator's `best_bid`, `best_ask` and `top_levels`, and its stamp accessors: reads of one field.
- The authority's label texts, `markets_held_all`, `holding_revert` and the other read-only queries that no rule uses.
- History `stats` and its byte estimates.
- Metrics and log lines inside the cores.
- The arbiter, price book, processor, reconciler, codecs, sinks, subscriber, HTTP and command line: their calls into the cores are arbitrary steps here.
