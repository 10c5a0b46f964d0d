# OddsTrust: a verified model

OddsTrust reads bookmakers' odds from an event stream, checks whether the implied probabilities of a
market leave room for a sure profit, records the checks, and publishes them on chain, where trading
agents ask before they act. This project models the parts of that system in which state, concurrency
or arithmetic can go wrong, and proves what they keep.

| files | component |
|---|---|
| `Framing`, `EventBlocks`, `LineReader`, `LineEnds`, `LoneReturn`, `Decoder`, `Chunking`, `RoundTrip`, `StaleSeparator` | the decoder of the event stream, compared with the reader of section 9.2.6 of the WHATWG HTML Living Standard |
| `Reconnect` | the life of a stream connection: retries, back-off, disconnect |
| `Market`, `Consistency`, `Arbitrage`, `Stakes` | implied probabilities, the consistency check and its stakes |
| `Detection`, `DetectionLaws`, `DetectionResults`, `DetectionUpdates`, `DetectionHandler` | concurrent `handleOddsUpdate` calls over the shared Redis keys, tables and queue |
| `OracleProgram`, `OracleClient` | the on-chain program, and the margin and instruction bytes that the backend sends it |
| `RateLimit`, `ProofFeed` | the rate limiter, and paging through the proof log |
| `SnapshotCache`, `SnapshotText`, `SnapshotFeed`, `Decimals`, `Vocabulary`, `WorkerInput`, `SnapshotDedup` | the memory of handled snapshots, and what the texts under the snapshot hashes tell apart |

Objects that the code updates in place are classes here (`TxLINEStream`, `Backend`, `Program`, `Limiter`,
`Pipeline`); each of their methods states the whole new state through a function on values, and the
theorems are about all runs of that function. Loops are loops with invariants. `JSON.parse` with the
field accesses behind it is a parameter, and so are clocks, the outcome of every await, the comparison
that a sort is called with and the printing of numbers.

Where the code and its documentation, or a first guess about the code, differ:

- The repository's README says that sums above 105% are flagged. The code flags a selection when its sum
  is below 1 (`packages/backend-core/src/detection/consistency.ts:24`), and so does the model.
- How the network cuts the stream into chunks can be heard. After a heartbeat the `continue` at
  `apps/backend/src/ingestion/stream.ts:89` jumps over the search for the next separator, and the old
  position is applied to the text behind it. `Decoder.FeedFramesIff` says for every list of chunks when the
  blocks are still right: exactly when in every drained buffer the position left by a heartbeat fits what
  follows it there, as it does when heartbeats end their buffers. `Chunking.ChunkingIsInvisibleIff` says for
  which streams all chunkings are right. `StaleSeparator.ChunkingCanBeHeard` gives a stream, `{"type":"heartbeat"}`
  and an update one character longer, whose update is lost when both come in one chunk.
- A CR that stands alone ends a line for the standard and not for the code. `LineReader.BlocksRefineLines`
  holds for all texts with the code's line ends. `LoneReturn.HarmlessIff` says which lines both readers take in
  alike, wherever they stand: those without a CR, and those whose pieces between the CRs are all comments or
  unknown fields. `LineEnds.StandardReads` ties the two readers together on texts of such lines, and
  `LoneReturn.HarmfulLineIsHeard` gives for every other line a stream whose events differ.
- The check also flags a selection without outcomes, where nothing can be staked
  (`Arbitrage.EmptySelectionIsFlagged`); the Dutch-book theorem therefore names non-empty selections.
- The stakes of a check add up to one unit exactly when no market with outcomes is replaced in the table by a
  later one of the same type (`Stakes.StakesSumToOneIff`; `Stakes.RepeatedTypeLosesStake` is a case where half
  of the stake is missing). `Stakes.StakesAreSureProfitIff` says when they are a sure profit all the same.
- Walking the proof feed can leave rows out: cursors have milliseconds, rows have microseconds.
  `ProofFeed.WalkIsCompleteIff` says for which logs the walk is complete, and
  `ProofFeed.SharedMillisecondLosesRow` is a walk that never serves the second of two rows.
- The sweep of the rate limiter can be noticed when the clock runs backwards
  (`RateLimit.SweepShowsWhenClockRunsBack`). `RateLimit.SweepsDoNotShowIff` says for every run when it is, and a
  limit of `max` lets `2 * max - 1` requests through in an interval as long as the window, and no more where the
  clock does not run back (`RateLimit.IntervalBound`, `RateLimit.IntervalBoundIsReached`).
- The ingester's hash input has nothing between a name and an odd, so different odds can feed it the same
  text: with outcomes named `1` and `2`, odds of 2 and 25 and odds of 22 and 5 do
  (`SnapshotFeed.DigitNamesRunTogether`). `SnapshotFeed.FeedTellsOddsApartIff` says for which names it cannot
  happen, and `Decimals.DecimalOddsToldApartIff` does for decimal odds, with their printing spelled out.
  Nor is there anything between a kind and a name; `Vocabulary.FeedTellsListsApartIff` says over which kinds and
  names all lists of markets are told apart. The worker's input has no such collisions
  (`WorkerInput.WorkerTextIffReordered`).
- The worker's key for handled snapshots leaves the fixture out, so an update with the odds that another
  fixture has just had is dropped (`SnapshotDedup.OtherFixtureIsDropped`, `SnapshotDedup.DroppedIff`).
- A check whose sum is just below one is published with margin 0; `OracleClient.FlaggedWithZeroMarginIff`
  gives the exact range, and `OracleClient.ZeroMarginMarket` odds within it.

## Model

| member | source | states |
|---|---|---|
| `Framing.FindFindsLeftmost` | apps/backend/src/ingestion/stream.ts:73 | the search returns the leftmost match of CR? LF CR? LF, and nothing only where no position matches |
| `Framing.MatchIsPattern` | apps/backend/src/ingestion/stream.ts:73 | the pattern matches four texts: LF LF, LF CR LF, CR LF LF and CR LF CR LF |
| `Framing.EarlierEndsFirst` | apps/backend/src/ingestion/stream.ts:73 | of two matches, the one that starts first never ends later |
| `Framing.FindIsStable` | apps/backend/src/ingestion/stream.ts:72-73 | text that arrives later never changes a separator already in the buffer |
| `Framing.FramingIsUnique` | apps/backend/src/ingestion/stream.ts:73-77 | cutting at the leftmost separators is the only way to split a text into blocks with one separator each and an uncuttable rest |
| `Framing.CutsInTwoPieces` | apps/backend/src/ingestion/stream.ts:66-77 | framing a text in two pieces with the leftover carried over is framing it whole |
| `EventBlocks.ParseSseBlock` | apps/backend/src/ingestion/stream.ts:7-19 | the parsing loop computes the fields that the block's lines, taken in one by one, give |
| `EventBlocks.FieldIsRead` | apps/backend/src/ingestion/stream.ts:11-13 | every line that is not blank says exactly one field, and that one is read: a name alone, or a name, a colon, and the value behind at most one space |
| `EventBlocks.AbsorbField` | apps/backend/src/ingestion/stream.ts:10-15 | a data field adds its value and an LF, an event field replaces the event, and comments and all other fields, `id` and `retry` included, change nothing |
| `EventBlocks.BlockTells` | apps/backend/src/ingestion/stream.ts:7-19 | a block gives the last event and the data values with an LF between them, or nothing where both are missing or empty |
| `LineReader.ReadToCut` | apps/backend/src/ingestion/stream.ts:72-80 | the line-by-line reader, started anywhere in a block of any text, dispatches once at the cut, with the fields of the block parser |
| `LineReader.ReadUnfinished` | apps/backend/src/ingestion/stream.ts:75 | where no separator is left to cut at, the line-by-line reader dispatches nothing either |
| `LineReader.BlocksRefineLines` | apps/backend/src/ingestion/stream.ts:72-98 | for every text, cutting into blocks and parsing them yields the events, with non-empty data, of the line-by-line reader, and both drop the unfinished tail |
| `LineEnds.StandardReads` | apps/backend/src/ingestion/stream.ts:9 | on texts whose lines are harmless and whose unfinished tail has no blank piece, that reader is the standard's, from any state |
| `LineEnds.TailIsDroppedIff` | apps/backend/src/ingestion/stream.ts:72-75 | the standard drops an unfinished tail too, in every state, if and only if no piece of it that ends with a CR is blank |
| `LineEnds.NoLoneReadsAlike` | apps/backend/src/ingestion/stream.ts:9 | texts whose lines all end with LF or CR LF are such texts |
| `LoneReturn.HarmlessIff` | apps/backend/src/ingestion/stream.ts:9 | the two readers take in a line alike, in every state and with every such text behind it, if and only if it has no CR or all its pieces are comments or unknown fields |
| `LoneReturn.HarmfulLineIsHeard` | apps/backend/src/ingestion/stream.ts:7-19 | for every other line there is a stream with no other CR standing alone for which the code and the standard yield different events |
| `LoneReturn.LoneReturnShows` | apps/backend/src/ingestion/stream.ts:9 | a family of such streams, both events spelled out: with a CR alone between two data lines the standard dispatches other data than the code |
| `Decoder.HandleBlock` | apps/backend/src/ingestion/stream.ts:79-96 | a block with readable data is a heartbeat exactly when its event or its type is `heartbeat`, and is otherwise handed on with its type or as `odds_update`; other blocks hand nothing on |
| `Decoder.JudgedByFields` | apps/backend/src/ingestion/stream.ts:80-95 | what a block is taken for, by its data and event fields and what its data reads as |
| `Decoder.DrainBuffer` | apps/backend/src/ingestion/stream.ts:72-98 | the inner loop, stale separators included, hands on what its specification says and leaves that buffer |
| `Decoder.ReadBody` | apps/backend/src/ingestion/stream.ts:66-99 | the reading loop delivers what its specification says for any chunks, and the messages of the whole text's blocks where every drained buffer is in step |
| `Decoder.FeedConservesText` | apps/backend/src/ingestion/stream.ts:72-77 | blocks, separators and leftover make up the received text, for all chunks and with heartbeats anywhere |
| `Decoder.DrainFramesIff` | apps/backend/src/ingestion/stream.ts:75-97 | one buffer is cut correctly if and only if after every heartbeat the separator still held fits the text that follows |
| `Decoder.HeldSeparator` | apps/backend/src/ingestion/stream.ts:76-89 | going on with the old separator is as good as searching exactly when it fits |
| `Decoder.OutOfStep` | apps/backend/src/ingestion/stream.ts:75-97 | a buffer in which a held separator misses spoils the cuts for good, whatever text comes later |
| `Decoder.FeedFramesIff` | apps/backend/src/ingestion/stream.ts:66-99 | any list of chunks gives the blocks and the leftover of the whole text if and only if every drained buffer is in step |
| `Decoder.BuffersEndInStep` | apps/backend/src/ingestion/stream.ts:75-97 | buffers in which each heartbeat ends what has arrived are in step, whatever follows in later chunks |
| `Decoder.QuietFeedIsFraming` | apps/backend/src/ingestion/stream.ts:66-99 | with each heartbeat ending its buffer, the chunks give the blocks and the leftover of the whole text |
| `Chunking.OneByOneIsFramed` | apps/backend/src/ingestion/stream.ts:66-99 | one character at a time, every text is cut correctly, heartbeats or not |
| `Chunking.ChunkingThatShows` | apps/backend/src/ingestion/stream.ts:89-97 | a stream in which text follows a heartbeat has a chunking that yields wrong blocks |
| `Chunking.ChunkingIsInvisibleIff` | apps/backend/src/ingestion/stream.ts:66-99 | all chunkings of a stream yield its blocks and leftover if and only if no heartbeat in it is followed by text |
| `Chunking.StreamRefinesReader` | apps/backend/src/ingestion/stream.ts:66-99 | for any chunks in step the handlers receive what the line-by-line reader dispatches for the whole stream |
| `Chunking.StreamRefinesStandard` | apps/backend/src/ingestion/stream.ts:66-99 | and this is what the standard's reader dispatches where every line of the stream is harmless and the unfinished tail has no blank piece |
| `RoundTrip.BlockIsCut` | apps/backend/src/ingestion/stream.ts:73-77 | the first separator in printed text is the blank line behind the first message |
| `RoundTrip.PrintedMessageIsRead` | apps/backend/src/ingestion/stream.ts:7-19 | parsing a printed message gives it back, with several data lines and leading spaces |
| `RoundTrip.QuietPrintInStep` | apps/backend/src/ingestion/stream.ts:66-99 | printed messages that are no heartbeats are in step in every chunking |
| `RoundTrip.DecodePrinted` | apps/backend/src/ingestion/stream.ts:66-99 | printing messages, heartbeats included, and decoding any chunks in step gives exactly these messages and no leftover; the handlers get all that can be read and are no heartbeats, by event or by type |
| `StaleSeparator.UpdateIsTruncated` | apps/backend/src/ingestion/stream.ts:89-97 | an update one character longer than the heartbeat before it is read without that character in one chunk and whole one character at a time |
| `StaleSeparator.UpdateIsLost` | apps/backend/src/ingestion/stream.ts:82-95 | where the shortened update is no JSON text, nothing is handed on in one chunk, and the update is handed on one character at a time |
| `StaleSeparator.ChunkingCanBeHeard` | apps/backend/src/ingestion/stream.ts:89-97 | a heartbeat of 20 characters and an update of 21: lost in one chunk, handed on one character at a time, for any reading of these texts as JSON |
| `Reconnect.TxLINEStream.StartConnect` | apps/backend/src/ingestion/stream.ts:39-55 | a new abort signal and one more open request; nothing else changes |
| `Reconnect.TxLINEStream.ScheduleReconnect` | apps/backend/src/ingestion/stream.ts:115-126 | one more timer with the delay of the current attempt, and the attempt is counted; `Reconnect.DelaysDouble` says what the delays are |
| `Reconnect.TxLINEStream.Finish` | apps/backend/src/ingestion/stream.ts:101-103 | the connection is gone, and a retry is scheduled unless reconnecting is off |
| `Reconnect.TxLINEStream.OnResponse` | apps/backend/src/ingestion/stream.ts:57-62 | a good response resets the attempts, a bad one ends the connection |
| `Reconnect.TxLINEStream.OnError` | apps/backend/src/ingestion/stream.ts:104-112 | an abort ends the connection silently, any other error with a retry |
| `Reconnect.TxLINEStream.OnTimer` | apps/backend/src/ingestion/stream.ts:119-125 | the timer connects only while reconnecting is on |
| `Reconnect.TxLINEStream.Stop` | apps/backend/src/ingestion/stream.ts:130-134 | disconnecting aborts the current signal and turns reconnecting off |
| `Reconnect.InvHolds` | apps/backend/src/ingestion/stream.ts:39-134 | the invariant of every run: activity, signals, attempts and delays, and requests behind a stop |
| `Reconnect.AtMostOneActivity` | apps/backend/src/ingestion/stream.ts:101-125 | after one external connect there is never more than one open connection or pending timer, counted together |
| `Reconnect.NoRequestAfterDisconnect` | apps/backend/src/ingestion/stream.ts:119-134 | no request and no retry follows a disconnect |
| `Reconnect.DisconnectAborts` | apps/backend/src/ingestion/stream.ts:130-134 | from a disconnect on, also right after it, and not before, every connection still open has had its signal aborted |
| `Reconnect.DisconnectIsNoted` | apps/backend/src/ingestion/stream.ts:130-134 | whatever has happened before, a disconnect is noted in the log, so that the two results above hold from it on; it turns reconnecting off and forgets the signal |
| `Reconnect.DelaysBackOff` | apps/backend/src/ingestion/stream.ts:115-117 | between successful responses the delays never fall, and stay from 1000 to 30000 ms |
| `Reconnect.FirstDelayIsOneSecond` | apps/backend/src/ingestion/stream.ts:115-117 | the first delay after the start or after a successful response is 1000 ms |
| `Reconnect.DelaysDouble` | apps/backend/src/ingestion/stream.ts:115-117 | each next one, with no successful response in between, is twice the one before, or 30000 ms where that is less |
| `Reconnect.LogIsOrdered` | apps/backend/src/ingestion/stream.ts:39-126 | in every run each response answers a request of its own, each retry follows the end of a connection, and each further request follows a retry |
| `Reconnect.EveryEndRetries` | apps/backend/src/ingestion/stream.ts:101-112 | a connection that ends or fails, and is not aborted, schedules one retry, unless the stream has been stopped |
| `Reconnect.AbortIsFinal` | apps/backend/src/ingestion/stream.ts:104-108 | an abort ends the stream for good: no request, no retry and no response follows |
| `Reconnect.SignalsAreFresh` | apps/backend/src/ingestion/stream.ts:43 | each connect makes a signal that no connection before it has had |
| `Reconnect.NeverGivesUp` | apps/backend/src/ingestion/stream.ts:101-125 | without abort or disconnect there is always exactly one connection or timer |
| `Market.OddsToProbability` | packages/backend-core/src/detection/market.ts:8-14 | the filled record has the implied probability of every outcome, in the same order |
| `Market.SumOutcomes` | packages/backend-core/src/detection/consistency.ts:14-21 | the nested loops compute the total over all outcomes of all markets |
| `Market.NormalizeMargin` | packages/backend-core/src/detection/market.ts:16-24 | probabilities with a positive total are scaled to sum to one with their ratios kept; others are returned as they are |
| `Consistency.CheckConsistency` | packages/backend-core/src/detection/consistency.ts:4-47 | flag, rounded sum and margin are those of the outcomes of all markets of wanted kinds, and a flagged check has the stake table |
| `Consistency.SelectedHas` | packages/backend-core/src/detection/consistency.ts:11 | the selection has the markets of wanted kinds, each as often as it is in the list, and no others |
| `Consistency.SelectedAppend` | packages/backend-core/src/detection/consistency.ts:11 | selecting from a list in two parts is selecting from each, in order |
| `Consistency.SelectedSum` | packages/backend-core/src/detection/consistency.ts:11-21 | the sum over the selection is what the markets of wanted kinds, taken one by one, add up to |
| `Consistency.FillStakes` | packages/backend-core/src/detection/consistency.ts:27-34 | the loops build the stake table in which a later market of a type replaces an earlier one |
| `Consistency.ComputeArbitrageStakes` | packages/backend-core/src/detection/consistency.ts:49-74 | no stakes for a sum of one or more, otherwise the table of rounded stakes |
| `Arbitrage.FlaggedIffSureProfit` | packages/backend-core/src/detection/consistency.ts:11-24 | a non-empty selection is flagged if and only if some division of one unit pays more than one on every outcome |
| `Arbitrage.EmptySelectionIsFlagged` | packages/backend-core/src/detection/consistency.ts:14-24 | a selection without outcomes is flagged although there is no division of a unit over it |
| `Arbitrage.ProportionalPaysEvenly` | packages/backend-core/src/detection/consistency.ts:26-35 | the stakes in proportion to the probabilities pay 1/S, more than one, on every outcome |
| `Arbitrage.NoAllocationDoesBetter` | packages/backend-core/src/detection/consistency.ts:26-35 | every division of one unit pays at most 1/S on some outcome |
| `Arbitrage.BestAllocationIsUnique` | packages/backend-core/src/detection/consistency.ts:26-35 | the division with that worst payoff is the proportional one and no other |
| `Stakes.CheckReturnsBestStakes` | packages/backend-core/src/detection/consistency.ts:26-43 | with distinct market types the returned stakes are a sure profit, pay 1/S on each outcome, and no division has a larger worst payoff |
| `Stakes.StakesSumToOneIff` | packages/backend-core/src/detection/consistency.ts:28-34 | the returned stakes sum to one exactly when there are outcomes and every replaced market has none |
| `Stakes.RepeatedTypeLosesStake` | packages/backend-core/src/detection/consistency.ts:33 | two markets of one type with sum 1/2 whose returned stakes sum to 1/2 |
| `Stakes.OutcomePays` | packages/backend-core/src/detection/consistency.ts:26-35 | with the stakes of a flagged check an outcome pays its odds over those it has in the last market of its type, over S, and nothing if it is not in that market |
| `Stakes.StakesAreSureProfitIff` | packages/backend-core/src/detection/consistency.ts:26-35 | whatever happens more comes back than is staked, if and only if every outcome is in the last market of its type and its odds exceed those there times the implied sum of the markets in the table |
| `Stakes.RoundedStakesSum` | packages/backend-core/src/detection/consistency.ts:65-71 | the stakes rounded to four decimals miss the total stake by at most 0.00005 for each outcome |
| `Stakes.RoundedStakesPay` | packages/backend-core/src/detection/consistency.ts:65-71 | every outcome pays at least totalStake/S less 0.00005 times its odds |
| `Stakes.StakesHaveFourDecimals` | packages/backend-core/src/detection/consistency.ts:65-71 | all returned stakes are rounded to four decimals, for any markets |
| `DetectionLaws.LawsMove` | apps/backend/src/detection/pipeline.ts:51-131 | a step that hands on what its call gives up keeps the conservation laws of claims, rows, jobs and proofs |
| `DetectionLaws.StepMoves` | apps/backend/src/detection/pipeline.ts:51-131 | every await, succeeding or failing before or after it took effect, hands on exactly what its call gives up |
| `DetectionLaws.LandKeepsJobs` | apps/backend/src/detection/pipeline.ts:124-131 | a job whose `add` ends, well or not, stays accounted for |
| `DetectionLaws.InvHolds` | apps/backend/src/detection/pipeline.ts:40-134 | in every interleaving each claim is a row, in one call's hands or lost to a failure, and likewise each row's job, queued or on its way, and each flagged row's proof |
| `DetectionResults.MatchWinnerIsVisitedTwice` | apps/backend/src/detection/pipeline.ts:36-41 | an update visits some market set twice, under one dedup key, if and only if it offers match_winner, and then that set |
| `DetectionResults.AtMostOnePerLife` | apps/backend/src/detection/pipeline.ts:51-93 | a dedup key never has more rows than it has had lives |
| `DetectionResults.AtMostOnceWhileKeyLives` | apps/backend/src/detection/pipeline.ts:51-131 | before its key expires, a market set of a snapshot has at most one row and at most one job, within one call and across calls |
| `DetectionResults.JobsAreDistinct` | apps/backend/src/detection/pipeline.ts:124-131 | no two jobs are for the same row |
| `DetectionResults.ProofsAreDistinct` | apps/backend/src/detection/pipeline.ts:97-109 | no two proofs are for the same row |
| `DetectionResults.ProofsAndJobsCopyTheirRow` | apps/backend/src/detection/pipeline.ts:95-131 | every proof points to an existing inconsistent row with its fixture and margin, every job to a row with its flag, sum, margin, fixture and market set |
| `DetectionResults.RowsAreResults` | apps/backend/src/detection/pipeline.ts:40-93 | every row is the consistency result of an arrived update for a market set it covers |
| `DetectionResults.ResultsOncePerLife` | apps/backend/src/detection/pipeline.ts:51-58 | in the results of all calls together a key occurs at most once for each of its lives |
| `DetectionResults.ResultsAreWork` | apps/backend/src/detection/pipeline.ts:58 | a call returns results for its own market sets only |
| `DetectionResults.FinishedRunIsComplete` | apps/backend/src/detection/pipeline.ts:40-134 | without failures, with all calls done and all jobs landed, rows match key lives, jobs match rows, and proofs match inconsistent rows, one to one |
| `DetectionResults.FinishedRunCoversAll` | apps/backend/src/detection/pipeline.ts:40-41 | and every covered market set of every update has its row, exactly one while its key has not expired |
| `DetectionUpdates.WorkIsOffered` | apps/backend/src/detection/pipeline.ts:34-41 | the market sets of an update, in order: three kinds first where match_winner is offered, and then all eight, as far as they are offered |
| `DetectionUpdates.WorkHas` | apps/backend/src/detection/pipeline.ts:34-41 | an update has checked exactly those of the eight kinds that it offers, each as a set of its own |
| `DetectionUpdates.CallsAreArrivals` | apps/backend/src/detection/pipeline.ts:23 | there is one call for each update that has arrived, in order |
| `DetectionUpdates.EveryUpdateIsRecorded` | apps/backend/src/detection/pipeline.ts:40-131 | in a finished run without failures every arrived update has, for every one of the eight kinds it offers, a row with its fixture, that kind and its snapshot hash, and one only while that key has not expired |
| `DetectionUpdates.RowsSayUpdates` | apps/backend/src/detection/pipeline.ts:43-49 | in every run each row has the fixture, the hash, the rounded sum, the flag and the margin of an arrived update for one kind that it offers |
| `DetectionUpdates.RefusalHasCause` | apps/backend/src/detection/pipeline.ts:51-56 | a claim is refused only where an update of the same fixture with the same hash offers the same kind: another one, or the same one earlier in its loop |
| `DetectionUpdates.HashesKeepApart` | apps/backend/src/detection/pipeline.ts:51 | updates of different fixtures or with different hashes share no dedup key |
| `DetectionUpdates.GrantedIffFree` | apps/backend/src/detection/pipeline.ts:52-58 | an answered claim is granted exactly where its key is not in Redis, and only then the result is the call's |
| `DetectionUpdates.ExpiredIsFree` | apps/backend/src/detection/pipeline.ts:52 | an expired key is free again, and nothing else changes |
| `DetectionUpdates.SnapshotsComeFirst` | apps/backend/src/detection/pipeline.ts:65-82 | no row is written before its snapshot is stored, and no snapshot is stored for a key that has not been claimed |
| `DetectionUpdates.FailureEndsCall` | apps/backend/src/detection/pipeline.ts:52-134 | a failed await ends its call, which keeps the results that it has |
| `DetectionUpdates.FailureKeepsStores` | apps/backend/src/detection/pipeline.ts:52-134 | a failed await leaves the stores as they were, or, where it has had its effect, as success would |
| `DetectionUpdates.EveryCallEnds` | apps/backend/src/detection/pipeline.ts:40-136 | whatever goes on around it, a call is done or has failed after at most six awaits for each market set and one more, and without failures it is done |
| `DetectionHandler.Backend.Wait` | apps/backend/src/detection/pipeline.ts:52 | while a call awaits, everything else may go on; the call itself and the rows written so far stay what they are |
| `DetectionHandler.Backend.SetNx` | apps/backend/src/detection/pipeline.ts:51-58 | after whatever came in between, claiming a key is granted once and refused while the key lives, and a granted result is kept |
| `DetectionHandler.Backend.InsertCheck` | apps/backend/src/detection/pipeline.ts:79-95 | behind the rows that others have written meanwhile the row is appended, its id is its place, and the call goes on to the proof or the message |
| `DetectionHandler.Backend.InsertProof` | apps/backend/src/detection/pipeline.ts:97-109 | the proof of the call's own row is appended, as the protocol's step does |
| `DetectionHandler.Backend.CacheAndEnqueue` | apps/backend/src/detection/pipeline.ts:122-131 | behind the caching await the call starts adding the job of its own row and goes on without waiting for it |
| `DetectionHandler.Backend.Record` | apps/backend/src/detection/pipeline.ts:64-131 | with other calls going on at every await, one turn of the loop takes the call to the next market set, or to the first await that throws |
| `DetectionHandler.Backend.Visit` | apps/backend/src/detection/pipeline.ts:43-131 | a covered market set is claimed and recorded, or left alone where its key lives, and the call goes on unless an await throws |
| `DetectionHandler.Backend.Loop` | apps/backend/src/detection/pipeline.ts:40-132 | skipping the sets that are not covered, the loop goes through the protocol's awaits of this call, interleaved with all others, to the last one or to one that throws |
| `DetectionHandler.Backend.HandleOddsUpdate` | apps/backend/src/detection/pipeline.ts:23-137 | whatever goes on at its awaits, the stores stay those of the protocol after all events, and the call ends done or thrown with the results that the protocol has for it |
| `DetectionHandler.ReachedIsRun` | apps/backend/src/detection/pipeline.ts:23-137 | the state that a trace of events leads to is the protocol's |
| `DetectionHandler.StoresObeyProtocol` | apps/backend/src/detection/pipeline.ts:23-137 | so the stores always keep the invariant, with at most one row for each life of a key and no second job for a row |
| `OracleProgram.Program.InitializeConfig` | oddtrust-oracle/programs/oddtrust-oracle/src/instructions/init_config.rs:24-40 | the first initialization writes the config with zero totals; a second one fails and changes nothing |
| `OracleProgram.Program.SubmitCheck` | oddtrust-oracle/programs/oddtrust-oracle/src/instructions/submit_check.rs:43-105 | guards in order, then all fields, counters and the event at once; a failure leaves everything as it was |
| `OracleProgram.Program.QueryTrust` | oddtrust-oracle/programs/oddtrust-oracle/src/instructions/query_trust.rs:20-46 | a query reports the account and changes no account |
| `OracleProgram.Program.TradingAgentCheck` | oddtrust-oracle/programs/oddtrust-oracle/src/instructions/trading_agent_check.rs:39-69 | an agent's check reports the account with its decision and changes no account |
| `OracleProgram.InvRun` | oddtrust-oracle/programs/oddtrust-oracle/src/instructions/submit_check.rs:53-93 | in every run the accounts equal the replay of the events, events are numbered, and every account matches its last event |
| `OracleProgram.StateIsReplay` | oddtrust-oracle/programs/oddtrust-oracle/src/instructions/submit_check.rs:71-93 | config and trust accounts are what a replay of the emitted events gives |
| `OracleProgram.EventsAreNumbered` | oddtrust-oracle/programs/oddtrust-oracle/src/instructions/submit_check.rs:68-92 | the checks of a fixture are numbered 1, 2, 3 up to 1,000,000, with margins within 10000 |
| `OracleProgram.AgentDecides` | oddtrust-oracle/programs/oddtrust-oracle/src/instructions/trading_agent_check.rs:42-58 | Executed exactly when the fixture's last accepted check was consistent; a fixture mismatch cannot occur, and the event is the only change |
| `OracleProgram.TotalsAddUp` | oddtrust-oracle/programs/oddtrust-oracle/src/instructions/submit_check.rs:79-82 | the total is the sum of all accounts' counters and the number of accepted checks; the inconsistent ones are counted and never more |
| `OracleProgram.AccountsStayInRange` | oddtrust-oracle/programs/oddtrust-oracle/src/instructions/submit_check.rs:58-77 | every account has a counter in 1 to 1,000,000 and a margin in -10000 to 10000 |
| `OracleProgram.SubmitAcceptedIff` | oddtrust-oracle/programs/oddtrust-oracle/src/instructions/submit_check.rs:53-82 | in reachable states a submission is accepted exactly under the stated conditions, and a refused one, the absolute value of the smallest i32 included, changes nothing |
| `OracleProgram.RefusalTells` | oddtrust-oracle/programs/oddtrust-oracle/src/instructions/submit_check.rs:53-82 | which error a refused submission gets, in every reachable state |
| `OracleProgram.SubmissionIsRecorded` | oddtrust-oracle/programs/oddtrust-oracle/src/instructions/submit_check.rs:53-92 | an accepted submission leaves its fixture's account, and the event, with exactly its fixture, flag, margin and proof reference, the clock's slot and time, and the next number; no other account changes, and the totals count one more |
| `OracleProgram.AccountIsLastSubmission` | oddtrust-oracle/programs/oddtrust-oracle/src/instructions/submit_check.rs:71-92 | in every run a fixture's account holds exactly what its last accepted submission said, numbered by all that were accepted |
| `OracleProgram.LastEventIsAccount` | oddtrust-oracle/programs/oddtrust-oracle/src/instructions/submit_check.rs:84-92 | and so does the fixture's last event |
| `OracleProgram.ConfigIsFirst` | oddtrust-oracle/programs/oddtrust-oracle/src/instructions/init_config.rs:24-36 | authority and backend signer are those that the first initialization gave |
| `OracleProgram.InitializedOnce` | oddtrust-oracle/programs/oddtrust-oracle/src/instructions/init_config.rs:24-40 | only the first initialization is accepted, with zero totals and an event that says who and when |
| `OracleProgram.OnlyGivenSignerSubmits` | oddtrust-oracle/programs/oddtrust-oracle/src/instructions/submit_check.rs:53-56 | an accepted submission is signed by the signer given at the first initialization |
| `OracleProgram.QueryReports` | oddtrust-oracle/programs/oddtrust-oracle/src/instructions/query_trust.rs:20-46 | a query reports flag and margin of the fixture's last accepted check, and the event is the only change |
| `OracleProgram.FullFixtureIsFrozen` | oddtrust-oracle/programs/oddtrust-oracle/src/instructions/submit_check.rs:68-69 | a fixture that has used up its checks keeps its last answer for ever |
| `OracleClient.MarginMatchesSum` | packages/backend-core/src/detection/consistency.ts:40-42 | the reported margin is the reported sum less one, although both are rounded separately |
| `OracleClient.BpsTellsTheFlag` | apps/backend/src/chain/oracle.ts:57-59 | the basis points are not negative for consistent and not positive for flagged checks, and within 0.505 of 10000(S-1) for sums up to two |
| `OracleClient.LowerClampIsIdle` | apps/backend/src/chain/oracle.ts:57-59 | the lower clamp never acts, the upper one not for sums up to two |
| `OracleClient.UpperClampActs` | apps/backend/src/chain/oracle.ts:57-59 | from a sum of two on the basis points are 10000 |
| `OracleClient.FlaggedWithZeroMarginIff` | apps/backend/src/chain/oracle.ts:57-59 | a flagged check is published with margin zero if and only if its sum is at least 1 - 0.0000505 |
| `OracleClient.ZeroMarginMarket` | apps/backend/src/chain/oracle.ts:57-59 | odds of 2 and 2.0001 leave a sure profit, are flagged, and have margin zero on chain |
| `OracleClient.BuildInstruction` | apps/backend/src/chain/oracle.ts:195-210 | the 77 bytes written in place are the fields in their layout, and the program reads the same arguments from them |
| `OracleClient.LittleEndian` | apps/backend/src/chain/oracle.ts:195-210 | the margin's four bytes are its two's complement, lowest byte first |
| `OracleClient.DecodeLayout` | apps/backend/src/chain/oracle.ts:195-210 | reading the written bytes gives the arguments back, negative margins included |
| `OracleClient.LayoutDecode` | apps/backend/src/chain/oracle.ts:195-210 | writing what was read gives the bytes back, so no two byte strings mean the same submission |
| `OracleClient.CheckAcceptedIff` | oddtrust-oracle/programs/oddtrust-oracle/src/instructions/submit_check.rs:53-82 | whatever the odds, the submission of a check is refused only for its signer or for full counters, and else recorded with its flag and proof reference |
| `OracleClient.AgentExecutesIffNoSureProfit` | oddtrust-oracle/programs/oddtrust-oracle/src/instructions/trading_agent_check.rs:47-58 | from odds to decision: the margin is never refused, and after an accepted check an agent is told to execute exactly when no division of a unit is a sure profit, with the margin of these odds to half a basis point |
| `RateLimit.Limiter.CheckRateLimit` | apps/web/lib/rate-limit.ts:8-28 | answer and new entry of the request's key; no other entry changes |
| `RateLimit.Limiter.Cleanup` | apps/web/lib/rate-limit.ts:50-57 | the sweep removes the expired entries and nothing else |
| `RateLimit.SweepsDoNotShowIff` | apps/web/lib/rate-limit.ts:13-57 | a run with sweeps is answered like one without if and only if no key has a request with a time inside its window after a sweep with a time behind it |
| `RateLimit.SweepsDoNotShow` | apps/web/lib/rate-limit.ts:50-57 | so it is whenever no request is earlier than a sweep before it, however else the clock runs |
| `RateLimit.InTimeSweepsFirst` | apps/web/lib/rate-limit.ts:50-57 | and a clock that does not run back is enough for that |
| `RateLimit.SweepShowsWhenClockRunsBack` | apps/web/lib/rate-limit.ts:50-57 | for every limit and window a run with a clock running back in which a sweep changes an answer |
| `RateLimit.KeyIsOnItsOwn` | apps/web/lib/rate-limit.ts:13-27 | with sweeps and other keys in between, the answers to a key are those of its own requests alone exactly when these are in order with the sweeps |
| `RateLimit.WindowIsAnswered` | apps/web/lib/rate-limit.ts:13-27 | the n-th request of a window is let through while n is within the limit, or first, and told how many are left after it and when the window ends |
| `RateLimit.WindowsAreSeparate` | apps/web/lib/rate-limit.ts:16-19 | a request behind the end of a window starts afresh |
| `RateLimit.WindowBound` | apps/web/lib/rate-limit.ts:16-25 | in every such run, with other keys and sweeps in between, no window of a key lets more than the limit through |
| `RateLimit.IntervalBound` | apps/web/lib/rate-limit.ts:13-27 | in any run with a clock that does not run back a key gets at most 2 max - 1 requests through in any closed interval of the window's length |
| `RateLimit.IntervalBoundIsReached` | apps/web/lib/rate-limit.ts:13-27 | for every limit and window there is a run with such a clock whose answers reach this bound |
| `SnapshotCache.Pipeline.Admit` | apps/web/lib/worker/pipeline.ts:66-79 | a known hash changes nothing; a new one is remembered, and a cache over its limit forgets its 1000 oldest |
| `SnapshotCache.CacheIsBoundedSuffix` | apps/web/lib/worker/pipeline.ts:71-79 | for every limit the cache is a duplicate-free suffix of the accepted hashes, never above the limit |
| `SnapshotCache.CacheSizeIsExact` | apps/web/lib/worker/pipeline.ts:72-79 | for every limit, the number of remembered hashes as a function of the number accepted |
| `SnapshotCache.SkippedIff` | apps/web/lib/worker/pipeline.ts:66-79 | for every limit a hash is known exactly when fewer newer ones were accepted than are remembered: always below limit - 999, never from the limit on |
| `SnapshotText.ComputeOddsFeed` | apps/backend/src/ingestion/fixtures.ts:43-53 | the nested loops feed the hash the text of the canonical order |
| `SnapshotText.SortSorts` | apps/web/lib/worker/pipeline.ts:150-151 | sorting by a strict total order on distinct names gives strictly ascending names |
| `SnapshotText.SortedIsUnique` | apps/web/lib/worker/pipeline.ts:150-151 | two ascending lists of the same entries are the same list |
| `SnapshotText.CanonicalIffReordered` | apps/web/lib/worker/pipeline.ts:149-153 | two snapshots have the same canonical order if and only if they differ only in the order of markets and outcomes |
| `SnapshotText.TextsIgnoreOrder` | apps/web/lib/worker/pipeline.ts:149-155 | reordering markets and outcomes changes neither the worker's nor the ingester's hash input |
| `SnapshotText.WorkerTextOfTwo` | apps/web/lib/worker/pipeline.ts:149-153 | the worker's text spelled out for two markets that come in the wrong order |
| `SnapshotText.FeedRunsTogether` | apps/backend/src/ingestion/fixtures.ts:43-53 | two snapshots with different names that feed the ingester's hash the same text |
| `SnapshotFeed.FeedIsText` | apps/backend/src/ingestion/fixtures.ts:45-50 | the feed is words and odds in turn, a word being what of kinds and names stands between two odds |
| `SnapshotFeed.FeedTellsOddsApartIff` | apps/backend/src/ingestion/fixtures.ts:45-50 | for given kinds and names the feed tells all odds apart if and only if every word between two odds has a character that no number is printed with |
| `SnapshotFeed.FeedEqualIffReordered` | apps/backend/src/ingestion/fixtures.ts:43-53 | for such snapshots of the same kinds and names the feeds are equal if and only if markets and odds are, in whatever order |
| `SnapshotFeed.FeedTellsNamesApart` | apps/backend/src/ingestion/fixtures.ts:45-50 | different names are told apart too where they have no characters of numbers and each kind has as many outcomes on both sides |
| `Decimals.FeedTellsOddsApartUnlessNumeric` | apps/backend/src/ingestion/fixtures.ts:45-50 | where a printing writes decimal numbers as usual, and the words between odds are digits with at most one dot or have a character of no number: all odds are told apart if and only if no word is of the first sort |
| `Decimals.ShowPrints` | apps/backend/src/ingestion/fixtures.ts:49 | the usual printing of decimal numbers is such a printing, and different numbers are printed differently |
| `Decimals.DecimalOddsToldApartIff` | apps/backend/src/ingestion/fixtures.ts:45-50 | so for decimal odds and such words the condition is exact, with no assumption about printing left |
| `Vocabulary.FeedTellsListsApartIff` | apps/backend/src/ingestion/fixtures.ts:45-50 | over kinds and names without characters of numbers, all lists of markets with outcomes are told apart if and only if a kind with a name behind it is never a name, nor another kind with a name |
| `Vocabulary.VocabularyFeedIffReordered` | apps/backend/src/ingestion/fixtures.ts:43-53 | over such a vocabulary the feeds of snapshots are equal if and only if markets, names and odds are, in whatever order |
| `SnapshotFeed.DigitNamesRunTogether` | apps/backend/src/ingestion/fixtures.ts:45-50 | one market, the same outcomes 1 and 2, and two pairs of odds that feed the same text |
| `SnapshotFeed.MarketsRunTogether` | apps/backend/src/ingestion/fixtures.ts:45-50 | for any names, an outcome may belong to one market or to the next and feed the same text |
| `WorkerInput.QuotedQuotes` | apps/web/lib/worker/pipeline.ts:152 | names quoted character by character can be read off the text |
| `WorkerInput.BackslashedEscapes` | apps/web/lib/worker/pipeline.ts:152 | putting backslashes in front of quotation marks and backslashes is such a quoting |
| `WorkerInput.WorkerTextIffReordered` | apps/web/lib/worker/pipeline.ts:149-153 | with kinds free of colons the worker's texts are equal if and only if markets and odds are, in whatever order |
| `SnapshotDedup.TextsTellApart` | apps/web/lib/worker/pipeline.ts:149-155 | a digest that does not collide on the texts at hand tells updates apart exactly by their markets and odds, in whatever order |
| `SnapshotDedup.DroppedIff` | apps/web/lib/worker/pipeline.ts:61-79 | for every limit an update with a fixture and markets is dropped if and only if such an update of any fixture had the same markets and odds and fewer newer snapshots have been accepted than are remembered |
| `SnapshotDedup.OtherFixtureIsDropped` | apps/web/lib/worker/pipeline.ts:66-71 | an update that follows one of another fixture with the same odds is dropped |
| `ProofFeed.NextPageIsOlder` | apps/backend/src/api/routes/proof-feed.ts:43-50 | whatever is inserted in between, every row of the next page is older than every row of this one, and cursors fall |
| `ProofFeed.WalkDescends` | apps/backend/src/api/routes/proof-feed.ts:18-50 | over arbitrary logs, every row of a page of a walk is newer than every row of all later pages, so none is served on two pages |
| `ProofFeed.PageDescends` | apps/backend/src/api/routes/proof-feed.ts:23-46 | the rows of a page descend in time |
| `ProofFeed.WalkFrom` | apps/backend/src/api/routes/proof-feed.ts:18-50 | requests against a growing log serve the pages of the log as it stood at the first request |
| `ProofFeed.PagesAreCompleteIff` | apps/backend/src/api/routes/proof-feed.ts:43-50 | the pages of a log concatenate to it if and only if no page ends within a millisecond that goes on |
| `ProofFeed.WalkIsCompleteIff` | apps/backend/src/api/routes/proof-feed.ts:13-50 | following the cursors ends and serves exactly the first log, under that same condition and no other |
| `ProofFeed.SharedMillisecondLosesRow` | apps/backend/src/api/routes/proof-feed.ts:48-50 | two rows in one millisecond, one row a page: the second row is never served |
| `ProofFeed.DistinctMillisAreUnbroken` | apps/backend/src/api/routes/proof-feed.ts:48-50 | rows with distinct milliseconds meet the condition for every page size |
| `ProofFeed.GetFailsIff` | apps/backend/src/api/routes/proof-feed.ts:13-50 | through the query's limit and `slice`, an unreadable cursor is a bad request, a negative page size a server error, and nothing else fails |
| `ProofFeed.RowsServed` | apps/backend/src/api/routes/proof-feed.ts:13-50 | a request serves 25 rows without a limit, otherwise as many as the limit says and at most 100, and a next cursor exactly where rows are left over |
| `ProofFeed.BehindHas` | apps/backend/src/api/routes/proof-feed.ts:23-38 | behind a cursor are the rows before its time, each as often as in the log, and all rows where there is none |
| `ProofFeed.MillisOf` | apps/backend/src/api/routes/proof-feed.ts:48-50 | a cursor is the start of its row's millisecond |

## Left out

- LineReader.BlocksRefineLines: byte order mark, `id` and `retry` fields of the standard are not modelled, since the source ignores them.
- Chunking.StreamRefinesStandard: asks that each line is harmless in every state. A stream with a harmful line whose effect never reaches an event, as when a later line overwrites the event's name, is not covered.
- RoundTrip.DecodePrinted: lines that contain an LF, or end in CR, and messages with empty data cannot be printed in this form.
- DetectionHandler.Backend.HandleOddsUpdate: the payloads of the snapshot row, the message and the two cached values are not modelled.
- DetectionHandler.Backend.CacheAndEnqueue: what the queue does with a job once it has landed, retries and stalled jobs included, is not modelled.
- OracleProgram.Program.SubmitCheck: addresses and bumps of accounts, rent, and other accounts' checks are not modelled; the fixture id is the account's key.
- OracleClient.BuildInstruction: SHA-256, derivation of addresses, decoding of keys and of the proof reference, the account list, signing and sending are not modelled.
- ProofFeed.WalkIsCompleteIff: rows with equal timestamps keep their order from request to request; the database does not promise that.
- Market.NormalizeMargin: keys that look like array indices, which JavaScript moves to the front of a record, keep their place here.
- SnapshotText.TextsIgnoreOrder: the comparisons are strict total orders on the names used; `localeCompare` may treat different names as equal. Escaping of names and printing of numbers are parameters.
- SnapshotFeed.FeedTellsNamesApart: asks for the same kinds with as many outcomes on both sides; `Vocabulary.FeedTellsListsApartIff` does without, for markets with outcomes.
- Vocabulary.FeedTellsListsApartIff: names with characters of numbers in them, and markets without outcomes, are not covered.
- Decimals.DecimalOddsToldApartIff: words of digits with two or more dots are not covered, nor the exponents that JavaScript writes from 1e21 on.
- SnapshotDedup.DroppedIff: SHA-256 and the cut to 16 digits are a parameter that does not make two of the texts at hand the same.
- IEEE 754 rounding, NaN and infinities: odds, probabilities and margins are exact reals, and `Math.round` is the floor of x + 0.5.
- UTF-8 decoding of the stream, and the defaults for missing `fixture_id`, `data` and `timestamp` of a message: part of the parameter that stands for `JSON.parse`.
- Exceptions thrown by message handlers, and several handlers at once: every handler receives the same list of messages.
- A `connect` called again from outside while a connection is open: the results are for one external call.
- Dedup keys as text: the model's key is fixture, market set and snapshot hash; joined by colons and plus signs, two of them could coincide.
- The bookmaker margin of the snapshot row, which merges outcomes of equal names across markets.
- The covering sets that the web worker reads from the database, and its own database writes.
- The copies of the stream, the check and the proof feed in the web application and the backend, which differ in detail; in the web stream the retry timer does not look at the reconnect flag again.
- HTTP routes, the WebSocket fan-out, React pages, configuration, logging, metrics and migrations: no state of their own worth a theorem.
