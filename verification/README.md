# Verified models of klever-go components

A Dafny 4.11 project that models parts of the klever-go node and proves what they are
for. Each component has its own module, written in the form of its source: classes and
methods where the Go code updates state, functions where it computes a value, step
systems where goroutines interleave. Nothing was executed.

| file | models |
|---|---|
| `AccountIndex.dfy` | resolving a block's account documents, and one save attempt against the accounts and accounts-history indices |
| `Pipeline.dfy` | commit, snapshot, queue and worker as an interleaved system, against an indexer with no queue and no failures |
| `StaleCode.dfy` | the code and creation time of indexed accounts, which scripted updates skip, over runs of the pipeline |
| `Dispatcher.dfy` | the FIFO worker with retry and back-off |
| `LeafStream.dfy` | the producer/consumer channels of a trie walk |
| `EventQueue.dfy` | the lossy event queue with its lock-free drop report |
| `HealthRecords.dfy` | the bounded, sorted record keeper |
| `Royalties.dfy` | tiered transfer royalties, old and new flow |
| `BigIntCodec.dfy` | the wire form of optional big integers |
| `AssetIds.dfy`, `Receipts.dfy`, `AlteredEntries.dfy`, `ReceiptIndex.dfy` | receipts from bytes to the altered collections |
| `Detach.dfy` | giving the indexer its own transaction objects |
| `FieldMapping.dfy` | checking and repairing a live index mapping |
| `LogUpserts.dfy` | the scripted upsert of log documents |
| `Prelude.dfy` | options, results and 64-bit wrap-around |

## How to read it

**Runs.** The concurrent components are step systems: `Enabled` says when a step can be
taken, `Exec` what it does, `IsRun` that a sequence of steps is possible, `Final` where
it ends. Main results are about `Final` of every run.

**Reference definitions.** The pipeline is compared with `RefHistory` and `RefEntries`,
which index every block the moment it commits; the record keeper with `Largest`, which
sorts everything ever offered and keeps the front; the new royalty flow with `Slices`,
which cuts the amount up; `ForEach` with `Verdict` and `Visited`; receipt decoding with
tables of part counts and of the part each value is read from; receipt indexing with
`EffectOf`, which reads off a raw receipt's parts what it must do to each collection; an
address's list of entries with the sequence of calls made for it (`Summarises`).

**Assumptions of the pipeline.** Block timestamps strictly increase, no block is rolled
back, and a block reports every account it changes as altered (`Follows`). That covers
the allowance, to which pending validator rewards kept in another account are added
(indexer/accountInfo.go:84-103). The existence probe may answer anything. One attempt may
apply any part of what it sends, all of it included, and be refused; it reports success
only if everything was applied and the requests were acknowledged. The index may hold
documents from earlier runs (`Config.tables`). Documents built for the websocket dispatch
come from the same chain state, since both run on the commit goroutine, and an address is
its own canonical encoding.

**Environment as parameters.** Clock readings, the outcome of each save, address
encoding, number parsing and the percentage computation are parameters, so every result
holds for all of them.

## Where the code does not meet a property

- The scripted update of an account writes neither code hash, code metadata nor creation
  time. In every reachable state an address shows those of its last full write, or of the
  document there before the run (`StaleCode.StampIsLastFullWrite`), so its code is current
  exactly if that write already held the current code (`StaleCode.CodeIsCurrentIff`). With
  existence probes that are right the condition is one on the chain alone: an address
  shows its current code exactly if it had that code when it was first resolved, or in
  the document there before (`StaleCode.RightRunsMatchReference`). A block that changes the
  code of an indexed account breaks it (`StaleCode.UpgradeLeavesStaleCode`).
- Marshalling zero writes no magnitude byte. Reading back gives the value exactly when
  it is not zero or the buffer's second byte was zero already
  (`BigIntCodec.MarshalRoundTrip`).
- The royalty sum is added unchecked. The result is the amount owed exactly when that
  fits in 64 bits (`Royalties.NewFlowIsExactIffItFits`); percentages up to 100% are
  enough for that (`Royalties.NewFlowIsBounded`), and `Royalties.SumCanWrap` is a case
  beyond them that returns a negative royalty.
- Joining a collection and a nonce and splitting again gives them back exactly when
  neither holds a slash (`AssetIds.TokenRoundTrip`).
- Detaching keeps the sharing of slice and map exactly for distinct transactions. If one
  object stands in the slice twice, the map leads to the copy at its last place; map
  entries outside the slice get an object each (`Detach.SharesAlike`).
- A drop report can be empty although its caller dropped an event
  (`EventQueue.ReportCanBeEmpty`). A report counts exactly the calls that counted their
  drop after the report before it, and is zero exactly if there is none
  (`EventQueue.ReportIsExact`); it counts its own caller's drop exactly if no other report
  was made since that drop was counted (`EventQueue.OwnDropIsReportedExactly`).
- Recording a sender drops its mark exactly when the address is already there with a first
  entry for another token (`AlteredEntries.AddEntryMerges`); over all calls an address is
  marked exactly if some sender's call is for no token or for its first one
  (`AlteredEntries.CallsSummarised`).
- Receipt decoding panics, rather than reporting an error, exactly for a well-formed
  transfer with an empty asset type part and an ITO update with no parts
  (`Receipts.ReceiptToMap`).

## Model

| member | source | states |
|---|---|---|
| `AccountIndex.ResolveAlteredAccounts` | indexer/elasticProcessor.go:1455-1495 | the documents are those of the altered accounts that resolve, read from the given chain state and stamped with the block time in milliseconds, with already built ones reused and an empty account for an unknown address; the failures are exactly those that could not be built and were not already built |
| `AccountIndex.ElasticIndex.SerializeAccounts` | indexer/elasticProcessor.go:1751-1773 | one operation per document and address, a scripted update exactly where the probe reports the document |
| `AccountIndex.ElasticIndex.BulkAccounts` | indexer/common.go:2412-2446 | what each landed write leaves: the whole document, or the updated one with code and creation time kept; success means every write landed and the request was acknowledged, and a refused request may have applied everything |
| `AccountIndex.ElasticIndex.SaveAccountsHistory` | indexer/elasticProcessor.go:1778-1811 | one row per document under address and block timestamp, as far as applied; success means every row landed and the request was acknowledged |
| `AccountIndex.ElasticIndex.SaveBlockAccounts` | indexer/elasticProcessor.go:557-582 | history goes out first; after a refused history request, a missing row or another failed step the documents are unchanged and the save fails; success means every step and both requests succeeded; the tables and the verdict are those of one attempt of the pipeline |
| `AccountIndex.AttemptMeaning` | indexer/elasticProcessor.go:557-582 | an attempt by what the cluster did: which documents and rows are stored with which fields, and success exactly when the requests went out, were applied in full and acknowledged |
| `AccountIndex.RetryIsIdempotent` | indexer/elasticProcessor.go:584-590 | after any series of attempts that applied nothing, some or all of their writes, the one that succeeds ends in the same history, addresses and live fields as one clean save |
| `AccountIndex.RightRetryIsExact` | indexer/elasticProcessor.go:584-590 | if the existence probes are right, the retried save ends in exactly the tables of one clean save, code and creation time included |
| `AccountIndex.RowKeysDoNotCollide` | indexer/elasticProcessor.go:1794 | the rendered row id is the address, an underscore and the decimal timestamp, and determines both |
| `Pipeline.RunKeepsInv` | indexer/dataIndexer.go:71-87 | in every reachable state each item in flight holds its own block's state, in order, and the tables lie between the reference before and after the item being saved |
| `Pipeline.TryMeaning` | indexer/elasticProcessor.go:568-582 | the worker moves on exactly after full, acknowledged requests; a refused history request leaves documents and worker as they were |
| `Pipeline.HandsOverExactly` | indexer/dataDispatcher.go:76-84 | an item is handed over exactly while fewer than `capacity` items wait, or, without a buffer, when the worker waits for one |
| `Pipeline.HistoryIsSound` | indexer/elasticProcessor.go:1778-1811 | in every reachable state a row under a block's timestamp holds the balances that block committed and 1000 times its time, for an account it resolved; a completed block has all its rows |
| `Pipeline.HistoryLeadsDocuments` | indexer/elasticProcessor.go:1767-1775 | in every reachable state, if any document already shows the block being saved, all history rows of that block are in place |
| `Pipeline.QuiescentMatchesReference` | indexer/elasticProcessor.go:1425-1448 | with nothing in flight, history and account entries equal the synchronous reference, for every interleaving, queue size, wrong probe and partial failure |
| `Pipeline.DocShowsLastResolution` | indexer/elasticProcessor.go:1751-1776 | with nothing in flight a document shows the account as of the last block that resolved it, with 1000 times that block's time |
| `Pipeline.DocAgreesWithChain` | indexer/elasticProcessor.go:1455-1495 | if the block that last altered an account resolved it, the document agrees with current chain state on every live field |
| `Pipeline.EveryRunCanDrain` | indexer/dataDispatcher.go:55-65 | from every reachable state some continuation empties the pipeline without a new block |
| `StaleCode.StampIsLastFullWrite` | indexer/common.go:2412-2446 | in every reachable state an indexed address's code and creation time are those of the block its last full write came from, which resolved it, or of the document there before the run |
| `StaleCode.CodeIsCurrentIff` | indexer/common.go:2425-2434 | in every reachable state the stored code is the chain's current one if and only if the code at that write, or in that document, is |
| `StaleCode.RightRunsMatchReference` | indexer/elasticProcessor.go:1751-1776 | in every run with right probes, with nothing in flight, history, live fields, code and creation time are all determined by the chain: code and creation time are those of the first resolution, and the code is current if and only if it has not changed since |
| `StaleCode.FirstStampMeaning` | indexer/elasticProcessor.go:1751-1776 | for an address not indexed before the run, the first write is that of the first block to resolve it, with its code and time |
| `StaleCode.UpgradeLeavesStaleCode` | indexer/common.go:2425-2434 | after any quiescent run, cleanly saving a block that changes an indexed account's code leaves the old code and updates everything else |
| `Dispatcher.DataDispatcher.IncreaseBackOffTime` | indexer/dataDispatcher.go:112-122 | the new back-off as a function of the old |
| `Dispatcher.DataDispatcher.DoWork` | indexer/dataDispatcher.go:86-110 | for any answers of Save: returns at the first success with the back-off reset, and is still looping exactly if there is none; it slept 3 s after each ordinary failure, 10 s after the first of a row of back-off requests, and after each further one a fifth longer while that was under 300 s |
| `Dispatcher.NextSleep` | indexer/dataDispatcher.go:86-122 | each sleep from the one before it, for every series of outcomes, in nanoseconds |
| `Dispatcher.SleepBounds` | indexer/dataDispatcher.go:86-110 | after a back-off request 10 s to under 360 s, never shorter than the one before in a row |
| `Dispatcher.BackOffBounds` | indexer/dataDispatcher.go:112-122 | every back-off is at least 10 s and under 360 s and does not shrink |
| `Dispatcher.BackOffSettles` | indexer/dataDispatcher.go:112-122 | the back-off reaches 300 s exactly at the twentieth request in a row and is constant from there |
| `Dispatcher.CompletedIsPrefix` | indexer/dataDispatcher.go:76-84 | in every run completed, current and queued items are the added ones, each under its own number and in order, and the queue respects its capacity |
| `Dispatcher.AttemptsAreGrouped` | indexer/dataDispatcher.go:55-65 | in every run an attempt is of the item added under its number, no other item is attempted between two attempts of one, none again once saved, and the completed items were saved once each in the order of Add |
| `Dispatcher.AddHasRoomExactly` | indexer/dataDispatcher.go:76-79 | in every run an item can be added exactly while fewer than `capacity` added ones are neither completed nor in hand, or, without a buffer, while the worker waits |
| `Dispatcher.EveryRunCanComplete` | indexer/dataDispatcher.go:55-65 | unless the worker was stopped, every run extends, with nothing added, to one in which every added item is completed, in order |
| `Dispatcher.StopIsFinal` | indexer/dataDispatcher.go:55-65 | in every run the worker is stopped exactly if it was told to, between items, and takes, attempts or completes nothing from there on |
| `Dispatcher.BackOffInRuns` | indexer/dataDispatcher.go:86-122 | in every run the back-off is zero between items and otherwise within bounds, settled after twenty requests |
| `LeafStream.TrieIteratorChannels.Closed` | data/trieIteratorChannels.go:40-48 | the pre-filled channels hold all leaves and are closed; no send blocks |
| `LeafStream.TrieIteratorChannels.Close` | data/trieIteratorChannels.go:52-56 | the error is stored and both channels are closed; calling it twice is excluded |
| `LeafStream.TrieIteratorChannels.ForEach` | data/trieIteratorChannels.go:61-80 | returns the callback's first error or else the walk's; the channel is drained; nil channels are an error |
| `LeafStream.VisitedMeaning` | data/trieIteratorChannels.go:58-60 | every visited leaf but the last was accepted, and the last is the rejected one if any was |
| `LeafStream.ForEachIsExact` | data/trieIteratorChannels.go:61-80 | for every walk, buffer size, callback and interleaving: the result, the number of calls and each call's leaf and answer |
| `LeafStream.NilMeansComplete` | data/trieIteratorChannels.go:82-94 | the result is nil if and only if the walk closed without error and the callback accepted every leaf |
| `LeafStream.FirstRejectionDecides` | data/trieIteratorChannels.go:61-80 | for every interleaving, the answer for the first rejected leaf is returned, whatever the walk's own error, and no later leaf is visited; with none rejected the walk's error is returned |
| `LeafStream.WaitsForDone` | data/trieIteratorChannels.go:66-94 | for every interleaving ForEach returns only after the leaves channel is closed and drained, and, unless a leaf was rejected, only after the done channel is closed |
| `LeafStream.SendHasRoomExactly` | data/trieIteratorChannels.go:61-80 | in every run a leaf can be sent exactly while fewer than `capacity` wait, or, without a buffer, to a consumer at its receive |
| `LeafStream.NoCallAfterFailure` | data/trieIteratorChannels.go:66-72 | at every moment the calls made are in order and only the last can have failed |
| `LeafStream.NeverStuck` | data/trieIteratorChannels.go:58-80 | until producer and consumer are both finished some step is enabled |
| `LeafStream.RunsAreBounded` | data/trieIteratorChannels.go:61-80 | every run has at most three steps per leaf and five more |
| `LeafStream.EveryRunFinishes` | data/trieIteratorChannels.go:58-60 | every run extends to one in which the producer has exited and ForEach has returned |
| `EventQueue.EventsAreConserved` | indexer/events.go:36-49 | at every moment, with any number of goroutines, offered events are those being decided, enqueued, pending in the counter, or reported |
| `EventQueue.QuiescentAccounts` | indexer/events.go:36-49 | once every call returned: offered = enqueued + counter + reported, and every won report was made |
| `EventQueue.SendIsExact` | indexer/events.go:37-39 | in every run an attempt to send puts the event at the end of the queue if and only if the queue held fewer events than its capacity, and otherwise it held exactly that many |
| `EventQueue.DroppedOnlyWhenFull` | indexer/events.go:37-40 | in every run a call drops its event if and only if its attempt met a queue of exactly `capacity` events; otherwise its event is sent |
| `EventQueue.DeliveryIsFifo` | indexer/events.go:37-38 | enqueued events are delivered in order and the channel keeps its bound |
| `EventQueue.ReportsAreRateLimited` | indexer/events.go:41-44 | times won for a report are at least ten seconds apart per report, and bound the number of reports |
| `EventQueue.LoadIsExact` | indexer/events.go:41-42 | in every run a dropping call goes for the report if and only if ten seconds or more have passed since the last one won |
| `EventQueue.ReadsTheClock` | indexer/events.go:40-41 | in every run a call counts its drop, then reads the clock once, and goes on with that reading |
| `EventQueue.WinsExactly` | indexer/events.go:42-43 | in every run a call that goes for the report wins it if and only if no call won one since it read the time: the compare-and-swap misses none |
| `EventQueue.SendersNeverBlock` | indexer/events.go:36-49 | each call's next operation is always possible, brings it closer to returning and moves no other call |
| `EventQueue.ReportIsExact` | indexer/events.go:40-45 | in every run each report is the number of calls that counted their drop after the report before it; it is zero if and only if none did |
| `EventQueue.OwnDropIsReportedExactly` | indexer/events.go:40-45 | in every run a report takes its own caller's drop if and only if no other report was made between that count and this report |
| `EventQueue.CountedOnce` | indexer/events.go:40 | in every run a call counts its drop in one step only, and the number of reports made by then decides which report takes it |
| `EventQueue.ReportCanBeEmpty` | indexer/events.go:43-45 | from every reachable state with a full queue two racing callers can make a report of zero |
| `HealthRecords.Records.AddRecord` | health/records.go:21-40 | the list becomes the one for everything offered; profiles on disk stay those of the kept records, and a rejected record is never saved |
| `HealthRecords.Records.MakeRoomForRecord` | health/records.go:42-53 | no room exactly when the list is full and its last record is more important; otherwise a full list loses its last |
| `HealthRecords.Records.EvictLeastImportant` | health/records.go:59-68 | removes the last record and its profile |
| `HealthRecords.Records.FindInsertionPlace` | health/records.go:70-80 | the place before the first less important record |
| `HealthRecords.Records.GetMostImportant` | health/records.go:89-94 | the largest key ever offered |
| `HealthRecords.KeepsTheLargest` | health/records.go:21-53 | after any offers the kept keys are the k largest of all, in descending order |
| `HealthRecords.OrderDoesNotMatter` | health/records.go:21-53 | offers with the same keys in another order keep the same list of keys |
| `HealthRecords.TiesInArrivalOrder` | health/records.go:70-80 | the list is descending, equal keys stand in order of arrival, and every record is one that was offered |
| `HealthRecords.NewestIsKeptExactly` | health/records.go:42-53 | after any offers a further record is kept if and only if fewer than `capacity` of the earlier ones were strictly larger |
| `HealthRecords.TieReplacesTheNewest` | health/records.go:42-68 | after any offers a full list offered a tie with its least important record drops the latest arrived of those equals and puts the new one in its place |
| `HealthRecords.KeptMeaning` | health/records.go:42-53 | size is the smaller of capacity and offers, nothing left out is larger than anything kept, the front is the maximum |
| `Prelude.WrapMeaning` | kapps/kda.go:104-114 | the running sum and the rest wrap around modulo two to the 64, into the range of 64-bit integers |
| `Royalties.ComputeNewFlowRoyalty` | kapps/kda.go:96-128 | the loop computes the recursive new flow for every percentage computation, with wrap-around and errors |
| `Royalties.ComputeOldFlowRoyalty` | kapps/kda.go:130-148 | the percentage of the first tier covering the amount, else of the last |
| `Royalties.ChosenTierMeaning` | kapps/kda.go:131-140 | the flat rule picks the first tier whose bound covers the amount, or the last one |
| `Royalties.GetTransferRoyaltyByAmount` | kapps/kda.go:82-94 | no tiers is an error; otherwise the fork decides the flow |
| `Royalties.CheckedMeaning` | tools/converters.go:107-117 | the percentage is in hundredths of a percent and rounded down, and fails exactly outside 64 bits |
| `Royalties.ShareMonotone` | tools/converters.go:107-117 | a percentage of a larger value is no smaller, and up to 100% grows no faster than the value |
| `Royalties.SlicesPartition` | kapps/kda.go:96-128 | the slices are non-negative, sum exactly to the amount, and number at most one more than the tiers |
| `Royalties.SlicesFollowTiers` | kapps/kda.go:96-128 | slice i carries tier i's percentage, and its width unless it is the last; a leftover slice carries the last tier's percentage |
| `Royalties.LeftoverExactly` | kapps/kda.go:116-124 | there is a leftover slice exactly when the amount exceeds all widths together |
| `Royalties.NewFlowIsExactIffItFits` | kapps/kda.go:96-128 | the new flow returns the sum of the rounded slices if and only if it fits in 64 bits, and fails if and only if one slice does not |
| `Royalties.NewFlowIsBounded` | kapps/kda.go:96-128 | with percentages up to 100%: no failure, between zero and the amount, and less than one unit per slice below the unrounded royalty |
| `Royalties.WholeAndNothing` | kapps/kda.go:96-128 | tiers that all carry 10000 charge the whole amount, and tiers that all carry 0 nothing |
| `Royalties.NewFlowIsMonotone` | kapps/kda.go:96-128 | for any percentages, if the larger amount's royalty is the exact one then so is the smaller amount's, and it is no larger, across tier boundaries, zero-width tiers and past the last tier |
| `Royalties.NetIsMonotone` | kapps/kda.go:96-128 | with percentages up to 100%, transferring more never leaves the receiver with less |
| `Royalties.ForkNeverRaises` | kapps/kda.go:82-148 | with one percentage for all tiers the new flow is at most the old one and at least the old one less one unit per tier |
| `Royalties.SumCanWrap` | kapps/kda.go:104 | an amount and a tier list for which the unchecked sum comes out negative |
| `BigIntCodec.MarshalTo` | data/bigIntCaster.go:31-51 | fails exactly when the buffer does not exceed the magnitude, leaving it alone; otherwise the whole buffer afterwards and the size |
| `BigIntCodec.WireForm` | data/bigIntCaster.go:31-51 | nil is one zero byte and zero two; any other value a sign byte, 0 or 1, and its magnitude with the most significant byte first |
| `BigIntCodec.RoundTrip` | data/bigIntCaster.go:54-81 | every optional integer is read back from its encoding, whose length is its size |
| `BigIntCodec.UnmarshalMeaning` | data/bigIntCaster.go:54-81 | the result for every input: which ones are errors and which error, which are nil, zero, positive and negative, and the magnitude |
| `BigIntCodec.EncodingIsInjective` | data/bigIntCaster.go:31-51 | different values have different encodings |
| `BigIntCodec.ReencodesExactly` | data/bigIntCaster.go:54-81 | what decodes is written back unchanged if and only if it is canonical |
| `BigIntCodec.MarshalRoundTrip` | data/bigIntCaster.go:31-51 | marshal then unmarshal gives the value back if and only if it is not zero or the second byte was zero; bytes beyond the size are untouched |
| `AssetIds.TokenRoundTrip` | indexer/processTransactions.go:177-185 | collection, nonce and NFT flag survive join and split if and only if neither holds a slash |
| `AssetIds.AssetIdRoundTrip` | indexer/elasticProcessor.go:1611-1616 | the asset id survives split and join if and only if it has no slash, or one that is not its last character |
| `AssetIds.IndexerAgreesOnAssetId` | indexer/common.go:146-152 | on slash-free input the three steps agree on collection, nonce and asset id |
| `Receipts.TypeBytes` | core/process/transaction/receipts.go:17-50 | the type byte of every receipt type the decoder knows |
| `Receipts.ReceiptToMap` | indexer/common.go:122-408 | panics, is rejected or yields fields exactly as the tables of part counts and numbers say, and each field holds the part the tables name, read the way they name |
| `Receipts.SignedByFields` | indexer/common.go:264-269 | the last complete signer pair is what remains, and nothing else changes |
| `ReceiptIndex.DecodedIsSafe` | indexer/processTransactions.go:121-436 | whatever decodes carries every key and dynamic type that indexing asserts |
| `ReceiptIndex.BuildReceipts` | indexer/common.go:416-426 | panics exactly if some receipt is one of the two unchecked shapes; otherwise keeps, in order, exactly the receipts that decode, each safe to index |
| `ReceiptIndex.IndexReceipts` | indexer/processTransactions.go:121-436 | the loop indexes every receipt in order, with no type assertion that can fail |
| `AlteredEntries.AlteredAccounts.Add` | indexer/data/altered.go:61-110 | the merge of one entry into an address's list |
| `AlteredEntries.AddEntryKeeps` | indexer/data/altered.go:61-110 | a list keeps one entry per token and the sender mark only on its first entry; exactly the touched address and token are added |
| `AlteredEntries.AddEntryMerges` | indexer/data/altered.go:61-110 | exactly when an address ends up marked as sender, when a call gets an entry of its own, and which marketplace and order ids each entry keeps |
| `AlteredEntries.CallsSummarised` | indexer/data/altered.go:61-110 | the whole list after any calls for an address: all fields of its first entry, each further entry the first call for its token, and marked as sender exactly if some sender's call is for no token or for the first one |
| `ReceiptIndex.IndexingFollowsBytes` | indexer/processTransactions.go:121-436 | indexing a transaction's receipts applies, one raw receipt after the other, exactly what their parts say to every collection; receipts that do not decode change nothing |
| `ReceiptIndex.AccountsFromBytes` | indexer/processTransactions.go:121-436 | afterwards an address, or a token under it, is recorded if and only if it was before or the bytes of some receipt name it |
| `ReceiptIndex.EntriesFromBytes` | indexer/processTransactions.go:121-436 | afterwards the entries of every address, its sender mark and all flags summarise, in order, the entries there before and those the receipts' bytes name for it |
| `ReceiptIndex.TransferMarksTheSender` | indexer/processTransactions.go:130-204 | a transfer between addresses not recorded yet marks the one it comes from as sender and not the other, with the flags of a native or a token transfer and the receipt's marketplace and order |
| `ReceiptIndex.EntriesAreNamed` | indexer/processTransactions.go:128-428 | for every receipt type, a decoded receipt records exactly the addresses its parts name, each with exactly the entry, flags and ids included, that they call for |
| `ReceiptIndex.TransferIsRecorded` | indexer/processTransactions.go:130-204 | whatever receipts surround it, a token transfer whose collection and nonce hold no slash is recorded for both parties under exactly that collection and nonce |
| `ReceiptIndex.CollectionsAreNamed` | indexer/processTransactions.go:143-412 | for every receipt type, the assets, pools and market order a decoded receipt marks are those its parts name |
| `ReceiptIndex.EntitiesAreNamed` | indexer/processTransactions.go:231-388 | the proposal, marketplace, ITO and purchase a decoded receipt sets are those its parts name, new exactly for the creating type |
| `ReceiptIndex.MarksFromBytes` | indexer/processTransactions.go:121-436 | afterwards an asset or a pool is marked if and only if it was before or the bytes of some receipt name it |
| `ReceiptIndex.EntitiesFromBytes` | indexer/data/marketOperations.go:36-38 | each order, proposal and marketplace ends as the bytes of the last receipt naming it say, and stays as it was if none does |
| `ReceiptIndex.NamedMeaning` | indexer/data/marketOperations.go:36-38 | what the last, and the first, naming of an entity is, by its place in the list |
| `ReceiptIndex.ITOsFromBytes` | indexer/processTransactions.go:253-265 | an ITO already there is kept; otherwise it is there if and only if some receipt names it, and new if and only if the first to name it configures it |
| `ReceiptIndex.PurchasesFromBytes` | indexer/processTransactions.go:370-388 | the amount recorded for a buyer is the 64-bit sum of the one before and of all amounts that the receipts' bytes name for this buyer and asset |
| `Detach.DetachPreparedBlockData` | indexer/eventsProcessor.go:113-142 | only fresh objects with equal fields, none of them reachable from the original, nil for nil, and sharing as described by `SharesAlike` |
| `Detach.CopySlice` | indexer/eventsProcessor.go:118-125 | distinct fresh copies, with the lookup leading to the copy at each original's last place |
| `Detach.DistinctSharesExactly` | indexer/eventsProcessor.go:126-133 | for distinct transactions a map entry is a slice entry afterwards if and only if it was before |
| `Detach.WritesStayPrivate` | indexer/eventsProcessor.go:104-112 | for any interleaving of any writes of both sides to anything they can reach, each side sees exactly its own |
| `Detach.IndexerWritesStayPrivate` | indexer/eventsProcessor.go:104-112 | marking the indexer's copies changes nothing the hub can reach, and shows through the indexer's own map |
| `FieldMapping.MappingTypes` | indexer/elasticClient.go:280-300 | succeeds exactly for an object of typed properties, with their types |
| `FieldMapping.CheckFieldType` | indexer/elasticClient.go:201-210 | accepts exactly when every leaf has the wanted type |
| `FieldMapping.MissingFields` | indexer/elasticClient.go:171-199 | refuses if and only if some index maps a wanted property with another type; otherwise exactly the lacking properties, sorted |
| `FieldMapping.AnswerIsUnique` | indexer/elasticClient.go:192-198 | the answer does not depend on iteration order |
| `FieldMapping.LessMeaning` | indexer/elasticClient.go:192-198 | the order of the answer: a name that begins another comes first, else the one with the smaller character where they first differ |
| `FieldMapping.RepairIsComplete` | indexer/elasticClient.go:220-251 | after the write reaches one or more indices nothing is missing and nothing conflicts |
| `FieldMapping.RepairOfNothing` | indexer/elasticClient.go:173-177 | with no index behind the name the same properties stay missing |
| `FieldMapping.ElasticClient.CheckAndUpdateMapping` | indexer/elasticClient.go:220-251 | at most one write, only when something is missing and nothing conflicts; the mapping and the verdict afterwards |
| `FieldMapping.ElasticClient.StartTwice` | indexer/elasticClient.go:212-219 | after a successful start, which writes at most once, a second one succeeds, writes nothing and leaves the mapping alone |
| `LogUpserts.LatestWins` | indexer/common.go:899-911 | after any series of upserts the document is the last applied among the newest, unless the one before is newer than all |
| `LogUpserts.ReplaysDoNotMatter` | indexer/common.go:899-911 | if the newest timestamp determines the content, order and repetition make no difference |
| `LogUpserts.OrderMattersOtherwise` | indexer/common.go:899-911 | if it does not, the same writes in another order give another document |
| `LogUpserts.ReplayIsIdempotent` | indexer/common.go:890-927 | replaying writes already applied changes nothing |

## Left out

- Royalties over floating point: before the smart-contract fork the percentage is computed in float64 (tools/converters.go:103-105); `ComputeNewFlowRoyalty` and `ComputeOldFlowRoyalty` hold for any percentage computation, the arithmetic results only for the big-integer one.
- Account documents of KDA balances (`AccountsKDA`): written through the same main request as accounts, whole or deleted; only the account documents and history rows are in the tables.
- Work items other than blocks, block rollback and genesis accounts: they read live state or write indices this model does not hold.
- A disabled accounts index or a nil header: no documents are resolved and nothing is written for the block.
- Millisecond timestamps are unbounded integers: 64-bit overflow of a block time in milliseconds is not modelled.
- The drop counter and clock differences are unbounded integers: wrap-around after 2^63 drops is not modelled.
- `container/list`: the record list is a sequence; pointer links between its elements are not modelled.
- Errors of writing or removing a heap profile: they are only logged.
- The altered asset and pool collections are sets of marks: the order of the at most two marks per key is not modelled.
- Receipt type and claim type names, hex and address encoding, and number parsing are parameters.
- `DecodeContract` and the per-contract conversions: field-by-field copying.
- The error text of a mapping conflict names whichever index and property is met first; only that there is one is modelled.
- `DataDispatcher.DoWork`: takes the answers of Save as a finite sequence; when none is a success it states where the loop stands once they are used up, since the source never returns.
- `TrieIteratorChannels.ForEach`: is the method on a channel that is closed already; a channel still open while it ranges is the step system's, where `LeafStream.ForEachIsExact` covers every interleaving.
- The `Type` field of an altered account, which is only passed on.
- HTTP, JSON encoding, bulk buffer sizes, templates and policies.
