# Verified model of the indexer's write side

The indexer copies an EVM chain into three tables, keeps a ledger of token balances derived from the transfer logs,
and announces what it stores to subscribers. Three fillers share one transactional store: `backfill` catches up in
parallel batches, `forwardfill` follows new heads and replaces reorged heights, `balancefill` turns stored logs into
balances behind a lag of 96 blocks. This project models them in Dafny and proves what they keep, over every
interleaving of their steps, with failures, lost replies, crashes and restarts. It also covers the WebSocket registry
and the grouped queries.

`dafny verify dfyconfig.toml` checks everything.

## Layout

- `Tables.dfy`: rows, stores and the key semantics of the tables (`CreateSpec`, `BulkSpec`, `DeleteSpec`), and `Sound`,
  the referential integrity that migration 2 leaves to the code.
- `RowContents.dfy`: what a write leaves in each column, stated without the functions that write it.
- `Repository.dfy`: the repository as a class whose methods are atomic and may fail, proved against those functions.
- `Forwardfill.dfy`, `Backfill.dfy`, `Ledgers.dfy`: each filler as a state machine with explicit program counters. An
  action carries the nondeterminism; a run is a list of actions.
- `ForwardFiller.dfy`, `BackfillFiller.dfy`, `BalanceFiller.dfy`: the same fillers as imperative code on the
  repository. Each loop is proved to make a run of its machine, so the theorems about runs are about the code, and to
  fail only when a call it makes does.
- `Indexer.dfy`: the three machines over one store, with the completion token, crashes and restarts of the process.
- `Coverage.dfy`, `LostHeights.dfy`: which heights are stored within a run and over runs, and which are lost.
- `Completeness.dfy`: when stored blocks are complete, step by step and over runs.
- `EndToEnd.dfy`: when logs read once stay as read, so that the balances are those of the stored logs. `SettledRuns.dfy`
  has the runs on which they do, `BrokenLedgers.dfy` runs on which they do not.
- `Words.dfy`, `Balances.dfy`, `Aggregation.dfy`, `LogReads.dfy`: from a transfer log to the upserted rows.
  `TransferReads.dfy`: from the events of a stored block to the logs that are read and their entries.
- `ForeignKeys.dfy`: the foreign key from events to transactions, and when the code keeps it.
- `Registry.dfy`, `RegistryRuns.dfy`, `RepeatedRegistrations.dfy`, `StaleIndices.dfy`, `DeletesInARow.dfy`,
  `Broadcast.dfy`: WebSocket registrations and fan-out.
- `Queries.dfy`: grouped joins and batch loaders. `Seqs.dfy` and `Wrappers.dfy` hold helpers.

## Terms and hypotheses

- A `World` says what every block hash stands for: equal hashes mean equal content. `Fetched` items are those of the
  world whose transactions and events carry their block's number. Theorems about integrity assume nothing else.
- An item is *absorbed* when its hash and the keys of all its rows are stored. It is *fully stored* when the rows at its
  height are exactly its own. A key held at another height makes the difference: `RowsFree` says that an item's keys are
  held at no other height, `FreeInTurn` the same for each item of a bulk write when its turn comes. They are the exact
  conditions for blocks to stay complete (`Completeness.FullStepIff`, `AlwaysFullIff`). A chain whose transactions never
  change height (`HashesStay`) and whose logs belong to transactions of their own block (`LogsInTxs`) meets them in
  every run (`KeysStayRunsFree`); a reorg that moves a transaction meets them when its heads arrive in order
  (`ForeignKeys.InOrderKeysAreFree`).
- An iteration of the balance loop is *torn* when it applied its height, by an upsert that took effect or by finding no
  logs, which needs none, and the cursor update did not follow. `Fault` has a case for a commit that took effect while
  its caller got an error.
- `Discipline` says which runs a theorem about the whole system speaks of. `Anything` is every run. `Commits` are
  those in which no `Create` drops its commit, `NoRestart` those without a restart or a reset. In `Follows` heads are
  at most one above the highest of the target and all earlier heads (the top), and no restart lowers the target.
  `OneRun` has no dropped commit, no restart, such heads, and deletes within 96 of the top. `Near(c0)` also has heads
  for heights of [c0, from) that are not stored only within 96 of the top, or with no transfers in their block; when c0
  is not below `from` it is `OneRun`. `Steady` is any number of runs, without a reset, whose deletes and heads for
  unstored heights are like that, and whose balance loop reads only heights that are stored or that backfill will not
  fetch again. In `Settled` runs no step changes the transfers of a height the balance loop has read. `Free(d)` is `d`
  with every block that is stored finding its keys free.
- A height is *lost* when forwardfill deleted it, or created it without a commit, and nobody stored it since.
  `RunStart` says that every height a run will not fetch again is stored: those up to a positive backfill cursor, and
  those between the target and the top. `Coverage.FirstRunStarts` and `RestartStartsIff` say when that is so.

## Where the code is not what one expects

- The README at the root of the repository speaks, in its line 113, of cascade deletes. Migration 2 drops both foreign
  keys, so the model has none; `ForeignKeys.ReorgCanOrphanAnEvent` is a chain that leaves an event without its
  transaction.
- A transaction whose hash is stored under another height is published and not stored
  (`internal/repository/db/indexer.go:39-43`): `Indexer.PublishedRowsIff` is the exact condition,
  `ForeignKeys.MovedTransactionIsPublishedUnstored` a chain.
- A crash between the delete and the create of a reorg can lose the height: backfill resumes behind its cursor, the
  balance loop passes the height as empty, and only another head at it or a reset brings it back.
  `Coverage.RestartStartsIff` and `LostHeights.LostStaysLost` say when, `LostHeights.HeightOneIsLost` is a run.
- Nothing corrects the balances when the transfers of a height change after the loop has passed it. `BrokenLedgers` has
  a run for each way: a reorg deeper than the lag that brings a transfer (`DeepReorgBreaks`) or takes one away
  (`ForgottenTransferBreaks`), and a lost height, passed as empty, that comes back by a late head (`LateHeadBreaks`), by
  a restart that fetches it (`RestartBreaks`) or by a reset of the backfill cursor (`ResetBreaks`).
  `EndToEnd.ReadRowsStayIff` is the exact condition on a step.
- `Subscribe` closes its channel when it returns (`internal/fetcher/fetcher.go:176`), and forwardfill receives from it
  without asking whether it is closed (`internal/core/services/forwardfill.go:23`), so after a failed subscription it
  may handle head 0. In the model that is a head for height 0 like any other; `Near(0)` with a positive `from` allows it
  only if block 0 has no transfers, is stored already, or is within the lag.
- `Create` drops the error of its commit (`internal/repository/db/indexer.go:71`), so an iteration can publish a block
  that was not stored. `Forwardfill.IterationStream` and `HeadFilledIff` say exactly when that shows.
- The upsert and the cursor update are two transactions (`internal/core/services/balancefill.go:178-185`):
  `Ledgers.CrashAppliesTwice`, and `ExactlyOnceIff` for the exact condition.
- A log with too few topics panics (`internal/core/services/balancefill.go:40`), and the loop can never pass its block:
  `Balances.ExtractPanicsIff`, `Ledgers.PanickingHeightBlocks`.
- A run whose backfill starts past the target sends no token, so balances are not updated in it
  (`internal/core/services/backfill.go:24-27`): `Indexer.UpToDateIff`.
- With a negative concurrency the batch size can be 0, and backfill repeats one batch for ever, or so large that the end
  of a batch wraps, and making the slice panics: `Backfill.ProgressIff` is the exact condition.
- Deleting a client that is not the newest of its buckets leaves stale indices behind:
  `RegistryRuns.DeleteKeepsExactIffNewest`. The next `delete` of a client that was behind it panics if that client was
  the newest of the bucket, and otherwise takes out the channel right behind its own, which stays registered although it
  is closed: `DeletesInARow.SecondPanicsIff`, `SecondIsExactIff`, `SecondTakesNext`.
- A client with several registrations in one bucket: `delete` panics, or it takes out channels of other clients and
  leaves closed ones behind, depending on who joined after it. `RepeatedRegistrations.DeletePanicsIff` and
  `StaleIndices.DeleteTakesOwnIff` are the exact conditions, for stale indices too;
  `RepeatedRegistrations.DoubleRegistrationPanics` and `DoubleRegistrationTakesAnother` are the two cases.

## Model

| member | source | states |
|---|---|---|
| `Tables.InsertAllIsMerge` | internal/repository/db/indexer.go:39-53 | a first-wins insert of a list is a map merge in which the rows already stored win and, among the new ones, the first of each key |
| `RowContents.FirstRowStored` | internal/repository/db/indexer.go:39-53 | of the rows of a list, the first with a key that the table does not hold is the one that is stored |
| `RowContents.TxsWrittenIff` | internal/repository/db/indexer.go:39-50 | the first-wins insert is the only table that keeps the old rows, holds for the first transaction of each new hash its height, sender, receiver and gas, and has no other row |
| `RowContents.EventsWrittenIff` | internal/repository/db/indexer.go:52-69 | the same for events: one row for each new (transaction, log index), with the height, emitter, data and topics of the first event that has it |
| `RowContents.CreateWrites` | internal/repository/db/indexer.go:23-73 | a create fails exactly when its height is held by another hash and its own hash is not stored; otherwise it writes its block, transactions and events like that, column by column |
| `RowContents.BulkWrites` | internal/repository/db/indexer.go:99-177 | a bulk write writes the flattened transactions and events like that |
| `RowContents.FlatTxsAppend` | internal/repository/db/indexer.go:110-130 | the flattened transactions of two lists of items are those of the first, then those of the second |
| `RowContents.FlatEventsAppend` | internal/repository/db/indexer.go:137-173 | the same for events |
| `RowContents.EveryEventHasARow` | internal/repository/db/migrations/00001_setup.sql:24-33 | a block whose n events differ in transaction or log index has n rows, one for each event, with its columns |
| `Tables.BulkRefinesCreate` | internal/repository/db/indexer.go:75-181 | the column-wise bulk insert (all blocks, then all transactions, then all events) and creating the items one after another give the same store for every store and every item list, and fail on the same ones |
| `Tables.AbsorbedIffNoOp` | internal/repository/db/indexer.go:30-69 | creating an item changes nothing if and only if its hash and the keys of all its rows are already stored |
| `Tables.CreateAbsorbs` | internal/repository/db/indexer.go:30-69 | after a create the item is absorbed, and whatever was absorbed before still is |
| `Tables.CreateAllAbsorbs` | internal/repository/db/indexer.go:99-177 | after a bulk write every item of it is absorbed |
| `Tables.CreateAllHeights` | internal/repository/db/indexer.go:99-108 | a bulk write fills no height that is not one of its items' heights |
| `Tables.AbsorbedAllNoOp` | internal/repository/db/indexer.go:99-177 | writing absorbed items again succeeds and leaves the store as it is |
| `Tables.HashAtOneHeight` | internal/repository/db/migrations/00001_setup.sql:4-13 | in a sound store one hash sits at one height only |
| `Tables.CreateKeepsSound` | internal/repository/db/indexer.go:23-73 | Create keeps every row a row of the block stored at its height, stores the block, and changes no other height's block |
| `Tables.CreateAllKeepsSound` | internal/repository/db/indexer.go:75-181 | the same for a bulk write |
| `Tables.DeleteKeepsSound` | internal/repository/db/indexer.go:217-235 | Delete takes a height's rows away together with its block, so no row is left without its block |
| `Repository.IndexerRepository.constructor` | internal/repository/db/migrations/00001_setup.sql:4-62 | the migrated schema: empty tables, both cursors at 0 |
| `Repository.BlockColumns` | internal/repository/db/indexer.go:83-104 | the seven column arrays, zipped again by UNNEST, are the items' blocks in order |
| `Repository.TxColumns` | internal/repository/db/indexer.go:114-130 | row j of the five transaction columns, zipped again, has the hash, height, sender, receiver and gas of transaction j |
| `Repository.EventColumns` | internal/repository/db/indexer.go:141-173 | row j of the six event columns, zipped again, has the transaction, log index, height, emitter, data and topics of event j |
| `Repository.IndexerRepository.Create` | internal/repository/db/indexer.go:23-73 | one transaction: the first-wins inserts or nothing, with every column of each first row of a new key; an error exactly on a failed statement or a height held by another hash; a failed commit stores nothing and reports no error |
| `Repository.IndexerRepository.BulkCreate` | internal/repository/db/indexer.go:75-196 | one transaction: the bulk insert or nothing, with every column of each first row of a new key; every failure is reported |
| `Repository.IndexerRepository.Delete` | internal/repository/db/indexer.go:217-235 | one transaction: block, transactions and events of a height go together or stay together |
| `Repository.IndexerRepository.GetBlockById` | internal/repository/db/indexer.go:237-251 | the stored block of a height, or not found |
| `Repository.IndexerRepository.UpdateBackfillCursor` | internal/repository/db/indexer.go:207-210 | sets the cursor unless its statement or commit fails, and then reports an error; a lost reply reports one too |
| `Repository.IndexerRepository.UpdateBalancefillCursor` | internal/repository/db/indexer.go:262-265 | the same for the balance cursor |
| `Repository.IndexerRepository.BatchUpsertBalance` | internal/repository/db/indexer.go:272-298 | adds every entry to its row, a missing row counting as 0, and changes no other row; fails as a whole exactly when the database does or two entries have one key |
| `Repository.IndexerRepository.GetMaxIndexedBlock` | internal/repository/db/indexer.go:300-304 | the highest stored height, 0 on an empty table |
| `Repository.IndexerRepository.GetLogsByTopic` | internal/repository/db/indexer.go:306-317 | exactly the events of the heights whose first topic is one of the signatures, each once, in any order, each with its height, emitter, data and topics |
| `LogReads.ReadsOfSameRowsAgree` | internal/repository/db/indexer.go:306-317 | two reads over the same event rows return the same logs up to order |
| `LogReads.ReadsAsIff` | internal/repository/db/indexer.go:306-317 | what a read may return, row by row and column by column |
| `TransferReads.BlockReads` | internal/core/services/balancefill.go:162-166 | a read of the height of a complete block whose events differ in transaction or log index returns, as a multiset, the log of each of its events whose first topic is a transfer signature, with height, emitter, data and topics, and no other |
| `TransferReads.BlockCredits` | internal/core/services/balancefill.go:173-178 | crediting that read does what the block's own transfer events say, taken in order |
| `TransferReads.CreatedErc20` | internal/core/services/balancefill.go:39-45 | an ERC-20 Transfer of value < 2^256 (section Events of EIP-20) that a create stored is in every read of its height and yields -value and +value |
| `TransferReads.CreatedSingle` | internal/core/services/balancefill.go:54-65 | a TransferSingle that a create stored is in every read of its height and yields -value and +value under the text of its id |
| `Forwardfill.IterationStream` | internal/core/services/forwardfill.go:35-91 | replaying what one iteration published over the store it started from gives the store it left, if and only if its create was committed or had nothing to do |
| `Forwardfill.StreamReproducesStore` | internal/core/services/forwardfill.go:30-91 | over any list of heads, the replay of the whole stream over the starting snapshot is the final store |
| `Forwardfill.HeadReplacesHeight` | internal/core/services/forwardfill.go:30-55 | after a committed iteration the block at the height is the fetched one, all other heights are unchanged, and the rows at the height are exactly its own if and only if none of its keys was held at another height |
| `Forwardfill.HeadSucceeds` | internal/core/services/forwardfill.go:30-55 | without another writer no head can conflict with a sound store |
| `Forwardfill.HeadFilledIff` | internal/repository/db/indexer.go:71-72 | after an iteration the height is filled unless its commit was dropped while there was something to store |
| `Forwardfill.SameHeadTwice` | internal/core/services/forwardfill.go:30-91 | handling the same head again changes nothing, announces no reorg, and publishes the block again |
| `Forwardfill.StreamStep` | internal/core/services/forwardfill.go:35-91 | at every step of an iteration the stream is behind the store by exactly the messages still to be sent |
| `Forwardfill.StreamReproducesEveryRun` | internal/core/services/forwardfill.go:19-105 | over every run of the filler without a dropped commit, one that stops with an error or a lost reply included, the stream reproduces the store whenever the filler is back to listening |
| `Forwardfill.CreateStoresRowsIff` | internal/repository/db/indexer.go:30-69 | a create stores every row of its block as it is if and only if none of its keys was held at another height |
| `ForwardFiller.PublishAll` | internal/core/services/forwardfill.go:61-91 | publishes the block, then transaction after transaction, then event after event, each once, and fails exactly when one of these messages does |
| `ForwardFiller.HandleHead` | internal/core/services/forwardfill.go:23-92 | the code of one iteration: it makes steps of the machine, a successful one ends in the store and the stream of `Iterate`, and it succeeds exactly when every call it makes on these rows does |
| `ForwardFiller.RunForwardfill` | internal/core/services/forwardfill.go:19-105 | the loop, in which a height announced again may answer with another block, makes a run of the machine and stops at the first head that fails; if none does and no commit was dropped, every head succeeds on the rows the ones before leave, and store and stream are those of `HeadRun` |
| `ForeignKeys.CreateKeepsEventsHaveTxs` | internal/repository/db/indexer.go:23-73 | Create keeps a transaction row for every event row |
| `ForeignKeys.BulkKeepsEventsHaveTxs` | internal/repository/db/indexer.go:75-181 | so does the bulk write |
| `ForeignKeys.DeleteOrphansIff` | internal/repository/db/indexer.go:224-231 | a delete leaves an event without its transaction if and only if an event of another height has its transaction row at the deleted one |
| `ForeignKeys.HeadKeepsEventsHaveTxsIff` | internal/core/services/forwardfill.go:35-55 | a successful head keeps every event's transaction if and only if it is no reorg or its block brings back every transaction that events of other heights need |
| `ForeignKeys.DeleteKeepsEventsHaveTxs` | internal/repository/db/migrations/00002_remove_fk.sql:4-8 | on a chain whose transactions never change height no delete orphans an event |
| `ForeignKeys.ReorgCanOrphanAnEvent` | internal/repository/db/migrations/00002_remove_fk.sql:7-8 | three well-formed heads after which an event has no transaction: the dropped foreign key is not kept by the code alone |
| `ForeignKeys.MovedTransactionIsPublishedUnstored` | internal/repository/db/indexer.go:39-43 | two heads sharing a transaction: the second publishes it as a row of its own height, while the stored row is that of the first |
| `ForeignKeys.InOrderKeysAreFree` | internal/core/services/forwardfill.go:35-55 | a reorg that moves a transaction: with the heads in order every block finds its keys free, with the new height first it does not |
| `Backfill.BatchIsWindowIff` | internal/core/services/backfill.go:33-36 | a batch end lies in [curr, target] if and only if it does not wrap at 2^64 (size 0 at height 0 apart) |
| `Backfill.ZeroBatchStalls` | internal/core/services/backfill.go:29-36 | with a negative concurrency the batch size can be 0, and then curr never advances |
| `Backfill.ProgressIff` | internal/core/services/backfill.go:29-85 | a round gets past curr if and only if the end of its batch does not wrap (size 0 at height 0 apart); otherwise its slice has size 0 and the round repeats, or a negative size and making it panics |
| `Backfill.NoWrap` | internal/core/services/backfill.go:33-36 | within the bound, wrapped and plain arithmetic give the same batch end and the same next height |
| `Backfill.NonNegativeConcurrency` | internal/core/services/backfill.go:29 | a non-negative concurrency below the word limit meets the bound |
| `Backfill.PlainNumbers` | internal/core/services/backfill.go:19-29 | where a call starts and how many heights it fetches at once, as plain numbers for every sign of the concurrency |
| `Backfill.BatchesTile` | internal/core/services/backfill.go:32-85 | the batches are non-empty, at most batchSize long, contiguous, tile exactly [curr, target], and are ceil(total / batchSize) many |
| `Backfill.ScheduleConverges` | internal/core/services/backfill.go:13-91 | any schedule of steps, failures, lost replies, crashes, resets and restarts with growing targets leaves the store of one pass over some [from, hi) with the cursor below hi |
| `Backfill.CompletedEqualsUninterrupted` | internal/core/services/backfill.go:13-91 | once it completes, the store equals that of one uninterrupted pass over [from, target], the cursor is the target, the token is out |
| `Backfill.AbsorbedIsFullyStored` | internal/repository/db/indexer.go:39-69 | in a sound store, on a chain whose transactions keep their height, an absorbed block is fully stored: its own rows and no others at its height |
| `Backfill.CursorCoversStore` | internal/core/services/backfill.go:65-73 | at every point of every schedule a positive cursor c means every block of [from, c] is absorbed, and fully stored on such a chain |
| `BackfillFiller.FetchBatch` | internal/core/services/backfill.go:38-60 | for every completion order slot i holds the block of height curr + i, and the batch fails if and only if one of its fetches does |
| `BackfillFiller.OneRound` | internal/core/services/backfill.go:32-73 | a round writes, then advances the cursor to its end; when a fetch fails neither the store nor the cursor changes; no failure of a fetch, the write or the advance goes unreported |
| `BackfillFiller.RunBackfill` | internal/core/services/backfill.go:13-91 | for every batch size, a negative concurrency included, the call makes a run of the machine; it has nothing to do if and only if its start, one after a positive cursor, is past the target; when it sends the token no call failed, its batches are the tiling, as many as blocks of cpus * concurrency + 1 heights take, and the cursor is the target; it fails when the cursor cannot be read, otherwise only when a fetch or a database call does, or a batch conflicts, stalls only with batch size 0, and panics only when the end of a batch wraps |
| `BackfillFiller.OfferedRunIsServed` | internal/core/services/backfill.go:48 | a run whose fetches agree with a fixed chain is a run against that chain |
| `BackfillFiller.SentMeansStored` | internal/core/services/backfill.go:87-88 | a call from cursor 0 that sends the token has created every block of [from, target] once, in order |
| `Words.BytesRoundTrip` | internal/core/services/balancefill.go:60-61 | a number of k bytes survives writing and reading big-endian |
| `Words.HexRoundTrip` | internal/fetcher/utils.go:17 | FromHex gives back the bytes hexutil.Encode wrote |
| `Words.FirstByteCounts` | internal/core/services/balancefill.go:60-61 | the first byte of a number is its most significant one |
| `Words.NumberRoundTrip` | internal/core/services/balancefill.go:60-61 | every list of bytes is the big-endian form of its number |
| `Words.HexTextAt` | internal/fetcher/utils.go:17 | byte i is written as two lower-case digits, at 2i its high half and then its low half |
| `Words.HexValueIff` | internal/fetcher/utils.go:17 | a character has the value of its place among the digits 0 to 9 and a to f, upper case included |
| `Words.TextRoundTrip` | internal/fetcher/utils.go:17 | a text of 0x and an even number of lower-case digits is the text of the bytes it decodes to |
| `Words.HashHexIff` | internal/core/services/balancefill.go:63-64 | the text of an id below 2^256 is the only one of 66 characters, 0x and 64 lower-case digits, that decodes to it: the text an indexed topic of that number has |
| `Words.HashHexInjective` | internal/core/services/balancefill.go:63-64 | it tells all ids below 2^256 apart |
| `Balances.ExtractPanicsIff` | internal/core/services/balancefill.go:38-68 | a log the query can return panics if and only if it has fewer than 3 topics as a Transfer, or fewer than 4 as a TransferSingle or TransferBatch |
| `Balances.Erc20RoundTrip` | internal/core/services/balancefill.go:39-45 | an ERC-20 Transfer of value < 2^256 (section Events of EIP-20) yields -value and +value under the empty id |
| `Balances.Erc721MovesOne` | internal/core/services/balancefill.go:47-52 | an ERC-721 Transfer (section Specification of EIP-721) yields -1 and +1 under the id topic |
| `Balances.Erc20OfAnyData` | internal/core/services/balancefill.go:41 | the amount of an ERC-20 Transfer is the whole of its data as one big-endian number |
| `Balances.SingleRoundTrip` | internal/core/services/balancefill.go:54-65 | for id, value < 2^256 the 64-byte data of a TransferSingle (section Specification of EIP-1155) yields -value and +value under the text of 0x and 64 lower-case digits that decodes to id |
| `Balances.SingleOfAnyData` | internal/core/services/balancefill.go:56-61 | less than two words of data move nothing, and what follows the second word is not read |
| `Balances.BatchIsItsSingles` | internal/core/services/balancefill.go:67-87 | a TransferBatch yields exactly the entries of the TransferSingles of its pairs, in order, under the same keys, as many as the shorter list has |
| `Balances.CreditAllAt` | internal/repository/db/indexer.go:287-291 | a list of entries adds to each key the sum of its amounts and touches no other key |
| `Balances.UpsertAdds` | internal/repository/db/indexer.go:272-298 | the upsert fails exactly on a repeated key, and otherwise adds each entry to its row and changes no other |
| `Balances.SameSumsSameLedger` | internal/repository/db/indexer.go:287-291 | two lists with the same keys and the same sum per key have the same effect |
| `Balances.UpsertOfGroupBy` | internal/core/services/balancefill.go:106-134 | the single-statement upsert of any exact group-by never touches a row twice and equals applying the raw entries one by one |
| `Balances.RowOrderIrrelevant` | internal/core/services/balancefill.go:173-178 | the order in which a block's rows come back changes neither the balances nor whether a log panics |
| `Balances.TotalCreditAll` | internal/repository/db/indexer.go:287-291 | the units of a (token, id) over all wallets grow by the net amount of the entries |
| `Balances.ExtractNetsZero` | internal/core/services/balancefill.go:35-91 | the entries of every log of every standard net to zero for every (token, id) |
| `Balances.LogsConserve` | internal/core/services/balancefill.go:173-178 | for every list of logs, mints, burns and self-transfers included, one iteration leaves every total unchanged |
| `Aggregation.SumByKey` | internal/core/services/balancefill.go:107-120 | the map holds every input key with the sum of its inputs, each in a big integer of its own |
| `Aggregation.ListMap` | internal/core/services/balancefill.go:122-132 | the slice has one slot per map entry, whatever the iteration order |
| `Aggregation.AggregateSameEntries` | internal/core/services/balancefill.go:106-134 | an exact group-by; no input big integer is changed, no output amount is an input's or another output's object |
| `Aggregation.ExtractBalanceEntries` | internal/core/services/balancefill.go:35-91 | the entries built on the heap are those of `Extract` |
| `Ledgers.UpsertIsApplyBlock` | internal/core/services/balancefill.go:173-182 | extraction, aggregation and upsert of a block's rows, read in any order, equal applying its entries one by one |
| `Ledgers.EveryRunAtLeastOnce` | internal/core/services/balancefill.go:136-191 | over every run with failures, lost replies, crashes and restarts at any step, every height below the cursor was applied at least once and none above it |
| `Ledgers.LedgerUnderCrashes` | internal/core/services/balancefill.go:178-188 | balances are the starting ones plus applied(b) times delta(b); applied(b) is at least 1 below the cursor and 0 outside; the surplus applications are exactly the torn iterations plus the one in flight, and torn iterations are at most the failures |
| `Ledgers.ExactlyOnceIff` | internal/core/services/balancefill.go:178-188 | every height was applied once, in order, if and only if no iteration was torn, and then the balance table is the replay of the blocks |
| `Ledgers.PanickingHeightBlocks` | internal/core/services/balancefill.go:175-177 | a height with a panicking log is never passed, whatever the restarts |
| `Ledgers.CrashAppliesTwice` | internal/core/services/balancefill.go:178-188 | a run in which one crash applies a block twice |
| `Ledgers.UnitsConserved` | internal/core/services/balancefill.go:136-191 | in every reachable state the units of every (token, id) are the starting ones, re-applied blocks included |
| `BalanceFiller.CreditLogs` | internal/core/services/balancefill.go:173-182 | extraction, aggregation and upsert as the code runs them credit exactly the raw entries, or nothing |
| `BalanceFiller.PanicMeans` | internal/core/services/balancefill.go:162-177 | the logs read panic if and only if a stored transfer event of the height has too few topics |
| `BalanceFiller.OnePoll` | internal/core/services/balancefill.go:147-188 | whatever the other fillers write meanwhile, one poll makes steps of the machine with one look at the highest height; it goes on exactly when no call it makes fails and no log panics, and then the cursor is one further if cursor + 96 is below the height it saw, and unchanged otherwise |
| `BalanceFiller.Balancefill` | internal/core/services/balancefill.go:136-191 | the loop, over a store that others write to between its polls and reads, makes a run of the machine; it ends early only for a fault or a panicking log at its cursor, always for a failed read of the cursor or of the highest height, and otherwise makes all its polls |
| `BalanceFiller.FrozenStoreCatchesUp` | internal/core/services/balancefill.go:153-188 | if every poll saw max, n polls take the cursor from c0 to the smaller of c0 + n and max - 96 if c0 + 96 < max, and leave it at c0 otherwise |
| `BalanceFiller.UntornLoopIsReplay` | internal/core/services/balancefill.go:136-191 | as long as every read of a height saw the same rows, a loop without a torn iteration leaves the replay of the heights it passed |
| `Indexer.IntegrityInEveryRun` | internal/core/services/indexer.go:22-72 | in every reachable state of every interleaving, with failures, crashes and restarts, each height and each hash has at most one block and every transaction and event row belongs to the block now stored at its height |
| `Indexer.PublishedRowsIff` | internal/core/services/forwardfill.go:51-91 | while a block is being published, whatever backfill writes meanwhile, its hash and all keys of its rows are stored, and its rows are stored as published if and only if none of its keys was held at another height when it was created |
| `Completeness.PublishedBlocksAreFullIff` | internal/core/services/forwardfill.go:51-91 | while a block is being published, it is stored with exactly its rows if and only if none of its keys was held at another height when it was created |
| `Indexer.UpToDateIff` | internal/core/services/backfill.go:19-27 | in a run, backfill is found up to date only if its start is past the target, and then no token is sent, the balance loop never starts and nothing is credited; it goes on, sends the token or lets the loop start only if its start is not past the target |
| `Coverage.NoMissingInOneRun` | internal/core/services/indexer.go:22-72 | within a run the heights covered by backfill and those up to the top are filled, except one that forwardfill has deleted and not yet re-created |
| `Coverage.BalancefillReadsStoredBlocks` | internal/core/services/balancefill.go:148-166 | once the loop runs, [from, max] has no hole but that one, and every block at or above from that it is about to read is stored |
| `Coverage.ReadsMissOnlyLost` | internal/core/services/balancefill.go:148-166 | over any number of runs, with crashes, restarts, dropped commits and reorgs of any depth, a height at or above from that the loop is about to read is not stored if and only if forwardfill lost it |
| `Coverage.ReadBlockStays` | internal/core/services/balancefill.go:152-153 | a block behind the lag of the top is not replaced within the run |
| `Coverage.CursorVouches` | internal/core/services/backfill.go:65-73 | in every reachable state, restarts, resets and dropped commits included, a positive backfill cursor vouches for every height of [from, cursor]: it is stored if and only if it is not one that forwardfill lost |
| `Coverage.FirstRunStarts` | internal/repository/db/migrations/00001_setup.sql:53-62 | the first run on a fresh database starts with nothing missing, whatever block it is to start from |
| `Coverage.RestartStartsIff` | internal/core/services/backfill.go:14-22 | after any number of runs, crashes, resets and restarts, a new run starts with nothing missing if and only if no lost height is left among those it will not fetch again |
| `LostHeights.LostStaysLost` | internal/core/services/backfill.go:19-22 | a lost height below the backfill cursor stays lost over any runs and restarts without another head at that height or a reset |
| `LostHeights.ReadsEmptyIff` | internal/core/services/balancefill.go:162-173 | the balance loop reads a height that is not stored as a block without transfers |
| `LostHeights.CrashLosesAHeight` | internal/core/services/forwardfill.go:35-55 | a crash between Delete and Create, then a restart: backfill completes, the height is not stored, and the balance loop is past it |
| `LostHeights.HeightOneIsLost` | internal/core/services/forwardfill.go:35-55 | a concrete chain and store on which that happens |
| `Indexer.LedgerRunsInside` | internal/core/services/indexer.go:55-70 | inside the interleaved system the balance loop makes one of its own runs |
| `Indexer.UnitsConservedInside` | internal/core/services/indexer.go:55-70 | in every reachable state of the indexer the units of every (token, id) are the starting ones |
| `Indexer.LedgerUnderCrashesInside` | internal/core/services/indexer.go:55-70 | the at-least-once ledger theorem, with its bounds on applied(b) and the surplus, for the interleaved system |
| `Indexer.LedgerEqualsReplayInside` | internal/core/services/indexer.go:55-70 | the replay theorem for the interleaved system |
| `Completeness.CreateKeepsFullIff` | internal/repository/db/indexer.go:23-73 | when every stored block is complete, a create keeps it so if and only if none of its block's keys is held at another height |
| `Completeness.BulkKeepsFullIff` | internal/repository/db/indexer.go:75-181 | a bulk write keeps it so if and only if each of its items finds its keys free when its turn comes |
| `Completeness.FullStepIff` | internal/core/services/indexer.go:22-72 | a step of the whole system keeps every stored block complete if and only if every block it stores finds its keys free |
| `Completeness.AlwaysFullIff` | internal/core/services/indexer.go:22-72 | in any run, with failures, dropped commits, crashes, resets and restarts, every stored block is complete at every point if and only if every block that was stored found its keys free |
| `Completeness.EveryBlockFullInFreeRun` | internal/core/services/indexer.go:22-72 | so in every state of a run that stores blocks with free keys only, reorgs that move transactions included, the rows at every stored height are exactly its block's |
| `Completeness.KeysStayRunsFree` | internal/core/services/indexer.go:22-72 | on a chain whose transactions never change height and whose logs belong to transactions of their block, every run is such a run |
| `Completeness.ScheduleIsFullIff` | internal/core/services/backfill.go:13-91 | whatever the schedule of a backfill over a fixed chain, what it stored is complete if and only if the blocks of the range it covered, one after another, find their keys free |
| `EndToEnd.ReadRowsStayIff` | internal/core/services/indexer.go:22-72 | while stored blocks are complete, a step leaves the transfers of all heights the balance loop has read as they were if and only if it deletes no such height with transfers and stores no block with transfers at such a height that had none stored |
| `EndToEnd.ReadsHoldInEveryRun` | internal/core/services/balancefill.go:162-166 | over any number of runs of such steps, with crashes and restarts, what the balance loop read at a height is what a read of that height would still return |
| `EndToEnd.BalancesAreStoredLogs` | internal/core/services/indexer.go:22-72 | over any number of runs of such steps, with failures, torn iterations, dropped commits, crashes, resets and restarts, the balances are the starting ones plus applied(b) times what the logs now stored at b add, applied(b) at least 1 below the cursor and 0 outside, the surplus exactly the torn iterations and the one in flight, and without a torn iteration the replay of the stored logs |
| `SettledRuns.OneRunSettles` | internal/core/services/indexer.go:22-72 | one run whose heads follow the chain and whose reorgs stay within the lag leaves the transfers of every height read as they were, below `from` too |
| `SettledRuns.OneRunBalances` | internal/core/services/indexer.go:22-72 | so in it, for every balance cursor and every `from`, the balances are those of the logs now stored |
| `SettledRuns.FirstRunBalances` | internal/core/services/indexer.go:22-72 | the same for the first run on a fresh database, whose balance cursor is 0 whatever `from` is |
| `SettledRuns.SteadySettles` | internal/core/services/indexer.go:22-72 | so does any number of runs, with crashes, restarts and dropped commits, whose reorgs and late heads stay within the lag of the top and whose balance loop reads no height that backfill may still fetch |
| `SettledRuns.SteadyBalances` | internal/core/services/indexer.go:22-72 | so at every point of them the balances are those of the logs now stored, with a surplus of at most one application for each failure |
| `BrokenLedgers.DeepReorgBreaks` | internal/core/services/forwardfill.go:35-55 | a run that follows the chain and stores complete blocks only, in which a reorg deeper than the lag brings a transfer to a height already passed: the stored logs do not account for the balances |
| `BrokenLedgers.ForgottenTransferBreaks` | internal/core/services/forwardfill.go:35-55 | the same with a reorg that takes a transfer away which was credited |
| `BrokenLedgers.LateHeadBreaks` | internal/core/services/forwardfill.go:35-55 | the same with a lost height that was passed as empty, and for which a head arrives |
| `BrokenLedgers.RestartBreaks` | internal/core/services/backfill.go:19-22 | the same with a height lost above the target that the next run fetches |
| `BrokenLedgers.ResetBreaks` | internal/core/services/backfill.go:14-22 | the same with a lost height fetched again after a reset of the backfill cursor |
| `Registry.Client.Subscribe` | internal/handlers/ws/client.go:44-68 | an invalid message, of another type or topic, changes nothing; a valid one appends the channel to its bucket and records the index it got |
| `Registry.Client.RemoveAt` | internal/handlers/ws/client.go:75-77 | takes the recorded index out of its bucket, or panics when it is out of range |
| `Registry.Client.Delete` | internal/handlers/ws/client.go:70-83 | the first call removes the recorded indices in order and closes the channel; later calls do nothing |
| `RegistryRuns.SubscribeKeepsExact` | internal/handlers/ws/client.go:56-65 | subscribe keeps every recorded index exact |
| `RegistryRuns.DeleteTakesOwnChannels` | internal/handlers/ws/client.go:72-79 | delete by a client with at most one registration per bucket takes out its own channels and nothing else, and keeps the order of the others |
| `RegistryRuns.OthersAfterDelete` | internal/handlers/ws/client.go:77 | every other recorded index stays exact, or, behind the removed one in the same bucket, is too large by exactly one |
| `RegistryRuns.DeleteKeepsExactIffNewest` | internal/handlers/ws/client.go:77 | delete leaves all indices exact if and only if the client was the newest of each of its buckets |
| `RepeatedRegistrations.SubscribeKeepsIncreasing` | internal/handlers/ws/client.go:57-65 | from exact positions, the indices a client records in a bucket increase |
| `RepeatedRegistrations.DeletePanicsIff` | internal/handlers/ws/client.go:72-79 | whatever the hub, stale indices included, delete panics if and only if in some bucket of n channels the index the client recorded j-th, counted from 0, is at least n - j |
| `RepeatedRegistrations.IncreasingPanicsIff` | internal/handlers/ws/client.go:72-79 | with k registrations of the client in a bucket of n channels, recorded in increasing order, the last at index i, that is i + k > n in some bucket |
| `RepeatedRegistrations.OneIsExactIff` | internal/handlers/ws/client.go:72-79 | whatever the hub, with one registration per bucket delete takes out exactly the client's own channels if and only if in every bucket its channel is where it recorded it, and nowhere else |
| `StaleIndices.DeleteTakesOwnIff` | internal/handlers/ws/client.go:72-79 | whatever the hub and the registrations, delete takes out exactly the client's own channels if and only if in every bucket each of its removals finds one of them, and there are as many as removals |
| `StaleIndices.OrderedTakesOwnIff` | internal/handlers/ws/client.go:72-79 | with indices recorded in order, that is: its channels are where the index recorded j-th plus j says, and nowhere else |
| `RepeatedRegistrations.DeleteIsExactIff` | internal/handlers/ws/client.go:72-79 | with exact indices, that is: it has at most one registration per bucket |
| `DeletesInARow.SecondPanicsIff` | internal/handlers/ws/client.go:70-83 | of two clients that leave one after the other, the second delete panics if and only if in some bucket the second was behind the first and the newest |
| `DeletesInARow.SecondIsExactIff` | internal/handlers/ws/client.go:70-83 | it takes out exactly its own channels if and only if it was behind the first in no bucket |
| `DeletesInARow.SecondTakesNext` | internal/handlers/ws/client.go:70-83 | where it was behind the first and not the newest, it takes out the channel right behind its own, which stays registered although closed |
| `RepeatedRegistrations.DoubleRegistrationPanics` | internal/handlers/ws/client.go:72-79 | a client that subscribes again to a bucket it is in, and deletes before anyone joins that bucket, panics |
| `RepeatedRegistrations.DoubleRegistrationTakesAnother` | internal/handlers/ws/client.go:72-79 | the bucket [c, c, d]: delete of c does not panic, takes out d's open channel and leaves its own closed one |
| `RegistryRuns.OrderlyRunsStayHealthy` | internal/handlers/ws/client.go:44-83 | runs that empty buckets newest-first, by clients with at most one registration per bucket, never panic, and every index stays exact and every registered channel open |
| `Broadcast.FilterCoversIff` | internal/handlers/ws/utils.go:42-54 | whatever the payloads are, one subscription receives all that another does if and only if each part of it is empty or equal to the other's |
| `Broadcast.MatchesIff` | internal/handlers/ws/utils.go:42-54 | a payload matches when the address, unless empty, is its sender, receiver or emitter, and the topic, unless empty, is its first one |
| `Broadcast.NewSubscriptionReceives` | internal/handlers/ws/utils.go:27-39 | a new registration receives a payload of its topic if and only if its channel is ready and the payload has the address and the first topic the message names, if it names them |
| `Broadcast.BroadcastOne` | internal/handlers/ws/entity.go:57-67 | one send per registration whose filter matches and whose receiver is ready, and no other |
| `Broadcast.OthersDoNotMatter` | internal/handlers/ws/entity.go:59-65 | whether other channels are ready never changes what a channel receives |
| `Queries.GroupRows` | internal/core/services/query.go:121-125 | every key's list holds the rows at the positions with that key, all of them, each once, in increasing order |
| `Queries.InRowOrderIff` | internal/core/services/query.go:121-125 | that determines the list |
| `Queries.HandleError` | internal/handlers/graphql/graph/loaders.go:69-75 | one slot per requested item, each with the same error |
| `Queries.LoadBatch` | internal/handlers/graphql/graph/loaders.go:28-66 | slot i holds the converted rows at the positions with key i, all of them, each once, in increasing order, duplicate keys included; on an empty answer every slot carries not found |
| `Queries.EveryRowOnce` | internal/core/services/query.go:228-232 | over distinct keys the grouped lists account for every returned row once |
| `Queries.AggregateBlocksId` | internal/core/services/query.go:72-78 | the ids of the blocks, in order |
| `Queries.TransactionsByBlocks` | internal/core/services/query.go:110-128 | the list of a block holds the transactions with its id, each once, in the order of the one query; not found only when transactions were asked for and there are none |
| `Queries.GetBlocksWithOffset` | internal/core/services/query.go:80-108 | the join agrees with one query per block, in block order and row order; 1000 heights by default; the error cases exactly |

## Left out

- RPC, WebSocket and Redis I/O, retries, backoff and rate limits: a fetch is a function of the height that may fail, or
  a set of possible answers; publishing appends to a list.
- SQL text, the driver, array encoding, column widths and the serial id of an event: tables are maps, heights and log
  indexes are taken to fit their columns.
- The status of a transaction, which the schema does not store.
- The ABI decoder of batch data: a parameter that returns two lists or fails. In the source a decoded value is itself
  the receiving entry's amount; here that entry has a big integer of its own.
- GraphQL types, converters, HTTP handlers, configuration, metrics, logging, JSON.
- Length and prefix validators and the filter guards of the query service. `GetBlocksByRangeTime` and
  `GetEventsByBatchTxsHash` are not separate members: their joins are those of `GetBlocksWithOffset` and `GroupRows`.
- Waits, thread timing and liveness of the polling loops: the loops here end with their list of heads or their number
  of polls, which stands for the cancellation of the context.
- `messageWriter`: its calls of `delete` are the delete steps of a run; delivery to the socket is not part of this
  model.
- Gas accounting: the stored gas of a transaction is the cumulative one.
- Wrap-around of the balance cursor at 2^64.
- The height a head announces: the machine takes the block fetched for it, whatever its number.
- The lag as a parameter: `Run` passes 96, and the balance machine is stated for that lag.
- Repository.BlockColumns: fills its seven arrays in two loops instead of one; no clause is weaker for it.
- Repository.EventColumns: fills its six arrays in two loops instead of one; no clause is weaker for it.
- Registry.Client.Delete: does not say which removals took place before a panic.
- Broadcast.BroadcastOne: readiness is a fixed predicate on registrations during one broadcast; the payload's JSON is
  not modelled.
- BackfillFiller.FetchBatch: a worker's fetch is one step, so the cancellation of the others after a failure shows only
  as failure of the batch.
- BackfillFiller.RunBackfill: requires a target below 2^64 - 1, past which the loop cannot end; a stall, which repeats
  one batch for ever, is returned as an outcome after its first round.
- BackfillFiller.RunBackfill, ForwardFiller.RunForwardfill: run alone on the store; their interleavings are those of
  the machine in `Indexer`.
- Forwardfill.StreamReproducesEveryRun: excludes runs with a dropped commit; `Forwardfill.IterationStream` says exactly
  which single iterations survive one.
- Ledgers.LedgerUnderCrashes: assumes that every read of a height returns the same logs.
  `EndToEnd.BalancesAreStoredLogs` proves it of `Settled` runs, over restarts too, and `BrokenLedgers` has a run for
  each way it fails otherwise.
- EndToEnd.BalancesAreStoredLogs: assumes `Free` runs, in which every stored block is complete; without that a row can
  be missing at the height of a stored block, as `Completeness.AlwaysFullIff` says.
