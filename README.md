# casperparser task handlers — a Dafny model

casperparser indexes the Casper blockchain into a relational store. Work
happens in tasks pulled from named asynq queues. Each task handler fetches
one thing from the chain's RPC endpoint and writes it as rows. Then it
enqueues the child tasks the thing implies:

- a block fans out deploy and deploy-info tasks, plus a reward (era) task
  and an auction-era task when it ends an era;
- a deploy fans out account, contract and contract-package tasks;
- a deploy info fans out transfer tasks;
- a transfer fans out two account-hash tasks.

A block-verify task checks that every deploy a stored block lists has been
stored. It then marks the block validated, or enqueues the block's deploys
again. The auction tasks store bid and delegator batches. The worker
command builds the queue-priority configuration.

The model gives every handler as a Dafny method over two objects:

- `Storage.Store` holds the tables. Each store operation may fail on its
  own (the constant `failing`), and a failed call changes nothing.
- `Tasks.TaskQueue` holds the sequence of tasks accepted so far. Enqueues
  to the queues in `down` fail.

The chain endpoint is a value (`Chain.Endpoint`): a missing key means the
fetch failed. A payload that does not decode is `None`. The handler's
result is an `Outcomes.Outcome`:

- `Ok`;
- `Err(e)`, an error returned to the queue engine;
- `Fatal`, the process exit of a failed enqueue (`log.Fatalf`);
- `Panic`, an index out of range.

Each handler's postcondition is its whole effect: the error cases in source
order, the new tables exactly, and the tasks enqueued. The enqueued tasks
are written as `Deliver(children, down).sent`, where `Deliver` is the
reference definition of "enqueue these in order and die at the first
failure that is not merely logged". Lemmas about each fan-out list
(`BlockChildren`, `DeployChildren`, `KnownChildren`, `TransferTasks`,
`RequeueTasks`) give the order, the count and the contents of the tasks.
Lemmas about `Deliver` say when the process survives.

The loops of the source are methods with loop invariants:

- the auction batch builder (`AuctionTasks.BuildAuctionRows`);
- the flag parser (`Worker.ConfigureQueues`);
- the enqueue loops (`Tasks.TaskQueue.SubmitAll`).

Each is proved equal to a recursive specification function. Those
functions' properties are separate lemmas.

Go library behaviour the handlers depend on is written out in `Text`:

- `strings.ReplaceAll` with an empty replacement, `TrimPrefix`, `Join`;
- `strconv.Atoi` on a 64-bit platform. It gives the nearest 64-bit bound
  for a value out of range. It gives the bound too as soon as the digits
  read so far pass 64 unsigned bits, even when a bad character follows;
  any other syntax error gives 0;
- `big.Int.SetString(s, 10)`, and `Int64`, which keeps the low 64 bits;
- `fmt.Sprint` of an int.

Where the code and the documented intent differ, the model follows the
code:

- **Deploy-info gas.** Gas that does not parse is not a hard failure. The
  error from `strconv.Atoi` is overwritten before it is checked. The row is
  stored with whatever value Atoi gave: 0 for a malformed text, or the
  nearest 64-bit bound for a number too large (tasks/deploy.go:125-126).
- **Transfer timestamp.** Transfer tasks do not carry the deploy
  timestamp. `NewTransferRawTask` takes it and drops it.
- **Transfer hashes.** The block handler queues a *deploy* task (and a
  deploy-info task) for each transfer hash, not a transfer task.
- **Block verify.** The verify handler enqueues again *every* listed hash,
  not only the missing ones.
- **Fatal enqueues.** A failed enqueue ends the process, except for the
  auction-era enqueue, whose failure is only logged.
- **Stake narrowing.** A stake outside 64 bits is not a failure. The code
  narrows the arbitrary-precision value through `Int64()`
  (tasks/auction.go:44,49), which silently keeps the low 64 bits; only a
  stake that is not decimal text aborts the batch.
- **The "accounts" queue.** The worker's queue flag refuses "accounts",
  although the defaults and the error message include it.

## Model

| member | source | states |
|---|---|---|
| Tasks.Lenient | tasks/block.go:107-116 | Holds for the auction-era task, the one whose failed enqueue is only logged |
| Tasks.Deliver | tasks/block.go:107-164 | Enqueue each task in order: a reachable queue accepts it, an unreachable one drops a lenient task and otherwise ends the process before the rest |
| Tasks.Then | tasks/block.go:59-73 | Two enqueue runs one after the other: the second only if the first survived |
| Tasks.DeliverAppend | tasks/block.go:59-73 | Enqueueing two lists one after the other is delivering the first, then (if it survived) the second: the handlers' sequential fan-out loops compose |
| Tasks.DeliverAllUp | tasks/block.go:118-128 | With every destination queue reachable, every task is accepted, in order, and the process survives |
| Tasks.DeliverFatal | tasks/block.go:107-164 | The process survives exactly when every task bound for an unreachable queue is an auction-era task (whose enqueue failure is only logged); every accepted task is one of the list's and went to a reachable queue; never more tasks than listed |
| Tasks.DeliverStep | tasks/block.go:107-128 | After a surviving prefix, one more enqueue appends it when its queue is reachable, drops an auction-era task silently, and otherwise ends the process whatever was still to come |
| Tasks.TaskQueue.Enqueue | tasks/block.go:124 | The engine accepts a task exactly when its queue is reachable, appending it to the accepted tasks; otherwise nothing changes |
| Tasks.TaskQueue.Submit | tasks/block.go:107-116 | The enqueue helper: fatal exactly when the queue is unreachable and it is not an auction-era task; it is appended exactly when its queue is reachable |
| Tasks.TaskQueue.SubmitAll | tasks/block.go:64-73 | Enqueueing a list one by one appends exactly `Deliver(ts).sent` and is fatal exactly when `Deliver(ts).fatal` |
| Storage.Store.InsertBlock | tasks/block.go:54 | Upsert of the block row under its hash; fails exactly when the store does, changing nothing |
| Storage.Store.GetRawBlock | tasks/block.go:85 | Returns the stored row exactly when the store is up and the hash is present; otherwise the store error or "no row" |
| Storage.Store.CountDeploys | tasks/block.go:93 | On success, the number of distinct listed hashes that have a deploy row |
| Storage.Store.ValidateBlock | tasks/block.go:91 | Adds the hash to the validated set; fails exactly when the store does, changing nothing |
| Storage.Store.InsertDeploy | tasks/deploy.go:82 | Upsert of the deploy row under the deploy's hash, or no change on failure |
| Storage.Store.GetDeploy | tasks/deploy.go:147 | Succeeds exactly when the store is up, the row exists and its stored raw payload decodes; returns the decoded deploy |
| Storage.Store.UpdateDeploy | tasks/deploy.go:165 | Rewrites an existing deploy row except its raw payload; a missing hash changes nothing |
| Storage.Store.InsertDeployInfo | tasks/deploy.go:115 | Upsert of the deploy-info row, or no change on failure |
| Storage.Store.InsertTransfer | tasks/transfer.go:66 | Upsert of the transfer row, or no change on failure |
| Storage.Store.InsertAuction | tasks/auction.go:62 | Both batches recorded in one call, or nothing |
| Storage.Store.InsertAuctionEra | tasks/auction.go:104 | Both era batches recorded in one call, or nothing |
| Storage.CountStored | tasks/block.go:93 | The number of distinct listed hashes that have a deploy row |
| Storage.CountStoredComplete | tasks/block.go:97-103 | A count equal to the list's length means every listed hash has a deploy row |
| Storage.CountStoredAll | tasks/block.go:97-103 | Conversely, every hash stored and none listed twice gives a count equal to the length |
| BlockTasks.DeployTask | tasks/deploy.go:26-32 | A deploy-raw task for the hash, on the "deploys" queue |
| BlockTasks.DeployInfoTask | tasks/deploy.go:34-41 | A deploy-info task carrying the hash, block hash, state root and timestamp, on the "deployinfos" queue |
| BlockTasks.TransferTask | tasks/transfer.go:24-30 | A transfer task carrying the hash, block, deploy and state root, on the "transfers" queue |
| BlockTasks.EraTask | tasks/block.go:155-164 | A reward task for the block hash, on the "era" queue |
| BlockTasks.AuctionEraTask | tasks/auction.go:24-30 | An auction-era task for the block height, on the "auctionera" queue |
| BlockTasks.DeployPair | tasks/block.go:65-67 | One loop body: the hash's deploy task, then its deploy-info task with the block's hash, state root and timestamp |
| BlockTasks.DeployPairs | tasks/block.go:64-73 | For each hash in order, its deploy task then its deploy-info task |
| BlockTasks.EraTasks | tasks/block.go:59-62 | The era and auction-era tasks for an era-end block, none otherwise |
| BlockTasks.BlockChildren | tasks/block.go:59-73 | The block's fan-out in source order: era tasks, then the transfer-hash pairs, then the deploy-hash pairs |
| BlockTasks.RequeueTasks | tasks/block.go:98-100 | One deploy task per listed hash, in order |
| BlockTasks.BlockRowOf | tasks/block.go:53-54 | The block row: era, timestamp, height, era-end flag, the raw response and the two hash lists |
| BlockTasks.AllDeploys | tasks/block.go:89 | The deploy hashes followed by the transfer hashes of a stored block |
| BlockTasks.DeployPairsLayout | tasks/block.go:64-73 | Two tasks per hash in the hashes' order: a deploy task, then a deploy-info task carrying the block's hash, state root and timestamp |
| BlockTasks.DeployPairsKinds | tasks/block.go:64-73 | A pair list holds only deploy and deploy-info tasks |
| BlockTasks.BlockChildrenEra | tasks/block.go:59-62 | The era and auction-era tasks come first exactly when the block ends an era and appear nowhere else; 2·(transfers+deploys) tasks follow |
| BlockTasks.BlockChildrenTransfers | tasks/block.go:64-68 | After the era tasks, each transfer hash in order yields a deploy task and a deploy-info task |
| BlockTasks.BlockChildrenDeploys | tasks/block.go:69-73 | Then each deploy hash in order yields the same two tasks, ending the list |
| BlockTasks.BlockChildrenExample | tasks/block.go:64-73 | A non-era block listing deploys d1, d2 fans out exactly four tasks in that order |
| BlockTasks.RequeueTasksLayout | tasks/block.go:98-100 | The verify handler re-queues a deploy task for every listed hash, in order, stored or not |
| BlockTasks.HandleBlockRawTask | tasks/block.go:41-75 | Undecodable payload or missing block: error, nothing changes; failed insert: error, no task; else the block row is stored under its hash and exactly the delivered part of `BlockChildren` is enqueued, fatal as `Deliver` says |
| BlockTasks.FanOutBlock | tasks/block.go:59-73 | The era enqueues and the two hash loops together append `Deliver(BlockChildren(b)).sent` and are fatal exactly as it says |
| BlockTasks.FanOutEra | tasks/block.go:59-62 | The era and auction-era enqueues, made only for an era-end block, append `Deliver(EraTasks(b)).sent` |
| BlockTasks.BlockChildrenSplit | tasks/block.go:59-73 | Delivering the fan-out is delivering the era tasks and then, if that survived, the transfer and deploy pairs |
| BlockTasks.HandleBlockVerifyTask | tasks/block.go:78-105 | Read error propagated; empty list or complete count validates (or reports the store error); failing count reports it; otherwise every listed deploy is re-queued and the block stays unvalidated; a block is newly validated only if all its listed hashes are stored |
| DeployTasks.DeployRowOf | tasks/deploy.go:74-82 | The row keeps the signer and the first execution block. The raw payload and metadata get one NUL-escape pass each: never longer, unchanged when clean, shorter when they held an escape |
| DeployTasks.DeployRowKeepsEscape | tasks/deploy.go:74 | One pass can store a row that still holds a NUL escape: the raw text `\\u0000u0000` is stored as `\u0000` |
| DeployTasks.DeployInfoRowOf | tasks/deploy.go:123-126 | Gas is the parsed value when Atoi succeeds, the nearest 64-bit bound for a number out of range or digits that overflow before a bad character, and 0 for any other malformed text. The raw payload gets one NUL-escape pass: never longer, unchanged when clean |
| DeployTasks.SentinelRow | tasks/deploy.go:115 | The row written when the fetch fails: the block, empty signer and source, gas 0, the raw text `"ERROR"` and no transfers |
| DeployTasks.AccountTask | tasks/deploy.go:209-218 | An account task for the signer's public key, on the "accounts" queue |
| DeployTasks.ContractTask | tasks/deploy.go:185-194 | A contract task with the hash, the deploy hash and the signer, on the "contracts" queue |
| DeployTasks.PackageTask | tasks/deploy.go:197-206 | A contract-package task likewise, on the "contracts" queue |
| DeployTasks.ContractTasks | tasks/deploy.go:91-95 | One contract task per written contract, in order, with "hash-" removed |
| DeployTasks.PackageTasks | tasks/deploy.go:97-101 | One contract-package task per written package, in order, with "hash-" removed |
| DeployTasks.DeployChildren | tasks/deploy.go:89-101 | The fresh deploy's fan-out: the account task, the contract tasks, the package tasks |
| DeployTasks.KnownChildren | tasks/deploy.go:169-179 | The refresh's fan-out: the package tasks, then the contract tasks |
| DeployTasks.TransferTasks | tasks/deploy.go:133-135 | One transfer task per listed transfer, in order, with the deploy info as its deploy |
| DeployTasks.DeployInfoTransfersRoundTrip | tasks/deploy.go:123 | The ", "-joined transfer list splits back into the transfers (none holding a comma) |
| DeployTasks.StripHashPrefix | tasks/deploy.go:94 | Removing every "hash-" from "hash-" + a hex key gives the key |
| DeployTasks.ContractTasksLayout | tasks/deploy.go:91-95 | One contracts-queue task per written contract, in order, with "hash-" removed, carrying the deploy hash and signer |
| DeployTasks.PackageTasksLayout | tasks/deploy.go:97-101 | One contracts-queue task per written contract package, likewise |
| DeployTasks.DeployChildrenLayout | tasks/deploy.go:89-101 | A fresh deploy fans out its account task first, then its contracts, then its packages |
| DeployTasks.KnownChildrenLayout | tasks/deploy.go:169-179 | The refresh fans out packages first, then contracts; as a multiset it is the fresh fan-out minus the account task |
| DeployTasks.TransferTasksLayout | tasks/deploy.go:133-135 | One transfer task per listed transfer in order, naming the deploy info as its deploy |
| DeployTasks.HandleDeployRawTask | tasks/deploy.go:53-103 | Errors in order (payload, fetch, execution result, empty execution results as a panic, insert), each changing nothing; else the row is stored under the deploy hash and `DeployChildren` delivered |
| DeployTasks.HandleDeployInfoRawTask | tasks/deploy.go:106-138 | A failed fetch writes the sentinel row and still returns the fetch error (or the write's error); else the row is stored whatever the gas parse gave, and the transfer tasks are delivered |
| DeployTasks.HandleDeployKnownTask | tasks/deploy.go:141-182 | Read or decode errors propagated; empty metadata: success with nothing changed; else the row is rewritten keeping its raw payload and `KnownChildren` delivered |
| TransferTasks.TransferRowOf | tasks/transfer.go:57-66 | The row's amount and gas are the integers their texts spell, its id text parses back to the id, and its raw payload gets one NUL-escape pass: never longer, unchanged when clean |
| TransferTasks.AccountHashTask | tasks/transfer.go:119-128 | An account-hash task for the hash, on the "accounts" queue |
| TransferTasks.AccountHashKey | tasks/transfer.go:73-84 | Exactly one leading "account-hash-" is removed; an unprefixed hash is kept |
| TransferTasks.TransferTaskDropsTimestamp | tasks/transfer.go:24-25 | The transfer payload does not depend on the deploy timestamp it is given |
| TransferTasks.HandleTransferRawTask | tasks/transfer.go:42-94 | Payload, fetch, amount, gas and insert errors each change nothing; after the insert, an unreachable "accounts" queue is fatal with no task enqueued, else the two account-hash tasks (sender then receiver, prefix trimmed) are appended |
| TransferTasks.HandleTransferKnownTask | tasks/transfer.go:97-116 | Always succeeds |
| AuctionTasks.Stake | tasks/auction.go:42-44 | The stake stored in a row: the decimal text's value narrowed to 64 bits |
| AuctionTasks.DelegatorRows | tasks/auction.go:46-54 | The delegator rows of one bid in order, or the failure of the first delegator whose stake does not parse |
| AuctionTasks.AuctionRows | tasks/auction.go:41-58 | The bid and delegator batches in order, or the failure of the first unreadable stake, bid before its delegators |
| AuctionTasks.Delegations | tasks/auction.go:41-54 | The delegators of all bids, in bid order |
| AuctionTasks.StakesParse | tasks/auction.go:42-48 | Every bid stake and every delegator stake of every bid is decimal text, so no conversion fails |
| AuctionTasks.BidRowFor | tasks/auction.go:44 | A bid row holds the bid's key, purse, rate and flag, the snapshot's block, a 64-bit stake, and the stake itself when it fits |
| AuctionTasks.DelegatorRowFor | tasks/auction.go:49 | A delegator row holds the delegator's key, delegatee and purse, the snapshot's block, a 64-bit stake, and the stake itself when it fits |
| AuctionTasks.BuildAuctionRows | tasks/auction.go:41-58 | The bid loop computes exactly `AuctionRows`, stopping at the first unreadable stake |
| AuctionTasks.BuildDelegatorRows | tasks/auction.go:46-54 | The delegator loop computes exactly `DelegatorRows`, stopping at the first unreadable stake |
| AuctionTasks.AuctionRowsLast | tasks/auction.go:41-50 | A successful snapshot extends the snapshot of the earlier bids by the last bid's row and its delegators' rows |
| AuctionTasks.DelegatorRowsPrefixFailure | tasks/auction.go:46-54 | A failure among the first delegators is the failure of the whole list |
| AuctionTasks.AuctionRowsPrefixFailure | tasks/auction.go:41-58 | A failure among the first bids is the failure of the whole snapshot |
| AuctionTasks.DelegatorRowsSuccess | tasks/auction.go:46-54 | The delegator rows are built exactly when every stake is decimal; then one row per delegator, in order, with its fields and its stake when that fits 64 bits |
| AuctionTasks.AuctionRowsSuccess | tasks/auction.go:41-58 | The snapshot is built exactly when every bid stake and every delegator stake is decimal |
| AuctionTasks.AuctionRowsBids | tasks/auction.go:41-45 | On success, one bid row per bid, in order, with the bid's fields, the block and the stake |
| AuctionTasks.AuctionRowsDelegators | tasks/auction.go:46-50 | On success, one delegator row per delegator of all bids, in bid-then-delegator order |
| AuctionTasks.AuctionRowsError | tasks/auction.go:52-56 | A failure names a bid with an unreadable stake, or a delegator and its delegatee with an unreadable stake |
| AuctionTasks.DelegatorRowsError | tasks/auction.go:51-53 | A delegator failure names a delegator of the list with an unreadable stake |
| AuctionTasks.HandleAuctionTask | tasks/auction.go:33-68 | Fetch error, stake error or store error each change nothing; else both batches are stored in one call |
| AuctionTasks.HandleAuctionEraTask | tasks/auction.go:70-110 | The same for the snapshot at the payload's block, rows keyed by that block |
| AuctionTasks.EraRowsCarryBlock | tasks/auction.go:86-91 | Every bid and delegator row of an era snapshot starts with the snapshot's block |
| Text.RemoveAllShortens | tasks/deploy.go:74 | ReplaceAll with "" never lengthens, leaves a string without the pattern alone, and shortens one with it |
| Text.RemoveAllNoStart | tasks/deploy.go:94 | A string none of whose characters starts the pattern is left alone |
| Text.RemoveAll | tasks/deploy.go:94 | `strings.ReplaceAll(s, pat, "")`: the occurrences of the pattern removed left to right, without overlap, in one pass |
| Text.StripNulOnce | tasks/deploy.go:74 | The sanitising pass as written: never lengthens, keeps a clean text as it is, shortens one holding the escape |
| Text.StripNulOnceLeavesEscape | tasks/deploy.go:74 | One ReplaceAll pass on `\\u0000u0000` leaves `\u0000` |
| Text.StripNulEscapes | tasks/deploy.go:74 | The repeated pass leaves no `\u0000`, never lengthens, and keeps a clean string as it is |
| Text.TrimPrefix | tasks/transfer.go:75 | With the prefix the result is what follows it; without it the string is unchanged |
| Text.TrimPrefixOnce | tasks/transfer.go:75 | Only one leading copy of the prefix is removed |
| Text.Join | tasks/deploy.go:123 | `strings.Join`: the elements in order with the separator between consecutive ones |
| Text.Split | tasks/deploy.go:123 | The reference inverse of `Join` (`strings.Split`): the pieces between non-overlapping separators, left to right, at least one piece |
| Text.SplitJoin | tasks/deploy.go:123 | Splitting the joined list on the separator gives the list back when no element holds the separator's first character |
| Text.ParseDecimal | tasks/auction.go:42 | The grammar of `big.Int.SetString(s, 10)` and of Atoi: an optional sign and at least one decimal digit, nothing else, with its value; anything else is `None` |
| Text.IntToString | types/transfer/transfer.go:27 | `fmt.Sprint` / `strconv.Itoa` of an integer: a minus for negatives, then the digits without leading zeros |
| Text.ParseIntToString | tasks/transfer.go:66 | The decimal text of an integer parses back to it |
| Text.IntToStringInjective | types/transfer/transfer.go:23-29 | Distinct integers print differently |
| Text.Atoi | tasks/transfer.go:58-65 | Succeeds exactly on a decimal literal within 64 bits, with its value. A decimal literal out of range gives the nearest bound. Leading digits past 64 unsigned bits give the bound of the sign even when a bad character follows. Any other malformed text gives 0. The value is always 64-bit |
| Text.AtoiOverflowBeforeJunk | tasks/deploy.go:125 | Digits worth more than 2^64-1 followed by a non-digit give MaxInt64 (unsigned or `+`) or MinInt64 (`-`), with an error, not 0 |
| Text.AtoiSigned | tasks/deploy.go:125 | With overflowing leading digits, a `+` sign gives the same bound as no sign and a `-` sign gives the lower bound |
| Text.OverflowOutOfRange | tasks/deploy.go:125 | When the leading digits already overflow and the whole text is a number, that number is out of the 64-bit range |
| Text.DigitsValuePrefix | tasks/deploy.go:125 | A leading run of digits is worth no more than the whole run: the digit scan's value only grows |
| Text.LeadingOverflow | tasks/deploy.go:125 | Holds when some leading run of digits after the sign is worth more than 2^64-1, where Go's unsigned scan stops with a range error |
| Text.Clamp64 | tasks/transfer.go:58 | The nearest 64-bit value: in-range values unchanged, others the bound on their side |
| Text.Unsigned | tasks/deploy.go:125 | The text after one optional `+` or `-` sign |
| Text.Negative | tasks/deploy.go:125 | The text starts with a `-` sign |
| Text.AtoiIntToString | tasks/transfer.go:58 | A 64-bit integer survives printing and Atoi |
| Text.Int64Of | tasks/auction.go:44 | The 64-bit narrowing always lies in range and keeps an in-range value |
| ArgValues.GetValue | types/transfer/transfer.go:11-45 | The argument-value conversion: string-keyed maps converted value by value, arrays passed through, int-keyed maps rekeyed by the key's decimal text, nil as "", booleans and integers as text, strings as themselves, other values as their printed text |
| ArgValues.GetValueScalars | types/transfer/transfer.go:31-41 | nil becomes "", booleans their name, integers a decimal text that parses back to them, strings themselves |
| ArgValues.GetValueStrMap | types/transfer/transfer.go:12-19 | A string-keyed map keeps its keys, each value converted recursively |
| ArgValues.GetValueArray | types/transfer/transfer.go:20-22 | An array is passed through with its elements unconverted |
| ArgValues.GetValueIntMap | types/deployInfo/deployinfo.go:23-29 | An int-keyed map becomes a string-keyed map with one entry per key, under the key's decimal text, each value converted |
| ArgValues.KeyImage | types/transfer/transfer.go:26-28 | The keys of an int-keyed map as `fmt.Sprint` prints them |
| ArgValues.KeyImageParses | types/transfer/transfer.go:26-28 | Every printed key parses back to one of the original keys |
| ArgValues.KeyImageSize | types/transfer/transfer.go:26-28 | Printing the keys loses none of them |
| Worker.Defaults | cmd/worker.go:32-42 | The nine queues and their priority 1 when the flag is not given |
| Worker.FlagQueues | cmd/worker.go:53 | The eight names the flag accepts |
| Worker.NameAt | cmd/worker.go:53 | The queue name of the k-th pair, `queues[2k]` |
| Worker.PriorityAt | cmd/worker.go:56 | The priority text of the k-th pair, `queues[2k+1]` |
| Worker.PairsConfig | cmd/worker.go:46-61 | The pairs read in order into a fresh map, the last pair for a name winning, stopping at the first unknown name or unreadable priority |
| Worker.ConfigOf | cmd/worker.go:44-63 | The defaults without the flag; an odd-length flag is refused; otherwise the validated pairs |
| Worker.ConfigureQueues | cmd/worker.go:30-63 | The flag loop computes exactly `ConfigOf`: the defaults without the flag, else the validated pairs |
| Worker.PairsPrefixFailure | cmd/worker.go:51-61 | A failure among the first pairs is the failure of the whole flag |
| Worker.DefaultsShape | cmd/worker.go:32-42 | Nine default queues, the accepted names plus "accounts", each at priority 1 |
| Worker.PairsConfigAccepted | cmd/worker.go:51-61 | An even-length flag is accepted exactly when every name is accepted and every priority is an integer |
| Worker.PairsConfigKeys | cmd/worker.go:46-62 | An accepted flag's configuration has exactly the named queues |
| Worker.PairsConfigLastWins | cmd/worker.go:56 | A queue named more than once keeps the priority of its last pair |
| Worker.AccountsRefused | cmd/worker.go:41-54 | "accounts" is a default queue but the flag rejects it |
| Worker.FlagReplacesDefaults | cmd/worker.go:62 | A given flag replaces the defaults: only named queues remain, and never "accounts" |
| Worker.PairsConfigError | cmd/worker.go:53-60 | A rejection names a pair's unknown queue or its unreadable priority |

The members without a row are proof helpers about the model's own
definitions, not about the source: `AuctionTasks.DelegatorRowsConcat`,
`Storage.SubsetSize`, `Storage.DistinctAtMost`, `Storage.DistinctExactly`,
`Text.OccursAt`, `Text.Occurs`, `Text.SplitWhole`, `Text.SplitAfter`,
`Text.IsDigit`, `Text.AllDigits`, `Text.DigitValue`, `Text.DigitChar`,
`Text.DigitsValue`, `Text.NatToString`, `Text.NatToStringValue`,
`Text.InInt64` and `AuctionTasks.DelegatorStakesParse`.

## Left out

- The RPC client, the Postgres store and the asynq engine are not part of
  this model. They are replaced by `Chain.Endpoint`, `Storage.Store` and
  `Tasks.TaskQueue`. The store's SQL is not modelled. Inserts are taken to
  be upserts on the primary key, and each store operation fails
  independently, as given by `failing`.
- Fetch errors are one `Fetch` error. The RPC error values and the
  println/log diagnostics are not modelled.
- JSON encoding and decoding of payloads and responses are not modelled. A
  payload is `Some` or `None`. A response is its decoded value plus its raw
  text. The known-deploy path decodes through a `decode` parameter.
  `json.Marshal` of a payload cannot fail in the code. The four
  constructors the handlers call (`NewDeployRawTask`, `NewDeployInfoRawTask`,
  `NewTransferRawTask`, `NewAuctionEraTask`) are modelled as task-building
  functions (`BlockTasks.DeployTask`, `BlockTasks.DeployInfoTask`,
  `BlockTasks.TransferTask`, `BlockTasks.AuctionEraTask`). For the other four
  (`NewBlockRawTask`, `NewBlockVerifyTask`, `NewDeployKnownTask`,
  `NewAuctionTask`) only the payload shape is modelled, as a `Tasks.Payload`
  case: no handler of the model enqueues those tasks, and the queues they go
  to are chosen outside this model.
- The deploy helper methods (`GetResultAndCost`, `GetDeployMetadata`,
  `GetEvents`, `GetStoredContractHash`, `GetName`, `GetEntrypoint`,
  `GetType`, `GetWriteContract`, `GetWriteContractPackage`) are not part of
  this model. Their results are fields of `Chain.RpcDeploy`.
- The reward, account, account-hash, contract and contract-package task
  constructors are not part of this model. Each task carries the
  arguments it is given.
- ArgValues.GetValue: the float64 case (`strconv.Itoa(int(f))`) is not
  modelled, because floating point is out of scope. `fmt.Sprintf("%v")` of
  any other type is an opaque `Other(text)`.
- Tasks.TaskQueue.Enqueue, Tasks.Deliver, TransferTasks.HandleTransferRawTask:
  whether an enqueue fails is fixed per queue name for the whole handler
  call. Within one call a queue accepts all enqueues or none. A failure
  after earlier enqueues to the same queue succeeded is not modelled: for
  example, the sender's account-hash task accepted and the receiver's
  refused (tasks/transfer.go:79-91), or the k-th "deploys" enqueue of a
  block's fan-out or of the verify requeue refused after earlier ones went
  through. `HandleTransferRawTask`'s "fatal with no task enqueued" and the
  survival condition of `Deliver` and `DeliverFatal` hold under this
  abstraction.
- Concurrency, retries and at-least-once redelivery belong to the queue
  engine. Each handler is modelled as one sequential invocation.
- cmd/worker.go beyond the queue configuration (the concurrency flag,
  logging, the Redis connection and starting the server) is I/O and is not
  modelled. A `log.Fatalf` at start-up is a `ConfigFailed` value.
- Text.Int64Of, AuctionTasks.BidRowFor: the stake of a row is stated only
  for stakes within 64 bits. Outside that range only its being in range is
  stated, although the function gives the two's-complement wrap.

## Findings

| source | as written | input that shows it | evidently intended | confidence | as-written member | corrected member |
|---|---|---|---|---|---|---|
| tasks/deploy.go:74 | a single ReplaceAll pass that removes the `\u0000` escape (the same at tasks/deploy.go lines 81, 124 and 164 and tasks/transfer.go line 57) | the text `\\u0000u0000`: removing the inner `\u0000` joins the leading backslash and the trailing `u0000` into a new `\u0000` | no `\u0000` escape is left in what is stored | not executed; medium | Text.StripNulOnce (with Text.StripNulOnceLeavesEscape and DeployTasks.DeployRowKeepsEscape) | Text.StripNulEscapes |
