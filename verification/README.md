# A Dafny model of the torrent node

The node fetches blocks from peers, links them into a chain, stores them, and keeps a derived ledger. This project
models its hard cores and proves what they promise over every input, every interleaving and every run:

- **Ledger** (`BalanceInfo`, `BalanceObjects`, `BalanceAgreement`, `BalanceCodec`, `Store`, `Ledger*`, `WorkerMain`):
  each block is folded into per-address deltas and merged in one batch; delegations pass through a stack cache, the
  batch and an ordered store whose keys end in a decreasing counter. In every run of blocks, failures and restarts the
  three layers act as one stack per pair, every field of every record is what the committed transactions did to it, the
  balances agree with the stacks, money and tokens are conserved, and histories read back newest first. Exactly the
  well-formed blocks that continue the last one are committed.
- **Download protocol** (`P2P*`): a transition system over queue elements, requests in flight and task numbers; every
  interleaving of worker and caller actions is a run. Safety, what makes a server count as failed and a task end with
  an error, isolation of tasks and termination are proved, and that a whole request, from cutting to joining, returns
  the requested content as soon as each segment has one server that does not fail.
- **LZ4** (`Lz4*`, `Compress`): the encoder and the decoder on buffers, with their word-wise copies, hash tables and
  end-of-block rules, against the meaning of the LZ4 block format (LZ4 Block Format Description, "Compressed block
  format" and "Parsing restrictions"), exactly which blocks the decoder accepts, and the round trip of `compress` and
  `decompress` for all sizes.
- **Chain, timeline, prefetching** (`BlockChain`, `Chain*`, `BlocksTimeline`, `NetworkBlockSource`, `Source*`): what
  every run keeps, when a block is accepted, what a restart rebuilds, what the prefetching source hands out, and when
  it raises an error.
- **Formats** (`Bytes`, `Serialize`, `Records`, `Headers`, `TransactionRecords`, `BlockFile`, `BlockFileRuns`,
  `BlockParser`): record codecs, the append-only block file with its resumable reader, and the transaction parser with
  its random access.

Objects that the program updates in place are classes whose methods are proved against functions on values; the
properties are then lemmas about those functions. `dafny verify dfyconfig.toml` checks everything.

## Conventions

- Hashes and addresses are byte strings; SHA, address derivation and signature checks are parameters of the parser
  (`BlockParser.Crypto`). Locks and database batches make each modelled step atomic.
- 64-bit unsigned arithmetic is written out (`Wrap`); a signed 64-bit value is its bit pattern.
- An exception is a `Thrown` result or a `thrown` flag. A block whose processing throws leaves the data unchanged, but
  the numbers it drew from the counter stay drawn.
- The byte after the compressed input is the terminating zero of the string it is taken from (one decoder path reads
  it).
- Conditions of the ledger theorems, each on what the caller hands in: delegations are between 25-byte addresses
  (`RunFits`); the counter does not run out (`NewerKeyFirst` shows that the order is lost exactly then); transactions
  carry their block's number and a recipient, and merged records fit 64-bit size fields (`RunShape`); for the sums,
  delegate transactions are neither from the initial wallet nor node tests (`RunFollowed`).
- Where comments and code differ the code is followed: with a missing parent the walk of `calcBlockchain` has already
  numbered the block, so its last branch is never taken and a chain of only genesis accepts any new block as number 1.
  After a first block that does not name genesis and a second one, the node cannot start again
  (`ChainRestart.UnrootedFails`).

## Model

| member | source | states |
|---|---|---|
| `Serialize.ToBinaryStringBigEndian` | src/utils/serialize.h:30-40 | the byte loop that stops at zero writes the full-width big-endian encoding |
| `Serialize.FromBinaryStringBigEndian` | src/utils/serialize.h:43-58 | reading decodes exactly the bytes at the cursor and moves past them; too short an input moves nothing |
| `Bytes.BigEndianOrder` | src/utils/serialize.h:15-26 | numeric order and byte order of the encodings are the same order |
| `Serialize.ReadStringAt` | src/utils/serialize.h:110-123 | a length-prefixed string is read back wherever it stands, the cursor ending behind it |
| `BalanceCodec.RoundTrip` | src/blockchain_structs/BalanceInfo.cpp:231-329 | a stored balance with its token rows in any order and any of the tagged sections is read back unchanged |
| `Records.DelegateStateRoundTrip` | src/blockchain_structs/DelegateState.cpp:7-23 | round trip of the delegation record |
| `Records.MainBlockRoundTrip` | src/Workers/MainBlockInfo.cpp:7-29 | round trip of the last-block record with the counter |
| `Records.ReadFilePositionAt` | src/blockchain_structs/FilePosition.cpp:11-47 | the nested record is read back at any cursor, which ends behind it |
| `Records.AddressInfoRoundTrip` | src/blockchain_structs/AddressInfo.cpp:8-31 | round trip with the trailing field there or not |
| `Headers.HeaderRoundTrip` | src/blockchain_structs/BlockInfo.cpp:52-102 | a header is read back without its block number, all else unchanged |
| `Headers.SignHeaderRoundTrip` | src/blockchain_structs/SignBlock.cpp:12-47 | round trip of sign-block headers |
| `Headers.MetadataRoundTrip` | src/blockchain_structs/BlocksMetadata.cpp:8-31 | round trip of the chain metadata |
| `Headers.ElementRoundTrip` | src/BlocksTimeline.cpp:14-31 | round trip of the timeline variant, tagged by its index |
| `TransactionRecords.ReadPlaceAt` | src/blockchain_structs/TransactionInfo.cpp:21-37 | the position record of a transaction is read back at any cursor |
| `TransactionRecords.StatusRoundTrip` | src/blockchain_structs/TransactionInfo.cpp:70-124 | exactly the statuses that may be written are read back, through the four-way variant |
| `BalanceInfo.MovedAllNet` | src/blockchain_structs/BalanceInfo.cpp:11-29 | any sequence of receiving and spending, renormalised or not, keeps received minus spent exact modulo 2^64 |
| `BalanceInfo.MovedAllExact` | src/blockchain_structs/BalanceInfo.cpp:11-29 | while the true balance stays in 0 .. 2^64-1 the difference is exact as an integer |
| `BalanceInfo.MovedAllPlain` | src/blockchain_structs/BalanceInfo.cpp:15-29 | no renormalisation while neither total reaches 2^64-1 |
| `BalanceAgreement.DeltaAgrees` | src/blockchain_structs/BalanceInfo.cpp:44-207 | old record plus block delta has the nets, counters, forged sum, tokens and block numbers that the entries one by one give |
| `BalanceAgreement.DeltaIdentical` | src/blockchain_structs/BalanceInfo.cpp:44-207 | and is the same record field by field when no total reaches 2^64-1 |
| `BalanceObjects.BalanceElement.ReceiveValue` | src/blockchain_structs/BalanceInfo.cpp:15-21 | the in-place accumulator takes the step of the value model, renormalisation included |
| `BalanceObjects.BalanceElement.SpentValue` | src/blockchain_structs/BalanceInfo.cpp:23-29 | likewise for spending |
| `BalanceObjects.BalanceInfo.PlusWithDelegate` | src/blockchain_structs/BalanceInfo.cpp:44-78 | fails exactly when a check fails and then changes nothing; otherwise the entry on values |
| `BalanceObjects.BalanceInfo.PlusWithoutDelegate` | src/blockchain_structs/BalanceInfo.cpp:80-120 | the same, where a failed check has already counted the spending |
| `BalanceObjects.BalanceInfo.PlusAssign` | src/blockchain_structs/BalanceInfo.cpp:154-207 | merging field by field and token by token, in any token order, is the merge on values |
| `Store.LevelDb.FindFirstOf` | src/LevelDb.cpp:218-231 | the least key with the prefix that is not excluded, or nothing |
| `Store.LevelDb.FindKeyInternal` | src/LevelDb.cpp:147-161 | exactly the requested page of the ordered range |
| `LedgerStack.CounterOrder` | src/LevelDb.cpp:414-418 | within a pair the smaller counter is the smaller key: newest first |
| `LedgerStack.CacheTop` | src/Workers/WorkerMain.cpp:99-105 | the top of the block's cache is the newest outstanding delegation of the pair across all layers, and is still saved |
| `LedgerStack.InitialWalletClash` | src/LevelDb.cpp:414-418 | why the pair must be of 25-byte addresses: the shorter name of the initial wallet gives a key prefix that also begins the keys of a pair of addresses |
| `LedgerRuns.DelegateStepStack` | src/Workers/WorkerMain.cpp:81-123 | one transaction acts on cache, batch and store as on one stack per pair; no internal check of the layers can fail |
| `LedgerRuns.BlockCommit` | src/Workers/WorkerMain.cpp:385-587 | a committed block leaves each pair's stack as its transactions built it and reports what the stacks prescribe |
| `LedgerRuns.RunIsStack` | src/Workers/WorkerMain.cpp:53-68 | over every run of blocks, refusals, failures and restarts the store is, pair by pair, the stack of the committed transactions |
| `LedgerRuns.RunReports` | src/Workers/WorkerMain.cpp:87-122 | in every run each undelegate reports and removes the newest outstanding delegation, or 0 and no hash; a delegate pushes exactly when successful |
| `LedgerRuns.NewerKeyFirst` | src/utils/Counter.h:21-27 | the later key comes first exactly as long as the counter has not passed zero |
| `LedgerMeasures.EntryMeasure` | src/blockchain_structs/BalanceInfo.cpp:44-152 | every entry moves delegated out, delegated in, reserved and worth by exactly its change modulo 2^64 |
| `LedgerMeasures.PlusMeasure` | src/blockchain_structs/BalanceInfo.cpp:154-207 | merging adds every measure |
| `LedgerCommit.MergeAllMerges` | src/Workers/WorkerMain.cpp:541-554 | after the merge every address holds its old record plus its delta and the total worth grew by the deltas' worth |
| `LedgerOrder.MergeAllWrites` | src/Workers/WorkerMain.cpp:541-554 | in any order of addresses the merge throws exactly when a record cannot be read, and otherwise writes the merged record of every older one and nothing else |
| `LedgerOrder.OrderIrrelevant` | src/Workers/WorkerMain.cpp:541-562 | whatever order the parallel threads merge in, the same block is committed, or refused |
| `LedgerSums.RunAgrees` | src/Workers/WorkerMain.cpp:416-448 | at every block boundary of every run the outstanding delegations from (to) an address sum to delegate minus undelegate (delegated minus undelegated) modulo 2^64, and reserved is 0 |
| `LedgerFields.TxEffect` | src/Workers/WorkerMain.cpp:166-236 | stated on status, addresses, value, size and fee: for every address and field, all entries of a transaction together pay the recipient, charge the sender value and fee, count for both, book forging and move tokens, modulo 2^64 |
| `LedgerAccounts.RunAccounts` | src/Workers/WorkerMain.cpp:416-448 | in every run calcBalanceWithoutDelegate, the counters, the forged sum and the tokens of every address are what the committed transactions did to that address, modulo 2^64 |
| `LedgerAccounts.RunBalance` | src/blockchain_structs/BalanceInfo.cpp:44-120 | in every run the balance itself is that money without the sum of the address's outstanding delegations |
| `LedgerSeen.RunSeen` | src/blockchain_structs/BalanceInfo.cpp:80-152 | in every run the block numbers in a record are those of the last committed blocks that touched the address and its tokens |
| `LedgerChecks.RunCommits` | src/Workers/WorkerMain.cpp:402-562 | in every run a block is committed exactly when it is later than the last committed block, which the store names, continues it, has a hash, is a valid state block if it is one, and no transaction lacks a status, hash, size or place that is needed |
| `LedgerChecks.ChainCommits` | src/Workers/WorkerMain.cpp:385-587 | a chain of well-formed blocks, with any restarts between them, is committed completely |
| `LedgerConservation.TxWorth` | src/Workers/WorkerMain.cpp:416-448 | transfers, self-transfers, delegations, wrong-money and node-test transactions and tokens create or destroy nothing but issue and fees |
| `LedgerConservation.BlockMerges` | src/Workers/WorkerMain.cpp:534-562 | what a committed block leaves in every stored balance, and the total |
| `LedgerConservation.Conservation` | src/Workers/WorkerMain.cpp:541-554 | in every run the sum over all addresses of calcBalanceWithoutDelegate is issue minus real fees modulo 2^64 |
| `LedgerTokens.SupplyIs` | src/Workers/WorkerMain.cpp:181-236 | a token transaction changes all holdings together by exactly what it creates, adds or burns; moving conserves |
| `LedgerTokens.RunConservesTokens` | src/blockchain_structs/BalanceInfo.cpp:122-152 | over every run the holdings of a token by all addresses are what was created and added less what was burnt, modulo 2^64 |
| `LedgerHistory.FindAddress` | src/LevelDb.cpp:487-505 | exactly the requested page of an address's rows, or of its token rows, in store order; throws exactly when a row of the page cannot be read |
| `LedgerHistory.PagesTile` | src/LevelDb.cpp:147-161 | pages of any nonzero size tile the list, nothing missing or twice |
| `LedgerHistory.RunHistory` | src/Workers/WorkerMain.cpp:151-159 | over every run the histories read page by page are the committed transactions of the address, and the committed token transactions as often as they name it, newest first, across restarts |
| `WorkerMain.WorkerMain.Delegate` | src/Workers/WorkerMain.cpp:87-95 | the method form refines the delegation step |
| `WorkerMain.WorkerMain.Undelegate` | src/Workers/WorkerMain.cpp:96-114 | the method form refines the undelegation step: cache first, then the store without deleted keys, whatever the status |
| `WorkerMain.WorkerMain.ProcessTxs` | src/Workers/WorkerMain.cpp:411-529 | the loop over the transactions refines the fold, whose effect on each record `LedgerAccounts.RunAccounts`, `LedgerSums.RunAgrees` and `LedgerSeen.RunSeen` state |
| `WorkerMain.WorkerMain.MergeBalances` | src/Workers/WorkerMain.cpp:541-554 | the merge loop, in whatever order it is given, refines the merge of all deltas |
| `WorkerMain.WorkerMain.ProcessBlock` | src/Workers/WorkerMain.cpp:385-587 | one turn of the worker, whatever order its threads merge in, commits the whole block in one write, exactly when `LedgerChecks.RunCommits` says, or leaves the data untouched |
| `P2PQueue.QueueP2P.GetElement` | src/P2P/QueueP2P.cpp:32-62 | closed exactly for another task or a stopped queue; otherwise the last element this server has not had, moved to the front; found exactly when there is one |
| `P2PWorkers.CountTest` | src/P2P/P2PThread.cpp:83-87 | the worker's count test succeeds exactly when the queued element has failed on every server of its task |
| `P2PTheorems.StepInv` | src/P2P/P2PThread.cpp:32-104 | every action of every thread keeps the protocol invariant |
| `P2PTheorems.DispatchedOnce` | src/P2P/QueueP2P.cpp:32-62 | in every reachable state no (segment, server) pair was dispatched twice, and a queued element's servers are exactly its failed plus its in-flight ones, disjointly |
| `P2PTheorems.NothingLost` | src/P2P/P2PThread.cpp:36-88 | with nothing in a worker's hands and nothing fetchable the queue is empty |
| `P2PTheorems.ErrorMeansFailed` | src/P2P/P2P_Impl.cpp:80-91 | a task ends with an error exactly when some segment failed on every server, where failing is what `P2PErrors.ErrorsAreReports` says |
| `P2PErrors.ErrorsAreReports` | src/P2P/P2PThread.cpp:76-88 | in every run a server is among the errors of an element exactly when its request for it failed (no answer, a parse error, or in exact-size mode a wrong length) and the failure was reported while the element was queued |
| `P2PErrors.AcceptedAreSound` | src/P2P/P2P_Ips.cpp:85-99 | in every run the accepted responses of an element are exactly the sound ones parsed for it, of any length unless sizes are exact |
| `P2PErrors.ServedSucceeds` | src/P2P/P2PThread.cpp:76-88 | in every interleaving a task in which each segment has one server that never fails on it ends without an error |
| `P2PErrors.RequestSucceeds` | src/P2P/P2P_Ips.cpp:72-123 | in every interleaving such a request with truthful answers returns the requested bytes, whatever the other servers do |
| `P2PTheorems.AnswersComplete` | src/P2P/P2P_Ips.cpp:85-99 | a task that ends without an error has in every slot an accepted response of its own segment, of the exact length in exact-size mode |
| `P2PTheorems.OwnTaskOnly` | src/P2P/P2PThread.cpp:36-47 | whatever a worker holds belongs to the task its number, callbacks and server come from |
| `P2PTheorems.StaleIsHarmless` | src/P2P/QueueP2P.cpp:34-73 | a worker with another task's number is given nothing and its handle changes nothing in the queue |
| `P2PTheorems.QuietAfterDestroy` | src/P2P/ReferenceWrapper.h:68-92 | once a task's callbacks are destroyed, at no later point of the run is a worker inside one, and its answers are never written again |
| `P2PProgress.NeverStuck` | src/P2P/P2P_Impl.cpp:82 | a waiting task with a non-empty queue always has a worker that can act |
| `P2PProgress.WorkersRunOut` | src/P2P/P2P_Impl.cpp:78-83 | while the caller waits only a bounded number of worker actions can happen, in every interleaving |
| `P2PProgress.ThenTheWaitEnds` | src/P2P/QueueP2P.cpp:97-105 | when no worker can act any more the queue is empty and the wait ends |
| `P2PSegments.MakeSegments` | src/P2P/P2P_Impl.cpp:18-33 | fails exactly for no segments and for a zero step; the segments tile [0, size) in order exactly when no 64-bit sum wraps around, and then none is longer than the step but the last, none is empty exactly when (count-1)*step < size, and if none is, all but the last are an equal share or the minimum long |
| `P2PSegments.RequestNoneEmpty` | src/P2P/P2P_Ips.cpp:72-79 | the number of segments a request asks for is zero exactly for size 0 and where the 64-bit sum wraps around; otherwise no segment is empty and no boundary wraps around |
| `P2PSegments.UnitSegments` | src/P2P/P2P_Ips.cpp:75-79 | with minimum size 1 the segments are the unit intervals |
| `P2PSegments.GetServersList` | src/P2P/P2P_Ips.cpp:55-70 | each server gets the first threads of the group of its first occurrence |
| `P2PSegments.PlanIsOk` | src/P2P/P2P_Impl.cpp:71-76 | for distinct servers the threads of a plan are distinct, exist, and serve every server |
| `P2PSegments.Join` | src/P2P/P2P_Ips.cpp:113-117 | the loop concatenates the answers in order |
| `P2PSegments.ExactLength` | src/P2P/P2P_Ips.cpp:118-120 | in exact-size mode the final length check cannot fail, whatever the servers sent |
| `P2PSegments.RequestReturnsContent` | src/P2P/P2P_Ips.cpp:108-123 | with truthful servers a task whose segments tile the content and that ends without an error returns the content in every interleaving |
| `P2PRequest.HandOut` | src/P2P/P2P_Impl.cpp:71-76 | the nested loops hand the task to exactly the threads of the distribution |
| `P2PRequest.RequestImpl` | src/P2P/P2P_Ips.cpp:72-104 | for distinct servers a request fails exactly for size 0 and for a size so close to 2^64 that the number of segments wraps around to zero; otherwise there are as many segments as have the minimum size, at most one for each connection (with minimum size 1, the unit intervals); they tile the size, none is empty, all but the last are equally long; and each server gets the first threads of its group, as many as the segments need and connections allow |
| `P2PRequest.CanStart` | src/P2P/P2P_Impl.cpp:62-76 | a task made of these can be started whenever none is running |
| `P2PRequest.RequestOutcome` | src/P2P/P2P_Ips.cpp:72-123 | in every interleaving such a request ends with an error exactly when some segment failed on every server; otherwise the joined answers are the requested bytes if the servers told the truth, and in exact-size mode have the requested length in any case; when it cannot end with an error is `P2PErrors.RequestSucceeds` |
| `Lz4Format.RepeatIsCopy` | 3rdParty/ubuntu14/lz4/lz4.c:1208-1235 | bytes that repeat with a period are exactly the overlapping copy |
| `Lz4Format.DecodeEncode` | 3rdParty/ubuntu14/lz4/lz4.c:1126-1247 | reading undoes writing for every well formed block, and the end-of-block checks never refuse one |
| `Lz4Format.DecodesExactly` | 3rdParty/ubuntu14/lz4/lz4.c:1126-1247 | a block is accepted exactly when it is written as sequences that are readable within the buffer and last literals, and then read as what they mean; everything else is refused |
| `Lz4Decoder.CopyInPlace` | 3rdParty/ubuntu14/lz4/lz4.c:1208-1235 | the 8-byte copies with their offset tables and end cases produce the byte-by-byte overlapping copy, for every offset and length |
| `Lz4Decoder.DecompressSafe` | 3rdParty/ubuntu14/lz4/lz4.c:1088-1247 | on every input: negative exactly when the block is unreadable, otherwise the buffer starts with what the block means; all accesses in bounds |
| `Lz4Encoder.FindMatch` | 3rdParty/ubuntu14/lz4/lz4.c:518-545 | the match of the first try that hits: the last earlier position with the hash, within 65535, that agrees in 4 bytes; nothing is found only if no try within reach hits |
| `Lz4Encoder.Count` | 3rdParty/ubuntu14/lz4/lz4.c:350-365 | word steps and 4/2/1 tail give the longest common run |
| `Lz4Encoder.PutExtension4` | 3rdParty/ubuntu14/lz4/lz4.c:596-602 | the 4-byte writes leave the same length bytes as the format asks for |
| `Lz4Encoder.CompressGeneric` | 3rdParty/ubuntu14/lz4/lz4.c:458-655 | for every input up to the maximum: a well formed block that means the input, of at most n + n/255 + 16 bytes, and n/255 + 11 for one byte repeated, overshooting writes in bounds |
| `Compress.CompressValue` | src/utils/compress.cpp:34-63 | the size and a well formed block for the part of the value that the 32-bit size covers; nothing for unsupported sizes |
| `Compress.DecompressValue` | src/utils/compress.cpp:80-116 | what the block behind the size means, or a buffer of the announced size if it is unreadable |
| `Compress.RoundTrip` | src/utils/compress.cpp:106-116 | decompress(compress(s)) == s exactly for |s| <= 0x7E000000; otherwise what the truncated size covers comes back |
| `Compress.CompressAndBack` | src/utils/compress.cpp:106-116 | the same for the two methods |
| `BlockChain.BlockChain.WalkBack` | src/BlockChain.cpp:44-59 | the walk numbers blocks temporarily and ends, since each step leaves fewer unnumbered ones; a missing parent stops it at a numbered block |
| `BlockChain.BlockChain.CalcBlockchain` | src/BlockChain.cpp:40-83 | the method form refines the walk and the final numbering, giving up at the first number that does not extend the index |
| `BlockChain.BlockChain.AddNew` | src/BlockChain.cpp:85-101 | the method form refines adding, numbering and removing again |
| `BlockChain.BlockChain.GetBlock` | src/BlockChain.cpp:122-133 | the indexed header, or none |
| `ChainRuns.AddStep` | src/BlockChain.cpp:24-101 | accepted exactly when the block extends the tip or there is only genesis; otherwise the chain view is unchanged, except that a state block raises the last state number |
| `ChainRuns.RunLinked` | src/BlockChain.cpp:24-101 | over every run of unnumbered headers map and index stay a bijection, blocks from 2 on name their predecessor, and what is indexed stays |
| `ChainRestart.AcceptKeeps` | src/SyncImpl.cpp:151-174 | a new block keeps records and metadata in step with the chain, except exactly an accepted one whose incomplete header is not written, or one stored with a greater hash behind a first block that names itself |
| `ChainRestart.CompetingBlocks` | src/SyncImpl.cpp:157-169 | of two blocks on one new parent the metadata keep the smaller hash, in either order |
| `ChainRestart.RestartRebuilds` | src/SyncImpl.cpp:203-222 | loading the records in any order and numbering from the metadata hash succeeds exactly when there are at most two indexed blocks or block 1 names genesis or the newest block; it then rebuilds map, index and numbers and leaves no header unnumbered |
| `ChainRestart.RunRestarts` | src/SyncImpl.cpp:187-227 | in every run of new blocks and restarts in which each accepted block is stored as the newest, a restart succeeds exactly under that condition, and a successful one gives the chain back |
| `ChainRestart.RootedRunRestarts` | src/SyncImpl.cpp:187-227 | in every run of complete headers whose first block names genesis, every restart succeeds and gives the chain back |
| `ChainRestart.UnrootedFails` | src/SyncImpl.cpp:203-217 | a first block that names neither genesis nor what follows and a second one on it are both accepted and stored, and every later start-up throws |
| `ChainRestart.UnrootedExample` | src/BlockChain.cpp:40-83 | two concrete headers with which this happens |
| `ChainRestart.SyncImpl.ProcessBlock` | src/SyncImpl.cpp:407-440 | the accept step: an accepted block with a complete header is stored, another is not |
| `ChainRestart.SyncImpl.SaveBlock` | src/SyncImpl.cpp:151-174 | throws exactly for an incomplete header; otherwise record and metadata, the smaller of two hashes on one parent |
| `ChainRestart.SyncImpl.Initialize` | src/SyncImpl.cpp:203-222 | the start-up loop refines clear, load and number |
| `BlocksTimeline.AddKeeps` | src/BlocksTimeline.cpp:61-95 | an addition succeeds exactly for a new, writable element, is stored under its position, and keeps both indices exact |
| `BlocksTimeline.RebuildSame` | src/BlocksTimeline.cpp:33-54 | reading the stored records back gives the same list, hash index and first-signature index |
| `BlocksTimeline.BetweenIs` | src/BlocksTimeline.cpp:112-164 | what stands between two positions with only sign blocks in between is returned for both ends; for the first alone up to the next simple block or the end; for the second alone back to a simple block or the first element |
| `BlocksTimeline.BetweenFails` | src/BlocksTimeline.cpp:112-164 | a query fails exactly when no end is given, a given one is unknown, or a simple block stands between the two |
| `BlocksTimeline.BetweenAgrees` | src/BlocksTimeline.cpp:112-164 | for consecutive simple blocks the three queries succeed and return exactly the sign blocks between them |
| `BlocksTimeline.LeadingSignsShort` | src/BlocksTimeline.cpp:125-138 | sign blocks before the first simple block are found without the first of them |
| `BlocksTimeline.BlocksTimeline.AddElement` | src/BlocksTimeline.cpp:61-95 | the method form refines the addition |
| `BlocksTimeline.BlocksTimeline.Deserialize` | src/BlocksTimeline.cpp:33-54 | the loop refines the rebuilding |
| `BlocksTimeline.BlocksTimeline.FindSignForBlock` | src/BlocksTimeline.cpp:97-110 | the first sign block on the parent, none exactly when there is none |
| `BlocksTimeline.BlocksTimeline.GetSignaturesBetween` | src/BlocksTimeline.cpp:112-164 | the iterator loops refine the query |
| `NetworkBlockSource.NetworkBlockSource.ProcessAdditingBlocks` | src/BlockSource/NetworkBlockSource.cpp:85-112 | each unknown hash once, entered at its key |
| `NetworkBlockSource.NetworkBlockSource.Next` | src/BlockSource/NetworkBlockSource.cpp:161-243 | one call refines handing out, refilling and ending; a simple or sign block that could not be fetched or parsed raises its error when its turn comes; exactly when a call fails is `SourceErrors.RunErrs` |
| `SourceRuns.RefillGood` | src/BlockSource/NetworkBlockSource.cpp:192-233 | a batch is in key order, holds the next simple blocks once each, and only new sign blocks, once each |
| `SourceRuns.RunDelivers` | src/BlockSource/NetworkBlockSource.cpp:46-243 | every error-free run hands out simple blocks c+1 .. last once each in order, sign blocks at most once and never a known one, each in its place around its block; which runs are free of errors is `SourceErrors.RunErrs` and `SourceErrors.GoodEnds` |
| `SourceRuns.RunFaithfulToServers` | src/BlockSource/NetworkBlockSource.cpp:85-243 | in every error-free run each simple block is the one a server named for its number, each sign block stands in a server's list for its place, each failed exactly if the answers said so, and no sign block that answers name, or that follows an already known last block, is dropped unless the timeline had it |
| `SourceErrors.RunErrs` | src/BlockSource/NetworkBlockSource.cpp:161-243 | in every run a call fails exactly when the item at the cursor has failed, which its answers had said, or new answers are incomplete or of the wrong count or numbers, or the first new item, the least new sign block before the first block or else that block, is broken or failed |
| `SourceErrors.NeverErrs` | src/BlockSource/NetworkBlockSource.cpp:161-243 | with good answers no call of any run fails |
| `SourceErrors.GoodEnds` | src/BlockSource/NetworkBlockSource.cpp:161-243 | from any point of any run, servers with good answers lead to the end without an error |
| `SourceErrors.GoodRunDelivers` | src/BlockSource/NetworkBlockSource.cpp:46-243 | from every start, servers with good answers are read to the end: all missing blocks in order and every new sign block they name |
| `BlockFile.ReadBlock` | src/BlockchainRead.cpp:566-576 | reading at a block's position gives it and the next position, whatever was appended since |
| `BlockFile.ReadPart` | src/BlockchainRead.cpp:618-648 | any part of any block of a file is read as that part, cut off at the block's end, whatever was appended since |
| `BlockFile.TornTail` | src/BlockchainRead.cpp:618-648 | a torn last record, of any length, makes no progress |
| `BlockFile.ConfirmedIsNext` | src/blockchain_structs/BlockInfo.cpp:47-50 | the confirmed end position of a block is the position of the next |
| `BlockFile.ReadAll` | src/BlockSource/FileBlockSource.cpp:36-106 | from any confirmed position the reader yields exactly the remaining blocks in order and stops before a torn tail |
| `BlockFileRuns.NoLossNoRepeat` | src/BlockSource/FileBlockSource.cpp:36-106 | in every run of writes, torn writes, reads, confirmations and restarts the confirmed and then the pending blocks are the first blocks of the file, each once and in order, and a read makes no progress exactly when none is left |
| `BlockFileRuns.ResumesExactly` | src/BlockSource/FileBlockSource.cpp:28-58 | after a restart at any point of any run, reading on hands out exactly the unconfirmed blocks and ends with the whole file |
| `BlockFileRuns.ReadStep` | src/BlockchainRead.cpp:618-648 | at any point of a run a call hands out the next complete block, or nothing exactly when there is none |
| `BlockFileRuns.FileBlockSource.Process` | src/BlockSource/FileBlockSource.cpp:36-92 | the method form refines the reading step |
| `BlockFileRuns.FileBlockSource.ConfirmBlock` | src/BlockSource/FileBlockSource.cpp:94-103 | the stored end position of the last block is where the next one starts |
| `BlockParser.VarIntPrefix` | src/BlockchainRead.cpp:87-102 | a variable-length number depends on its own bytes only, at most nine |
| `BlockParser.ReadTxs` | src/BlockchainRead.cpp:479-511 | the parsing loop ends by cursor progress and refines the recursive reader |
| `BlockParser.ReadBlockTxs` | src/BlockchainRead.cpp:469-523 | transactions, counts and signature of a block |
| `BlockParser.ReadsWritten` | src/BlockchainRead.cpp:222-438 | a transaction written field by field in the format is read as what it means, sender included, and reading goes on right behind it; it is refused exactly when its key has no address or a checked signature is wrong |
| `BlockParser.ReadsAll` | src/BlockchainRead.cpp:485-511 | any list of written transactions is read back in order, and refused exactly when one of them is not valid |
| `BlockParser.BlockReads` | src/BlockchainRead.cpp:469-511 | a written block is accepted exactly when its header names the hash of its transactions and all are valid, and then has exactly these |
| `BlockParser.SignaturesAre` | src/BlockchainRead.cpp:163-168 | in every accepted block a transaction is flagged exactly when it and all before it send nothing to themselves and all but the first repeat the first one's non-empty data; the block's signature is the first one's data exactly when that one sends nothing to itself |
| `BlockParser.SignaturesLead` | src/BlockchainRead.cpp:163-168 | in every accepted block countSignTx is the length of that prefix, and countTxs that of the list |
| `BlockParser.ReparseSignatures` | src/BlockchainRead.cpp:498-515 | re-parsing with that count returns exactly the flagged transactions, those that `BlockParser.SignaturesAre` describes |
| `BlockParser.RandomAccess` | src/BlockchainRead.cpp:449-467 | reading at the recorded position gives the transaction that parsing the block gave |
| `BlockParser.FileAccess` | src/SyncImpl.cpp:123-137 | the same in a file written by appending, whatever is appended later |

## Left out

- HTTP, JSON, curl, event loop, configuration, logging and file-system calls.
- Signatures, hashing and address derivation, which are foreign code.
- The script worker and the parsing of node-test, delegate, script and token JSON in transactions: the ledger takes
  the parsed fields as input.
- LedgerRuns.RunIsStack: delegations sent by the initial wallet, whose name is shorter than an address;
  `InitialWalletClash` shows that its key prefixes can overlap those of other pairs.
- LedgerRuns.RunReports: the same.
- WorkerMain.WorkerMain.ProcessTxs: rows of the batch that no theorem reads, which are transaction rows, of which only
  the check is modelled, status rows and token entities (their supply is not kept for lookup within a block).
- WorkerMain.WorkerMain.ProcessBlock: forging sums and the common balance; a state block's validation is one boolean
  of the block.
- Address histories filtered by status or kind: their pages are cut after the cursor has advanced.
- The worker threads' stop signals, timeouts and condition-variable wake-ups: an action is enabled as soon as its
  condition holds.
- A callback that throws while it builds a request, which ends its worker thread.
- P2PRequest.RequestImpl: repeated servers, an empty list of them, and a minimum size of 0, by which the source
  divides.
- Lz4Encoder.CompressGeneric: the number of common bytes of two words is taken by its meaning, not by the bit-scan
  instruction; streaming, dictionary, limited-output and fast variants are not reached from compress.
- Compress.DecompressValue: values of 2 GiB and more handed to decompress, whose size does not fit the decoder's int.
- ChainRuns.AddStep: headers that come with a number already set, and side-branch headers left unnumbered in the map.
- ChainRestart.RestartRebuilds: the last state block number, which refused state blocks may have raised before the
  restart.
- ChainRestart.RunRestarts: what follows a block that got into the chain but not, or not as the newest, into the
  store.
- ChainRestart.SyncImpl.ProcessBlock: the block file, the timeline and the workers, which have modules of their own;
  the search for a common ancestor after a refused block.
- ChainRestart.SyncImpl.Initialize: the comparison of modules and version, and the loading of the timeline, which is
  `BlocksTimeline.Deserialize`.
- BlocksTimeline.BlocksTimeline.GetSignaturesBetween: a first block at or after the second, for which the iterators of
  the source run past the end.
- NetworkBlockSource.NetworkBlockSource.Next: hashes are taken in one spelling of their hex form, a prefetched block
  is of the kind it was asked for, and the state after an error is not described, since the caller starts over.
- BlockFile.ReadAll: which file is opened next when there are several.
- BlockFileRuns.NoLossNoRepeat: several files, and a writer that gives up a torn record and appends behind it.
- BlockParser.ReadBlockTxs: starting at a later transaction of a block; a data size beyond the end of the transaction
  is an error here, while the source copies first and fails at the next field.
- Serialize.ReadStringAt: a size prefix so large that the cursor wraps around 2^64.
- BalanceCodec.RoundTrip: the token map is walked in some order that lists every token once, as an unordered map does.
- Finding a common ancestor after a fork and cutting the files back.
