# Verified models of an Opera/Lachesis node

This project models parts of a Go blockchain node and proves properties of the models with Dafny:

* the topics index and its concurrent log search (`Log*.dfy`, `Barrier.dfy`): the byte layout of the tables, one thread per
  (position, variant) of a pattern, the block barrier that keeps the threads in step, and the pool that splits wide patterns;
* the transaction pool (`Tx*.dfy`, `Pool*.dfy`, `AccountList.dfy`, `Heaps.dfy`): the nonce-sorted lists, the two-heap price
  list, the lookup, the locked operations up to the background reorganization with its limits (`PoolRuns.dfy` says what
  such a run may lose, and `PoolBeats.dfy` what it does to heartbeats), and the pool together with its price list
  (`PoolPrices.dfy`);
* LLR voting (`VoteStore.dfy`, `LlrVoting.dfy`, `LlrService.dfy`): the write-back vote cache, quorum decisions, the indices
  of the lowest undecided and unfilled records;
* the weighted selection structures (`RandSelect.dfy`, `WeightedShuffle.dfy`);
* consensus arithmetic (`VectorClock.dfy`, `MedianTime.dfy`, `GasPower.dfy`) and the memoised ancestor hash (`HashFn.dfy`).

`Collections.dfy`, `MapSum.dfy` and `Sorting.dfy` hold what the parts share. Run `dafny verify dfyconfig.toml`, with
`--resource-limit 2000000 --verification-time-limit 0`.

How to read the parts:

* *Log search.* A state of the search is the barrier, the shared counters and one program counter per thread; a step is one
  lock region of one thread, in the order of the source. `LogSearchTheorems` holds the results over all runs, and
  `LogPattern` and `LogSplit` connect them with the naive filter over the pushed logs.
* *Pool.* Within an operation, transactions taken out of one list and not yet stored in another are "on their way" (a ghost
  set); between operations there are none. `Settled()` then says that the lookup is the disjoint union of the pending and the
  queued transactions, that the two lists of an account share no nonce, that no list is empty, that lists respect their caps
  and are of the right strictness, that the slot counter is the sum over the lookup, and that no transaction of a local
  account is held as a remote one. The lists inside the pool are values (`TxLists`); the class `AccountList` shows that the
  heap, map and cache of the source do exactly what those values say.
* *LLR.* A vote is counted for a key (block, epoch, record hash); `Counted` is what counting means on a plain map, and the
  cached store refines it whatever is evicted. `Ballot` serves epoch votes and block votes, which the source treats alike. A
  `Book` is the tallies together with who voted; a tally is *right* for a group if it is what the distinct voters weigh
  there. Epoch votes are weighed by the validators of the epoch before, so that their tallies are always right. Block votes
  are weighed by the group of the epoch the event was signed in, which may be later than the one voted for
  (`eventcheck/basiccheck/basic_check.go:255-261`): those tallies are right just as long as the groups agree on the signers.

Where the code and its comments disagree, the model follows the code: `truncateQueue` is documented as dropping the oldest
transactions, but it starts with the accounts of the latest heartbeat (`evmcore/tx_pool.go:1488-1501`).

Properties that do not hold without a condition are stated with it:

* filtering is sound if and only if the caps bound all entries (`TxLists.FilterNeedsCaps`);
* adding to a contiguous list keeps it contiguous if and only if the nonce is known or next to a known one
  (`TxLists.ContiguousAdd`);
* block votes keep the tallies of their epoch right if and only if each is a good one, for first votes if and only if the
  group of the signing epoch and that of the epoch agree on the signer's index and weight (`LlrVoting.EachRight`,
  `LlrVoting.FirstVotes`, `LlrService.Service.ProcessBlockVotes`); `LlrService.MixedGroupsMiscount` runs the service into a
  tally that is right for neither group;
* the median is that of the honest validators from an honest weight of 2 on; below, if and only if an honest claim is the
  earliest of all, and with no honest validator, if and only if nothing or 0 is claimed (`MedianTimes.CheatersDoNotMatter`,
  `MedianTimes.CheatersMayMatter`, `MedianTimes.CheaterDecides`);
* a pattern of more than six positions is cut without notice, and then the search delivers what its first six select, where
  no log matches the whole of it (`LogPattern.LimitedMatches`);
* a transaction that is refused as a replacement leaves the pool as it was if and only if nothing known had to make room for
  it (`TxPoolOps.TxPool.Add`);
* a log that overwrites another one with its identifier leaves the index right if and only if each index entry of the old one
  is one of the new (`LogIndex.Index.PushOne`).

## Model

| member | source | states |
|---|---|---|
| `LogKeys.BigEndianRoundTrip` | `topicsdb/key.go:66-72` | fixed-width big-endian numbers are read back |
| `LogKeys.BigEndianOrder` | `topicsdb/key.go:66-68` | byte order of big-endian numbers is numeric order, both ways |
| `LogKeys.IdRoundTrip` | `topicsdb/key.go:23-46` | the accessors of a log identifier return what it was made of |
| `LogKeys.TopicKeyRoundTrip` | `topicsdb/key.go:48-81` | the identifier is recovered from a topic key, which has a (hash, position) prefix only if it was made with them |
| `LogKeys.TopicKeyOrder` | `topicsdb/key.go:48-56` | keys under one prefix come in block order, and those from a start block on are just those at or after the start key |
| `LogIndex.IndexKeyDeterminesId` | `topicsdb/index.go:110-131` | two logs that share an index key share their identifier |
| `LogIndex.Index.Push` | `topicsdb/index.go:89-136` | each log is stored under its identifier, the last one pushed if there are several, up to the first with more than five topics, which is reported; the index has the key of its padded address at position 0 and of its topic `i` at position `i + 1`, and is right afterwards just when it has no entry left of an overwritten log |
| `LogIndex.Index.PushOne` | `topicsdb/index.go:90-133` | one record and all its index entries are written; the tables represent the logs just when the new one covers the one it overwrites, if any |
| `LogIndex.FieldIs` | `topicsdb/index.go:110-131` | what is indexed at a position is the address behind twelve zero bytes at 0, and then the topics in order |
| `LogIndex.IndexKeyIs` | `topicsdb/index.go:110-131` | the entries written for a log are just the keys of what stands at its positions, with its topic count |
| `LogIndex.AddAllWithin` | `topicsdb/index.go:89-136` | when an identifier never names two logs, nothing is overwritten and no entry is left over |
| `LogIndex.Fetch` | `topicsdb/record.go:28-62` | reading a record back gives the pushed log |
| `LogIndex.ScanMeaning` | `topicsdb/search_parallel.go:104-121` | one index scan reads exactly the logs with that field from the start block on, once each, in block order, with their topic counts |
| `Barrier.Synchronizator.StartThread` | `topicsdb/sync.go:73-86` | a thread is added to its position and to the first block |
| `Barrier.Synchronizator.Announce` | `topicsdb/sync.go:58-64` | announcing a later block moves the thread to it and opens the next least block when the old one is empty |
| `Barrier.Synchronizator.FinishThread` | `topicsdb/sync.go:88-96` | a finished thread leaves its position and the least block |
| `Barrier.Synchronizator.EnqueueBlock` | `topicsdb/sync.go:98-107` | the block is counted, with a fresh channel if it is new |
| `Barrier.Synchronizator.DequeueBlock` | `topicsdb/sync.go:109-133` | the least block is counted down; when empty it is removed, the search gives up if a position has no thread, and the next block is opened |
| `Barrier.Synchronizator.FindMinBlock` | `topicsdb/sync.go:124-130` | the least counted block is found |
| `Barrier.Synchronizator.CheckPositions` | `topicsdb/sync.go:113-118` | the search goes on unless some position has no thread left |
| `LogSearch.Aggregator.Match` | `topicsdb/search_parallel.go:50-69` | the counter of the record grows by one, after the counters of the block just left have been dropped |
| `LogSearchTheorems.InitInv` | `topicsdb/search_parallel.go:81-97` | the invariant holds when all threads have been started |
| `LogSearchTheorems.StepKeepsInv` | `topicsdb/sync.go:53-133` | no enabled step panics (missing counter, channel closed twice), and each keeps the invariant: every unfinished thread is counted in one block, minBlock is the least counted one, waiters wait on their block's open channel |
| `LogSearchTheorems.NoDeadlock` | `topicsdb/sync.go:53-133` | in every state with the invariant some thread can step until all are done |
| `LogSearchTheorems.GivesUpOnlyWhenGone` | `topicsdb/sync.go:113-118` | the search gives up only when some position has no thread left |
| `LogSearchTheorems.StepUsesWork` | `topicsdb/search_parallel.go:104-121` | every step uses up work, so that each run ends |
| `LogSearchTheorems.RunInv` | `topicsdb/search_parallel.go:12-121` | the invariant holds after every run, whose length is bounded by the initial work |
| `LogSearchTheorems.EveryRunIsSafe` | `topicsdb/search_parallel.go:12-121` | in every run no enabled thread panics, and what is delivered is distinct, in block order and wanted by every position |
| `LogSearchTheorems.SearchIsExact` | `topicsdb/search_parallel.go:12-121` | once all threads have signed off, exactly what every position wants has been delivered, for every interleaving |
| `LogSearchTheorems.StuckMeansEnded` | `topicsdb/search_parallel.go:99-101` | a run that cannot go on has all threads done, and the caller's wait is over |
| `LogSearchSafety.PositionGoneEnds` | `topicsdb/sync.go:109-133` | when a block empties and a position has no thread left, nothing can match any more |
| `LogPattern.UniqOnly` | `topicsdb/topicsdb.go:65-76` | each hash once, none lost or added |
| `LogPattern.LimitPattern` | `topicsdb/topicsdb.go:42-63` | the first positions with each variant once; says whether all are empty |
| `LogPattern.EverywhereIsMatching` | `topicsdb/search_parallel.go:35-46` | what every position wants is what the naive filter selects |
| `LogPattern.SearchIsFilter` | `topicsdb/search_parallel.go:12-121` | the concurrent search delivers exactly the logs of the block range with at least the pattern's number of topics less one that match every non-empty position, each once and in block order |
| `LogPattern.LimitedMatches` | `topicsdb/topicsdb.go:42-63` | up to six positions the limited pattern selects the same logs; of a longer one it selects what the first six positions do, although no log matches the whole |
| `LogPattern.RequestIsAnswered` | `topicsdb/index.go:62-91` | from the caller's pattern, whatever the interleaving, exactly the logs in the block range are delivered, each once and in block order, whose padded address and topics are accepted at the non-empty ones of its first six positions |
| `LogSplit.Widest` | `topicsdb/thread_pool.go:58-67` | the first of the widest positions, and how many threads the others take |
| `LogSplit.TakePiece` | `topicsdb/thread_pool.go:73-90` | a piece of the widest position that fits the granted slots, as large as they allow |
| `LogSplit.Split` | `topicsdb/thread_pool.go:58-98` | the pieces are the widest position cut up, each within its grant; a pattern whose other positions exceed the capacity is refused |
| `LogSplit.PiecesAnswer` | `topicsdb/thread_pool.go:73-95` | the answers to the pieces together answer the pattern with all pieces |
| `LogSplit.SplitIsFilter` | `topicsdb/thread_pool.go:73-97` | the split search delivers the same set as the naive filter, each log once |
| `LogSplit.SplitRequestIsAnswered` | `topicsdb/thread_pool.go:34-98` | the same through the searches for all pieces: what they deliver together is what the caller's pattern selects, each log once |
| `VoteStore.NewBitmap` | `utils/bitmap/bitset.go:5-11` | a new bitmap has room for all validators and none of them |
| `VoteStore.PutHas` | `utils/bitmap/bitset.go:13-28` | setting a bit adds just that validator |
| `VoteStore.TallyRoundTrip` | `gossip/store_llr_block.go:48-63` | a stored weight and bitmap are read back |
| `VoteStore.Votes.GetVoteWeight` | `gossip/store_llr_block.go:38-56` | reads what was counted, cached or stored, whatever the cache evicts |
| `VoteStore.Votes.AddVoteWeight` | `gossip/store_llr_block.go:70-88` | counting a vote is counting it in a plain map: a validator adds its weight at most once per key, and no vote is lost; the only demand is that the index fits the bitmap, where the source would panic |
| `VoteStore.Votes.FlushMutated` | `gossip/store_llr_block.go:249-259` | writing all changed entries changes no vote and leaves none marked |
| `VoteStore.Votes.Evict` | `gossip/store_llr_block.go:237-247` | dropping a cached entry loses no vote, and writes nothing if it was written already |
| `VoteStore.Votes.CacheAdd` | `gossip/store_llr_block.go:268-270` | the added entry is what readers see, whatever is evicted, and only what is evicted leaves the cache |
| `LlrVoting.QuorumNeedsOutsiders` | `gossip/c_llr_callbacks.go:174-187` | no coalition of at most a third of the weight reaches the quorum alone |
| `LlrVoting.CountedRight` | `gossip/store_llr_block.go:70-88` | a tally stays right for a group, whatever group the vote was weighed by, if and only if the groups agree on the index and weight of a new voter, or the bit of a known one is set |
| `LlrVoting.RightVote` | `gossip/c_llr_callbacks.go:33-46` | the same for the key of a vote, old or new, in the whole book |
| `LlrVoting.ActualizeLowestIndex` | `gossip/c_llr_callbacks.go:23-31` | from the updated index on, the first that does not exist; otherwise unchanged; terminates |
| `LlrVoting.LowestActualized` | `gossip/c_llr_callbacks.go:23-31` | everything below the lowest index exists and the index itself does not |
| `LlrVoting.VoteStep` | `gossip/c_llr_callbacks.go:174-187` | with right tallies and just the quorums decided before, this holds after a counted and decided vote if and only if the vote is good and the quorum it was measured by gives the answer of the epoch's group |
| `LlrVoting.AlikeKeeps` | `gossip/c_llr_callbacks.go:33-46` | in particular when the groups agree on the signer and have the same quorum |
| `LlrVoting.EachRight` | `gossip/c_llr_callbacks.go:61-78` | the votes of an event keep all tallies of their epoch right if and only if each of them is good |
| `LlrVoting.FirstVotes` | `gossip/c_llr_callbacks.go:61-78` | the first votes of a signer do so if and only if both groups give it the same index and weight |
| `LlrVoting.MoreGroups` | `gossip/c_llr_callbacks.go:237-241` | learning of another epoch's validators changes neither tallies nor decisions |
| `LlrVoting.DecidedByVoters` | `gossip/c_llr_callbacks.go:174-187` | a decided index was voted for by distinct members weighing at least a third plus one, so by no coalition of a third alone |
| `LlrVoting.DecidedIff` | `gossip/c_llr_callbacks.go:174-187` | an index is decided if and only if the voters of one of its keys weigh more than a third of what all members weigh |
| `LlrVoting.Ballot.Process` | `gossip/c_llr_callbacks.go:174-187` | counts one vote with its weight in the signer's group, whichever that is, and decides when that group's quorum is reached |
| `LlrVoting.Ballot.RecordWinner` | `gossip/c_llr_callbacks.go:36-44` | the first winner is stored, and the lowest undecided index moves past all decided ones |
| `LlrVoting.Ballot.ProcessBlock` | `gossip/c_llr_callbacks.go:33-46` | a block vote decides at most its own block, for its own hash |
| `LlrVoting.Ballot.ProcessEach` | `gossip/c_llr_callbacks.go:72-78` | each vote of an event is counted for its own key and no other changes; decided blocks stay as they are, and an open one is decided only for the hash voted for; with alike groups tallies and decisions stay right |
| `LlrService.Service.ProcessEpochVote` | `gossip/c_llr_callbacks.go:189-225` | the four ways an epoch vote is refused, each under its condition, then without effect; an accepted one is counted with its creator's weight, decides its epoch if that makes a quorum, changes nothing decided, and becomes its creator's last vote if it is later; all tallies stay right and all full records those of decided hashes |
| `LlrService.Service.ProcessBlockVotes` | `gossip/c_llr_callbacks.go:48-89` | the four ways block votes are refused, then without effect; each accepted one is counted and changes nothing decided; first votes keep the tallies right if and only if the group signed with and that of the epoch agree on the signer, and alike groups keep tallies and decisions right |
| `LlrService.Service.DecidedByMembers` | `gossip/c_llr_callbacks.go:174-225` | in every state of the service, a decided epoch was voted for by distinct members of the group of the epoch before, with at least a third of its weight plus one, so by no coalition of a third alone |
| `LlrService.Service.EpochDecidedIff` | `gossip/c_llr_callbacks.go:174-187` | in every state of the service, an epoch is decided if and only if more than a third of the group of the epoch before, by weight, voted for one record |
| `LlrService.Service.BlockDecidedIff` | `gossip/c_llr_callbacks.go:33-46` | the same for blocks and the group of the votes' epoch, as long as the tallies are right |
| `LlrService.Service.BlockDecidedByMembers` | `gossip/c_llr_callbacks.go:33-46` | the same for a decided block and the group of its epoch, as long as its tallies are right |
| `LlrService.Service.WriteEpochRecord` | `gossip/c_llr_callbacks.go:252-269` | an epoch record is written only if it is new, decided, and has the decided hash; every record written so keeps the hash decided for it through all later operations (`Valid()`), and every tally stays right |
| `LlrService.Service.WriteBlockRecord` | `gossip/c_llr_callbacks.go:141-157` | the same for block records |
| `LlrService.Service.StoreEpochState` | `gossip/c_block_callbacks.go:390-399` | what block processing stores itself: tallies and decisions stay right, the other full records theirs |
| `LlrService.Service.StoreBlock` | `gossip/c_block_callbacks.go:394-398` | the same for the blocks it has executed |
| `LlrService.Service.UpdateLowestEpochToFill` | `gossip/c_llr_callbacks.go:287-293` | with no write in flight, every epoch below the index has a record and the index has none |
| `LlrService.Service.UpdateLowestBlockToFill` | `gossip/c_llr_callbacks.go:279-285` | the same for blocks |
| `LlrService.Fill.Update` | `gossip/c_llr_callbacks.go:279-293` | the index moves past every record, including those that arrive while it is moved |
| `LlrService.MixedGroupsMiscount` | `gossip/c_llr_callbacks.go:61-78` | two accepted events, signed in epochs of different groups and voting for one block and epoch, make a tally that is neither group's weight of the two voters |
| `TxLists.FilterIsNaive` | `evmcore/tx_list.go:330-358` | with valid caps the short circuit is sound: what costs too much is removed, what it strands is invalid, and the rest remains |
| `TxLists.ReplacesIs` | `evmcore/tx_list.go:279-300` | in whole numbers, when a transaction replaces another: both caps higher, and short of the bumped ones by less than one unit |
| `TxLists.FilterNeedsCaps` | `evmcore/tx_list.go:330-335` | the short circuit is sound for all limits just when the caps bound every entry |
| `TxLists.CapsKept` | `evmcore/tx_list.go:279-388` | adding, forwarding and removing keep the caps valid |
| `TxLists.ContiguousKept` | `evmcore/tx_list.go:317-388` | a contiguous strict list stays contiguous when forwarded, filtered or shortened by a removal |
| `TxLists.ContiguousCapped` | `evmcore/tx_list.go:363-365` | and when capped |
| `TxLists.ContiguousAdd` | `evmcore/tx_list.go:279-312` | adding keeps it contiguous just when the nonce is known or next to a known one |
| `TxLists.RunIsMaximal` | `evmcore/tx_list.go:194-209` | a ready run holds exactly the nonces reached without a gap |
| `TxLists.NothingReadyLeft` | `evmcore/tx_list.go:194-209` | after taking what is ready, everything left lies beyond the next nonce |
| `TxLists.Ready` | `evmcore/tx_list.go:194-209` | takes out the maximal run from the lowest nonce, unless it lies ahead of the start |
| `TxLists.Cap` | `evmcore/tx_list.go:143-164` | keeps the lowest nonces |
| `TxLists.Filter` | `evmcore/tx_list.go:330-358` | splits a list into removed, invalid and remaining |
| `Heaps.FirstIsLeast` | `evmcore/tx_list.go:84-97` | the first element of a heap is a least one |
| `Heaps.Pop` | `evmcore/tx_list.go:38-48` | takes a least element out and leaves a heap of the others |
| `Heaps.RemoveAt` | `evmcore/tx_list.go:168-186` | takes any element out and leaves a heap of the others |
| `Heaps.Init` | `evmcore/tx_list.go:114-121` | makes a heap of any sequence |
| `TxSortedMaps.FlatUnique` | `evmcore/tx_list.go:216-226` | there is one nonce-sorted list of a map's values |
| `TxSortedMaps.SortedMap.Put` | `evmcore/tx_list.go:73-79` | the map gains the transaction, the heap holds just its keys, the cache is dropped |
| `TxSortedMaps.SortedMap.Forward` | `evmcore/tx_list.go:84-98` | everything below the threshold is removed and returned in order, and the shifted cache is still the sorted list |
| `TxSortedMaps.SortedMap.Filter` | `evmcore/tx_list.go:105-138` | what matches is removed, and the heap rebuilt |
| `TxSortedMaps.SortedMap.Cap` | `evmcore/tx_list.go:143-164` | the lowest nonces are kept, the others returned from the highest down, and the cut cache is still the sorted list |
| `TxSortedMaps.SortedMap.Remove` | `evmcore/tx_list.go:168-186` | one nonce is removed from map and heap |
| `TxSortedMaps.SortedMap.Ready` | `evmcore/tx_list.go:194-209` | the ready run is removed and returned in order |
| `TxSortedMaps.SortedMap.Flatten` | `evmcore/tx_list.go:216-237` | gives the sorted list and caches it |
| `TxSortedMaps.SortedMap.LastElement` | `evmcore/tx_list.go:241-244` | the highest nonce of a list that is not empty |
| `AccountLists.AccountList.Add` | `evmcore/tx_list.go:279-312` | does what `TxLists.Add` says; returns the replaced transaction |
| `AccountLists.AccountList.Forward` | `evmcore/tx_list.go:317-319` | does what `TxLists.Forward` says |
| `AccountLists.AccountList.Filter` | `evmcore/tx_list.go:330-358` | does what `TxLists.Filtered` says |
| `AccountLists.AccountList.Cap` | `evmcore/tx_list.go:363-365` | keeps the lowest nonces |
| `AccountLists.AccountList.Remove` | `evmcore/tx_list.go:370-381` | does what `TxLists.Remove` says; returns what is stranded |
| `AccountLists.AccountList.Ready` | `evmcore/tx_list.go:390-392` | takes out just the ready nonces |
| `PricedLists.LessOrder` | `evmcore/tx_list.go:429-453` | the price order is a strict weak order under every base fee |
| `PricedLists.CmpIs` | `evmcore/tx_list.go:440-453` | the comparison in numbers: without a base fee by fee cap and then tip cap, with one first by the lesser of the tip cap and the fee cap less the base fee |
| `PricedLists.LessIs` | `evmcore/tx_list.go:429-438` | first goes who pays less, or the same with a higher nonce |
| `PricedLists.LowestIsUnderpriced` | `evmcore/tx_list.go:523-553` | a transaction with a lower fee cap than all live entries is underpriced without a base fee, and one whose tip cap is below both numbers of each urgent entry with one |
| `PricedLists.PricedList.Put` | `evmcore/tx_list.go:500-506` | a remote transaction enters the heaps, a local one does not |
| `PricedLists.PricedList.Underpriced` | `evmcore/tx_list.go:523-553` | true just when there is a live remote entry and none pays less than the transaction, in numbers: floating ones by their caps, urgent ones by the lesser of tip cap and fee cap less the base fee first; no live entry is lost, and the stale counter falls by the stale entries popped |
| `PricedLists.HeadDecides` | `evmcore/tx_list.go:533-553` | the head of a heap alone decides the comparison |
| `PricedLists.PricedList.Discard` | `evmcore/tx_list.go:557-593` | terminates; live entries left plus those returned are those before; the stale counter falls by the stale entries popped; succeeds if forced or if the live entries suffice, and then returns at least the requested slots, or all; no returned entry is one too many; a failure returns nothing and loses nothing; no dropped transaction has a higher fee cap than one that stays in the floating heap, nor a higher tip cap or a lower nonce at the same price, unless that one came from the urgent heap; all in turns: with more than four times as many urgent as floating entries the first urgent one moves if it is live, else the first floating one is taken |
| `PricedLists.PricedList.Reheap` | `evmcore/tx_list.go:596-618` | the entries are exactly the remote transactions, a fifth of them floating and none of those dearer than an urgent one; nothing is stale |
| `PricedLists.PricedList.Removed` | `evmcore/tx_list.go:511-519` | counts stale entries, and rebuilds above a quarter |
| `PricedLists.PricedList.SetBaseFee` | `evmcore/tx_list.go:622-627` | a changed fee rebuilds the heaps |
| `TxLookups.TxLookup.Add` | `evmcore/tx_pool.go:1821-1833` | a new transaction is known, as local or remote, and the slots are the sum over all; one that was known would be counted twice, and the sum be wrong |
| `TxLookups.TxLookup.Remove` | `evmcore/tx_pool.go:1836-1853` | the transaction is unknown, and the slots are the sum over the rest |
| `TxLookups.TxLookup.RemoteToLocals` | `evmcore/tx_pool.go:1857-1870` | just the transactions of these accounts become local; their number is returned |
| `PoolState.Detach` | `evmcore/tx_pool.go:1018-1036` | taking transactions out of a list keeps every other transaction in one place |
| `PoolState.Settle` | `evmcore/tx_pool.go:755-790` | storing one, and dropping the one it replaces, keeps every transaction in one place |
| `PoolSteps.QueueReplaces` | `evmcore/tx_pool.go:755-790` | at most one transaction of an account and nonce is known: the one a new transaction replaces in the queue |
| `PoolSteps.PendingReplaces` | `evmcore/tx_pool.go:707-731` | the same for a pending one |
| `PoolSteps.EnqueueFree` | `evmcore/tx_pool.go:755-790` | a transaction moved within the pool is never rejected by the queue and replaces nothing |
| `PoolSteps.PromoteFree` | `evmcore/tx_pool.go:808-838` | a promoted transaction is never rejected and replaces nothing |
| `TxPoolOps.TxPool.EnqueueTx` | `evmcore/tx_pool.go:755-790` | the queue, the lookup and what is on its way afterwards; an account's first queued transaction records its heartbeat |
| `TxPoolOps.TxPool.PromoteTx` | `evmcore/tx_pool.go:808-838` | the pending list, the lookup and the pending nonce afterwards; a promotion always sets the heartbeat |
| `TxPoolOps.TxPool.RemoveTx` | `evmcore/tx_pool.go:999-1045` | just this transaction leaves the pool, those it strands go back to the queue, and the account's next nonce is not beyond it; the heartbeat goes with an emptied queue and starts with stranded transactions if there is none |
| `TxPoolOps.TxPool.Add` | `evmcore/tx_pool.go:664-750` | each refusal exactly under its condition; all but the refused replacement have no effect, and that one, which comes after room was made, leaves the pool as it was if and only if nothing known had to go; an accepted transaction ousts just the one with its account and nonce; a new local account has no remote transaction left; a replaced pending one and an account's first queued one set the heartbeat; it is held as a local one just if it was added as one or its account is local, and then so are all of the account |
| `PoolSteps.RefusedIs` | `evmcore/tx_pool.go:707-731` | a replacement is refused just when the known transaction with its account and nonce is not beaten by the price bump, whether that one is pending or queued |
| `PoolPrices.AddPriced` | `evmcore/tx_pool.go:664-750` | with the price list's own answers: refused as underpriced just when no remote transaction is cheaper, for lack of room just when all remote ones together are too small; an accepted remote transaction keeps the pool within its capacity, a local one too or no remote one is left; no more is evicted than it takes; a refusal takes nothing out of the price list and changes nothing of the pool, and the heartbeats are given |
| `PoolPrices.StaysOnce` | `evmcore/tx_list.go:500-519` | a rebuild puts each remote transaction into the heaps once; a new one is there once just when no stale entry of its hash is left |
| `PoolPrices.TooFewIs` | `evmcore/tx_list.go:557-593` | with every remote transaction in the heaps once, there are too few of them just when their slots do not suffice |
| `PoolPrices.TakenOnce` | `evmcore/tx_list.go:557-593` | what the price list gives out then are remote transactions, none of them twice |
| `PoolPrices.SlotsTaken` | `evmcore/tx_pool.go:691-705` | and the slots counted for them are those they free in the lookup |
| `TxPoolOps.CapacityKept` | `evmcore/tx_pool.go:681-706` | if the dropped transactions free the missing slots, the pool stays within its capacity |
| `TxPoolOps.TxPool.PromoteAccount` | `evmcore/tx_pool.go:1333-1389` | the ready run of the usable transactions becomes pending; just the unusable ones and those beyond the limit are dropped |
| `TxPoolOps.TxPool.PromoteExecutables` | `evmcore/tx_pool.go:1328-1391` | of each account's queue just the ready run becomes pending, and the other usable transactions stay with the lowest nonces within the limit; the other accounts do not change; what the pool loses is unusable or beyond a queue limit; nothing unusable or next in line is left in a queue; the next nonce of each account follows what has become pending |
| `PoolBeats.PromotedBeat` | `evmcore/tx_pool.go:1333-1389` | what promotion does to a heartbeat: gone with an emptied queue, else now if anything was promoted, else as it was |
| `PoolRuns.PromotionLostIs` | `evmcore/tx_pool.go:1328-1391` | why nothing else is lost: a transaction that is gone was queued by one of the accounts, and is useless or has at least the limit of others before it |
| `PoolSteps.PromotedTidy` | `evmcore/tx_pool.go:1333-1389` | why nothing that could be executed next is left in a queue |
| `TxPoolOps.TxPool.DemoteAccount` | `evmcore/tx_pool.go:1532-1578` | just the unusable transactions are dropped; what remains pending starts at the account's nonce, and the rest is queued |
| `TxPoolOps.TxPool.DemoteUnexecutables` | `evmcore/tx_pool.go:1530-1579` | of each pending list just the useless transactions go, what follows a gap or something too costly is queued again, and nothing else is lost; afterwards every pending list starts at its account's nonce and is payable |
| `PoolBeats.QueuedBeat` | `evmcore/tx_pool.go:1547-1573` | what demotion does to a heartbeat: now if something went back to the queue and there was none, else as it was |
| `PoolRuns.DemotionLostIs` | `evmcore/tx_pool.go:1530-1579` | why nothing else is lost: a transaction that is gone was pending, and its nonce, its cost or its gas does not fit the chain state |
| `PoolLimits.LevelDown` | `evmcore/tx_pool.go:1425-1446` | a round of cuts lowers the level by one |
| `PoolLimits.FairIsBest` | `evmcore/tx_pool.go:1391-1394` | no other level within the limit gives more |
| `PoolLimits.FairMeans` | `evmcore/tx_pool.go:1391-1476` | within the limit or nobody but locals above the guaranteed slots; local and small accounts are untouched, nobody is cut below the guarantee, and no cut account ends below another |
| `TxPoolOps.TxPool.CutRound` | `evmcore/tx_pool.go:1426-1445` | each offender loses its highest nonce, and the count falls by their number |
| `TxPoolOps.TxPool.Equalize` | `evmcore/tx_pool.go:1419-1447` | the earlier offenders are brought down to the last one, unless the limit is met first |
| `TxPoolOps.TxPool.TruncatePending` | `evmcore/tx_pool.go:1394-1476` | every account that is not local keeps the lesser of its count and one level, the highest within the limit but at least the guaranteed slots; all keep their lowest nonces; the next nonce of an account falls to the lowest one it lost, if it was higher |
| `TxPoolOps.TxPool.TruncateQueue` | `evmcore/tx_pool.go:1479-1521` | over the limit, exactly the larger of the limit and the locals' count is left; accounts with later heartbeats lose all before earlier ones lose anything, and local ones nothing; just the accounts that lost their queue lose their heartbeat |
| `TxPoolOps.TxPool.EvictIdle` | `evmcore/tx_pool.go:369-384` | just the queues of accounts that are not local and whose last heartbeat is longer ago than the lifetime go, with their heartbeats |
| `TxPoolOps.TxPool.UpdateNonces` | `evmcore/tx_pool.go:1201-1205` | the next nonce of a pending account follows its last pending transaction; no pending list is empty; the others keep theirs |
| `TxPoolOps.TxPool.RunReorg` | `evmcore/tx_pool.go:1160-1206` | a whole background run: exactly what was promoted, then demoted after a reset, then cut to the limits; a transaction leaves the pool only if it is useless under the new chain state, beyond its account's queue limit, or cut off by a limit that was exceeded; none appears; the pool is settled, within both limits, with fit pending lists after a reset and with up-to-date nonces; the queue is cut by the heartbeats after promotion and demotion, which are given; after a reset an account of which nothing was held has the nonce of the new chain state |
| `TxPoolOps.TxPool.RunLists` | `evmcore/tx_pool.go:1177-1199` | promotion, demotion and both limits one after the other, with what each did |
| `TxPoolOps.TxPool.Truncate` | `evmcore/tx_pool.go:1195-1199` | within its limit neither part changes; over it, pending lists are cut to one fair level, and only queues of accounts that are not local, those with the latest heartbeats first |
| `PoolRuns.RunLostIs` | `evmcore/tx_pool.go:1160-1206` | why nothing else is lost in the run: local accounts and the guaranteed slots are safe from the limits |
| `RandSelects.ChoiceIs` | `gossip/randselect.go:142-153` | a leaf is chosen by exactly its weight many numbers |
| `RandSelects.WrsNode.constructor` | `gossip/randselect.go:106-108` | an empty node |
| `RandSelects.WrsNode.Above` | `gossip/randselect.go:46-52` | a root above another one, with its leaves first |
| `RandSelects.WrsNode.Insert` | `gossip/randselect.go:90-114` | the item goes to the first free leaf, whose index is returned; with room there is no panic; sums and counts match the leaves |
| `RandSelects.WrsNode.SetWeight` | `gossip/randselect.go:118-139` | just this leaf changes; the difference is returned; sums and counts match the leaves |
| `RandSelects.WrsNode.Choose` | `gossip/randselect.go:142-153` | the leaf on which the number falls, and its weight |
| `RandSelects.WeightedRandomSelect.SetWeight` | `gossip/randselect.go:37-56` | the stored weights change for this item alone, items keep their places, and each is at just one; a new item takes the first free leaf, of eight times as many if all are taken |
| `RandSelects.WeightedRandomSelect.Choose` | `gossip/randselect.go:62-77` | each try takes the item on whose stretch of the stored weights its first random number falls, and stores what it weighs then; it is kept if that is not less than before, or if the second number modulo the old weight is below the new one; the retries end even if weights change between them; nothing is chosen only when no item is left |
| `RandSelects.UnchangedIsKept` | `gossip/randselect.go:62-77` | with unchanged weights there is one try: the chosen item is where the first number falls, and nothing stored changes |
| `RandSelects.ChosenByWeight` | `gossip/randselect.go:62-77` | each item is chosen by exactly its stored weight many numbers below the sum |
| `WeightedShuffles.RestTake` | `utils/weighted_shuffle.go:66-87` | taking an index lowers just the sums of the subtrees it lies in |
| `WeightedShuffles.ShuffleTree.Build` | `utils/weighted_shuffle.go:33-51` | every node holds its weight and the sums of its subtrees |
| `WeightedShuffles.ShuffleTree.Rand32` | `utils/weighted_shuffle.go:53-64` | the next number of the seed |
| `WeightedShuffles.NthDraw` | `utils/weighted_shuffle.go:53-64` | the numbers of a seed are its eight words, then those of its digest, and so on |
| `WeightedShuffles.LittleEndianIs` | `utils/weighted_shuffle.go:61` | a word is read with the least significant byte first |
| `WeightedShuffles.ShuffleTree.Retrieve` | `utils/weighted_shuffle.go:66-87` | picks a remaining index, with no division by zero, and updates the sums on its path |
| `WeightedShuffles.WeightedPermutation` | `utils/weighted_shuffle.go:92-110` | computes the permutation that repeated picking defines |
| `WeightedShuffles.PermutationDistinct` | `utils/weighted_shuffle.go:92-110` | its entries are distinct indices |
| `WeightedShuffles.PermutationFull` | `utils/weighted_shuffle.go:89-91` | with as many entries as weights every index occurs |
| `WeightedShuffles.PermutationPrefix` | `utils/weighted_shuffle.go:89-91` | for one seed a shorter permutation is a prefix of a longer one |
| `WeightedShuffles.ChanceIsShare` | `utils/weighted_shuffle.go:66-87` | the chance of every remaining index, taken as the share of the numbers that lead the descent to it at each node, is its share of the remaining weight |
| `WeightedShuffles.PickTurns` | `utils/weighted_shuffle.go:66-84` | a pick goes where the number drawn takes it, and on from there with the next one |
| `WeightedShuffles.TurnsSize` | `utils/weighted_shuffle.go:72-83` | counted, as many numbers stop at a node or take each turn as there is weight |
| `VectorClocks.JoinLaws` | `vecmt/vector_ops.go:41-72` | merging is idempotent, commutative and associative, with forks on top and unseen branches at the bottom |
| `VectorClocks.JoinMeans` | `vecmt/vector_ops.go:41-72` | in numbers: a fork of either, else the higher of the highest and the lower of the lowest events seen |
| `VectorClocks.OrderDoesNotMatter` | `vecmt/vector_ops.go:41-72` | merging in any order, and any number of times, gives the same branches |
| `VectorClocks.MarksInAnyOrder` | `vecmt/vector_ops.go:41-72` | and the same times but for forks, when a branch and a sequence number fix the time |
| `VectorClocks.HighestBefore.CollectFrom` | `vecmt/vector_ops.go:41-72` | the first branches become the merge of both vectors, the others stay |
| `VectorClocks.HighestBefore.GatherFrom` | `vecmt/vector_ops.go:74-93` | a fork if one of the branches has one, with the time of what is highest before the first such; else the first with the highest number, with its time |
| `VectorClocks.HighestBefore.SetTime` | `vecmt/vector.go:49-55` | writing beyond the end extends the vector with zeros |
| `MedianTimes.MedianTime` | `vecmt/median_time.go:21-83` | computes the weighted median of the claims, and its sanity check never fires |
| `MedianTimes.Select` | `vecmt/median_time.go:54-80` | the sorted scan stops at the median |
| `MedianTimes.MedianUnique` | `vecmt/median_time.go:60-70` | there is one median |
| `MedianTimes.MedianOfSame` | `vecmt/median_time.go:54-58` | it does not depend on the order of equal times |
| `MedianTimes.CheatersDoNotMatter` | `vecmt/median_time.go:41-43` | from an honest weight of 2 on, validators of no weight have no influence |
| `MedianTimes.OnlyClaimsMatter` | `vecmt/median_time.go:34-52` | from an honest weight of 2 on, the median depends neither on what a fork claims nor on the time of a validator of whom nothing is seen |
| `MedianTimes.HonestClaims` | `vecmt/median_time.go:34-52` | the honest entries are those without a fork, with their weights, and with the default time if nothing of them is seen |
| `MedianTimes.CheatersMayMatter` | `vecmt/median_time.go:60-70` | below an honest weight of 2 it is the honest median just when an honest claim is the earliest of all, or, with no honest validator, when nothing or 0 is claimed |
| `MedianTimes.CheaterDecides` | `vecmt/median_time.go:60-70` | inputs of honest weight 1 and 0 where a cheater's claim is the median |
| `MedianTimes.MedianInRange` | `vecmt/median_time.go:60-70` | it lies among the times of any group that leaves out less than half of the weight |
| `GasPowers.RatesWithinAllocation` | `eventcheck/gaspowercheck/gas_power_check.go:134-166` | all validators together get no more per second than is allocated |
| `GasPowers.PerSecIs` | `eventcheck/gaspowercheck/gas_power_check.go:134-166` | the rates in numbers: the floored share, and the gas of the whole seconds of each period modulo 64 bits, at least the ensured amounts; nothing without a stake |
| `GasPowers.Available` | `eventcheck/gaspowercheck/gas_power_check.go:109-132` | what is available is at most the maximum |
| `GasPowers.AvailableIs` | `eventcheck/gaspowercheck/gas_power_check.go:109-132` | in numbers: what was left, at least the startup gas for a first event, plus the floored gas of the interval, modulo 64 bits, at most the maximum |
| `GasPowers.SplitGainsNothing` | `eventcheck/gaspowercheck/gas_power_check.go:118-131` | an event in between gains nothing and loses at most one unit |
| `GasPowers.ChainBound` | `eventcheck/gaspowercheck/gas_power_check.go:87-132` | along a chain the gas used and left is at most what was left before plus what the whole interval allocates |
| `GasPowers.CalcGasPower` | `eventcheck/gaspowercheck/gas_power_check.go:72-107` | the gas power under each configuration, read at the configuration's own index; nothing for another epoch |
| `GasPowers.StartsFrom` | `eventcheck/gaspowercheck/gas_power_check.go:87-107` | starts from the self-parent, or from what the last event of the epoch before left and the refund, or from the refund and the start of the epoch |
| `GasPowers.StrangersHaveNone` | `eventcheck/gaspowercheck/gas_power_check.go:87-107` | a creator outside the validator set has no gas power, whatever state is read for it |
| `GasPowers.Validate` | `eventcheck/gaspowercheck/gas_power_check.go:169-180` | valid just when under each configuration gas used and left are the gas power |
| `GasPowers.RunBound` | `eventcheck/gaspowercheck/gas_power_check.go:169-180` | what the validated events of a validator use is bounded by the start and the elapsed time |
| `HashFns.AncestorGone` | `evmcore/evm.go:88-98` | beyond a missing header nothing is found |
| `HashFns.WalkIs` | `evmcore/evm.go:80-82` | numbers below the head's stand for its ancestors, others for nothing |
| `HashFns.HashFn.Query` | `evmcore/evm.go:75-100` | after any earlier queries the answer is what walking the parent links gives, and the cache holds the ancestors in order |

## Left out

- Early stopping of a log search: the handler that stops, `Halt` and context cancellation (topicsdb/sync.go:40-51); the barrier is modelled for searches that run to their end.
- The LLR-off branch that raises the decide indices without votes (gossip/c_block_callbacks.go:253-261).
- LlrService.Service.ProcessBlockVotes: requires that the signer's index is within the bitmap already stored for a key, since the source indexes beyond its end and panics otherwise (`utils/bitmap/bitset.go:13-28`); `LlrVoting.Ballot.Process`, `ProcessBlock` and `ProcessEach` require the same.
- LlrService.Service.WriteEpochRecord: the check of a full record and its writing are one step, so that two threads writing the same index are not interleaved; between a write and the update of the fill index others may come. Full records that block processing writes over are its own from then on.
- The table keys of votes are the tuples themselves; that their fixed-width encoding is injective is not shown.
- Heights, epochs, nonces, prices and gas are unbounded numbers except where a 32-bit or 64-bit wrap is written out (vote weights, shuffle sums, gas power, block numbers of the hash lookup).
- TxPoolOps.TxPool.Add: takes the outcome of validation and the answers of the price list as parameters; `PoolPrices.AddPriced` takes the answers from the price list, assuming that each remote transaction is in its heaps once; `PoolPrices.StaysOnce` says when that stays so. The calls of the price list's `Put` and `Removed` are not run inside the pool's operations.
- TxPoolOps.TxPool.RunReorg: a reset brings a new chain state and empties the nonce overrides; the transactions of abandoned blocks, which the source adds again with `add`, are not collected. All heartbeats of one run are set to one time, and accounts with equal heartbeats are cut in any order.
- The pool's lists are values, so that sharing of list objects is not modelled; the price list's stale counter is treated per operation and not pool-wide, since the source does not report all removals to it.
- RandSelects.WeightedRandomSelect.Choose: items are numbers, and weights are not negative.
- The chances of a weighted shuffle ignore that a 32-bit number modulo the sum is not exactly uniform; the digest is an arbitrary function.
- WeightedShuffles.WeightedPermutation: assumes, as the weight type of the source does, that the sum of the weights fits 32 bits; a weight of zero and a size beyond the number of weights, on which the source panics, are preconditions.
- HashFns.HashFn.Query: assumes that a header found under a number has that number, and that no block has the largest 64-bit number.
- Price-list ordering uses the effective tip as the lesser of the tip cap and the fee cap less the base fee; the transaction types behind it are not part of this model.
- EVM execution, signatures, RLP and other serializers, the journal, metrics, events to subscribers, p2p, RPC, databases and goroutine scheduling.
