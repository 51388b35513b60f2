# Verified model of go-ethereum's chain, feed and fee core

This project models the part of go-ethereum that is hardest to get right by reading one
function at a time, and proves what that code is for. `Basics.dfy` holds shared definitions.

- **The canonical chain.** Headers form a tree stored by hash. A number-to-hash index, a
  transaction lookup index and the head markers must describe exactly one branch of it, while
  `reorg`, `writeHeadBlock`, `HeaderChain.Reorg` and `setHead` change them step by step and read
  the database while they fill batches. `BlockTree.dfy` defines branches from parent links alone;
  `Rawdb.dfy` the database and write batches; `BlockChain.dfy` and `HeaderChain.dfy` the operations
  that extend and reorganise; `Rewind.dfy`, `SetHead.dfy`, `RewindCourse.dfy` and
  `RewindableChain.dfy` the ones that rewind. Ghost fields record every database state that a crash could leave behind.
- **The event feed.** `Feed.dfy` is one `Send` on the array-backed case list, with swaps and shifts
  in place; `FeedProtocol.dfy` is the protocol of Subscribe, Send and Unsubscribe as a step system,
  with invariants over every run.
- **Gas and ether.** `StateDb.dfy` (accounts, 256-bit balances, the sum of all balances),
  `GasCosts.dfy`, `Authorizations.dfy`, `StateTransition.dfy` and `StateProcessor.dfy` cover a
  message from the pre-checks to the tip, and a block of them. The EVM is a parameter that creates
  no ether and returns no more gas than it got; it may destroy ether.
- **Smaller cores.** `BlockHash.dfy` (the BLOCKHASH cache), `TrieGc.dfy` (references to state
  tries), `TxIndexer.dfy` (the window of indexed transactions), `HdPath.dfy` (derivation paths).

Hashes are numbers that identify what they name, 0 being the empty hash. What header and block
validation guarantees is stated once: `BlockTree.WellFormed` (headers are filed under their hash
and linked by number), `HeadRewind.TimesGrow` (later blocks have later times) and
`CanonicalChain.Consensus` (no transaction twice on one branch).

Three promises turned out not to hold of the code as it stands; for each there is a concrete
input and the exact condition under which the code keeps it:

- Between `reorg` and the write of the new head the persisted head block can be missing from the
  persisted index: exactly when blocks are dropped and the new head is at most one block above the
  common ancestor (`SetCanonical`, `UncoveredHead`).
- The repair mode of a rewind can leave the head-snap marker naming a deleted header: exactly when,
  before the call, the block that `rewindHashHead` would find from the block head undercuts the
  freezer and lies below where the callback would put the snap head (`Repair`, `SnapWillBeLost`,
  `SnapMarkerLost`).
- A first indexing run does not always leave exactly the configured window: entries that imports
  wrote below the window before there was an index tail stay, although the field documentation
  says that all other blocks should not be indexed (`Run`, `LeftoverEntries`).

## Model

| member | source | states |
|---|---|---|
| Rawdb.DeleteCanonicalAbove | go-ethereum/core/blockchain.go:2427-2433 | reading the index until the first gap queues the deletion of every entry above the given number and nothing else |
| CanonicalChain.FindCommon | go-ethereum/core/blockchain.go:2273-2312 | the walk finds the highest common ancestor and the exact segments of both branches above it; it fails with each error exactly when the new branch is incomplete, or ends in another root |
| CanonicalChain.LookupIsExact | go-ethereum/core/blockchain.go:1174 | the lookup index of a branch has an entry for a transaction if and only if a block of the branch includes it, and the entry is that block's number |
| CanonicalChain.HeadBatch | go-ethereum/core/blockchain.go:1170-1175 | the batch of `writeHeadBlock`, committed, sets the three markers, one index entry and the lookup entries of the block |
| CanonicalChain.DroppedAreOffBranch | go-ethereum/core/blockchain.go:2372-2419 | the lookup entries that `reorg` deletes are those of dropped transactions that no new block below the new head includes |
| CanonicalChain.PruneBatch | go-ethereum/core/blockchain.go:2414-2436 | the last batch of `reorg` deletes the dropped lookup entries and cuts the index at the given number |
| CanonicalChain.ReorgedIndex | go-ethereum/core/blockchain.go:2390-2436 | after writing the new branch over the old one and pruning, the index is exactly the new branch up to the block below the new head |
| CanonicalChain.ReorgedLookup | go-ethereum/core/blockchain.go:2372-2419 | and the lookup index is exactly that of the same blocks, also when a dropped transaction reappears only in the new head |
| CanonicalChain.ReorgCrashPoints | go-ethereum/core/blockchain.go:2390-2410 | at every crash point while the new branch is written the persisted index covers the branch of the persisted head block |
| CanonicalChain.AllCrashPoints | go-ethereum/core/blockchain.go:2390-2436 | this also holds between `reorg` and the write of the new head if and only if no block is dropped or the new head is at least two above the common ancestor |
| CanonicalChain.ReadBack | go-ethereum/core/rawdb/accessors_indexes.go:133-154 | with both indexes exact, reading a transaction finds it if and only if it is on the branch, with its block and its position |
| CanonicalChain.BlockChain.WriteHeadBlock | go-ethereum/core/blockchain.go:1168-1189 | one atomic write that makes the block head, then all in-memory markers follow |
| CanonicalChain.BlockChain.ApplyNewChain | go-ethereum/core/blockchain.go:2390-2410 | the new blocks except the head are written as heads in ascending order, one crash point each |
| CanonicalChain.BlockChain.SwitchBranch | go-ethereum/core/blockchain.go:2339-2441 | the mutating part of `reorg` leaves both indexes exact for the new branch below its head, and the cache empty |
| CanonicalChain.BlockChain.Reorg | go-ethereum/core/blockchain.go:2267-2444 | from exact indexes, for longer, shorter, equal-height, ancestor and identical heads: succeeds exactly when the branches meet, and then the indexes are exact up to below the new head, at every crash point the index covers the persisted head, and after it exactly under the stated condition; otherwise nothing changes |
| CanonicalChain.BlockChain.SetCanonical | go-ethereum/core/blockchain.go:2464-2484 | succeeds exactly when the block is connected to the current branch; then both indexes, the cache and all markers are those of its branch with nothing above; at every crash point the index covers the head, with the exact exception |
| CanonicalChain.BlockChain.WriteBlock | go-ethereum/core/blockchain.go:1499-1509 | storing a side block keeps the chain valid and moves no head |
| CanonicalChain.BlockChain.WriteBlockAndSetHead | go-ethereum/core/blockchain.go:1608-1622 | refuses exactly blocks without a known parent, stores the others, and makes them head exactly when they are connected |
| CanonicalChain.BlockChain.GetTransactionLookup | go-ethereum/core/blockchain_reader.go:286-308 | with or without the cache the answer is that of the database: the transaction's place on the canonical branch, or nothing if it is on none |
| CanonicalChain.BlockChain.Apply | go-ethereum/core/blockchain.go:2464-2484 | one operation of a run: an import without a change of head only stores; with one it refuses exactly an unknown parent; the head becomes the block exactly when that is connected to the branch of the old head; lookups and evictions change no head |
| CanonicalChain.BlockChain.Run | go-ethereum/core/blockchain.go:2464-2484 | over every run of imports, changes of head to new or stored blocks, lookups and cache evictions both indexes stay exactly those of the current head and the cache never disagrees with the database |
| CanonicalChain.UncoveredHead | go-ethereum/core/blockchain.go:2414-2444 | a two-child fork whose head change has a crash point where the index does not cover the persisted head |
| HeaderChains.Relink | go-ethereum/core/headerchain.go:145-166 | the backwards walk over the old index reports a missing parent exactly when the branch is incomplete, and otherwise queues the branch down to where it meets the index |
| HeaderChains.ExtendBatch | go-ethereum/core/headerchain.go:168-180 | writing the batch makes each of its headers canonical and the last one head |
| HeaderChains.ReorgedIsChain | go-ethereum/core/headerchain.go:122-186 | once the batch is written over an index that is right below it, the index is exactly the branch of its last header |
| HeaderChains.HeaderChain.Reorg | go-ethereum/core/headerchain.go:122-186 | for every contiguous stored batch: fails, writing nothing, exactly when an ancestor is missing; otherwise the index is exactly the branch of the last header |
| HeaderChains.StoreBatch | go-ethereum/core/headerchain.go:205-226 | skipping known headers stores exactly the headers of the batch; the count is that of the headers from the first unknown one on |
| HeaderChains.HeaderChain.WriteHeaders | go-ethereum/core/headerchain.go:192-237 | refuses exactly a batch whose parent is unknown; counts the headers from the first unknown one on; the canonical chain does not change |
| HeaderChains.HeaderChain.WriteHeadersAndSetHead | go-ethereum/core/headerchain.go:247-274 | refuses exactly an unknown ancestor, fails exactly at a missing parent, skips the reorganisation if and only if the last header is on the canonical branch already, else makes it head; the first three move no head |
| HeaderChains.HeaderChain.GetAncestor | go-ethereum/core/headerchain.go:352-384 | a nonzero answer is what following parent links gives, with the right number, wherever the jump to the index happens; zero exactly when there is no such ancestor or the allowance is too small; how far the allowance shrinks |
| StateRewind.RewindHashHead | go-ethereum/core/blockchain.go:747-820 | returns the highest ancestor or self with state, at or below the requested root and not below the search limit, else genesis; the root number is where the root was crossed |
| StateRewind.SearchReach | go-ethereum/core/blockchain.go:747-820 | the block found is genesis or at most 90000 below the start, or not below the pivot if there is one, and no qualifying block in that reach is higher |
| HeadRewind.FoundIsRewound | go-ethereum/core/blockchain.go:747-820 | that result is unique and is given by a function of the branch, the requested root, the available states and the limit, if and only if it meets this promise |
| ChainRewind.RewindableChain.UpdateHeads | go-ethereum/core/blockchain.go:938-995 | the callback moves the block head to what `rewindHashHead` finds from the given header if it is not below that, and the snap head to the header if its body is stored, else genesis; which markers it writes in which order; it demands a forced rewind exactly when the freezer is undercut |
| HeadRewind.QueueRound | go-ethereum/core/headerchain.go:574-606 | each round queues the index entry and every stored header of its height, the first round also those above up to the first height with nothing stored, the bodies of exactly those that the freezer does not reach, and nothing at or below the new head |
| HeadRewind.FlushedExact | go-ethereum/core/headerchain.go:608-637 | after deletions and truncation the index read through the freezer is exactly the branch of the new head, nothing is filed above it |
| HeadRewind.FlushedCrashes | go-ethereum/core/headerchain.go:608-637 | before and after the deletion batch and after the truncation the persisted markers name stored headers on one branch |
| HeadRewind.FlushedSurvivors | go-ethereum/core/headerchain.go:608-637 | of the old branch exactly the blocks up to the new head survive |
| HeadRewind.RewindPrunes | go-ethereum/core/blockchain.go:996-1015 | what a rewind leaves: the stored headers above the new head are gone up to the first empty height above the old one, the bodies of exactly those that were not frozen, and the index entries above the new head; every other header, body and entry is as it was, and the freezer is cut back to the new head |
| HeadRewind.ForcedTarget | go-ethereum/core/headerchain.go:559-563 | replacing the target by the block that undercut the freezer only sharpens it, also when it was a timestamp |
| RewindCourse.CourseStep | go-ethereum/core/headerchain.go:540-563 | what each round keeps with the callback: the block head never moved or is what the search from a header of the way finds, with the root number of that search; the snap head is the old one, the header head or genesis as the stored bodies say; the target is the requested one, or the height of a block head that undercut the freezer, and then for a reason |
| RewindCourse.CourseEnds | go-ethereum/core/headerchain.go:540-642 | so at the end the block head is the old one, has state or is genesis; a changed target is an undercut height, and then header and block head coincide if and only if the block head was not reset below the pivot, which cannot happen without a requested root to a block head that has state |
| RewindCourse.RewindMeans | go-ethereum/core/headerchain.go:540-642 | for every database and request from which a rewind can start, the stage it ends in, defined round by round, has all these properties |
| RewindCourse.UnforcedRewind | go-ethereum/core/headerchain.go:556-563 | the target is forced only if the block head undercuts the freezer below the requested target from the beginning, or a search made above that target finds a block that does; otherwise the rewind ends at the requested height, or at the head if that is lower, or at the last header that is not later than the requested time |
| ChainRewind.RewindableChain.RewindHeaders | go-ethereum/core/headerchain.go:540-607 | header by header down to the first that meets the target in force; with the callback every round is the one round of the course and leaves usable markers, without it only the header marker moves |
| ChainRewind.RewindableChain.SetHead | go-ethereum/core/headerchain.go:515-642 | refuses exactly a timestamp below genesis; otherwise heads, root number and target end in the stage that request and database determine, with the properties above; then index, freezer and markers are exact for it; a stored body survives, unchanged, exactly when its header is not among those removed above the new head at heights that were not frozen; at every crash point all markers are usable |
| HeadRewind.RewindCrashes | go-ethereum/core/headerchain.go:540-642 | at the crash points of a rewind without the callback a marker that stays behind names a stored header on the branch of the header marker, at all of them, if and only if it is not above the header that the rewind reaches |
| ChainRewind.RewindableChain.RepairHeads | go-ethereum/core/blockchain.go:938-1019 | the callback applied to the block head: which block head, root number and snap head result, and that the markers are usable before, between and after the two writes |
| ChainRewind.RewindableChain.CutToBlockHead | go-ethereum/core/blockchain.go:1020 | the header chain is cut back exactly to the block head, and the same headers, bodies and index entries as in any rewind are gone; the snap marker is usable at every crash point, and names a stored header afterwards, if and only if it is not above that |
| ChainRewind.RewindableChain.Repair | go-ethereum/core/blockchain.go:1018-1021 | block head and root number are what `rewindHashHead` finds from the old block head; the header chain is cut back to it exactly when that undercuts the freezer, else only the markers change; at every crash point the block marker is usable; the snap marker is usable at every crash point, and names a stored header afterwards, except exactly when before the call the block that the search finds undercuts the freezer and lies below where the callback puts the snap head; without that exception the whole invariant holds again |
| ChainRewind.SnapMarkerLost | go-ethereum/core/blockchain.go:1018-1021 | a frozen two-block chain whose repair leaves the snap marker naming a deleted header |
| EventFeed.Feed.Find | go-ethereum/event/feed.go:203-210 | the first position of the channel, or -1 exactly if it is absent |
| EventFeed.Feed.Delete | go-ethereum/event/feed.go:213-215 | shifting in place removes exactly the entry at the index |
| EventFeed.Feed.Deactivate | go-ethereum/event/feed.go:218-222 | swapping in place exchanges the entry with the last of the waiting prefix |
| EventFeed.Delivered | go-ethereum/event/feed.go:149-155 | a swap keeps slot 0 and moves exactly the served case from the waiting prefix behind it |
| EventFeed.Feed.TryAll | go-ethereum/event/feed.go:149-155 | the fast path keeps the waiting prefix exact and counts its deliveries, whichever receivers are ready |
| EventFeed.Feed.Remove | go-ethereum/event/feed.go:161-167 | a removal takes the case of the channel handed in out of the waiting prefix or out of the served rest, wherever it was |
| EventFeed.Feed.Select | go-ethereum/event/feed.go:159-171 | each blocking round delivers to one case or removes that of the next waiting unsubscriber, and shortens prefix and list together |
| EventFeed.Feed.Send | go-ethereum/event/feed.go:120-180 | every case present at the start is delivered the value exactly once unless removed before its turn; the removed cases are exactly those of the unsubscribers that were served; the result is the number of deliveries; what stays in the list is what was delivered and not removed; slot 0 and cleared values are restored |
| FeedProtocol.RemovalFinds | go-ethereum/event/feed.go:95-117 | in every reachable state a channel has as many entries in inbox and case list as subscriptions that are not over, and both removal paths find their channel |
| FeedProtocol.DeliveriesInOrder | go-ethereum/event/feed.go:120-180 | in every reachable state subscription n is that of the n-th Subscribe of the run, and what it received is a contiguous segment of the values that the sends of the run bring, in send-lock order, without duplicates, starting with the first send to take the lock after it subscribed or the one before |
| FeedProtocol.NobodyIsMissed | go-ethereum/event/feed.go:120-180 | between sends every entry of the case list has received every value sent in the run from its first on, and its first is the first send to take the lock after its Subscribe or the one before |
| FeedProtocol.InboxMissedNothing | go-ethereum/event/feed.go:73-93 | and an entry that is still in the inbox then has received nothing and subscribed after the last send of the run took the lock |
| FeedProtocol.NoDelivery | go-ethereum/event/feed.go:95-117 | in no reachable state can anything be delivered on a channel all of whose subscriptions are over |
| FeedProtocol.NothingAfterUnsubscribe | go-ethereum/event/feed.go:189-194 | from every reachable state in which Unsubscribe has returned nothing more arrives in any continuation without a new Subscribe on that channel |
| FeedProtocol.InvAfter | go-ethereum/event/feedof.go:51-145 | every step of every thread keeps the whole invariant |
| StateDb.TransferMoves | go-ethereum/core/evm.go:138-146 | an allowed transfer moves exactly the amount, conserves the sum of balances, and changes nothing for someone who pays themselves |
| GasCosts.ToWordSize | go-ethereum/core/state_transition.go:135-141 | the number of 32-byte words rounded up, also for sizes near the end of uint64 |
| GasCosts.OverflowsIsExact | go-ethereum/core/state_transition.go:92-98 | the division guard fires exactly when the sum leaves uint64 |
| GasCosts.ZerosAreCounted | go-ethereum/core/state_transition.go:82-84 | the zero bytes counted are the positions that hold a zero |
| GasCosts.CountedBytes | go-ethereum/core/state_transition.go:82-100 | pricing the counts of zero and nonzero bytes is pricing the data byte by byte |
| GasCosts.DataGasIsExact | go-ethereum/core/state_transition.go:71-108 | the data part of the intrinsic gas fails exactly when the true cost leaves uint64 and is the true cost otherwise: 21000 or 53000, 4 for every zero byte, 16 or 68 for every other, 2 for every word of init code |
| GasCosts.IntrinsicGasIsExact | go-ethereum/core/state_transition.go:71-117 | as long as the cost with all lists fits in uint64 the intrinsic gas is that cost, with 2400 per address, 1900 per storage key and 25000 per authorization, and at least the base cost |
| GasCosts.FloorDataGasIsExact | go-ethereum/core/state_transition.go:120-132 | the calldata floor is 21000 plus ten for every zero byte and forty for every other, or fails exactly when that leaves uint64 |
| GasCosts.GasPool.AddGas | go-ethereum/core/gaspool.go:29-35 | panics exactly when the pool would leave uint64 |
| GasCosts.GasPool.SubGas | go-ethereum/core/gaspool.go:39-45 | refuses, changing nothing, exactly when the pool holds less |
| Authorizations.ApplyList | go-ethereum/core/state_transition.go:490-499 | the loop applies the list in order and skips invalid authorizations; what that does is stated by the laws of the list below, over the authorizations that hold when their turn comes |
| Authorizations.ValidMeans | go-ethereum/core/state_transition.go:568-596 | an authorization is accepted on behalf of an account exactly when it is signed by it for this chain or for every chain, with the nonce that the account has and that can still grow, and the account has no ordinary code |
| Authorizations.NonceRises | go-ethereum/core/state_transition.go:568-623 | an authority's nonce rises by exactly its accepted authorizations, those that hold in the state after the ones before, and stays in uint64; balances stay |
| Authorizations.NoReplay | go-ethereum/core/state_transition.go:568-596 | no pair of authority and nonce is accepted twice: accepted nonces strictly increase along the list |
| Authorizations.OrdinaryCodeKept | go-ethereum/core/state_transition.go:586-592 | accounts with ordinary code keep it and nothing is accepted for them |
| Authorizations.LastDecides | go-ethereum/core/state_transition.go:611-623 | the last accepted authorization decides the delegation |
| Authorizations.Untouched | go-ethereum/core/state_transition.go:568-623 | an account on whose behalf nothing is accepted is untouched |
| Authorizations.RefundAndEther | go-ethereum/core/state_transition.go:605-609 | 12500 gas are refunded once per accepted authorization of an existing account; no ether moves |
| StateTransitions.PriceSplits | go-ethereum/core/state_transition.go:190-195 | the gas price is the effective tip plus the base fee |
| StateTransitions.MessagesArePriced | go-ethereum/core/state_transition.go:172-200 | a transaction becomes a message exactly when it has a sender; the price is the fee cap, or the tip cap plus the base fee if that is less, and everything else is carried over |
| StateTransitions.Affordable | go-ethereum/core/state_transition.go:262-304 | passing the balance check covers gas, blobs and value, and every later product |
| StateTransitions.BuyingIsExact | go-ethereum/core/state_transition.go:262-304 | the gas debit does not underflow and leaves at least the value of the message |
| StateTransitions.BuyingDebits | go-ethereum/core/state_transition.go:262-304 | the sender alone pays, the gas limit at the price and the blobs at the price of the block; no nonce and no code changes |
| StateTransitions.BalancesAtTheStart | go-ethereum/core/state_transition.go:479-508 | these are the balances with which the EVM starts, and a creation starts with all nonces and code as they were |
| StateTransitions.SettlingIsExact | go-ethereum/core/state_transition.go:535-557 | paying back and tipping never wraps and loses exactly the base fee of the gas used, whichever of sender and coinbase coincide |
| StateTransitions.SettlingPays | go-ethereum/core/state_transition.go:535-557 | account by account: the sender gets the unused gas at the price, the coinbase the used gas at the price less the base fee, nobody else gets anything, and no nonce and no code changes |
| StateTransitions.Conservation | go-ethereum/core/state_transition.go:410-565 | for every acceptable message the sum of balances falls by exactly gas used times base fee, plus blob gas times blob base fee, plus what the EVM destroyed |
| StateTransitions.NoncesOfCall | go-ethereum/core/state_transition.go:486-499 | the EVM starts a call with every nonce up by its accepted authorizations and the sender's by one more |
| StateTransitions.StateTransition.BuyGas | go-ethereum/core/state_transition.go:262-304 | succeeds exactly when balance and pool cover the caps; then debits balance and pool, else changes nothing and reports which of the two is short |
| StateTransitions.StateTransition.PreCheck | go-ethereum/core/state_transition.go:306-397 | accepts exactly the messages with the right nonce that can still grow, an externally owned sender, ordered caps that cover the fees of the block, well-formed blobs and authorizations, and a covered price; the error reported is true of the message |
| StateTransitions.StateTransition.FinalGas | go-ethereum/core/state_transition.go:514-533 | gas used is max(peak - min(peak/quotient, refund), floor), at most the reported maximum |
| StateTransitions.UsedMeans | go-ethereum/core/state_transition.go:626-642 | the refund is the largest that the counter and a fifth of the gas, or half of it before London, allow |
| StateTransitions.StateTransition.ReturnGas | go-ethereum/core/state_transition.go:646-658 | pays the gas that is left at the price and returns it to the pool |
| StateTransitions.StateTransition.Execute | go-ethereum/core/state_transition.go:410-565 | succeeds exactly on acceptable messages, else reports an error that is true of the message, never the insufficient-funds-for-transfer one; the used gas formula and its bounds; the pool falls by the gas used; of what the EVM leaves the sender gets the unused gas, the coinbase the tip, and nothing else changes; ether conservation |
| StateProcessor.ApplyTransaction | go-ethereum/core/state_processor.go:139-168 | succeeds exactly on transactions with a sender whose message is acceptable in this state and gas pool; then the receipt carries the gas of the used-gas formula, bounded by the maximum and the limit, the state is the settled and finalised one, the pool falls by the gas used, and the sum of balances by exactly the fees and what the EVM and the finalisation destroyed |
| StateProcessor.Process | go-ethereum/core/state_processor.go:57-107 | up to the first transaction that is not acceptable in its turn, where alone the block fails, with an error that is true of it, each transaction is applied to the state and pool that the one before left and its receipt says what it did; pool plus cumulative gas is the block gas limit, receipts carry prefix sums, the sum of balances falls by exactly the base fees, the blob fees and what the EVM runs and the finalisations destroyed |
| StateProcessor.LosslessBlock | go-ethereum/core/state_processor.go:57-107 | with an EVM and a finalisation that destroy nothing a block costs exactly the base fees and the blob fees |
| StateProcessor.LedgersAgree | go-ethereum/core/state_processor.go:57-107 | receipts, states and gas pools of a block are determined by the block and the state it starts in, transaction by transaction |
| StateProcessor.CumulativeIncreases | go-ethereum/core/state_processor.go:149-175 | cumulative gas strictly increases along the receipts |
| TrieGc.Collector.WriteBlock | go-ethereum/core/blockchain.go:1555-1603 | the queue is exactly the outstanding references; past the first 128 blocks it keeps exactly the roots newer than current minus 128 |
| TrieGc.Collector.Stop | go-ethereum/core/blockchain.go:1265-1267 | after shutdown every reference ever taken has been released exactly once |
| BlockHash.CachedIsFresh | go-ethereum/core/evm.go:98-134 | the cache holds consecutive ancestor hashes, each the one a fresh walk finds |
| BlockHash.WalkIsAncestor | go-ethereum/core/evm.go:98-134 | for a block whose ancestors are stored that walk gives its ancestor with the number asked for |
| BlockHash.HashGetter.Query | go-ethereum/core/evm.go:98-134 | whatever was asked before, the answer is that of a fresh parent-link walk |
| TxIndexing.NothingRemains | go-ethereum/core/txindexer.go:282-315 | a tail at the start of the window reports nothing remaining, for this head and every later one |
| TxIndexing.WindowMeans | go-ethereum/core/txindexer.go:117-141 | a block is in the window exactly when it is not below the cutoff and, if there is a limit, one of the last that many |
| TxIndexing.NothingIndexed | go-ethereum/core/txindexer.go:282-315 | without a tail the whole window is reported as remaining and nothing as indexed; below the cutoff neither |
| TxIndexing.RemainingIsExact | go-ethereum/core/txindexer.go:282-315 | otherwise what is reported as remaining is how many blocks of the window are missing |
| TxIndexing.TxIndexer.IndexTransactions | go-ethereum/core/rawdb/chain_iterator.go:182-254 | indexes the range from above, and writes the tail it reached when interrupted |
| TxIndexing.TxIndexer.UnindexTransactions | go-ethereum/core/rawdb/chain_iterator.go:278-350 | removes the range from below, and writes the tail it reached |
| TxIndexing.TxIndexer.Repair | go-ethereum/core/txindexer.go:155-212 | afterwards the tail is absent exactly in the invalid cases, else the old tail or the cutoff if that is higher, and the index is exact for it |
| TxIndexing.TxIndexer.Run | go-ethereum/core/txindexer.go:105-148 | it moves the tail towards the window start by at most the blocks it is given; uninterrupted it reaches it, and exactly the window is indexed if and only if there was a tail or nothing below the window was indexed; interrupted it stays consistent |
| TxIndexing.TxIndexer.Startup | go-ethereum/core/txindexer.go:229-251 | repair and one run leave nothing remaining for this head and every later one; exactly the window is indexed if and only if there was a tail or nothing below the window was indexed |
| TxIndexing.LeftoverEntries | go-ethereum/core/txindexer.go:117-130 | with a limit of one, a block imported before the first run stays indexed |
| HdPath.Print | go-ethereum/accounts/hd.go:122-136 | the printed form of a path |
| HdPath.Parse | go-ethereum/accounts/hd.go:68-118 | the meaning of a path string, absolute or relative, with the first error and the number syntax of base 0 |
| HdPath.RoundTrip | go-ethereum/accounts/hd.go:68-136 | with any converter that reads decimal numbers every nonempty path comes back from its printed form, and the printed empty path is refused |
| HdPath.ReadIntReads | go-ethereum/accounts/hd.go:101 | the converter with base 0, that is with signs, prefixes and underscores, reads back every number that is printed |
| HdPath.ParsePrinted | go-ethereum/accounts/hd.go:68-136 | so parsing undoes printing for every nonempty path, and refuses the printed empty one |
| HdPath.RelativePath | go-ethereum/accounts/hd.go:68-95 | a path without the leading m continues the default root of Ethereum, for every printed list of components |
| HdPath.Refusals | go-ethereum/accounts/hd.go:68-118 | a path that starts blank is refused, and so is a number beyond 32 bits, or beyond 31 if hardened |

## Left out

- CanonicalChain.BlockChain.Reorg: bodies are stored with their headers, so the corrupt-database exits of `reorg` that would leave a lock held do not occur; log events and metrics are left out.
- CanonicalChain.BlockChain.SetCanonical: recovering a missing head state before the head moves is not modelled.
- HeaderChains.HeaderChain.WriteHeaders: the interrupt that returns before the batch is written, and the header caches, are not modelled.
- ChainRewind.RewindableChain.SetHead: block import is full sync with the hash scheme; a header whose parent is missing does not occur, since the branch of the head is stored.
- EventFeed.Feed.Send: a channel without an entry is not handed in for removal; that this is so is what FeedProtocol.RemovalFinds proves.
- StateTransitions.StateTransition.Execute: data, access lists and authorization lists longer than 2^40 are not modelled, nor are blob counts whose gas would leave uint64; the list charges are unchecked sums in the original.
- StateProcessor.Process: system calls, requests, withdrawals and block rewards around the transaction loop are not modelled.
- Snap-sync insertion, path-scheme rewinds, pruning modes, snapshots, witnesses and Verkle.
- Transaction lookup entries across `setHead`, which leaves dangling entries by design.
- Safe and finalized markers after a rewind.
- The EVM interpreter, state database, tries and key-value engine behind the abstract maps.
- The `eth_call` modes that skip nonce, sender or base-fee checks, tracers, metrics and logging.
- The scheduler of the transaction indexer after its first run, and the queue inside its range iterator.
- Iterators and JSON forms of derivation paths.
- Type checks and panics of the reflective feed, and whether a blocked receiver is ever ready.
- Peer sets, handlers, RPC, GraphQL, console and other networking or user-interface files.
