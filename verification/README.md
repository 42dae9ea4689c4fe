# cruzbit, modelled and proved in Dafny

cruzbit is a Bitcoin-style ledger of public-key balances.  This project models the parts that
have to agree with each other for a node to be right — the block processor, the ledger, the
transaction queue, the mining fast paths, the sync protocol, the history index — and proves what
holds after every run.

## What is modelled

| files | what they hold |
|---|---|
| `types`, `rules`, `schedule` | records, the checks of a transaction and a block on their own, and the schedules of rewards, limits and series |
| `balances`, `ledger_model`, `conservation` | balances and the ledger database as values; the database a whole main chain leads to; conservation of money |
| `ledger` | the overlay balance cache and the ledger database as classes, connecting and disconnecting blocks in loops |
| `consensus`, `chain_walks` | median time, targets and work; the walks through the block store that compute them |
| `forks`, `queue`, `node_model`, `requeue` | the tree of accepted blocks, the order that picks its best block, the transaction queue, what a node keeps, and what becomes of waiting payments when the chain moves |
| `processor`, `reachable` | the processor as a class, one request at a time; what holds after any run |
| `header_json`, `header_parse`, `header_hasher`, `sponge`, `device`, `fast_id` | the text of a header and how it reads back, the header buffer patched in place, SHA3-256 byte by byte, the OpenCL kernel, and that all of them compute the block's ID |
| `locator`, `in_flight` | finding the common ancestor of two peers; which peer downloads which block, for any interleaving of any number of peers |
| `history`, `key_index`, `audit` | a public key's history, its database keys and scans, and the inspector's checks |
| `miner` | building the next block from the queue, and handing it in |

The central idea: the ledger without its branch flags is a function of the main chain alone
(`LedgerModel.Replay`), and the flags are a function of the main chain and the flagged blocks.
`Forks.Represents` says that a ledger is exactly that.  Every connect and disconnect keeps it, so
going back to a chain goes back to its ledger, to the last index entry.  `Processor.Running`
collects what holds between two requests, and `Reachable` says what follows from it.

How the source is rendered:

- Objects that the source updates are classes; a dictionary or list it mutates is a `map` or `seq`
  field, the header buffer, the SHA3 state and the digit buffer are arrays, and loops stay loops.
- SHA3-256 is taken to be free of collisions where IDs are concerned: a transaction's ID is its
  body without the signature, and a block header carries the number of its own ID.  The processor
  is asked to process only blocks that the hash allows (`Processor.Sound`): no block's ID is the
  parent that genesis names, and only genesis has the ID of genesis.  In `Sponge` the hash is the
  real construction over an arbitrary permutation.
- Signature verification and the hash list root are function parameters of the configuration.
- The clock is a parameter.  A panic — a missing block, a division by zero, "Too much work" — is an
  answer of its own (`Panic`, or `None`), and changes nothing.
- 64-bit wrap-around is written out where it can be reached: in the fee total and the coinbase of
  a block.  Conservation then shows that on the main chain it never happens.
- The client's memo is put into a coinbase as it is, although one of more than 100 bytes makes every
  mined block invalid.  `Miner` says exactly which blocks are accepted.
- `IsMature` is taken as the code has it (`Matures >= height`, transaction.go:103-108), although the
  comments at transaction.go:27 and 102 read the other way: a transaction can be mined up to that height.
- `GetPublicKeyBalanceAt` promises the balance at a height (ledger_disk.go:827), but tests maturity
  against the current tip (ledger_disk.go:856), and writes negative heights as large ones.  The code
  is followed; `Audit` says by how much the result is off, and exactly when it is not.
- A range of heights may start or end below zero, as the wallet's does on a short chain
  (wallet/main.go:406-413), but the database keys order heights as unsigned numbers.  `KeyIndex` says
  what is found for every range, and exactly when that is what was asked for.
- From height 28861 on, a target is computed from a block found through the main chain's height
  index (processor.go:752), also for a block on another branch.  The processor remembers in `deep`
  the blocks for which that block was not on their own branch; bounds on targets and work along a
  branch are proved for every branch without such a block, and what a window off the branch gives is
  told by `Targets.TargetOfAnyWindow`.

## Model

| member | source | states |
|---|---|---|
| Supply.RewardsStayBelowMaxMoney | processor.go:672-680 | All block rewards together, at every height, stay within MAX_MONEY |
| Schedule.RewardHalves | processor.go:672-680 | Fifty coins in the first 210000 blocks, and exactly half, rounded down, one period later, at every height |
| Schedule.RewardEnds | processor.go:672-680 | There is no reward exactly from the 33rd halving on |
| Schedule.LimitNeverFalls | processor.go:540-556 | The transaction limit never falls with height, and is below the hard cap exactly up to the height where the cap sets in |
| Schedule.LimitAtDoublings | processor.go:540-556 | At every doubling the limit is 10000 times a power of two |
| Schedule.LimitBetween | processor.go:540-556 | Between two doublings the limit grows linearly, rounded down, at every height below the cap |
| Schedule.PaymentSeriesAccepted | transaction.go:143-152 | A payment's series is accepted in exactly the blocks up to the end of the next series, at least the next 908, also below height 100 where the division is of a negative number |
| Schedule.CoinbaseSeriesAccepted | transaction.go:143-147 | A coinbase's series is accepted at the heights of its own series and nowhere else |
| Types.WrapIs | processor.go:608-645 | The 64-bit sums of fees and of the coinbase are the congruent number in the signed range |
| Balances.PossibleWhen | balance_cache.go:34-56 | A coinbase always applies; a payment exactly when what it leaves its sender is nothing, or positive and at least the minimum |
| Balances.BalApply | balance_cache.go:34-72 | The sender's balance falls by amount and fee, the recipient's rises by the amount, and no other changes |
| Balances.BalUndo | balance_cache.go:75-109 | Undoing is possible exactly when the recipient still has the amount, and moves every balance back |
| Balances.UndoInvertsApply | balance_cache.go:34-109 | Undoing a transaction just applied gives back the same table, and the "Recipient balance went negative" panic is not reached |
| Balances.UndoAllInvertsApplyAll | balance_cache.go:34-109 | The same for any sequence of transactions, undone last one first |
| Balances.ApplyAllKeepsCovers | balance_cache.go:34-72 | What one table of balances can pay, in order, any table that has at least as much for every key can pay |
| Balances.TotalApply | balance_cache.go:34-72 | A payment lowers the sum of all balances by its fee, a coinbase raises it by its amount |
| LedgerDB.BalanceCache.Apply | balance_cache.go:34-72 | Succeeds for a coinbase, and for a payment exactly when the sender is left with nothing or with a positive balance of at least the minimum; the table that the overlay stands for then has every balance moved by amount and fee, and else nothing changes |
| LedgerDB.BalanceCache.Undo | balance_cache.go:75-109 | Fails exactly when the recipient has less than the amount; else the table that the overlay stands for is the table undone |
| LedgerDB.BalanceCache.Reset | balance_cache.go:27-29 | The overlay stands for the ledger's own balances again |
| LedgerDB.LedgerDisk.ConnectBlock | ledger_disk.go:126-289 | The loops, the write batch and the overlay cache together do one atomic step of the database value, or nothing at all, in every error case |
| LedgerDB.LedgerDisk.DisconnectBlock | ledger_disk.go:292-438 | The same for undoing a block, with pruned indices restored |
| LedgerDB.LedgerDisk.ApplyTransactions | ledger_disk.go:143-230 | Transaction by transaction: none processed already, the matured coinbase in place of the new one, every sender able to pay |
| LedgerDB.LedgerDisk.UndoTransactions | ledger_disk.go:313-379 | Undoing a block's transactions from the last to the first |
| LedgerDB.LedgerDisk.PrunedIndices | ledger_disk.go:441-489 | The indices of the block that falls out of the window, and of no other |
| LedgerDB.LedgerDisk.GetPublicKeyBalance | ledger_disk.go:547-568 | A key without an entry has a balance of zero |
| LedgerDB.LedgerDisk.Balance | ledger_disk.go:804-826 | The iteration adds up to the sum of all balances, whatever the order |
| LedgerDB.LedgerDisk.SetBranchType | ledger_disk.go:94-104 | Flags one block and leaves everything else |
| LedgerModel.SeriesNeverOverlap | processor.go:374-388 | Transactions that are timely 2016 blocks apart differ: the series rule |
| LedgerModel.NewBlockIsNew | ledger_disk.go:150-169 | A block that passes the index check repeats no transaction of the whole chain, even where the index was pruned |
| LedgerModel.ReplayDescribed | ledger_disk.go:126-289 | At every main chain the database holds its tip, its height index, exactly the transactions and key entries of the last 2016 blocks when pruning (all of them when not), positive balances only; and no transaction is on the chain twice |
| LedgerModel.DisconnectInvertsConnect | ledger_disk.go:292-438 | Disconnecting the block just connected restores tip, height index, transaction index, key index and balances exactly, with pruning or without, and never panics |
| LedgerModel.ReplayablePrefix | ledger_disk.go:126-289 | Every prefix of a chain that connects block by block connects |
| Conservation.BlockTotal | ledger_disk.go:143-248 | A block moves the sum of balances by the matured coinbase less its fees |
| Conservation.MoneyIsConserved | inspector/main.go:297-333 | At every main chain the balances add up to the matured rewards less the fees of the last 100 blocks, and every coinbase pays exactly reward plus fees: the 64-bit fee total lost nothing |
| Conservation.BalancesAreMoney | ledger_disk.go:231-248 | Every balance lies in [0, MAX_MONEY], and all are zero before the first coinbase matures |
| MedianTime.SortSorts | processor.go:809-812 | The sorted timestamps are sorted and a rearrangement |
| MedianTime.TimesAre | processor.go:796-808 | The timestamps are those of the last blocks of the branch, newest first |
| MedianTime.MedianAtLeast | processor.go:796-813 | The median is at least m exactly when at most half of the timestamps are below m |
| MedianTime.MedianNeverDecreases | processor.go:599-606 | A block later than the median does not lower it, in growing and in full 11-block windows |
| ChainWalks.ComputeMedianTimestamp | processor.go:796-813 | The walk through the store finds the median of the branch's last eleven blocks, fewer near genesis |
| ChainWalks.ComputeTargetBitcoin | processor.go:691-746 | The walk of 2015 or 2016 blocks finds the first block of the interval on the branch, so the result is the target that Targets.RetargetsEvery2016 and Targets.RetargetIsProportional describe |
| ChainWalks.ComputeTarget | processor.go:683-793 | The target before and after height 28861, and exactly when its computation panics |
| ChainWalks.ShallowTarget | processor.go:749-756 | When the window starts on the branch, the target is the one the branch itself gives |
| Targets.LowerTargetMoreWork | block.go:151-161 | A lower target is at least as much work, which is 2^256 divided by target plus one |
| Targets.RetargetBounds | processor.go:712-746 | A retarget divides a target by at most four and never exceeds the initial one |
| Targets.RetargetFollowsTime | processor.go:724-745 | The longer the interval took, the higher the new target |
| Targets.RetargetOnTime | processor.go:724-745 | After exactly two weeks the target stays |
| Targets.RetargetIsProportional | processor.go:724-745 | The new target is the old one times the time taken, within a fourth and four times two weeks, divided by two weeks and rounded down; or the initial one where that is not below it |
| Targets.RetargetsEvery2016 | processor.go:691-746 | The target changes at the heights divisible by 2016 and nowhere else, by the time from the block 2016 before the last one, or from genesis the first time |
| Targets.WorkEstimateBounds | processor.go:762-776 | The estimate lies between the window's work divided by 288 and by 72 |
| Targets.EstimateFollowsTime | processor.go:762-776 | The longer the window took for the same work, the lower the estimate |
| Targets.EstimateIsProportional | processor.go:762-776 | The estimate is the work of the window times ten minutes, divided by the time it took, within half a day and two days, rounded down |
| Targets.TargetIsWorthEstimate | processor.go:778-793 | The target is the highest one whose work is at least the estimate, or the initial one |
| Targets.RetargetsOver144 | processor.go:683-756 | Up to height 28861 the first rule holds, then the window of the 144 blocks up to the last one |
| Targets.TargetBitcoinCashBounds | processor.go:749-793 | With work in the window the target is in [71, INITIAL_TARGET], and the block's work is at least the estimate |
| Targets.TargetOfAnyWindow | processor.go:758-793 | For any window, on the branch or off it: a panic exactly for an estimate of 0 or -1, a target in (0, INITIAL_TARGET] above, and for e below -1 exactly 2^256 / -e + 1 |
| Targets.TargetTooHigh | processor.go:758-793 | Such a window, with work 1144 before and 1000 after, asks for a target of 2^255 + 1 |
| Targets.RetargetIsDefined | processor.go:749-793 | A window whose targets are at most INITIAL_TARGET has that work: no division by zero and no overflow, on every branch |
| Targets.LeastTargetAt14 | processor.go:712-746 | After the fourteen retargets up to height 28861 a target is at least 0xffff * 2^180 |
| Targets.TargetsInRange | processor.go:582-590 | Along every branch whose blocks follow the rules, targets are in (0, INITIAL_TARGET], bounded below per interval at first |
| Targets.NextTargetExists | processor.go:683-793 | On top of every such branch the next target can be computed, and is in the same range |
| Targets.ChainWorkIncreases | block.go:151-170 | Cumulative work is the sum of block works and strictly increases |
| Forks.CompareIsStrictOrder | block.go:192-222 | Comparing stored headers is a strict total order on blocks with different IDs |
| BlockProcessor.OvertakesIffBetter | block.go:192-222 | A header is better exactly with more work; with the same work and stored earlier; or with the same work and time and a smaller ID |
| BlockProcessor.FirstSeenStays | processor.go:819-834 | A block stored no earlier than the tip takes its place only with more work, or with the same work, at the same time, and with a smaller ID: of equal branches the first one seen stays |
| Forks.BranchPrefix | processor.go:836-881 | The branch of a block on a branch is the part up to it |
| Forks.ConnectRepresents | ledger_disk.go:126-289 | On the ledger of a chain a block connects exactly when the longer chain replays, and leaves the ledger of the longer chain, flags included |
| Forks.DisconnectRepresents | ledger_disk.go:292-438 | The tip always disconnects, and leaves the ledger of the chain below it |
| Queue.TransactionQueueMemory.Add | transaction_queue_memory.go:35-58 | Added at the back exactly when it is new and the replayed balances allow it; map, list and balance view still agree |
| Queue.TransactionQueueMemory.AddBatch | transaction_queue_memory.go:62-81 | Disconnected transactions go to the front in their order, each out of its old position |
| Queue.TransactionQueueMemory.RemoveBatch | transaction_queue_memory.go:86-107 | Confirmed transactions leave; unless more blocks follow, what is left is reprocessed; everything else keeps its order |
| Queue.TransactionQueueMemory.ReprocessQueue | transaction_queue_memory.go:110-154 | The loop over a copy while removing keeps exactly the transactions a replay in order accepts, and the balance view is that replay |
| Queue.TransactionQueueMemory.Get | transaction_queue_memory.go:157-175 | The first transactions of the queue, up to the limit |
| Queue.KeptIsReady | transaction_queue_memory.go:110-154 | What reprocessing keeps can all be paid for in order, leaves no sender's balance in (0, minimum), and is eligible for the next block |
| Queue.KeptExactly | transaction_queue_memory.go:110-154 | A transaction is kept exactly when it is eligible for the next block and the balances that those kept before it leave can pay for it |
| Queue.ReadyIsKept | transaction_queue_memory.go:110-154 | Reprocessing keeps a queue that is ready as it is |
| Queue.KeptIsPart | transaction_queue_memory.go:110-154 | What reprocessing keeps is a subsequence of the queue |
| NodeModel.QueueConnected | processor.go:933-944 | After a block is connected the queue is ready for the next one, and nothing in it is on the chain |
| NodeModel.QueueDisconnected | processor.go:911-923 | After the tip is disconnected everything in the queue, its payments included, is verified and off the chain |
| Requeue.NothingIsLost | processor.go:836-907 | What a chain leaves of the payments a node knows of, confirmed on its old chain or queued, is exactly those it does not confirm, in their order |
| Requeue.QueueIsNotOn | transaction_queue_memory.go:35-107 | The queue of a node in order is what its own chain leaves of all it knows of |
| Requeue.RemovedIsNotOn | processor.go:933-944 | Removing a connected block's payments from the queue leaves exactly what the longer chain does not confirm |
| Requeue.PaymentsInFront | processor.go:911-923 | Pushing a disconnected block's payments to the front puts them, in order, before the whole old queue |
| Requeue.KnownStays | processor.go:888-897 | A disconnection forgets no payment and changes no order |
| Requeue.NothingIsLostThereAndBack | processor.go:651-669 | When a reorganisation fails on its way, each payment that was queued is handed to reprocessing again, as it was or as the other branch has it |
| NodeModel.AcceptedGrows | processor.go:559-645 | A block that passes the checks on its branch keeps the tree accepted |
| NodeModel.BestGenesisIsAlone | processor.go:819-834 | Genesis is the best block only while it is the only one, so reconnecting it never needs its parent |
| BlockProcessor.Processor.WalkBack | processor.go:849-869 | Walking back to a height collects the IDs above it, in both orders |
| BlockProcessor.Processor.WalkBoth | processor.go:871-886 | Walking two branches in step stops at their highest common block |
| BlockProcessor.Processor.FindFork | processor.go:836-886 | The disconnect list is the main chain from the tip down to just above the highest common ancestor, the connect list is the new branch upwards, and they share nothing |
| BlockProcessor.ForkIsDisjoint | processor.go:836-907 | No block is both disconnected and connected |
| BlockProcessor.Processor.ConnectBlock | processor.go:933-952 | Ledger and queue move to the longer chain together, or not at all; the queue is what the longer chain leaves of it, reprocessed unless more blocks follow |
| BlockProcessor.Processor.DisconnectBlock | processor.go:911-930 | Ledger and queue move to the shorter chain together; the queue is the block's payments, without its coinbase, and then the old queue |
| BlockProcessor.Processor.DisconnectAll | processor.go:888-897 | The disconnections end at the fork and each meets the ledger's tip check; every payment of a disconnected block and every queued one is still known, in order |
| BlockProcessor.Processor.ConnectAll | processor.go:899-904 | The connections follow the new branch, and stop exactly at the first block that does not replay; the queue is what the chain reached leaves of all that was known, reprocessed after the last block |
| BlockProcessor.Processor.AcceptBlockContinue | processor.go:816-908 | Which of the four ways it ends, and the chain, tree and ledger in each; a better block is connected exactly when the new chain replays, and the queue is then what reprocessing keeps of all old payments, confirmed or queued, that the new chain does not confirm |
| BlockProcessor.Processor.ReconnectTip | processor.go:955-972 | After a failed reorganisation reconnecting the old tip always succeeds |
| BlockProcessor.Processor.AcceptStored | processor.go:651-669 | If accepting fails at any point the chain and the whole ledger are as before the attempt, and the queue is what the way there and back leaves; in every case the tip is the best block, the queue is ready, and no payment was dropped except by reprocessing |
| BlockProcessor.Processor.VerifyTransactions | processor.go:608-637 | All transactions timely and verified, although those queued with the same signature are not verified again; the 64-bit fee total |
| BlockProcessor.Processor.VerifyBlock | processor.go:608-645 | Exactly the blocks whose transactions are timely and verified and whose coinbase pays the reward |
| BlockProcessor.Processor.CheckHeader | processor.go:559-606 | Height, target, work and time are those the branch calls for; and exactly when the node panics |
| BlockProcessor.Processor.AcceptBlock | processor.go:559-669 | A valid block is stored and accepted or rolled back; any other changes nothing |
| BlockProcessor.Processor.BeginLedger | processor.go:415-427 | Genesis starts the ledger |
| BlockProcessor.Processor.ProcessBlock | processor.go:391-435 | For every block in every state: whether it is valid, what becomes of it, that the chain moves only for a block that overtakes the tip, and that an error leaves chain, flags and ledger untouched |
| BlockProcessor.IndexTells | processor.go:220-227 | The transaction index tells of every timely transaction whether it is confirmed, also when pruned |
| BlockProcessor.Processor.CheckLoose | processor.go:193-261 | Exactly the transactions that are sane, verified, unconfirmed on the whole chain and eligible for the next block |
| BlockProcessor.Processor.ProcessTransaction | processor.go:190-278 | Queued exactly when admissible and affordable; the node stays in order |
| BlockProcessor.Processor.Run | processor.go:95-146 | After any sequence of blocks and transactions the node is in order, every flagged block is still flagged, every block answered with success is flagged, and the tip is the old one or beats it |
| BlockProcessor.Processor.constructor | processor.go:70-87 | A new node is in order, with an empty ledger |
| Reachable.TipIsBest | block.go:192-222 | After every run the tip has more work than every other block flagged MAIN or SIDE, or the same work and was stored earlier, or both the same and the smaller ID |
| Reachable.EveryBlockChecked | processor.go:438-536 | After every run every block flagged MAIN or SIDE satisfies its proof of work, its checkpoint, the transaction limit, its count and hash list root, and has numbers in range and a time at most two hours after it was stored |
| Reachable.EveryTransactionSane | processor.go:281-371 | Every transaction of such a block: a coinbase first and nowhere else, none to its own sender, amount, fee, memo and numbers in range |
| Reachable.EveryPaymentTimely | processor.go:608-637 | Every payment of such a block is verified, not past its expiry, not past the height its maturity names, and of the series its height calls for |
| Reachable.EveryQueuedTimely | processor.go:230-261 | After every run the same of every queued payment for the next block, which moreover is unconfirmed and has at least the minimum amount and fee |
| Reachable.NoDust | transaction_queue_memory.go:110-154 | After every run each queued payment, in its turn, leaves its sender nothing or at least the minimum balance |
| Reachable.IndexPoints | ledger_disk.go:150-169 | After every run the transaction index points at the transaction on the main chain |
| Reachable.ConnectsWhen | ledger_disk.go:126-289 | On the ledger of any chain a sane next block connects exactly when none of its transactions is indexed and each sender, in its turn, has amount and fee |
| Reachable.BlockConnectsWhen | ledger_disk.go:126-289 | The same for every running node |
| Reachable.BranchesPassCheckpoints | checkpoints.go:23-36 | Every accepted branch as high as a checkpoint goes through it |
| Reachable.HeightIndexIsMainChain | ledger_disk.go:250-273 | The height index runs without a gap from genesis to the tip, linked by parents and flagged MAIN |
| Reachable.MainIsInHeightIndex | ledger_disk.go:399-422 | Every block flagged MAIN is in the height index |
| Reachable.MoneySupply | inspector/main.go:297-333 | After every run the money adds up, each balance lies in [0, MAX_MONEY], and every coinbase is exact |
| Reachable.ConfirmedAtMostOnce | ledger_disk.go:275-280 | After every run no transaction is on the main chain twice, and the index holds exactly the window's |
| Reachable.MedianNeverFallsOn | processor.go:599-606 | Along every accepted branch each block is later than the median time before it, which never decreases |
| Reachable.WorkIncreasesOn | processor.go:582-597 | On every accepted branch without a deep fork: targets in (0, INITIAL_TARGET], at least 0xffff * 2^180 up to height 28861, and work that is the sum of block works and strictly increases |
| Reachable.NextTargetExistsOn | processor.go:683-793 | After every run there is a target in (0, INITIAL_TARGET] on top of such a branch; and while its window starts on the main chain, the computation gives it without a panic |
| Reachable.PeerServes | peer.go:1064-1113 | What a peer reads from a running node is its main chain |
| Reachable.NodesPart | peer.go:1064-1113 | The main chains of two nodes with the same genesis, whose blocks agree, have a common part, and nothing in common after it |
| HeaderJson.SerializeFits | block_header_hasher.go:66-79 | The fixed buffer is long enough for every header with non-negative numbers |
| HeaderParse.ReadHex | block_header_hasher.go:88-119 | The hexadecimal digits of a number read back as it, at every width that holds it |
| HeaderParse.ReadDecimal | block_header_hasher.go:104-142 | The decimal digits of a number read back as it |
| HeaderParse.ParseSerialize | block_header_hasher.go:82-149 | A reader that knows the field names finds every field of the header after its name in the text |
| HeaderParse.SerializeIsInjective | block_header_hasher.go:82-149 | Headers with the same text are the same but for the ID they carry |
| HeaderHasher.Skip | block_header_hasher.go:168-255 | Pieces that were there before at the same place need not be written, also when growth and shrinkage cancel |
| HeaderHasher.BlockHeaderHasher.InitBuffer | block_header_hasher.go:82-149 | The buffer holds the whole serialized header, and all offsets and lengths point into it |
| HeaderHasher.BlockHeaderHasher.PatchTime | block_header_hasher.go:168-203 | Time rewritten, and the text up to the nonce only if it shifted |
| HeaderHasher.BlockHeaderHasher.PatchNonce | block_header_hasher.go:205-230 | Nonce rewritten or moved, and the text up to the count only if it shifted; a device leaves a stale nonce in place |
| HeaderHasher.BlockHeaderHasher.PatchCount | block_header_hasher.go:232-251 | Count rewritten or moved, and the end only if it shifted |
| HeaderHasher.BlockHeaderHasher.Patch | block_header_hasher.go:159-255 | After any change of the four variable fields the buffer is the serialization of the header, up to a device's stale nonce; no write leaves the buffer; "unchanged" means unchanged |
| FastID.HashBuffer | block_header_hasher.go:280-285 | Hashing the buffer gives the ID of the header it shows |
| FastID.Update | block_header_hasher.go:152-286 | The fast ID is the ID of the whole header, after any sequence of updates |
| FastID.AroundNonce | block_header_hasher.go:289-301 | The parts around the nonce do not depend on it, and with any nonce between them are the whole header |
| FastID.UpdateDevice | block_header_hasher.go:289-300 | After every update the device holds the parts of the header at hand, although they are sent only when the buffer changed |
| FastID.CheckSolution | block_header_hasher.go:257-285 | With the nonce a device found the ID is that of the whole header with this nonce, without one it is the largest number; and the device still holds the parts of the header |
| FastID.TryNonce | opencl/cruzbit.cl:271-292 | The kernel accepts exactly the nonces with which the whole header's ID is at most the target |
| Sponge.AbsorbSplit | opencl/sha3.cc:112-127 | Absorbing in two parts is absorbing the whole |
| Sponge.PadIs | opencl/cruzbit.cl:171-183 | The padded message is the message, 0x06, zeros and a last 0x80 (0x86 when there is room for one byte), to a multiple of 136 bytes |
| Sponge.FinishIsSha3 | opencl/cruzbit.cl:171-183 | The byte-wise sponge computes SHA3-256 as FIPS 202 defines it on padded blocks, for every message and permutation |
| Sponge.Sha3InParts | opencl/mine.cc:28-44 | A midstate on the host continued on the device gives the digest of the whole message |
| Device.Sha3Context.Update | opencl/sha3.cc:112-127 | The state array updated in place is the running sponge |
| Device.Sha3Context.Final | opencl/cruzbit.cl:171-183 | The two last exclusive-ors and the permutation finish the sponge |
| Device.Memcmp | opencl/cruzbit.cl:185-197 | Comparing bytes is comparing the numbers they write |
| Device.Reverse | opencl/cruzbit.cl:205-221 | The characters before the terminator reversed in place, everything else untouched |
| Device.Itoa | opencl/cruzbit.cl:231-249 | The decimal text of a number, with its sign, in any buffer that has room for it and a terminator |
| Device.MinerState.Update | opencl/mine.cc:28-44 | Midstate, suffix and target are those of the header |
| Device.MinerState.Kernel | opencl/cruzbit.cl:271-292 | One thread's answer is about the digest of prefix, nonce and suffix |
| Locator.Peer.SendFindCommonAncestor | peer.go:1004-1061 | The locator holds the main chain's IDs 0 to 11, 13, 17, 25, ... below its start, then genesis |
| Locator.Peer.OnFindCommonAncestor | peer.go:1064-1113 | An ID on the main chain is answered with the up to 500 IDs right after it; the last one is remembered |
| Locator.Peer.OnMessage | peer.go:560-577 | The first entry on the main chain is the one that is answered |
| Locator.FirstMatch | peer.go:1025-1047 | For a fork d blocks below the tip the match is at depth at most 2d, and exactly d for d up to 11 |
| Locator.LocatorIsShort | peer.go:1025-1048 | A locator has at most 12 + log2(height) IDs |
| Locator.FindCommonAncestor | peer.go:1004-1113 | The whole exchange: the answer continues the other's chain from a common block at most twice as deep as the fork |
| InFlight.BlockQueue.Add | block_queue.go:38-58 | Taken exactly when the block is not queued, or was at least two minutes ago: added at the back, or taken over in place; map and list agree |
| InFlight.BlockQueue.Remove | block_queue.go:62-74 | Removed by the peer responsible and by nobody else |
| InFlight.Downloads.ProcessDownloadQueue | peer.go:949-1000 | Terminates with the in-flight queue full, the download queue empty, or its front downloaded by another peer; what left the front is requested in order, unless it has been processed |
| InFlight.Downloads.OnInvBlock | peer.go:758-803 | Which announced blocks are passed over, when more are asked for, and that any other is queued last before the queue is processed; queues stay disjoint and bounded, and what this peer owns it has in flight |
| InFlight.Downloads.OnBlock | peer.go:873-946 | What each block that arrives is taken for, when the peer is disconnected, and what is given up, ignored and requested next |
| InFlight.Downloads.OnDisconnect | peer.go:196-204 | Everything this peer was responsible for is free again, and nobody else's |
| InFlight.RequestAmongOthers | peer.go:957-989 | A request, with any steps of other peers and of the processor after its look at the ledger and after its claim: the claim is made on the shared queue as it is then, and the block ends up in flight |
| InFlight.ReleaseAmongOthers | peer.go:935-937 | Giving a block up, with any such steps in between, frees it exactly if this peer still owns it |
| InFlight.StepKeepsInv | peer.go:949-1000 | Every look at the ledger and every operation on the shared queue, of every peer, keeps ownership, disjointness and bounds |
| InFlight.EveryRun | block_queue.go:38-74 | In every interleaving the owner of every block in the shared queue is connected and has it in flight, or is between its two operations on it |
| History.HistoryAgrees | ledger_disk.go:830-903 | The history of a chain adds up to the stored balance and the coinbases counted before they mature |
| History.NeverNegative | ledger_disk.go:873-880 | At no transaction of the chain is the history's balance negative |
| History.HistoryIsBalance | ledger_disk.go:830-903 | The history of the first n blocks adds up to the balance they leave plus the coinbases among them that have matured only since, and no part of it is negative |
| History.ListingIsHistory | ledger_disk.go:217-229 | What an iterator over an unpruned index yields up to a height is the key's history in order |
| Audit.VerifyTotal | inspector/main.go:293-333 | At the tip of every running node the inspector finds what it expects |
| Audit.GetPublicKeyBalanceAt | ledger_disk.go:830-903 | For every key and int64 height: no error is reported, and the result is the balance at that height plus a known excess: the key's coinbases that have matured only since, and below -1 all that the key has now |
| Audit.ExactWhen | ledger_disk.go:843-859 | So it is the balance at that height exactly when no coinbase of the key, immature then, has matured since; and below -1 exactly when the key has nothing now |
| Audit.GenesisCountsEarly | ledger_disk.go:856-859 | On every chain of more than a hundred blocks the balance at height 0 is reported with the genesis coinbase, and was zero |
| Audit.BelowGenesisFindsTip | ledger_disk.go:843-848 | At height -2 and below the balance at the tip is reported, and was zero |
| Audit.TipIsStored | inspector/main.go:334-351 | At the tip the balance recomputed from the history is the stored one |
| Audit.NodeHolds | ledger_disk.go:126-289 | Every running node that does not prune holds what the recomputation reads |
| KeyIndex.EncodeOrder | ledger_disk.go:972-995 | The byte order of big-endian numbers is their order |
| KeyIndex.EntryOrder | ledger_disk.go:972-995 | The byte order of database keys is the order of public key, height and index, read as unsigned numbers, for every height and index |
| KeyIndex.KeyRoundTrip | ledger_disk.go:997-1015 | A database key decodes to the entry it encodes |
| KeyIndex.RangeIs | ledger_disk.go:678-693 | The byte range of a query holds exactly its key's entries of the query with its numbers read as unsigned, and none of any other key |
| KeyIndex.RangeIsExact | ledger_disk.go:659-693 | For every int64 start and end and every start index: the range is exactly what was asked for if and only if nothing lies below height zero (or nothing is asked for) and the index survives its cut to 32 bits |
| KeyIndex.NegativeStartFindsNothing | wallet/main.go:406-413 | Going up from a negative height finds nothing, although everything up to the end is asked for |
| KeyIndex.UpToHeight | ledger_disk.go:836-848 | The byte range up to a height holds exactly the key's entries up to it, for every int64 height: from -2 down, and where one more wraps around, all of them |
| KeyIndex.ScanKey | ledger_disk.go:850-851 | The iteration of that range |
| KeyIndex.ScanForward | ledger_disk.go:678-737 | The entries of the range in order, up to the limit, and where it stopped |
| KeyIndex.ScanReverse | ledger_disk.go:740-800 | The entries of the range in reverse order, up to the limit, and where it stopped |
| KeyIndex.GetPublicKeyTransactionIndicesRange | ledger_disk.go:659-673 | Forward or in reverse, for every pair of int64 heights |
| KeyIndex.Resume | wallet/main.go:411-418 | Resuming right after the last place loses and repeats nothing |
| KeyIndex.EnumerateAll | wallet/main.go:411-431 | Page after page yields every entry of the range exactly once |
| KeyIndex.PagingIsExact | wallet/main.go:411-431 | These are the entries asked for if and only if the start is not negative or none is asked for |
| KeyIndex.RewardsFound | wallet/main.go:406-431 | The search for immature rewards finds all of them from tip height 99 on, and nothing below |
| KeyIndex.GenesisRewardNotFound | wallet/main.go:406-431 | The case of a chain of genesis alone |
| Miner.QueueApplies | ledger_disk.go:171-215 | Any part of the front of the queue can be paid for, also after the matured coinbase is credited |
| Miner.MinedCanConnect | ledger_disk.go:150-215 | A fresh coinbase and any part of the front of the queue pass the checks of the ledger |
| Miner.AmountIsMoney | miner.go:261-269 | Reward and fees of any front part of the queue are together at most MAX_MONEY, on every running node |
| Miner.SaneWhenMinable | processor.go:281-371 | The coinbase is sane exactly if clock and random number are in range, the memo is at most 100 long, and there is a reward or a fee |
| Miner.LongMemoIsRefused | client/main.go:172-179 | With a memo of 101 characters, which nothing stops, no mined block is sane |
| Miner.NothingToPayIsRefused | processor.go:335-341 | Nor is an empty one from the 33rd halving on |
| Miner.CreateNextBlock | miner.go:255-289 | Panics exactly when the next target or work cannot be computed; otherwise a block on the tip with the right height, target and work, holding the front of the queue behind a coinbase that pays the given key exactly reward plus fees, with the given memo |
| Miner.CreatedPasses | processor.go:608-645 | Its transactions are timely, verified and paid for, it connects if its coinbase is fresh, and it passes all checks on transactions exactly if it is minable |
| Miner.StartBlock | miner.go:190-209 | With its time raised above the median, the block is acceptable to the processor exactly if it is minable, which is a condition on the clock, the memo, the height and the queue |
| Miner.NextIsBetter | block.go:192-222 | On a chain without a deep fork a block on the tip beats it |
| Miner.SolvedPasses | processor.go:438-536 | Of the checks on a block by itself only its proof of work, its time, its nonce, its height and its checkpoint remain |
| Miner.Submit | miner.go:215-228 | Minable, solved, and with a fresh coinbase, the block is accepted, and becomes the tip if it beats it: always, on a chain without a deep fork |
| Miner.MinedBlock.AddTransaction | block.go:86-104 | The incremental hash list root is the root of the whole list |
| Miner.RootTells | block.go:107-147 | With hashes free of collisions, equal hash list roots mean the same transactions in the same order |
| Miner.RewardStillPaid | block.go:91-104 | The coinbase still pays the reward and all fees, in 64 bits |
| Miner.AddedIsCreated | miner.go:150-170 | A block that holds the whole queue, with the transaction added that has just been queued, is the block that would be created now; so it passes and connects |

## Left out

- Storage errors, LevelDB, files, compression and serialization of blocks: the database and the block store are maps, and a batch is one assignment.
- Length checks of keys and signatures and the UTF-8 check of memos: easy checks of a single transaction.
- WebSocket, TLS, DNS, IRC and UPnP code, the other peer messages, wallets, and the inspector's display: input and output.
- Notifying channels about new tips and transactions; goroutines, tickers and shutdown: each request to the processor is one step.
- The Keccak permutation, Ed25519 and their bit-level code: an arbitrary permutation, and a function parameter.
- The CUDA sources, which repeat the OpenCL path, and races between device threads: one thread of the kernel is modelled.
- Negative numbers in a header that is being mined, and a negative nonce on the device: checkBlock refuses them.
- Block IDs looked up for the entries of a scan (ledger_disk.go:700-716): a lookup in the height index, covered by Reachable.HeightIndexIsMainChain.
- Device.Itoa: leaves out the least int64, whose negation is undefined in C.
