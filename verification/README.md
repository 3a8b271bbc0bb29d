# Verification of a CryptoNote node and wallet

This project models the stateful core of a CryptoNote node and its wallet in
Dafny and proves what the code relies on. The database is a finite map, hashes
are unique names, and ring signatures, key images and proofs of work are
uninterpreted. A failed `invariant(...)` of the source, which ends its run, is
a `None`, `Dead` or `false` result; the invariants show where it cannot happen.

Run `dafny verify dfyconfig.toml`.

Most components come in two layers. A specification layer of functions on
values follows the source branch by branch, and the theorems are lemmas about
it. An imperative layer of classes and methods has the fields and loops of the
source, and each method is proved against the function of the same operation.

- **Consensus** (`ChainLedger`, `Overlay`, `Redo`, `RedoChecked`, `BlockRedo`,
  `BlockChecks`, `HeaderTree`, `ChainIndex`, `BlockChain`, `ChainReplay`,
  `ForkChoice`, `BlockEnds`, `ChainEnds`, `RepeatRun`; in place `ChainState`,
  `ChainNode`). Blocks are validated through stacked overlays, applied, and
  undone on reorganisation. A block goes through exactly when every input may
  spend; overlays refine direct execution, undo inverts redo, and after any
  sequence of submitted blocks the state is what the blocks of the main chain
  say. The branch with more work becomes that chain, as far as it goes through. A
  run ends only for clashing key images or hashes.
- **Pool** (`Mempool`, `MempoolState`, `PoolContents`, `NodePool`). Four redundant
  structures agree on every return path and share no key image with the chain,
  in every run of the chain and the pool together; an accepted transaction
  survives the eviction that follows it, and a reorganisation loses none that
  fits.
- **Wallet** (`Int128`, `WalletTypes`, `WalletLedger`, `WalletInvariant`,
  `WalletRun`, `WalletUnlock`, `WalletHoldings`, `WalletBalance`, `WalletLocked`,
  `UndoJournal`; in place `WalletState`). Balances are the sums over the indexes,
  which outputs are locked, held and spent follows from what arrived in the run,
  the read-only predictors foretell the mutating code, the listing agrees with
  the balance, and the undo journal is exact.
- **Coin selection** (`Amounts`, `CoinStore`, `CoinSelector`, `Payment`). Coins
  are conserved, funds are found exactly when they are there, the loop over
  fees terminates, and the amounts of a payment balance.
- **Protocols** (`Download`, `Answers`, `NodeDownloader`, `RingChecker`, `WalletPrep`).
  Each locked section or event is one step; the invariants hold in every
  interleaving.
- **Sync** (`Locator`). The sparse chain brings a requester within twice its
  fork depth.
- **Arithmetic and codecs** (`Numerals`, `Base58`, `Base58Buffers`, `Varint`,
  `WideInt`, `Difficulty`, `Currency`).

Three assumptions about what is uninterpreted are stated where they are used:
`BlockRedo.Sound` (a valid signature over a ring of one fixes the key image),
`BlockChain.Trusted` (blocks below the software checkpoints, whose signatures
are not checked, obey the same rule), and `Locator.SameHeaders` (a hash
determines its header).

Where the code and its comments or asserts disagree, the code is followed:

- A comment in `add_transaction` says that its second fee check never fails.
  It can, and then another transaction has already been removed from the pool
  (`Mempool.RefusalLoses`, `Mempool.RefusalCosts`).
- `undo_transaction` always clears the spent flag, so undo is exact only when
  the flag was clear (`ChainLedger.UndoTxsExactlyInverts`); accepted blocks
  meet this (`BlockRedo.BoundNoneSpent`).
- `get_balance` and `api_add_unspent` start a cursor at the confirmed height
  plus one, which wraps for the last 32-bit height
  (`WalletBalance.LastHeightWraps`, `WalletBalance.LastHeightFails`). The RPC
  handlers never pass that height: they clamp the height to the tip
  (`src/Core/WalletNode.cpp:219-227`, used at 229-242) or refuse one above it
  (`src/Core/WalletNode.cpp:295-300`).
- `get_penalized_amount` asserts that a block is at most twice its median; the
  consensus limit on block sizes ensures it only from height 2 to 921447
  (`Currency.SizesAdmitted`, `Currency.AdmittedTooLarge`,
  `Currency.FactorWraps`).
- `start_work` of the wallet preparator keeps what was prepared before it, and
  is right only when nothing was (`WalletPrep.StaleServed`), as after
  `cancel_work` (`WalletPrep.ReadyExact`).
- Two inputs of one block with the same key image are not refused: an
  `invariant(...)` fails and `add_block` ends the program
  (`BlockEnds.RedoBlockEnds`, `ChainEnds.RepeatEnds`, `RepeatRun.RepeatEndsRun`).
- `get_balance` looks a recent unlock up under the amount of the output,
  `api_get_locked_or_unconfirmed_unspent` under the amount it added, which is
  less when a smaller output was displaced; and only the list leaves out what is
  locked and spent in the pool (`WalletLocked.LockedGap`,
  `WalletLocked.LockedListFails`).
- Two cells of the download window can wait for the same block, when a client's
  chain has one hash twice. If both are prepared before `on_idle`, no thread
  has the block of the second one (`NodeDownloader.RepeatStuck`,
  `NodeDownloader.DistinctNotStuck`).
- From version 4 on the base reward is divided by 32 more, but only where it is
  at least 32, so that it rises from 1 to 31 when the coins left fall below
  2097152 (`Currency.BaseRewardFalls`, `Currency.BaseRewardRises`).


## Model

| member | source | states |
|---|---|---|
| ChainLedger.PopPush | src/Core/BlockChainState.cpp:1056-1078 | popping the output just pushed for an amount gives back the ledger before, and none of the checks in pop_amount_output fails |
| ChainLedger.ExecTxsValid | src/Core/BlockChainState.cpp:1033-1089 | executing transactions keeps every amount's outputs numbered from zero without gaps |
| ChainLedger.UndoTxsInverts | src/Core/BlockChainState.cpp:889-903 | undoing transactions after executing them always succeeds and restores key images, output stacks and next indexes; spent flags come back as not spent |
| ChainLedger.UndoTxsExactlyInverts | src/Core/BlockChainState.cpp:889-903 | undo restores the ledger exactly if and only if no output spent through a ring of one was flagged spent before |
| Overlay.ApplyAnswers | src/Core/BlockChainState.cpp:49-112 | applying a non-conflicting overlay to what is below it answers read_keyimage, next_global_index_for_amount and read_amount_output (apart from the spent flag) as the overlay did |
| Overlay.CollapseAnswers | src/Core/BlockChainState.cpp:49-112 | the same for a stack of any number of overlays applied one into the next |
| Overlay.ApplyMerged | src/Core/BlockChainState.cpp:104-112 | applying an overlay to the one under it and then to the chain is applying them one after the other |
| Redo.RedoTxRefines | src/Core/BlockChainState.cpp:815-887 | one transaction redone without checks, as redo_block does, in its own overlay over the block's, then applied, is its direct execution, and its recorded indexes are those of that execution |
| RedoChecked.InputsChecked | src/Core/BlockChainState.cpp:830-876 | with the checks on the inputs go through exactly when they do without and each passes: key image not spent below, ring there and unlocked, signature valid; no invariant fails |
| RedoChecked.RedoTxChecked | src/Core/BlockChainState.cpp:815-887 | a checked transaction, as in add_transaction, is accepted exactly when every input passes and its direct execution succeeds; applied it is that execution with the same indexes, and no invariant fails |
| RedoChecked.ConflictIs | src/Core/BlockChainState.cpp:826-851 | for an accepted transaction the conflict height is that of the highest output in its rings, or zero without any |
| RedoChecked.ConflictMissing | src/Core/BlockChainState.cpp:844-848 | for one that names an output that is not there it is the highest height |
| Redo.RedoTxsRefines | src/Core/BlockChainState.cpp:905-921 | a whole list of transactions redone through stacked overlays is their direct execution on the ledger below |
| BlockRedo.RedoBlockRefines | src/Core/BlockChainState.cpp:923-955 | a redone block changes the ledger exactly as executing its transactions does; a refused one changes nothing |
| BlockRedo.IndicesOccupied | src/Core/BlockChainState.cpp:923-940 | every global index recorded for a block's outputs is the position that output occupies after the block |
| BlockRedo.StartWorkBound | src/Core/RingCheckerMulticore.cpp:73-123 | an input with a ring of one whose posted signature is valid has the key image its output determines, for a signature scheme that is sound; what is posted, and that rings of any size are checked, is BlockChecks.StartWorkIs |
| BlockChecks.AbsoluteIndexesAre | src/Core/BlockChainState.cpp:837-841 | the n-th output of a ring is at the sum of the first n stored numbers, modulo 2 to the 32 |
| BlockChecks.SpendUnlockedIs | src/Core/Currency.hpp:124-130 | an output is open when its unlock height is at most the next one, or its unlock time at most a minute ahead, as far as the 32-bit sums do not wrap around; then only height zero is |
| BlockChecks.RingRefused | src/Core/BlockChainState.cpp:843-856 | a refused ring is refused for its first output that is missing or locked, with the error for which of the two |
| BlockChecks.CheckInputIs | src/Core/BlockChainState.cpp:830-858 | an input passes the checks on the chain exactly when its key image is new and every output of its ring is there and unlocked; otherwise the error says which check failed first; the keys are those of the outputs at its ring positions |
| BlockChecks.StartWorkIs | src/Core/RingCheckerMulticore.cpp:73-123 | all that is posted for a block is valid exactly when for every input of every transaction, whatever its ring size, the key image is new, the ring is there and unlocked, and its signature is valid for the keys at its ring positions |
| BlockChecks.RedoneWhen | src/Core/BlockChainState.cpp:923-955 | with the checks on redo_block goes through exactly when all inputs may spend so and the block has no key image twice |
| BlockRedo.BoundNoneSpent | src/Core/BlockChainState.cpp:815-887 | with key images fixed by their outputs, an accepted block spends no output already flagged spent, so undoing it is exact |
| BlockRedo.ExecSpentRecorded | src/Core/BlockChainState.cpp:1033-1110 | every flagged output has its key image stored, kept by execution |
| ChainIndex.DelPutTxs | src/Core/BlockChain.cpp:470-517 | removing the transaction index entries of a block restores the index before it |
| ChainIndex.RedoIndexedRefines | src/Core/BlockChain.cpp:470-500 | redo_block of the chain: on success exactly the execution of the block and its index entries |
| ChainIndex.UndoIndexedInverts | src/Core/BlockChain.cpp:502-517 | undo_block after redo_block restores ledger, transaction index, global indexes and timestamp index exactly |
| HeaderTree.GetCommonBlock | src/Core/BlockChain.cpp:294-331 | terminates at a common ancestor and fills the two lists with the two branches above it, which share no block |
| HeaderTree.ForkHighest | src/Core/BlockChain.cpp:294-331 | the fork point is the highest block on both branches |
| BlockChain.UndoToFork | src/Core/BlockChain.cpp:225-251 | undoing to the fork leaves the chain on the branch of the new tip, with everything above it ready to redo |
| BlockChain.ReorganizeKeeps | src/Core/BlockChain.cpp:225-292 | a reorganisation, complete or stopped half way, leaves a chain that is a prefix of the new branch at least as long as the fork, and the state its replay gives |
| BlockChain.AddBlockKeeps | src/Core/BlockChain.cpp:147-206 | add_block keeps the invariant: main chain a branch of the header tree, state the replay of its blocks |
| BlockChain.RunReplays | src/Core/BlockChain.cpp:147-292 | after any sequence of submitted blocks the whole state equals a replay of the blocks from genesis to the current tip |
| BlockChain.StateFollowsChain | src/Core/BlockChain.cpp:147-292 | two histories with the same main chain have the same state |
| BlockChain.AddBlockTip | src/Core/BlockChain.cpp:147-206 | whenever add_block moves the tip the new chain is the branch of the submitted block or a part of it; where it must move is ForkChoice.HeavierWins |
| ForkChoice.HeavierWins | src/Core/BlockChain.cpp:147-206 | after a new block with no more work than the tip nothing moves; with more, the main chain is the block's branch, or ends on it no lower than where it left it and below a block that is refused on the state there; the answer is to broadcast exactly when the block is the tip, to ban exactly when it was refused on top of the tip |
| ForkChoice.WholeBranchWins | src/Core/BlockChain.cpp:186-196 | a block with more work is the tip exactly when no block of its branch was refused |
| ForkChoice.FirstBlock | src/Core/BlockChain.cpp:175-179 | an accepted genesis is the chain |
| ForkChoice.NotStored | src/Core/BlockChain.cpp:150-169 | a block that is known, has no known parent or fails its checks changes nothing, and only the last is a ban |
| ForkChoice.StoredAs | src/Core/BlockChain.cpp:154-174 | a new block is written with its header, one higher than its parent and with the work it was found to have, and no other block or header changes |
| ForkChoice.TipWork | src/Core/BlockChain.cpp:147-292 | after any run the tip's recorded work is what that block was found to have when it was submitted |
| ChainReplay.ReplayLedger | src/Core/BlockChainState.cpp:1033-1111 | what a replay leaves in the ledger, told from the blocks alone: each amount's stack is the outputs of that amount in the order of the chain with unlock, key and height; each key image has the height of the block that has it, and there are no others; the outputs flagged spent are exactly those named by a ring of one |
| ChainReplay.ReplayIs | src/Core/BlockChain.cpp:470-500 | also each block's timestamp under its height, each transaction under its hash with height and place, each output's global index as the number of outputs of its amount before it, and nothing else |
| ChainReplay.RunIs | src/Core/BlockChain.cpp:147-292 | so it is for the state after any sequence of submitted blocks |
| BlockEnds.ExecTxsWhen | src/Core/BlockChainState.cpp:1033-1040 | transactions can be executed exactly when their key images are all different and none is stored, and then these are what is stored |
| BlockEnds.RedoBlockEnds | src/Core/BlockChainState.cpp:923-955 | redo_block fails an invariant, instead of refusing the block, exactly when it has one key image twice and passes the preliminary checks; without checks also for one the chain has |
| BlockEnds.RedoIndexedEnds | src/Core/BlockChain.cpp:470-500 | redo_block with its indexes ends the run exactly for such key images or a transaction hash that is already indexed |
| BlockEnds.RepeatsStart | src/Core/RingCheckerMulticore.cpp:73-123 | whatever the ledger, a block that spends one unlocked output twice with one new key image passes the preliminary checks and has a key image twice |
| BlockEnds.RepeatExample | src/Core/BlockChainState.cpp:923-955 | a ledger of one output and a block of two transactions that spend it: redo_block fails an invariant whatever the signatures are worth |
| ChainEnds.RedoAllEnds | src/Core/BlockChain.cpp:251-289 | redoing the blocks of a branch ends the run exactly when one of them, after those before it went through, clashes |
| ChainEnds.AddBlockEnds | src/Core/BlockChain.cpp:147-206 | add_block ends the run exactly when a stored block is redone and clashes, on the tip or along a reorganisation, or genesis is refused; undoing never does |
| ChainEnds.RepeatEnds | src/Core/BlockChain.cpp:147-206 | in every state of the invariant, outside the checkpoints, such a block on the tip with more work ends the run |
| RepeatRun.RepeatEndsRun | src/Core/BlockChain.cpp:147-206 | a run from a fresh node: nine blocks that go through, and a tenth that spends the first minted output twice and ends the run |
| NodePool.SpentGrows | src/Core/BlockChain.cpp:225-292 | after any step of the chain what is spent was spent before or by a block put on the chain above the fork |
| NodePool.PoolFollows | src/Core/BlockChain.cpp:225-292 | the pool stays in its invariant, against what the chain has spent by then, when blocks are stored, reorganised and undone |
| NodePool.StoreAllLeft | src/Core/BlockChainState.cpp:1033-1040 | storing the key images of blocks takes exactly the transactions out of the pool that have one of them |
| NodePool.NothingLost | src/Core/BlockChainState.cpp:613-632 | after a reorganisation, when what is offered to the pool is acceptable, has different hashes and key images and fits: every transaction of an undone block is in the pool or in a redone block, and the pool's own stay unless they share a key image with a redone block |
| NodePool.RunAllKeeps | src/Core/BlockChain.cpp:147-292 | in every run of submitted blocks and offered transactions the chain is in its invariant, the pool structures agree, and no pool transaction has a key image the chain has spent |
| NodePool.AcceptedExecutes | src/Core/BlockChainState.cpp:641-749 | a transaction that enters the pool passes every input check on the tip and can be executed there |
| NodePool.PoolExecutes | src/Core/BlockChainState.cpp:714-724 | any different transactions of the pool, in any order, can be executed on the tip |
| ChainState.LastIndex | src/Core/BlockChainState.cpp:1080-1089 | the last output key under an amount is the greatest global index |
| ChainState.ChainDb.NextGlobalIndexForAmount | src/Core/BlockChainState.cpp:1080-1089 | the cached count and the cursor lookup agree with the number of stored outputs |
| ChainState.ChainDb.StoreKeyimage | src/Core/BlockChainState.cpp:1033-1040 | stores a key image; a second one is the failed put that ends the run |
| ChainState.ChainDb.DeleteKeyimage | src/Core/BlockChainState.cpp:1042-1045 | deletes a key image that must exist |
| ChainState.ChainDb.PushAmountOutput | src/Core/BlockChainState.cpp:1056-1063 | appends to the stack of the amount and returns the index |
| ChainState.ChainDb.PopAmountOutput | src/Core/BlockChainState.cpp:1065-1078 | removes the last output of the amount, or fails where the source does |
| ChainState.ChainDb.SpendOutput | src/Core/BlockChainState.cpp:1102-1111 | sets or clears one spent flag |
| ChainState.ChainDb.UndoTransaction | src/Core/BlockChainState.cpp:889-903 | undoes one transaction in place, outputs and inputs in reverse |
| ChainState.ChainDb.UndoTransactions | src/Core/BlockChainState.cpp:957-963 | undoes a block's transactions in reverse order |
| ChainState.DeltaState.StoreKeyimage | src/Core/BlockChainState.cpp:49-51 | one key image into an overlay |
| ChainState.DeltaState.PushAmountOutput | src/Core/BlockChainState.cpp:65-71 | one output into an overlay, with its index over everything below |
| ChainState.DeltaState.ApplyTo | src/Core/BlockChainState.cpp:104-112 | an overlay applied to the one below is their merge |
| ChainState.DeltaState.ApplyToChain | src/Core/BlockChainState.cpp:104-112 | an overlay applied to the database, entry by entry |
| ChainState.ReadRing | src/Core/BlockChainState.cpp:840-870 | the keys of a ring read through the overlays, or the first error |
| ChainState.RedoTransaction | src/Core/BlockChainState.cpp:815-887 | in place: the block's overlay, the recorded indexes or the first error are those of Redo.RedoTx, and the conflict height that of Redo.TxConflict |
| ChainState.RedoTransactions | src/Core/BlockChainState.cpp:905-921 | in place: the loop gives what Redo.RedoTxs gives, stopping at the first error |
| ChainState.RedoBlockInPlace | src/Core/BlockChainState.cpp:923-955 | redo_block in place: the function's result, for which BlockChecks.RedoneWhen says when it goes through; refused blocks leave the database as it was |
| ChainNode.ForkIsPrefix | src/Core/BlockChain.cpp:294-331 | the fork of the tip and a target is the end of their branches' common prefix |
| ChainNode.ChainStore.RedoAndPush | src/Core/BlockChain.cpp:470-500 | redo_block and push_chain on the stored chain |
| ChainNode.ChainStore.UndoAndPop | src/Core/BlockChain.cpp:502-517 | undo_block and pop_chain on the stored chain |
| ChainNode.ChainStore.ReorganizeBlocks | src/Core/BlockChain.cpp:225-292 | reorganize_blocks in place, stopping where a redo is refused |
| ChainNode.ChainStore.AddBlock | src/Core/BlockChain.cpp:147-206 | in place: headers, blocks, chain and state become those BlockChain.AddBlock gives, of which ForkChoice says which they are |
| Mempool.RemovedDerived | src/Core/BlockChainState.cpp:780-812 | remove_from_pool keeps the four pool structures in agreement |
| Mempool.InsertedDerived | src/Core/BlockChainState.cpp:714-724 | inserting a transaction that conflicts with nothing keeps them in agreement |
| Mempool.CheapestIs | src/Core/BlockChainState.cpp:602-611 | the first hash of the lowest fee rate is the cheapest transaction of the pool, ties by hash |
| Mempool.RemovedKeeps | src/Core/BlockChainState.cpp:780-812 | removing any transaction keeps agreement, the size bound and disjointness from the spent set |
| Mempool.DisplaceOk | src/Core/BlockChainState.cpp:701-711 | displacing succeeds exactly when every conflicting transaction yields |
| Mempool.DisplaceKeeps | src/Core/BlockChainState.cpp:701-711 | displacing keeps the invariant, removes only cheaper transactions that conflict, and on success leaves no conflict |
| Mempool.EvictKeeps | src/Core/BlockChainState.cpp:725-734 | the eviction loop terminates with the pool at most its limit or above it by less than its cheapest transaction, removes only transactions cheaper than the new one and never that one |
| Mempool.AcceptedIff | src/Core/BlockChainState.cpp:641-749 | BROADCAST_ALL exactly when the transaction is new, acceptable, not cheaper than a full pool's cheapest, and beats every transaction it conflicts with |
| Mempool.AddTransactionKeeps | src/Core/BlockChainState.cpp:641-749 | the invariant on every return path; an accepted transaction is in the pool, a refused one is not, and whatever left was cheaper |
| Mempool.RefusalLoses | src/Core/BlockChainState.cpp:701-711 | add_transaction refuses for the fee after removing another transaction exactly when the new one is not in the pool, passes all checks and that of its first conflict, the conflict of the least key image yields and some other does not; the comment there says it cannot happen |
| Mempool.RefusalCosts | src/Core/BlockChainState.cpp:706-712 | a concrete pool and transaction for which it happens |
| Mempool.StoreKeyimageKeeps | src/Core/BlockChainState.cpp:1033-1040 | a key image spent by the chain takes its transaction out of the pool, and the invariant stays |
| Mempool.DeleteKeyimageKeeps | src/Core/BlockChainState.cpp:1042-1045 | freeing a key image on the chain keeps the pool invariant |
| Mempool.OnReorganizationKeeps | src/Core/BlockChainState.cpp:613-632 | after a reorganisation the invariant holds whatever was re-added, and with undone blocks whatever overlap there was; what is in the pool is PoolContents.ReorganizationRefills |
| PoolContents.ReorganizationRefills | src/Core/BlockChainState.cpp:613-632 | with undone blocks, when the pool's own transactions and the undone ones are acceptable, have different hashes and disjoint key images and together fit, the pool then holds exactly all of them |
| PoolContents.ReorganizationAdds | src/Core/BlockChainState.cpp:613-632 | without undone blocks what is in the pool stays, and what is acceptable, apart and small enough is added, exactly |
| PoolContents.ReorganizationFrom | src/Core/BlockChainState.cpp:613-632 | in any case every transaction of the pool was there before or was undone |
| PoolContents.UndoneComesBack | src/Core/BlockChainState.cpp:627-630 | a concrete undone transaction comes back to an empty pool |
| PoolContents.EvictOnly | src/Core/BlockChainState.cpp:725-734 | evicted are the cheapest ones, only from a pool that is too large, and only as far as its limit |
| PoolContents.AnswersAre | src/Core/BlockChainState.cpp:641-700 | which answer a transaction that is turned down gets, for each check in their order |
| PoolContents.FeePerByteIs | src/Core/BlockChainState.hpp:66-66 | the fee rate is the fee by the size, rounded down |
| PoolContents.TooCheapIs | src/Core/BlockChainState.cpp:649-655 | a pool at its limit turns down exactly what every transaction in it beats by rate, ties by hash |
| MempoolState.TransactionPool.RemoveFromPool | src/Core/BlockChainState.cpp:780-812 | in place, and nothing that is erased is missing |
| MempoolState.TransactionPool.MinimumPoolFeePerByte | src/Core/BlockChainState.cpp:602-611 | the lowest fee rate of all pool transactions, zero for none, and the least hash that pays it; its invariant cannot fail |
| MempoolState.TransactionPool.FirstConflictYields | src/Core/BlockChainState.cpp:656-670 | the check of the first conflict in the order of the inputs |
| MempoolState.TransactionPool.EvictCheapest | src/Core/BlockChainState.cpp:725-734 | the loop leaves the pool Mempool.Evict gives |
| MempoolState.TransactionPool.AddTransaction | src/Core/BlockChainState.cpp:641-749 | add_transaction in place, with no invariant(...) that can fail |
| MempoolState.TransactionPool.StoreKeyimage | src/Core/BlockChainState.cpp:1033-1040 | in place: the pool becomes that of Mempool.StoreKeyimage, the spent set gains the key image, and the invariant stays |
| MempoolState.TransactionPool.OnReorganization | src/Core/BlockChainState.cpp:613-632 | in place, the pool's own transactions re-added in the order of their hashes and then the undone ones, as Mempool.OnReorganization; its contents are PoolContents.ReorganizationRefills |
| Int128.AddInts | src/common/Int128.hpp:24-32 | addition with carry is addition modulo 2 to the 128 |
| Int128.SubInts | src/common/Int128.hpp:34-41 | subtraction with borrow is subtraction modulo 2 to the 128 |
| Int128.OperatorsExact | src/common/Int128.hpp:24-52 | sums and differences that fit are exact, and the comparison is that of the values |
| WalletTypes.ExpectedUnspentAdd | src/Core/WalletStateBasic.cpp:113-127 | one unspent output more changes the expected balance as combine_balance does |
| WalletTypes.ExpectedLockedRemove | src/Core/WalletStateBasic.cpp:113-127 | one locked output fewer changes it as combine_balance does |
| WalletInvariant.ComeIn | src/Core/WalletStateBasic.cpp:270-303 | an output that enters, displacing a smaller one of its key image or being ignored, keeps the wallet invariant |
| WalletInvariant.AddToUnspentKeeps | src/Core/WalletStateBasic.cpp:726-736 | adding to the unspent indexes keeps them one to one and every balance the sum of the indexes |
| WalletInvariant.RemoveFromLockKeeps | src/Core/WalletStateBasic.cpp:662-677 | removing from the lock indexes keeps them matched and every balance the sum of the indexes |
| WalletRun.AddIncomingKeeps | src/Core/WalletStateBasic.cpp:270-303 | add_incoming_output of a fresh output always succeeds and keeps the invariant |
| WalletRun.UnlockCoinKeeps | src/Core/WalletStateBasic.cpp:633-642 | unlocking an output always succeeds and keeps the invariant |
| WalletRun.UnlockKeeps | src/Core/WalletStateBasic.cpp:679-688 | unlock by height and time always succeeds and keeps the invariant and the outputs that stay locked as they were; which those are is WalletUnlock.UnlockWhen |
| WalletRun.KeyimageForetold | src/Core/WalletStateBasic.cpp:309-382 | try_adding_incoming_keyimage returns exactly the output add_incoming_keyimage unlocks or finds and then removes, and nothing exactly when nothing is removed |
| WalletRun.OutputForetold | src/Core/WalletStateBasic.cpp:249-268 | try_add_incoming_output returns the amount add_incoming_output adds, and false exactly when it ignores the output |
| WalletRun.RunKeeps | src/Core/WalletStateBasic.cpp:270-382 | over every run of outputs with fresh amount and index, key images and unlocks: balances are the sums and counts of the indexes, the unspent indexes match, a key image has at most one unspent output |
| WalletUnlock.UnlockWhen | src/Core/WalletStateBasic.cpp:679-688 | after unlock at a height and time an output is locked exactly when it was before and its own unlock height is above that height, or its unlock time, cut to 32 bits, after that time |
| WalletUnlock.StepLocks | src/Core/WalletStateBasic.cpp:270-345 | which outputs are locked after any one step: those before that it spares, and a new one with an unlock moment and a key image not spent |
| WalletUnlock.RunLocks | src/Core/WalletStateBasic.cpp:270-688 | after any run an output is locked exactly when it arrived to be locked and since then its key image was not spent and its height or time has not come |
| WalletUnlock.LargerStays | src/Core/WalletStateBasic.cpp:270-303 | of two outputs with one key image the new one stays exactly when it is larger and at the same address |
| WalletHoldings.UnlockHolds | src/Core/WalletStateBasic.cpp:633-688 | unlock brings to the unspent index what it unlocks, or an output of its key image that outdoes it is there; nothing else leaves or comes |
| WalletHoldings.SpendHolds | src/Core/WalletStateBasic.cpp:309-345 | a spend takes the one unspent output of its key image, unlocked before if need be, and no other; the key image is then spent exactly when there was such an output |
| WalletHoldings.RunHolds | src/Core/WalletStateBasic.cpp:270-688 | after any run whatever is locked or unspent arrived and was not spent since, and whatever arrived with a key image not spent and was not spent since is locked, unspent, or outdone by an unspent output of its key image |
| WalletHoldings.RunSpends | src/Core/WalletStateBasic.cpp:309-345 | after any run a key image is spent exactly when a spend of it came while an output of it was held |
| WalletBalance.Correct | src/Core/WalletStateBasic.cpp:506-547 | each correction loop of get_balance takes what it visits off spendable and dust, sums and counts, and the first two add what is not spent in the pool to locked |
| WalletBalance.GetBalance | src/Core/WalletStateBasic.cpp:506-547 | all six figures of get_balance are those of the stored balance with the three corrections |
| WalletBalance.ApiAddUnspent | src/Core/WalletStateBasic.cpp:404-419 | appends eligible outputs in the order of the index, none left out before the last, up to the first place where amount cap and least count are reached, all if the result is true; the 64-bit amount grows by those that are not dust |
| WalletBalance.VisitedOnce | src/Core/WalletStateBasic.cpp:506-547 | the three correction loops visit every unspent output at most once |
| WalletBalance.ListedIsSpendable | src/Core/WalletStateBasic.cpp:404-547 | what api_add_unspent lists adds up to spendable and dust of get_balance, for every address and every confirmed height below the last 32-bit one |
| WalletBalance.LastHeightWraps | src/Core/WalletStateBasic.cpp:506-547 | at the last 32-bit height, where the begin + 1 of both cursors wraps, the figures fall short of the list by all unspent amounts of the address; so they agree exactly when these are nothing |
| WalletBalance.LastHeightFails | src/Core/WalletStateBasic.cpp:506-547 | a wallet reached by one arrival, of which at the last height the list has 5 and the balance nothing |
| WalletLocked.ApiGetLockedOrUnconfirmedUnspent | src/Core/WalletStateBasic.cpp:473-503 | lists unconfirmed outputs not spent in the pool, the recent unlocks it finds under the amount their record has, and what is locked and not spent in the pool |
| WalletLocked.LockedGap | src/Core/WalletStateBasic.cpp:473-547 | locked_or_unconfirmed exceeds what is listed for it by the locked outputs spent in the pool and the recent unlocks whose record has another amount, less what such records find by mistake; they agree exactly when these are the same |
| WalletLocked.LockedListed | src/Core/WalletStateBasic.cpp:473-547 | so they agree when no locked output is spent in the pool and every recent unlock added its whole amount |
| WalletLocked.LockedListFails | src/Core/WalletStateBasic.cpp:473-503 | a run of three steps after which an unlocked output that displaced a smaller one is in the locked figure and in neither list |
| WalletState.WalletStateBasic.ModifyBalance | src/Core/WalletStateBasic.cpp:608-629 | in place: the address's record and the wallet's become those WalletLedger.ModifyBalance gives, each deleted when it is empty |
| WalletState.WalletStateBasic.AddToUnspentIndex | src/Core/WalletStateBasic.cpp:726-736 | in place: the indexes become those WalletLedger.AddToUnspent gives, and it fails exactly when that does |
| WalletState.WalletStateBasic.RemoveFromUnspentIndex | src/Core/WalletStateBasic.cpp:738-748 | in place: the indexes become those WalletLedger.RemoveFromUnspent gives, and it fails exactly when that does |
| WalletState.WalletStateBasic.AddToLockIndex | src/Core/WalletStateBasic.cpp:644-660 | in place: the indexes become those WalletLedger.AddToLock gives, and it fails exactly when that does |
| WalletState.WalletStateBasic.RemoveFromLockIndex | src/Core/WalletStateBasic.cpp:662-677 | in place: the indexes become those WalletLedger.RemoveFromLock gives, and it fails exactly when that does |
| WalletState.WalletStateBasic.AddIncomingOutput | src/Core/WalletStateBasic.cpp:270-303 | in place: the indexes become those WalletLedger.AddIncomingOutput gives, and it fails exactly when that does |
| WalletState.WalletStateBasic.UnlockOutput | src/Core/WalletStateBasic.cpp:633-642 | in place: the indexes become those WalletLedger.UnlockCoin gives, and it fails exactly when that does |
| WalletState.WalletStateBasic.AddIncomingKeyimage | src/Core/WalletStateBasic.cpp:309-345 | in place: its two loops leave the indexes WalletLedger.AddIncomingKeyimage gives and return the amount it removes |
| WalletState.WalletStateBasic.TryAddingIncomingKeyimage | src/Core/WalletStateBasic.cpp:347-382 | the predictor's loop, which skips what cannot win, finds what the ledger function finds |
| WalletState.WalletStateBasic.Unlock | src/Core/WalletStateBasic.cpp:679-688 | in place: the indexes become those WalletLedger.Unlock gives, and it fails exactly when that does; which outputs those are is WalletUnlock.UnlockWhen |
| UndoJournal.WriteAllRemembers | src/Core/WalletStateBasic.cpp:205-225 | after any writes the undo map knows what each written key held before the block, repeated writes included |
| UndoJournal.PopPlay | src/Core/WalletStateBasic.cpp:143-158 | pop_chain after one block restores the database exactly |
| UndoJournal.PopManyPlay | src/Core/WalletStateBasic.cpp:143-158 | after any number of blocks of any writes, as many pop_chain calls restore it exactly |
| UndoJournal.EmptyBlock | src/Core/WalletStateBasic.cpp:227-229 | a block without writes leaves no undo record |
| UndoJournal.WalletDb.PutWithUndo | src/Core/WalletStateBasic.cpp:217-220 | in place: database and undo map become those UndoJournal.WriteWithUndo gives, and it fails exactly when that does |
| UndoJournal.WalletDb.DelWithUndo | src/Core/WalletStateBasic.cpp:222-225 | in place: database and undo map become those UndoJournal.WriteWithUndo gives, and it fails exactly when that does |
| UndoJournal.WalletDb.PushChain | src/Core/WalletStateBasic.cpp:143-151 | in place: database and undo map become those UndoJournal.Pushed gives, and it fails exactly when that does |
| UndoJournal.WalletDb.UndoDbState | src/Core/WalletStateBasic.cpp:234-248 | the loop over the undo map restores every key it holds, in any order |
| UndoJournal.WalletDb.PopChain | src/Core/WalletStateBasic.cpp:152-158 | in place: database and undo map become those UndoJournal.Popped gives, and it fails exactly when that does |
| Amounts.DustIff | src/Core/Currency.cpp:621-625 | is_dust is false exactly for one digit followed by at least six zeros, up to ten to the nineteenth |
| Amounts.PrettyAscends | src/Core/Currency.cpp:30-49 | the table of round amounts ascends, as its binary search needs |
| Amounts.SplitLead | src/Core/TransactionBuilder.cpp:298-303 | the loop finds the first digit and its place |
| Amounts.DecomposeAmount | src/Core/CryptoNoteTools.cpp:39-83 | the pieces add up to the amount for every threshold; a multiple of the network's threshold leaves no piece that is dust |
| CoinStore.PickHaveKeeps | src/Core/TransactionBuilder.cpp:367-378 | taking a coin from a stack conserves all coins and leaves no empty stack or row |
| CoinStore.PickDustKeeps | src/Core/TransactionBuilder.cpp:424-431 | the same for dust |
| CoinStore.PickedUsable | src/Core/TransactionBuilder.cpp:413-541 | what is picked is drawn from the usable outputs and worth no more than they are |
| CoinStore.AllPicked | src/Core/TransactionBuilder.cpp:499-500 | when nothing usable is left to pick, everything usable is picked |
| CoinSelector.FindPair | src/Core/TransactionBuilder.cpp:350-361 | finds the deepest pair of stacks whose digits complete the sum, or says there is none |
| CoinSelector.FindSingle | src/Core/TransactionBuilder.cpp:382-392 | finds the exact digit, or else the deepest stack above it |
| CoinSelector.EligibleAre | src/Core/TransactionBuilder.cpp:288-297 | considered are the outputs below the confirmed height whose unlock height is at most the next one or unlock time at most a minute ahead, each as often as given |
| CoinSelector.UnspentSelector.CreateHaveCoins | src/Core/TransactionBuilder.cpp:288-310 | the maps hold exactly the confirmed unlocked outputs, each in the stack of its first digit |
| CoinSelector.UnspentSelector.UnoptimizeAmounts | src/Core/TransactionBuilder.cpp:320-337 | everything picked goes back to its stack, and the running total and count return to zero |
| CoinSelector.UnspentSelector.OptimizeDigit | src/Core/TransactionBuilder.cpp:346-410 | at one place: the deepest pair, or else the exact or deepest larger single coin, or nothing |
| CoinSelector.UnspentSelector.OptimizeAmounts | src/Core/TransactionBuilder.cpp:339-411 | only adds coins that are not dust, and conserves all coins |
| CoinSelector.UnspentSelector.UseDust | src/Core/TransactionBuilder.cpp:418-445 | without mixing dust goes first: until there is enough, no dust is left or the count is used up, taking at most one coin more than the count |
| CoinSelector.UnspentSelector.DeepestStack | src/Core/TransactionBuilder.cpp:447-455 | the deepest stack above the threshold |
| CoinSelector.UnspentSelector.UseStacks | src/Core/TransactionBuilder.cpp:446-466 | tens of coins within the count, until less than ten of it is left or no stack is above the threshold; no stack is emptied |
| CoinSelector.UnspentSelector.FindLargeCoin | src/Core/TransactionBuilder.cpp:470-494 | one coin more, which is enough, exactly when some stack is known to be by its first digit; otherwise nothing changes |
| CoinSelector.UnspentSelector.TakeTop | src/Core/TransactionBuilder.cpp:501-537 | takes the largest usable coin, dust counted only without mixing |
| CoinSelector.UnspentSelector.FillUp | src/Core/TransactionBuilder.cpp:498-538 | terminates with enough, or with everything usable picked and that less than the total |
| CoinSelector.UnspentSelector.SelectCoins | src/Core/TransactionBuilder.cpp:413-541 | true exactly when the usable outputs add up to the total (dust counted only without mixing); the selected sum is then at least the total |
| CoinSelector.UnspentSelector.TrySelections | src/Core/TransactionBuilder.cpp:256-285 | the outer loop terminates: optimizations fall, or the fee rises and is bounded by the funds |
| CoinSelector.UnspentSelector.SelectOptimalOutputs | src/Core/TransactionBuilder.cpp:238-286 | on success the selected sum is payment, fee and change with the fee paying for the size, the change a multiple of the dust threshold and the coins drawn from the usable ones; not enough funds exactly when the usable ones do not cover payment and fee; the fee is the least one or one that a tried selection called for |
| Payment.Combine | src/Core/WalletNode.cpp:338-351 | transfers to one address are added up and the total is theirs |
| Payment.AddOutputs | src/Core/WalletNode.cpp:407-412 | every address gets pieces that sum to what it is owed, none of them dust when that is a multiple of the dust threshold |
| Payment.Pay | src/Core/WalletNode.cpp:352-412 | outputs are selected from a capped list and, when that fails, from all; what the selected ones hold is exactly the outputs of the transaction and its fee; each address gets its transfers, one also the change, and change to an address of its own is never dust; the fee pays for the size; funds are short only when all usable outputs are; a request without a positive transfer is refused |
| Download.CountersTotal | src/Core/NodeDownloader.cpp:200-235 | the clients' counters add up to the total |
| Download.StartCounted | src/Core/NodeDownloader.cpp:200-220 | start_download keeps each counter the number of the client's cells |
| Download.StopCounted | src/Core/NodeDownloader.cpp:222-235 | stop_download keeps it, and its invariant(...) cannot fail |
| Download.LeftCounted | src/Core/NodeDownloader.cpp:96-119 | a client leaving keeps it, and the invariant(...) of on_disconnect cannot fail |
| Download.CutOrder | src/Core/NodeDownloader.cpp:293-300 | a window cut short stays a beginning of the chain that was sent |
| Download.PopOrder | src/Core/NodeDownloader.cpp:322-327 | taking the first block moves it from the window to the added blocks and nothing else |
| Download.CollectOrder | src/Core/NodeDownloader.cpp:309-318 | a prepared block goes to the cell that waits for it, and every other waiting cell still has its job |
| NodeDownloader.DownloaderV11.ReadyClient | src/Core/NodeDownloader.cpp:414-427 | the client with the lightest load for its speed among those that have the block |
| NodeDownloader.DownloaderV11.GiveCell | src/Core/NodeDownloader.cpp:413-441 | a cell goes to the client with the lightest load that has its block, to the chain client when none has it, to nobody when there is none |
| NodeDownloader.DownloaderV11.StartDownloads | src/Core/NodeDownloader.cpp:408-443 | cells without a client get one in order while fewer than 400 are downloading; when no client can be found for one, the window is cut to the cells before it and the chain forgotten |
| NodeDownloader.DownloaderV11.OnConnect | src/Core/NodeDownloader.cpp:80-94 | an incoming client or one of another version changes nothing; another joins the good clients; the window keeps its cells, and clients leave only for lagging behind or holding everything up |
| NodeDownloader.DownloaderV11.OnDisconnect | src/Core/NodeDownloader.cpp:96-119 | the client is gone, and with it only clients that lag behind or hold everything up; the window keeps its cells, whoever downloads them, or is cut and the chain forgotten; the recursion through further disconnects terminates |
| NodeDownloader.DownloaderV11.AdvanceChain | src/Core/NodeDownloader.cpp:162-198 | with a window, a chain or an open request nothing changes; otherwise, when more than a quarter of the connections lag behind, one that does is disconnected, and else a client is asked exactly when one has an unknown tip |
| NodeDownloader.DownloaderV11.AdvanceDownload | src/Core/NodeDownloader.cpp:386-463 | counters exact, at most 400 downloading, heights consecutive, window in chain order; then the window is full or the chain used up, and below the limit every cell to be downloaded has a client; cells stay as they were unless the window is cut and the chain forgotten; clients leave only for lagging behind or holding everything up; during an import nothing changes |
| Answers.QueuedAre | src/Core/NodeDownloader.cpp:237-272 | of the blocks of one hash, up to the first that cannot be parsed, the first ones are queued, one for each cell that was downloading it from this client, and as many cells await it no longer |
| Answers.QueuedWithin | src/Core/NodeDownloader.cpp:237-272 | the queued blocks are a subsequence of the answer, in its order |
| Answers.ServedAre | src/Core/NodeDownloader.cpp:247-271 | a served cell is prepared without a client, every other cell is as it was |
| NodeDownloader.DownloaderV11.TakeBlocks | src/Core/NodeDownloader.cpp:237-272 | the work queue grows by exactly the blocks that serve a cell, and the window is the served one; an unparsable block ends the answer |
| NodeDownloader.DownloaderV11.MissedBlock | src/Core/NodeDownloader.cpp:274-301 | after a missing hash no cell waits for it from this client, unless the window was cut because it is the chain client |
| NodeDownloader.DownloaderV11.TakeAnswer | src/Core/NodeDownloader.cpp:237-301 | both for one answer: what is queued, what of the window is kept, and no missing hash awaited from the client |
| NodeDownloader.DownloaderV11.OnMsgNotifyRequestChain | src/Core/NodeDownloader.cpp:128-158 | an asked-for list becomes window and chain from its first unknown hash on, whole or cut; others change nothing of window and chain |
| NodeDownloader.DownloaderV11.OnMsgNotifyRequestObjects | src/Core/NodeDownloader.cpp:237-305 | the work queue afterwards is the old one followed by exactly the blocks that serve a cell; the window is the served one with its cells as they are, whoever downloads them, or cut; the advance that follows gives cells out again |
| NodeDownloader.DownloaderV11.WorkerTake | src/Core/NodeDownloader.cpp:50-65 | a preparing thread taking a job loses none, and one step less is to do |
| NodeDownloader.DownloaderV11.WorkerFinish | src/Core/NodeDownloader.cpp:66-71 | a prepared block is filed under its own hash, its job is not lost, and one step less is to do |
| NodeDownloader.DownloaderV11.OnIdle | src/Core/NodeDownloader.cpp:307-369 | blocks reach add_block in the order of the chain asked for, whatever order they arrived or were prepared in, and each is the block its cell asked for; some do exactly when the first cell of the window is prepared or its block among the prepared ones; a first cell that waits for a block no thread has stays so |
| NodeDownloader.FrontCollected | src/Core/NodeDownloader.cpp:309-319 | the first cell of the window gets its block exactly when that is among the prepared ones, whatever other cells wait for it too |
| NodeDownloader.DistinctNotStuck | src/Core/NodeDownloader.cpp:128-158 | no first cell is stuck while the chain asked for has no hash twice, which the source does not check |
| NodeDownloader.RepeatStuck | src/Core/NodeDownloader.cpp:307-319 | a run over a chain that has one hash twice: both blocks are prepared before on_idle, one is kept, and the second cell is stuck |
| RingChecker.StepKeeps | src/Core/RingCheckerMulticore.cpp:31-135 | every locked section of worker and main thread keeps: queued, being verified and verified are exactly what was posted, and the errors are those of the verified ones |
| RingChecker.AnswerExact | src/Core/RingCheckerMulticore.cpp:125-135 | in every interleaving signatures_valid answers whether every ring signature of the current block is valid |
| RingChecker.NoDeadlock | src/Core/RingCheckerMulticore.cpp:125-135 | with nothing queued or being verified for the block it answers |
| RingChecker.WorkersProgress | src/Core/RingCheckerMulticore.cpp:31-66 | every worker step brings the work to an end nearer |
| RingChecker.RingCheckerMulticore.FinishArg | src/Core/RingCheckerMulticore.cpp:55-64 | the second locked section of a worker: stale generations change nothing |
| RingChecker.RingCheckerMulticore.BeginWork | src/Core/RingCheckerMulticore.cpp:73-81 | the locked section that starts a block |
| WalletPrep.StepKeeps | src/Core/WalletPrepMulticore.cpp:65-127 | every locked section keeps the queue the rest of the work and the workers at its blocks; each height taken is with a worker, ready or fetched, and only one of these, after cancel_work, after a start_work with nothing prepared, and from then on |
| WalletPrep.ReadyExact | src/Core/WalletPrepMulticore.cpp:99-127 | in every interleaving, after a cancel_work and then a start_work, get_ready_work returns the block of that height of that work, prepared with its key, and each once |
| WalletPrep.NoneLost | src/Core/WalletPrepMulticore.cpp:65-113 | then each height not fetched is at its place in the queue, with a worker or ready |
| WalletPrep.StaleServed | src/Core/WalletPrepMulticore.cpp:106-127 | start_work does not clear prepared_blocks: over all that can follow it, only blocks of the new work are served exactly when everything prepared before already is one, and each once exactly when nothing was prepared |
| WalletPrep.StaleRun | src/Core/WalletPrepMulticore.cpp:106-127 | a run without cancel_work that serves a block of earlier work |
| WalletPrep.WalletPreparatorMulticore.GetReadyWork | src/Core/WalletPrepMulticore.cpp:115-127 | one look of get_ready_work |
| Locator.GetSparseChain | src/Core/BlockChain.cpp:333-348 | the jumps below the tip, neither the counter nor the shift overflowing for heights up to the maximum |
| Locator.GetSyncHeadersChain | src/Core/BlockChain.cpp:389-411 | the run of the main chain from the first known hash's ancestor on it |
| Locator.AnchorOfMine | src/Core/BlockChain.cpp:393-401 | for a hash of the requester's main chain that ancestor is the hash itself or the fork |
| Locator.JumpNear | src/Core/BlockChain.cpp:336-344 | for every depth some jump is at least it and at most twice it |
| Locator.SyncReachesFork | src/Core/BlockChain.cpp:333-411 | the answer is a contiguous run of the responder's main chain whose first block is on both chains and at most d below the fork, for a fork d below the requester's tip |
| Numerals.ValueOfDigits | src/common/Base58.cpp:77-128 | a number written in enough digits of a base reads back as itself |
| Numerals.DigitsOfValue | src/common/Base58.cpp:77-128 | digits read and written again are the same digits |
| Base58.LettersDiffer | src/common/Base58.cpp:20-20 | no letter of the alphabet stands for two digits |
| Base58.BlockFits | src/common/Base58.cpp:22-24 | the encoded sizes have room for every value of their bytes |
| Base58.RoundTrip | src/common/Base58.cpp:163-210 | decoding an encoding gives back every byte string |
| Base58.Canonical | src/common/Base58.cpp:184-210 | whatever decodes is the encoding of what it decodes to |
| Base58Buffers.AddDigitExact | src/common/Base58.cpp:145-149 | the overflow test of decode_block is exact |
| Base58Buffers.Uint8beTo64 | src/common/Base58.cpp:77-112 | big-endian bytes to a number without overflow |
| Base58Buffers.Uint64To8be | src/common/Base58.cpp:114-119 | the last bytes of the number |
| Base58Buffers.EncodeBlockAt | src/common/Base58.cpp:121-133 | writes the letters of a block from the back, inside its room |
| Base58Buffers.BlockNumber | src/common/Base58.cpp:140-152 | the number of a block of letters, or failure exactly for a wrong letter or one of at least 2 to the 64 |
| Base58Buffers.DecodeBlockTo | src/common/Base58.cpp:135-159 | succeeds exactly when Base58.DecodeBlock does, writes its bytes and nothing else |
| Base58Buffers.EncodeToString | src/common/Base58.cpp:163-182 | the buffer holds Base58.Encode of the bytes |
| Base58Buffers.DecodeToBytes | src/common/Base58.cpp:184-210 | succeeds exactly when Base58.Decode does, and the buffer holds its bytes |
| Varint.RoundTrip | src/common/Varint.cpp:74-158 | reading gives back every 64-bit value written, whatever follows it |
| Varint.PrefixFree | src/common/Varint.cpp:102-158 | no integer's bytes begin another's |
| Varint.Write | src/common/Varint.cpp:35-54 | the bytes written are as many as get_varint_sqlite4_size says |
| Varint.Order | src/common/Varint.cpp:102-158 | bytes compare as the numbers do |
| Varint.OnlyThisAmount | src/Core/BlockChainState.cpp:1080-1089 | a cursor over an amount's prefix meets keys of that amount only |
| Varint.LastIsGreatest | src/Core/BlockChainState.cpp:1080-1089 | the last key under an amount holds the greatest index, so that one more is the count |
| Varint.UintBeToBytes | src/common/Varint.cpp:26-33 | the loop from the last byte back |
| Varint.UintBeFromBytes | src/common/Varint.cpp:14-24 | the loop over the bytes, without overflow |
| Varint.WriteVarint | src/common/Varint.cpp:102-158 | through its nine-byte buffer the bytes of Varint.Write |
| Varint.ReadVarint | src/common/Varint.cpp:74-95 | the position moves past exactly what was read, or the read fails |
| WideInt.Mul128Exact | src/crypto/int-util.h:67-108 | the product from four half products and their carries is exact |
| WideInt.Div128By32 | src/crypto/int-util.h:110-132 | the long division is exact, quotient and remainder |
| Difficulty.CheckHashExact | src/Core/Difficulty.cpp:21-39 | true exactly when the hash times the difficulty is below 2 to the 256 |
| Currency.GetPenalizedAmount | src/Core/Currency.cpp:285-312 | exactly floor(amount s (2m - s) / m m) above the median, and no assert at its end fails |
| Currency.PenaltyStrict | src/Core/Currency.cpp:308-309 | above the median strictly less than a positive amount |
| Currency.PenaltyFalls | src/Core/Currency.cpp:285-312 | never more for a larger block |
| Currency.BaseRewardIs | src/Core/Currency.cpp:168-177 | the base reward is the coins not issued yet by 65536, from version 4 on by 32 times that as long as it is at least one, rounded down; it is zero exactly when fewer than 65536 coins are left |
| Currency.BaseRewardFalls | src/Core/Currency.cpp:168-177 | it falls as coins are issued, except exactly where the larger divisor is given up and it rises |
| Currency.BaseRewardRises | src/Core/Currency.cpp:170-176 | with 2097152 coins left it is 1 from version 4 on, with one coin less it is 31 |
| Currency.RewardFalls | src/Core/Currency.cpp:179-190 | the reward is all of base reward and fees up to the median, less for larger blocks, and version 1 takes nothing off the fees |
| Currency.RewardBalanced | src/Core/Currency.cpp:179-190 | get_block_reward meets no failed assert exactly for blocks of at most twice the median and coins within the supply; then the reward is what is issued plus the fees, the supply is not exceeded, and the 64-bit sum is exact exactly when the penalty on the fees does not exceed the coins there are with this block |
| Currency.IssuedWhen | src/Core/BlockChainState.cpp:327-340 | along a chain only a block over twice its median meets a failed assert |
| Currency.IssuedBounded | src/Core/BlockChainState.cpp:327-340 | along any chain that met none the exact sum of what was issued stays between nothing and the supply exactly when every block's penalty on fees is covered, and then the 64-bit counter is that sum |
| Currency.BackedCovered | src/Core/BlockChainState.cpp:327-340 | what a caller can check: fees no larger than the coins issued so far are covered |
| Currency.RewardsAreIssuedAndFees | src/Core/BlockChainState.cpp:327-340 | then all rewards together are the coins issued and all fees |
| Currency.SizesAdmitted | src/Core/Currency.cpp:150-201 | the size rule keeps every block within twice its effective median, whatever the median, exactly at heights 2 to 921447 |
| Currency.FactorWraps | src/Core/Currency.cpp:285-299 | the 64-bit factor of the penalty is the true one exactly for blocks of at most twice the median; past that the difference wraps around |
| Currency.AdmittedTooLarge | src/Core/BlockChainState.cpp:236-251 | at height 921448 a block of 200001 bytes passes the size rule with an effective median of 100000, fails the assert, and the factor is 2 to the 64 less 200001 |

## Left out

- Currency.RewardBalanced: what a build without asserts would compute past a failed one, except the factor in Currency.FactorWraps.
- CoinSelector.UnspentSelector.SelectOptimalOutputs: payment, fee and selected sum are unbounded numbers; a payment whose sum with the fee passes 2 to the 64 would wrap in the source. The 64-bit wrap inside the digit computation is kept. The size the fee pays for reckons with eight change outputs, as the source does.
- Payment.Pay: the transfers, and the unspent outputs, sum to less than 2 to the 64; keys, signatures and random outputs are not modelled.
- Redo.RedoTxRefines: without the checks of inputs; with them it is RedoChecked.RedoTxChecked.
- WalletRun.RunKeeps: outputs carry fresh pairs of amount and global index, which the chain guarantees.
- WalletBalance.LastHeightWraps: heights of unspent outputs fit in 32 bits.
- RingChecker.AnswerExact: the generation counter does not wrap around.
- WalletPrep.ReadyExact: the generation counter and heights do not wrap around.
- NodeDownloader.DownloaderV11.AdvanceDownload: the speeds and loads decide as in the source; request times, addresses and messages do not exist, and slowness is an input.
- Mempool.AddTransactionKeeps: the checks of a transaction on its own and its redo on the tip are inputs of the step, except repeated key images; `NodePool` computes the redo; fees are given, not computed from inputs and outputs.
- BlockChain.RunReplays: proof of work, difficulty, medians and rewards of a block are one verdict given with it; rewards are in `Currency`, the comparison is in `Difficulty`.
- NodeDownloader.DownloaderV11.OnIdle: only its own step and the threads' steps are shown to leave a stuck first cell so, not every event; a later cell with the same hash can still free it.
- The path of the downloader without preparing threads: `multicore` is a constant that is true.
- Overlay.ApplyAnswers: the spent flag, which an overlay does not answer before it is applied.
- The tip index and children counters used for pruning, internal import, and the timestamp lower bound lookup.
- 32-bit wrap of global indexes and 64-bit wrap of transaction counters: unbounded numbers.
- NodePool.RunAllKeeps: a hash names one transaction, with a size above zero; the age of pool transactions is not modelled.
- `get_random_outputs`, mining templates, transaction building and signing.
- Commits, disk errors and the serialised form of records; keys are byte strings only in `Varint`.
- `WalletState`: payment queue, view of the pool, key derivation and transaction parsing.
- Addresses: `encode_addr` and `decode_addr` add a tag and a checksum of an uninterpreted hash.
- `next_difficulty`, median computation, amount formatting, networking, timers, logging, console and configuration.
