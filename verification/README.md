# Verification of the side chain core

This project models the consensus core of the Elastos side chain node in Dafny and proves what it
has to guarantee: that a light client gets exactly the transactions it asked for, that the store of
unspent outputs depends on nothing but the current main chain, that the node follows the chain with
the most work, that targets follow the time that blocks took and timestamps advance, exactly when a
mined template is accepted, and that signature matching is sound.

| files | what they are about |
|---|---|
| `Core`, `Words`, `ListIndex` | values; arithmetic on machine words; key/value indices of lists with a write-back cache |
| `MerkleTree`, `MerkleBlocks`, `MerkleBuilder`, `Bloom`, `LightClients` | partial Merkle trees: the recursive specification, the stack machine that checks them, the builder, the filter, and all of them together |
| `Ledgers`, `LedgerMeaning`, `Utxos`, `ChainStores`, `StoreProperties`, `IndexCodec`, `Values` | the abstract ledger of a chain, what it says of the blocks of the chain, the two indices of unspent outputs, persisting and rolling back blocks, and conservation of value |
| `BlockTree`, `BlockValidator`, `BlockRules`, `Switching`, `Blockchains`, `Orphans`, `BlockProcessing`, `ChainProperties`, `Locators`, `Witnesses` | the block tree, the checks on blocks, what a change of branch does to the store, reorganisation, orphans, whole runs, block locators, and small chains on which things go wrong |
| `Difficulty`, `HeaderChains`, `BlockTemplates`, `Mining` | compact targets, retargeting, median time, the miner's template, and what the chain makes of it |
| `MultiSig` | k-of-n signature matching in the virtual machine |

## How the parts fit

* **Merkle blocks.** `MerkleTree` states building and checking as plain recursion. The stack machine,
  with its packed positions and its dead zone, is proved to compute the recursive check for every
  message: same result, same error. A zipper of the recursion is the invariant: the stack is its
  encoding. Round trip and soundness are then proved on the recursion. The hash of a pair is a
  parameter that is assumed injective only where that is needed.
* **Store.** A `Ledger` is a set of unspent outputs with the transactions; both indices of the store
  are *views* of that set, lists up to order. `Persist` and `Rollback` are proved to move between the
  view of a ledger and the view of the next, so inversion, agreement of the indices and path
  independence become facts about sets. `LedgerMeaning` says what a ledger holds without it: an output
  is unspent if and only if a transaction of the chain created it and none spent it.
* **Chain.** `Blockchain.Valid` ties the tree of nodes, the main chain flags, the side chain cache and
  the store together. Every operation keeps it, including a reorganisation that stops half way and a
  block that the store cannot write: the store always holds `Persisted` of the main chain, which is a
  function of the main chain alone. The outcome for a block, `Blockchain.Expected`, is a function of
  the state before the block, and so are the tip and the ledger that it leads to, those of an aborted
  reorganisation included (`LeadsAt`). What holds of the chain at any time is read off from this in
  `ChainProperties`.
* **Whole runs.** All that decides about the next block is the value `ChainState`: the tree, the tip and
  the current block of the store. Every call of `ProcessBlock` is told as an `Event`: one `Step` for the
  block and one for each orphan that it set free, each with the state before and after and the outcome
  that `ExpectedAt` gives for the state before. `EventOk` says which steps there must be: each orphan
  waited for the block or for an orphan before it, all who waited are taken, and only an error ends this
  early. `Run` is a `History` of such events, one for each block that arrives, without gaps.

Where a property does not hold of the code, the model keeps the code as it is and the project proves
exactly when the property holds:

* Rolling a block back does not remove identifications: a block that is saved and rolled back leaves
  them as they were if and only if every key that it registers was already mapped to the hash of its
  last transaction that registers that key (`SaveThenRollback`). In a store whose identifications all
  come from stored transactions, that is the case if and only if the block registers none (`FreshIds`);
  once a block was saved it is the case for good, so that going back and forth changes nothing more
  (`RegisteredOnce`).
* No check looks at the inputs of a recharge transaction, and `SaveBlock` does not report that it could
  not write: the store is in step with the main chain if and only if the recharges of every block of
  the main chain spend outputs that were unspent in what was stored before it (`ConnectBlock` for one
  block, `WhenSynced` for the chain). A block that was missed cannot be disconnected and stays on the
  main chain for good (`MissedKept`, `BehindForever`). `UnwrittenBlock` is a run that gets there with a
  coinbase and one recharge that pass every check.
* A reorganisation does not check its blocks beforehand: a block after which the tip has not the most
  work is one whose `Expected` outcome, told from the state before, is an aborted reorganisation: its
  branch has more work, and either the store does not have a block that must be disconnected, or a block
  of the branch does not pass on the ledger that those before it lead to (`CanSwitch`, `SwitchesMeans`).
  A whole run reports an aborted reorganisation if and only if that is the outcome of one of the steps of
  its history (`Run`, `AbortedSteps`), the orphans that blocks set free included.
  `AbortedReorganisation` is a run of four blocks that gets there.
* The miner numbers a template after the best height, which follows the store, and names the tip as its
  parent, which need not be written. The template has its place in the tree if and only if the store is as
  high as the tip (`TemplatePlaced`; the tip's hash must not be the empty hash, which stands for no
  parent), as it is whenever it has the block of the tip (`AtTipWhenWritten`). Then it extends the tip if
  and only if its transactions pass their checks; otherwise it is rejected for its height
  (`TemplateExpected`, and `MinedBlock` for the whole way of a block). `UnwrittenBlock` ends in a state in
  which every template is rejected.
* The reward of a block is compared with the fees that the store gives when the block arrives: a block
  changes the supply by exactly what its recharges bring in if and only if the comparison also holds on
  the ledger that the block is attached to (`ValueConservation`). That is so for every block that extends
  the tip when it arrives: `ProcessBlock` ensures it of the step for the block, and `Run` of each of them
  (`ExtensionConserves`). The supply is the sum of the amounts in the stored index by address
  (`SupplyIsIndexed`).
* The greedy match of signatures finds every matching if and only if signatures that share a key share
  each later key of either (`WhenComplete`; `AmbiguousSignature` is an input where it fails). Keys that
  each signature verifies under at most one of, by value, are the case that matters.
* For more than 2^31 transactions the loop that finds the depth of the tree never ends
  (`TreeDepthDiverges`).

## Model

| member | source | states |
|---|---|---|
| MerkleTree.RoundTrip | bloom/mblock.go:25-84 | for every list of distinct leaves, every match vector and any padding behind the flag bits, checking what was built against the root accepts and returns exactly the matched leaves in block order |
| MerkleTree.Soundness | bloom/merkleblock.go:102-207 | any flag bits and hashes that are accepted against the root of a block return leaves of that block, at strictly increasing positions |
| MerkleTree.SoundForAnyCount | bloom/merkleblock.go:102-207 | the same for a message that claims any number of transactions for which the tree has the same depth; and no hash is returned twice, which is what the refusal of equal siblings is for |
| MerkleTree.BuildIsSmall | bloom/mblock.go:53-84 | a node with m matched leaves below, at height h, gives at most m h + 1 hashes and 2 m h + 1 bits; so a subtree without a match is one hash and one bit |
| MerkleTree.SameHashSameFirstLeaf | bloom/mblock.go:25-38 | under an injective pair hash, equal hashes of two nodes of one height come from equal first leaves; this is what keeps siblings apart and the duplicate-hash rejection silent |
| MerkleBlocks.TreeDepth | bloom/merkleblock.go:70-76 | ends for up to 2^31 leaves, with the depth of the recursive tree |
| MerkleBlocks.TreeDepthDiverges | bloom/merkleblock.go:72-76 | above 2^31 leaves the loop condition holds for every exponent, as 32-bit shifts wrap |
| MerkleBlocks.NextPowerOfTwo | bloom/merkleblock.go:78-81 | the number of positions of the bottom row, without overflow |
| MerkleBlocks.InDeadZone | bloom/merkleblock.go:83-96 | for the position of any node of any row, answers whether the node does not exist in a tree of that size |
| MerkleBlocks.ParentOf | bloom/merkleblock.go:174-175 | shifting right and setting the top bit is the parent's position |
| MerkleBlocks.LeftChildOf | bloom/merkleblock.go:179-181 | clearing the top bit and shifting left is the left child's position |
| MerkleBlocks.NextOperation | bloom/merkleblock.go:120-144 | the shape of the stack and the dead zone decide which of the four operations of the loop is due, and decide it as the recursion does |
| MerkleBlocks.CloseOnlyChild | bloom/merkleblock.go:131-142 | closing a node with one child keeps what the rest of the parse yields and shortens the stack; all stack accesses are in range |
| MerkleBlocks.ClosePair | bloom/merkleblock.go:143-158 | the same for two children; equal children are refused exactly where the recursion refuses them |
| MerkleBlocks.PushNode | bloom/merkleblock.go:167-197 | reading one node keeps what the rest of the parse yields; the branch for an invalid transaction node is unreachable |
| MerkleBlocks.TakeFlag | bloom/merkleblock.go:199-204 | takes the next bit of the packed flags |
| MerkleBlocks.RunMachine | bloom/merkleblock.go:110-205 | the loop ends, because every turn uses up a flag bit or shortens the stack, and yields the recursive parse compared with the root |
| MerkleBlocks.CheckMerkleBlock | bloom/merkleblock.go:102-207 | ends on every message of up to 2^31 transactions, with the same transactions or the same error as the recursive check |
| MerkleBuilder.TreeWidth | bloom/mblock.go:17-21 | the width formula on 32-bit words is the number of nodes of a row, up to 2^31 leaves |
| MerkleBuilder.PackFlags | bloom/merkleblock.go:48-56 | the packed bytes read back as the bits, followed by zero padding |
| MerkleBuilder.MBlock.TraverseAndBuild | bloom/mblock.go:53-84 | appends exactly the bits and hashes of the recursive specification |
| MerkleBuilder.NewMerkleBlock | bloom/merkleblock.go:13-59 | the message of a block with a match vector |
| MerkleBuilder.BuildThenCheck | bloom/merkleblock.go:13-207 | building a message and checking it returns the matched transactions in block order, for 1 to 2^31 distinct transactions |
| Bloom.Filter.Matches | bloom/filter.go:131-155 | answers whether for every hash function the bit at the hash of the data is set: bit `idx % 8`, counted from the lowest, of byte `idx / 8` |
| Bloom.Filter.Add | bloom/filter.go:187-206 | a bit is set afterwards if and only if it was set before or is at one of the hashes of the data; so the data matches, and so does everything that matched before |
| Bloom.Filter.MatchTxAndUpdate | bloom/filter.go:242-279 | matches if and only if the filter, as it was, has the hash, an address that is paid or an outpoint that is spent; then the outpoints that pay to it are in the filter, nothing is lost, and no bit is set but for such outpoints; else the filter is unchanged |
| Bloom.Filter.MatchAll | bloom/merkleblock.go:21-33 | over any sequence of transactions, no relevant one is missed, nor one that spends an output that pays to an address of the filter |
| LightClients.Serve | bloom/merkleblock.go:13-207 | filter, builder and checker together: the client accepts, and its result holds every relevant transaction and every one that spends a relevant output of an earlier one |
| Ledgers.SpendableMeans | blockchain/chaindata.go:148-187 | consuming inputs one by one succeeds if and only if they are distinct and all unspent |
| Ledgers.UnspentUndone | blockchain/chaindata.go:207-291 | removing what a block created and restoring what it spent gives back the unspent outputs before it |
| LedgerMeaning.UnspentMeans | blockchain/chaindata.go:375-426 | an output is unspent after a valid chain if and only if a transaction of the chain created it and none spent it |
| LedgerMeaning.AllEntered | blockchain/chainstore.go:528-549 | every block of a valid chain has its entries: header with transaction hashes, hash by height, each transaction with its height, registered assets, recharged main chain transactions |
| LedgerMeaning.NoOtherBlocks | blockchain/chainstore.go:528-549 | no other header is there |
| LedgerMeaning.NoOtherHeights | blockchain/chainstore.go:528-549 | no other height is there |
| LedgerMeaning.NoOtherTxs | blockchain/chaindata.go:293-323 | no other transaction is there |
| LedgerMeaning.NoOtherAssets | blockchain/chaindata.go:293-323 | no other asset is there |
| LedgerMeaning.NoOtherRecharges | blockchain/chaindata.go:293-323 | no other main chain transaction is there |
| Utxos.AddUnspent | blockchain/chaindata.go:382-385 | the cached index by transaction gains the outputs of a transaction |
| Utxos.SpendUnspent | blockchain/chaindata.go:386-409 | swap-with-last removal takes exactly the spent outputs out of the cached index |
| Utxos.CreateUtxos | blockchain/chaindata.go:118-146 | the cached index by address gains the outputs of a transaction under address, asset and height |
| Utxos.SpendUtxos | blockchain/chaindata.go:148-188 | takes exactly the spent outputs out of the index by address; fails if and only if one is not there |
| Utxos.RestoreUnspent | blockchain/chaindata.go:438-455 | puts the spent outputs back into the index by transaction |
| Utxos.DropUtxos | blockchain/chaindata.go:214-244 | takes the outputs of a transaction out of the index by address, and never fails to find them |
| Utxos.RestoreUtxos | blockchain/chaindata.go:246-275 | puts the spent outputs back under their own address, asset and height |
| ListIndex.Flush | blockchain/chaindata.go:412-423 | writing the cache back stores every changed list and deletes the keys of empty ones |
| IndexCodec.ToByteArray | blockchain/chaindata.go:491-499 | two bytes for each number: its remainder by 256, then its quotient |
| IndexCodec.GetUint16Array | blockchain/chaindata.go:474-489 | fails if and only if the value is missing or of odd length; else the bytes encode the result |
| IndexCodec.OneEncoding | blockchain/chaindata.go:474-499 | equal bytes if and only if equal lists |
| IndexCodec.WriteThenRead | blockchain/chaindata.go:474-499 | reading what was written gives the list back |
| ChainStores.ChainStore.PersistTransactions | blockchain/chaindata.go:293-323 | succeeds if and only if every recharge decodes; then transactions, assets, main chain transactions and identifications of the block are in the batch |
| ChainStores.ChainStore.PersistUnspendUTXOs | blockchain/chaindata.go:109-205 | succeeds if and only if the block spends distinct unspent outputs; then the index by address shows the ledger after the block |
| ChainStores.ChainStore.PersistUnspend | blockchain/chaindata.go:375-426 | the index by transaction shows the ledger after the block |
| ChainStores.ChainStore.RollbackTransactions | blockchain/chaindata.go:325-373 | removes what the block put in, except identifications |
| ChainStores.ChainStore.RollbackUnspendUTXOs | blockchain/chaindata.go:207-291 | never fails, and the index by address shows the ledger before the block again |
| ChainStores.ChainStore.RollbackUnspend | blockchain/chaindata.go:428-472 | the index by transaction shows the ledger before the block again, keys that became empty included |
| ChainStores.ChainStore.Persist | blockchain/chainstore.go:528-549 | a store of a ledger becomes a store of the next ledger, or stays untouched if and only if the block spends what is not there |
| ChainStores.ChainStore.Rollback | blockchain/chainstore.go:508-526 | a store of a ledger becomes a store of the ledger before, with the parent of the block as the current one |
| ChainStores.ChainStore.InitWithGenesisBlock | blockchain/chainstore.go:123-203 | an empty store holds the genesis block afterwards |
| ChainStores.ChainStore.SaveBlock | blockchain/chainstore.go:567-608 | the stored chain grows by the block, or is unchanged if the block is not above the current height or spends what is not there |
| ChainStores.ChainStore.RollbackBlock | blockchain/chainstore.go:577-584 | the stored chain loses its last block and the parent of it is the current one, or all is unchanged if the hash is unknown |
| ChainStores.ChainStore.GetBlock | blockchain/chainstore.go:475-506 | reads a block back with its transactions; the tip reads back as it was saved |
| ChainStores.ChainStore.GetCurrentBlockHash | blockchain/chainstore.go:290-297 | the hash of the last block of the stored chain if the store is as high as that, and none otherwise |
| ChainStores.ChainStore.IsDoubleSpend | blockchain/chainstore.go:215-243 | true if and only if some input is not an unspent output of the ledger |
| StoreProperties.IndexAgreement | blockchain/chaindata.go:109-205 | an output is in the index by transaction if and only if exactly one entry is in the index by address, under its own address, asset and height and with its own value, and there is no other anywhere |
| StoreProperties.OneStorePerLedger | blockchain/chaindata.go:109-472 | two stores of one ledger are equal up to the order of lists and identifications |
| StoreProperties.Execute | blockchain/chainstore.go:567-608 | any run of saves and tip rollbacks leaves a store of the chain that the run leads to |
| StoreProperties.PathIndependence | blockchain/chainstore.go:508-549 | after any such run the store equals the one obtained by persisting its chain from genesis |
| StoreProperties.SaveThenRollback | blockchain/chaindata.go:293-373 | saving and rolling back restores every entry up to list order, with the parent of the block as the current one; identifications if and only if every key that the block registers already has the value that the block gives it |
| StoreProperties.WhenIdsUnchanged | blockchain/chaindata.go:312-320 | the condition on identifications, as a fact about the keys and the transactions of the block |
| StoreProperties.FreshIds | blockchain/chaindata.go:312-320 | if all identifications come from stored transactions, the condition is that the block registers nothing |
| StoreProperties.RegisteredOnce | blockchain/chaindata.go:312-320 | after a block was saved once the condition holds |
| Values.GetTxReference | blockchain/chainstore.go:428-447 | the outputs that the inputs refer to, in order, or failure if and only if one cannot be resolved |
| Values.GetTxFeeMap | blockchain/txpool.go:381-455 | inputs less outputs for every asset |
| Values.GetTxFee | blockchain/txpool.go:372-379 | the fee in one asset of any transaction, zero when the inputs cannot be resolved |
| Values.CheckReward | blockchain/blockvalidator.go:66-94 | passes if and only if there is one coinbase, in front, that pays out exactly the fees of the others |
| Values.ValueChange | blockchain/blockvalidator.go:66-94 | a block changes the supply by what its recharges bring in and what its coinbase pays out beyond the fees, whatever was checked |
| Values.ValueConservation | blockchain/blockvalidator.go:66-94 | a block changes the supply of the chain asset by exactly what its recharges bring in if and only if its coinbase pays out the fees on the ledger that the block is attached to |
| Values.NoRechargeNoChange | blockchain/blockvalidator.go:66-94 | without recharges and asset registrations, nothing is brought in |
| Values.ChainConservation | blockchain/blockvalidator.go:66-94 | the supply after any valid chain is the supply after genesis, what recharges brought in, and what coinbases paid out beyond the fees on the ledger of their block; the last is nothing if each passes the reward rule there |
| Values.SupplyIsIndexed | blockchain/chaindata.go:109-205 | the supply of an asset on the ledger is the sum of the amounts in all lists that the index by address holds for the asset |
| BlockValidator.CheckDuplicates | blockchain/blockvalidator.go:96-136 | passes if and only if transactions, inputs and main chain transactions are each without repetition and every recharge decodes |
| BlockValidator.CheckTransactionContext | blockchain/txvalidator.go:63-135 | passes if and only if the transaction is new, spends unspent outputs or recharges for the first time, and passes the checks that are not modelled |
| BlockValidator.ChecksSuffice | blockchain/blockchain.go:792-813 | a block that passes the checks is new to the ledger, and the store can write it if and only if its recharges spend unspent outputs |
| BlockRules.IsFinalizedTransaction | blockchain/blockvalidator.go:212-233 | unlocked, lock over, or every input opted out with the sequence number that the code compares with |
| BlockRules.PowCheckBlockContext | blockchain/blockvalidator.go:149-187 | passes if and only if the block carries the required target, is newer than the median, and is final |
| BlockRules.ObeyedRules | blockchain/blockvalidator.go:149-187 | a chain whose blocks all pass is one that the retarget and median theorems are about |
| Switching.ConnectsMeans | blockchain/blockchain.go:726-735 | connecting a list of blocks stops at the first that does not pass on the ledger that those before it lead to |
| Switching.RemainsMeans | blockchain/blockchain.go:713-724 | disconnecting stops at the highest block that the store does not have |
| Switching.SwitchesMeans | blockchain/blockchain.go:681-751 | a branch can be moved to if and only if all blocks to disconnect were written and each block of the branch passes on the ledger that those before it lead to |
| Switching.PersistedAll | blockchain/chainstore.go:586-608 | a chain is stored as a whole if and only if every block of it spends distinct unspent outputs of what was stored before |
| Switching.SaveNext | blockchain/chainstore.go:567-608 | the store of a chain becomes the store of the longer chain, whether or not it can write the block |
| Switching.DropLast | blockchain/chainstore.go:577-584 | the store of a chain whose last block it has becomes the store of the shorter chain |
| BlockTree.BlockNode.NewBlockNode | blockchain/blockchain.go:358-372 | a node linked to its parent, its work the parent's plus its own |
| BlockTree.WorkIsSummed | blockchain/blockchain.go:884-892 | the sum that a node carries is the work of all blocks from the root up to it |
| BlockTree.HarderBranch | blockchain/blockchain.go:908-1002 | of two lists of blocks with a common beginning, one that is at least as long and meets targets that are no larger, one by one, has at least as much work |
| Blockchains.Blockchain.Init | blockchain/blockchain.go:58-93 | a chain of the genesis block is valid |
| Blockchains.Blockchain.ConnectBlock | blockchain/blockchain.go:792-832 | succeeds if and only if every transaction passes its checks; then the node is the tip, flags, index and cache agree on it, and the store is in step if and only if it was and the recharges of the block spend unspent outputs; else nothing changes |
| Blockchains.Blockchain.DisconnectBlock | blockchain/blockchain.go:755-788 | succeeds if and only if the node is the tip; then its parent is the tip and the current block of the store, its block is in the side chain cache, and everything agrees |
| Blockchains.Blockchain.GetReorganizeNodes | blockchain/blockchain.go:635-672 | exactly the two branches above the last common ancestor, tip first and fork first |
| Blockchains.Blockchain.DetachAll | blockchain/blockchain.go:713-724 | disconnects down to the fork or to the highest block that the store does not have; the tip and the ledger held then |
| Blockchains.Blockchain.AttachAll | blockchain/blockchain.go:726-735 | connects as many blocks as pass, each on the ledger that those before it lead to; the tip and the ledger held then |
| Blockchains.Blockchain.ReorganizeChain | blockchain/blockchain.go:681-751 | succeeds if and only if the branch can be moved to, as told from the state before; the tip it ends at and the ledger held, in either case, are told from the state before too; valid in both cases |
| Blockchains.Blockchain.ConnectBestChain | blockchain/blockchain.go:908-1002 | the outcome is the one told from the state before: extended, refused, side chain, reorganised or aborted; the tip and the ledger held in each case, those of an aborted reorganisation included; valid in every case |
| Blockchains.Blockchain.MaybeAcceptBlock | blockchain/blockchain.go:846-906 | the outcome is the one told from the state before, a block that claims to be the first included; the tree gains exactly the block or nothing, and the tip and the ledger held are those that the outcome leads to; a tip with the most work stays one or is replaced by one with more if and only if no reorganisation is aborted; what the store missed stays on the main chain |
| Blockchains.MissedByMove | blockchain/blockchain.go:713-724 | moving to another branch leaves every block that the store missed in place, with all that is below it |
| Blockchains.Blockchain.HeadersUpTo | blockchain/difficulty.go:43-46 | following the parents gives the headers of the chain |
| Orphans.OrphanPool.RemoveOrphanBlock | blockchain/blockchain.go:250-273 | removes one orphan from both maps, which keep agreeing |
| Orphans.OrphanPool.AddOrphanBlock | blockchain/blockchain.go:275-314 | adds one orphan to both maps after dropping the evicted ones |
| Orphans.OrphanPool.ListedUnderParent | blockchain/blockchain.go:296-313 | a block is listed under its parent if and only if it is an orphan |
| BlockProcessing.BlockProcessor.ProcessOrphans | blockchain/blockchain.go:220-248 | ends; what it did is a gapless chain of steps, each an orphan that waited for the block or for an orphan before it, with the outcome told from the state before it; the error is that of the last step, and only the last has one; without an error nobody is left who waits for the block or for one of the orphans taken, nor for any indexed block if nobody did before |
| BlockProcessing.BlockProcessor.BlockExists | blockchain/blockchain.go:834-844 | with nothing pruned, known if and only if indexed |
| BlockProcessing.BlockProcessor.PowCheckBlockSanity | blockchain/blockvalidator.go:21-147 | target within range, one coinbase in front that pays the fees of the store as it is in the chain asset, no duplicates, and the checks that are not modelled |
| BlockProcessing.BlockProcessor.AcceptOrphan | blockchain/blockchain.go:228-243 | takes an orphan that waits for the block out of the pool; its outcome, and what it leads to, are told from the state before |
| BlockProcessing.BlockProcessor.ProcessBlock | blockchain/blockchain.go:1008-1077 | exactly when a block is known, insane, an orphan, failing or accepted, from the state before; each verdict with its steps: none, the pool changed by the new orphan, the step for the block that failed, or that step and those of the orphans that it set free, each with the outcome told from the state before it and the tree, tip and ledger that this leads to; a block that extends the tip changes the supply by what its recharges bring in; valid in every case; no indexed block is lost; the tip has the most work exactly unless a reorganisation was aborted; what the store missed stays; no orphan waits for a known parent unless an error cut the processing short |
| BlockProcessing.BlockProcessor.Run | blockchain/blockchain.go:1008-1077 | any sequence of blocks leaves a history of one event for each, in order and without gaps, from the state before to the state after, each as `ProcessBlock` demands; a reorganisation was aborted if and only if that is the outcome of a step of the history; if none was, the tip has the most work, and more than before if it changed; the chain is valid, and what the store missed is still on the main chain |
| BlockProcessing.BlockProcessor.AbortedSteps | blockchain/blockchain.go:1060-1077 | the verdict on a block reports an aborted reorganisation if and only if one of the steps, of the block or of an orphan, was one |
| BlockProcessing.BlockProcessor.NobodyFreed | blockchain/blockchain.go:220-248 | if no orphan names the block as its parent, the step for the block is all that happens |
| BlockProcessing.BlockProcessor.ExtensionConserves | blockchain/blockvalidator.go:66-94 | a block that extends the tip when it arrives changes the supply of the chain asset by what its recharges bring in, or not at all if the store cannot write it |
| ChainProperties.ForkState | blockchain/blockchain.go:681-832 | a node is flagged if and only if it is the tip or an ancestor, if and only if it is not in the side chain cache; it is stored if and only if it is flagged and was written; if the tip was written, the store's height and current block are those of the tip |
| ChainProperties.ReplayMainChain | blockchain/chainstore.go:508-549 | whatever was processed, the store equals the one obtained by saving what can be written of the main chain from genesis in order; in step, the whole main chain |
| ChainProperties.WhenSynced | blockchain/chainstore.go:586-608 | the store is in step with the main chain if and only if the recharges of each block of it spend outputs that were unspent in what was stored before |
| ChainProperties.BehindForever | blockchain/blockchain.go:713-724 | a store that missed a block never catches up |
| ChainProperties.NoRechargeInputs | blockchain/chainstore.go:586-608 | if no recharge of the main chain carries inputs the store is in step |
| ChainProperties.MainChainChecked | blockchain/blockchain.go:792-799 | at all times every transaction of the main chain was new when its block was connected and spent what was unspent then, or recharged for the first time |
| ChainProperties.MainChainPasses | blockchain/blockvalidator.go:174-187 | at all times every transaction of the main chain but the coinbases passed the checks that are not modelled, on what was stored before its block and at the height of the block before, or no higher if the store did not have that; and it was final at the height of its block |
| ChainProperties.SupplyOfChain | blockchain/blockvalidator.go:66-94 | at all times the sum of the amounts that the index by address holds is what genesis left, what recharges brought in, and what coinbases paid out beyond the fees on the ledger of their block |
| ChainProperties.BranchesObeyRules | blockchain/blockchain.go:846-906 | every branch of the tree obeys the rules for targets and timestamps |
| ChainProperties.BranchTargetsAndTimes | blockchain/difficulty.go:22-84 | on every branch, targets are positive, within the limit and within a factor of four of the one before up to rounding, and the median time never goes back |
| ChainProperties.EasierStaysAside | blockchain/blockchain.go:908-1002 | a block whose branch is no longer than the main chain and meets targets that are no smaller, one by one above the fork, never displaces it |
| Locators.LocatorHashes | blockchain/blockchain.go:1182-1213 | heights go strictly down to genesis in at most 41 entries, whatever heights the store lacks, no 32-bit overflow; if it lacks none, entry j is j below the start for the first eleven, then 8 + 2^(j-9) below it, until genesis; so each step at most doubles the distance |
| Locators.BlockLocatorFromHash | blockchain/blockchain.go:1150-1214 | the same for a hash of the tree, or just the hash if it is genesis or unknown; with the spacing and the doubling bound on the main chain of a store that is in step |
| Locators.LatestLocatorHash | blockchain/blockchain.go:1216-1226 | the first entry that the store has, or the empty hash |
| Locators.LocatorBound | blockchain/blockchain.go:1150-1226 | a peer that has the main chain up to height f starts at a block of it, at most twice as far from the tip as f |
| Difficulty.CompactForm | blockchain/difficulty.go:86-122 | the encoder is one formula: byte length of twice the number, and its leading bytes |
| Difficulty.CompactRoundsDown | blockchain/difficulty.go:86-162 | decoding the encoding clears the bytes that do not fit: not larger, and off by less than one part in 2^15 |
| Difficulty.EncodingMonotone | blockchain/difficulty.go:86-122 | larger numbers have larger encodings |
| Difficulty.CompactMonotone | blockchain/difficulty.go:86-162 | encoding and decoding keeps the order |
| Difficulty.CompactStable | blockchain/difficulty.go:86-162 | a decoded number survives encoding and decoding unchanged |
| Difficulty.DecodeMeans | blockchain/blockchain.go:374-400 | a compact form stands for its low 23 bits, with as many bytes added or dropped as bring the length to that in its top byte, and negated if the bit between is set |
| Difficulty.WorkMeans | blockchain/blockchain.go:402-413 | the work for a target t is the largest number w with w (t + 1) at most 2^256, and none for a target that is not positive |
| Difficulty.HarderIsMoreWork | blockchain/blockchain.go:402-413 | a smaller target is at least as much work |
| Difficulty.WorkIsPositive | blockchain/blockchain.go:402-413 | a target that passed the range check adds work |
| HeaderChains.CalcNextRequiredDifficulty | blockchain/difficulty.go:22-84 | never reports the missing retarget block; computes the next target on 32-bit words, with a wrapping time difference |
| HeaderChains.NewTargetBounds | blockchain/difficulty.go:48-71 | one adjustment changes the target by at most a factor of four and never above the limit, whatever the timestamps |
| HeaderChains.RetargetBound | blockchain/difficulty.go:22-84 | along every accepted chain targets stay within the limit, are constant between adjustments and change by at most a factor of four up to rounding at each |
| HeaderChains.RetargetExact | blockchain/difficulty.go:48-71 | at a retarget of an accepted chain, with w seconds between the first and the last timestamp of the interval, where a negative difference wraps around: before the cap and the encoding the target is the old one times w over the timespan, rounded down, a quarter of it for a w below a quarter of the timespan, and four times it for a w above four timespans |
| HeaderChains.OnSchedule | blockchain/difficulty.go:48-71 | an interval that took the timespan leaves the target as it was; a shorter one never makes it larger, a longer one never smaller |
| HeaderChains.SlowerIsEasier | blockchain/difficulty.go:48-71 | of two intervals that start from one target, the one that took longer never leads to a smaller target |
| HeaderChains.Networks | config/config.go:20-52 | the parameters of the three networks meet what the theorems ask for; an interval is 720 blocks on the main network and 10 on the test network, and the limit is 2^255 - 1 |
| HeaderChains.CalcPastMedianTime | blockchain/blockchain.go:1253-1269 | the median of the last eleven timestamps |
| HeaderChains.MedianIsMiddle | blockchain/blockchain.go:1253-1269 | among the last eleven timestamps, or all if there are fewer, at most half are below the median and more than half are at most the median |
| HeaderChains.MedianNeverDecreases | blockchain/blockchain.go:1253-1269 | along a chain whose blocks are newer than the median before them, the median never decreases, while the window grows and while it slides |
| BlockTemplates.SelectTxs | pow/pow.go:155-176 | takes exactly the final transactions with an unchanged fee up to the first position without room, where either the count is reached or the next one would exceed the size; and sums up their fees |
| BlockTemplates.TakenMeans | pow/pow.go:164-172 | of a list of transactions exactly those are taken whose lock is over or not observed and whose fee is what it was when they entered the pool |
| BlockTemplates.SizesFit | pow/pow.go:155-162 | the sizes of the coinbase and of the transactions that are taken, if any is, add up to at most the limit |
| BlockTemplates.AssembleTxs | pow/pow.go:139-181 | for every order that sorting by fee rate may leave, the transactions meet the validator's checks on coinbase, reward, count, duplicates and finality; the foundation is paid its share of their fees, the miner the rest, and nobody else anything |
| BlockTemplates.GenerateBlock | pow/pow.go:122-194 | names the tip as parent and is numbered, locked and checked for finality after the best height of the store; its time is the clock, or a second after the median if the clock is behind; for every order that sorting by fee rate may leave, the transactions meet the validator's checks, split the reward as they should and fill the block up as far as there is room; unless the best height is ahead of the tip, it also obeys the rules for target, timestamp and finality of its place |
| Mining.GenerateOn | pow/pow.go:122-194 | on any valid chain, the block that is generated is a template for it, made of a new coinbase and of transactions of the pool |
| Mining.TemplatePlaced | blockchain/blockchain.go:846-872 | a template has its place in the tree if and only if the store is as high as the tip |
| Mining.TemplateExpected | blockchain/blockchain.go:846-906 | it is rejected if the store is not; else it extends the tip if and only if its transactions pass their checks, and is refused if they do not |
| Mining.AtTipWhenWritten | blockchain/chainstore.go:595-608 | the store is as high as the tip whenever it has the block of the tip |
| Mining.MinedBlock | blockchain/blockchain.go:1008-1077 | what becomes of a template that is processed: insane only if its target is out of range or a check that is not modelled fails, never an orphan, and else accepted as the new tip, refused or rejected as above |
| MultiSig.ExecutionEngine.OpCheckMultiSig | vm/func_crypto.go:39-104 | on a stack of signatures, a number m, keys and their number, it faults exactly if m is below one or above the number of keys, fewer than m or more than as many signatures as keys are there, or the step limit is passed; else it leaves one item, true only if all signatures verify under keys of their own among those, and always then if no signature verifies under two different ones; on any other stack it faults |
| MultiSig.DecidedByParts | vm/func_crypto.go:39-104 | whatever parts a stack is laid out from, they tell what the instruction does |
| MultiSig.GreedySound | vm/func_crypto.go:77-98 | when every signature found a key there is an assignment of distinct keys that verify them |
| MultiSig.GreedyComplete | vm/func_crypto.go:77-98 | for nested keys the loop succeeds whenever there is such an assignment |
| MultiSig.WhenComplete | vm/func_crypto.go:77-98 | it does so for all signatures if and only if the keys are nested |
| MultiSig.AmbiguousSignature | vm/func_crypto.go:77-98 | two signatures and two keys with an assignment that the loop misses |
| MultiSig.MultiSigMeans | vm/func_crypto.go:39-104 | true is pushed only if at least as many signatures as needed have distinct keys; if no signature verifies under two key values, if and only if |
| Witnesses.RechargeSlipsThrough | blockchain/txvalidator.go:80-86 | a block of a coinbase and a recharge with an input that does not exist passes the checks on reward, duplicates and transactions, and cannot be written |
| Witnesses.UnwrittenBlock | blockchain/chainstore.go:595-608 | such a block on top of genesis becomes the tip at height 1 while the store stays at height 0; then every block on the tip that is numbered after the height of the store is rejected, as every template is |
| Witnesses.AbortedReorganisation | blockchain/blockchain.go:726-735 | a branch of two blocks with more work, the second of which repeats the coinbase of the first: the reorganisation is aborted and the tip has not the most work |

## Left out

- Hash functions, signatures and proofs of main chain transactions: parameters. Injectivity is assumed of the Merkle pair hash only.
- The Merkle root of a block body, merged mining proofs, varint and element codecs are not part of this model.
- The comparison of a block hash with its target, the clock, block and transaction sizes, the Merkle root and transaction syntax are one unspecified check in `PowCheckBlockSanity`; signatures, balances, output locks and coinbase maturity are one in `CheckTransactionContext`.
- Pruning of old nodes, and loading nodes from the store: the model keeps all nodes in memory. `Children` and `DepNodes`, which only serve pruning, are not modelled.
- Heights that reach 2^32 - 1: a block on top of such a node is rejected in the model, where the source would wrap around.
- A recharge whose input names an output that its transaction does not have: the source indexes out of range while persisting it and stops, the model passes over the block as over one with an unknown input. For other transactions the double spend check comes first.
- Writes to disk that fail for other reasons. A batch is modelled as the next state of the store, which becomes visible at once when it is committed.
- The best height that `UpdateBestHeight` keeps (blockchain/blockchain.go:171-179) is written wherever the store writes its own height, with the same value; the two are one field in the model.
- Nested maps of the caches are modelled as maps keyed by the tuple of their keys.
- Amounts are mathematical integers: overflow of 64-bit amounts is not modelled. The fees of recharges and the share of the foundation, which the source computes in floating point, are parameters.
- Negative numbers in `BigToCompact`: targets are never negative.
- When orphans expire, and the limit on their number: the evicted orphans are a parameter of `AddOrphanBlock`.
- The transaction pool, apart from the fee functions; the rest of the virtual machine; peer to peer networking, RPC, configuration files, logging and locks.
- Blockchains.Blockchain.Init: starts from a genesis block only; reopening a store that already holds a chain is not modelled.
- ChainStores.ChainStore.InitWithGenesisBlock: the same.
- Orphans.OrphanPool.AddOrphanBlock: which orphans are evicted is a parameter, because it depends on the clock.
- BlockValidator.CheckTransactionContext: signatures, balances, output locks, coinbase maturity and proofs of main chain transactions are one function of the stored transactions and the current height.
- ChainStores.ChainStore.PersistUnspendUTXOs: transactions of at most 65536 outputs, because the source numbers outputs with 16 bits and a larger transaction would reuse numbers.
- ChainStores.ChainStore.RollbackBlock: of the stored blocks only the last one, when it is the current one, because nothing else is ever rolled back.
- ChainStores.ChainStore.PersistUnspend: the same bound; and for a block that spends what is not there it does not say when the source fails, since the other index has failed before.
- ChainStores.ChainStore.RollbackTransactions: a recharge that does not decode ends the loop early; only the frame is stated then, because no such block can be stored.
- BlockProcessing.BlockProcessor.ProcessBlock: blocks with at most 65536 outputs per transaction.
- BlockProcessing.BlockProcessor.Run: the same blocks as ProcessBlock.
- Blockchains.Blockchain.DisconnectBlock: only when the store has the block of the tip, because its one caller has just read it from there.
- Mining.GenerateOn: the transaction hash of the coinbase and the hash of the block are parameters, and the search for a nonce is left out; that the transactions of the pool still pass their checks is a condition of `MinedBlock`.
- BlockTemplates.GenerateBlock: the limit on the serialized size is not among the checks that are met, because the source leaves the header out of its running size (`SizesFit` is what it does guarantee); a recharge in the pool that carries inputs is assumed not to repeat them.
- Bloom.Filter.Matches: a filter of at least one byte and at most 36000; the source divides by zero on an empty one. Loading and unloading a filter later is not modelled.
- MultiSig.ExecutionEngine.OpCheckMultiSig: numbers on the stack are mathematical integers.
- Locators.BlockLocatorFromHash: heights below 2^31, as the source converts them to 32-bit signed numbers.
