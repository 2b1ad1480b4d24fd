# A verified model of the Fantom node core

This project models, in Dafny, the parts of the Fantom proof-of-work / proof-of-stake node whose
correctness is hard to see from the code: the spent-output index and the chain engine above it, the
block assembler, the Merkle tree, the address manager with its file format, Base58, the stake modifier,
difficulty retargeting, InstantX votes, the orphan pool and the page-lock counter.

`dafny verify dfyconfig.toml` checks all of it. Nothing here executes the node.

## How it is organised

| files | part of the node |
|---|---|
| `Ledger`, `Blocks`, `BlockFiles`, `Supply` | one transaction, one block, its place in the files and the money supply against `CTxIndex.vSpent` |
| `BlockTree`, `Replay`, `Branches`, `ChainState`, `Stranded` | block tree, replay of the main chain, reorganization, best chain, and a run that leaves it behind |
| `Miner`, `Assembled` | `CreateNewBlock`, and why `ConnectBlock` accepts what it assembles |
| `Merkle` | the Merkle tree kept in one flat vector |
| `AddrTables`, `AddrMan`, `AddrCheck`, `AddrFile` | address manager: invariant, operations, `Check_`, saved form |
| `Positional`, `Base58` | numbers to a base, and the Base58 codec on fixed buffers |
| `Compact`, `Retarget`, `Kernel` | compact targets, retargeting, stake-modifier selection |
| `InstantX`, `OrphanPool`, `PageLock` | three state machines over whole runs |
| `Wrappers`, `Sequences` | shared helpers |

## The main results

* **The chain state is a cache of a replay.** `ChainState.State` has the fields of the node. Every
  `AddToBlockIndex` that leaves no postponed reconnect unfinished keeps `Valid()`: the index is what
  replaying the main chain yields, `pnext` and `pindexBest` mark exactly the ancestors of the best
  block, the supply at the tip is the total of unspent outputs, and no output has two spenders. The
  contracts say exactly when a heavier block becomes best. Over every run from genesis in which no arrival
  builds on a refused block the state stays valid, whatever is refused; when the heavier blocks all connect,
  the best block has the greatest trust of all blocks filed, ties kept by the earlier one. A concrete run that
  builds on a refused block and ends with the best block ahead of the state is given. A failed reorganization leaves the committed index and the links as they were.
* **Disconnecting is exact if and only if ids are fresh.** `Blocks.DisconnectRestoresIffFresh`; a block that
  connects with a reused id is given.
* **Ordinary transactions create nothing, and supply grows by at most the subsidy** for every block whose only coinstake is its second transaction; for
  connected blocks in general, if and only if stray coinstakes mint no more than the coinbase left unclaimed,
  and a concrete accepted block that exceeds it is given.
* **Every template connects.** What `CreateNewBlock` selects spends each output once, in dependency
  order and within its limits; it is what offering the free pool transactions in rank order makes, each
  taken if and only if it was acceptable in its turn; and the proof-of-work block built from it passes
  `ConnectBlock` on the same index, although the two count maturity from different blocks, provided that a
  signature good under the assembler's script flags is good under those of `ConnectBlock`.
* **The address manager never trips an assert.** Every operation keeps the full invariant (or keeps it
  exactly under a stated condition on the time argument), the invariant is `Check_` plus a list of facts
  `Check_` does not look at, and saving followed by loading is an isomorphism under renumbering.
* **Codecs are inverse.** Base58 both ways on all inputs, including that the buffers never overflow; the
  Merkle branch of every transaction leads to the root, and what the root determines of a list is stated as
  an equivalence; compact targets lose less than one part in 2^15.

Some properties one might expect are false of the code; the model keeps the code and states the exact
condition: see `Blocks.DisconnectRestoresIffFresh` with `Blocks.SpentIdIsReused`, `Supply.SubsidyBoundIff`
with `Supply.StrayCoinStakeOvermints`, `Merkle.RootsEqualIff` with `Merkle.RepeatedLastSameRoot`,
`Retarget.StakeStepBound`, `Retarget.MonotoneUnlessOne`, `AddrMan.Manager.Good`,
`AddrMan.Manager.Attempt`, `AddrMan.NamesOldestIff` with `AddrMan.OldestNotNamed`,
`BlockTree.LinksFitIffTipIsBest` with `Stranded.RunAhead`.

## Conventions

Hashes of transactions and blocks are injective ids. The block files, signatures, maturity, clocks,
randomness and the other block checks enter as arbitrary functions or nondeterministic choices, so every
result holds for all of them. The database is a map with a committed and a visible version. Integers are
unbounded; where the source relies on a width (`nTime` of an address, compact targets, the stake
modifier) the truncation is written out. Rewards read the best height as a parameter, as the source
reads `pindexBest`.

The comments of the source say that one address can be in up to 4 new buckets and that there are 64
tried buckets (`src/addrman.h:108`, `src/addrman.h:112`); the constants in the code are 8 and 256, and
the model follows the code.

## Model

| member | source | states |
|---|---|---|
| Ledger.GetValueOut | src/main.h:318-328 | succeeds exactly when no output and no running total leaves the money range, and then returns the sum |
| Ledger.FetchInputs | src/main.cpp:1487-1556 | succeeds exactly when every previous transaction is found where block, miner and pool callers look and every output number exists; returns exactly those; `fInvalid` exactly when only an output number is wrong |
| Ledger.CheckInputs | src/main.cpp:1596-1625 | the cheap pass accepts exactly when every input names an existing output, is mature, not younger, not empty and keeps the total in range |
| Ledger.SpendInputs | src/main.cpp:1629-1683 | succeeds exactly when every input is unspent at its turn and signed; the proposed changes then hold each touched entry with exactly the named outputs marked |
| Ledger.ConnectInputs | src/main.cpp:1585-1707 | succeeds exactly when inputs, spends, signatures and the fee are in order and the outputs have a value; outside block and miner mode nothing is proposed |
| Ledger.ConnectActsOnView | src/main.cpp:1629-1683 | fetching through proposed changes and writing back marked entries is, on what the database transaction shows, marking all named outputs at once; they were unspent and distinct |
| Ledger.DisconnectInputs | src/main.cpp:1451-1484 | succeeds exactly when every named output is indexed; clears exactly those marks and erases the transaction's entry |
| Ledger.ClearUndoesMark | src/main.cpp:1451-1484 | clearing the outputs a transaction marked restores the index, with several inputs from one previous transaction too |
| Ledger.UndoTxIffFresh | src/main.cpp:1451-1484 | disconnecting a connected transaction restores the index if and only if its id was not indexed before |
| Blocks.ConnectTxs | src/main.cpp:1872-1943 | the loop accepts exactly when the transactions connect one after the other within the sigop limit; the queued changes amount to applying them in order and the totals are the sums |
| Blocks.TxConnectsIff | src/main.cpp:1596-1692 | a transaction connects if and only if it overwrites no entry with an unspent output and each input is paid for by an output that exists, is unspent, named once, mature, no younger, not empty and signed for, with no more money in than exists and, unless it is a coinstake, no less than goes out |
| BlockFiles.PositionHoldsTx | src/main.cpp:1861-1902 | the position recorded for a transaction is where the serialized block (header fields, count, transactions) holds it in the file |
| Blocks.GetValueIn | src/main.cpp:1571-1583 | the sum of the values of the outputs named, 0 for a coinbase |
| Blocks.ConnectBlock | src/main.cpp:1841-2047 | accepts exactly the blocks whose checks, spends, sigops and reward are in order; the index is then the block applied, the supply moves by outputs minus inputs, and on failure the index is unchanged |
| Blocks.WorkTiers | src/main.cpp:1227-1269 | 8250 coins at best height 0, then 80 coins and 10 less every 5000 blocks, then 5 |
| Blocks.StakeTiers | src/main.cpp:1271-1299 | the proof-of-stake subsidy in cents, tier by tier |
| Blocks.DisconnectBlock | src/main.cpp:1709-1731 | undoes the transactions last to first, and fails exactly when one of them cannot be undone |
| Blocks.UndoneApplied | src/main.cpp:1709-1715 | undoing any prefix of a fresh block restores the index, chains of spends inside the block included |
| Blocks.DisconnectRestoresIffFresh | src/main.cpp:1709-1715 | for every block that connects, disconnecting restores the index exactly if and only if none of its ids was indexed |
| Blocks.SpentIdIsReused | src/main.cpp:1877-1894 | a block whose coinbase takes the id of a completely spent transaction connects, and disconnecting it does not restore the index |
| Supply.ApplyTxValue | src/main.cpp:1904-1943 | connecting one transaction changes the total of unspent outputs by its outputs minus its inputs |
| Supply.OrdinaryCreatesNothing | src/main.cpp:1684-1692 | connecting a transaction that is neither coinbase nor coinstake never raises the total of unspent outputs |
| Supply.OrdinaryInBlock | src/main.cpp:1904-1943 | in a connected block neither, at its place; and what it gives up is exactly what it adds to the fees |
| Supply.BlockConservesValue | src/main.cpp:1970-1971 | connecting a block changes the total of unspent outputs by exactly what it adds to the recorded supply |
| Supply.SupplyChangeBounded | src/main.cpp:1945-1971 | a connected block adds at most the subsidy plus what stray coinstakes mint |
| Supply.SubsidyBound | src/main.cpp:1945-1971 | a connected block whose only possible coinstake is its second transaction adds at most the subsidy for the best height, proof-of-work or proof-of-stake |
| Supply.RewardIffSupply | src/main.cpp:1945-1971 | a block whose transactions connect and whose only possible coinstake is the second one is accepted if and only if it raises the supply by no more than the subsidy |
| Supply.SubsidyBoundIff | src/main.cpp:1945-1971 | a connected block adds at most the subsidy if and only if it is proof-of-stake or its stray coinstakes mint no more than subsidy plus fees minus what the coinbase claims |
| Supply.StrayCoinStakeOvermints | src/main.cpp:2432-2444 | a concrete proof-of-work block with a coinstake as third transaction connects and adds more than the subsidy |
| BlockTree.TrustGrows | src/main.cpp:2361 | chain trust strictly increases from every proper ancestor |
| BlockTree.FindFork | src/main.cpp:2053-2065 | the fork loop ends at the lowest common ancestor |
| BlockTree.WalkDown | src/main.cpp:2067-2076 | the list to disconnect or connect is exactly the blocks above the fork, from the top |
| BlockTree.FindIntermediate | src/main.cpp:2204-2214 | the chosen block is the first on its branch to exceed the old best, and the postponed ones are exactly those above it |
| BlockTree.UnlinkBranch | src/main.cpp:2124-2127 | clearing the old branch leaves exactly the links of the chain up to the fork |
| BlockTree.LinkBranch | src/main.cpp:2129-2132 | setting the new branch yields exactly the links of the new chain |
| BlockTree.MainChainIsAncestry | src/main.h:1026-1029 | with links that fit the best chain, a block has a successor or is best exactly when it is an ancestor-or-self of the best block |
| BlockTree.LinksFitIffTipIsBest | src/main.cpp:2222-2252 | when the links describe the chain of an ancestor of the best block, membership in the main chain is ancestry of the best block if and only if that ancestor is the best block |
| BlockTree.FindBlockByHeight | src/main.cpp:1140-1155 | from any cached start on the main chain it ends at the best block's ancestor of that height |
| BlockTree.SetLocator | src/main.h:1265-1281 | lists exactly the ancestors at distances 0 to 10 and 9 + 2^(k-10) that the chain is long enough for, then genesis |
| BlockTree.GetBlockIndex | src/main.h:1303-1317 | returns the first listed block on the main chain |
| BlockTree.LocatorFindsHighestCommon | src/main.h:1303-1317 | the block returned is the highest listed one on both chains |
| BlockTree.LocatorFindsNearFork | src/main.h:1265-1317 | for chains that fork anywhere, the block returned lies at most twice as far below the listed block as the fork, and is the fork itself within ten blocks |
| Replay.DisconnectStepsBack | src/main.cpp:2081-2097 | with distinct ids, disconnecting the last replayed block gives the replay of the chain without it |
| Replay.ConnectStepsForward | src/main.cpp:2099-2118 | connecting a block gives the replay of the longer chain |
| Replay.ReplayWell | src/main.cpp:1841-2047 | every entry of a replayed index points at its own transaction with one mark per output |
| Replay.AtMostOneSpender | src/main.cpp:1629-1683 | along any replayed chain with distinct ids no output is named by two inputs, and the marked outputs are exactly the named ones |
| Branches.DisconnectBranch | src/main.cpp:2081-2097 | disconnecting a branch succeeds exactly when its blocks read, and ends at the replay of the fork |
| Branches.ConnectBranch | src/main.cpp:2099-2118 | connecting a branch succeeds exactly when each block reads and connects; index and supplies are then those of the longer replay |
| Branches.BranchEmission | src/main.cpp:2099-2118 | every block of a connected branch was read and, without a stray coinstake, raises the total of unspent outputs by at most its subsidy at the best height |
| ChainState.PlanSwitch | src/main.cpp:2053-2076 | fork, blocks to disconnect and blocks to connect are those of the two chains |
| ChainState.SwitchEmission | src/main.cpp:2081-2118 | a switch that goes through read every block of both branches, and each new one without a stray coinstake raises the total by at most its subsidy at the height of the old best block |
| ChainState.RankedAppend | src/main.cpp:2393-2395 | making a newcomer best exactly when it strictly exceeds the best keeps the ranking with ties to the earlier block |
| ChainState.OutcomeIsFull | src/main.cpp:2192-2237 | the best block moves and the state follows it if and only if the block connects on the old tip, or the switch at the first block to exceed it and all postponed reconnects go through |
| ChainState.NothingPostponed | src/main.cpp:2204-2214 | a heavier block whose parent is no heavier than the best postpones nothing, so a successful switch takes the state to it |
| ChainState.State.SetBestChainInner | src/main.cpp:2151-2173 | succeeds exactly when the block connects and commits; state then describes the longer chain, with a supply that grew by at most the subsidy unless there is a stray coinstake; otherwise index and links are unchanged |
| ChainState.State.Reorganize | src/main.cpp:2049-2147 | succeeds exactly when the old branch reads, the new one connects above the lowest common ancestor and the commit goes through; a failure leaves committed index and links unchanged |
| ChainState.State.ConnectLater | src/main.cpp:2221-2237 | postponed blocks are connected in order, the state always describes the tip reached, and the end is reached exactly when all connect |
| ChainState.State.SetBestChain | src/main.cpp:2175-2292 | extends or reorganizes as the source decides, says exactly when that succeeds and how far the state reaches, and leaves everything on failure |
| ChainState.State.AddToBlockIndex | src/main.cpp:2339-2406 | files the block with its height and trust; a heavier one becomes best, with the state following it, exactly when it connects, and joins the failed ones exactly when it is refused; the whole chain state stays valid unless the block builds on a refused one and a postponed reconnect fails |
| ChainState.State.AddAll | src/main.cpp:2339-2406 | over any run in which no arrival builds on a refused block the state stays valid, and blocks filed, best block and refused blocks are those the run determines |
| ChainState.RunFromGenesis | src/main.cpp:2393-2395 | after every such run from genesis the best block has the greatest trust of all blocks not refused; when all heavier blocks connect, of all blocks filed, and it came before every other of that trust |
| ChainState.State.FindByHeight | src/main.cpp:1140-1155 | on every valid state, with whatever the cache holds, yields the best block's ancestor of that height |
| ChainState.State.ValidMeans | src/main.cpp:2049-2292 | in every valid state: index equals replay, supply equals unspent total, single spenders, links equal ancestry, best block of greatest trust |
| Stranded.RunAhead | src/main.cpp:2222-2252 | a sibling is refused when its commit fails, its child then switches to it and cannot be read: the best block is the child, the state describes the sibling, and main-chain membership is not ancestry of the best block |
| Miner.ScanInputs | src/miner.cpp:191-229 | a pool transaction is missing an input exactly when one is neither readable nor pooled, and it is registered with exactly the pool transactions it waits for |
| Miner.Collect | src/miner.cpp:175-247 | after the pass every eligible pool transaction is queued or waits for exactly its unread pool parents, and the dependents lists mirror that |
| Miner.PopBest | src/miner.cpp:259-267 | the entry removed has the highest fee rate in fee mode and the highest priority otherwise, ties by the other key |
| Miner.Release | src/miner.cpp:333-348 | exactly the transactions that waited for nothing else enter the queue, each once |
| Miner.TrySpend | src/miner.cpp:299-317 | accepts exactly when the inputs connect on the trial index within the sigop limit; the trial index and the fee follow |
| Miner.TryAdd | src/miner.cpp:269-324 | a transaction is added exactly when limits, times, free-transaction rule and inputs allow it; sizes, sigops and fees stay the sums |
| Miner.Assemble | src/miner.cpp:250-349 | no transaction leaves the queue twice; those that leave it are exactly the eligible ones whose pool parents were all included, each with the highest fee rate or priority, as the mode then was, of all that were free to go; the template is what offering them in that order makes |
| Miner.TurnDecides | src/miner.cpp:259-324 | a transaction taken off the queue is in the final template if and only if, in its turn, it was acceptable behind the transactions included before it in the sort mode reached then |
| Miner.TurnInNumbers | src/miner.cpp:259-324 | the same in numbers: size, sigops, time and fee limits decide, and the mode turns to fees at the priority size or at the first priority below 57600000 |
| Assembled.CreateNewBlock | src/miner.cpp:174-362 | each transaction once, final, neither coinbase nor coinstake, not from the future, after every pool transaction it spends from, no output spent twice, size and sigops within limits, fees the sum of inputs minus outputs; and the selection is the one that offering all free transactions by priority, then by fee rate, makes |
| Assembled.InputsComeEarlier | src/miner.cpp:296-303 | every input of a template transaction is in the chain or from an earlier template transaction |
| Assembled.SpentOnce | src/miner.cpp:314-317 | all outputs named by the template are distinct and marked in the trial index |
| Assembled.SpendsSame | src/miner.cpp:299-317 | what spends from the trial index spends the same value from any index that offers the same outputs under rules that ask no more of it |
| Assembled.AssembledBlockConnects | src/miner.cpp:174-362 | the proof-of-work block of a coinbase claiming subsidy and fees and the selected transactions is accepted by ConnectBlock, provided its script flags accept the signatures the assembler accepted and nothing indexed is younger to it |
| Assembled.IsConfirmedInNPrevBlocks | src/main.cpp:1438-1449 | true exactly when the position lies in one of the last n blocks |
| Assembled.NewBlockSeesNoYounger | src/main.cpp:1610-1611 | counted from the new block, nothing outside it is immature that was mature counted from the tip |
| Assembled.BoundaryDiffers | src/main.cpp:1610-1611 | what lies exactly n blocks up is immature counted from the tip and mature counted from the new block |
| Merkle.Block.BuildMerkleTree | src/main.h:749-766 | the flat vector holds all levels and the value returned is the root |
| Merkle.RootIsTopDown | src/main.h:749-766 | the root built level by level is the recursive hash of the two halves, left before right, of the list filled up by repeating last entries |
| Merkle.Block.GetMerkleBranch | src/main.h:768-782 | the siblings on the way to the root, at every level size |
| Merkle.Block.CheckMerkleBranch | src/main.h:784-797 | hashing upwards along the branch by the bits of the index, negative ones included; 0 for index -1 |
| Merkle.BranchLeadsToRoot | src/main.h:749-797 | for every block and index, the extracted branch leads from the transaction to the root, odd or even levels |
| Merkle.BranchProvesLeaf | src/main.h:784-797 | under an injective hash a branch of the right length proves only the leaf at its index |
| Merkle.RootBindsDistinctLists | src/main.cpp:2558-2564 | among lists without repetition whose trees have the same height the root determines the list |
| Merkle.RootsEqualIff | src/main.h:749-766 | for an injective hash, two lists have the same root if and only if the one with the lower tree and the matching level of the other agree once every odd level is filled up |
| Merkle.PlaceOfOwn | src/main.h:755-763 | the filled-up list starts with the list itself |
| Merkle.RepeatedLastSameRoot | src/main.h:749-766 | repeating an odd last transaction keeps the root |
| AddrTables.AtMost32768 | src/addrman.h:122-133 | consistent tables hold at most 256 * 64 tried and as many new addresses, 32768 in all |
| AddrTables.WorthKeeping | src/addrman.cpp:38-56 | an entry is not terrible if and only if it was tried within a minute, or was seen within 30 days, is not from the future and failed fewer than 3 times without success and fewer than 10 times since a success over a week ago |
| AddrMan.Manager.constructor | src/addrman.h:384-392 | an empty manager satisfies the invariant |
| AddrMan.Manager.Find | src/addrman.cpp:81-92 | the id of the address, if there is an entry for it |
| AddrMan.Manager.Create | src/addrman.cpp:94-104 | a fresh id at the end of the random vector, known under the address |
| AddrMan.Manager.SwapRandom | src/addrman.cpp:106-124 | exchanges two places, keeps vector and positions inverse and changes nothing else |
| AddrMan.Manager.SelectTried | src/addrman.cpp:126-148 | shuffles up to four entries to the front by the draws and names the place that the least recently successful of them was drawn from, -1 for an empty bucket |
| AddrMan.NamesOldestIff | src/addrman.cpp:126-148 | the entry at the named place is the least recently successful of those inspected if and only if its draw left it in place |
| AddrMan.OldestNotNamed | src/addrman.cpp:136-144 | two entries and a draw for which the other entry is named |
| AddrMan.Manager.Delete | src/addrman.cpp:164-170 | takes one entry out of all tables and keeps them inverse |
| AddrMan.Manager.ShrinkNew | src/addrman.cpp:150-202 | one reference of the bucket is given up: a terrible entry's if there is one, else that of the least recently seen at four drawn places, by id among equals; an entry goes with its last reference |
| AddrMan.Manager.MakeTried | src/addrman.cpp:204-260 | the entry leaves all new buckets for the tried bucket its hash names; a full bucket sends the entry that SelectTried names back to its own new bucket or, if that is full, to the bucket just left; no assert fires |
| AddrMan.Manager.Good | src/addrman.cpp:262-309 | a matched entry ends tried, with success and try at the given time, no failures and no references, and at most one other goes back with one reference; the invariant holds afterwards if and only if nothing matched or the time is positive |
| AddrMan.Manager.Add | src/addrman.cpp:311-366 | keeps the invariant; a routable address is known afterwards and the result says whether it is new; a known one gains a reference if and only if it is news, not tried, below 8 references, the draw among 2^references is 0 and the bucket lacks it; another entry loses one reference if and only if the bucket was full, and which one is stated |
| AddrMan.RefreshedMeans | src/addrman.cpp:320-330 | services are joined and the time moves, less the penalty, only if there was none or the new one is ahead by the penalty and an hour, or a day for a peer not seen within a day |
| AddrMan.Manager.Attempt | src/addrman.cpp:368-385 | the matched entry records the try; the invariant holds afterwards if and only if nothing matched or the time is not negative |
| AddrMan.Manager.Connected | src/addrman.cpp:513-532 | the matched entry's time moves only when more than 20 minutes old; the invariant is kept |
| AddrMan.Manager.GetAddr | src/addrman.cpp:491-511 | distinct entries, none terrible, at most 23 percent and 2500; all that are not terrible when the limit is not reached; only the random order changes |
| AddrCheck.Check | src/addrman.cpp:432-488 | returns 0 exactly when entries, counters, tried enumeration and reference counts are in order |
| AddrCheck.ConsistentIff | src/addrman.cpp:432-488 | the invariant is exactly what Check_ accepts together with bucket sizes, hash-named buckets, known addresses and id bounds |
| AddrFile.Serialize | src/addrman.h:271-314 | writes header, new entries, tried entries and buckets as indices, in the order of ids |
| AddrFile.WrittenLayout | src/addrman.h:271-314 | version, key, counts and 256; then the new and the tried entries, each in ascending order of ids; then the buckets |
| AddrFile.BucketLayout | src/addrman.h:301-312 | a bucket is its size and, for each entry, the number under which the entry was written |
| AddrFile.RoomAgain | src/addrman.h:349-363 | a tried entry that was saved always finds room in its rebuilt bucket, so none is lost |
| AddrFile.JoinStep | src/addrman.h:371-375 | the guard on the reference count never bars a saved reference |
| AddrFile.Unserialize | src/addrman.h:315-377 | reading what was written for consistent tables succeeds with consistent tables isomorphic to them under renumbering |
| AddrFile.SaveAndLoad | src/addrman.h:271-377 | saving and loading keeps addresses, saved statistics, bucket membership, reference counts and counters, and re-establishes the invariant |
| Base58.BufferFits58 | src/base58.cpp:73-74 | a buffer of 138 percent plus one holds every encoding |
| Base58.BufferFits256 | src/base58.cpp:31-32 | a buffer of 733 permille plus one holds every decoding |
| Base58.Feed | src/base58.cpp:33-48 | multiplying in the next digit leaves no carry, so the asserts hold |
| Base58.EncodeBase58 | src/base58.cpp:66-98 | leading zeros as '1', then the number to base 58 |
| Base58.EncodedMeans | src/base58.cpp:66-98 | an encoding is the same number to base 58 behind one '1' for each leading zero byte |
| Base58.AlphabetIs | src/base58.cpp:18-19 | digit by digit the alphabet without 0, I, O and l |
| Base58.DecodeBase58 | src/base58.cpp:21-64 | one word of the alphabet between spaces gives its bytes, anything else fails |
| Base58.DecodedIffSpacedWord | src/base58.cpp:21-64 | accepted exactly when the string is one word of the alphabet between spaces |
| Base58.DecodeEncode | src/base58.cpp:21-98 | decoding an encoding gives back every byte string |
| Base58.EncodeDecode | src/base58.cpp:21-98 | encoding a decoding gives back every accepted string without its spaces |
| Base58.DecodeBase58Check | src/base58.cpp:116-132 | the payload when the last four bytes are its hash, otherwise failure |
| Base58.CheckedIffEncoded | src/base58.cpp:108-132 | for any hash the checksummed forms are inverse to each other in both directions |
| Compact.GetCompact | src/bignum.h:334-345 | the size and the first three bytes of the MPI form |
| Compact.SetCompact | src/bignum.h:322-332 | the number whose MPI form has that size and those bytes |
| Compact.DecodeEncode | src/bignum.h:322-345 | decoding an encoding rounds down to three bytes |
| Compact.RoundedBounds | src/bignum.h:322-345 | rounding never goes up or to zero and loses less than one part in 2^15 |
| Compact.RoundedMonotone | src/bignum.h:322-345 | encoding and decoding is monotone |
| Retarget.GetLastBlockIndex | src/main.cpp:1303-1308 | the last block of the wanted kind, or genesis |
| Retarget.GetNextTargetRequired | src/main.cpp:1310-1348 | the limit unless two blocks of the kind lie above genesis; otherwise one step from the target of the last of them by the time between exactly the last two |
| Retarget.RequiredFromKind | src/main.cpp:1317-1325 | the required target is a function of the list of blocks of its kind above genesis, by the last two |
| Retarget.OtherKindMakesNoDifference | src/main.cpp:1303-1325 | a block of the other kind anywhere above genesis does not change the required target |
| Retarget.RegularSpacingKeeps | src/main.cpp:1324-1345 | a spacing of 28 seconds, or a negative one, keeps a target within the limit |
| Retarget.StepInNumbers | src/main.cpp:1324-1345 | a step multiplies by 252 plus twice the spacing over 308, with proof-of-stake spacings cut at 280, or gives the limit |
| Retarget.RequiredInRange | src/main.cpp:1310-1348 | the required target decodes to a value from 1 to the limit |
| Retarget.AcceptedTargets | src/main.cpp:2613-2614 | over every accepted chain targets stay in range, so every block has positive trust |
| Retarget.StakeStepBound | src/main.cpp:1324-1345 | a proof-of-stake step never decodes above 812/308 of the old target if and only if it is not from target 1 with a spacing below the target spacing |
| Retarget.MonotoneUnlessOne | src/main.cpp:1324-1345 | the result is monotone in the spacing if and only if the old target is not 1 |
| Kernel.GetLastStakeModifier | src/kernel.cpp:24-35 | the nearest ancestor that generated a modifier |
| Kernel.CollectCandidates | src/kernel.cpp:128-140 | exactly the blocks since the start of the interval |
| Kernel.SelectBlock | src/kernel.cpp:56-95 | the least selection hash among unselected blocks up to the stop, else the first unselected block |
| Kernel.PickUnique | src/kernel.cpp:56-95 | the rule determines the pick |
| Kernel.PickFavoursStake | src/kernel.cpp:72-90 | on raw hashes: the least of a kind is picked, and proof of work wins over an eligible proof of stake only if its hash is below by 2^32 |
| Kernel.PickWithoutEligible | src/kernel.cpp:56-95 | when every unselected block is too late, the earliest of them is picked, by hash among equals |
| Kernel.SectionsGrow | src/kernel.cpp:38-42 | sections grow from a third of the modifier interval to all of it |
| Kernel.SelectRounds | src/kernel.cpp:143-160 | never fails, picks min(64, n) blocks by the rule, and bit r is the entropy bit of pick r |
| Kernel.PicksDistinct | src/kernel.cpp:143-160 | no block is picked twice |
| Kernel.ComputeNextStakeModifier | src/kernel.cpp:110-188 | genesis gets 0, the modifier is kept within an interval, otherwise it holds the entropy bits of the picks that the rounds make among the sorted candidates |
| Kernel.RoundsUnique | src/kernel.cpp:143-160 | two pick lists that obey the rounds agree as far as both go |
| Kernel.ModifierDetermined | src/kernel.cpp:128-160 | the candidates determine their sorted order, the picks and every bit of the modifier |
| InstantX.CountSignatures | src/instantx.cpp:601-617 | the number of votes at the lock's height |
| InstantX.CountIsDistinctVoters | src/instantx.cpp:601-617 | in a lock with distinct vote hashes the count is the number of distinct outpoints that voted at its height |
| InstantX.CompleteIff | src/instantx.cpp:364-366 | a lock is complete if and only if its height is known and 15 distinct outpoints voted for it |
| InstantX.VoteHashTells | src/instantx.cpp:492-495 | votes by different outputs of one transaction have different hashes, and the height does not enter |
| InstantX.OneVotePerNode | src/instantx.cpp:492-495 | an outpoint has at most one vote in a lock, whatever heights it names |
| InstantX.AddUnseenVote | src/instantx.cpp:596-599 | adding a vote whose hash was never seen keeps all stored hashes distinct across locks |
| InstantX.DropLock | src/instantx.cpp:471-485 | dropping a lock and forgetting its votes keeps every other stored vote recorded |
| InstantX.Node.CreateNewLock | src/instantx.cpp:220-255 | 0 and no change when an input is too new; otherwise the lock is filed, or keeps its votes, at the height the first input determines |
| InstantX.Node.CheckForConflictingLocks | src/instantx.cpp:402-423 | a conflict exactly when an input is locked by another transaction; the locks of this transaction and of the owner of the first such input then expire now, and every other lock stays as it was |
| InstantX.Node.CancelThenClean | src/instantx.cpp:402-490 | after a conflict and the next cleaning neither party keeps its lock |
| InstantX.Node.ProcessConsensusVote | src/instantx.cpp:308-400 | exactly a ranked and signed vote is approved and joins its lock; completing the lock claims the free inputs of the request, or expires both locks on a conflict |
| InstantX.CompletingVoteLocksInputs | src/instantx.cpp:364-384 | a vote that completes a lock without conflict leaves every input of the requested transaction locked by it |
| InstantX.ConflictingVoteExpiresBoth | src/instantx.cpp:364-384 | a vote that completes a lock against the owner of an input makes both locks expire now and changes no other |
| InstantX.OwnersStay | src/instantx.cpp:379-383 | an input that is locked keeps its owner through every vote and request |
| InstantX.Node.OnVote | src/instantx.cpp:124-138 | a vote whose hash is remembered changes nothing; any other is remembered, and approved and entered exactly when ranked and signed |
| InstantX.Node.OnRequest | src/instantx.cpp:41-121 | a known, rejected or invalid request changes nothing; a new one gets a lock and is recorded as accepted or as rejected with its inputs claimed; no request approves a vote |
| InstantX.RequestRecorded | src/instantx.cpp:75-118 | an accepted request is filed; a rejected one claims its free inputs and, with a complete lock, becomes a request if and only if no other transaction had one of its inputs |
| InstantX.Node.RelayOwnRequest | src/wallet.cpp:1214-1215 | the wallet's own request is recorded once and given the lock that CreateNewLock files |
| InstantX.Node.Clean | src/instantx.cpp:440-490 | exactly the locks not expired remain; each expired one with a known request takes the request, its inputs and its remembered votes with it |
| InstantX.Node.CompleteLockHasDistinctVoters | src/instantx.cpp:364-366 | in every reachable state a count of 15 means 15 distinct approved blanknode outpoints at the lock's height |
| OrphanPool.Pool.Add | src/main.cpp:190-219 | refuses known and oversized transactions, else lists it under exactly its parents |
| OrphanPool.Pool.Erase | src/main.cpp:221-236 | unlists it under every parent and leaves no empty list |
| OrphanPool.Pool.Limit | src/main.cpp:238-252 | ends at the limit and returns the number removed |
| OrphanPool.Pool.Drain | src/main.cpp:3913-3948 | terminates for any acceptance policy that refuses known ids, accepts each orphan at most once, offers exactly the orphans listed under an accepted transaction, and erases exactly those accepted or refused for good |
| PageLock.Manager.LockRange | src/allocators.h:60-80 | each page of the range is counted once more and the locked pages are those counted |
| PageLock.Manager.UnlockRange | src/allocators.h:83-104 | each page of the range is counted once less, and the assert holds |
| PageLock.CountersCountLiveRanges | src/allocators.h:50-104 | over every matched history each counter is the number of live ranges touching the page, and the locked pages are exactly those |
| PageLock.RunHistory | src/allocators.h:50-104 | on a new manager every matched history without wrap-around leaves each counter at the number of live ranges touching its page and exactly the touched pages locked |

## Left out

- Ledger.ConnectInputs: 64-bit overflow of running totals; every total is checked against the money range before it could overflow.
- Blocks.ConnectBlock: the block signature, timestamps, sizes, blanknode payments and the other checks of CheckBlock and ConnectBlock are one arbitrary boolean; the `fJustCheck` mode, the address index and the wallet are not modelled.
- ChainState.State.SetBestChain: the branch that stores genesis, memory-pool updates after a reorganization and the on-disk block-index records (`hashNext`) are not modelled.
- ChainState.State.AddToBlockIndex: when a postponed reconnect fails the source still moves the best block; the contract then only says that the state describes the chain of `tip`, and `BlockTree.LinksFitIffTipIsBest` says what is lost.
- ChainState.State.Reorganize: the supply fields of blocks off the main chain may change when it fails, as in the source.
- Miner.ScanInputs: excludes pools in which an input is missing behind one that waits; see Miner.Assemble.
- Miner.Collect: excludes the same pools.
- Miner.Assemble: priority and fee rate are arbitrary functions instead of the floating-point formulas; the library heap is a sequence; a pool in which an input is missing behind one that waits is excluded, because the source then keeps a pointer to an entry it dropped.
- Assembled.AssembledBlockConnects: proof-of-work only, since a proof-of-stake template gets its coinstake elsewhere; that the script flags of ConnectBlock accept what those of the assembler accept is a hypothesis, because script evaluation is not modelled.
- Merkle.Block.GetMerkleBranch: requires the cached tree to be empty or up to date; the source does not rebuild a stale cache.
- AddrCheck.Check: which error code is returned is not stated; looking up a missing address yields 0 without inserting it into the map; on consistent tables nothing is missing.
- AddrFile.Unserialize: on streams that Serialize does not write, negative counts or indices and more than 256 buckets count as a read failure; the stream is a sequence of typed values, not bytes.
- Retarget.GetNextTargetRequired: for an empty chain the model returns the limit; for a proof-of-stake request the source reads the height of the missing block before it tests for it.
- Compact.SetCompact: the MPI conversions of the big-number library are modelled by their documented format.
- PageLock.RunHistory: excludes the ranges that PageLock.Manager.LockRange excludes.
- PageLock.Manager.LockRange: ranges whose last page is the last of the address space are excluded (the loop variable would wrap around).
- PageLock.Manager.UnlockRange: excludes the same ranges.
- InstantX.Node.OnVote: the tracking of votes for unknown transactions and its scanning penalties.
- Address selection by floating-point chance (`Select_`, `GetChance`), because it only reads the tables.
- The network, RPC, I2P, Qt and start-up code, the market, blanknode upkeep, database wrappers and cryptography.
