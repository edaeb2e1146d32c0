# Verified models of op-geth (X Layer)

A Dafny project that models the parts of the execution client that are hardest to get right and
proves what they are for: which chain is canonical, what a crash may leave behind, who receives an
event, where every wei and every unit of gas goes.

| file | models |
|---|---|
| `ChainDb.dfy`, `Forks.dfy`, `HeadSwitch.dfy`, `BlockChain.dfy` | the chain database, the search for a fork, the head switch and its runs (`core/blockchain.go`) |
| `HeaderChain.dfy`, `Ancestors.dfy` | header import and reorganisation, ancestor lookups (`core/headerchain.go`, `core/evm.go`) |
| `Rewind.dfy`, `Descent.dfy`, `SetHead.dfy` | rewinding the chain: the search for a block with state, the way down, and the node that takes it, with every durable write as a possible crash point |
| `Feed.dfy`, `FeedSend.dfy` | the event feed as a protocol of goroutines, and its in-place case array (`event/feed.go`, `event/feedof.go`) |
| `World.dfy`, `IntrinsicGas.dfy`, `Authorizations.dfy`, `Fees.dfy`, `StateTransition.dfy` | applying one message: gas, fees, deposits, EIP-7702 lists (`core/state_transition.go`) |
| `GasPool.dfy`, `Process.dfy` | the block's gas and the block's transactions (`core/gaspool.go`, `core/state_processor.go`) |
| `TxIndexer.dfy`, `TrieGc.dfy` | the transaction index window, the trie garbage collector |
| `Common.dfy` | shared helpers |

`dafny verify dfyconfig.toml` checks everything.

## How to read the model

* A database batch is a list of writes; `Apply` performs it, and a crash point is a prefix of the list
  (`ApplyFirst`). `Rebuild` computes the number index and the transaction lookups from nothing but the
  stored headers, the bodies and the head. The head switch is proved equal to that rebuild.
* A chain has a base height, where its oldest block has no stored parent. It is 0 on an ordinary chain
  and the first migrated block on X Layer, where the number index jumps from genesis to that block.
* The feed is a state machine whose steps are the atomic steps of the goroutines: subscribing, the two
  halves of a removal, and each instruction of a send. Runs are arbitrary interleavings. `CaseArray` is
  the same feed on a real array with in-place swaps and deletions; every method of it extends a run of
  the protocol. Several subscriptions of one channel are allowed.
* The EVM is an arbitrary function from state, refund counter and gas to an outcome. `Behaves` is all
  that is assumed of it: while all wei fit 256 bits, it returns at most the gas it got and creates no wei;
  the wei of self-destructed accounts is reported as burnt.
* 64-bit and 256-bit arithmetic is written out (`% U64`, `% U256`). That the wrap-arounds and ignored
  overflow flags never matter is proved, from the assumption that all wei in existence, mints included,
  fit 256 bits.
* A rewind is worked out beforehand: `Descend` computes from the state before the call which header it
  stops at, where the block and snap markers go, and when it is forced down; `Crashes` says when it reads
  a missing parent. The node is proved to do just that.
* A class keeps the source's fields; reads of the clock, the network and foreign code are parameters.

## What the code does that its documentation does not say

* `HeaderChain.InsertHeaderChain` documents an all-or-nothing import (`core/headerchain.go:322-323`). The
  import is not: headers stay written without becoming the chain exactly when their parent is stored, the
  last one is not in the index, and they neither extend the head nor attach to the stored chain
  (`WriteHeadersAndSetHead`). `ImportOrphansChild` imports a child of a stored orphan.
* `reorg` that meets a missing body on the new fork has already written the blocks below it. `Reorg` says
  which, and that the number index is then the line of a block if and only if nothing was written or the
  written blocks reach the old head's height. `ReorgStopsHalfWay` is such a reorganisation.
* `HeaderChain.Reorg` stops deleting numbers at the first gap. `SwitchFollows` says that the index is clear
  above the new head if and only if there is no gap up to the old head; `SwitchBelowGap` leaves a number
  above the new head of an X Layer chain.
* `GetAncestor` trusts the index below the oldest block, and takes a walk that has ended for an agreement
  with a missing index entry, because both read as the empty hash. `AnswerWrong` says exactly when the
  answer is therefore not an ancestor; in `GenesisIsNoAncestor` it is the genesis block on an X Layer chain.
  A single step is not charged to the allowance.
* `rewindHashHead` reads the parent of the oldest block. `RewindHashHead` says exactly when it falls off the
  chain; `UngappedNeverCrashes` rules it out for chains that reach height 0, and `GapCrashes` is a chain
  where it happens.
* `setHeadBeyondRoot` as a repair can wipe headers without moving the snap marker. `Repair` says, of the state
  before the call, that the markers stay sound if and only if the ancient store does not reach above the
  block the search will end at, or the blocks that the markers will name outlast the wipe. `RepairSmallChain`
  is a repair that leaves the snap marker on a deleted block.
* A failed deposit reports the gas it drew except for a system transaction on a chain with the Regolith
  fork that is not an OP chain, because two tests read different fork rules: `Execute` states it as an
  if-and-only-if, `FailedSystemDeposit` shows what it does to the block's gas, and `Process` says that before
  Amsterdam the receipts add up to the block's gas if and only if no such deposit failed.
* The trie garbage collector commits a due root before it releases what the same write makes obsolete, but
  not before an earlier write that was as high: `CommittedFirst` gives the exact condition, `LateCommit` the
  heights 100, 300, 228.
* `txIndexer.report` with a tail above the head wraps around and reports nearly 2^64 blocks as indexed: `TxIndexer.Report`.
* `txIndexer.repair` removes the tail first; a crash before the entries are deleted leaves them, exactly
  when there were any to delete: `TxIndexer.Repair`.

## Model

| member | source | states |
|---|---|---|
| `Forks.FindFork` | core/blockchain.go:2555-2600 | the walk-back finds a fork if and only if the two lines share a stored header; what it gathers is then exactly the headers of each line that are not on the other, highest first |
| `HeadSwitch.HeadWritesEffect` | core/blockchain.go:1299-1313 | after the head batch the header, fast-block and block marker all name the block; its number and its transactions are entered, and nothing else changes |
| `HeadSwitch.CanonRebuilt` | core/blockchain.go:2717-2730 | overlaying the new fork on the old index and dropping the numbers above gives the number index rebuilt from scratch for the new top |
| `HeadSwitch.LookupsRebuilt` | core/blockchain.go:2664-2715 | adding the new fork's lookups and deleting those of the old fork that did not reappear gives the lookups rebuilt from scratch |
| `HeadSwitch.HeadOnParent` | core/blockchain.go:1659-1668 | the block that a reorganisation skips is restored by writing it as head: the rebuild at its parent becomes the rebuild at it |
| `HeadSwitch.HeadOnItself` | core/blockchain.go:2760-2780 | setting a block of the canonical chain as head again leaves the rebuild at that block |
| `BlockChains.CollectTxs` | core/blockchain.go:2663-2683 | yields exactly the transactions of the given blocks, or nothing if and only if a body is missing |
| `BlockChains.PruneBatch` | core/blockchain.go:2710-2733 | the batch deletes the given lookups and every number above the given height, and nothing else, although it stops at the first missing number |
| `BlockChains.ReorgRebuilds` | core/blockchain.go:2684-2738 | the writes of a reorganisation amount to rebuilding both indexes for the parent of the new head, or for the new head if it was canonical already |
| `BlockChains.CacheSurvives` | core/blockchain.go:2734-2735 | entries cached between the reorganisation and the head write still agree with the database afterwards |
| `BlockChains.HalfSwitch` | core/blockchain.go:2685-2704 | after the lowest blocks of a fork were written as heads, the number index is the line of some block if and only if there were none or they reach the old head's height |
| `BlockChains.HalfReorg` | core/blockchain.go:2685-2704 | the same of the blocks that a reorganisation writes before it meets a missing body |
| `BlockChains.HalfSwitchExample` | core/blockchain.go:2685-2690 | on two blocks with bodies and a fork of three whose second body is missing, the search and the old bodies are found and only the first fork block can be written |
| `BlockChains.ReorgStopsHalfWay` | core/blockchain.go:2685-2690 | the reorganisation to that fork fails, leaves that block as head and an index that is the line of no block |
| `BlockChains.BlockChain.Reorg` | core/blockchain.go:2555-2738 | succeeds if and only if the lines meet and the bodies it needs are there; on success the database is the rebuild and the lookup cache is empty; an error of the search or of the old bodies changes nothing; a missing body of the new fork leaves exactly the blocks below the lowest missing one written as heads, and an index that is a line if and only if they are none or reach the old head |
| `BlockChains.BlockChain.GetCanonicalTransaction` | core/blockchain_reader.go:332-354 | with or without a cache hit, the answer is what the database says, and the cache stays valid |
| `BlockChains.BlockChain.WriteHeadBlock` | core/blockchain.go:1299-1325 | performs the head batch and points all three durable markers and the three in memory at the block |
| `BlockChains.BlockChain.WriteKnownBlock` | core/blockchain.go:1659-1668 | succeeds if and only if the block extends the head or a reorganisation to it finds all it needs; then every index and marker is that of the block and the invariant holds, whatever lookups are served in between; otherwise the state is exactly what the failed reorganisation leaves |
| `BlockChains.BlockChain.InsertBlock` | core/blockchain.go:1645-1692 | stores a block whose parent is known and leaves every index and marker alone |
| `BlockChains.BlockChain.WriteBlockAndSetHead` | core/blockchain.go:1786-1800 | refuses if and only if the parent is unknown, and then changes nothing; otherwise the block is stored, and the head switch succeeds under the same condition and leaves the same state as for a known block |
| `BlockChains.BlockChain.SetCanonical` | core/blockchain.go:2760-2780 | without state nothing changes; with it, the switch succeeds if and only if the block extends the head or a reorganisation finds all it needs, and otherwise leaves exactly what the failed reorganisation does |
| `BlockChains.StoreKeepsInv` | core/blockchain.go:1645-1655 | storing a valid block keeps every index, the lookups and the cache right |
| `BlockChains.StepKeepsInv` | core/blockchain.go:2760-2780 | every completed operation keeps the whole invariant, the block at the base and the entries below it |
| `BlockChains.CanonicalInEveryRun` | core/blockchain.go:2555-2738 | in every state of every run the number index holds exactly the ancestors of the head from the base up, nothing above, on one fixed base block, and all three markers, durable and in memory, name the head |
| `BlockChains.LookupsInEveryRun` | core/blockchain_reader.go:332-354 | in every state of every run a transaction is found if and only if it is on the canonical chain, at its block and position there, and the cache says the same |
| `HeaderChains.WriteBack` | core/headerchain.go:148-166 | the back-walk ends without error if and only if the line reaches a height where the index agrees, and overwrites exactly the heights above it |
| `HeaderChains.SwitchEffect` | core/headerchain.go:139-183 | the batch of deletions, back-writes and forward writes drops the numbers above the last header up to the first gap, enters the new line from the lowest overwritten height up, and moves the header marker to the last header |
| `HeaderChains.SwitchFollows` | core/headerchain.go:139-183 | the index follows the new line from the base up, although the back-walk stopped at the first agreement; nothing is left above if and only if no number is missing up to the old head |
| `HeaderChains.GapLeavesStaleNumbers` | core/headerchain.go:141-147 | an X Layer chain and a block on genesis that attaches to it with a gap below the old head |
| `HeaderChains.SwitchBelowGap` | core/headerchain.go:141-147 | making that block the head succeeds and leaves a number above it in the index |
| `HeaderChains.HeaderChain.Reorg` | core/headerchain.go:125-192 | succeeds if and only if the headers extend the head or attach to the stored chain; then the last one is the head and the index is its line; otherwise nothing changes |
| `HeaderChains.HeaderChain.WriteHeaders` | core/headerchain.go:198-243 | stores all given headers if and only if the parent is known, keeps the index, and counts those written |
| `HeaderChains.HeaderChain.WriteHeadersAndSetHead` | core/headerchain.go:253-280 | which of the four outcomes it is, as a function of the state before the call, and what each leaves: unknown ancestor (nothing changes), already canonical and missing parent (headers stored, head as before), and switched. From the base up: if the last header is an ancestor of the head, head and index stay; if not, it becomes the head exactly when the headers extend the head or attach |
| `HeaderChains.OrphansChild` | core/headerchain.go:322-323 | a store with an orphan on which importing a child of it ends with a missing parent |
| `HeaderChains.ImportOrphansChild` | core/headerchain.go:322-323 | that import reports an error and leaves the header stored |
| `Ancestors.NthParentIsAncestor` | core/headerchain.go:353-357 | counting parents and asking for the ancestor at a height are the same walk |
| `Ancestors.IndexAnswers` | core/headerchain.go:370-376 | a jump through the canonical index lands on the same ancestor as the parent walk |
| `Ancestors.WalkEndsAtBase` | core/headerchain.go:370-376 | below the base the parent walk has ended, so an index entry there is not an ancestor |
| `Ancestors.GetAncestor` | core/headerchain.go:358-390 | for every store and input, the answer is: the parent for one step; else the index entry at the height asked for, if the walk agrees with the index at some height within the allowance; else the end of the walk, if that fits the allowance; else empty. In terms of parents: the block itself for none, its parent for one, and the counted parent for a walk off the index that fits the allowance. The headers read and the allowance left add up to the allowance |
| `Ancestors.AnswerRight` | core/headerchain.go:353-357 | a block with a canonical ancestor within the allowance gets the right ancestor at every height from the base up |
| `Ancestors.AnswerWrong` | core/headerchain.go:370-376 | the answer is not the ancestor if and only if the index has an entry at the height asked for and that height is below the base, or the walk had ended where it seemed to agree |
| `Ancestors.GenesisIsNoAncestor` | core/headerchain.go:370-376 | on a chain whose index jumps, genesis is answered as the fifth parent of a block without a parent |
| `Ancestors.HashFn.Get` | core/evm.go:104-140 | for any sequence of queries the answer is the hash of the ancestor at that height or empty, and the cache only grows, holding the parents in order |
| `Rewind.RewindHashHead` | core/blockchain.go:838-911 | falls off the chain in exactly the stated case; otherwise ends at the highest ancestor-or-self from the search limit up, at or below the requested root, that has its state, and at height 0 if and only if there is none. Said of heights: the nearest state at or below the root is found if it is within 90000 blocks of the start, or not below the pivot when there is one, and otherwise the chain is reset to height 0; reports exactly the height where it met the root, or 0 |
| `Rewind.NearestInPath` | core/blockchain.go:914-987 | the path search ends at the nearest state at or below the root that is there or recoverable, if no pivot is above it |
| `Rewind.GivesUpAt` | core/blockchain.go:952-961 | a root that is neither there nor recoverable is given up at the first block whose state is at hand, and recoverable ones above are passed over |
| `Rewind.ReportsTopRoot` | core/blockchain.go:873-885 | the root number is the highest height with the root if the search looks that far, one block below the limit in the hash scheme and to the pivot in the path scheme, and else 0 |
| `Rewind.UngappedNeverCrashes` | core/blockchain.go:838-911 | on a chain that reaches height 0 the search never falls off |
| `Rewind.GapCrashes` | core/blockchain.go:838-911 | a migrated chain on which it does |
| `Rewind.RewindPathHead` | core/blockchain.go:914-987 | ends at the highest ancestor-or-self from the pivot up (or the first block) that is behind the requested root, or given up on it, and whose state is there or was recovered; at height 0 if and only if there is none or the recovery fails; reports exactly the height where it met the root before giving it up, or 0 |
| `Descents.DescentEnds` | core/headerchain.go:543-619 | a rewind ends at the first header of its way that meets the target it ends with, on the line of the header it starts at, or at genesis |
| `Descents.DescentDone` | core/headerchain.go:543-549 | unless it crashes it meets that target, a height or a time |
| `Descents.DescentStops` | core/headerchain.go:543-549 | with a time target it ends at a header of that time or before and everything it passed is later; with a height target it ends at or below it and everything it passed is above |
| `Descents.FreezerFollows` | core/blockchain.go:1073-1087 | after a rewind that moved, a block marker under the ancient limit with no pivot above it has the header on its height, so that no frozen block is left above it |
| `Descents.TargetsFall` | core/headerchain.go:566-571 | it is forced exactly when its target changed; then the new one is a height below the header, below the old one, and under the ancient limit |
| `Descents.CrashNeedsGap` | core/blockchain.go:838-911 | it crashes only in the hash scheme, with the block markers rewound along, and only on a line that ends above height 0 |
| `Descents.MarkersBelow` | core/blockchain.go:1030-1087 | the block and snap markers end at or below the header |
| `Descents.PlainRewind` | core/blockchain.go:1109-1126 | with the states from the target up at hand, a rewind to a height ends at the ancestor there with the block marker on it, in either scheme and whatever is frozen; it is not forced and does not crash |
| `Descents.PlainSnap` | core/blockchain.go:1056-1072 | and the snap marker ends on that header if it was above it and the bodies on the way are there or frozen; otherwise it stays |
| `Descents.TimedRewind` | core/headerchain.go:543-571 | a plain rewind to a time ends at the highest header that is not later, block marker on it, and counts as forced exactly when that header is earlier than the time and under the ancient limit |
| `SetHeads.DeletionsSafe` | core/headerchain.go:620-628 | deleting above the markers leaves them stored after every single write |
| `SetHeads.MovesSafe` | core/headerchain.go:565-578 | moving markers to stored headers is safe after every single write |
| `SetHeads.RewindableChain.UpdateHeads` | core/blockchain.go:1030-1087 | crashes if and only if the search it makes falls off; a block marker at or above the given header moves to exactly where the search from that header ends, a lower one stays; the snap marker goes to the given place; the chain must be wiped if and only if the ancient store reaches above the block marker and not because of a snap sync |
| `SetHeads.RewindableChain.RewindHeaders` | core/headerchain.go:543-619 | terminates; crashes if and only if the descent does; otherwise header, block and snap marker, states, root number, target and force are exactly those of the descent; every durable write leaves the markers on stored headers; batches exactly the heights it passed |
| `SetHeads.RewindableChain.SetHead` | core/headerchain.go:524-654 | crashes if and only if the descent does, and ends exactly where it ends; exactly the heights passed and the occupied run above the old head, up to its end, are gone; afterwards the markers are sound if and only if the blocks they name survive that, and then every prefix of the durable writes left them on stored headers |
| `SetHeads.RewindableChain.Repair` | core/blockchain.go:1109-1114 | crashes if and only if the search falls off; otherwise the block head is the block the search ends at, the header head the first one not above it when a wipe is forced, and the markers stay sound if and only if no wipe is forced or both blocks outlast it, all said of the state before the call |
| `SetHeads.RepairLosesSnap` | core/blockchain.go:1109-1114 | a chain with the snap marker at the head, state missing above a frozen block and no pivot meets the failing case |
| `SetHeads.RepairSmallChain` | core/blockchain.go:1109-1114 | repairing that chain leaves a marker on a deleted block |
| `SetHeads.RewindableChain.SetHeadBeyondRoot` | core/blockchain.go:1016-1144 | crashes if and only if the descent does, and ends exactly where it ends: all three markers, the states, the root number and the force. Unless forced, the header is of the time asked for or before, or at or below the height, and every header passed is later, or above. Crash-safe at every write; block head and snap head at or below header head; exactly the headers and numbers of the passed heights and their unfrozen bodies are gone, so that on an ungapped chain nothing is left above the new head; safe and finalized markers are dropped exactly when above the block head |
| `SetHeads.NothingLeftAbove` | core/headerchain.go:586-650 | on an ungapped chain no header, number or ancient item above the new head is left |
| `SetHeads.WipeLoses` | core/headerchain.go:597-650 | a header up to the old head stays readable if and only if it is not above the new head, or is an unfrozen one at a height that the old head's line skips |
| `Feeds.StepKeepsInv` | event/feed.go:73-180 | every atomic step of anyone keeps: slot 0 and only slot 0 is the remove channel, every live subscription is in exactly one list, every waiting removal will find its case |
| `Feeds.EveryRunIsSafe` | event/feed.go:95-116 | in every reachable state nothing has panicked and no deletion can be asked for an index of -1, including removals racing a send that drains the inbox |
| `Feeds.StepAccounted` | event/feed.go:145-172 | every step of anyone moves a channel from the prefix of undelivered cases to the delivered ones or to the removed ones, or changes none of the three; the remaining work of the send shrinks |
| `Ledgers.Conserves` | event/feed.go:141-172 | along a send, undelivered, delivered and removed channels always add up to those present at its start |
| `Ledgers.RevokedIffRemovedFirst` | event/feed.go:161-167 | a channel subscribed once is struck off undelivered if and only if its removal reached the send before the value reached it |
| `Feeds.SendDelivers` | event/feed.go:118-180 | when a send returns, each channel got the value once per subscription it had at the start, less those removed first; no other channel got it; the result is the number of deliveries |
| `Feeds.ExactlyOnce` | event/feed.go:118-180 | a channel subscribed once gets the value exactly once, or not at all if and only if it was removed first |
| `Feeds.SendConserves` | event/feed.go:141-172 | at every moment of a send, returned or not, the cases still to serve, the deliveries and the channels removed first make up the subscriptions at its start, and its count is that of the deliveries |
| `Feeds.SendEnds` | event/feed.go:145-172 | in every run, however others interleave and whether the send has returned or not, it takes at most quadratically many steps of its own over n cases |
| `Feeds.NeverStuck` | event/feed.go:145-172 | a send in progress always has a step of its own to take, or returns |
| `Feeds.Find` | event/feed.go:203-210 | the first case of the channel, or -1 exactly when there is none |
| `FeedSends.CaseArray.DeleteCase` | event/feed.go:213-215 | the shift in place removes exactly the case at the index |
| `FeedSends.CaseArray.DeactivateCase` | event/feed.go:218-222 | the swap in place is the deactivation of the protocol |
| `FeedSends.CaseArray.AppendInbox` | event/feed.go:130-134 | the cases grow by the inbox, in place or into a larger array |
| `FeedSends.CaseArray.Subscribe` | event/feedof.go:51-64 | a subscription enters the inbox |
| `FeedSends.CaseArray.Unsubscribe` | event/feed.go:95-106 | the case leaves the inbox if it is there, and otherwise the removal waits |
| `FeedSends.CaseArray.RemoveIdle` | event/feed.go:111-114 | with no send in progress the waiting removal finds its case and ends |
| `FeedSends.CaseArray.TryAll` | event/feed.go:146-155 | the pass over the array is a run of the protocol that ends with the select set |
| `FeedSends.CaseArray.RemoveWhileSending` | event/feed.go:161-167 | the interrupt handler deletes the channel's case and shrinks the prefix exactly when the case was in it |
| `FeedSends.CaseArray.Send` | event/feedof.go:90-146 | the loop on the array, with others subscribing and unsubscribing before every step, is one send of the protocol: deliveries and channels removed first make up the subscriptions there were, and the result counts the deliveries |
| `FeedSends.CaseArray.Meanwhile` | event/feed.go:73-116 | any number of subscriptions and first halves of removals during a send extend the run of the protocol |
| `IntrinsicGases.IntrinsicGas` | core/state_transition.go:72-118 | fails if and only if base, data and init-code gas exceed 2^64-1; otherwise the result is the formula over unbounded integers, modulo 2^64 for the unchecked list part |
| `IntrinsicGases.FloorDataGas` | core/state_transition.go:121-133 | below 2^62 bytes: the floor over unbounded integers, or an overflow exactly when it exceeds 2^64-1; beyond that, the same on the token count modulo 2^64 |
| `IntrinsicGases.WordSize` | core/state_transition.go:136-142 | the number of words, rounded up, for every 64-bit size |
| `StateTransitions.GasByFork` | core/state_transition.go:72-118 | 21000, or 53000 for a creation from Homestead on; a byte adds 4, or 16 from Istanbul on and 68 before if it is not zero, and 2 for a word of init code begun from Shanghai on |
| `StateTransitions.FloorByFork` | core/state_transition.go:121-133 | the floor from Prague on is 21000, 10 for each zero byte and 40 for each other |
| `IntrinsicGases.NextEntry` | core/state_transition.go:106-116 | an access-list address adds 2400 and each of its keys 1900; an authorization adds 25000 |
| `Authorizations.NonceRises` | core/state_transition.go:780-805 | a signer's nonce rises by exactly the number of its accepted tuples |
| `Authorizations.NoncesConsecutive` | core/state_transition.go:750-778 | accepted nonces are consecutive from the nonce at the start of the list |
| `Authorizations.NoneTwice` | core/state_transition.go:774-776 | a tuple repeated in the list is accepted at most once |
| `Authorizations.TupleEffect` | core/state_transition.go:750-805 | a tuple for this chain or every chain, signed by an account without ordinary code whose nonce it names, raises that nonce by one and sets the code to the delegation, or clears it for the zero address, with a refund of 12500 for an account that existed; any other tuple does nothing |
| `Authorizations.LastWins` | core/state_transition.go:793-804 | an account's code ends as its last accepted delegation, or cleared if that named the zero address, or as it was |
| `Authorizations.OthersUntouched` | core/state_transition.go:764-773 | accounts with ordinary code, and those that signed nothing, are unchanged |
| `Authorizations.NoWeiMoves` | core/state_transition.go:780-805 | no balance changes |
| `Authorizations.RefundBelowCharge` | core/state_transition.go:787-791 | the refunds are at most what the list was charged as intrinsic gas |
| `Fees.EffectivePrice` | core/state_transition.go:205-210 | from London on, with the fee cap at or above the base fee, the price is the base fee plus the smaller of the tip cap and what the fee cap leaves; otherwise it is the fee cap; deposits pay nothing |
| `Fees.KindsPay` | core/state_transition.go:205-210 | a legacy transaction pays its price, a dynamic one base fee and tip within its cap, a deposit nothing |
| `Fees.OperatorCostIs` | core/types/rollup_cost.go:253-287 | the operator fee by its defining inequality: per million gas rounded down in Isthmus, a hundred times the scalar for each gas from Jovian on, and the constant |
| `Fees.CheckedIsWorstCase` | core/state_transition.go:299-330 | the balance asked for is the charge at the highest prices the message allows plus what it sends |
| `Fees.BurntIs` | core/state_transition.go:693-736 | every blob burns 131072 gas at the blob base fee; an OP chain burns nothing else, others the base fee from London on |
| `Fees.RefundIsLargest` | core/state_transition.go:808-825 | the refund is the largest within the counter and a fifth of the peak from London on, half before; only the floor raises the gas again |
| `Fees.OperatorCostGrows` | core/state_transition.go:838-848 | the operator fee grows with the gas, so the panic of its refund is unreachable |
| `Fees.OperatorCostFits` | core/types/rollup_cost.go:253-287 | the operator fee fits 256 bits, so the panic of its conversion is unreachable |
| `Fees.ChargeCovered` | core/state_transition.go:299-343 | what is charged and then sent is at most the balance that was checked |
| `Fees.PaymentSplits` | core/state_transition.go:693-736 | the sender's net payment is the coinbase tip, the three vaults' shares on Bedrock, and the burnt part: the blob fee and, off Bedrock, the base fee |
| `StateTransitions.StateTransition.CheckRules` | core/state_transition.go:362-459 | accepts if and only if every consensus rule holds; a fault names a broken rule |
| `StateTransitions.RulesComplete` | core/state_transition.go:362-459 | every rule holds if and only if no fault names a broken one |
| `StateTransitions.PreparedIs` | core/state_transition.go:600-612 | before a call the sender's nonce rises by one and nothing else changes but for the authorizations; before a creation nothing does |
| `StateTransitions.Recipients` | core/state_transition.go:693-736 | the coinbase gets the tip, the three vaults the base fee, the L1 fee and the operator fee, the sender the price of the gas left and the operator fee of it, and nobody else anything |
| `StateTransitions.StateTransition.BuyGas` | core/state_transition.go:282-344 | charges exactly when balance and block gas suffice; the charge neither overflows nor underflows, and what is to be sent remains |
| `StateTransitions.StateTransition.PreCheck` | core/state_transition.go:346-461 | admits a deposit exactly when the block has its gas and it is no system transaction after Regolith, any other message exactly when it obeys every rule and can pay; draws the gas limit from the block; a refusal changes nothing |
| `StateTransitions.StateTransition.TakeIntrinsic` | core/state_transition.go:539-564 | succeeds if and only if the gas limit covers the intrinsic gas and the data floor and neither overflows; a fault names what falls short; takes the intrinsic gas and finds the floor |
| `StateTransitions.StateTransition.ApplyAuthorizations` | core/state_transition.go:606-612 | the loop over the list means the tuple-by-tuple definition, state and refund counter |
| `StateTransitions.StateTransition.GrantRefund` | core/state_transition.go:646-664 | gas used is the peak less the refund counter capped at the quotient, raised to the floor; floor, used, peak and limit are in order; nothing wraps |
| `StateTransitions.StateTransition.PayFees` | core/state_transition.go:693-736 | every account gains exactly its share of tip, base fee, L1 fee and operator fee; none of the overflow errors can occur |
| `StateTransitions.StateTransition.Settle` | core/state_transition.go:646-692 | gas used follows the refund and floor formula, the block gets the rest back, every account gains its share, and of the charge only the burnt part is gone |
| `StateTransitions.StateTransition.SettleDeposit` | core/state_transition.go:627-644 | a deposit changes no balance when settled and reports the gas it keeps, all of it or none before Regolith |
| `StateTransitions.StateTransition.InnerExecute` | core/state_transition.go:516-747 | the message runs if and only if it obeys the rules, is paid for, fits the block, covers its intrinsic gas and floor, can send its value and has no oversized init code; then the EVM runs on the charged and prepared state, everyone gets their share, and total wei change by exactly what burns |
| `StateTransitions.StateTransition.Include` | core/state_transition.go:484-512 | a failed deposit undoes all but the mint, raises the nonce by one and reports its gas |
| `StateTransitions.StateTransition.Execute` | core/state_transition.go:473-514 | a deposit is included if and only if the block takes it, and counts as failed if and only if it could not run; any other message is included if and only if it can run; a deposit adds exactly its mint; any other message burns exactly the blob fee and, off Bedrock, the base fee; what the block loses is the gas reported, from Amsterdam on the peak or floor, for a failed deposit its limit, or none as a system transaction; the gas reported is within that, except exactly for a failed system deposit with Regolith off an OP chain |
| `StateTransitions.FailedSystemDeposit` | core/state_transition.go:495-502 | such a deposit draws no gas from the block and is recorded with all of it, which unbalances the pool |
| `GasPools.GasPool.SubGas` | core/gaspool.go:42-48 | takes gas exactly when there is enough |
| `GasPools.GasPool.ReturnGas` | core/gaspool.go:52-69 | gives gas back and adds up the gas used, unless 64 bits overflow, which changes nothing |
| `GasPools.GasPool.Used` | core/gaspool.go:82-87 | the gas missing from the pool |
| `Processing.Process` | core/state_processor.go:98-133 | the block is accepted if and only if every message is includable at the state and block gas that the ones before it led to, and otherwise the first that is not is named; the block's gas is what the messages took from it, at most the limit; receipts show each message's gas and the running sum in 64 bits, which is within the block's gas unless a torn deposit (a system deposit with Regolith off an OP chain) failed and before Amsterdam equal to it if and only if none did; total wei change by the mints and by what burns |
| `Processing.SumsAgree` | core/state_processor.go:98-133 | along any way through a block, the receipts' gas against the gas taken from the block, with the exact condition for equality |
| `Processing.TrailConserves` | core/state_processor.go:98-133 | along any way through a block, wei in existence change by mints and losses message by message |
| `TxIndexers.TxIndexer.IndexTransactions` | core/rawdb/chain_iterator.go:188-264 | indexes downwards; the logged writes lead from the old database to the new one, and after each of them the stored tail says exactly which blocks are indexed, also when interrupted |
| `TxIndexers.TxIndexer.UnindexTransactions` | core/rawdb/chain_iterator.go:288-364 | the same for removing entries upwards |
| `TxIndexers.TxIndexer.Repair` | core/txindexer.go:155-212 | afterwards the stored tail and the entries agree with the head and the cutoff; it is two logged writes or none, and after the first of them tail and entries agree if and only if there was nothing to delete |
| `TxIndexers.TxIndexer.Run` | core/txindexer.go:105-148 | uninterrupted, exactly the window of the head it was started at is indexed, also when the chain moves meanwhile; interrupted or crashed after any write, tail and entries still agree |
| `TxIndexers.TxIndexer.Report` | core/txindexer.go:282-315 | remaining is the part of the window that is not indexed; a tail more than one above the head wraps around, for any 64-bit head and tail |
| `TxIndexers.WindowIs` | core/txindexer.go:112-148 | a block is in the window exactly when it is not below the cutoff and, with a limit, is one of the last that many |
| `TxIndexers.TxIndexer.Loop` | core/txindexer.go:229-279 | for any interleaving of new heads of any number and ends of runs: after a run has ended, exactly the blocks from the window of the head it was started at up to the present head are indexed, and what is reported as remaining is the part of the present window below that |
| `TxIndexers.GrowingIsSteady` | core/txindexer.go:254-260 | a chain that only grows, by however many blocks at a time, meets what the loop asks of the chain |
| `TxIndexers.CatchesUp` | core/txindexer.go:254-263 | a head that comes while no run is in progress is the one the next run works for; heads that come during that run, whatever their numbers, are left to a later one |
| `TrieGcs.TrieGc.Collect` | core/blockchain.go:1772-1780 | releases every root at or below the height and keeps every other, whatever the order of heights |
| `TrieGcs.TrieGc.WriteState` | core/blockchain.go:1733-1782 | after any sequence of writes the queue holds exactly the roots that no write since released, counted by multiplicity; a due commit comes before the releases of its own write; references stay balanced |
| `TrieGcs.ReleasedExactly` | core/blockchain.go:1772-1780 | after any sequence of writes, in whatever order of heights, a root has been released exactly as often as one of its writes was made obsolete |
| `TrieGcs.DueIsHeld` | core/blockchain.go:1749-1780 | the root written for the height that falls out of memory is still queued if and only if no write since was as high as the present one |
| `TrieGcs.CommittedFirst` | core/blockchain.go:1749-1780 | a root written once has not been released when its commit is due if and only if no write since was as high |
| `TrieGcs.LateCommit` | core/blockchain.go:1749-1780 | writes at heights 100, 300 and 228 release a root and then commit it |
| `TrieGcs.LowWriteStays` | core/blockchain.go:1772-1780 | a low block written after a high one stays queued below the retention bound of the high one |
| `TrieGcs.TrieGc.Stop` | core/blockchain.go:1388-1406 | the recent states are committed first, then every reference taken has been released exactly once |
| `TrieGcs.ReleaseBalances` | core/blockchain.go:1779-1779 | releasing a queued root keeps taken equal to released plus queued |

## Left out

- The EVM interpreter, the state database's journal, the trie databases, the freezer's internals, encodings and fork schedules; they appear as parameters with the little that is assumed of them.
- Simulated messages (nonce or transaction checks skipped, base fee disabled), for which the L1 and operator fees are not charged and conservation is not meant to hold.
- Snap-sync inserts and the abort path of header import, which fill caches before the interrupt check.
- Header, number, body and receipt caches; only the transaction lookup cache is modelled, because it must agree with the index across reorganisations.
- Logs, receipts' other fields, events, metrics, tracer hooks, access lists and witnesses.
- `loadLastState` at the end of a rewind and the re-execution in `recoverAncestors`; the latter is the parameter `hasState`.
- Concurrent writers between the two reads of the index in `GetAncestor`; the model reads one database.
- The panics of a feed on values or channels of the wrong type, and closed channels.
- Blocks whose body is missing when they are indexed; the transaction index is modelled by block numbers.
- Removal of empty accounts after each transaction, which moves no wei.
- StateTransitions.StateTransition.Execute: the base fee, blob and fee fields are naturals, a message's effective price is assumed to be a 256-bit number, which building the EVM context already demands.
- IntrinsicGases.IntrinsicGas: list lengths are not bounded, so the result is stated modulo 2^64.
- TxIndexers.TxIndexer.Loop: it is started on a chain above genesis whose head is not below the cutoff; the chain is not cut back below that head or below the window of a run; and a run's writes take effect when it ends, the states in between being those of `Run`.
- FeedSends.CaseArray.Send: the second half of a removal that waits for the lock rather than for the send runs after it, as the lock demands.
