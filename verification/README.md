# Dew in Dafny

A Dafny 4.11 model of the parts of the Dew node where correctness is hardest, with proofs about every input, run or
reachable state. `dafny verify dfyconfig.toml` checks all of it.

Code that changes things in place is a class or a method with loops, proved against a specification function; the
properties are lemmas about those functions.

| part of the node | files |
|---|---|
| execution of messages, parallel and in sequence | `Execution`, `ReadBack`, `SerialEquivalence`, `Durability`, `ParallelExecutor` |
| Dew-BFT consensus and the validator set | `Validators`, `Quorums`, `EngineSpec`, `Protocol`, `DewBft`, `RoundRules`, `HeightChain`, `HeightLocks`, `HeightFork`, `Progress` |
| sparse Merkle state root | `SparseMerkle`, `StateRoot`, `BigEndian` |
| journaled state with snapshots | `Journal`, `JournalReads`, `JournaledState` |
| limit orderbook | `Quotes`, `Orderbook`, `OrderbookEffects`, `OrderbookModule` |
| staking, rewards and slashing | `Staking`, `StakingRuns`, `StakingEffects`, `StakingModule` |
| native transactions | `NativeTx`, `NativeRuns`, `NativeExecutor` |
| mempool, block building | `Mempool`, `TxPool`, `BlockBuild`, `Proposal` |
| log index | `PrefixScan`, `LogIndex` |
| shared types and lemmas | `Accounts`, `Arithmetic`, `MapSums`, `Permutations`, `Options` |

## What holds, and what does not

* **Execution**: every message sees the word stored last and the account its updates made, and only then the caches and
  the disk (`BlockIsReplay`, `LoadSeesLastStore`); whatever reads differently from the disk is marked, so a flush makes the
  disk read like the state (`BlocksAreDurable`).
* **Parallel execution** gives the results, the readable state and the state root of sequential execution when the
  access sets are truthful (`ParallelIsSequential`, `ParallelRootIsSequential`), which every guarded message makes sure
  of (`GuardedEquivalence`): calls and contract creations that look before they store. It does not in general: an
  untracked emptiness test (`HiddenEmptinessDiffers`), an untracked purge (`HiddenPurgeDiffers`) and a dirty slot whose
  account is purged (`OrphanedSlotDiffers`) each make the two differ. The first can happen under the virtual machine;
  the other two are sequences the state accessors allow and the virtual machine does not issue (a store to an account
  with neither code nor nonce, a contract that loses its code without self-destructing).
* **Consensus**: under the fault bound no two honest validators commit different blocks in one height and round, every
  committed block was accepted by an honest validator, and an honest validator never signs evidence against itself.
  Across rounds of a height agreement fails, because leaving a round releases the lock (`consensus/engine.go:478-485`),
  although `docs/consensus/dew-bft.md:72` and `docs/security/threat-model.md:37` promise it: `HeightsCanFork` is a run
  of three honest validators that commit two blocks at height 1. It does hold in every run in which no honest engine
  leaves a round of that height with a lock in hand (`HeightAgreement`). An engine decides every height on its way, each
  once (`HeightsAreDecided`, `CommitsOnce`); the block becomes its parent unless it knew only the hash (`HeightSteps`). The
  protocol never gets stuck for good: a round with an honest proposer can always still bring all honest validators of a
  height to commit (`CanCommit`). Votes that come before an engine has started its round are dropped when it starts
  (`EarlyVotesAreDropped`).
* **The quorum test** multiplies in 64 bits. It is the two-thirds test exactly when three times the total power fits
  (`QuorumIsExact`).
* **State root**: two states have the same root exactly when they agree on every key, counting the value `empty` and an
  absent key as the same (`RootsBind`, `PlaceholderIsInvisible`). States that read the same have the same root, however
  they are divided between caches and disk (`SameViewSameRoot`).
* **Snapshots**: in every run of mutations, snapshots and reverts, reverting gives back every balance, nonce, code,
  slot, transient slot, warm flag, refund and log. It does not give back existence: `ExistsAfterUndo` says exactly which
  addresses exist after a revert, `TouchSurvivesRevert` shows one that did not before. The whole reads like a plain record
  copied at each snapshot (`RunsReadLikeCopies`).
* **Orderbook**: quote escrow always covers the locks, with at most one wei over per filled buy, if and only if no placed
  lock is cut to 256 bits (`BuySolventExactly`, `CutLockIsInsolvent`).
* **Rewards**: claims stay within the escrowed income plus one wei per delegation or undelegation (`RewardsAreBounded`);
  without that wei the bound fails (`ClaimsCanExceedIncome`).
* **Native transactions** leave every account its exact balance if and only if the sender can afford them
  (`AppliedExactly`); the balance check sees to that when the debit does not overflow (`UncutIsAfforded`), and not
  otherwise (`CutDebitBreaksConservation`). No run applies one twice: two nonces of a sender are the same exactly when a
  multiple of 2^64 of its transactions lies between (`NoReplay`).
* **Block building**: each choice pays the most of all that could stand there. A transaction is accepted when it fits
  the gas limit or when the 64-bit sum wraps (`AcceptsExactly`), so a choice can be over the limit
  (`WrappedGasIsChosen`). A transaction fails exactly when its checks do, and then it has written nothing
  (`FailsClean`), so a built block runs to the gas and the state it claims, on every node whose state reads the same
  (`ProposalIsValidElsewhere`).
* **Log scan**: the scan of a block range returns exactly the logs of its receipts, and ends unless the range goes up to
  the last 64-bit block (`ScanEndsExactly`).

## Model

| member | source | states |
|---|---|---|
| SerialEquivalence.RunFramed | core/state/access_track.go:35-53 | two runs of a message on states that agree on every key it consults take the same steps, return the same result and agree afterwards |
| SerialEquivalence.RunChanges | core/state/access_track.go:46-53 | a run changes only keys it marked dirty, and each of them was noted as written or changed behind the access set |
| SerialEquivalence.MergeSeen | core/state/copy.go:42-104 | merging shows the fork's value at each dirty key and the live value everywhere else |
| SerialEquivalence.MergeIsRun | core/vm/parallel.go:135-163 | a fork that meets no earlier write, merged, leaves the state as if the message had run there |
| SerialEquivalence.RerunIsRun | core/vm/parallel.go:135-163 | running a conflicting message again on the live state is the sequential step, and its noted writes cover what changed |
| SerialEquivalence.ValidateIsSequential | core/vm/parallel.go:135-163 | the validation loop, from any state that reads like the sequential one, gives the sequential results and state |
| SerialEquivalence.ParallelIsSequential | core/vm/parallel.go:87-167 | when access sets are truthful, speculation with validation equals sequential execution for every block |
| SerialEquivalence.GuardedEquivalence | core/vm/parallel.go:32-33 | for messages that store only in accounts whose code they loaded or which they gave a nonce, test emptiness only of noted accounts and take no code or nonce away, that needs no condition on the runs |
| SerialEquivalence.HiddenEmptinessDiffers | core/state/evm_api.go:142-149 | an untracked emptiness test makes parallel and sequential results differ |
| SerialEquivalence.HiddenPurgeDiffers | core/state/evm_api.go:316-348 | an account purged without a note makes a later message keep a stale answer |
| SerialEquivalence.OrphanedSlotDiffers | core/state/copy.go:42-104 | merging clears a dirty slot whose account was purged, where the sequential run keeps it |
| ReadBack.RunIsReplay | core/vm/executor.go:119-250 | a run of a message sees, returns and leaves what the history of its accesses says: last store, last update, and the state before |
| ReadBack.BlockIsReplay | core/vm/parallel.go:66-78 | so does a block in sequence |
| ReadBack.RunFollowsSights | core/vm/executor.go:119-250 | a run ends as its message says after what it has seen |
| ReadBack.LoadSeesLastStore | core/state/statedb.go:217-230 | a load sees the word stored last in the message |
| ReadBack.LoadSeesOldWord | core/state/statedb.go:217-230 | before any store it sees the cached word, or else the durable one, or else zero |
| ReadBack.ReadSeesLastUpdate | core/state/statedb.go:73-122 | after an update the account exists with the fields the update made, and is empty exactly if they are |
| ReadBack.ReadSeesOldFields | core/state/statedb.go:85-163 | before any update it has the cached fields, or else the durable ones, or else none |
| Durability.SequentialMarks | core/state/evm_api.go:35-348 | sequential execution marks dirty whatever comes to read differently from the disk |
| Durability.MergeMarks | core/state/copy.go:42-104 | so does a merge |
| Durability.ParallelMarks | core/vm/parallel.go:135-163 | so does parallel execution |
| Durability.FlushDirtyTo | core/state/statedb.go:254-299 | the loops write the dirty accounts and words and delete the zero words |
| Durability.FlushIsDurable | core/state/statedb.go:241-306 | a flush makes the disk read like the state and leaves nothing to write |
| Durability.BlocksAreDurable | core/state/statedb.go:241-306 | after a block, parallel or sequential, a flush makes the disk read like the state |
| ParallelExecutor.StateDB.Copy | core/state/copy.go:10-40 | an independent database with the same caches, nothing dirty and an empty journal |
| ParallelExecutor.StateDB.ApplyOverlay | core/state/copy.go:42-104 | the three merge loops compute the merge |
| ParallelExecutor.ConflictsWith | core/state/access_track.go:55-71 | true exactly when the access set meets an earlier write |
| ParallelExecutor.ApplySequential | core/vm/parallel.go:66-78 | messages in index order up to the first rejected one; results and state are those the history of accesses gives, and what differs from the disk is marked |
| ParallelExecutor.Speculate | core/vm/parallel.go:109-128 | every message runs on its own fork of the parent state, in whatever order |
| ParallelExecutor.ApplyParallel | core/vm/parallel.go:87-167 | truthful access sets: results and readable state are those of the sequential run and of its history; what differs from the disk is marked |
| Validators.SortByAddress | consensus/validator.go:23-53 | sorted by address and a permutation of the input |
| Validators.NewValidatorSet | consensus/validator.go:23-53 | built exactly when non-empty, positive, distinct and below 2^64 in total; otherwise the error says why |
| Validators.SameSetForAnyOrder | consensus/validator.go:23-53 | any order of the same validators gives the same set |
| Validators.QuorumIsExact | consensus/validator.go:84-91 | the 64-bit test is more than two thirds for every vote power exactly when three times the total is below 2^64 |
| Validators.ProposerIndex | consensus/validator.go:93-113 | the first validator whose cumulative power exceeds the slot; one always does |
| Validators.OneOwner | consensus/validator.go:93-113 | each slot has one owner |
| Validators.ExactlyProportional | consensus/validator.go:93-113 | over any totalPower consecutive heights each validator proposes exactly its power times |
| Quorums.Overlap | consensus/validator.go:84-91 | two sets above two thirds share more than a third |
| Quorums.PowersOfSet | consensus/validator.go:23-53 | the powers the engine counts with sum to the set's total power |
| EngineSpec.OneMajority | consensus/state.go:98-107 | at most one hash has a quorum, so map order does not matter |
| EngineSpec.CommitsExactly | consensus/engine.go:463-519 | an engine in precommit commits exactly when the proposed block has more than two thirds of the precommit power |
| EngineSpec.PrecommitsExactly | consensus/engine.go:419-461 | an engine in prevote precommits a hash exactly when it has more than two thirds of the prevote power |
| EngineSpec.PrevoteChoice | consensus/engine.go:336-362 | a captured lock decides the prevote, otherwise the accepted block, otherwise nil |
| EngineSpec.PrecommitsMove | consensus/engine.go:478-519 | a majority takes the engine to the next round or, by a commit of its height, to the next height, in a fresh state |
| DewBft.VoteSet.Add | consensus/state.go:76-92 | one vote per validator, for the right slot; the tallies are the power behind each hash |
| DewBft.VoteSet.MajorityHash | consensus/state.go:98-107 | finds the hash with a quorum if and only if there is one |
| DewBft.ValidatorEngine.constructor | consensus/engine.go:91-130 | a new engine waits at the next height, round 0, without votes or lock |
| DewBft.ValidatorEngine.StartRound | consensus/engine.go:217-282 | the first half of a round start, up to the release of the mutex |
| DewBft.ValidatorEngine.BlockBuilt | consensus/engine.go:217-282 | the second half, from the built block, in whatever state the engine is by then |
| DewBft.ValidatorEngine.HandleProposal | consensus/engine.go:284-319 | which proposals are taken and the move to prevote |
| DewBft.ValidatorEngine.FinishPrevote | consensus/engine.go:321-371 | the prevote after validation, counted only if the engine has not moved |
| DewBft.ValidatorEngine.HandleVote | consensus/engine.go:383-417 | counting a vote and what follows it |
| DewBft.ValidatorEngine.TryPrevotes | consensus/engine.go:429-461 | a prevote majority leads to one precommit, and locks when it is for a block |
| DewBft.ValidatorEngine.TryPrecommits | consensus/engine.go:463-519 | a precommit majority commits the proposed block and waits at the next height with that parent, or opens the next round |
| DewBft.ValidatorEngine.ForceTimeoutRound | consensus/engine.go:521-526 | a timeout opens the next round and releases the lock |
| DewBft.ValidatorEngine.ApplySyncedBlock | consensus/engine.go:528-571 | a synced block moves the engine on exactly when it extends its parent |
| Protocol.NextKeepsInv | consensus/engine.go:217-571 | every step of every engine keeps: genuine vote sets, one vote per slot, a reason for each non-nil vote, a quorum behind each commit |
| Protocol.RunKeepsInv | consensus/engine.go:217-571 | so does every run, whatever the network and the faulty validators send |
| Protocol.RoundAgreement | consensus/doc.go:11-12 | no two honest engines commit different blocks for one height and round |
| Protocol.CommittedWasAccepted | consensus/engine.go:321-371 | a committed block was accepted by the proposal validator of an honest engine in that round |
| Protocol.NoSelfIncrimination | consensus/evidence.go:94-131 | no run makes an honest engine sign two votes that are evidence of double signing |
| Protocol.AgreementWithoutSwitch | consensus/engine.go:463-519 | one block per height where no honest validator has precommitted two blocks at that height |
| Protocol.PositionsAdvance | consensus/engine.go:217-571 | height, round and step never go back |
| RoundRules.NextKeepsRules | consensus/engine.go:217-319 | every step keeps: proposals are of their round and from its proposer, one for each honest proposer and round, and no nil majority is left standing |
| RoundRules.RunKeepsRules | consensus/engine.go:217-571 | so does every run |
| RoundRules.ProposalsAgree | consensus/engine.go:284-319 | honest engines hold the same proposal of an honest proposer for a round |
| RoundRules.NilMajorityIsLeft | consensus/engine.go:472-475 | no engine stays in precommit with a nil majority or without counting its own precommit |
| RoundRules.RoundStays | consensus/engine.go:300-308 | an engine keeps the proposal it has taken and the votes it has counted until its round is over |
| RoundRules.EarlyVotesAreDropped | consensus/engine.go:222-228 | votes counted before the engine starts its round are dropped when it starts |
| HeightChain.HeightSteps | consensus/engine.go:487-571 | a height rises by one, exactly when the engine commits a block of it or takes a synced one; the block becomes the parent unless only its hash was known; rounds rise by one |
| HeightChain.CommitsOnce | consensus/engine.go:487-519 | in every run an honest engine commits a height at most once |
| HeightChain.HeightsAreDecided | consensus/engine.go:487-571 | in every run an engine has committed or synced every height from its first one up to where it is |
| HeightChain.ParentIsLast | consensus/engine.go:487-571 | its parent is the one left by the step that decided the height before |
| Progress.CanCommit | consensus/engine.go:217-526 | from every reachable state with the honest validators at one height and above two thirds, a round with an honest proposer can bring them all to commit |
| HeightLocks.LockStays | consensus/engine.go:478-526 | an engine locked on a block stays in its round locked on it, or passes the height, in every step but one that leaves the round with the lock in hand |
| HeightLocks.PrecommitLocks | consensus/engine.go:429-461 | a step that precommits a block starts in prevote and ends locked on that block or past the height |
| HeightLocks.RunKeepsLocked | consensus/engine.go:217-571 | in every run without such a step, each block an honest validator precommitted at the height is the one it is locked on until it passes the height, and there is one |
| HeightLocks.HeightAgreement | consensus/engine.go:478-485 | one block per height in every run in which no honest engine leaves a round of that height with a lock in hand |
| HeightFork.HeightsCanFork | consensus/engine.go:478-526 | a run of three honest validators that commits two blocks at one height, after engines drop their locks |
| SparseMerkle.SamePrefix | core/state/smt.go:142-150 | true exactly when the paths agree on the first bits |
| SparseMerkle.EmptyHashes | core/state/smt.go:23-29 | the table holds the hash of the empty subtree of each height |
| SparseMerkle.ClimbOnce | core/state/smt.go:75-140 | one level up, every node holds the hash of its subtree |
| SparseMerkle.SmtRootFromMap | core/state/smt.go:75-140 | the level-by-level computation gives the root of the plain tree for every map; the swap and the fallback never happen |
| SparseMerkle.ComputeSMTRoot | core/state/smt.go:52-73 | the root of a list of leaves, later entries of a key overriding earlier ones |
| SparseMerkle.RootsBind | core/state/smt.go:52-73 | roots are equal if and only if the states agree on every key, `empty` counting as absent |
| SparseMerkle.RootsBindStates | core/state/smt.go:52-73 | without that value, equal roots mean equal states |
| SparseMerkle.PlaceholderIsInvisible | core/state/smt.go:36-42 | a leaf with the value `empty` has the root of the empty state |
| SparseMerkle.ClimbGivesTree | core/state/smt.go:75-140 | from any leaf, combining with the subtrees beside its path, on the left where the path turns right, gives the root |
| SparseMerkle.OnlyLeafClimbs | core/state/smt.go:75-140 | without collisions no other hash can be combined to the root along a path |
| SparseMerkle.BitOfBytes | core/state/smt.go:47-50 | the bit read from a byte is the bit of the path number |
| SparseMerkle.PathOrder | core/state/smt.go:152-173 | comparing path bytes is comparing path numbers |
| StateRoot.CollectLeaves | core/state/statedb.go:337-402 | the loops overlay the durable state with the cached accounts, code and words, a zero word taking its leaf away |
| StateRoot.AccountLeaf | core/state/statedb.go:357-382 | an account has a leaf exactly when it exists, with what it reads as |
| StateRoot.WordLeaf | core/state/statedb.go:383-390 | a slot has a leaf exactly when it reads as nonzero |
| StateRoot.CodeLeaf | core/state/statedb.go:369-381 | code leaves are those on disk and those of the accounts that exist |
| StateRoot.SameViewSameLeaves | core/state/statedb.go:337-402 | states that read the same have the same leaves |
| StateRoot.SameViewSameRoot | core/state/statedb.go:314-330 | and the same root |
| StateRoot.ParallelRootIsSequential | core/vm/parallel.go:156-158 | truthful access sets: parallel and sequential execution end in the same root |
| StateRoot.BlocksRunAlike | node/import.go:78-94 | nodes whose states read the same run every block to the same results, gas and readable state |
| StateRoot.ProposalIsValidElsewhere | node/build.go:99-134 | a block that runs to its gas and root on the proposer does so on every such node |
| Journal.MutationUndone | core/state/journal.go:71-197 | the entries of any mutation, undone, give back every read |
| Journal.ResetUndoneExactly | core/state/evm_api.go:10-22 | resetting an account is undone if and only if the account held no unsaved change |
| Journal.RevertCongruent | core/state/journal.go:71-197 | what is read after undoing an entry depends only on what was read before |
| Journal.ChangeKeeps | core/state/evm_api.go:35-291 | a mutation keeps every valid snapshot restorable |
| Journal.RevertRestores | core/state/evm_api.go:225-239 | a revert gives back every read of the saved world and keeps earlier snapshots restorable |
| Journal.RunsStayRestorable | core/state/evm_api.go:217-239 | so does every run of mutations, nested snapshots and reverts |
| Journal.SnapshotsRestore | core/state/evm_api.go:225-239 | reverting to any valid snapshot gives back every read of the moment it was taken and leaves earlier snapshots valid |
| Journal.ExistsAfterUndo | core/state/statedb.go:73-94 | which addresses exist after a revert, decided by the first entry for each |
| Journal.TouchSurvivesRevert | core/state/journal.go:78-82 | a balance change at an absent address, undone, leaves the address existing |
| Journal.ExistsAfterMutation | core/state/evm_api.go:35-121 | an address exists after a mutation exactly if it did, or the mutation writes it or gives one of its slots a new word |
| JournalReads.MutationShown | core/state/evm_api.go:10-291 | what is read after each mutation, from what was read before: the changed field, and everything else as it was |
| JournalReads.RunsReadLikeCopies | core/state/evm_api.go:217-239 | every run of mutations, snapshots and reverts reads like a plain record that is copied at each snapshot and put back at each revert |
| JournaledState.StateDB.AddBalance | core/state/evm_api.go:48-59 | the balance rises by the amount modulo 2^256, nothing else reads differently; its undo entry |
| JournaledState.StateDB.SubBalance | core/state/evm_api.go:35-46 | the balance falls by the amount modulo 2^256, nothing else reads differently; its undo entry |
| JournaledState.StateDB.SetBalance | core/state/evm_api.go:61-73 | the balance is the set one, nothing else reads differently; its undo entry |
| JournaledState.StateDB.SetNonce | core/state/evm_api.go:75-82 | the nonce is the set one, nothing else reads differently; its undo entry |
| JournaledState.StateDB.SetCode | core/state/evm_api.go:84-102 | the code is read back, its hash is set, no other code reads differently; the undo entry with the previous code |
| JournaledState.StateDB.SetState | core/state/evm_api.go:104-121 | the word is read back, no other slot reads differently; its undo entry, nothing when the value is unchanged; returns the previous value |
| JournaledState.StateDB.CreateAccount | core/state/evm_api.go:10-22 | a new account that keeps the balance and has no code, nothing else reads differently; its undo entry |
| JournaledState.StateDB.AddRefund | core/state/evm_api.go:201-205 | the counter rises by the gas in 64 bits, nothing else reads differently; its undo entry |
| JournaledState.StateDB.SubRefund | core/state/evm_api.go:207-213 | the counter falls by the gas, nothing else reads differently; its undo entry |
| JournaledState.StateDB.AddLog | core/state/evm_api.go:241-245 | the log is appended, nothing else reads differently; its undo entry |
| JournaledState.StateDB.SetTransientState | core/state/evm_api.go:257-266 | the transient word is read back, no other slot reads differently; its undo entry |
| JournaledState.StateDB.AddAddressToAccessList | core/state/evm_api.go:277-281 | the address is warm, nothing else reads differently; an undo entry if it was cold |
| JournaledState.StateDB.WarmSlot | core/state/access_list.go:45-60 | the slot index after warming a slot, and which of address and slot were cold |
| JournaledState.StateDB.AddSlotToAccessList | core/state/evm_api.go:283-291 | the slot and its address are warm, nothing else reads differently; one undo entry for each of them that was cold |
| JournaledState.StateDB.CoolSlot | core/state/access_list.go:66-75 | the slot is removed, and an address without slots loses its slot set |
| JournaledState.StateDB.Snapshot | core/state/evm_api.go:217-223 | a new revision at the current journal length, restorable like the earlier ones |
| JournaledState.StateDB.RevertEntry | core/state/journal.go:71-197 | undoes one entry by its kind |
| JournaledState.StateDB.RevertJournal | core/state/journal.go:62-67 | undoes the entries after a length, last first, and drops them |
| JournaledState.StateDB.RevertToSnapshot | core/state/evm_api.go:225-239 | found exactly when the revision is valid; then every read is what it was at the snapshot, later revisions are gone and earlier ones stay restorable |
| Quotes.QuoteFloor | core/native/orderbook.go:101-114 | the greatest quote not above base times price, when it fits |
| Quotes.QuoteLockCeil | core/native/orderbook.go:116-131 | the least quote that covers base times price, when it fits |
| Quotes.CeilSplit | core/native/orderbook.go:442-520 | paying the floor for a part and keeping the ceiling of the rest stays within the ceiling of the whole, by at most one |
| Orderbook.BuySolventExactly | core/native/orderbook.go:333-364 | a buy keeps the escrow above the locks if and only if the maker's escrow and the exact lock fit 256 bits |
| Orderbook.CutLockIsInsolvent | core/native/orderbook.go:333-364 | a lock that does not fit is accepted cut, and the maker's escrow does not cover it |
| Orderbook.SellExactExactly | core/native/orderbook.go:366-392 | a sell keeps base escrow equal to the open sells if and only if the sum fits 256 bits |
| Orderbook.FillBuySound | core/native/orderbook.go:442-520 | a fill of an open buy goes through, pays the exact floor and keeps the book sound |
| Orderbook.FillSellSound | core/native/orderbook.go:442-520 | a fill of an open sell goes through and keeps the book sound |
| Orderbook.CancelBuySound | core/native/orderbook.go:394-440 | a cancelled buy gets back the exact lock on what is left; the cap at the escrow never applies |
| Orderbook.CancelSellSound | core/native/orderbook.go:394-440 | a cancelled sell gets back the base that is left |
| Orderbook.NeverUnderflows | core/native/orderbook.go:292-318 | fills and cancels are refused only for their arguments, never for lack of escrow |
| Orderbook.SwapRemoveDrops | core/native/orderbook.go:257-273 | swap-remove drops one id, keeps the others and adds no duplicate |
| Orderbook.NextKeeps | core/native/orderbook.go:333-520 | every call keeps escrow, counts, index and the accounts of every order |
| Orderbook.RunsAreSound | core/native/orderbook.go:333-520 | at every point of every run: escrow covers the locks with at most one wei over per filled buy, base escrow equals open sells, counts are right and at most 64, the index lists the open orders once |
| OrderbookEffects.BuyEffect | core/native/orderbook.go:333-364 | a buy is placed exactly for a nonzero maker, token, price and base, below the limit of open orders and with a nonzero lock; the order has the next id and what the maker asked for, the lock is the ceiling of its price |
| OrderbookEffects.SellEffect | core/native/orderbook.go:366-392 | the same for a sell, with its base in escrow |
| OrderbookEffects.FillEffect | core/native/orderbook.go:442-520 | a fill takes the lesser of what the taker wants and what is open, at the floor of its price; the order and one escrow slot fall by it, nothing else changes |
| OrderbookEffects.CancelEffect | core/native/orderbook.go:394-440 | a cancel by the maker closes the order and takes its refund out of one escrow slot |
| OrderbookEffects.EscrowsBalance | core/native/orderbook.go:333-520 | in every run the escrow of a maker is what its orders put in less what fills and cancels took out |
| OrderbookModule.Module.RemoveOpenIndex | core/native/orderbook.go:257-273 | the loop is swap-remove, and does nothing for an absent id |
| OrderbookModule.Module.ValidatePlace | core/native/orderbook.go:320-331 | the checks in their order, and the count |
| OrderbookModule.Module.PlaceBuy | core/native/orderbook.go:333-364 | the order as asked for under the next id and its lock in escrow, sound when the lock fits, or an error and no change |
| OrderbookModule.Module.PlaceSell | core/native/orderbook.go:366-392 | the order as asked for under the next id and its base in escrow, sound when the amount fits, or an error and no change |
| OrderbookModule.Module.Cancel | core/native/orderbook.go:394-440 | the new storage and the refund, or an error and no change; in a sound book it stays sound and base escrow never underflows |
| OrderbookModule.Module.Fill | core/native/orderbook.go:442-520 | the lesser of what the taker wants and what is open, its floor price, the order and the escrow less by that, or an error and no change; in a sound book it stays sound and no escrow underflows |
| OrderbookModule.Module.BestBid | core/native/orderbook.go:522-564 | the highest price of all open buys at the lowest id that offers it |
| OrderbookModule.Module.BestAsk | core/native/orderbook.go:522-564 | the lowest price of all open sells at the lowest id that offers it |
| Staking.SettleKeeps | core/native/staking.go:513-524 | settling makes everything claimable pending and changes nothing else a delegator has coming |
| Staking.ResizeAddsLittle | core/native/staking.go:504-511 | a change of shares adds less than one wei to what a delegator has coming |
| Staking.UndelegateRounding | core/native/staking.go:202-219 | converting wei to shares and back is off by at most one wei, and exact at the initial rate |
| Staking.EffectiveWithinTotal | core/native/staking.go:202-229 | delegators' effective stakes sum to at most the delegated total |
| StakingRuns.ClaimStep | core/native/staking.go:532-541 | a claim pays exactly what is claimable, and fails exactly when that is zero |
| StakingRuns.DelegateStep | core/native/staking.go:398-419 | a delegation keeps the pool in order and adds less than one wei of rewards |
| StakingRuns.UndelegateStep | core/native/staking.go:421-458 | an undelegation keeps the pool in order; the total never underflows |
| StakingRuns.UndelegateValue | core/native/staking.go:421-458 | the wei queued and the wei left exceed the wei before by at most one, before a slash by none |
| StakingRuns.IncomeSplit | core/native/staking.go:558-603 | the proposer's part rounded down, the delegators' part rounded up; the cap never applies |
| StakingRuns.StakesExact | core/native/staking.go:577-583 | the part that does not earn for the proposer is the delegated stake less commission |
| StakingRuns.IncomeStep | core/native/staking.go:543-603 | income is split without loss and grants no more than what is escrowed |
| StakingRuns.SlashStep | core/native/staking.go:346-396 | the slash burns all self stake, and delegator burn and remaining delegation stay within the delegation before; the minimum rate is never used |
| StakingRuns.RewardsAreBounded | core/native/staking.go:398-603 | in every run: claimed and claimable within escrowed income plus one wei per resize, total shares equal the sum of shares, at most one slash |
| StakingRuns.SlashesAreFair | core/native/staking.go:346-396 | in every run: a slash of a validator not yet jailed takes no more than it should, a second one takes nothing, effective stakes sum to at most the total |
| StakingRuns.ClaimsCanExceedIncome | core/native/staking.go:504-556 | four wei claimable out of three escrowed |
| StakingRuns.RaiseStep | core/native/staking.go:543-556 | raising the index by a part grants the delegators that part, rounded down by less than one index unit, and keeps the pool in order |
| StakingEffects.DelegateEffect | core/native/staking.go:398-419 | a delegation adds the shares its wei buys, rounded down, keeps all rewards pending and touches no one else; otherwise the reason it is refused for |
| StakingEffects.UndelegateEffect | core/native/staking.go:421-458 | an undelegation takes the shares of its wei, rounded down, keeps all rewards pending and touches no one else; otherwise the reason |
| StakingEffects.ClaimEffect | core/native/staking.go:532-541 | a claim pays all that is claimable and leaves the shares |
| StakingEffects.IncomeEffect | core/native/staking.go:543-603 | the proposer keeps its stake's part and the commission, rounded down; the rest goes to the index per share |
| StakingEffects.SlashEffect | core/native/staking.go:346-396 | a slash burns all self stake and a twentieth of the delegation, within the balance, and jails; a second one does nothing |
| StakingEffects.CommissionEffect | core/native/staking.go:474-482 | a commission of at most all is set, and nothing else |
| StakingModule.Module.SettleRewards | core/native/staking.go:513-524 | in a pool in order, all that was claimable is pending and nothing else anyone has coming changes; the pool stays in order |
| StakingModule.Module.ClaimRewards | core/native/staking.go:532-541 | the slots after a claim; in a pool in order, the wei paid is what was claimable |
| StakingModule.Module.Delegate | core/native/staking.go:398-419 | the slots after a delegation, with the shares its wei buys and all rewards pending, or the error and the settled slots; the pool stays in order |
| StakingModule.Module.Undelegate | core/native/staking.go:421-458 | the slots after an undelegation, or the error and the settled slots; the pool stays in order and its total never underflows |
| StakingModule.Module.IncreaseRewardIndex | core/native/staking.go:543-556 | the rise times all shares is the part, rounded down by less than one unit per share; nobody is granted more than the part, and the pool stays in order |
| StakingModule.Module.DistributeProposerIncome | core/native/staking.go:558-603 | the index, the proposer's part and the escrowed part, in exact numbers, which add up to the income |
| StakingModule.Module.SlashAndJail | core/native/staking.go:346-396 | self stake gone, the rate, the jail flag and the wei burnt, in exact numbers; nothing the second time |
| NativeTx.BalancesModulo | core/native/executor.go:124-145 | every balance after a transaction is the exact one modulo 2^256, for every aliasing of the addresses |
| NativeTx.LedgerKeepsSupply | core/native/executor.go:124-145 | the exact ledger keeps the supply |
| NativeTx.AppliedExactly | core/native/executor.go:124-145 | every account has its exact balance if and only if the sender can afford the transaction |
| NativeTx.UncutIsAfforded | core/native/executor.go:124-132 | when the debit does not overflow, the balance check is enough |
| NativeTx.SupplyIsKept | core/native/executor.go:124-145 | a transaction whose amounts do not overflow keeps the sum of all balances |
| NativeTx.OnlyListedChange | core/native/executor.go:74-89 | no balance outside the access list, the fee sink and the module changes; only the sender's nonce does, by one |
| NativeTx.CutDebitBreaksConservation | core/native/executor.go:124-132 | a debit cut to 256 bits is accepted and does not keep the supply |
| NativeTx.FeeArrives | core/native/staking.go:558-603 | a fee reaches the sink and the module in full, for every aliasing of the two |
| NativeRuns.AppliedIff | core/native/executor.go:56-132 | a transaction is applied exactly when version, fee, nonce, payload, access list and balance are right |
| NativeRuns.RefusedBecause | core/native/executor.go:56-132 | otherwise the error names the first thing that is wrong |
| NativeRuns.NoncesCount | core/native/executor.go:91-146 | in every run an account's nonce counts its applied transactions, in 64 bits |
| NativeRuns.NoReplay | core/native/executor.go:91-93 | in every run the nonces of a sender count up by one for each applied transaction, and two are the same exactly when a multiple of 2^64 of them lies between |
| NativeRuns.RunsKeepSupply | core/native/executor.go:124-145 | runs of transactions that do not overflow keep the sum of all balances |
| NativeRuns.CreditIsReadBack | core/native/executor.go:96-112 | a credit is read back from its payload |
| NativeRuns.FeeIsShared | core/native/staking.go:558-603 | the fee goes to the sink, or is shared with its delegators in exact numbers |
| NativeExecutor.Executor.DistributeFee | core/native/staking.go:558-603 | the parts of the sink and the module add up to the fee; when nothing overflows each account gains exactly its part, no other changes, and the supply grows by the fee |
| NativeExecutor.Executor.ApplyDewTx | core/native/executor.go:56-153 | applied exactly when version, fee, nonce, payload, access list and balance are right; then debit, credits, fee and nonce, or no change; the supply is kept when the debit does not overflow |
| Mempool.OneIndex | mempool/pool.go:100-103 | the sender index is determined by the entries |
| Mempool.OnePerNonce | mempool/pool.go:317-341 | one entry per sender and nonce |
| Mempool.TakeFrees | mempool/pool.go:175-187 | removing an entry frees its place, its sender's count and its nonce |
| Mempool.RoomAfter | mempool/pool.go:317-361 | after a replacement or an eviction there is room, so an add never fails once it has removed something |
| Mempool.AddKeeps | mempool/pool.go:308-372 | an accepted add keeps the indexes inverse and within the global and per-sender limits |
| Mempool.RemoveKeeps | mempool/pool.go:167-187 | so does a removal |
| Mempool.ReplacementPays | mempool/pool.go:317-335 | an entry is replaced exactly when the newcomer pays the old price and the percentage on it, rounded down |
| Mempool.AcceptedIff | mempool/pool.go:308-361 | an add is accepted exactly when its hash is new and it pays for its rival's place, or its sender and the pool have one, or a cheaper entry can go |
| Mempool.EvictionRaisesFloor | mempool/pool.go:374-392 | no entry left or added pays less than the evicted one, and the newcomer pays more |
| Mempool.RunsKeepIndexes | mempool/pool.go:175-392 | so does every run, and the number of entries is admissions less replacements, evictions and removals |
| TxPool.Pool.Pending | mempool/pool.go:394-404 | every entry once, and no two with the same hash or the same sender and nonce |
| TxPool.Pool.RemoveLocked | mempool/pool.go:175-187 | both indexes without the entry |
| TxPool.Pool.Remove | mempool/pool.go:167-173 | the pool without the hash, still accounted for |
| TxPool.Pool.EvictCheaperThan | mempool/pool.go:374-392 | evicts a cheapest entry strictly below the price, if and only if there is one |
| TxPool.Pool.Add | mempool/pool.go:308-372 | refused exactly for the stated reasons and then unchanged; otherwise one in and at most one out; entries, replacements, evictions and removals add up to admissions |
| BlockBuild.GroupPendingBySender | node/build.go:283-304 | each sender's candidates in nonce order |
| BlockBuild.FindReady | node/build.go:306-327 | the entry with the wanted nonce, if the list has one |
| BlockBuild.PickBestReady | node/build.go:306-336 | a ready entry of the highest price, if any is ready |
| BlockBuild.FilterEntry | node/build.go:355-363 | the list without one hash |
| BlockBuild.AcceptsExactly | node/build.go:235-239 | the gas check accepts what fits the limit and what wraps 64 bits, and nothing else |
| BlockBuild.WrappedGasIsChosen | node/build.go:235-246 | two pending transactions of which every selection of two is both, with gas above the limit |
| BlockBuild.PickIsHighest | node/build.go:306-336 | a pick keeps: each choice paid the most of all good transactions whose turn it was, but for those the gas check had turned down |
| BlockBuild.SkippedIsTooBig | node/build.go:235-239 | what the gas check turned down does not fit, then or later |
| BlockBuild.ChainsAreDistinct | node/build.go:203-250 | no transaction is chosen twice |
| BlockBuild.PickStep | node/build.go:223-248 | a pick keeps what the loop keeps |
| BlockBuild.DropStep | node/build.go:235-239 | so does dropping a sender whose next transaction does not fit |
| BlockBuild.FilterStep | node/build.go:230-244 | so does dropping an entry that cannot be decoded |
| BlockBuild.SelectPendingTxs | node/build.go:203-250 | at most maxTxs good transactions in gapless nonce chains from the account nonces, each the highest bid of all whose turn it was and that the gas check had not turned down, within the gas limit, and with room left every sender's next transaction was turned down; the loop ends |
| Proposal.FailsClean | node/import.go:95-147 | a transaction fails exactly when its signature, chain, nonce, price, gas cost or balance check does, for that reason, and then leaves the state as it was |
| Proposal.PassesIff | node/import.go:95-147 | what a transaction has to be to pass its checks, said from itself and its sender's account |
| Proposal.PriceIsEffective | node/node.go:846-867 | the price paid lies between base fee and cap, at base fee and tip unless the cap is lower |
| Proposal.GasIsBought | core/vm/executor.go:132-149 | a transaction that passes runs from the state in which the gas cost has left its sender and nothing else has changed |
| Proposal.RunNext | node/import.go:78-94 | a transaction can follow a block exactly when its sender's account, as the block leaves it, passes the checks |
| Proposal.BlockGas | node/import.go:78-94 | a block that ran has a result for each transaction, none a failure, and the sum of their gas in 64 bits |
| Proposal.SimulateAndFilter | node/build.go:155-201 | what is kept runs as a block of its own to the same state and gas; exactly the others fail where they stood, and their hashes are returned |
| Proposal.SimulateBlock | node/import.go:78-94 | all or nothing execution in order, up to the first failure |
| Proposal.CleanKeepsAll | node/build.go:136-201 | filtering a list that runs as a block keeps all of it |
| Proposal.BuildBlock | node/build.go:25-97 | the block built runs to the gas and state it claims; it is what simulation keeps of a selection without all that failed before, and is empty only when a selection was or after sixteen attempts |
| Proposal.KeptAreChosen | node/build.go:59-79 | what is kept comes from pending entries not excluded, at most as many as asked for |
| Proposal.ValidateBlock | node/build.go:107-134 | accepts exactly the blocks that run to the claimed gas |
| PrefixScan.PrefixUpperBound | db/pebble.go:151-167 | the bounds select exactly the keys with the prefix, the empty prefix and all-0xff included |
| PrefixScan.IteratePrefix | db/pebble.go:94-118 | the keys with the prefix, each once, in byte order |
| LogIndex.ParseKey | node/store.go:83-108 | a position is recovered from its key |
| LogIndex.KeyOfParsed | node/store.go:100-108 | only its own key parses to a position |
| LogIndex.KeysInOrder | node/store.go:82-90 | byte order of keys is chain order of positions |
| LogIndex.BlockPrefixSelects | node/store.go:92-98 | a block's prefix selects the keys of that block |
| LogIndex.RebuildLogIndex | node/logindex.go:24-88 | the store then holds the log of every receipt under its key, and is otherwise unchanged |
| LogIndex.BuiltOnEmpty | node/logindex.go:24-88 | built on a store without log keys, it is the index of the receipts |
| LogIndex.FilterLogs | node/logindex.go:90-122 | exactly the logs of the receipts in the block range, in chain order, each once |
| LogIndex.ScanEndsExactly | node/logindex.go:100-101 | the block loop ends if and only if the range stops before the last 64-bit block |

## Left out

- ParallelIsSequential: the condition on the access sets is sufficient, not necessary, because a change nobody reads goes unnoticed.
- HeightAgreement: the condition is sufficient, not necessary, because a validator that drops a lock may still precommit the same block again, or never see a second one committed.
- CanCommit: says that progress stays possible, not that it happens; when messages arrive and timeouts fire is left to the run.
- FlushIsDurable: code and the atomicity of the batch are not part of it.
- IncomeEffect: for incomes whose 256-bit products fit.
- GuardedEquivalence: a creation that reverts after storing takes its nonce back and is not a guarded message.
- FilterLogs: takes a range that ends before the last 64-bit block, because the original does not return for one that ends there.
- SelectPendingTxs: gas within the limit is stated for blocks where limit plus gas of each candidate is below 2^64; nonces are unbounded numbers; decoding is two flags of an entry; what it requires of the pending list is what TxPool.Pool.Pending promises.
- RunsAreSound: for runs whose placed amounts fit 256 bits, the exact condition being that of BuySolventExactly and SellExactExactly; order ids are unbounded.
- RewardsAreBounded: for runs whose 256-bit products and sums fit.
- SnapshotsRestore: for mutations as the virtual machine issues them, where an account is only reset when it holds no unsaved change (ResetUndoneExactly shows that this is exact); SelfDestruct, Prepare, Finalise, committed storage and the dirty sets are not part of the journal model, and code hashing has no collisions.
- RootsBind: for hash functions without collisions on the keys concerned.
- RoundAgreement: for a fixed validator set with powers below a third of 2^64 in total and less than a third faulty; signatures are not forged.
- SimulateAndFilter: nil transactions, which are passed over, and a failing root computation are not modelled.
- BuildBlock: the header fields other than gas and state, and the comparison of parent and height.
- FailsClean: recovering the signer and decoding are given outcomes, and from the purchase of gas on the virtual machine is any deterministic strategy over the state accessors.
- SameViewSameRoot: for durable states as a flush leaves them and keys whose paths do not collide; encodings are given functions.
- The EVM interpreter and precompile dispatch: a message is any deterministic strategy over the state accessors.
- SelfDestruct and unjournaled writes by native modules during parallel execution.
- Bonding, unbonding queues, withdrawal times and the active set of staking; self stake may change to anything between calls.
- Order storage packing and Keccak slot derivation: slots are maps, so distinct by construction.
- Networking, gossip, RPC, wallets, genesis, configuration and telemetry.
- Signature and RLP codecs.
- Mutexes: concurrent steps are the steps of the state machines.
- Admission checks of the pool before an entry is built (size, chain id, fee floors) and its 64-bit counters.
