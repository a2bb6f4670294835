# Verified model of the L1X node core

A Dafny model of the parts of the L1X node in which correctness spans many
steps, with proofs about every input, every run or every reachable state:

* **Consensus finalisation** (`Consensus`, `ConsensusNode`, `Synchronisation`,
  `ConsensusSafety`, `ConsensusChain`, `ConsensusEvents`, `ConsensusPass`,
  `ConsensusSpoiled`, `ConsensusElections`, `ConsensusVotes`, `ConsensusOrigins`,
  `ConsensusHandled`, `VoteQuorum`, `VoteAgreement`, `ConsensusExamples`). One node holds pending blocks with their votes and vote
  results; five message handlers arrive in any order, the node restarts, and it
  synchronises with others. `ConsensusNode` is the node as objects that the handlers
  change in place; every method is proved equal to a function of `Consensus`, and the
  theorems are about runs of those functions.
* **The chain store and block production** (`ChainStore`, `BlockBuilder`, `Epochs`,
  `NonceFilter`): the Postgres tables for heads, headers, executed flags and
  transactions, block creation, epoch arithmetic and the nonce filter.
* **EVM memory, call traps and jump analysis** (`EvmMemory`, `CallTrap`, `JumpTable`).
* **Nested contract calls and the token ledger** (`CallTree`, `StateOverlay`,
  `Ledger`): clone, run, merge-on-success across both virtual machines.

Check everything with `dafny verify dfyconfig.toml`.

## How to read it

State that the source changes in place is a class whose methods state
`View() == Spec(old(View()), ...)`; the specification is a function on values, and the
lemmas are about that function. What other crates decide (signatures, proposer and
validator tables, transaction checks, execution results, hashes) enters as parameters
that may take any value. So "every run" means: for all messages, in all orders, with
all such answers.

Main results:

* `ConsensusSafety.ExecutedAtMostOnce`: at-most-once execution and flags that are never
  reset, over every interleaving of the handlers and of block synchronisation.
* `ConsensusEvents.ReachableChain`, `BatchKeepsChainIff`: over all messages, restarts and
  synchronisation sessions the stored chain stays linked and is executed in ascending
  order; a downloaded batch, whatever is in it, keeps it so exactly when its fresh blocks
  link onto the head and its last block is the top of the result.
* `ConsensusEvents.ExecutableIff`, `SkippedForever`: exactly which blocks of a reachable
  chain can still be executed by some continuation.
* `ConsensusPass.FinalizePass`, `PassableIff`, `StuckForever`, and
  `ConsensusSpoiled.SpoiledForever`: what one finalisation pass does to entries and order,
  when it can get past its least number, and the entries at which every later pass of the
  process stops.
* `ConsensusElections.ElectedOnce`, `NodeElectsOnce`, `ElectedAgainIff`: epochs are elected
  once each, in order, and one is elected again exactly after an execution that failed.
* `ConsensusOrigins.EverythingHasAnOrigin`, `ValidatorsCarry`: over every run what is
  pending, signed, sent, published and executed goes back to messages that the node's own
  checks let through, and the ayes that the validators so send for a block pass its count.
* `ConsensusVotes.NoEquivocation`, `BreaksIff`, `RestartIff`: all own votes that leave a
  node process for a number are one vote, exactly two kinds of step can undo that, and so
  can a restart, exactly if a vote was out.
* `VoteQuorum.PassesIff`: what a count decides, in sets of validators and sums of stake.
* `VoteAgreement.AgreementIff`, `CorrectPeersAgree`, `FinalisedBlocksAgree`, with
  `VoteQuorum.BothPassIff`: when two blocks of one number, each counted in the table of
  the epoch it names, can both have an accepted vote result, that nodes without such
  steps prevent it, and that no two nodes then finalise different pending blocks.
* `CallTree.CreateLeaves`, `CallLeaves`, and `CallTrap.TrapOperands`: what a create and a
  call leave behind, and which operand of a call becomes what.
* `CallTree.TreeIsFlatReplay`, `CommittedTreeIsFlatReplay`: nested calls are a flat
  replay of the writes whose enclosing frames succeeded, down to the committed tables.
* `ChainStore.BatchRefinesSequentialIff`, `StoreThenLoad`, `StoreRunLaw`.
* `EvmMemory.RunRefines`, `CallTrap.CallRoundTrip`, `JumpTable.DestinationIff`,
  `DestinationsConcat`.
* `NonceFilter.FilteredReplaysIff`, `Ledger.TransferRunConservesIff`,
  `Epochs.ElectionsAreEveryEpochOnce`, `BlockBuilder.BuiltChainIsChain`.

## Where the code falls short of what one might expect

Each of these has a lemma with a concrete input, next to the lemma with the exact
condition.

* A block whose execution failed is skipped for good once its child is accepted and
  executed (`ConsensusExamples.GapAfterFailure`; `ConsensusChain.AcceptGapless`,
  `ConsensusEvents.ExecutableIff`).
* `remove_block` can drop an entry whose vote is already out, after which the node can
  vote for another block of the same number (`ConsensusExamples.EquivocationAfterRemove`;
  `ConsensusVotes.BreaksIff`).
* Votes are not stored: after a restart a node can vote for another block
  (`ConsensusExamples.RestartForgetsVote`; `ConsensusVotes.RestartIff`).
* A vote counts for the address it names, and its signature is checked only if its key
  belongs to a validator (`VoteAgreement.ForgedResultsConflict`, `ForgedResultAccepted`;
  `VoteAgreement.UncheckedIff`).
* Blocks are counted in the table of the epoch they name, which nothing ties to their
  number: two tables, neither of which can be divided, can pass two blocks of one number
  (`VoteAgreement.TwoEpochsConflict`; `VoteAgreement.AgreementIff`).
* `receive_block` executes without a count of votes, so two nodes can execute different
  blocks of one number (`ConsensusExamples.ReceivedBlocksDiffer`;
  `ConsensusExamples.ReceivedExecutesIff`).
* With 2, 3, 4, 6 or 8 validators two passing counts need not share a voter
  (`VoteQuorum.DisjointCountsPass`; `VoteQuorum.QuorumsMeetIff`).
* A vote result numbered 0, or below the head and unexecuted, stops every later pass
  (`ConsensusPass.VoteResultSticks`; `ConsensusPass.PassableIff`).
* A vote result that is invalid, or for another block than one already filed, bars its
  entry for votes until the block arrives as finalised or the entry is dropped
  (`ConsensusSpoiled.BadResultSpoils`; `ConsensusSpoiled.SpoiledForever`).
* A vote with a key of less than 8 bytes makes the count panic (`VoteQuorum.UniqueVotes`).
* A downloaded batch that ends below the head drags the head row back
  (`ConsensusExamples.BatchDragsHeadBack`, `ConsensusEvents.HeadGoesBack`;
  `ConsensusEvents.BatchKeepsChainIff`).
* One transaction with a malformed key makes batch and one-by-one storing differ
  (`ChainStore.MalformedKeySplitsPaths`; `ChainStore.BatchRefinesSequentialIff`).
* The head row may disagree with the header table after `store_block`
  (`ChainStore.HeadDisagrees`; `ChainStore.HeadAgreesIff`).
* Two encodings of one key break the nonce replay (`NonceFilter.TwoEncodingsDoNotReplay`;
  `NonceFilter.FilteredReplaysIff`).
* Storing a contract or instance over an entry that was read keeps the old one
  (`StateOverlay.CachedContractSurvivesStore`; `StateOverlay.WriteRefinesIff`). No
  deployment does that on tables in which every contract has an account.
* `transfer` on a stale copy changes the supply (`Ledger.StaleCopyMakesTokens`;
  `Ledger.TransferConservesIffFresh`), and it debits before a failing credit
  (`Ledger.OverflowLosesTokens`; `Ledger.TransferConservesIff`).
* An L1XVM call to an EVM contract takes the deposit from the callee
  (`CallTree.EvmCalleePaysItself`; `CallTree.L1xDepositPaidByCaller`).
* CALLCODE with a value pays the contract whose code runs, although the trap's transfer is
  to the caller itself (`CallTree.CallCodePaysCode`; `CallTree.TrapTransferPaidIff`).
* Comments in vote_result/src/vote_result_manager.rs speak of 50 and 70 per cent; the
  constants, which the model follows, say 60.

## Model

| member | source | states |
|---|---|---|
| ConsensusNode.FindVote | consensus/src/pending_blocks.rs:211 | returns the first vote in the list with the given key, or nothing when there is none |
| ConsensusNode.ValidateVoteResults | consensus/src/pending_blocks.rs:114-121 | accepts exactly when every vote result is valid for the block |
| ConsensusNode.PassedVoteResult | consensus/src/pending_blocks.rs:251-264 | returns the first passing vote result if no check before it fails; an error of the check ends the search with nothing |
| ConsensusNode.SortNumbers | consensus/src/pending_blocks.rs:475-476 | lists the pending numbers strictly ascending, each once |
| ConsensusNode.AscendingUnique | consensus/src/pending_blocks.rs:475-476 | a set of numbers has only one ascending list, so the pass order is determined |
| Consensus.Ascending | consensus/src/pending_blocks.rs:475-476 | holds exactly the given numbers, strictly ascending |
| ConsensusNode.PendingBlocks.AddVote | consensus/src/pending_blocks.rs:392-401 | appends the vote to the entry of its number, creating the entry if needed, and changes no other entry |
| ConsensusNode.PendingBlocks.AddVoteResult | consensus/src/pending_blocks.rs:403-412 | appends the vote result to the entry of its number, creating the entry if needed |
| ConsensusNode.PendingBlocks.AddBlock | consensus/src/pending_blocks.rs:414-423 | sets or replaces the block of its number and keeps that entry's votes and results |
| ConsensusNode.PendingBlocks.RemoveBlock | consensus/src/pending_blocks.rs:454-456 | removes exactly that entry |
| ConsensusNode.PendingBlocks.ValidateHeader | validate/src/validate_block.rs:96-110 | accepts exactly the head's own header or a valid successor of it |
| ConsensusNode.PendingBlocks.ExecuteBlock | execute/src/execute_block.rs:253-264 | an executed block is not executed again; a failed execution changes nothing; a success sets the flag and is logged |
| ConsensusNode.PendingBlocks.StoreAndExecute | consensus/src/pending_blocks.rs:288-300 | stores first, then executes what was stored |
| ConsensusNode.PendingBlocks.Vote | consensus/src/pending_blocks.rs:209-244 | broadcasts the entry's own vote, signing one only when there is none |
| ConsensusNode.PendingBlocks.CheckVotes | consensus/src/pending_blocks.rs:249-264 | passes exactly when all results are valid and the first that does not fail to pass passes without error |
| ConsensusNode.PendingBlocks.TryBlock | consensus/src/pending_blocks.rs:167-308 | one attempt is the specified step, with its early exits and the vote that survives them |
| ConsensusNode.PendingBlocks.Sweep | consensus/src/pending_blocks.rs:486-516 | the loop with its break finalises what the recursive pass finalises |
| ConsensusNode.PendingBlocks.RemoveAll | consensus/src/pending_blocks.rs:518-520 | removes exactly the finalised numbers |
| ConsensusNode.PendingBlocks.TryToFinalize | consensus/src/pending_blocks.rs:470-520 | sort, pass and removal together are the specified finalisation |
| ConsensusNode.Handlers.ReceiveValidateBlock | consensus/src/consensus.rs:216-272 | an unauthorised or executed block changes nothing; any other is filed and a pass follows |
| ConsensusNode.Handlers.ReceiveVote | consensus/src/consensus.rs:313-382 | only a proposer files votes; a vote result is generated, filed and, among several nodes, broadcast with the vote that completed it, exactly when the count allows it |
| ConsensusNode.PendingBlocks.Announce | consensus/src/consensus.rs:365-378 | records the vote result, the own votes in it and the relayed vote as sent |
| ConsensusNode.Handlers.ReceiveVoteResult | consensus/src/consensus.rs:384-399 | files the result whatever its number and runs a pass |
| ConsensusNode.Handlers.ReceiveBlock | consensus/src/consensus.rs:401-461 | stores a valid unexecuted block even when its evidence or execution then fails |
| ConsensusNode.Handlers.AddAndBroadcastBlock | consensus/src/consensus.rs:575-672 | refuses, rebroadcasts, drops a conflicting entry, or files the block with an own vote |
| ConsensusSafety.TryOneKeeps | consensus/src/pending_blocks.rs:167-308 | an attempt keeps every property of tables and log that accepted blocks keep |
| ConsensusSafety.PassKeeps | consensus/src/pending_blocks.rs:486-516 | so does a whole pass |
| ConsensusSafety.StepKeeps | consensus/src/consensus.rs:216-672 | so does each of the five handlers |
| ConsensusSafety.RunKeeps | consensus/src/consensus.rs:216-672 | a property that every accepted block keeps holds after every run of handlers |
| ConsensusSafety.ExecuteOnce | execute/src/execute_block.rs:253-264 | an execution repeats no block, keeps flags equal to the log, and succeeds exactly when the flag is then set |
| ConsensusSafety.AcceptOnce | consensus/src/pending_blocks.rs:288-300 | storing and executing a block repeats no execution and resets no flag |
| ConsensusSafety.BatchFlags | block/src/state_pg.rs:347-411 | a batch of any blocks keeps every flag's value and sets none |
| ConsensusSafety.SyncStoreOnce | node/src/sync.rs:488-538 | storing a downloaded batch keeps at-most-once execution |
| ConsensusSafety.SyncExecuteOnce | node/src/sync.rs:401-486 | so does executing one stored block |
| ConsensusSafety.SyncRunOnce | node/src/sync.rs:401-538 | so does every session of storing and executing |
| ConsensusSafety.EventOnce | node/src/sync.rs:401-538 | each handler, restart and synchronisation step keeps at-most-once execution |
| ConsensusSafety.ExecutedAtMostOnce | consensus/src/consensus.rs:216-672 | over every interleaving of handlers, restarts and synchronisation no block is executed twice, flags say exactly what was executed, and none is ever reset |
| ConsensusSafety.GenesisOnce | genesis/src/genesis.rs:214-238 | the genesis state satisfies the start condition |
| ConsensusChain.StoreKeepsLinks | validate/src/validate_block.rs:186-249 | storing a block that passes the header check keeps the chain linked and makes it the head |
| ConsensusChain.ExecuteKeepsChain | execute/src/execute_block.rs:253-264 | executing the head keeps the chain and appends its header to an ascending log |
| ConsensusChain.AcceptKeepsChain | consensus/src/pending_blocks.rs:288-300 | accepting a block keeps the chain, settles everything below the old head, and succeeds exactly when the block is executed |
| ConsensusChain.AcceptLogs | execute/src/execute_block.rs:253-264 | exactly one header is logged for a block accepted for the first time with success, else none |
| ConsensusChain.RunChain | consensus/src/consensus.rs:216-672 | every run of handlers keeps the chain linked, never changes a stored header, and executes nothing below the head it started from |
| ConsensusChain.GenesisChain | genesis/src/genesis.rs:214-238 | the genesis tables are a chain of one header |
| ConsensusChain.AcceptGapless | validate/src/validate_block.rs:107-109 | accepting a block leaves a gap exactly when it goes on a head that is neither genesis nor executed |
| ConsensusChain.SucceedingRunsComplete | consensus/src/pending_blocks.rs:295-300 | while no execution fails the executed blocks are exactly 1 to the head in order |
| ConsensusChain.ProposalPassesIff | block/src/block_manager.rs:59-89 | what the proposer builds passes the validators' header check exactly when its time does not run backwards and its count fits i32 |
| Synchronisation.FindHighestExecuted | node/src/sync.rs:131-164 | the loop answers what the downward scan answers, also where the scan gives up unchecked at 1 or runs below 0 |
| Synchronisation.SortBlocks | node/src/sync.rs:504-505 | the batch sorted by number, with exactly its blocks |
| ConsensusEvents.BatchKeepsChainIff | node/src/sync.rs:488-538 | on a linked chain any batch, sorted as the code sorts it, leaves a linked chain exactly when it is refused for a malformed key, or the first blocks of its new numbers link onto the head and its last block is the top of the result by number and hash |
| ConsensusEvents.RisingExtends | node/src/sync.rs:488-538 | for a batch of rising numbers above the head that condition says that it links onto the head |
| ConsensusEvents.HeadGoesBack | block/src/state_pg.rs:399-408 | a batch that ends below the head sets the head row back, keeps all headers, and breaks the chain |
| ConsensusEvents.StoreBatchChain | node/src/sync.rs:488-538 | such a batch loses no header and executes nothing |
| ConsensusEvents.ExecuteStoredChain | node/src/sync.rs:401-486 | executing the block after the highest executed one keeps the log ascending |
| ConsensusEvents.SyncExecutesIff | node/src/sync.rs:401-486 | a session executes a stored block exactly when it is valid, its parent is executed and it does not fail |
| ConsensusEvents.StartOk | node/src/sync.rs:246-260 | the number at which a session starts to execute is above everything executed |
| ConsensusEvents.SyncRunChain | node/src/sync.rs:401-538 | a whole session keeps the chain linked and executed in ascending order |
| ConsensusEvents.EventsChain | node/src/sync.rs:186-300 | over every run of messages and restarts with synchronisation the chain only grows |
| ConsensusEvents.ReachableChain | consensus/src/consensus.rs:216-672 | in every state so reached from genesis headers 0 to the head are present and linked, the head hash is theirs, and the executed headers are stored ones in ascending order |
| ConsensusEvents.DeadForever | node/src/sync.rs:246-260 | a block that is not executable stays unexecuted in every continuation |
| ConsensusEvents.ExecutableIff | node/src/sync.rs:246-260 | some continuation executes a block exactly when it is executed, or nothing above it is and it is not below the head or some block is executed from which a session goes on |
| ConsensusEvents.SkippedForever | consensus/src/consensus.rs:401-461 | a block below an executed one is never executed, whatever messages, restarts and sessions follow |
| ConsensusPass.TryOneEffect | consensus/src/pending_blocks.rs:167-308 | an attempt succeeds exactly when its block is executed afterwards, logs nothing else, and touches no other entry |
| ConsensusPass.PassEffect | consensus/src/pending_blocks.rs:486-516 | a pass over any pending numbers finalises a prefix, all executed, and stops at one that is not |
| ConsensusPass.ExecutedInOrder | consensus/src/pending_blocks.rs:475-516 | each number is executed after every smaller pending number |
| ConsensusPass.FinalizePass | consensus/src/pending_blocks.rs:470-520 | one finalisation removes exactly a prefix of the ascending numbers, executes in order, and keeps blocks, results and earlier votes of what remains |
| ConsensusPass.PassableIff | consensus/src/pending_blocks.rs:486-516 | a pass gets past its least pending number, for some answers, exactly if that is executed or its entry holds a fitting block and fitting vote results |
| ConsensusPass.StuckPass | consensus/src/pending_blocks.rs:486-516 | with an unexecuted entry at 0 or below the head a pass executes, sends and elects nothing, and keeps every entry from there up as it is |
| ConsensusPass.StuckForever | consensus/src/pending_blocks.rs:470-520 | such an entry survives every further message, and no later pass executes anything |
| ConsensusPass.VoteResultSticks | consensus/src/consensus.rs:384-399 | one vote result numbered 0, or below the head and unexecuted, creates such an entry |
| ConsensusSpoiled.PassSpoiled | consensus/src/pending_blocks.rs:486-516 | no pass finalises an entry with an invalid result or with results for two blocks, whatever else it finalises |
| ConsensusSpoiled.SpoiledForever | consensus/src/consensus.rs:216-672 | such an entry stays unexecuted through every run in which its block does not arrive as finalised and no conflicting proposal drops it |
| ConsensusSpoiled.BadResultSpoils | consensus/src/consensus.rs:384-399 | one vote result that is invalid, or for another block than one filed before, creates such an entry |
| ConsensusElections.TryOneElects | consensus/src/pending_blocks.rs:266-300 | an attempt whose execution does not fail elects a later epoch than any before, or none, up to any number to which epochs rise |
| ConsensusElections.ElectedOnce | consensus/src/pending_blocks.rs:266-280 | over every run up to such a number in which blocks name their own epoch and no attempt of a pass fails to execute, each epoch is elected at most once, in ascending order |
| ConsensusElections.NodeElectsOnce | block/src/block_manager.rs:157-163 | with the epoch that the node computes this holds for every number whose epoch fits i64 |
| ConsensusElections.CurrentEpochsRegular | block/src/block_manager.rs:157-163 | computed epochs rise with the number and fit the column up to there |
| ConsensusElections.ElectedAgainIff | consensus/src/pending_blocks.rs:266-300 | what a block elected can be elected again in such a run exactly when that block failed to execute |
| ConsensusElections.ElectionOrderIff | consensus/src/pending_blocks.rs:266-280 | whatever epoch a block names, its election keeps the order exactly when it is later than the last one |
| ConsensusVotes.OwnVotesAgree | consensus/src/pending_blocks.rs:211 | what a count includes under the own name, and what the finalise path finds by key, is the first own vote of the entry or none |
| ConsensusVotes.CastVotes | consensus/src/pending_blocks.rs:209-244 | voting on an unexecuted number keeps one voice per number |
| ConsensusVotes.FinalizeVotes | consensus/src/pending_blocks.rs:470-520 | a finalisation keeps one voice per number, although it removes entries |
| ConsensusVotes.PublishVotes | consensus/src/consensus.rs:360-378 | so does a vote result that goes out with the own vote in it |
| ConsensusVotes.RemoveVotes | consensus/src/pending_blocks.rs:454-456 | removing an entry for which no own vote is out keeps one voice per number |
| ConsensusVotes.OnProposeVotes | consensus/src/consensus.rs:575-672 | so does a proposal that does not drop an entry whose vote is out |
| ConsensusVotes.StepVotes | consensus/src/consensus.rs:216-672 | so does every handler that neither drops such an entry nor files, under the own name, a vote other than the one that is out |
| ConsensusVotes.BreaksIff | consensus/src/consensus.rs:628-642 | a step is one of those two kinds exactly when some continuation without any such step lets two different own votes out for one number |
| ConsensusVotes.NoEquivocation | consensus/src/pending_blocks.rs:209-244 | in every run of a node process without such a step all own votes that leave for a number, alone or inside vote results, are the same, and the finalise path signs at most one, whatever blocks replace pending ones |
| ConsensusVotes.RestartIff | consensus/src/consensus.rs:313-382 | after a restart some run without a breaking step lets another own vote out for a number exactly when the process before had sent a vote at all |
| ConsensusOrigins.SignsIff | consensus/src/pending_blocks.rs:209-244 | an attempt signs a vote exactly when the node is a validator and not the proposer, the block is in order, and the entry has no vote with the own key; it is an aye with the block's number, hash and epoch under the own address and key, filed and sent |
| ConsensusOrigins.ValidatorsCarry | consensus/src/pending_blocks.rs:209-244 | the votes that the nodes of a staked table so send for one header pass the count of that table |
| ConsensusOrigins.SucceedsOn | consensus/src/pending_blocks.rs:167-308 | a successful attempt was told that its block is in order and that a result of the entry is valid for it and passes, and logs exactly that block |
| ConsensusOrigins.RunOrigins | consensus/src/consensus.rs:216-672 | every handler keeps the account of where entries, votes, results and executed blocks come from |
| ConsensusOrigins.EverythingHasAnOrigin | consensus/src/consensus.rs:216-672 | over every run pending blocks were brought by an authorised proposal, votes were heard while proposing or are own ayes for such blocks, results were delivered or generated here from such votes, and executed blocks arrived as finalised with their checks in order or were carried by such a result |
| ConsensusOrigins.UnauthorisedChangesNothing | consensus/src/consensus.rs:231-236 | a proposal that is not the proposer's changes nothing |
| ConsensusHandled.CarriedIff | consensus/src/pending_blocks.rs:249-264 | the votes carry a block exactly when every result is for it and checks out, and asked in turn the results fail until one passes |
| ConsensusHandled.FinalisesIff | consensus/src/pending_blocks.rs:167-308 | an attempt finalises exactly when the votes carry the block, any selection needed succeeds and it executes; it elects exactly when it gets past the selection |
| ConsensusHandled.ElectsAtEpochEnd | consensus/src/pending_blocks.rs:266-280 | with computed epochs it elects exactly at the last block of an epoch, for the next one |
| ConsensusHandled.SendsIff | consensus/src/pending_blocks.rs:209-244 | an attempt sends the own vote that the entry holds, the one it signs, or nothing |
| ConsensusHandled.VoteHandled | consensus/src/consensus.rs:313-382 | when a received vote is filed, when it completes a result, and that the result is then filed, published with the vote relayed, and followed by a pass |
| ConsensusHandled.ResultHandled | consensus/src/consensus.rs:384-399 | a received vote result is filed whatever it is, and a pass follows |
| ConsensusHandled.ProposalHandled | consensus/src/consensus.rs:216-272 | a proposed block is filed, and a pass follows, exactly when its sender is the proposer and it is not executed |
| ConsensusHandled.BlockHandled | consensus/src/consensus.rs:401-461 | which received blocks change nothing, which are only stored, and which are executed before a pass |
| ConsensusHandled.ProposeHandled | consensus/src/consensus.rs:575-672 | when the proposer's own block is refused, filed with an own aye, resent, or drops a conflicting entry |
| ConsensusExamples.GapAfterFailure | consensus/src/consensus.rs:425-445 | a two-message run leaves block 1 below the head and unexecuted through every continuation of messages, restarts and synchronisation |
| ConsensusExamples.EquivocationAfterRemove | consensus/src/consensus.rs:628-642 | a six-message run with a drop broadcasts two different votes for one number |
| ConsensusExamples.RestartForgetsVote | consensus/src/pending_blocks.rs:209-244 | a node that has voted for one block next to the head votes, after a restart, for any other |
| ConsensusExamples.BatchDragsHeadBack | node/src/sync.rs:488-538 | a batch of block 1 after blocks 1 and 2 leaves the head row at 1, below an executed block 2 |
| ConsensusExamples.ReceivedExecutesIff | consensus/src/consensus.rs:401-461 | a received block is executed exactly when it is valid, signed by its sender, fits the head, has no invalid evidence and executes; no count of votes is asked for |
| ConsensusExamples.ReceivedBlocksDiffer | consensus/src/consensus.rs:401-461 | two nodes at genesis execute different blocks 1 without any vote |
| VoteQuorum.UniqueVotes | vote_result/src/vote_result_manager.rs:322-330 | yields exactly the first vote of every identity, in some order; panics exactly if some key is shorter than 8 bytes |
| VoteQuorum.FirstVotes | vote_result/src/vote_result_manager.rs:323-328 | the map holds exactly the first vote of every identity; panics exactly if some key is shorter than 8 bytes |
| VoteQuorum.SameIdentityIff | vote_result/src/vote_result_manager.rs:325-326 | two votes are counted once between them exactly when they name one validator and the first 8 bytes of their keys agree |
| VoteQuorum.CountedUnique | vote_result/src/vote_result_manager.rs:322-330 | the first vote of every identity, taken in the order they were filed, is one possible result of that |
| VoteQuorum.FilterEligible | vote_result/src/vote_result_manager.rs:371-378 | keeps exactly the validators' votes in order |
| VoteQuorum.CountStakes | vote_result/src/vote_result_manager.rs:412-438 | both sums are those of the counted votes, wrapped around in u128 |
| VoteQuorum.IsPassed | vote_result/src/vote_result_manager.rs:345-450 | passes exactly on enough validators' votes and 60 per cent of their stake, with sums that wrap around and products that overflow counting as no |
| VoteQuorum.PassesIff | vote_result/src/vote_result_manager.rs:345-450 | without double votes, while all stakes times one hundred fit u128: a count passes exactly when enough validators voted, one of them with stake, and those who voted aye have 60 per cent of the stake of those who voted |
| VoteQuorum.NoesNeverPass | vote_result/src/vote_result_manager.rs:412-438 | a block that every voter votes against does not pass |
| VoteQuorum.BigStakesNeverPass | vote_result/src/vote_result_manager.rs:440-449 | a product past u128 is a no, and a sum of 2^128 counts as none |
| VoteQuorum.WrappedSumPasses | vote_result/src/vote_result_manager.rs:430-434 | a sum of 2^128 + 1 counts as 1 and passes again |
| VoteQuorum.OrderIrrelevant | vote_result/src/vote_result_manager.rs:322-330 | the outcome does not depend on the order in which the hash map yields the votes |
| VoteQuorum.PassingVoters | vote_result/src/vote_result_manager.rs:371-450 | a passing count without double votes comes from enough validators, one of them with stake |
| VoteQuorum.AyesPass | vote_result/src/vote_result_manager.rs:371-450 | any such set of validators passes with ayes, as long as all stakes times one hundred fit u128 |
| VoteQuorum.BothPassIff | vote_result/src/vote_result_manager.rs:452-459 | two counts, each in its own table, can pass with only given validators voting in both exactly when, with at most one staked voter set aside for each, the votes still missing fit the others of either table and of both together |
| VoteQuorum.SameTable | vote_result/src/vote_result_manager.rs:452-459 | for one table that comes down to sizes: twice the missing votes are at most the others, two of them staked where the shared ones are not |
| VoteQuorum.QuorumsMeetIff | vote_result/src/vote_result_manager.rs:452-459 | any two counts that pass in one table share a validator exactly when at most one validator has stake or the threshold, and at least one vote, is more than half; the latter for 0, 1, 5, 7 and at least 9 validators |
| VoteQuorum.DisjointCountsPass | vote_result/src/vote_result_manager.rs:452-459 | of four validators with equal stake two pass a count, and so do the other two |
| VoteAgreement.ValidateVoteResult | validate/src/validate_vote_result.rs:11-67 | accepts exactly a signed result for the block all of whose votes are for it and valid |
| VoteAgreement.ResultFitsIff | validate/src/validate_vote_result.rs:11-67 | a result fits a block exactly when it is signed and for it, and so is every vote, signed where that is checked |
| VoteAgreement.UncheckedIff | validate/src/validate_vote.rs:15-27 | a vote is valid whatever its signature exactly when its key has an address that is no validator's at the vote's epoch |
| VoteAgreement.CheckedIff | validate/src/validate_vote.rs:29-57 | with a validator's key a vote is valid exactly when it is for the block, has a full key, and is signed |
| VoteAgreement.ForgedResultAccepted | validate/src/validate_vote.rs:15-27 | with one key that is no validator's a result that names every validator, without a valid vote signature, is accepted for any block |
| VoteAgreement.ForgedResultsConflict | vote_result/src/vote_result_manager.rs:371-378 | a concrete table and key with which two blocks of one number both have such a result |
| VoteAgreement.Agreement | consensus/src/pending_blocks.rs:188-192 | where every vote names the address of its key and that is a validator, and the faulty validators cannot complete a count for each block in the table of its epoch, two accepted results for one number are for one block |
| VoteAgreement.AgreementIff | consensus/src/pending_blocks.rs:188-192 | and exactly then: else some signatures make two such results for different blocks; for one epoch the condition is that of one table |
| VoteAgreement.TwoEpochsConflict | consensus/src/pending_blocks.rs:188-192 | one validator in epoch 1 and another in epoch 2: two blocks of one number pass without a faulty validator |
| VoteAgreement.CorrectPeersAgree | consensus/src/pending_blocks.rs:209-264 | the same with the single voice of the other validators derived from their own runs, where what verifies under their keys is something they sent |
| VoteAgreement.FinalisedBlocksAgree | consensus/src/pending_blocks.rs:167-308 | two nodes whose attempts finalise a pending block of one number, told about vote results by those checks, finalise the same block |
| ChainStore.Truncate32 | block/src/state_pg.rs:255-303 | the sequence column fits u32 and is exact below its limit |
| ChainStore.BlockStore.UpdateBlockHead | block/src/state_pg.rs:105-133 | sets the head row of one cluster |
| ChainStore.BlockStore.StoreTransaction | block/src/state_pg.rs:413-452 | fails on a key without address and inserts nothing; else inserts the row unless the block already has that transaction |
| ChainStore.BlockStore.InsertBlock | block/src/state_pg.rs:255-343 | inserts what is absent, without the transactions that fail, advances the head by one or not at all, and overwrites nothing |
| ChainStore.CollectTransactions | block/src/state_pg.rs:347-411 | flattens the batch in block order |
| ChainStore.BlockStore.BatchStoreTransactions | block/src/state_pg.rs:455-504 | inserts the flat list with one running index if every key has an address, else fails and inserts nothing |
| ChainStore.BlockStore.BatchStoreBlockHeaders | block/src/state_pg.rs:692-740 | inserts the absent headers |
| ChainStore.BlockStore.InsertBatch | block/src/state_pg.rs:347-411 | fails on an empty batch, and after the flags on one with a malformed key; else inserts what is absent and sets the head to the last block |
| ChainStore.BlockStore.SetBlockExecuted | block/src/state_pg.rs:1403-1429 | sets the flag of an existing row and touches no other |
| ChainStore.SetExecutedIff | block/src/state_pg.rs:1403-1429 | marking a block executed takes effect exactly if it has a flag row, and never makes one |
| ChainStore.BlockStore.LoadTransactions | block/src/state_pg.rs:1205-1233 | returns the rows in ascending sequence whenever their sequence numbers are distinct |
| ChainStore.InsertLoads | block/src/state_pg.rs:413-452 | a fresh list loads back in order with later duplicates by hash dropped |
| ChainStore.StoreThenLoad | block/src/state_pg.rs:255-306 | store then load returns the transactions whose key has an address, so, and the header unchanged exactly when version fits i32 and epoch fits i64, with 0 for what does not |
| ChainStore.StoredRowsNameBlock | block/src/state_pg.rs:413-452 | storing a block adds only rows of its own transactions, each under its hash and naming the block's hash |
| ChainStore.BatchRowsNameBlocks | block/src/state_pg.rs:455-504 | every row that a batch adds names a block of the batch with that number and transaction |
| ChainStore.FlatIsBlockwise | block/src/state_pg.rs:455-504 | the batch's flat numbering is block by block insertion with a running index |
| ChainStore.BlocksLoad | block/src/state_pg.rs:1205-1233 | consecutive fresh blocks all load back, with either numbering |
| ChainStore.BatchRefinesSequentialIff | block/src/state_pg.rs:347-411 | batch and one-by-one storing agree on heads, headers, flags and every load, although sequence numbers differ, exactly when every key has an address |
| ChainStore.MalformedKeySplitsPaths | block/src/state_pg.rs:455-504 | one block with one malformed key: stored alone it becomes the head, in a batch it leaves only its flag |
| ChainStore.StoreBlockGrows | block/src/state_pg.rs:255-307 | storing loses and overwrites nothing and moves a head by at most one |
| ChainStore.StoreRunLaw | block/src/state_pg.rs:255-307 | over any blocks in any order heads never go back, every number up to a head has a header, and no row ever changes |
| ChainStore.HeadAgreesIff | block/src/state_pg.rs:105-133 | head row and header table stay in agreement exactly when the head does not advance onto a number stored with another hash |
| ChainStore.HeadDisagrees | block/src/state_pg.rs:105-133 | three blocks after which the head row has a hash that no header has |
| BlockBuilder.Builder.CreateAndStore | block/src/block_manager.rs:59-89 | builds on the stored head and stores the result |
| BlockBuilder.CreateNext | block/src/block_manager.rs:204-251 | the created block has the next number, the head's hash as parent, its own hash, its number's epoch, version 5, the request's transactions, time and kind, and their number cut to i32 |
| BlockBuilder.BuiltChainIsChain | block/src/block_manager.rs:59-89 | every chain built from the empty store is consecutively numbered, hash-linked, headed by its last block, and reads back |
| BlockBuilder.BuiltChainEpochs | block/src/block_manager.rs:157-163 | every built block's epoch is its number divided by the epoch length |
| Epochs.EpochEndsAtMultiple | block/src/block_manager.rs:189-195 | an epoch ends exactly before a multiple of its length |
| Epochs.SmallEpoch | block/src/block_manager.rs:157-163 | the cast to u64 loses nothing below its limit |
| Epochs.ElectionsAreEveryEpochOnce | consensus/src/pending_blocks.rs:266-280 | finalising blocks 1 to N elects epochs 1, 2, ... in order, once each, exactly when an epoch has at least two slots |
| NonceFilter.GroupByKey | block/src/block_manager.rs:120-155 | each key's transactions in their order, and no other keys |
| NonceFilter.ValidateNonce | block/src/block_manager.rs:120-155 | fails exactly on a key without address, else keeps each key's valid run |
| NonceFilter.TakeRun | block/src/block_manager.rs:120-155 | the loop with its break takes the consecutive prefix |
| NonceFilter.SortMembers | block/src/block_manager.rs:120-155 | sorting loses and adds no transaction |
| NonceFilter.SortSorts | block/src/block_manager.rs:120-155 | sorting orders by nonce |
| NonceFilter.SortStable | block/src/block_manager.rs:120-155 | transactions with equal nonces keep their order |
| NonceFilter.PrefixIsLongest | block/src/block_manager.rs:120-155 | the run is the longest prefix that counts up from the account nonce plus one |
| NonceFilter.RunsStartBehindNonce | block/src/block_manager.rs:120-155 | a run starts right behind the account's nonce, at 1 for a sender without an account |
| NonceFilter.FilterIdempotent | block/src/block_manager.rs:120-155 | filtering a result again keeps every key's run |
| NonceFilter.ReplayIff | account/src/state_pg.rs:211-235 | a list replays exactly when every account's own transactions count up from its nonce |
| NonceFilter.FilteredReplaysIff | block/src/block_manager.rs:120-155 | whatever order the groups come out in, the result replays exactly when no two key encodings name one account |
| NonceFilter.TwoEncodingsDoNotReplay | block/src/block_manager.rs:120-155 | a compressed and an uncompressed key of one account: both transactions pass the filter, and the second cannot replay |
| EvmMemory.NextMultipleOf32 | evm_interpreter/src/memory.rs:214-217 | a multiple of 32 less than 32 above the argument, nothing exactly for arguments above 2^256 - 32 |
| EvmMemory.NextMultipleIsCeil | evm_interpreter/src/memory.rs:214-217 | the bit trick yields the least multiple of 32 not below the argument, and nothing exactly when that overflows U256 |
| EvmMemory.Memory.ResizeOffset | evm_interpreter/src/memory.rs:59-69 | an empty range asks for nothing, an overflowing one fails and changes nothing |
| EvmMemory.Memory.ResizeEnd | evm_interpreter/src/memory.rs:72-79 | the effective length rises to the rounded end or stays |
| EvmMemory.Memory.ResizeToRange | evm_interpreter/src/memory.rs:82-100 | all three size cases leave the old zero-extended window and its length; more than isize::MAX bytes panic |
| EvmMemory.Memory.Get | evm_interpreter/src/memory.rs:108-127 | the window of the zero-extended memory, past the end and past usize, or the panic |
| EvmMemory.Memory.Set | evm_interpreter/src/memory.rs:131-160 | value then zeros up to the target size, all other bytes kept; a refusal or panic changes nothing |
| EvmMemory.Memory.CopyLarge | evm_interpreter/src/memory.rs:163-209 | the specified part of the source is written; a refusal or panic changes nothing |
| EvmMemory.Written | evm_interpreter/src/memory.rs:131-160 | byte for byte, inside the range the padded value, outside it the old memory |
| EvmMemory.CopySourceIsWindow | evm_interpreter/src/memory.rs:163-209 | the part taken is the zero-extended source window exactly when the window ends within usize or only zeros follow its start |
| EvmMemory.ReturningCopyIsWindow | evm_interpreter/src/memory.rs:163-209 | every copy that returns has taken the zero-extended source window |
| EvmMemory.ResizeRunIsLargest | evm_interpreter/src/memory.rs:59-79 | after any requests the effective length is the largest rounded end among those that succeed |
| EvmMemory.ResizeOrderIrrelevant | evm_interpreter/src/memory.rs:59-79 | on fresh memory it depends neither on order nor on repetition |
| EvmMemory.Memory.ZeroRange | evm_interpreter/src/memory.rs:131-160 | zeroes exactly the padding |
| EvmMemory.CopyStepRefines | evm_interpreter/src/memory.rs:163-209 | a copy that returns is the copy on the infinite byte map |
| EvmMemory.PanicsIff | evm_interpreter/src/memory.rs:131-209 | a write panics exactly when it is not empty, within the limit, and ends beyond isize::MAX |
| EvmMemory.StepRefines | evm_interpreter/src/memory.rs:131-209 | so is every write that returns |
| EvmMemory.RunRefines | evm_interpreter/src/memory.rs:108-209 | after any writes that return every read is a read of the infinite zero-initialised map |
| CallTrap.Machine.NewFromParams | evm_interpreter/src/call_create.rs:129-208 | an error leaves the machine untouched; a raised trap carries input, context and transfer of its scheme |
| CallTrap.Machine.NewFrom | evm_interpreter/src/call_create.rs:210-243 | operands are popped exactly when the trap is raised |
| CallTrap.TrapOperands | evm_interpreter/src/call_create.rs:129-232 | which operand becomes what: gas, the last 20 bytes of the target, the bytes of the input range, the output range, and for each scheme the address, caller and value that the callee sees and the transfer |
| CallTrap.TrapRaisedIff | evm_interpreter/src/call_create.rs:129-208 | exactly when a trap is raised, and exactly which operands stop it with which error |
| CallTrap.TrapUnderflowIff | evm_interpreter/src/call_create.rs:220-243 | too few operands are a stack underflow: fewer than seven for CALL and CALLCODE, than six else |
| CallTrap.Machine.Push | evm_interpreter/src/stack.rs:94-100 | fails at the limit and then changes nothing |
| CallTrap.Machine.Feedback | evm_interpreter/src/call_create.rs:245-299 | flag, copy, return buffer and error for each exit reason, including a full stack |
| CallTrap.TrapCoversOutput | evm_interpreter/src/call_create.rs:141-208 | a raised trap covers the output range, keeps memory and leaves room for the flag |
| CallTrap.CopyBackBytes | evm_interpreter/src/call_create.rs:245-299 | the copy succeeds exactly within the memory limit and below isize::MAX, and writes exactly the return prefix |
| CallTrap.CallRoundTrip | evm_interpreter/src/call_create.rs:245-299 | trap then feedback, for every scheme and reason, changes memory only inside the return prefix and only on success or revert, pushes 1 exactly on a success whose copy fits, cannot overflow the stack, and panics exactly when the copy would pass isize::MAX |
| JumpTable.New | evm_interpreter/src/valids.rs:10-31 | marks exactly the destinations of section 9.4.3 of the Ethereum Yellow Paper |
| JumpTable.IsValid | evm_interpreter/src/valids.rs:45-55 | answers membership for every position, past the end too |
| JumpTable.DestinationIff | evm_interpreter/src/valids.rs:10-31 | a position is valid exactly when it holds 0x5b and a walk over the instructions, skipping the data of 0x60 to 0x7f, comes to it |
| JumpTable.PushedByteIsNoDestination | evm_interpreter/src/opcode.rs:254-261 | a concrete push of 0x5b |
| JumpTable.DestinationsConcat | evm_interpreter/src/valids.rs:10-31 | the destinations of appended code, from wherever the first part's last instruction ends |
| JumpTable.PrefixIndependent | evm_interpreter/src/valids.rs:10-31 | appended bytes never change a prefix's destinations |
| JumpTable.AlignedConcat | evm_interpreter/src/valids.rs:10-31 | if the scan ends on the last byte the maps concatenate |
| JumpTable.UnalignedConcatLoses | evm_interpreter/src/opcode.rs:254-261 | they concatenate for every continuation only then |
| Ledger.AccountTable.Create | account/src/state_pg.rs:37-88 | inserts an absent account, keeps an existing one |
| Ledger.AccountTable.UpdateBalanceOf | account/src/state_pg.rs:171-196 | sets the balance of an existing row only, or inserts the account |
| Ledger.AccountManager.TransferTo | account/src/account_manager.rs:89-130 | both rows and the manager's copy after every outcome |
| Ledger.TransferAnyCopy | account/src/account_manager.rs:89-130 | however stale the copy, a transfer is refused exactly if the copy does not cover it, debits the copy otherwise, and changes no existing row in anything but its balance |
| Ledger.TransferConservesIffFresh | account/src/account_manager.rs:89-130 | a completed transfer conserves the supply exactly when the manager's copy was current |
| Ledger.TransferConservesIff | contract_instance_manager/src/contract_instance_evm.rs:34-52 | a transfer panics exactly when a covered amount to another account overflows its balance, and conserves the supply exactly when it does not |
| Ledger.TokenTransferConserves | contract_instance_manager/src/contract_instance_evm.rs:34-52 | if the supply fits u128 no conversion fails and the supply is conserved |
| Ledger.TokenTransferEffect | contract_instance_manager/src/contract_instance_evm.rs:34-52 | both balances move by the amount, a new recipient is a user account, self-transfers change nothing, refusals, each exactly in its case, change nothing, nonces and other rows stay |
| Ledger.TransferRunConservesIff | contract_instance_manager/src/contract_instance_evm.rs:34-52 | a sequence of transfers conserves the supply exactly when none of them overflows |
| Ledger.TransferRunConserves | contract_instance_manager/src/contract_instance_evm.rs:34-52 | below a supply of 2^128 every sequence conserves supply and nonces and never fails a conversion |
| Ledger.OverflowLosesTokens | account/src/account_manager.rs:89-130 | above that supply a transfer debits, fails to credit, and loses tokens |
| Ledger.StaleCopyMakesTokens | account/src/account_manager.rs:89-130 | a transfer with a copy from before another one makes tokens |
| StateOverlay.MergeAdopts | state/src/updated_state.rs:347-397 | merging a clone that only grew adopts it outright |
| StateOverlay.WriteMeans | state/src/updated_state.rs:530-865 | what each primitive write means to the reads that follow, exactly when it is refused, and that it leaves everything else alone |
| StateOverlay.MoveMeans | state/src/updated_state.rs:596-646 | exactly when a transfer happens, and what both accounts have then |
| StateOverlay.MoveRefines | state/src/updated_state.rs:596-646 | a transfer on overlay entries is the transfer on the plain accounts, and fails exactly when that does |
| StateOverlay.BumpRefines | state/src/updated_state.rs:565-576 | so is a nonce increment |
| StateOverlay.CreateRefines | state/src/updated_state.rs:648-654 | so is an account creation, refused exactly for an existing account |
| StateOverlay.DeleteSlotRefines | state/src/updated_state.rs:851-865 | a tombstone hides the database row |
| StateOverlay.FetchedSlotKeepsEffective | state/src/updated_state.rs:779-822 | caching a read, also of a missing slot, changes no state |
| StateOverlay.StoreEffectiveIff | state/src/updated_state.rs:40-48 | storing over an entry takes effect exactly when the entry was not read before, or read with the same value |
| StateOverlay.WriteRefinesIff | state/src/updated_state.rs:554-776 | a primitive write on an overlay is the plain write on the state it stands for, with the same success, exactly when it does not store over a different cached value |
| StateOverlay.CachedContractSurvivesStore | state/src/updated_state.rs:699-711 | a contract that was read stays, though another is stored over it |
| StateOverlay.CommitAccountRows | state/src/updated_state.rs:399-410 | fails exactly on a deleted account, else leaves the committed rows whatever the hash map order |
| StateOverlay.CommitWrites | account/src/state_pg.rs:102-133 | a commit writes balance and nonce of an updated account, and a row that exists keeps its kind |
| StateOverlay.CommitInsertRows | state/src/updated_state.rs:411-435 | contracts and instances are committed as stored, whatever the hash map order; fails exactly when one was deleted or its key has a row already |
| StateOverlay.CommitIsView | state/src/updated_state.rs:399-459 | committing makes the account, contract, instance and storage tables equal to the overlay's state |
| StateOverlay.WriteConsistent | state/src/updated_state.rs:530-654 | no write breaks the agreement of cached entries with the database |
| StateOverlay.WriteConserves | state/src/updated_state.rs:596-646 | no primitive write makes or destroys tokens |
| CallTree.Manager.Apply | execute/src/execute_contract_evm.rs:481-572 | writes one after another and stops at the first failure |
| CallTree.Manager.Frame | contract_instance_manager/src/contract_instance_evm.rs:711-777 | clone, run on a further clone, merge only on success |
| CallTree.Manager.Step | contract_instance_manager/src/contract_instance_evm.rs:544-778 | one action of a contract, with every early exit of calls and creates |
| CallTree.Manager.Run | contract_instance_manager/src/contract_instance_evm.rs:544-778 | all actions in order, to any depth |
| CallTree.FrameRefines | execute/src/execute_contract_l1xvm.rs:170-328 | a frame is the replay of its writes if it succeeds and of nothing if it fails |
| CallTree.EvmCallRefines | contract_instance_manager/src/contract_instance_evm.rs:639-777 | an EVM call is its flat replay, in all branches |
| CallTree.L1xCallRefines | contract_instance_manager/src/contract_instance_l1xvm.rs:81-166 | an L1XVM call is its flat replay, in all branches |
| CallTree.DeployRefines | contract_instance_manager/src/contract_instance_evm.rs:467-531 | a create is its flat replay, where the nonce bump belongs to the caller, on tables in which every contract and instance has an account |
| CallTree.CreateLeaves | execute/src/execute_contract_evm.rs:433-520 | a create leaves an EVM contract with the code, its instance and the event last whatever its constructor does; and around one that does nothing a system account with exactly the deposit, the caller with the deposit less and a nonce one higher, and nothing else changed |
| CallTree.CreateElse | contract_instance_manager/src/contract_instance_evm.rs:467-531 | a create that cannot start, or whose constructor fails, leaves a nonce bump at most |
| CallTree.CallLeaves | contract_instance_manager/src/contract_instance_evm.rs:697-777 | a call leaves the payment, unless it is static, and the event of its frame; one that fails, or whose payment does, leaves nothing |
| CallTree.PlainTransfer | contract_instance_manager/src/contract_instance_evm.rs:641-673 | a call to an address without a contract makes exactly the transfer asked for |
| CallTree.NothingToRun | contract_instance_manager/src/contract_instance_evm.rs:673-760 | a call to an XTALK contract, or to an instance without its contract, does nothing |
| CallTree.ValueRefusedIff | contract_instance_manager/src/contract_instance_evm.rs:697-711 | a value is refused before anything else happens exactly from u128::MAX on |
| CallTree.TreeIsFlatReplay | contract_instance_manager/src/contract_instance_evm.rs:467-777 | for every finite tree of calls and creates on such tables clone-run-merge equals replaying the writes whose enclosing frames all succeeded |
| CallTree.TreeRegisters | contract_instance_manager/src/contract_instance_evm.rs:467-531 | no call tree leaves a contract or instance without an account |
| CallTree.TreeConserves | contract_instance_manager/src/contract_instance_evm.rs:639-777 | no call tree makes or destroys tokens |
| CallTree.FailedCallLeavesNoTrace | contract_instance_manager/src/contract_instance_evm.rs:711-777 | a failed callee leaves the state as it was |
| CallTree.FailedCreateKeepsNonce | contract_instance_manager/src/contract_instance_evm.rs:467-531 | a failed create leaves exactly the nonce bump |
| CallTree.L1xDepositPaidByCaller | contract_instance_manager/src/contract_instance_l1xvm.rs:93-166 | for every callee body the caller pays the deposit exactly when the callee is not an EVM contract |
| CallTree.EvmCalleePaysItself | contract_instance_manager/src/contract_instance_l1xvm.rs:93-166 | a concrete call in which the EVM callee's deposit comes from itself |
| CallTree.TrapTransferPaidIff | evm_interpreter/src/call_create.rs:129-208 | the callee's frame is paid what the trap's transfer asks for exactly unless the scheme is CALLCODE with a value and another contract's code |
| CallTree.CallCodePaysCode | contract_instance_manager/src/contract_instance_evm.rs:697-760 | a concrete CALLCODE whose value ends up with the contract whose code ran |
| CallTree.CommittedTreeIsFlatReplay | state/src/updated_state.rs:399-459 | run on a fresh overlay and committed, a tree leaves the account, contract, instance and storage tables and the events of the flat replay, every contract still has an account, and the commit cannot fail |

## Left out

- Cassandra and RocksDB back ends: their stores behave differently, and nothing here is claimed for them.
- Signatures, hashing, key and address derivation: parameters; block hashes are any function of the block.
- Transaction execution inside a block, fees and reward transactions: `execute_block` succeeds, changes nothing, or is skipped.
- Database failures, and the rollback of a handler that fails half way: database calls are taken to succeed.
- Concurrency of handlers: the source runs them one at a time on one `Consensus` value.
- Block number 0 in block messages: the source subtracts one unsigned; messages are numbered from 1, as genesis is.
- Unbounded block numbers and heights: u128 overflow of block numbers is not modelled.
- Network and mempool channels, missed-block queries, node health and pings: no effect on the tables modelled.
- Single-node block production in mempool/src/mempool.rs and the system block command: they store and execute like `receive_block` without its checks.
- Vote result, validator and proposer tables: what they hold arrives as answers.
- Timestamp conversions to the database and back: timestamps are stored as given.
- Order of rows with equal sequence numbers: whatever the database returns.
- Gas, fees in the virtual machines, call depth, read-only propagation and precompiles: they only decide which actions a contract takes.
- Staking and transaction-metadata tables of the overlay: kept by the same cache discipline as accounts.
- `mint`: an unconditional credit.
- Masking with 31 and complement on the low 32 bits are written as arithmetic.
- Synchronisation on an archive node beside the handlers: only ExecutedAtMostOnce covers that interleaving; the chain theorems have sessions at start-up, as other nodes do.
- Votes across restarts: pending entries are not stored, so NoEquivocation and CorrectPeersAgree are about one node process; RestartIff says when a restart undoes them.
- StateOverlay.CommitInsertRows: an instance row is keyed by the instance address alone, not by instance and contract address, and the upsert of dev mode is not modelled.
- Panics inside a handler: UniqueVotes says when a count panics; what the process does then is not modelled.
- Relayed votes: a received vote that is passed on is recorded in `relayed`, not in `sent`, even if it carries the own key.
- Errors while a vote result or its validators are looked up in the database: taken as answers of the passing check.
- ConsensusVotes.BreaksIff: for nodes whose own key has an address, as the one a node is started with has.
- ConsensusElections.ElectedOnce: needs blocks that name the epoch of their own number, which the header check does not enforce; ElectionOrderIff has the condition for any header.
- Ledger.TokenTransferConserves: needs a supply below 2^128; the exact condition is in TransferConservesIff.
- ChainStore.BatchRefinesSequentialIff: needs the batch's transactions to fit the u32 sequence column and the numbers to be fresh and consecutive from the head.
- VoteAgreement.Agreement: takes it that no two 33-byte keys have one address; the 60 per cent product is modelled without f64 rounding.
- VoteAgreement.CorrectPeersAgree: takes it that nobody else's signature verifies under a node's key.
- NonceFilter.ValidateNonce: account nonces stay below the u128 maximum.
