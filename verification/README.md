# The BIP300 two-way peg of beth, verified

beth is a sidechain whose ether is backed by bitcoin held on the mainchain under BIP300. Deposits
on the mainchain are credited from a genesis-funded vault contract; withdrawal requests are locked
in a queue contract, batched into bundles, paid by a mainchain "M6" transaction if miners accept
it, and refunded if they do not. This project models that peg as one system and proves what its
safety rests on, over every run: any mainchain, any depositors and requesters (including contracts
that re-enter the queue while they are being paid), any number of blocks.

## How the model is laid out

| file | what it holds |
|---|---|
| `byte_codec.dfy` | integers of fixed width, CompactSize, round trips and prefix-freeness |
| `m6.dfy` | the M6 transaction down to its bytes, weight prediction, what an m6id determines |
| `ranking.dfy`, `aggregation.dfy` | the order in which destinations compete; requests grouped by destination |
| `selection.dfy`, `selection_laws.dfy` | the bundle selector as it runs, and what a selection promises |
| `queue_storage.dfy`, `storage_reader.dfy` | Solidity's storage layout of the queue, and the node's raw-slot reader |
| `peg_state.dfy`, `escrow.dfy`, `lifecycle_call.dfy` | the two contracts as state functions; where every wei is; exactly when a lifecycle call is accepted and what it does |
| `contracts.dfy` | the contracts as objects that update their storage in place, proved equal to those functions |
| `mainchain.dfy`, `raw_events.dfy` | mainchain ranges and the enforcer's folds; what the folds list, told from the events in the blocks themselves |
| `lifecycle_update.dfy`, `block_step.dfy` | the lifecycle update; the work at the start of each block |
| `block_effect.dfy`, `peg.dfy`, `history.dfy`, `bundles.dfy`, `outcomes.dfy`, `payments.dfy`, `backing.dfy`, `drain.dfy` | what one block does, and the invariants of a run |
| `on_mainchain.dfy` | a branch against the events of its mainchain path: what it has processed, what is assumed of the enforcer, what the treasury holds |
| `runs.dfy` | the main theorems, from genesis |
| `inside_blocks.dfy` | solvency between the steps of a block, on every branch |

Code that changes state step by step is modelled by methods and classes: the queue, the vault and
the EVM around them are classes; the selector, the reader, the enforcer's folds and the block step
are methods with loops. Each is proved equal to a function, and the theorems are about those
functions. `IntoValues` hands out the hash map's values in an arbitrary order, so that determinism
has to be proved. External calls are adversarial: the recipient performs any sequence of actions
and then returns or reverts, and a revert undoes all of them.

## What is assumed

Except for the last, every assumption is a `requires` of the theorem that needs it.

- `ApartThroughout` (`Apart`): keccak256 gives the storage places in use different slots, and
  fewer than 2^64 requests were ever made.
- `CollisionFree` (`NoCollision`): no two assigned bundles collide under double-SHA256 or keccak256.
- `Faithful`: a bundle this branch assigned has at most one terminal outcome on the mainchain path,
  and it comes after the mainchain block that the assigning block names. `FaithfulExactly` restates it
  in terms of the events in the path's blocks.
- `DebitsAsCommitted`: a success takes the bundle's payouts plus its committed fee from the treasury.
- `Replies`: the enforcer returns the blocks of a range, or an error when the start is not an
  ancestor of the end. `Tree`: a block's parent is lower than the block.
- `FewMinted`: what blocks' EIP-4895 lists have minted leaves the supply within 2^64 sats. Nothing at
  all is minted while those lists are empty, as the payload builder makes them (`NoListsNothingMinted`).
- Gas suffices; this one is built into the model.

## Where the code and its documentation differ

- `src/withdrawal_bundle.rs:231` says that nothing is selected only if no destination fits. The
  loop stops at the first candidate that does not fit: `FirstCandidateBlocksOthers` gives two
  requests, of which the shorter would fit alone, and `NothingSelectedExactlyWhen` the exact
  condition. `PromiseKeptExactly` says for which requests the documented promise is kept.
- `contracts/DepositVault.sol:4-10` calls the cap on cumulative credits absolute. Ether can be
  forced back into the vault and is then credited again: `ForcedEtherLiftsCap` exceeds the cap by
  one sat, `CreditKeepsCapExactly` says which credits keep the total within the cap, from the state
  before the credit, and `EveryBranchIsSafe` that it is kept as long as no more than the reserve was
  ever deposited.
- `src/enforcer.rs:164-169` calls a deposit's address an arbitrary string chosen by the depositor, and
  `contracts/DepositVault.sol:25-31` wants one bad recipient not to block the others. But a string
  that is not an Ethereum address fails the whole fold, and with it every block whose range
  contains the deposit: `ValidExactlyWhenWellFormed` gives the exact condition, and
  `MalformedEventStopsBranch` shows that no branch ever gets past such a mainchain block.
- A request whose script has more than 99,874 bytes is accepted by the contract and never bundled
  (`LongRequestsStayForever`); while its destination ranks first no request is
  (`AssignsExactlyWhenFirstFits`).
- `contracts/DepositVault.sol:25-30` says that a credit fails only when its recipient rejects it. It also
  fails when the vault has run dry, which the sum of all deposits can bring about, since the ether of
  confirmed withdrawals stays in the queue and never returns to the vault: `DryVaultFailsCredit` gives
  two such deposits, and `CreditRecordedExactly` the exact condition of every credit of every block. No
  credit fails for that reason as long as no more than the reserve was ever deposited
  (`DepositWithinReserveIsCredited`).
- `src/payload.rs:168` builds blocks with an empty EIP-4895 list, and nothing in this repository checks
  that of other blocks. A list mints ether with nothing behind it: the backing equation carries the sum,
  and the treasury is shown to cover everything when it is zero.
- The committed height saturates at 32 bits, so it does not by itself keep two bundles' m6ids apart.
  `M6idsDistinct` does not need it: an m6id determines the indices, and no index is used twice.
- `src/evm.rs:341-352` commits the lifecycle call without looking at whether it reverted. The model
  does the same; `LifecycleCallNeverReverts` is what makes that harmless.

## Model

| member | source | states |
|---|---|---|
| M6.RequestsCommitment | src/withdrawal_bundle.rs:317-324 | the loop commits to the whole index list, in order, followed by the height |
| M6.CommitmentBytes | src/withdrawal_bundle.rs:317-324 | each byte of the commitment's preimage: eight bytes an index, four for the height, most significant first |
| M6.FixedOutputBytes | src/withdrawal_bundle.rs:334-357 | the two fixed outputs: no value, OP_RETURN, one push, the fee or the commitment most significant byte first |
| M6.BundleBytes | src/withdrawal_bundle.rs:358-367 | the whole serialised transaction around its payouts: version two, no input, lock time zero |
| M6.TxOutBytes | src/withdrawal_bundle.rs:290-296 | an output's eight value bytes, least significant first, and its script |
| ByteCodec.CompactSizeRoundTrip | src/withdrawal_bundle.rs:376-383 | a length written as a CompactSize is read back, whatever follows it |
| M6.CommitmentPreimageInjective | src/withdrawal_bundle.rs:317-324 | the commitment's preimage determines index list and height, for all lengths |
| M6.M6idDeterminesBundle | src/withdrawal_bundle.rs:326-372 | bundles with one m6id have the same indices, height, fee and payouts unless a hash collides |
| M6.BundleBytesInjective | src/withdrawal_bundle.rs:362-367 | two blinded transactions with the same bytes are the same transaction |
| M6.OutputsPrefixFree | src/withdrawal_bundle.rs:358-361 | a serialised list of outputs can be parsed in only one way, whatever follows it |
| M6.TxOutSizeExact | src/withdrawal_bundle.rs:376-383 | the size formula is the serialised length, and fails exactly when that exceeds 32 bits |
| M6.TreasurySpendSize | src/withdrawal_bundle.rs:385-389 | the serialised size of an M6 with its treasury input attached, from its bytes |
| M6.PredictWeightReduction | src/withdrawal_bundle.rs:390-477 | all the checked 32-bit arithmetic amounts to CompactSize(n+2) + sum <= 99,888 |
| M6.WeightPredictionExact | src/withdrawal_bundle.rs:390-477 | the prediction is the BIP141 weight of the real transaction, and None exactly above 400,000 |
| Ranking.LexLessExactly | src/withdrawal_bundle.rs:262-268 | one script is less than another exactly when, at the first place where they differ, it ends or has the smaller byte |
| Ranking.BeforeIsStrictTotalOrder | src/withdrawal_bundle.rs:258-268 | the comparison is a strict total order: no two destinations tie |
| Ranking.RankingUnique | src/withdrawal_bundle.rs:258-268 | a set of destinations can be ranked in one way only |
| Ranking.AscendingUnique | src/withdrawal_bundle.rs:302 | sorting the indices has one possible result |
| Aggregation.AnyOrderGivesRanked | src/withdrawal_bundle.rs:261-268 | whatever order the hash map's values come out in, sorting gives the same list |
| Aggregation.RankedIgnoresOrder | src/withdrawal_bundle.rs:240-268 | permuting the requests changes no rank and no group's set of indices |
| Selection.GroupByDestination | src/withdrawal_bundle.rs:240-256 | the map holds, for exactly the destinations that occur, the totals and indices of their requests |
| Selection.IntoValues | src/withdrawal_bundle.rs:261 | the map's values in an arbitrary order: each group once, nothing else |
| Selection.PackDestinations | src/withdrawal_bundle.rs:270-298 | the packing loop takes the longest prefix of the representable destinations that fits |
| Selection.LongestFitIsThreshold | src/withdrawal_bundle.rs:270-298 | a prefix of the candidates fits if and only if it is no longer than the packed one |
| Selection.FitsMeansStandard | src/withdrawal_bundle.rs:287-289 | fitting means that the real transaction is within the standard weight |
| Selection.SelectWithdrawalBundle | src/withdrawal_bundle.rs:232-309 | the imperative selector computes the specified selection |
| SelectionLaws.SelectionCanonical | src/withdrawal_bundle.rs:240-309 | any permutation of the pending list gives the same bundle, byte for byte |
| SelectionLaws.ChosenIsLongestStandardPrefix | src/withdrawal_bundle.rs:270-298 | the first k candidates make a standard M6 if and only if they are among those chosen |
| SelectionLaws.SelectedIsStandard | src/withdrawal_bundle.rs:227-298 | every bundle returned is standard once its input is attached |
| SelectionLaws.FitsAlone | src/withdrawal_bundle.rs:287-289 | an output fits a bundle alone if and only if its script has at most 99,874 bytes |
| SelectionLaws.NothingSelectedExactlyWhen | src/withdrawal_bundle.rs:231-298 | nothing is selected exactly when there is no candidate or the first does not fit alone |
| SelectionLaws.FirstCandidateBlocksOthers | src/withdrawal_bundle.rs:231-289 | a concrete list where the first candidate blocks another that would fit |
| SelectionLaws.PromiseKeptExactly | src/withdrawal_bundle.rs:231-298 | the documented promise is kept exactly when no pending script fits alone or the first candidate does |
| SelectionLaws.LongIsNeverPaid | src/withdrawal_bundle.rs:270-298 | a script too long to fit alone is never paid, whatever is pending beside it |
| SelectionLaws.ShortRequestsAreSelected | src/withdrawal_bundle.rs:232-309 | when every pending script fits alone, any pending request yields a bundle |
| SelectionLaws.CandidatesAre | src/withdrawal_bundle.rs:274-281 | exactly the destinations whose output 32 bits cannot size are skipped |
| SelectionLaws.TakenOutrankLeft | src/withdrawal_bundle.rs:262-298 | no destination left out pays a higher fee, or the same fee and a higher value, or ties and has, at the first place where they differ, the greater script, than one taken |
| SelectionLaws.PayoutsDescend | src/withdrawal_bundle.rs:258-298 | a bundle's payouts descend by the fees offered for their scripts, then by value, then by script |
| SelectionLaws.ConsumesWholeDestinations | src/withdrawal_bundle.rs:240-302 | the indices are those of all requests to the paid destinations, in ascending order; for distinct indices each destination goes in all or not at all, each index once |
| SelectionLaws.BundlePaysWhatItConsumes | src/withdrawal_bundle.rs:251-308 | the outputs never exceed what the paid destinations are owed and equal it exactly when no total saturates; the committed fee is their fees up to 64 bits; both are the consumed requests' own sums when everything fits |
| SelectionLaws.PaysEachDestinationItsRequests | src/withdrawal_bundle.rs:251-308 | each paid script is paid once, what all its requests asked for up to 64 bits |
| QueueStorage.PushStored | contracts/WithdrawalRequestQueue.sol:108-109 | appending a request keeps the raw slots in step with the queue's meaning |
| QueueStorage.SetStatusStored | contracts/WithdrawalRequestQueue.sol:141-160 | so does writing a status |
| QueueStorage.SetBundleStored | contracts/WithdrawalRequestQueue.sol:142 | so does writing a bundle's m6id |
| QueueStorage.UnwrittenIsZero | src/withdrawal_bundle.rs:84-122 | an entry never written means what its zero slots say |
| StorageReader.ReadDynamicBytes | src/withdrawal_bundle.rs:164-183 | the chunk loop ends and returns the first `length` bytes from the hashed slot on |
| StorageReader.ReadAllRequests | src/withdrawal_bundle.rs:84-122 | the reader's loop reads every entry below the counter, or aborts at the first it cannot |
| StorageReader.EntrySlotMatchesSolidity | src/withdrawal_bundle.rs:144-149 | the 64-byte preimage is Solidity's encoding of the index and the mapping's slot |
| StorageReader.HeadRoundTrip | src/withdrawal_bundle.rs:189-197 | decoding a stored head gives the data when inline, its length when not |
| StorageReader.HeadExactly | src/withdrawal_bundle.rs:189-197 | what any head word decodes to, also one the contract never writes |
| StorageReader.BytesRoundTrip | src/withdrawal_bundle.rs:162-197 | reading Solidity bytes inverts writing them, for every byte string |
| StorageReader.ReaderInvertsLayout | src/withdrawal_bundle.rs:84-159 | reading the raw slots gives exactly the request list, and no 64-bit clamp is taken |
| Contracts.Evm.Perform | contracts/WithdrawalRequestQueue.sol:96-111 | a request that is rejected or cannot be paid for changes nothing at all |
| Contracts.Evm.TransferTo | contracts/WithdrawalRequestQueue.sol:162 | a transfer that fails, for lack of funds or because its recipient reverts, is undone whole |
| Contracts.WithdrawalRequestQueue.RequestWithdrawal | contracts/WithdrawalRequestQueue.sol:96-111 | every check, in order; an accepted request is appended and its ether locked |
| Contracts.WithdrawalRequestQueue.SystemReportBundleLifecycle | contracts/WithdrawalRequestQueue.sol:130-169 | the three loops in place, re-entrancy included, and full rollback when a check fails |
| Contracts.WithdrawalRequestQueue.Bundle | contracts/WithdrawalRequestQueue.sol:138-144 | the bundling loop as the state function says |
| Contracts.WithdrawalRequestQueue.Confirm | contracts/WithdrawalRequestQueue.sol:146-151 | the confirming loop as the state function says |
| Contracts.WithdrawalRequestQueue.Refund | contracts/WithdrawalRequestQueue.sol:153-168 | status first, then the call, whose failure is recorded and not retried |
| Contracts.DepositVault.SystemCreditDeposits | contracts/DepositVault.sol:42-51 | each recipient in turn, a rejection leaving the others alone; a second array too short or an amount too large reverts the whole call |
| PegState.DepositsAreCredited | src/deposit_vault.rs:37-51 | the arrays a node passes for its deposits never panic and credit the deposits in turn |
| Escrow.ActionsKeepBooks | contracts/WithdrawalRequestQueue.sol:96-111 | no sequence of outside actions unbalances escrow, vault or supply |
| Escrow.RequestAcceptedExactly | contracts/WithdrawalRequestQueue.sol:101-107 | on the inputs alone: which requests are accepted, and which error each other one gets |
| Escrow.RequestEffect | contracts/WithdrawalRequestQueue.sol:96-111 | an accepted request that is paid for stands, pending, at the old counter with its sender, script, value and fee, its ether in escrow; any other changes nothing |
| Escrow.AcceptedAmount | contracts/WithdrawalRequestQueue.sol:101-109 | an accepted request is its sender's, pays at least one sat, and locks exactly its value plus its fee, within 64 bits |
| Escrow.CreditsKeepBooks | contracts/DepositVault.sol:42-51 | the books hold after any number of credits to re-entrant recipients; each deposit is recorded once, in order, for its address, and is made exactly if the vault can pay it and its recipient takes it |
| Escrow.RecordedIsDeposited | contracts/DepositVault.sol:42-51 | what the deposits add up to was credited, rejected, or beyond what the vault could pay |
| Escrow.FundedExactlyWhen | contracts/DepositVault.sol:47-48 | the vault can pay a credit exactly when that keeps the total within the reserve and what was forced in |
| Escrow.WithinReserveAllFunded | contracts/DepositVault.sol:4-10 | while no more than the reserve was deposited, no credit fails but by rejection |
| Escrow.DryVaultFailsCredit | contracts/DepositVault.sol:25-30 | two deposits nobody rejects, of which the vault cannot pay the second |
| Escrow.SystemCreditExactly | contracts/DepositVault.sol:38-51 | a credit call is accepted exactly from the system, with an amount for each recipient that fits a word in wei; each credit is recorded in order, as made exactly if funded and taken |
| Escrow.CreditRunsRecipient | contracts/DepositVault.sol:46-49 | a credit lets its recipient run, re-entrancy included, exactly if funded and taken, and otherwise leaves only its record |
| Escrow.MintsKeepBooks | src/payload.rs:168 | an EIP-4895 list, where a block carries one, unbalances neither escrow nor vault and is accounted for in the supply |
| Escrow.MintsArrive | src/payload.rs:168 | its ether reaches the payees it names |
| Escrow.CreditsCapped | contracts/DepositVault.sol:4-10 | cumulative credits exceed the reserve by at most the ether forced in, and stay within it exactly while the vault holds that ether |
| Escrow.ForcedEtherLiftsCap | contracts/DepositVault.sol:4-10 | two deposits and one forced sat exceed the reserve |
| Escrow.CreditKeepsCapExactly | contracts/DepositVault.sol:4-10 | a credit keeps the total within the reserve if and only if it fails or leaves the vault no less than was forced into it |
| Escrow.SolventInsideCredit | contracts/DepositVault.sol:46-49 | after each action of a credit's recipient the books balance but for the credit on its way |
| Escrow.SolventInsideRefund | contracts/WithdrawalRequestQueue.sol:157-162 | a refund is always funded, and the books balance after every action of its recipient |
| Escrow.RefundKeepsBooks | contracts/WithdrawalRequestQueue.sol:155-167 | a refund sends the requester its value plus its fee, succeeds exactly when the requester takes it, and its event says all of this |
| Escrow.RefundRunsRequester | contracts/WithdrawalRequestQueue.sol:155-167 | the request is marked before its requester runs; a refund it rejects leaves the mark and the record |
| LifecycleCall.LifecycleExactly | contracts/WithdrawalRequestQueue.sol:130-169 | a call that bundles existing requests, and resolves any, is accepted exactly for the system caller and lists that pass, and then moves exactly the listed requests |
| LifecycleCall.BundlesBeyondCounter | contracts/WithdrawalRequestQueue.sol:138-144 | an index beyond the counter passes for a pending request and is bundled |
| LifecycleCall.RefundExactly | contracts/WithdrawalRequestQueue.sol:153-168 | for any indices: the loop passes exactly on distinct bundled requests; re-entrant recipients can append to the queue and touch nothing being resolved |
| LifecycleCall.SolventThroughoutRefunds | contracts/WithdrawalRequestQueue.sol:153-168 | from balanced books: every refund the loop reaches is funded, and the books balance after each action of its requester |
| LifecycleCall.LifecycleKeepsBooks | contracts/WithdrawalRequestQueue.sol:130-169 | an accepted call keeps books and storage and logs one refund for each failed index, failed exactly if its requester rejects it |
| Mainchain.Collect | src/enforcer.rs:192-219 | the nested loops add up to the fold of the range's events, and the first error is final |
| Mainchain.Deposits | src/enforcer.rs:160-222 | the deposits of exactly the blocks after the start up to the end |
| Mainchain.WithdrawalBundleEvents | src/enforcer.rs:246-307 | the outcomes of exactly those blocks |
| Mainchain.PathExactly | src/enforcer.rs:160-162 | a range is the one sequence of blocks, each the parent of the next, from just above its start to its end |
| Mainchain.PathsJoin | src/enforcer.rs:160-162 | a range up to a block and the range from that block join into one |
| Mainchain.PathDistinct | src/enforcer.rs:160-162 | no block is in a range twice |
| Mainchain.RangesJoin | src/enforcer.rs:160-222 | consecutive ranges report together what the joint range reports |
| Mainchain.WellFormedExactly | src/enforcer.rs:204-302 | both folds succeed exactly when every event has its fields, a deposit an Ethereum address and an m6id 32 bytes |
| RawEvents.DepositsListed | src/enforcer.rs:204-218 | a fold that succeeds lists, in order, one deposit for each complete deposit event in the path's blocks, with its address and sats, and nothing else |
| RawEvents.OutcomesListed | src/enforcer.rs:283-303 | likewise one outcome for each event that reports a status for an m6id, with that m6id and that status |
| RawEvents.FirstUnreadableDecides | src/enforcer.rs:204-302 | the first event that cannot be read decides each fold's error |
| RawEvents.DepositedIsOnPath | src/enforcer.rs:204-218 | the deposits add up to the sats that the events bring in |
| Mainchain.M6idByteOrder | src/enforcer.rs:364-376 | stored m6id bytes parse back to the m6id; reversed ones do so only for a palindrome |
| LifecycleUpdate.ComputeLifecycleUpdate | src/withdrawal_bundle.rs:539-585 | the one function builders and validators call computes the specified update |
| LifecycleUpdate.ResolvedMembers | src/withdrawal_bundle.rs:544-559 | an index is listed exactly when its request is bundled and its bundle's outcome is reported |
| LifecycleUpdate.ResolvedInOrder | src/withdrawal_bundle.rs:544-559 | the resolved requests are listed in the order of their outcomes, those of one bundle in queue order |
| LifecycleUpdate.PendingIs | src/withdrawal_bundle.rs:561-570 | the candidates are exactly the queue's pending requests, each once |
| LifecycleUpdate.BundledMembers | src/withdrawal_bundle.rs:571-577 | the bundle's indices exist, are pending and are distinct |
| LifecycleUpdate.UpdateAcceptedExactly | src/withdrawal_bundle.rs:530-585 | the contract takes the update, after the block's credits, exactly when no awaited bundle is resolved twice in the range |
| BlockStep.MainHashExactly | src/evm.rs:303-305 | a header names the mainchain block whose 32 hash bytes are its extraData, and none for any other length |
| BlockStep.BlockExecutor.ApplyPreExecutionChanges | src/evm.rs:287-355 | credits, then the update read from the parent's storage, then the lifecycle call, whatever its result; errors of the extraData, of either fold and of the reader stop it |
| BlockStep.BroadcastIsAssigned | src/payload.rs:111-120 | the bundle a builder broadcasts is the one every node assigns in the block built |
| BlockEffect.MovesAreNext | src/withdrawal_bundle.rs:539-585 | the computed lists move each request as its own status and its bundle's outcome say, and no other way |
| BlockEffect.RefundsLogGrows | contracts/WithdrawalRequestQueue.sol:153-168 | the log gains exactly one event for each request that became refunded, to its requester, for all it locked, failed exactly if rejected |
| BlockEffect.BlockKeepsAll | src/evm.rs:287-355 | one whole block, users and EIP-4895 list included: books, storage, moves, refunds, credits and what is minted |
| Peg.ExtendCatchesUp | src/evm.rs:296-334 | after every block the branch has processed the whole mainchain path to the block it names |
| OnMainchain.EventsProcessedOnce | src/evm.rs:296-334 | that path leads from the first mainchain block, has each block once, and what was processed is one entry for each deposit and each report in those blocks, in order |
| Peg.SeenKept | src/evm.rs:303-339 | what was processed when a bundle was assigned is what the mainchain block named then closes, and that block stays on the path |
| History.NextIsOneEdge | contracts/WithdrawalRequestQueue.sol:29-40 | a block moves a request along at most one edge of its lifecycle and changes nothing else of it |
| History.RefundsStayLogged | contracts/WithdrawalRequestQueue.sol:164-167 | at most one refund is ever attempted for a request, to its requester and for all it locked, and it fails only if that requester rejects it |
| Bundles.PartitionKept | src/withdrawal_bundle.rs:561-585 | assigned bundles partition the requests that have left Pending |
| Bundles.M6idsDistinct | src/withdrawal_bundle.rs:311-324 | a new m6id is always fresh on its branch |
| Bundles.BundleIsWhatWasSelected | src/withdrawal_bundle.rs:546-552 | the requests carrying an m6id are exactly those one selection chose |
| Bundles.AtomicKept | src/withdrawal_bundle.rs:546-559 | requests that share an m6id share their status after every block |
| Outcomes.HonestKept | src/withdrawal_bundle.rs:546-559 | no request is confirmed or refunded without the matching outcome, whatever the enforcer reports |
| OnMainchain.FaithfulExactly | src/enforcer.rs:246-248 | what is assumed of the enforcer is that the path's blocks hold at most one verdict on each assigned bundle, above the block named at its assignment |
| Outcomes.AlwaysAccepted | src/evm.rs:336-352 | with a faithful enforcer the lists pass every check of the contract |
| Outcomes.FateSettles | src/withdrawal_bundle.rs:546-559 | a verdict, once in, is not changed by anything reported later |
| Outcomes.FatedKept | src/withdrawal_bundle.rs:546-559 | every request stands where the mainchain's verdict on its bundle puts it |
| Payments.NothingSaturates | src/withdrawal_bundle.rs:251-255 | the escrow, hence the supply, bounds every sum: no saturating addition saturates |
| Payments.SelectedDebit | src/withdrawal_bundle.rs:290-308 | a bundle's outputs plus committed fee are its requests' values plus fees |
| Payments.BalancedKept | contracts/WithdrawalRequestQueue.sol:138-144 | every assigned bundle debits exactly what the requests it holds had locked |
| Payments.ItemisedKept | src/withdrawal_bundle.rs:290-296 | every payout of every assigned bundle stays worth exactly what the requests the bundle holds asked to be paid to its script |
| Backing.PaidIsConfirmed | contracts/WithdrawalRequestQueue.sol:33-34 | what the mainchain paid for this branch's bundles is what the confirmed requests had locked |
| Backing.FullyBacked | contracts/DepositVault.sol:4-10 | treasury sats, plus what was minted, equal circulation plus open escrow plus what was rejected, could not be credited, was burned or forced away |
| OnMainchain.TreasuryIs | contracts/DepositVault.sol:4-10 | what was deposited and paid out is what the events in the path's blocks bring in and take out |
| Drain.TakesWholeDestinations | src/withdrawal_bundle.rs:232-309 | a block takes exactly the paid destinations off the queue |
| Drain.BlockDrains | src/withdrawal_bundle.rs:232-309 | with short scripts and no new request each block strictly lowers the number of pending destinations |
| Drain.LongStaysPending | src/withdrawal_bundle.rs:270-298 | a pending request with too long a script is exactly as it was after any block |
| Runs.GenesisInvariant | genesis.json:21-32 | the genesis state satisfies every invariant of a run |
| Runs.ExtendKeepsInvariant | src/evm.rs:287-355 | every block keeps them |
| Runs.EveryBranchIsSafe | contracts/WithdrawalRequestQueue.sol:96-169 | on every branch: exact escrow, capped credits, conserved supply, each deposit and each report in the path's blocks once and in order, each deposit recorded once for its address and credited unless rejected or beyond the reserve, each refund to its requester once and failed only if rejected, no status that no block of the path reports |
| Runs.DepositsWithinReserveAreCredited | contracts/DepositVault.sol:25-30 | on every branch with no more than the reserve deposited, every deposit was credited unless its recipient rejected it |
| Runs.NoListsNothingMinted | src/payload.rs:168 | on every branch whose blocks carry no EIP-4895 list nothing was minted |
| Runs.EveryBranchIsReadable | src/withdrawal_bundle.rs:84-159 | on every branch the raw slots read as exactly the requests the contract means |
| Runs.ValidExactlyWhenWellFormed | src/evm.rs:296-334 | a block's protocol work succeeds exactly when it names a mainchain block at or after its parent's and every event in between is well formed; the reader never aborts |
| Runs.InvalidBlockError | src/evm.rs:296-334 | which error stops a block that is not valid |
| Runs.MalformedEventStopsBranch | src/enforcer.rs:204-218 | a mainchain block with a malformed event is on no branch's path |
| Runs.SameMainBlockAgain | src/evm.rs:303-334 | a block may name its parent's mainchain block again: it is valid and processes nothing twice |
| Runs.RequestsOnlyEvolve | contracts/WithdrawalRequestQueue.sol:29-61 | between any two points of a branch: Pending, Bundled, then Confirmed or Refunded; other fields fixed; m6id written once |
| Runs.BundlesResolveAtomically | src/withdrawal_bundle.rs:539-585 | on every branch a bundle is one the builder makes at its block's number, its requests are exactly one selection's, and they resolve together |
| Runs.EveryPayoutIsOwed | src/withdrawal_bundle.rs:290-308 | on every branch each payout of each bundle is exactly what the requests it holds asked to be paid to that script, once, and none of them is left unpaid |
| Runs.StatusTracksMainchain | src/withdrawal_bundle.rs:546-559 | on every branch Confirmed if and only if some block of the path reports with the bundle's own 32 m6id bytes that it succeeded, Refunded if and only if one reports that it failed |
| Runs.LifecycleCallNeverReverts | src/evm.rs:341-352 | the call whose result is committed unseen is accepted in every block |
| Runs.EveryBranchIsBacked | contracts/DepositVault.sol:4-10 | on every branch the peg is fully backed, to the wei, by what the deposit events of the path's blocks bring in less what the successes reported there take out |
| Runs.QueueDrains | src/withdrawal_bundle.rs:232-309 | from any state, when no request arrives, k pending destinations are all assigned within k blocks if and only if every pending script fits alone |
| Runs.LongRequestsStayForever | src/withdrawal_bundle.rs:270-298 | a pending request with too long a script is never assigned on any extension of the branch |
| Runs.AssignsExactlyWhenFirstFits | src/withdrawal_bundle.rs:270-301 | a block assigns a bundle exactly when some candidate is pending and the first ranked fits alone |
| InsideBlocks.SolventInsideEveryCredit | contracts/DepositVault.sol:42-51 | on every branch, before each credit and after each action of its recipient, the escrow is solvent and everything accounted for |
| InsideBlocks.CreditRecordedExactly | contracts/DepositVault.sol:46-49 | on every branch each credit is recorded as made exactly when its recipient takes it and the total stays within the reserve and what was forced in |
| InsideBlocks.DepositWithinReserveIsCredited | contracts/DepositVault.sol:46-49 | on every branch, while no more than the reserve was deposited, a block's credit is made exactly when its recipient takes it |
| InsideBlocks.CallRefundsFromStart | src/evm.rs:341-352 | a block's lifecycle call is its refunding loop run from the state its other two loops leave |
| InsideBlocks.SolventInsideEveryRefund | contracts/WithdrawalRequestQueue.sol:153-168 | on every branch, each refund is funded when its turn comes, and the books balance after each action of its requester |
| InsideBlocks.SolventAfterEveryAction | contracts/WithdrawalRequestQueue.sol:96-111 | on every branch the books balance after each action of a block's users |

## Left out

- LifecycleExactly: speaks of calls that bundle existing indices; the contract would also bundle an
  index beyond the counter (`BundlesBeyondCounter`), and `ListsBelow` shows that no update lists one.
- LifecycleKeepsBooks: likewise speaks of calls that bundle existing indices.
- ApplyPreExecutionChanges: does not model a missing parent header, errors of the state provider, of the
  inner executor's own pre-execution changes, or of the EVM itself; each of them stops the block.
- CreditsCapped: is the cap with the ether forced into the vault added, because without it the
  documented cap is false (see `ForcedEtherLiftsCap`, and `CreditKeepsCapExactly` for when it holds).
- M6id: is the hash of the serialisation without witness marker; the bytes handed to the enforcer's
  wallet for a transaction without inputs carry that marker, and are not modelled.
- The treasury's own change output and the signature of its input, which the enforcer attaches:
  `TreasurySpend` adds one input with an empty scriptSig, as the prediction assumes.
- keccak256 and double-SHA256: abstract functions.
- The library's sorting algorithms: insertion sort stands for both.
- gRPC transport, hexadecimal and address-string parsing: a reply's addresses come parsed or marked
  malformed, its m6ids as the bytes their hexadecimal stands for.
- BMM acceptance (`is_committed`, `src/consensus.rs`): a membership test over an RPC reply.
- ABI encoding of the system calls, gas, logs other than the two that record transfers, and
  ordinary transactions: users appear as requests, forced transfers and burned fees, everything
  else moves ether within circulation. Ether outside the two contracts is one total, not a balance
  per account; the two logs say to whom each credit and refund was sent.
- reth's own block processing (`src/main.rs`, `src/chainspec.rs`, builders, delegation).
- Mainchain voting: outcomes are whatever the mainchain's blocks say.
