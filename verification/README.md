# Invoice Liquidity Network, modelled in Dafny

This project models the stateful core of the Invoice Liquidity Network contracts and proves what
holds of it in every run. `dafny verify dfyconfig.toml` checks the whole project.

## What is modelled

**Governance contract** (`contracts/iln_governance/src/lib.rs`). `Governance` is the contract as a
state machine over values: storage, published events, and one function per entry point that gives the
new state and the outcome (`Done`, a returned error, or a trap). The environment is part of the
machine: ledgers close, token balances move, temporary entries are archived at any moment, and the
cross-contract call of an execution succeeds or fails freely. `GovContract` and `DelegationStore` are
the same entry points as classes that update their fields step by step, each proved equal to its
function on values.

- `ChainGraph`, `Delegation`, `DelegationStore`: the delegation graph, its reverse index, the cycle and
  depth checks, and the iterative memoised longest-path search.
- `DelegationTally`, `DelegationRuns`, `GovernanceDelegation`: when the stored weights are the sums they
  stand for, for the delegation book alone and in runs of the whole contract.
- `GovernanceInvariant`, `GovernanceSteps`, `GovernanceRuns`: the invariant, its preservation by every
  call, and the safety theorems over whole runs. The invariant compares two independent accounts of
  each proposal: what storage says, and what a reader of the event log reconstructs.
- `GovernanceEscrow`, `GovernanceTokens`, `GovernanceVotes`, `GovernanceVeto`, `GovernanceProgress`:
  deposits and who is paid, votes and balance proofs, the veto multisig, and when a vote closes.
- `Acceptance`, `GovernanceSettings`: which calls are accepted, with which error or effect, told from the
  state before the call; and which settings are in force at any moment of a run.
- `VoteAccount`, `VoteSupply`: the weight cast on a proposal, vote by vote, and set against the tokens
  that exist.
- `FailingRuns`: runs from the initial state in which a documented promise fails.
- `IntegerSqrt`, `ProposalPaging`, `PagingRuns`: quadratic weights and the paged listing.

**Insurance claim allocation** (`ClaimAllocation`, `AllocationLaws`, `AllocationExact`), **reward
distribution** (`RewardDistribution`, `RewardHistory`), the **admin action log** (`AdminLog`) and **backup
retention** (`Calendar`, `Retention`, `RetentionLaws`, `RetentionExact`) follow the same plan: the code in
its own form, a specification on values, and laws about the specification. The modules ending in `Exact`
and `RewardHistory` say what the specification computes without mentioning its functions. `MachineInts`, `Outcomes`, `Tokens` and `Sorting` are shared.

## How to read the run theorems

A run is a sequence of states, each obtained from the one before by one operation. A comment of the
code (lib.rs:332-335) says that the host discards the writes of a call that returns an error, yet the
code writes `Rejected` and then returns an error (lib.rs:1977-1989). Every run theorem therefore takes
a `Reading`, `KeepOnError` or `DiscardOnError`, and holds for both unless it names one. A trap always
discards the writes.

## Where the code and its documentation disagree

The model follows the code. Each promise below fails for some input. The project gives one and proves
the exact condition under which the promise holds.

- Chain depth at most the cap (docs/formal-verification.md:525-526): lowering the cap leaves longer
  chains behind. It holds throughout a run exactly when no call cuts the cap below an existing chain and,
  at a cap of u32::MAX, where the check of the sum never fails, no new edge completes a longer one.
  Resolving an address returns a true sink under exactly the same condition. With the largest cap so far
  in place of the current one the bound always holds (with fewer than 2^32 delegators if that is u32::MAX).
- Tallies equal the delegators' balances (docs/formal-verification.md:558-559): redelegating an address
  that has delegators leaves their weight where it was. The exact guard is given per operation, and a
  caller's discipline that always meets it.
- Total vote weight within the supply (docs/formal-verification.md:626-641): tokens may vote in one
  account, move and vote in another; and a delegator may vote beside the end of their own chain. Each vote
  speaks for the voter and the delegators behind them. In every run the weight cast is what the accounts
  spoken for now hold plus five kinds of entries, each told from the state before the step: balances
  spoken for twice, tallies above the balances behind them, tokens that left accounts spoken for, less
  unproven balances, less what clipping and the square root take off. The promise holds exactly while the
  entries add up to no more than the accounts nobody has spoken for hold; in particular while every step
  keeps a guard that a caller can check.
- Every closed vote is resolved by the next call (docs/formal-verification.md:389): a vote that does not
  carry is written as `Rejected` by a call that fails. If failing calls are discarded it stays `Active`.
- A refresh does not destroy a balance proof (lib.rs:1199-1202): a second refresh in a later ledger does.
- The hold period (lib.rs:2909-2916): at the last 32-bit ledger number the saturating sum waives it.
- A payout is at most the lesser of coverage cap and pool (claim_prioritization.rs:63): a negative default
  count, which the type admits, raises it above, and so does a premium above the total.
- The allocation does not depend on the order of the claims (claim_prioritization.rs:22-23): with a
  negative premium the running sum may overflow in one order and not in another, even for FIFO.

Two smaller points. Executing a vetoed or executed proposal returns `ProposalCancelled` or
`ProposalAlreadyExecuted` (lib.rs:1930-1936), not `AlreadyResolved` as documented. And tests that expect
`Ok` on a missed quorum (contracts/iln_governance/src/test.rs:611-617) describe other code than lib.rs.

## Model

| member | source | states |
|---|---|---|
| `ChainGraph.AcyclicIffEveryChainEnds` | contracts/iln_governance/src/lib.rs:2878-2899 | a finite graph of forward pointers has no cycle if and only if every chain ends |
| `ChainGraph.BoundedWalk` | contracts/iln_governance/src/lib.rs:2824-2838 | a walk bounded by n finds the end of a chain exactly when the chain has at most n edges, and then returns the true end and length |
| `ChainGraph.LinkKeepsAcyclic` | contracts/iln_governance/src/lib.rs:1588-1605 | adding an edge x to y with x not on the chain of y keeps the graph acyclic, lengthens exactly the chains through x and redirects exactly their ends |
| `ChainGraph.CutKeepsAcyclic` | contracts/iln_governance/src/lib.rs:1640-1662 | removing the edge out of x makes x the end of exactly the chains through it |
| `ChainGraph.LongestInboundRecursive` | contracts/iln_governance/src/lib.rs:2840-2875 | the longest chain into a node is one more than that of its best predecessor, or 0 without one |
| `DelegationStorage.DelegationStore.LongestInboundDepth` | contracts/iln_governance/src/lib.rs:2846-2875 | the explicit-stack memoised search terminates and returns the length of the longest chain into the node, clipped at u32::MAX |
| `DelegationStorage.DelegationStore.VisitTop` | contracts/iln_governance/src/lib.rs:2852-2873 | one round of the search keeps the memo exact and the stack ordered, and makes progress |
| `DelegationStorage.DelegationStore.ForwardDelegationDepth` | contracts/iln_governance/src/lib.rs:2824-2838 | the loop counts the edges of the chain up to the cap |
| `DelegationStorage.DelegationStore.ResolveTerminal` | contracts/iln_governance/src/lib.rs:2878-2899 | the loop returns where the chain is after at most cap edges |
| `Delegation.AttachMirrors` | contracts/iln_governance/src/lib.rs:2795-2802 | recording a delegator who had no edge keeps the reverse index the exact duplicate-free inverse of the graph |
| `DelegationStorage.DelegationStore.RemoveDelegatorFrom` | contracts/iln_governance/src/lib.rs:2805-2819 | the loop removes exactly one delegator, in order, and drops an emptied list |
| `DelegationTally.RelinkWeights` | contracts/iln_governance/src/lib.rs:2998-3007 | what the two saturating adjustments of a delegation do to every tally: the new end gains, the old end loses if the walk found it, nothing else moves |
| `DelegationStorage.DelegationStore.CheckNoCycle` | contracts/iln_governance/src/lib.rs:1555-1569 | the bounded forward walk reports a cycle exactly when the delegator lies within cap + 1 edges, and otherwise an over-long chain exactly when the chain exceeds the cap |
| `DelegationStorage.DelegationStore.CheckDepth` | contracts/iln_governance/src/lib.rs:1571-1586 | the saturating sum of the two measured depths decides whether every chain through the new edge fits the cap |
| `DelegationStorage.DelegationStore.DelegateVotes` | contracts/iln_governance/src/lib.rs:1532-1623 | the class method does what `Delegate` does to the book, with the same outcome, and keeps the graph acyclic and mirrored |
| `DelegationStorage.DelegationStore.UndelegateVotes` | contracts/iln_governance/src/lib.rs:1640-1662 | likewise for withdrawing a delegation |
| `DelegationStorage.DelegationStore.SetMaxDelegationDepth` | contracts/iln_governance/src/lib.rs:767-780 | changes only the cap |
| `Delegation.DelegateAdmitsExactly` | contracts/iln_governance/src/lib.rs:1553-1586 | for a proven delegator an edge is admitted if and only if the graph stays acyclic and every chain through the edge stays within the cap |
| `Delegation.DelegateRefusals` | contracts/iln_governance/src/lib.rs:1538-1586 | which error a refused delegation returns: self, no proof, a cycle exactly when there would be one, or the depth |
| `Delegation.DelegateKeepsValid` | contracts/iln_governance/src/lib.rs:1588-1608 | delegation keeps the graph acyclic and the reverse index its exact duplicate-free inverse; a refused call changes nothing |
| `Delegation.UndelegateKeepsValid` | contracts/iln_governance/src/lib.rs:1640-1662 | so does undelegation |
| `DelegationRuns.RunKeepsValid` | contracts/iln_governance/src/lib.rs:1557-1605 | in every run of delegations, withdrawals, cap and balance changes the graph is acyclic and exactly mirrored |
| `DelegationRuns.DepthBoundedThroughoutIff` | docs/formal-verification.md:525-526 | chains never exceed the current cap, u32::MAX included, in any state of a run if and only if every step keeps its guard: no cap below an existing chain and, at u32::MAX, no edge that completes a longer one |
| `DelegationRuns.ResolvesThroughoutIff` | contracts/iln_governance/src/lib.rs:2878-2899 | resolving any address returns an address that does not delegate, in every state of a run, if and only if every step keeps that guard |
| `DelegationRuns.NeverLoweredResolves` | contracts/iln_governance/src/lib.rs:2878-2899 | if the cap is never lowered, whatever else moves, every chain stays within it and resolving any address returns the true end of its chain |
| `GovernanceDelegation.DepthBoundedThroughoutIff` | docs/formal-verification.md:525-526 | both equivalences in runs of the whole contract |
| `GovernanceDelegation.NeverLoweredResolves` | contracts/iln_governance/src/lib.rs:2878-2899 | the consequence of a cap that is never lowered in runs of the whole contract |
| `DelegationRuns.ChainsWithinHighestCap` | contracts/iln_governance/src/lib.rs:1571-1586 | whatever happens to the cap, no chain outgrows the largest cap so far in force, which at u32::MAX takes fewer than 2^32 delegators |
| `DelegationRuns.LoweredCapBreaksDepth` | docs/formal-verification.md:525-526 | a run of two calls after which a chain exceeds the cap |
| `DelegationTally.DelegateKeepsTallyIff` | contracts/iln_governance/src/lib.rs:1588-1608 | a successful delegation keeps every tally equal to the balances of the delegators whose chain ends there if and only if its guard holds |
| `DelegationTally.UndelegateKeepsTallyIff` | contracts/iln_governance/src/lib.rs:1640-1654 | the same for withdrawing |
| `DelegationTally.BalanceChangeKeepsTallyIff` | contracts/iln_governance/src/lib.rs:2902-2906 | a balance change keeps the tallies if and only if it is not a delegator's |
| `DelegationTally.LinkMovesOwed` | contracts/iln_governance/src/lib.rs:1588-1608 | a new edge moves the balances of the delegator and everyone upstream from the old end to the new one |
| `DelegationRuns.TallyExactThroughoutIff` | docs/formal-verification.md:558-559 | every tally is exact in every state of a run if and only if every step meets its guard |
| `DelegationRuns.CarefulRunsStayExact` | contracts/iln_governance/src/lib.rs:1588-1654 | if the cap is never lowered, only addresses nobody delegates to change their delegation, with full checkpoints, and delegators' balances stay, then every tally is exact in every state |
| `GovernanceDelegation.CarefulRunsStayExact` | contracts/iln_governance/src/lib.rs:1532-1662 | the same in runs of the whole contract, with the proven balance taken from stored checkpoints |
| `GovernanceDelegation.TallyExactThroughoutIff` | docs/formal-verification.md:558-559 | in a run of the whole contract every tally is exact throughout if and only if every step meets its guard |
| `GovernanceDelegation.ContractRunsTheBook` | contracts/iln_governance/src/lib.rs:889-2640 | every run of the contract, seen through its delegation book and balances, is a run of the delegation operations |
| `DelegationRuns.RedelegatedHubBreaksTally` | docs/formal-verification.md:558-559 | a run of two delegations after which a tally is wrong |
| `VoteAccount.CastIsSumOfVotes` | contracts/iln_governance/src/lib.rs:1690-1824 | in every run the weight cast on a proposal is the sum, over its vote calls, of own part plus delegated weight, clipped and square-rooted as the mode of that call says |
| `VoteAccount.LinearCast` | contracts/iln_governance/src/lib.rs:1752-1770 | while votes are linear that is the stored snapshots plus the weight delegated at each vote as far as it fits 128 bits |
| `VoteSupply.CastIsSpentPlusExcess` | docs/formal-verification.md:626-641 | in every run the weight cast is what the accounts spoken for hold plus the entries of the account |
| `VoteSupply.CastWithinSupplyIff` | docs/formal-verification.md:626-641 | in every state of every run the weight cast is within all tokens if and only if the entries add up to at most what the accounts nobody has spoken for hold, and likewise for the supply on record |
| `VoteSupply.GuardedCastWithinSupply` | docs/formal-verification.md:626-641 | while every vote spends no account twice, proves no more than is held and uses a tally no larger than the balances behind it, and no step takes tokens from accounts spoken for, the weight cast is within the tokens spoken for and so within all |
| `VoteAccount.AppliedWeightsAddUp` | docs/formal-verification.md:626-641 | the weights the contract reports for all voters on a proposal add up to the weight published on it |
| `FailingRuns.MovedTokensVoteTwice` | docs/formal-verification.md:626-641 | a run in which 1000 tokens move between two votes and cast 2000, with nobody delegating |
| `FailingRuns.DelegatorAndDelegateBothVote` | docs/formal-verification.md:626-641 | a run in which delegator and delegate both vote and cast twice the tokens that exist |
| `FailingRuns.MovingBreaksTheGuard` | docs/formal-verification.md:626-641 | the first of these runs breaks the guard at the transfer, which takes 1000 tokens out of an account spoken for |
| `FailingRuns.BothBreaksTheGuard` | docs/formal-verification.md:626-641 | the second breaks it at the delegate's vote, which spends the delegator's 1000 tokens again |
| `GovContractStorage.GovContract.constructor` | contracts/iln_governance/src/lib.rs:673-735 | the initial state, which satisfies the invariant |
| `GovContractStorage.GovContract.CreateProposal` | contracts/iln_governance/src/lib.rs:889-1019 | the method has the effect and outcome of `Governance.CreateProposal` and keeps the invariant |
| `Acceptance.CreateAcceptedIff` | contracts/iln_governance/src/lib.rs:889-1019 | in every reachable state a creation is accepted if and only if the proposer is another account and holds the gate and the deposit; it then gets the next id, three days to vote, its snapshot, first checkpoint, deposit and events, and nothing else changes |
| `GovernanceRuns.InvIds` | contracts/iln_governance/src/lib.rs:623-641 | under the invariant an id loads without error if and only if it lies between 1 and the count, and its side tables agree with it |
| `GovernanceRuns.MovesAreLegal` | contracts/iln_governance/src/lib.rs:1024-1051 | no step moves a status off the five legal edges or touches id, proposer or voting window; with `StepMoves` this holds of every step of every run |
| `GovContractStorage.GovContract.RefundDeposit` | contracts/iln_governance/src/lib.rs:1281-1328 | pays an open deposit back once, and on a solvent contract never traps |
| `GovContractStorage.GovContract.ForfeitDeposit` | contracts/iln_governance/src/lib.rs:1332-1383 | sends an open deposit to the sink once, or leaves it in the contract without one |
| `GovernanceTokens.BalancesFollowEvents` | contracts/iln_governance/src/lib.rs:1281-1383 | in every run the balance of every account, the contract's included, is its first balance plus what moved outside the contract plus what the deposit events say: the proposer pays a deposit and gets a refund, the sink gets a forfeit |
| `GovernanceTokens.EventsNameTheParties` | contracts/iln_governance/src/lib.rs:1281-1383 | every deposit event names the proposer on record and the whole deposit, and a forfeit names the sink in force at that call |
| `GovContractStorage.GovContract.CheckpointBalance` | contracts/iln_governance/src/lib.rs:1193-1223 | demotes the latest checkpoint only if it is of an earlier ledger, then records the balance |
| `GovContractStorage.GovContract.ProvenOwnBalance` | contracts/iln_governance/src/lib.rs:2919-2947 | the newest eligible checkpoint, capped by the live balance |
| `Acceptance.ProvenIs` | contracts/iln_governance/src/lib.rs:2919-2947 | the proven balance is that of the newest stored checkpoint ten ledgers old, or the live one if less, and there is none without such a checkpoint |
| `GovContractStorage.GovContract.CastVote` | contracts/iln_governance/src/lib.rs:1690-1824 | the method has the effect and outcome of `Governance.CastVote`, every error in order, and keeps the invariant |
| `Acceptance.VoteAcceptedIff` | contracts/iln_governance/src/lib.rs:1690-1824 | the result of every vote call from the state before it; an accepted vote adds what it counts to the side it names and only there, and leaves one receipt, snapshot and event |
| `GovContractStorage.GovContract.ExecuteProposal` | contracts/iln_governance/src/lib.rs:1926-2206 | likewise for both phases of execution |
| `Acceptance.ExecuteOutcomeIs` | contracts/iln_governance/src/lib.rs:1926-2206 | the result of every call to execute from the state before it, with the quorum as a threshold on the turnout |
| `GovContractStorage.GovContract.ResolveVote` | contracts/iln_governance/src/lib.rs:1943-2008 | likewise for closing the vote: accounting checks, quorum, majority, eta, settlement |
| `GovContractStorage.GovContract.Dispatch` | contracts/iln_governance/src/lib.rs:2010-2199 | likewise for the timelocked call, its failure event, the nonce and the refund |
| `GovContractStorage.GovContract.ConfigureVetoMultisig` | contracts/iln_governance/src/lib.rs:2224-2265 | accepts exactly non-empty duplicate-free signers with a threshold between 1 and their number |
| `GovContractStorage.GovContract.VetoApprovals` | contracts/iln_governance/src/lib.rs:2298-2318 | the loop lists the configured signers with a durable approval, in order |
| `GovContractStorage.GovContract.VetoProposal` | contracts/iln_governance/src/lib.rs:2344-2522 | the method has the effect and outcome of `Governance.VetoProposal` and keeps the invariant |
| `Acceptance.VetoResolvesIff` | contracts/iln_governance/src/lib.rs:2344-2522 | the result of every veto call from the state before it; an accepted one takes effect if and only if the configured signers who have approved, with this one, number at least the threshold, and otherwise only adds the approval |
| `GovContractStorage.GovContract.CarryOut` | contracts/iln_governance/src/lib.rs:2475-2506 | the effect of a veto that reached its threshold |
| `GovContractStorage.GovContract.DisableVetoPower` | contracts/iln_governance/src/lib.rs:2599-2640 | disables once, and fails the second time |
| `GovContractStorage.GovContract.SetExecutionDelay` | contracts/iln_governance/src/lib.rs:1842-1895 | the bounds on the delay, stricter once veto power is gone |
| `GovernanceSettings.SettingsAreLastSet` | contracts/iln_governance/src/lib.rs:767-1895 | in every state of every run each setting, the veto signers with their threshold and the depth cap are those of the last valid call that set them, or the initial ones, and veto power is enabled unless it was given up |
| `GovContractStorage.GovContract.DelegateVotes` | contracts/iln_governance/src/lib.rs:1532-1623 | delegates with the balance proven at the current ledger |
| `GovContractStorage.GovContract.UndelegateVotes` | contracts/iln_governance/src/lib.rs:1640-1662 | withdraws with the live balance |
| `GovernanceSteps.StepKeepsInv` | contracts/iln_governance/src/lib.rs:889-2640 | the raw state after any call satisfies the invariant, whether or not the call failed |
| `GovernanceSteps.ExecuteKeepsInv` | contracts/iln_governance/src/lib.rs:1926-2206 | execution keeps the invariant and never traps |
| `GovernanceSteps.VetoKeepsInv` | contracts/iln_governance/src/lib.rs:2344-2522 | so does a veto |
| `GovernanceRuns.RunKeepsInv` | contracts/iln_governance/src/lib.rs:889-2640 | in every reachable state storage agrees with the event log for every proposal, open deposits are covered, receipts are mirrored, checkpoints are ordered and the delegation graph is sound |
| `GovernanceRuns.StepMoves` | contracts/iln_governance/src/lib.rs:1024-1051 | every step leaves a proposal alone, adds one vote in its window, or takes it along one of the five legal edges for its proper reason |
| `GovernanceRuns.ResolvedStays` | contracts/iln_governance/src/lib.rs:1024-1051 | past Active only the status moves; past Passed nothing does |
| `GovernanceRuns.TalliesFrozen` | contracts/iln_governance/src/lib.rs:1698-1712 | tallies never change once the window has closed or the proposal has left Active |
| `GovernanceRuns.DispatchedOnceAfterTimelock` | contracts/iln_governance/src/lib.rs:1943-2198 | a successful dispatch happens at most once, after a step at which the tallies could be added, were a strict majority and reached the supply times the quorum, and no earlier than that step's ledger plus the delay in force there |
| `GovernanceRuns.QuorumDecides` | contracts/iln_governance/src/lib.rs:1967-1977 | the rounded and saturating quorum is met if and only if ten thousand times the turnout plus one exceeds the product of supply and basis points, clipped to 128 bits |
| `GovernanceRuns.PassedOrigin` | contracts/iln_governance/src/lib.rs:1991-2007 | a Passed or Executed proposal keeps the eta and tallies of the step at which it passed |
| `GovernanceRuns.NonceCountsExecutions` | contracts/iln_governance/src/lib.rs:2160-2185 | the nonce is the number of Executed proposals, each published once |
| `GovernanceProgress.DispatchSucceedsIff` | docs/formal-verification.md:391 | executing a Passed proposal carries it out if and only if the eta has come and the call succeeds; otherwise every proposal stays as it was, and a failed call is published |
| `GovernanceProgress.ExecuteResolvesIff` | docs/formal-verification.md:389 | exactly when a call after the window resolves an Active proposal, how, and with which eta, in terms of tallies, supply and basis points |
| `GovernanceProgress.NothingRejectedWhenDiscarding` | contracts/iln_governance/src/lib.rs:332-335 | if failing calls are discarded, no proposal is ever Rejected |
| `GovernanceProgress.LostVoteStaysOpenWhenDiscarding` | docs/formal-verification.md:389 | then a closed vote without a majority stays Active for ever unless it is vetoed |
| `GovernanceProgress.UnvotedProposalStaysActive` | docs/formal-verification.md:389 | a run that shows it |
| `GovernanceDelegation.ChainsWithinHighestCap` | contracts/iln_governance/src/lib.rs:1571-1586 | the same bound over runs of the whole contract |
| `GovernanceEscrow.SettledExactlyWhenResolved` | contracts/iln_governance/src/lib.rs:1281-1383 | the settled flag is set exactly when the proposal is no longer Active; a deposit then was settled by exactly one payment of exactly its amount |
| `GovernanceEscrow.PassedIsRefundedForGood` | contracts/iln_governance/src/lib.rs:1999-2006 | once passed, the whole deposit is refunded exactly once and never forfeited, even after a veto |
| `GovernanceEscrow.SurplusIsCover` | contracts/iln_governance/src/lib.rs:913-1005 | in every run the contract's balance covers the sum of all open deposits |
| `GovernanceEscrow.SurplusNeverFalls` | contracts/iln_governance/src/lib.rs:1281-1383 | no step pays one deposit out of another |
| `GovernanceVotes.OneVoteEach` | contracts/iln_governance/src/lib.rs:1698-1811 | even if temporary receipts vanish, no voter votes twice on a proposal, each side is the saturated sum of the published weights, and the contract knows exactly who voted |
| `GovernanceVotes.AppliedWeightFixed` | contracts/iln_governance/src/lib.rs:1438-1450 | a reported weight never changes |
| `GovernanceVotes.CheckpointOrigin` | contracts/iln_governance/src/lib.rs:1193-1223 | every stored checkpoint is a balance its owner held in an earlier state |
| `GovernanceVotes.VotesAreBackedByAgedBalances` | contracts/iln_governance/src/lib.rs:1734-1751 | the own part of every vote but the proposer's is at most a balance held at least the hold period before the proposal's ledger |
| `VoteAccount.ReceiptOrigin` | docs/formal-verification.md:589-600 | every receipt ever seen is the weight of one vote call: the voter's stored snapshot with what was delegated to them at that call |
| `GovernanceVotes.AgedExactly` | contracts/iln_governance/src/lib.rs:2933-2947 | the age test is the hold period, except at the last ledger number |
| `GovernanceVotes.LastLedgerNeedsNoHold` | contracts/iln_governance/src/lib.rs:2933-2947 | there a checkpoint of the same ledger passes |
| `GovernanceVotes.RefreshKeepsProofIff` | contracts/iln_governance/src/lib.rs:1199-1223 | a refresh keeps the proof behind an existing proposal if and only if it does not push out an eligible prior checkpoint by one that is not eligible |
| `FailingRuns.TwoRefreshesLoseProof` | contracts/iln_governance/src/lib.rs:1199-1223 | a run in which two refreshes lose the proof and the vote is refused |
| `GovernanceVotes.SameLedgerKeepsProof` | contracts/iln_governance/src/lib.rs:1199-1223 | within one ledger no sequence of calls changes the proof, if the latest checkpoint was the eligible one |
| `GovernanceVeto.VetoNeedsThreshold` | contracts/iln_governance/src/lib.rs:2415-2506 | a veto takes effect only when at least threshold distinct members of the signer set of that moment have each approved this proposal by a successful call |
| `GovernanceVeto.ApprovalOrigin` | contracts/iln_governance/src/lib.rs:2415-2425 | every durable approval was given by a successful call of that signer |
| `GovernanceVeto.DisabledForever` | contracts/iln_governance/src/lib.rs:2599-2640 | veto power stays disabled and no proposal is vetoed afterwards |
| `GovernanceVeto.NoVetoAfterDisable` | contracts/iln_governance/src/lib.rs:2599-2640 | a proposal that is Vetoed later was Vetoed already when the power was disabled |
| `IntegerSqrt.BinarySearchSqrt` | contracts/iln_governance/src/lib.rs:1454-1468 | despite saturation and overflow the search returns the r with r² ≤ n < (r+1)² for every 128-bit n |
| `IntegerSqrt.QuadraticCompression` | contracts/iln_governance/src/lib.rs:1766-1770 | a balance k² times as large has about k times the quadratic weight |
| `ProposalPaging.ListProposals` | contracts/iln_governance/src/lib.rs:2669-2718 | the loop returns the first page of the matching proposals below the cursor, newest first |
| `ProposalPaging.BelowIsExact` | contracts/iln_governance/src/lib.rs:2669-2718 | that list holds exactly the matching proposals, once each, in descending order of id |
| `ProposalPaging.PageIsExact` | contracts/iln_governance/src/lib.rs:2669-2718 | a page holds at most 20 and at most as many as asked for, newest first, each below the cursor and of the status asked for; whatever matches and is missing is older than a full page |
| `ProposalPaging.ScanIsComplete` | contracts/iln_governance/src/lib.rs:2669-2718 | reading pages of any positive size until one is empty yields the matching ids exactly once in descending order, whatever else changes, as long as the same ids match |
| `ProposalPaging.ScanUnderChange` | contracts/iln_governance/src/lib.rs:2669-2718 | if the filter result changes as well, nothing is read twice, everything read was shown by the page it came from, and nothing that keeps matching is missed |
| `PagingRuns.RunScanIsComplete` | contracts/iln_governance/src/lib.rs:2669-2718 | while the contract runs, with any calls between the pages, an unfiltered scan yields every id that existed at its first page, from the newest down to 1 |
| `PagingRuns.RunScanMissesNothing` | contracts/iln_governance/src/lib.rs:2669-2718 | with a filter, such a scan reads nothing twice and misses no proposal that keeps matching |
| `ClaimAllocation.SumPremiums` | contracts/insurance_pool/src/claim_prioritization.rs:154 | the checked sum, and whether it overflows on the way |
| `ClaimAllocation.PayQueue` | contracts/insurance_pool/src/claim_prioritization.rs:155-173 | the loop lists the positive payouts of the specification, and panics exactly when it does |
| `ClaimAllocation.AllocatePayouts` | contracts/insurance_pool/src/claim_prioritization.rs:129-174 | the whole allocation, with its error and panics |
| `AllocationExact.AllocationIs` | contracts/insurance_pool/src/claim_prioritization.rs:98-174 | a successful allocation serves every submitted claim once, FIFO by time and otherwise by premiums, ties by submission; each gets exactly the rounded and clipped share it is due of what is left; the positive amounts are listed with their providers |
| `AllocationExact.FifoPaysByTime` | contracts/insurance_pool/src/claim_prioritization.rs:143-171 | under FIFO every claim gets the lesser of its cap and the pool less the caps of all submitted claims that are earlier |
| `Sorting.LibrarySort` | contracts/insurance_pool/src/claim_prioritization.rs:143-152 | whatever stable sort the library runs, its result is `SortBy` |
| `AllocationLaws.NeverOverspends` | contracts/insurance_pool/src/claim_prioritization.rs:127-128 | for any input and strategy no prefix of the queue is paid more than the pool |
| `AllocationLaws.AllocationIsCovered` | contracts/insurance_pool/src/claim_prioritization.rs:16-20 | the listed amounts are positive and together at most the pool |
| `AllocationLaws.LargerPoolPaysNoClaimLess` | contracts/insurance_pool/src/claim_prioritization.rs:98-173 | for all strategies a larger pool pays no single claim less, even where products saturate |
| `AllocationLaws.RiskWeightingSpendsNoMore` | contracts/insurance_pool/src/claim_prioritization.rs:108-123 | at every prefix of the shared queue risk weighting has disbursed no more than pro rata |
| `AllocationLaws.NoClaimBeyondItsShare` | contracts/insurance_pool/src/claim_prioritization.rs:60-106 | each payout is within its cap and, unless FIFO, within the premium share of the starting pool |
| `AllocationLaws.NegativeDefaultsExceedCap` | contracts/insurance_pool/src/claim_prioritization.rs:62-63 | a claim with a negative default count that is paid twice its cap, and one whose calculation returns twice the pool |
| `AllocationLaws.PayoutWithinIff` | contracts/insurance_pool/src/claim_prioritization.rs:62-93 | for every claim, strategy, premium total and pool the calculation returns at most the lesser of cap and pool if and only if a product test on that base holds; only a divisor of 0 is excluded |
| `AllocationLaws.WithinCapIff` | contracts/insurance_pool/src/claim_prioritization.rs:98-123 | a claim is paid at most its cap for every pool if and only if the test holds at the cap |
| `AllocationLaws.AllocatedWithinCapIff` | contracts/insurance_pool/src/claim_prioritization.rs:129-174 | in every successful allocation the claim at any place of the queue is paid at most its cap if and only if the test holds at the cap or the earlier claims leave no more than the cap |
| `AllocationLaws.BelowMinusHundredPaysNothing` | contracts/insurance_pool/src/claim_prioritization.rs:112-123 | a default count below -100 makes the divisor negative and the payout 0 |
| `AllocationLaws.PanicIff` | contracts/insurance_pool/src/claim_prioritization.rs:121-122 | the run panics if and only if it reaches, with money left, a claim with a positive cap and a default count of -100 under risk weighting |
| `AllocationLaws.FifoIsWaterfall` | contracts/insurance_pool/src/claim_prioritization.rs:143-171 | each FIFO claim gets the lesser of its cap and what the earlier ones left |
| `AllocationLaws.FifoFillsInOrder` | contracts/insurance_pool/src/claim_prioritization.rs:143-171 | any first claims together get the lesser of the pool and their caps |
| `AllocationLaws.OrderDoesNotMatterIff` | contracts/insurance_pool/src/claim_prioritization.rs:22-23 | with distinct sort keys two orders of the same claims give the same allocation if and only if the running premium sum fits in both or in neither, or the pool is negative or a claim divides by zero |
| `AllocationLaws.OrderDecidesOverflow` | contracts/insurance_pool/src/claim_prioritization.rs:154 | three premiums whose sum overflows in one order and not in another |
| `AllocationLaws.OrderDoesNotMatter` | contracts/insurance_pool/src/claim_prioritization.rs:22-23 | for non-negative premiums the order never matters |
| `RewardDistribution.CountersAreTotals` | contracts/iln_distribution/src/lib.rs:185-243 | after any run each counter is the unlimited total of the accepted accruals, clipped to its integer type |
| `RewardDistribution.Distribution.ClaimTokens` | contracts/iln_distribution/src/lib.rs:269-297 | mints what was earned beyond earlier claims; claimed and minted amounts stay equal |
| `RewardDistribution.MintedIsPeakEarned` | contracts/iln_distribution/src/lib.rs:185-423 | in every interleaving of accruals, rate changes and claims the amount minted is the largest total earned at any of the participant's claims, or what was minted before if that is more |
| `RewardHistory.EarnedFromHistory` | contracts/iln_distribution/src/lib.rs:315-357 | after any history of calls the total earned is the funded hundreds times the last LP rate, plus the settlements times the last freelancer rate, plus the payments on time times the last payer rate, clipped to the integer types |
| `RewardHistory.EarnedExactly` | contracts/iln_distribution/src/lib.rs:315-357 | where nothing leaves its type, that is the plain sum |
| `RewardHistory.MintedFromHistory` | docs/formal-verification-distribution.md:23-32 | what has been minted, from the history alone: the largest amount earned before any of the participant's claims, or nothing |
| `RewardDistribution.PeakIsAttained` | docs/formal-verification-distribution.md:23-32 | the peak bounds the total at each claim and is one of those totals or the floor |
| `RewardDistribution.ExtraClaimNeverHurts` | contracts/iln_distribution/src/lib.rs:269-297 | an extra claim anywhere in a run lowers nobody's final amount and changes nobody else's |
| `AdminLog.ActionLog.RecordAdminAction` | contracts/invoice_liquidity/src/access.rs:213-237 | the ring keeps representing the append-only log, which grows by one entry with the next number; without an admin nothing is recorded, and the last counter value traps |
| `AdminLog.ActionLog.GetRecentAdminActions` | contracts/invoice_liquidity/src/access.rs:242-262 | returns exactly the last min(limit, 50, total) entries of the append-only log, newest first, with consecutive numbers |
| `Calendar.WeekKeyExact` | indexer/scripts/backup.ts:241-248 | two days share a week key if and only if they lie in the same Monday-to-Sunday week |
| `Calendar.WeekDate` | indexer/scripts/backup.ts:241-248 | week keys are the week dates of section 4.1.4 of ISO 8601:2004: week 1 holds 4 January, numbers run from 1 to 53 |
| `Calendar.DayKeyExact` | indexer/scripts/backup.ts:169 | a date determines its day and conversely |
| `Calendar.NextDate` | indexer/scripts/backup.ts:169-192 | the day after any date is the next date of the civil calendar and the next weekday; with `FirstDate` this fixes every date |
| `Retention.ApplyRetention` | indexer/scripts/backup.ts:141-210 | the run deletes, newest first, exactly the listed backups outside the kept set |
| `RetentionExact.DeletedIff` | indexer/scripts/backup.ts:141-210 | a listed backup is deleted if and only if it is not the newest and is in no window, or another of its tier behind the newest is newer and of the same day, week or month; windows are told in milliseconds, weeks and months |
| `Retention.ChooseKept` | indexer/scripts/backup.ts:153-199 | the loop keeps the newest backup and the first behind it of each day, week or month in its window |
| `Retention.Consider` | indexer/scripts/backup.ts:169-198 | one pass keeps the sets of seen keys equal to the buckets met |
| `RetentionLaws.RetentionIsIdempotent` | indexer/scripts/backup.ts:136-210 | a second run deletes nothing, in whatever order the directory lists what is left |
| `RetentionLaws.EveryBucketCovered` | docs/indexer-operations.md:51-58 | the newest backup is kept, and every backup in a window is covered by a kept one of the same bucket that is at least as new |
| `RetentionLaws.KeptIsBounded` | docs/indexer-operations.md:60-61 | for every policy at most 1 + (D+1) + max(0, W - D/7) + max(0, M - max(D, 7W-6)/31) archives are kept: the weekly tier begins behind the daily one, the monthly behind both |
| `RetentionLaws.DefaultsKeepAtMost15` | docs/indexer-operations.md:60-61 | with the default windows at most the documented 15 |
| `RetentionLaws.DefaultBoundReached` | docs/indexer-operations.md:60-61 | a listing of which the defaults keep 15 |
| `RetentionLaws.DailyBoundReached` | indexer/scripts/backup.ts:169-176 | for every daily window D a listing keeps D + 2 archives, because D times 24 hours touch D + 1 calendar days |

## Left out

- Authorisation (`require_auth`): every call is taken as authorised, except that the contract's own account cannot propose.
- The phase before `initialize` and its `NotInitialized` errors.
- The argument encoding of each proposal action, the description hash and the proposed value: one free success or failure stands for the cross-contract call.
- Events other than those about proposals, votes, deposits, executions and vetoes; time-to-live numbers and storage encoding.
- Token balances are unbounded naturals; an overflow inside the token contract is not modelled.
- GovernanceRuns.Run: assumes that no proposal is created once the 64-bit id counter is exhausted, where the code would reuse the last id.
- The parameter setters of the governance contract other than the execution delay and the depth cap are operations of the state machine but not methods of the class, because they only assign one field.
- The temporary mirror of veto approvals, the veto reason and the disable record: nothing reads them back into a decision.
- `compute_eta`, `effective_execution_delay`, `action_kind`, `reject_proposal` and the remaining getters: not called, or one-line reads.
- DelegationRuns.NeverLoweredResolves: with fewer than 2^32 delegators while the cap is u32::MAX; DelegationRuns.ResolvesThroughoutIff has no such limit.
- DelegationRuns.ChainsWithinHighestCap: the same limit once the cap has been u32::MAX.
- DelegationTally.DelegateKeepsTallyIff: for a token supply within 128 bits, as the token contract keeps it.
- AllocationLaws.LargerPoolPaysNoClaimLess: for non-negative premiums and default counts and a premium total within 128 bits; for other inputs only the total is bounded.
- Retention.ApplyRetention: dates are day numbers and keys are tuples of numbers; the strings agree for years 100 to 9999. Unreadable dates and windows that are not numbers are not modelled, nor are the snapshot, compression, checksums and file deletion of the script.
- RetentionLaws.RetentionIsIdempotent: for distinct file names, which the backup script gives.
- The remaining contracts (invoice liquidity apart from the admin log, insurance pool apart from claim prioritisation, oracle, reputation), rate limiting, and the CLI, SDK, notification, indexer and deployment code: they would add single-branch checks or calls into code that is not part of this model.
