/** Results of the governance entry points. */
module Outcomes {

  datatype Option<+T> = None | Some(value: T)

  datatype Error =
    | ProposalNotFound
    | ProposalStorageCorrupt
    | VotingEnded
    | ProposalNotActive
    | NoVotingPower
    | AlreadyVoted
    | VotingOngoing
    | QuorumNotReached
    | ProposalRejected
    | AlreadyResolved
    | CannotDelegateToSelf
    | DelegationCyclePrevented
    | TimelockNotExpired
    | Unauthorized
    | InvalidQuorumBps
    | NotVetoable
    | VetoPowerDisabled
    | VetoPowerAlreadyDisabled
    | InsufficientProposerBalance
    | MaxDelegationDepthExceeded
    | VetoMultisigNotConfigured
    | NotVetoSigner
    | VetoAlreadyApproved
    | InvalidVetoMultisigConfig
    | InvalidVetoTransition
    | InvalidProposalDeposit
    | InvalidTimelock
    | InvalidExecutionDelay
    | ExecutionDelayOutOfBounds
    | InvalidVoteAccounting
    | QuorumDataMissing
    | InsufficientHoldingPeriod
    | SnapshotLedgerMissing
    | ProposerIdentityMismatch
    | ProposalCancelled
    | ProposalAlreadyExecuted
    | ConsentRequired

  /** `Failed` is a returned error, `Trapped` a panic that aborts the call. */
  datatype Outcome = Done | Failed(error: Error) | Trapped
}
