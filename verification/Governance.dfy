/**
 The governance contract as a state machine over values: its storage, the events it
 publishes, and what every entry point does to them.
 */
module Governance {
  import opened MachineInts
  import opened Outcomes
  import opened Tokens
  import opened Delegation
  import opened IntegerSqrt

  type Address = nat
  type Key = (nat, Address)

  /** The token account of the contract itself. */
  const SELF: Address := 0

  const VOTING_PERIOD_SECS: nat := 259_200
  const MIN_VOTE_HOLD_LEDGERS: nat := 10
  const MIN_PRODUCTION_EXECUTION_DELAY: nat := 17_280
  const MAX_EXECUTION_DELAY: nat := 518_400
  const DEFAULT_MIN_QUORUM_BPS: nat := 1_000
  const DEFAULT_MIN_PROPOSAL_BALANCE: int := 1_000
  const DEFAULT_MAX_DELEGATION_DEPTH: nat := 10

  // ----- the data -----

  datatype Status = Active | Passed | Rejected | Executed | Vetoed

  datatype Proposal = Proposal(id: nat, proposer: Address, status: Status, votesFor: int, votesAgainst: int,
                               createdAt: nat, votingEnd: nat, eta: nat)

  datatype Checkpoint = Checkpoint(balance: nat, ledger: nat)

  datatype VetoPhase = VetoPending | VetoExecuted

  datatype Event =
    | ProposalCreated(id: nat, proposer: Address)
    | VoteCast(id: nat, voter: Address, support: bool, weight: int)
    | DepositEscrowed(id: nat, proposer: Address, amount: nat)
    | DepositRefunded(id: nat, proposer: Address, amount: nat)
    | DepositForfeited(id: nat, proposer: Address, amount: nat, sink: Option<Address>)
    | ExecutionFailed(id: nat)
    | ProposalExecuted(id: nat)
    | ProposalVetoed(id: nat, signer: Address)

  /** What the ledger and the token contract provide. */
  datatype Host = Host(seqNo: nat, time: nat, tokens: Balances)

  datatype Settings = Settings(admin: Address, quorumBps: nat, totalSupply: int, minBalance: int, minDeposit: int,
                               sink: Option<Address>, delay: nat, quadratic: bool)

  datatype Registry = Registry(count: nat, proposals: map<nat, Proposal>, createdLedger: map<nat, nat>,
                               proposers: map<nat, Address>)

  /** Balance proofs, the temporary vote receipts and their durable mirror. */
  datatype Ballots = Ballots(snapshots: map<Key, nat>, latest: map<Address, Checkpoint>,
                             prior: map<Address, Checkpoint>, tempVoted: set<Key>, tempWeight: map<Key, int>,
                             receipts: map<Key, int>)

  datatype Escrow = Escrow(deposits: map<nat, nat>, settled: set<nat>)

  datatype Multisig = Multisig(enabled: bool, signers: Option<seq<Address>>, threshold: nat, approvals: set<Key>,
                               phase: map<nat, VetoPhase>)

  datatype Executions = Executions(executed: set<nat>, nonce: nat)

  datatype State = State(host: Host, cfg: Settings, reg: Registry, ballots: Ballots, escrow: Escrow, veto: Multisig,
                         exec: Executions, book: Book, events: seq<Event>)

  /** The legal edges of the proposal lifecycle. */
  predicate LegalTransition(from: Status, to: Status) {
    match from
    case Active => to == Passed || to == Rejected || to == Vetoed
    case Passed => to == Executed || to == Vetoed
    case _ => false
  }

  function Publish(s: State, e: Event): State {
    s.(events := s.events + [e])
  }

  /** The state with the record of `p.id` replaced by `p`. */
  function Replaced(s: State, p: Proposal): State {
    s.(reg := s.reg.(proposals := s.reg.proposals[p.id := p]))
  }

  function SetStatus(s: State, p: Proposal, status: Status): State {
    Replaced(s, p.(status := status))
  }

  // ----- proposals and their deposits -----

  function LoadError(s: State, id: nat): Option<Error> {
    if id == 0 || id > s.reg.count then Some(ProposalNotFound)
    else if id !in s.reg.proposals || s.reg.proposals[id].id != id then Some(ProposalStorageCorrupt)
    else None
  }

  function NewProposal(s: State, proposer: Address): Proposal {
    Proposal(Min(U64_MAX, s.reg.count + 1), proposer, Active, 0, 0, s.host.time,
             Min(U64_MAX, s.host.time + VOTING_PERIOD_SECS), 0)
  }

  function WithProposal(s: State, p: Proposal, balance: nat): State {
    s.(reg := Registry(p.id, s.reg.proposals[p.id := p], s.reg.createdLedger[p.id := s.host.seqNo],
                       s.reg.proposers[p.id := p.proposer]),
       ballots := s.ballots.(
         snapshots := s.ballots.snapshots[(p.id, p.proposer) := balance],
         latest := if p.proposer in s.ballots.latest then s.ballots.latest
                   else s.ballots.latest[p.proposer := Checkpoint(balance, s.host.seqNo)]))
  }

  function WithDeposit(s: State, p: Proposal, amount: nat): State
    requires amount <= BalanceOf(s.host.tokens, p.proposer)
  {
    if amount == 0 then s
    else
      Publish(s.(host := s.host.(tokens := Transfer(s.host.tokens, p.proposer, SELF, amount)),
                 escrow := s.escrow.(deposits := s.escrow.deposits[p.id := amount])),
              DepositEscrowed(p.id, p.proposer, amount))
  }

  /** The contract cannot authorise a call for its own account, so that call traps. */
  function CreateProposal(s: State, proposer: Address): (State, Outcome) {
    var balance := BalanceOf(s.host.tokens, proposer);
    if proposer == SELF then (s, Trapped)
    else if balance < s.cfg.minBalance then (s, Failed(InsufficientProposerBalance))
    else if s.cfg.minDeposit < 0 then (s, Failed(InvalidProposalDeposit))
    else if balance < s.cfg.minDeposit then (s, Failed(InsufficientProposerBalance))
    else
      var p := NewProposal(s, proposer);
      var escrowed := WithDeposit(WithProposal(s, p, balance), p, s.cfg.minDeposit);
      (Publish(escrowed, ProposalCreated(p.id, proposer)), Done)
  }

  function DepositOf(s: State, id: nat): nat {
    BalanceOf(s.escrow.deposits, id)
  }

  function Settled(s: State, id: nat): State {
    s.(escrow := Escrow(s.escrow.deposits - {id}, s.escrow.settled + {id}))
  }

  /** A token transfer out of the contract's own account. */
  function Paid(s: State, to: Address, amount: nat): State
    requires amount <= BalanceOf(s.host.tokens, SELF)
  {
    s.(host := s.host.(tokens := Transfer(s.host.tokens, SELF, to, amount)))
  }

  /** Pays an open deposit back, once; None when the token transfer would trap. */
  function Refund(s: State, id: nat, proposer: Address): Option<State> {
    var amount := DepositOf(s, id);
    if id in s.escrow.settled then Some(s)
    else if amount == 0 then Some(Settled(s, id))
    else if amount > BalanceOf(s.host.tokens, SELF) then None
    else Some(Publish(Settled(Paid(s, proposer, amount), id), DepositRefunded(id, proposer, amount)))
  }

  /** Sends an open deposit to the sink, or leaves it in the contract when there is none. */
  function Forfeit(s: State, id: nat, proposer: Address): Option<State> {
    var amount := DepositOf(s, id);
    if id in s.escrow.settled then Some(s)
    else if amount == 0 then Some(Settled(s, id))
    else if s.cfg.sink.None? then Some(Publish(Settled(s, id), DepositForfeited(id, proposer, amount, None)))
    else if amount > BalanceOf(s.host.tokens, SELF) then None
    else Some(Publish(Settled(Paid(s, s.cfg.sink.value, amount), id),
                      DepositForfeited(id, proposer, amount, s.cfg.sink)))
  }

  // ----- balance checkpoints -----

  predicate Aged(c: Checkpoint, ledger: nat) {
    Min(U32_MAX, c.ledger + MIN_VOTE_HOLD_LEDGERS) <= ledger
  }

  function Lookup<T>(m: map<Address, T>, a: Address): Option<T> {
    if a in m then Some(m[a]) else None
  }

  /** The newest of the two stored checkpoints that is old enough at `ledger`. */
  function EligibleCheckpoint(s: State, voter: Address, ledger: nat): Option<Checkpoint> {
    var newer, older := Lookup(s.ballots.latest, voter), Lookup(s.ballots.prior, voter);
    if newer.Some? && Aged(newer.value, ledger)
       && !(older.Some? && Aged(older.value, ledger) && older.value.ledger >= newer.value.ledger) then newer
    else if older.Some? && Aged(older.value, ledger) then older
    else None
  }

  /** The part of the live balance that an eligible checkpoint proves. */
  function ProvenBalance(s: State, voter: Address, ledger: nat): (proven: Option<nat>)
  {
    var c := EligibleCheckpoint(s, voter, ledger);
    if c.None? then None else Some(Min(c.value.balance, BalanceOf(s.host.tokens, voter)))
  }

  function CheckpointBalance(s: State, voter: Address): (State, Outcome) {
    var b := s.ballots;
    var demoted := if voter in b.latest && b.latest[voter].ledger < s.host.seqNo then b.prior[voter := b.latest[voter]]
                   else b.prior;
    var taken := Checkpoint(BalanceOf(s.host.tokens, voter), s.host.seqNo);
    (s.(ballots := b.(prior := demoted, latest := b.latest[voter := taken])), Done)
  }

  // ----- voting -----

  function VoteWeight(s: State, voter: Address, own: nat): int {
    var raw := SatAdd(own, WeightOf(s.book.weight, voter));
    if s.cfg.quadratic then Isqrt(Max(raw, 0)) else raw
  }

  function Recorded(s: State, p: Proposal, voter: Address, support: bool, weight: int): State {
    var tallied := if support then p.(votesFor := SatAdd(p.votesFor, weight))
                   else p.(votesAgainst := SatAdd(p.votesAgainst, weight));
    var key := (p.id, voter);
    Publish(s.(reg := s.reg.(proposals := s.reg.proposals[p.id := tallied]),
               ballots := s.ballots.(tempVoted := s.ballots.tempVoted + {key},
                                     tempWeight := s.ballots.tempWeight[key := weight],
                                     receipts := s.ballots.receipts[key := weight])),
            VoteCast(p.id, voter, support, weight))
  }

  function CastVote(s: State, voter: Address, id: nat, support: bool): (State, Outcome) {
    var e, key := LoadError(s, id), (id, voter);
    if e.Some? then (s, Failed(e.value))
    else if s.host.time >= s.reg.proposals[id].votingEnd then (s, Failed(VotingEnded))
    else if s.reg.proposals[id].status != Active then (s, Failed(ProposalNotActive))
    else if key in s.ballots.tempVoted || key in s.ballots.receipts then (s, Failed(AlreadyVoted))
    else if key !in s.ballots.snapshots && id !in s.reg.createdLedger then (s, Failed(SnapshotLedgerMissing))
    else
      var own := if key in s.ballots.snapshots then Some(s.ballots.snapshots[key])
                 else ProvenBalance(s, voter, s.reg.createdLedger[id]);
      if own.None? then (s, Failed(InsufficientHoldingPeriod))
      else
        var s1 := s.(ballots := s.ballots.(snapshots := s.ballots.snapshots[key := own.value]));
        var weight := VoteWeight(s, voter, own.value);
        if weight == 0 then (s1, Failed(NoVotingPower))
        else (Recorded(s1, s.reg.proposals[id], voter, support, weight), Done)
  }

  /** The weight the contract reports for a vote: the fast receipt or its durable mirror. */
  function AppliedWeight(s: State, id: nat, voter: Address): Option<int> {
    if (id, voter) in s.ballots.tempWeight then Some(s.ballots.tempWeight[(id, voter)])
    else if (id, voter) in s.ballots.receipts then Some(s.ballots.receipts[(id, voter)])
    else None
  }

  // ----- resolving and executing -----

  function Quorum(s: State): int {
    SatMul(s.cfg.totalSupply, s.cfg.quorumBps) / 10_000
  }

  predicate QuorumKnown(s: State) {
    s.cfg.totalSupply > 0 && 1 <= s.cfg.quorumBps <= 10_000
  }

  predicate Countable(p: Proposal) {
    p.votesFor >= 0 && p.votesAgainst >= 0 && p.votesFor + p.votesAgainst <= I128_MAX
  }

  function Settle(s: State, settled: Option<State>, outcome: Outcome): (State, Outcome) {
    if settled.None? then (s, Trapped) else (settled.value, outcome)
  }

  function ResolveVote(s: State, p: Proposal): (State, Outcome) {
    if !Countable(p) then (s, Failed(InvalidVoteAccounting))
    else if !QuorumKnown(s) then (s, Failed(QuorumDataMissing))
    else if p.votesFor + p.votesAgainst < Quorum(s) then
      Settle(s, Forfeit(SetStatus(s, p, Rejected), p.id, p.proposer), Failed(QuorumNotReached))
    else if p.votesFor <= p.votesAgainst then
      Settle(s, Forfeit(SetStatus(s, p, Rejected), p.id, p.proposer), Failed(ProposalRejected))
    else if s.host.seqNo + s.cfg.delay > U32_MAX then (s, Failed(InvalidTimelock))
    else
      var passed := SetStatus(s, p.(eta := s.host.seqNo + s.cfg.delay), Passed);
      Settle(s, Refund(passed, p.id, p.proposer), Done)
  }

  function Dispatch(s: State, p: Proposal, callSucceeds: bool): (State, Outcome) {
    if s.host.seqNo < p.eta then (s, Failed(TimelockNotExpired))
    else if !callSucceeds then (Publish(s, ExecutionFailed(p.id)), Done)
    else
      var done := SetStatus(s, p, Executed).(
        exec := Executions(s.exec.executed + {p.id}, Min(U64_MAX, s.exec.nonce + 1)));
      var refunded := Refund(done, p.id, p.proposer);
      if refunded.None? then (s, Trapped) else (Publish(refunded.value, ProposalExecuted(p.id)), Done)
  }

  /** `callSucceeds` is what the cross-contract call reports if this step reaches it. */
  function ExecuteProposal(s: State, id: nat, callSucceeds: bool): (State, Outcome) {
    var e := LoadError(s, id);
    if e.Some? then (s, Failed(e.value))
    else
      var p := s.reg.proposals[id];
      if p.status == Vetoed then (s, Failed(ProposalCancelled))
      else if p.status == Executed then (s, Failed(ProposalAlreadyExecuted))
      else if s.host.time < p.votingEnd then (s, Failed(VotingOngoing))
      else if p.status == Active then ResolveVote(s, p)
      else if p.status == Passed then Dispatch(s, p, callSucceeds)
      else (s, Failed(AlreadyResolved))
  }

  // ----- the veto multisig -----

  function ConfigureVeto(s: State, signers: seq<Address>, threshold: nat): (State, Outcome) {
    if signers == [] || threshold == 0 || threshold > |signers| || !NoDuplicates(signers) then
      (s, Failed(InvalidVetoMultisigConfig))
    else (s.(veto := s.veto.(signers := Some(signers), threshold := threshold)), Done)
  }

  /** The configured signers, in order, that hold a durable approval for `id`. */
  function Approvers(signers: seq<Address>, approvals: set<Key>, id: nat): seq<Address> {
    if signers == [] then []
    else
      var last := signers[|signers| - 1];
      Approvers(signers[..|signers| - 1], approvals, id) + if (id, last) in approvals then [last] else []
  }

  function CarryOutVeto(s: State, p: Proposal, signer: Address, approved: seq<Address>): (State, Outcome) {
    var cleared := SetStatus(s, p, Vetoed).(
      veto := s.veto.(approvals := s.veto.approvals - (set a | a in approved :: (p.id, a)),
                      phase := s.veto.phase[p.id := VetoExecuted]));
    var forfeited := Forfeit(cleared, p.id, p.proposer);
    if forfeited.None? then (s, Trapped) else (Publish(forfeited.value, ProposalVetoed(p.id, signer)), Done)
  }

  function VetoProposal(s: State, signer: Address, id: nat, reasonGiven: bool): (State, Outcome) {
    var e, key := LoadError(s, id), (id, signer);
    if !reasonGiven then (s, Failed(ConsentRequired))
    else if !s.veto.enabled then (s, Failed(VetoPowerDisabled))
    else if s.veto.signers.None? then (s, Failed(VetoMultisigNotConfigured))
    else if signer !in s.veto.signers.value then (s, Failed(NotVetoSigner))
    else if e.Some? then (s, Failed(e.value))
    else
      var p := s.reg.proposals[id];
      var bound := if id in s.reg.proposers then s
                   else s.(reg := s.reg.(proposers := s.reg.proposers[id := p.proposer]));
      if bound.reg.proposers[id] != p.proposer then (s, Failed(ProposerIdentityMismatch))
      else if p.status != Active && p.status != Passed then (bound, Failed(NotVetoable))
      else if id in s.veto.phase && s.veto.phase[id] == VetoExecuted then (bound, Failed(InvalidVetoTransition))
      else if key in s.veto.approvals then (bound, Failed(VetoAlreadyApproved))
      else
        var approving := bound.(veto := s.veto.(approvals := s.veto.approvals + {key}));
        var approved := Approvers(s.veto.signers.value, approving.veto.approvals, id);
        if |approved| < s.veto.threshold then
          (approving.(veto := approving.veto.(phase := s.veto.phase[id := VetoPending])), Done)
        else
          var r := CarryOutVeto(approving, p, signer, approved);
          if r.1 == Trapped then (s, Trapped) else r
  }

  function DisableVeto(s: State): (State, Outcome) {
    if !s.veto.enabled then (s, Failed(VetoPowerAlreadyDisabled)) else (s.(veto := s.veto.(enabled := false)), Done)
  }

  // ----- settings -----

  function SetExecutionDelay(s: State, caller: Address, delay: nat): (State, Outcome) {
    if caller != s.cfg.admin then (s, Failed(Unauthorized))
    else if delay > MAX_EXECUTION_DELAY then (s, Failed(InvalidExecutionDelay))
    else if !s.veto.enabled && delay < MIN_PRODUCTION_EXECUTION_DELAY then (s, Failed(ExecutionDelayOutOfBounds))
    else (s.(cfg := s.cfg.(delay := delay)), Done)
  }

  function SetQuorumBps(s: State, bps: nat): (State, Outcome) {
    if bps == 0 || bps > 10_000 then (s, Failed(InvalidQuorumBps)) else (s.(cfg := s.cfg.(quorumBps := bps)), Done)
  }

  function SetMinDeposit(s: State, amount: int): (State, Outcome) {
    if amount < 0 then (s, Failed(InvalidProposalDeposit)) else (s.(cfg := s.cfg.(minDeposit := amount)), Done)
  }

  ghost function DelegateVotes(s: State, x: Address, y: Address): (State, Outcome) {
    var proven := ProvenBalance(s, x, s.host.seqNo);
    var r := Delegate(s.book, x, y, if proven.None? then None else Some(proven.value));
    (s.(book := r.0), r.1)
  }

  function UndelegateVotes(s: State, x: Address): (State, Outcome) {
    (s.(book := Undelegate(s.book, x, BalanceOf(s.host.tokens, x))), Done)
  }

  // ----- one step of the whole system -----

  datatype Op =
    | Create(proposer: Address)
    | Vote(voter: Address, id: nat, support: bool)
    | Execute(id: nat, callSucceeds: bool)
    | Veto(signer: Address, id: nat, reasonGiven: bool)
    | ConfigureSigners(signers: seq<Address>, threshold: nat)
    | DisableVetoPower
    | TakeCheckpoint(voter: Address)
    | DelegateTo(x: Address, y: Address)
    | Withdraw(x: Address)
    | SetDepth(depth: nat)
    | SetDelay(caller: Address, delay: nat)
    | SetQuorum(bps: nat)
    | SetSupply(supply: int)
    | SetBalanceGate(amount: int)
    | SetDeposit(amount: int)
    | SetSink(sink: Option<Address>)
    | SetQuadratic(on: bool)
    // the environment: ledgers close, other accounts move tokens, temporary entries are archived
    | LedgerCloses(seqNo: nat, time: nat)
    | BalanceBecomes(a: Address, v: nat)
    | ContractReceives(v: nat)
    | Archive(voted: set<Key>, weights: set<Key>)

  /** The storage as the call leaves it, before the host decides whether to keep the writes. */
  ghost function Step(s: State, op: Op): (State, Outcome) {
    match op
    case Create(proposer) => CreateProposal(s, proposer)
    case Vote(voter, id, support) => CastVote(s, voter, id, support)
    case Execute(id, callSucceeds) => ExecuteProposal(s, id, callSucceeds)
    case Veto(signer, id, reasonGiven) => VetoProposal(s, signer, id, reasonGiven)
    case ConfigureSigners(signers, threshold) => ConfigureVeto(s, signers, threshold)
    case DisableVetoPower => DisableVeto(s)
    case TakeCheckpoint(voter) => CheckpointBalance(s, voter)
    case DelegateTo(x, y) => DelegateVotes(s, x, y)
    case Withdraw(x) => UndelegateVotes(s, x)
    case SetDepth(depth) => (if depth <= U32_MAX then s.(book := s.book.(cap := depth)) else s, Done)
    case SetDelay(caller, delay) => SetExecutionDelay(s, caller, delay)
    case SetQuorum(bps) => SetQuorumBps(s, bps)
    case SetSupply(supply) => (s.(cfg := s.cfg.(totalSupply := supply)), Done)
    case SetBalanceGate(amount) => (s.(cfg := s.cfg.(minBalance := amount)), Done)
    case SetDeposit(amount) => SetMinDeposit(s, amount)
    case SetSink(sink) => (s.(cfg := s.cfg.(sink := sink)), Done)
    case SetQuadratic(on) => (s.(cfg := s.cfg.(quadratic := on)), Done)
    case LedgerCloses(seqNo, time) =>
      (if s.host.seqNo <= seqNo <= U32_MAX && s.host.time <= time <= U64_MAX
       then s.(host := s.host.(seqNo := seqNo, time := time)) else s, Done)
    case BalanceBecomes(a, v) => (if a == SELF then s else s.(host := s.host.(tokens := s.host.tokens[a := v])), Done)
    case ContractReceives(v) =>
      (s.(host := s.host.(tokens := s.host.tokens[SELF := BalanceOf(s.host.tokens, SELF) + v])), Done)
    case Archive(voted, weights) =>
      (s.(ballots := s.ballots.(tempVoted := s.ballots.tempVoted - voted,
                                tempWeight := s.ballots.tempWeight - weights)), Done)
  }

  /**
   What the host does with the writes of a call that returned an error. The code writes the
   `Rejected` status and then returns an error, so both readings are considered everywhere.
   */
  datatype Reading = KeepOnError | DiscardOnError

  ghost function Transact(s: State, op: Op, reading: Reading): State {
    var (s', outcome) := Step(s, op);
    if outcome == Trapped || (outcome.Failed? && reading == DiscardOnError) then s else s'
  }

  /** The state right after `initialize`, on an arbitrary ledger. */
  ghost predicate Initial(s: State) {
    && s.host.seqNo <= U32_MAX && s.host.time <= U64_MAX
    && s.cfg == Settings(s.cfg.admin, DEFAULT_MIN_QUORUM_BPS, s.cfg.totalSupply, DEFAULT_MIN_PROPOSAL_BALANCE, 0, None,
                         0, false)
    && s.reg == Registry(0, map[], map[], map[])
    && s.ballots == Ballots(map[], map[], map[], {}, map[], map[])
    && s.escrow == Escrow(map[], {})
    && s.veto == Multisig(true, None, 0, {}, map[])
    && s.exec == Executions({}, 0)
    && s.book == Book(map[], map[], map[], DEFAULT_MAX_DELEGATION_DEPTH)
    && s.events == []
  }

  ghost predicate IsRun(states: seq<State>, ops: seq<Op>, reading: Reading) {
    && |states| == |ops| + 1
    && Initial(states[0])
    && forall i :: 0 <= i < |ops| ==> states[i + 1] == Transact(states[i], ops[i], reading)
  }
}
