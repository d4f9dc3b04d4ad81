/** The governance contract itself: storage that its entry points update in place. */
module GovContractStorage {
  import opened MachineInts
  import opened Outcomes
  import opened Tokens
  import opened Delegation
  import opened DelegationStorage
  import opened IntegerSqrt
  import opened Governance
  import opened GovernanceInvariant
  import opened GovernanceSteps

  class GovContract {
    /** The ledger and the token contract, as this contract sees them. */
    var host: Host
    // the contract's storage
    var cfg: Settings
    var reg: Registry
    var ballots: Ballots
    var escrow: Escrow
    var veto: Multisig
    var exec: Executions
    const delegations: DelegationStore
    var events: seq<Event>

    ghost function Contents(): State
      reads this, delegations
    {
      State(host, cfg, reg, ballots, escrow, veto, exec, delegations.Contents(), events)
    }

    ghost predicate Valid()
      reads this, delegations
    {
      Inv(Contents())
    }

    /** `initialize`, on a ledger at (`seqNo`, `time`) with the given token balances. */
    constructor (admin: Address, totalSupply: int, seqNo: nat, time: nat, tokens: Balances)
      requires seqNo <= U32_MAX && time <= U64_MAX
      ensures Initial(Contents()) && Valid() && fresh(delegations)
      ensures host == Host(seqNo, time, tokens) && cfg.admin == admin && cfg.totalSupply == totalSupply
    {
      host := Host(seqNo, time, tokens);
      cfg := Settings(admin, DEFAULT_MIN_QUORUM_BPS, totalSupply, DEFAULT_MIN_PROPOSAL_BALANCE, 0, None, 0, false);
      reg := Registry(0, map[], map[], map[]);
      ballots := Ballots(map[], map[], map[], {}, map[], map[]);
      escrow := Escrow(map[], {});
      veto := Multisig(true, None, 0, {}, map[]);
      exec := Executions({}, 0);
      delegations := new DelegationStore(DEFAULT_MAX_DELEGATION_DEPTH);
      events := [];
      new;
      hide Inv;
      InitialInv(Contents());
    }

    // ----- proposals and their deposits -----

    method CreateProposal(proposer: Address) returns (r: Outcome, id: nat)
      requires Valid()
      modifies this
      ensures (Contents(), r) == Governance.CreateProposal(old(Contents()), proposer)
      ensures r == Done ==> id == reg.count
      ensures old(reg.count) < U64_MAX ==> Valid()
    {
      hide Inv;
      ghost var s := Contents();
      if reg.count < U64_MAX {
        StepKeepsInv(s, Create(proposer));
      }
      id := 0;
      if proposer == SELF {
        return Trapped, id;
      }
      var balance := BalanceOf(host.tokens, proposer);
      if balance < cfg.minBalance {
        return Failed(InsufficientProposerBalance), id;
      }
      if cfg.minDeposit < 0 {
        return Failed(InvalidProposalDeposit), id;
      }
      if cfg.minDeposit > 0 && balance < cfg.minDeposit {
        return Failed(InsufficientProposerBalance), id;
      }
      hide WithProposal, WithDeposit;
      id := Min(U64_MAX, reg.count + 1);
      var votingEnd := Min(U64_MAX, host.time + VOTING_PERIOD_SECS);
      var p := Proposal(id, proposer, Active, 0, 0, host.time, votingEnd, 0);
      Register(p, balance);
      NewShape(s, p, balance);
      EscrowDeposit(p);
      DepositShape(WithProposal(s, p, balance), p, cfg.minDeposit);
      events := events + [ProposalCreated(id, proposer)];
      r := Done;
    }

    /** Stores a new proposal with the proposer's snapshot, the creation ledger and a first checkpoint. */
    method Register(p: Proposal, balance: nat)
      modifies this`reg, this`ballots
      ensures Contents() == WithProposal(old(Contents()), p, balance)
    {
      ballots := ballots.(snapshots := ballots.snapshots[(p.id, p.proposer) := balance]);
      reg := reg.(createdLedger := reg.createdLedger[p.id := host.seqNo]);
      if p.proposer !in ballots.latest {
        ballots := ballots.(latest := ballots.latest[p.proposer := Checkpoint(balance, host.seqNo)]);
      }
      reg := reg.(count := p.id, proposals := reg.proposals[p.id := p], proposers := reg.proposers[p.id := p.proposer]);
    }

    /** Moves the deposit of a new proposal, if one is asked for, into the contract. */
    method EscrowDeposit(p: Proposal)
      requires 0 <= cfg.minDeposit <= BalanceOf(host.tokens, p.proposer)
      modifies this`host, this`escrow, this`events
      ensures Contents() == WithDeposit(old(Contents()), p, cfg.minDeposit)
    {
      if cfg.minDeposit > 0 {
        host := host.(tokens := Transfer(host.tokens, p.proposer, SELF, cfg.minDeposit));
        escrow := escrow.(deposits := escrow.deposits[p.id := cfg.minDeposit]);
        events := events + [DepositEscrowed(p.id, p.proposer, cfg.minDeposit)];
      }
    }

    method LoadProposal(id: nat) returns (error: Option<Error>)
      ensures error == LoadError(Contents(), id)
    {
      if id == 0 || id > reg.count {
        return Some(ProposalNotFound);
      }
      if id !in reg.proposals || reg.proposals[id].id != id {
        return Some(ProposalStorageCorrupt);
      }
      error := None;
    }

    /** The only writer of a proposal's status after creation. */
    method TransitionStatus(p: Proposal, next: Status) returns (ok: bool)
      modifies this`reg
      ensures ok <==> LegalTransition(p.status, next)
      ensures ok ==> Contents() == SetStatus(old(Contents()), p, next)
      ensures !ok ==> Contents() == old(Contents())
    {
      ok := LegalTransition(p.status, next);
      if ok {
        reg := reg.(proposals := reg.proposals[p.id := p.(status := next)]);
      }
    }

    method RefundDeposit(id: nat, proposer: Address)
      requires Solvent(host.tokens, escrow.deposits)
      modifies this`host, this`escrow, this`events
      ensures Some(Contents()) == Refund(old(Contents()), id, proposer)
    {
      PayOut(host.tokens, escrow.deposits, id, proposer);
      if id in escrow.settled {
        return;
      }
      var amount := BalanceOf(escrow.deposits, id);
      escrow := Escrow(escrow.deposits - {id}, escrow.settled + {id});
      if amount == 0 {
        return;
      }
      host := host.(tokens := Transfer(host.tokens, SELF, proposer, amount));
      events := events + [DepositRefunded(id, proposer, amount)];
    }

    method ForfeitDeposit(id: nat, proposer: Address)
      requires Solvent(host.tokens, escrow.deposits)
      modifies this`host, this`escrow, this`events
      ensures Some(Contents()) == Forfeit(old(Contents()), id, proposer)
    {
      PayOut(host.tokens, escrow.deposits, id, if cfg.sink.None? then SELF else cfg.sink.value);
      if id in escrow.settled {
        return;
      }
      var amount := BalanceOf(escrow.deposits, id);
      escrow := Escrow(escrow.deposits - {id}, escrow.settled + {id});
      if amount == 0 {
        return;
      }
      if cfg.sink.Some? {
        host := host.(tokens := Transfer(host.tokens, SELF, cfg.sink.value, amount));
      }
      events := events + [DepositForfeited(id, proposer, amount, cfg.sink)];
    }

    // ----- balance checkpoints and votes -----

    method CheckpointBalance(voter: Address)
      requires Valid()
      modifies this
      ensures Valid() && Contents() == Governance.CheckpointBalance(old(Contents()), voter).0
    {
      hide Inv;
      StepKeepsInv(Contents(), TakeCheckpoint(voter));
      if voter in ballots.latest {
        var replaced := ballots.latest[voter];
        if replaced.ledger < host.seqNo {
          ballots := ballots.(prior := ballots.prior[voter := replaced]);
        }
      }
      ballots := ballots.(latest := ballots.latest[voter := Checkpoint(BalanceOf(host.tokens, voter), host.seqNo)]);
    }

    /** The newest of the stored checkpoints that is old enough at `ledger`, capped by the live balance. */
    method ProvenOwnBalance(voter: Address, ledger: nat) returns (proven: Option<nat>)
      ensures proven == ProvenBalance(Contents(), voter, ledger)
    {
      var slots: seq<Checkpoint> := [];
      if voter in ballots.latest {
        slots := slots + [ballots.latest[voter]];
      }
      if voter in ballots.prior {
        slots := slots + [ballots.prior[voter]];
      }
      var best: Option<Checkpoint> := None;
      for i := 0 to |slots|
        invariant i == 0 ==> best == None
        invariant i == 1 ==> best == if Aged(slots[0], ledger) then Some(slots[0]) else None
        invariant i == 2 ==>
                    best == if Aged(slots[1], ledger)
                               && !(Aged(slots[0], ledger) && slots[0].ledger > slots[1].ledger) then Some(slots[1])
                            else if Aged(slots[0], ledger) then Some(slots[0]) else None
      {
        if Aged(slots[i], ledger) && (best.None? || slots[i].ledger >= best.value.ledger) {
          best := Some(slots[i]);
        }
      }
      proven := if best.None? then None else Some(Min(best.value.balance, BalanceOf(host.tokens, voter)));
    }

    method CastVote(voter: Address, id: nat, support: bool) returns (r: Outcome)
      requires Valid()
      modifies this
      ensures Valid() && (Contents(), r) == Governance.CastVote(old(Contents()), voter, id, support)
    {
      hide Inv, Isqrt;
      StepKeepsInv(Contents(), Vote(voter, id, support));
      var error := LoadProposal(id);
      if error.Some? {
        return Failed(error.value);
      }
      var p, key := reg.proposals[id], (id, voter);
      if host.time >= p.votingEnd {
        return Failed(VotingEnded);
      }
      if p.status != Active {
        return Failed(ProposalNotActive);
      }
      if key in ballots.tempVoted || key in ballots.receipts {
        return Failed(AlreadyVoted);
      }
      var own: nat;
      if key in ballots.snapshots {
        own := ballots.snapshots[key];
      } else {
        if id !in reg.createdLedger {
          return Failed(SnapshotLedgerMissing);
        }
        var proven := ProvenOwnBalance(voter, reg.createdLedger[id]);
        if proven.None? {
          return Failed(InsufficientHoldingPeriod);
        }
        own := proven.value;
        ballots := ballots.(snapshots := ballots.snapshots[key := own]);
      }
      var weight := SatAdd(own, WeightOf(delegations.weight, voter));
      if cfg.quadratic {
        weight := BinarySearchSqrt(weight);
      }
      assert weight == VoteWeight(old(Contents()), voter, own);
      assert ballots.snapshots[key := own] == ballots.snapshots;
      if weight == 0 {
        return Failed(NoVotingPower);
      }
      if support {
        p := p.(votesFor := SatAdd(p.votesFor, weight));
      } else {
        p := p.(votesAgainst := SatAdd(p.votesAgainst, weight));
      }
      ballots := ballots.(tempVoted := ballots.tempVoted + {key},
                          tempWeight := ballots.tempWeight[key := weight],
                          receipts := ballots.receipts[key := weight]);
      reg := reg.(proposals := reg.proposals[id := p]);
      events := events + [VoteCast(id, voter, support, weight)];
      r := Done;
    }

    // ----- resolving and executing -----

    /** `callSucceeds` is the result of the cross-contract call, if the call is made. */
    method ExecuteProposal(id: nat, callSucceeds: bool) returns (r: Outcome)
      requires Valid()
      modifies this
      ensures Valid() && (Contents(), r) == Governance.ExecuteProposal(old(Contents()), id, callSucceeds)
    {
      hide Inv, Refund, Forfeit;
      ghost var s := Contents();
      StepKeepsInv(s, Execute(id, callSucceeds));
      InvSolvent(s);
      var error := LoadProposal(id);
      if error.Some? {
        return Failed(error.value);
      }
      var p := reg.proposals[id];
      if p.status == Vetoed {
        return Failed(ProposalCancelled);
      }
      if p.status == Executed {
        return Failed(ProposalAlreadyExecuted);
      }
      if host.time < p.votingEnd {
        return Failed(VotingOngoing);
      }
      if p.status == Active {
        r := ResolveVote(p);
      } else if p.status == Passed {
        r := Dispatch(p, callSucceeds);
      } else {
        r := Failed(AlreadyResolved);
      }
    }

    method ResolveVote(p: Proposal) returns (r: Outcome)
      requires p.status == Active && Solvent(host.tokens, escrow.deposits)
      modifies this
      ensures (Contents(), r) == Governance.ResolveVote(old(Contents()), p)
    {
      hide Refund, Forfeit, Solvent;
      if p.votesFor < 0 || p.votesAgainst < 0 || p.votesFor + p.votesAgainst > I128_MAX {
        return Failed(InvalidVoteAccounting);
      }
      var totalVotes := p.votesFor + p.votesAgainst;
      if cfg.totalSupply <= 0 || cfg.quorumBps == 0 || cfg.quorumBps > 10_000 {
        return Failed(QuorumDataMissing);
      }
      var quorum := SatMul(cfg.totalSupply, cfg.quorumBps) / 10_000;
      if totalVotes < quorum {
        var ok := TransitionStatus(p, Rejected);
        ForfeitDeposit(p.id, p.proposer);
        return Failed(QuorumNotReached);
      }
      if p.votesFor <= p.votesAgainst {
        var ok := TransitionStatus(p, Rejected);
        ForfeitDeposit(p.id, p.proposer);
        return Failed(ProposalRejected);
      }
      if host.seqNo + cfg.delay > U32_MAX {
        return Failed(InvalidTimelock);
      }
      var ok := TransitionStatus(p.(eta := host.seqNo + cfg.delay), Passed);
      RefundDeposit(p.id, p.proposer);
      r := Done;
    }

    method Dispatch(p: Proposal, callSucceeds: bool) returns (r: Outcome)
      requires p.status == Passed && Solvent(host.tokens, escrow.deposits)
      modifies this
      ensures (Contents(), r) == Governance.Dispatch(old(Contents()), p, callSucceeds)
    {
      hide Refund, Forfeit, Solvent;
      if host.seqNo < p.eta {
        return Failed(TimelockNotExpired);
      }
      if !callSucceeds {
        events := events + [ExecutionFailed(p.id)];
        return Done;
      }
      var ok := TransitionStatus(p, Executed);
      exec := Executions(exec.executed + {p.id}, Min(U64_MAX, exec.nonce + 1));
      RefundDeposit(p.id, p.proposer);
      events := events + [ProposalExecuted(p.id)];
      r := Done;
    }

    // ----- the veto multisig -----

    method ConfigureVetoMultisig(signers: seq<Address>, threshold: nat) returns (r: Outcome)
      requires Valid()
      modifies this
      ensures Valid() && (Contents(), r) == ConfigureVeto(old(Contents()), signers, threshold)
    {
      hide Inv;
      StepKeepsInv(Contents(), ConfigureSigners(signers, threshold));
      if signers == [] || threshold == 0 || threshold > |signers| {
        return Failed(InvalidVetoMultisigConfig);
      }
      for i := 0 to |signers|
        invariant forall a, b :: 0 <= a < i && a < b < |signers| ==> signers[a] != signers[b]
      {
        for j := i + 1 to |signers|
          invariant forall b :: i < b < j ==> signers[i] != signers[b]
        {
          if signers[i] == signers[j] {
            return Failed(InvalidVetoMultisigConfig);
          }
        }
      }
      veto := veto.(signers := Some(signers), threshold := threshold);
      r := Done;
    }

    /** The signers that hold a durable approval, in the order of the configured set. */
    method VetoApprovals(id: nat) returns (approved: seq<Address>)
      ensures approved == Approvers(if veto.signers.None? then [] else veto.signers.value, veto.approvals, id)
    {
      var all := if veto.signers.None? then [] else veto.signers.value;
      approved := [];
      for i := 0 to |all|
        invariant approved == Approvers(all[..i], veto.approvals, id)
      {
        assert all[..i + 1][..i] == all[..i];
        if (id, all[i]) in veto.approvals {
          approved := approved + [all[i]];
        }
      }
      assert all[..|all|] == all;
    }

    method VetoProposal(signer: Address, id: nat, reasonGiven: bool) returns (r: Outcome)
      requires Valid()
      modifies this
      ensures Valid() && (Contents(), r) == Governance.VetoProposal(old(Contents()), signer, id, reasonGiven)
    {
      hide Inv, Forfeit, Approvers;
      ghost var s := Contents();
      StepKeepsInv(s, Veto(signer, id, reasonGiven));
      InvSolvent(s);
      if !reasonGiven {
        return Failed(ConsentRequired);
      }
      if !veto.enabled {
        return Failed(VetoPowerDisabled);
      }
      if veto.signers.None? {
        return Failed(VetoMultisigNotConfigured);
      }
      if signer !in veto.signers.value {
        return Failed(NotVetoSigner);
      }
      var error := LoadProposal(id);
      if error.Some? {
        return Failed(error.value);
      }
      var p := reg.proposals[id];
      if id !in reg.proposers {
        reg := reg.(proposers := reg.proposers[id := p.proposer]);
      }
      if reg.proposers[id] != p.proposer {
        return Failed(ProposerIdentityMismatch);
      }
      if p.status != Active && p.status != Passed {
        return Failed(NotVetoable);
      }
      if id in veto.phase && veto.phase[id] == VetoExecuted {
        return Failed(InvalidVetoTransition);
      }
      if (id, signer) in veto.approvals {
        return Failed(VetoAlreadyApproved);
      }
      veto := veto.(approvals := veto.approvals + {(id, signer)});
      var approved := VetoApprovals(id);
      if |approved| < veto.threshold {
        veto := veto.(phase := veto.phase[id := VetoPending]);
        return Done;
      }
      CarryOut(p, signer, approved);
      r := Done;
    }

    method CarryOut(p: Proposal, signer: Address, approved: seq<Address>)
      requires (p.status == Active || p.status == Passed) && Solvent(host.tokens, escrow.deposits)
      modifies this
      ensures (Contents(), Done) == CarryOutVeto(old(Contents()), p, signer, approved)
    {
      hide Forfeit, Solvent;
      ghost var before := veto.approvals;
      for i := 0 to |approved|
        invariant veto.approvals == before - (set a | a in approved[..i] :: (p.id, a))
        invariant Contents() == old(Contents()).(veto := old(Contents()).veto.(approvals := veto.approvals))
      {
        assert forall a :: a in approved[..i + 1] <==> a in approved[..i] || a == approved[i];
        veto := veto.(approvals := veto.approvals - {(p.id, approved[i])});
      }
      assert approved[..|approved|] == approved;
      var ok := TransitionStatus(p, Vetoed);
      veto := veto.(phase := veto.phase[p.id := VetoExecuted]);
      ForfeitDeposit(p.id, p.proposer);
      events := events + [ProposalVetoed(p.id, signer)];
    }

    method DisableVetoPower() returns (r: Outcome)
      requires Valid()
      modifies this
      ensures Valid() && (Contents(), r) == DisableVeto(old(Contents()))
    {
      hide Inv;
      StepKeepsInv(Contents(), Op.DisableVetoPower);
      if !veto.enabled {
        return Failed(VetoPowerAlreadyDisabled);
      }
      veto := veto.(enabled := false);
      r := Done;
    }

    method SetExecutionDelay(caller: Address, ledgers: nat) returns (r: Outcome)
      requires Valid()
      modifies this
      ensures Valid() && (Contents(), r) == Governance.SetExecutionDelay(old(Contents()), caller, ledgers)
    {
      hide Inv;
      StepKeepsInv(Contents(), SetDelay(caller, ledgers));
      if caller != cfg.admin {
        return Failed(Unauthorized);
      }
      if ledgers > MAX_EXECUTION_DELAY {
        return Failed(InvalidExecutionDelay);
      }
      if !veto.enabled && ledgers < MIN_PRODUCTION_EXECUTION_DELAY {
        return Failed(ExecutionDelayOutOfBounds);
      }
      cfg := cfg.(delay := ledgers);
      r := Done;
    }

    // ----- delegation -----

    method DelegateVotes(delegator: Address, delegate: Address) returns (r: Outcome)
      requires Valid()
      modifies delegations
      ensures Valid() && (Contents(), r) == Governance.DelegateVotes(old(Contents()), delegator, delegate)
    {
      hide Inv, ValidBook, Delegate;
      ghost var s := Contents();
      StepKeepsInv(s, DelegateTo(delegator, delegate));
      InvBook(s);
      var proven := ProvenOwnBalance(delegator, host.seqNo);
      r := delegations.DelegateVotes(delegator, delegate, if proven.None? then None else Some(proven.value));
    }

    method UndelegateVotes(delegator: Address)
      requires Valid()
      modifies delegations
      ensures Valid() && Contents() == Governance.UndelegateVotes(old(Contents()), delegator).0
    {
      hide Inv, ValidBook, Undelegate;
      ghost var s := Contents();
      StepKeepsInv(s, Withdraw(delegator));
      InvBook(s);
      delegations.UndelegateVotes(delegator, BalanceOf(host.tokens, delegator));
    }
  }
}
