/**
 When a call is accepted, which error it returns otherwise, and what an accepted call does, all told
 from the state before it. Each law holds in every reachable state.
 */
module Acceptance {
  import opened MachineInts
  import opened Outcomes
  import opened Tokens
  import opened Delegation
  import opened Governance
  import opened GovernanceInvariant
  import opened GovernanceSteps
  import opened GovernanceRuns
  import opened GovernanceVeto
  import opened GovernanceProgress
  import opened VoteAccount

  // ----- creating -----

  /**
   Anyone but the contract may propose who holds the balance gate and the deposit. The proposal gets
   the next id and three days to vote; the whole balance becomes the proposer's snapshot.
   */
  lemma CreateAcceptedIff(s: State, proposer: Address)
    requires Inv(s) && s.reg.count < U64_MAX
    ensures
      var (s', r) := CreateProposal(s, proposer);
      var balance, deposit, id := BalanceOf(s.host.tokens, proposer), s.cfg.minDeposit, s.reg.count + 1;
      && r == (if proposer == SELF then Trapped
               else if balance < s.cfg.minBalance || balance < deposit then Failed(InsufficientProposerBalance)
               else Done)
      && (r != Done ==> s' == s)
      && (r == Done ==>
            && s'.reg.count == id
            && s'.reg.proposals == s.reg.proposals[
                 id := Proposal(id, proposer, Active, 0, 0, s.host.time, Min(U64_MAX, s.host.time + 259_200), 0)]
            && s'.reg.createdLedger == s.reg.createdLedger[id := s.host.seqNo]
            && s'.ballots.snapshots == s.ballots.snapshots[(id, proposer) := balance]
            && s'.ballots.latest == (if proposer in s.ballots.latest then s.ballots.latest
                                     else s.ballots.latest[proposer := Checkpoint(balance, s.host.seqNo)])
            && s'.ballots.prior == s.ballots.prior && s'.ballots.receipts == s.ballots.receipts
            && s'.escrow.deposits == (if deposit == 0 then s.escrow.deposits else s.escrow.deposits[id := deposit])
            && s'.events == s.events + (if deposit == 0 then [] else [DepositEscrowed(id, proposer, deposit)])
                            + [ProposalCreated(id, proposer)]
            && s'.cfg == s.cfg && s'.veto == s.veto && s'.book == s.book && s'.exec == s.exec)
  {
    hide IdsOk, RecordsAgree, Solvent, MirrorsOk, ExecutionsOk, VetoOk, CheckpointsOk, ValidBook, Transfer;
  }

  // ----- voting -----

  /** A checkpoint proves a balance at `ledger` once ten ledgers have passed, or at the last ledger number. */
  ghost predicate OldEnough(c: Checkpoint, ledger: nat) {
    Min(4_294_967_295, c.ledger + 10) <= ledger
  }

  /** The proven balance is that of the newest stored checkpoint that is old enough, or the live one if less. */
  lemma ProvenIs(s: State, v: Address, ledger: nat)
    requires CheckpointsOk(s.ballots, s.host.seqNo)
    ensures
      var b, live := s.ballots, BalanceOf(s.host.tokens, v);
      ProvenBalance(s, v, ledger) ==
        if v in b.latest && OldEnough(b.latest[v], ledger) then Some(Min(b.latest[v].balance, live))
        else if v in b.prior && OldEnough(b.prior[v], ledger) then Some(Min(b.prior[v].balance, live))
        else None
  {
  }

  /** Nobody has two checkpoints of the same ledger, so the two slots tell all that can be proven. */
  ghost predicate Provable(s: State, v: Address, ledger: nat) {
    (v in s.ballots.latest && OldEnough(s.ballots.latest[v], ledger))
    || (v in s.ballots.prior && OldEnough(s.ballots.prior[v], ledger))
  }

  ghost function VoteOutcome(s: State, voter: Address, id: nat): Outcome {
    if id !in s.reg.proposals || id !in s.reg.createdLedger then Failed(ProposalNotFound)
    else
      var p, key := s.reg.proposals[id], (id, voter);
      if s.host.time >= p.votingEnd then Failed(VotingEnded)
      else if p.status != Active then Failed(ProposalNotActive)
      else if key in s.ballots.receipts then Failed(AlreadyVoted)
      else if key !in s.ballots.snapshots && !Provable(s, voter, s.reg.createdLedger[id]) then
        Failed(InsufficientHoldingPeriod)
      else if Counted(s, id, voter) == 0 then Failed(NoVotingPower)
      else Done
  }

  lemma VoteOutcomeIs(s: State, voter: Address, id: nat, support: bool)
    requires Inv(s)
    ensures CastVote(s, voter, id, support).1 == VoteOutcome(s, voter, id)
  {
    hide Inv, ProvenBalance, Counted, CheckpointsOk, ValidBook, OldEnough;
    InvIds(s, id);
    InvMirrors(s);
    InvCheckpoints(s);
    InvBook(s);
    if id in s.reg.proposals {
      ProvenIs(s, voter, s.reg.createdLedger[id]);
      OwnWeighs(s, voter, id);
    }
  }

  /** Own part and tally, weighed as the contract does, are what Counted says. */
  lemma OwnWeighs(s: State, voter: Address, id: nat)
    requires ValidBook(s.book)
    ensures VoteWeight(s, voter, Own(s, id, voter)) == Counted(s, id, voter)
  {
    hide Own, Mirrored;
  }

  /**
   A vote is accepted if and only if the proposal exists, is Active and in its window, the voter has
   not voted and has a snapshot or a proof, and the vote counts for something. It then adds what it
   counts to the side it names, and only there, and leaves one receipt.
   */
  lemma VoteAcceptedIff(s: State, voter: Address, id: nat, support: bool)
    requires Inv(s)
    ensures
      var (s', r) := CastVote(s, voter, id, support);
      && r == VoteOutcome(s, voter, id)
      && (r == Done ==>
            var p, key, w := s.reg.proposals[id], (id, voter), Counted(s, id, voter);
            && w > 0
            && s'.reg == s.reg.(proposals := s.reg.proposals[
                 id := if support then p.(votesFor := Min(I128_MAX, p.votesFor + w))
                       else p.(votesAgainst := Min(I128_MAX, p.votesAgainst + w))])
            && s'.ballots.receipts == s.ballots.receipts[key := w]
            && s'.ballots.snapshots == s.ballots.snapshots[key := Own(s, id, voter)]
            && s'.ballots.latest == s.ballots.latest && s'.ballots.prior == s.ballots.prior
            && s'.events == s.events + [VoteCast(id, voter, support, w)]
            && s'.host == s.host && s'.cfg == s.cfg && s'.escrow == s.escrow && s'.veto == s.veto
            && s'.book == s.book && s'.exec == s.exec)
  {
    hide Inv, ProvenBalance, Counted, ValidBook, VoteOutcome, VoteWeight;
    VoteOutcomeIs(s, voter, id, support);
    if CastVote(s, voter, id, support).1 == Done {
      InvIds(s, id);
      InvBook(s);
      TalliesNonNegative(s, id);
      OwnWeighs(s, voter, id);
      WeightIsPositive(s, voter, Own(s, id, voter));
    }
  }

  // ----- executing -----

  ghost function ExecuteOutcome(s: State, id: nat): Outcome {
    if id !in s.reg.proposals then Failed(ProposalNotFound)
    else
      var p := s.reg.proposals[id];
      if p.status == Vetoed then Failed(ProposalCancelled)
      else if p.status == Executed then Failed(ProposalAlreadyExecuted)
      else if s.host.time < p.votingEnd then Failed(VotingOngoing)
      else if p.status == Rejected then Failed(AlreadyResolved)
      else if p.status == Passed then if s.host.seqNo < p.eta then Failed(TimelockNotExpired) else Done
      else if p.votesFor + p.votesAgainst > I128_MAX then Failed(InvalidVoteAccounting)
      else if s.cfg.totalSupply <= 0 then Failed(QuorumDataMissing)
      else if (p.votesFor + p.votesAgainst + 1) * 10_000 <= Min(I128_MAX, s.cfg.totalSupply * s.cfg.quorumBps) then
        Failed(QuorumNotReached)
      else if p.votesFor <= p.votesAgainst then Failed(ProposalRejected)
      else if s.host.seqNo + s.cfg.delay > U32_MAX then Failed(InvalidTimelock)
      else Done
  }

  /** The result of every call to execute; with ExecuteResolvesIff and DispatchSucceedsIff, also its effect. */
  lemma ExecuteOutcomeIs(s: State, id: nat, callSucceeds: bool)
    requires Inv(s)
    ensures ExecuteProposal(s, id, callSucceeds).1 == ExecuteOutcome(s, id)
  {
    hide Inv, Quorum, Refund, Forfeit;
    InvIds(s, id);
    ExecuteKeepsInv(s, id, callSucceeds);
    if id in s.reg.proposals {
      TalliesNonNegative(s, id);
      TurnoutDecides(s, s.reg.proposals[id]);
    }
  }

  lemma TurnoutDecides(s: State, p: Proposal)
    requires p.votesFor >= 0 && p.votesAgainst >= 0 && 1 <= s.cfg.quorumBps <= 10_000
    ensures s.cfg.totalSupply > 0 ==>
              (p.votesFor + p.votesAgainst < Quorum(s) <==>
               (p.votesFor + p.votesAgainst + 1) * 10_000 <= Min(I128_MAX, s.cfg.totalSupply * s.cfg.quorumBps))
  {
    if s.cfg.totalSupply > 0 {
      var product := s.cfg.totalSupply * s.cfg.quorumBps;
      assert product > 0;
      assert SatMul(s.cfg.totalSupply, s.cfg.quorumBps) == Min(I128_MAX, product);
      RoundedDown(Min(I128_MAX, product), p.votesFor + p.votesAgainst);
    }
  }

  // ----- vetoing -----

  ghost function VetoOutcome(s: State, signer: Address, id: nat, reasonGiven: bool): Outcome {
    if !reasonGiven then Failed(ConsentRequired)
    else if !s.veto.enabled then Failed(VetoPowerDisabled)
    else if s.veto.signers.None? then Failed(VetoMultisigNotConfigured)
    else if signer !in s.veto.signers.value then Failed(NotVetoSigner)
    else if id !in s.reg.proposals then Failed(ProposalNotFound)
    else if s.reg.proposals[id].status != Active && s.reg.proposals[id].status != Passed then Failed(NotVetoable)
    else if (id, signer) in s.veto.approvals then Failed(VetoAlreadyApproved)
    else Done
  }

  /** The configured signers who have approved the veto of `id`, with this one. */
  ghost function Approving(s: State, signer: Address, id: nat): set<Address>
    requires s.veto.signers.Some?
  {
    set a | a in s.veto.signers.value && (a == signer || (id, a) in s.veto.approvals)
  }

  lemma ApproversAre(s: State, signer: Address, id: nat)
    requires Inv(s) && s.veto.signers.Some?
    ensures
      var approved := Approvers(s.veto.signers.value, s.veto.approvals + {(id, signer)}, id);
      Members(approved) == Approving(s, signer, id) && |approved| == |Approving(s, signer, id)|
  {
    hide Inv, Approvers;
    InvVeto(s);
    ApproversContents(s.veto.signers.value, s.veto.approvals + {(id, signer)}, id);
    DistinctSize(Approvers(s.veto.signers.value, s.veto.approvals + {(id, signer)}, id));
  }

  /**
   An accepted veto call takes effect if and only if the configured signers who have approved, with
   this one, number at least the threshold. Otherwise it only adds the approval. A refused call
   changes nothing.
   */
  lemma VetoResolvesIff(s: State, signer: Address, id: nat, reasonGiven: bool)
    requires Inv(s)
    ensures
      var (s', r) := VetoProposal(s, signer, id, reasonGiven);
      && r == VetoOutcome(s, signer, id, reasonGiven)
      && (r != Done ==> s' == s)
      && (r == Done ==>
            var p, who, approvals := s.reg.proposals[id], Approving(s, signer, id), s.veto.approvals + {(id, signer)};
            if |who| >= s.veto.threshold then
              && s'.reg == s.reg.(proposals := s.reg.proposals[id := p.(status := Vetoed)])
              && s'.veto.approvals == approvals - (set a | a in who :: (id, a))
              && s'.veto.phase == s.veto.phase[id := VetoExecuted]
              && |s'.events| > |s.events| && s'.events[|s'.events| - 1] == ProposalVetoed(id, signer)
            else
              && s'.reg == s.reg && s'.veto.approvals == approvals && s'.host == s.host && s'.escrow == s.escrow
              && s'.events == s.events && s'.veto.phase == s.veto.phase[id := VetoPending])
  {
    hide Inv, Approvers, Forfeit, Approving;
    VetoKeepsInv(s, signer, id, reasonGiven);
    InvIds(s, id);
    InvVeto(s);
    if s.veto.signers.Some? && id in s.reg.proposals {
      ApproversAre(s, signer, id);
      var p := s.reg.proposals[id];
      var approvals := s.veto.approvals + {(id, signer)};
      var approved := Approvers(s.veto.signers.value, approvals, id);
      var cleared := SetStatus(s, p, Vetoed).(
        veto := s.veto.(approvals := approvals - (set b | b in approved :: (p.id, b)),
                        phase := s.veto.phase[p.id := VetoExecuted]));
      ForfeitKeepsVeto(cleared, p.id, p.proposer);
      SameKeys(approved, Approving(s, signer, id), id);
    }
  }

  lemma SameKeys(approved: seq<Address>, who: set<Address>, id: nat)
    requires Members(approved) == who
    ensures (set b | b in approved :: (id, b)) == (set a | a in who :: (id, a))
  {
    assert forall a :: a in approved <==> a in who;
  }

  lemma ForfeitKeepsVeto(s: State, id: nat, proposer: Address)
    ensures Forfeit(s, id, proposer).Some? ==>
              var t := Forfeit(s, id, proposer).value;
              t.reg == s.reg && t.veto == s.veto && |t.events| >= |s.events|
  {
  }
}
