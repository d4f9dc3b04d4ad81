/** What holds in every run of the governance contract, under both readings of a failed call. */
module GovernanceRuns {
  import opened MachineInts
  import opened Outcomes
  import opened Tokens
  import opened Delegation
  import opened Governance
  import opened GovernanceInvariant
  import opened GovernanceSteps

  /** No call creates a proposal once the 64-bit counter is exhausted. */
  ghost predicate IdsLeft(states: seq<State>, ops: seq<Op>)
    requires |states| == |ops| + 1
  {
    forall i :: 0 <= i < |ops| && ops[i].Create? ==> states[i].reg.count < U64_MAX
  }

  ghost predicate Run(states: seq<State>, ops: seq<Op>, reading: Reading) {
    IsRun(states, ops, reading) && IdsLeft(states, ops)
  }

  lemma TransactKeepsInv(s: State, op: Op, reading: Reading)
    requires Inv(s) && (op.Create? ==> s.reg.count < U64_MAX)
    ensures Inv(Transact(s, op, reading))
  {
    hide Inv, Step;
    StepKeepsInv(s, op);
  }

  /**
   In every reachable state: storage agrees with the event log for every proposal, the contract
   covers all open deposits, the delegation graph is acyclic and mirrored, and the rest of Inv.
   */
  lemma {:induction false} RunKeepsInv(states: seq<State>, ops: seq<Op>, reading: Reading, j: nat)
    requires Run(states, ops, reading) && j < |states|
    ensures Inv(states[j])
  {
    hide Inv, Transact, Initial;
    if j == 0 {
      InitialInv(states[0]);
    } else {
      RunKeepsInv(states, ops, reading, j - 1);
      TransactKeepsInv(states[j - 1], ops[j - 1], reading);
    }
  }

  // ----- what one step can do to one proposal -----

  ghost predicate VoteMove(s: State, op: Op, p: Proposal, p': Proposal) {
    && op.Vote? && op.id == p.id && p.status == Active && s.host.time < p.votingEnd
    && p' == p.(votesFor := p'.votesFor, votesAgainst := p'.votesAgainst)
  }

  /**
   A strict majority, and a turnout of at least the quorum: the supply times the quorum in basis
   points, rounded down, where a product beyond 128 bits counts as the largest 128-bit number.
   */
  ghost predicate Won(cfg: Settings, p: Proposal) {
    && p.votesFor > p.votesAgainst
    && (p.votesFor + p.votesAgainst + 1) * 10_000 > Min(I128_MAX, cfg.totalSupply * cfg.quorumBps)
  }

  /** The tallies can be added and the quorum is known. */
  ghost predicate Readable(cfg: Settings, p: Proposal) {
    && p.votesFor >= 0 && p.votesAgainst >= 0 && p.votesFor + p.votesAgainst <= I128_MAX
    && cfg.totalSupply > 0 && 1 <= cfg.quorumBps <= 10_000
  }

  /** The comparison with the rounded quorum decides Won. */
  lemma QuorumDecides(s: State, p: Proposal)
    requires Readable(s.cfg, p)
    ensures Won(s.cfg, p) <==> p.votesFor + p.votesAgainst >= Quorum(s) && p.votesFor > p.votesAgainst
  {
    var product, votes := s.cfg.totalSupply * s.cfg.quorumBps, p.votesFor + p.votesAgainst;
    assert product > 0;
    assert SatMul(s.cfg.totalSupply, s.cfg.quorumBps) == Min(I128_MAX, product);
    RoundedDown(Min(I128_MAX, product), votes);
  }

  lemma RoundedDown(x: int, votes: int)
    ensures votes >= x / 10_000 <==> (votes + 1) * 10_000 > x
  {
  }

  ghost predicate Closing(s: State, op: Op, p: Proposal) {
    op.Execute? && op.id == p.id && p.status == Active && s.host.time >= p.votingEnd && Readable(s.cfg, p)
  }

  ghost predicate PassMove(s: State, op: Op, p: Proposal, p': Proposal) {
    && Closing(s, op, p) && Won(s.cfg, p) && s.host.seqNo + s.cfg.delay <= U32_MAX
    && p' == p.(status := Passed, eta := s.host.seqNo + s.cfg.delay)
  }

  ghost predicate RejectMove(s: State, op: Op, p: Proposal, p': Proposal) {
    Closing(s, op, p) && !Won(s.cfg, p) && p' == p.(status := Rejected)
  }

  /** The cross-contract call is made and succeeds. */
  ghost predicate DispatchMove(s: State, op: Op, p: Proposal, p': Proposal) {
    && op == Execute(p.id, true) && p.status == Passed && s.host.time >= p.votingEnd && s.host.seqNo >= p.eta
    && p' == p.(status := Executed)
  }

  ghost predicate VetoMove(s: State, op: Op, p: Proposal, p': Proposal) {
    && op.Veto? && op.id == p.id && s.veto.enabled && (p.status == Active || p.status == Passed)
    && s.veto.signers.Some? && op.signer in s.veto.signers.value
    && |Approvers(s.veto.signers.value, s.veto.approvals + {(p.id, op.signer)}, p.id)| >= s.veto.threshold
    && p' == p.(status := Vetoed)
  }

  ghost predicate Moves(s: State, op: Op, p: Proposal, p': Proposal) {
    || p' == p
    || VoteMove(s, op, p, p')
    || PassMove(s, op, p, p')
    || RejectMove(s, op, p, p')
    || DispatchMove(s, op, p, p')
    || VetoMove(s, op, p, p')
  }

  lemma InvIds(s: State, id: nat)
    requires Inv(s)
    ensures id in s.reg.proposals <==> 1 <= id <= s.reg.count
    ensures id in s.reg.proposals ==> s.reg.proposals[id].id == id && LoadError(s, id) == None
    ensures id in s.reg.proposals ==> id in s.reg.proposers && s.reg.proposers[id] == s.reg.proposals[id].proposer
    ensures id in s.reg.proposals ==> id in s.reg.createdLedger && s.reg.createdLedger[id] <= s.host.seqNo
  {
    hide RecordsAgree, Solvent, MirrorsOk, ExecutionsOk, VetoOk, CheckpointsOk, ValidBook;
  }

  lemma InvRecord(s: State, id: nat)
    requires Inv(s) && id in s.reg.proposals
    ensures RecordAgrees(s, id)
  {
    hide RecordAgrees, RecordsAgree, IdsOk, Solvent, MirrorsOk, ExecutionsOk, VetoOk, CheckpointsOk, ValidBook;
    RecordOf(s, id);
  }

  lemma RefundKeepsProposals(s: State, id: nat, proposer: Address)
    ensures Refund(s, id, proposer).Some? ==> Refund(s, id, proposer).value.reg == s.reg
    ensures Forfeit(s, id, proposer).Some? ==> Forfeit(s, id, proposer).value.reg == s.reg
  {
  }

  lemma ExecuteMoves(s: State, op: Op, id: nat)
    requires Inv(s) && op.Execute? && id in s.reg.proposals
    ensures id in Step(s, op).0.reg.proposals
    ensures Step(s, op).1 != Trapped ==> Moves(s, op, s.reg.proposals[id], Step(s, op).0.reg.proposals[id])
    ensures Step(s, op).1 == Done ==> !RejectMove(s, op, s.reg.proposals[id], Step(s, op).0.reg.proposals[id])
  {
    hide Inv, Refund, Forfeit, Quorum, Won;
    InvIds(s, id);
    if LoadError(s, op.id).None? {
      var p := s.reg.proposals[op.id];
      if Readable(s.cfg, p) {
        QuorumDecides(s, p);
      }
      RefundKeepsProposals(SetStatus(s, p, Rejected), p.id, p.proposer);
      RefundKeepsProposals(SetStatus(s, p.(eta := s.host.seqNo + s.cfg.delay), Passed), p.id, p.proposer);
      RefundKeepsProposals(SetStatus(s, p, Executed).(
        exec := Executions(s.exec.executed + {p.id}, Min(U64_MAX, s.exec.nonce + 1))), p.id, p.proposer);
    }
  }

  lemma VetoMoves(s: State, op: Op, id: nat)
    requires Inv(s) && op.Veto? && id in s.reg.proposals
    ensures id in Step(s, op).0.reg.proposals
    ensures Step(s, op).1 != Trapped ==> Moves(s, op, s.reg.proposals[id], Step(s, op).0.reg.proposals[id])
  {
    hide Inv, Forfeit, Approvers, PassMove, RejectMove, VoteMove, DispatchMove;
    InvIds(s, id);
    InvIds(s, op.id);
    if LoadError(s, op.id).None? && s.veto.signers.Some? {
      var p := s.reg.proposals[op.id];
      var approving := s.(veto := s.veto.(approvals := s.veto.approvals + {(op.id, op.signer)}));
      var approved := Approvers(s.veto.signers.value, approving.veto.approvals, op.id);
      var cleared := SetStatus(approving, p, Vetoed).(
        veto := approving.veto.(approvals := approving.veto.approvals - (set a | a in approved :: (p.id, a)),
                                phase := approving.veto.phase[p.id := VetoExecuted]));
      RefundKeepsProposals(cleared, p.id, p.proposer);
    }
  }

  lemma VoteMoves(s: State, op: Op, id: nat)
    requires Inv(s) && op.Vote? && id in s.reg.proposals
    ensures id in Step(s, op).0.reg.proposals
    ensures Moves(s, op, s.reg.proposals[id], Step(s, op).0.reg.proposals[id])
  {
    hide Inv, VoteWeight, ProvenBalance, PassMove, RejectMove, VetoMove, DispatchMove;
    InvIds(s, id);
  }

  lemma OtherMoves(s: State, op: Op, id: nat)
    requires Inv(s) && id in s.reg.proposals && !op.Execute? && !op.Veto? && !op.Vote?
    requires op.Create? ==> s.reg.count < U64_MAX
    ensures id in Step(s, op).0.reg.proposals && Step(s, op).0.reg.proposals[id] == s.reg.proposals[id]
  {
    hide Inv, Delegate, ProvenBalance, Undelegate, WithDeposit, NoDuplicates;
    if op.Create? {
      InvIds(s, s.reg.count + 1);
      if CreateProposal(s, op.proposer).1 == Done {
        var p := NewProposal(s, op.proposer);
        DepositShape(WithProposal(s, p, BalanceOf(s.host.tokens, op.proposer)), p, s.cfg.minDeposit);
      }
    }
  }

  /** Every step leaves a proposal alone or takes it along one of the five legal edges, for a reason. */
  lemma StepMoves(s: State, op: Op, reading: Reading, id: nat)
    requires Inv(s) && id in s.reg.proposals && (op.Create? ==> s.reg.count < U64_MAX)
    ensures
      var s' := Transact(s, op, reading);
      && id in s'.reg.proposals
      && Moves(s, op, s.reg.proposals[id], s'.reg.proposals[id])
      && (reading == DiscardOnError ==> !RejectMove(s, op, s.reg.proposals[id], s'.reg.proposals[id]))
  {
    hide Inv, Moves, Step, RejectMove;
    if op.Execute? {
      ExecuteMoves(s, op, id);
    } else if op.Veto? {
      VetoMoves(s, op, id);
    } else if op.Vote? {
      VoteMoves(s, op, id);
    } else {
      OtherMoves(s, op, id);
    }
    NoMove(s, op, s.reg.proposals[id]);
    OnlyExecuteRejects(s, op, s.reg.proposals[id], Transact(s, op, reading).reg.proposals[id]);
  }

  lemma NoMove(s: State, op: Op, p: Proposal)
    ensures Moves(s, op, p, p) && !RejectMove(s, op, p, p)
  {
  }

  lemma OnlyExecuteRejects(s: State, op: Op, p: Proposal, p': Proposal)
    ensures RejectMove(s, op, p, p') ==> op.Execute?
  {
  }

  lemma MovesAreLegal(s: State, op: Op, p: Proposal, p': Proposal)
    requires Moves(s, op, p, p')
    ensures p'.status == p.status || LegalTransition(p.status, p'.status)
    ensures p'.id == p.id && p'.proposer == p.proposer && p'.votingEnd == p.votingEnd && p'.createdAt == p.createdAt
  {
    hide Approvers;
  }

  // ----- proposals along a run -----

  ghost predicate At(states: seq<State>, j: nat, id: nat) {
    j < |states| && id in states[j].reg.proposals
  }

  function PropAt(states: seq<State>, j: nat, id: nat): Proposal
    requires At(states, j, id)
  {
    states[j].reg.proposals[id]
  }

  lemma MoveAt(states: seq<State>, ops: seq<Op>, reading: Reading, i: nat, id: nat)
    requires Run(states, ops, reading) && i < |ops| && At(states, i, id)
    ensures At(states, i + 1, id)
    ensures Moves(states[i], ops[i], PropAt(states, i, id), PropAt(states, i + 1, id))
    ensures reading == DiscardOnError ==>
              !RejectMove(states[i], ops[i], PropAt(states, i, id), PropAt(states, i + 1, id))
    ensures PropAt(states, i, id).id == id
  {
    hide Inv, Moves, RejectMove, Transact, Initial;
    RunKeepsInv(states, ops, reading, i);
    StepMoves(states[i], ops[i], reading, id);
    InvIds(states[i], id);
  }

  lemma TimeStep(s: State, op: Op, reading: Reading)
    ensures s.host.time <= Transact(s, op, reading).host.time
    ensures s.host.seqNo <= Transact(s, op, reading).host.seqNo
  {
    hide Delegate, Undelegate, ProvenBalance, VoteWeight, NoDuplicates, ExecuteProposal, VetoProposal;
    PayoutsKeepClock(s, op);
  }

  /** What executing and vetoing leave alone. */
  ghost predicate SameClock(s: State, s': State) {
    && s'.host.time == s.host.time && s'.host.seqNo == s.host.seqNo
    && s'.reg.createdLedger == s.reg.createdLedger && s'.book == s.book
  }

  lemma PayoutsKeepClock(s: State, op: Op)
    ensures op.Execute? || op.Veto? ==> SameClock(s, Step(s, op).0)
  {
    hide ExecuteProposal, VetoProposal;
    if op.Execute? {
      ExecuteKeepsClock(s, op.id, op.callSucceeds);
    } else if op.Veto? {
      VetoKeepsClock(s, op.signer, op.id, op.reasonGiven);
    }
  }

  lemma SettlingKeepsClock()
    ensures forall s, id: nat, a: Address :: Refund(s, id, a).Some? ==> SameClock(s, Refund(s, id, a).value)
    ensures forall s, id: nat, a: Address :: Forfeit(s, id, a).Some? ==> SameClock(s, Forfeit(s, id, a).value)
  {
  }

  lemma ExecuteKeepsClock(s: State, id: nat, callSucceeds: bool)
    ensures SameClock(s, ExecuteProposal(s, id, callSucceeds).0)
  {
    hide Quorum, Countable, Refund, Forfeit;
    SettlingKeepsClock();
  }

  lemma VetoKeepsClock(s: State, signer: Address, id: nat, reasonGiven: bool)
    ensures SameClock(s, VetoProposal(s, signer, id, reasonGiven).0)
  {
    hide Approvers, Refund, Forfeit;
    SettlingKeepsClock();
  }

  lemma {:induction false} TimePasses(states: seq<State>, ops: seq<Op>, reading: Reading, i: nat, j: nat)
    requires Run(states, ops, reading) && i <= j < |states|
    ensures states[i].host.time <= states[j].host.time && states[i].host.seqNo <= states[j].host.seqNo
    decreases j
  {
    hide Transact, Initial;
    if i < j {
      TimePasses(states, ops, reading, i, j - 1);
      TimeStep(states[j - 1], ops[j - 1], reading);
    }
  }

  /** A proposal never disappears; its identity and voting window never change. */
  lemma {:induction false} ProposalPersists(states: seq<State>, ops: seq<Op>, reading: Reading, i: nat, j: nat, id: nat)
    requires Run(states, ops, reading) && i <= j < |states| && At(states, i, id)
    ensures At(states, j, id)
    ensures PropAt(states, j, id).votingEnd == PropAt(states, i, id).votingEnd
    ensures PropAt(states, j, id).proposer == PropAt(states, i, id).proposer
    decreases j
  {
    hide Transact, Initial, Moves;
    if i < j {
      ProposalPersists(states, ops, reading, i, j - 1, id);
      MoveAt(states, ops, reading, j - 1, id);
      MovesAreLegal(states[j - 1], ops[j - 1], PropAt(states, j - 1, id), PropAt(states, j, id));
    }
  }

  lemma SettledMoves(s: State, op: Op, p: Proposal, p': Proposal)
    requires Moves(s, op, p, p') && p.status != Active
    ensures p'.status != Active && p' == p.(status := p'.status)
    ensures p.status != Passed ==> p' == p
    ensures p.status == Passed ==> p' == p || DispatchMove(s, op, p, p') || VetoMove(s, op, p, p')
  {
    hide Approvers;
  }

  /** Past Active, only the status moves; past Passed, nothing does. */
  lemma {:induction false} ResolvedStays(states: seq<State>, ops: seq<Op>, reading: Reading, i: nat, j: nat, id: nat)
    requires Run(states, ops, reading) && i <= j < |states| && At(states, i, id)
    requires PropAt(states, i, id).status != Active
    ensures At(states, j, id)
    ensures
      var p, q := PropAt(states, i, id), PropAt(states, j, id);
      && q == p.(status := q.status) && q.status != Active
      && (p.status != Passed ==> q == p)
    decreases j
  {
    hide Transact, Initial, Moves;
    if i < j {
      ResolvedStays(states, ops, reading, i, j - 1, id);
      MoveAt(states, ops, reading, j - 1, id);
      SettledMoves(states[j - 1], ops[j - 1], PropAt(states, j - 1, id), PropAt(states, j, id));
    }
  }

  lemma ClosedMoves(s: State, op: Op, p: Proposal, p': Proposal)
    requires Moves(s, op, p, p') && s.host.time >= p.votingEnd
    ensures p'.votesFor == p.votesFor && p'.votesAgainst == p.votesAgainst && p'.votingEnd == p.votingEnd
  {
    hide Approvers;
  }

  /** Tallies are frozen once the voting window has closed or the proposal has left Active. */
  lemma {:induction false} TalliesFrozen(states: seq<State>, ops: seq<Op>, reading: Reading, i: nat, j: nat, id: nat)
    requires Run(states, ops, reading) && i <= j < |states| && At(states, i, id)
    requires states[i].host.time >= PropAt(states, i, id).votingEnd || PropAt(states, i, id).status != Active
    ensures At(states, j, id)
    ensures PropAt(states, j, id).votesFor == PropAt(states, i, id).votesFor
    ensures PropAt(states, j, id).votesAgainst == PropAt(states, i, id).votesAgainst
    ensures PropAt(states, j, id).votingEnd == PropAt(states, i, id).votingEnd
    decreases j
  {
    hide Transact, Initial, Moves;
    if PropAt(states, i, id).status != Active {
      ResolvedStays(states, ops, reading, i, j, id);
    } else if i < j {
      TalliesFrozen(states, ops, reading, i, j - 1, id);
      TimePasses(states, ops, reading, i, j - 1);
      MoveAt(states, ops, reading, j - 1, id);
      ClosedMoves(states[j - 1], ops[j - 1], PropAt(states, j - 1, id), PropAt(states, j, id));
    }
  }

  // ----- the timelock -----

  ghost predicate PassesAt(states: seq<State>, ops: seq<Op>, i: nat, id: nat) {
    && i < |ops| && At(states, i, id) && At(states, i + 1, id)
    && PassMove(states[i], ops[i], PropAt(states, i, id), PropAt(states, i + 1, id))
  }

  ghost predicate DispatchesAt(states: seq<State>, ops: seq<Op>, i: nat, id: nat) {
    && i < |ops| && At(states, i, id) && At(states, i + 1, id)
    && DispatchMove(states[i], ops[i], PropAt(states, i, id), PropAt(states, i + 1, id))
  }

  lemma MoveToPassed(s: State, op: Op, p: Proposal, p': Proposal)
    requires Moves(s, op, p, p') && (p'.status == Passed || p'.status == Executed)
    ensures PassMove(s, op, p, p') || ((p.status == Passed || p.status == Executed) && p' == p.(status := p'.status))
  {
    hide Approvers;
  }

  lemma NoneAtFirst(states: seq<State>, ops: seq<Op>, reading: Reading, id: nat)
    requires Run(states, ops, reading)
    ensures !At(states, 0, id)
  {
    hide Transact;
  }

  lemma NotYetIssued(states: seq<State>, ops: seq<Op>, reading: Reading, j: nat, id: nat)
    requires Run(states, ops, reading) && 0 < j < |states| && !At(states, j - 1, id) && At(states, j, id)
    ensures PropAt(states, j, id).status == Active
  {
    hide Inv, Initial, Step, Transact;
    RunKeepsInv(states, ops, reading, j - 1);
    assert states[j] == Transact(states[j - 1], ops[j - 1], reading);
    NewIsActive(states[j - 1], ops[j - 1], reading, id);
  }

  lemma NewIsActive(s: State, op: Op, reading: Reading, id: nat)
    requires Inv(s) && id !in s.reg.proposals && id in Transact(s, op, reading).reg.proposals
    ensures op.Create? && Transact(s, op, reading) == Step(s, op).0 && Step(s, op).1 == Done
    ensures Transact(s, op, reading).reg.proposals[id].status == Active
  {
    hide Inv, Delegate, ProvenBalance, Undelegate, Forfeit, Refund, NoDuplicates, VoteWeight, Approvers;
    InvIds(s, id);
    if op.Execute? || op.Veto? || op.Vote? {
      forall j | j in s.reg.proposals
        ensures s.reg.proposals[j].id == j
      {
        InvIds(s, j);
      }
      KeysKept(s, op);
    }
  }

  lemma KeysKept(s: State, op: Op)
    requires op.Execute? || op.Veto? || op.Vote?
    requires forall id :: id in s.reg.proposals ==> s.reg.proposals[id].id == id
    ensures Step(s, op).0.reg.proposals.Keys == s.reg.proposals.Keys
  {
    hide Forfeit, Refund, VoteWeight, Approvers, ProvenBalance;
    if LoadError(s, op.id).None? {
      var p := s.reg.proposals[op.id];
      if op.Execute? {
        RefundKeepsProposals(SetStatus(s, p, Rejected), p.id, p.proposer);
        RefundKeepsProposals(SetStatus(s, p.(eta := s.host.seqNo + s.cfg.delay), Passed), p.id, p.proposer);
        RefundKeepsProposals(SetStatus(s, p, Executed).(
          exec := Executions(s.exec.executed + {p.id}, Min(U64_MAX, s.exec.nonce + 1))), p.id, p.proposer);
      } else if op.Veto? && s.veto.signers.Some? {
        var bound := if op.id in s.reg.proposers then s
                     else s.(reg := s.reg.(proposers := s.reg.proposers[op.id := p.proposer]));
        var approving := bound.(veto := s.veto.(approvals := s.veto.approvals + {(op.id, op.signer)}));
        var approved := Approvers(s.veto.signers.value, approving.veto.approvals, op.id);
        RefundKeepsProposals(SetStatus(approving, p, Vetoed).(
          veto := approving.veto.(approvals := approving.veto.approvals - (set a | a in approved :: (p.id, a)),
                                  phase := approving.veto.phase[p.id := VetoExecuted])), p.id, p.proposer);
      }
    }
  }

  /** A Passed or Executed proposal passed at some earlier step and keeps the eta set there. */
  lemma {:induction false} PassedOrigin(states: seq<State>, ops: seq<Op>, reading: Reading, j: nat, id: nat)
    requires Run(states, ops, reading) && At(states, j, id)
    requires PropAt(states, j, id).status == Passed || PropAt(states, j, id).status == Executed
    ensures exists i :: 0 <= i < j && PassesAt(states, ops, i, id)
              && PropAt(states, j, id) == PropAt(states, i + 1, id).(status := PropAt(states, j, id).status)
  {
    hide Transact, Inv, Moves, PassMove;
    if j == 0 {
      assert false;
    } else if At(states, j - 1, id) {
      hide Initial;
      MoveAt(states, ops, reading, j - 1, id);
      var p, p' := PropAt(states, j - 1, id), PropAt(states, j, id);
      MoveToPassed(states[j - 1], ops[j - 1], p, p');
      if PassMove(states[j - 1], ops[j - 1], p, p') {
        assert PassesAt(states, ops, j - 1, id);
      } else {
        PassedOrigin(states, ops, reading, j - 1, id);
        var i :| 0 <= i < j - 1 && PassesAt(states, ops, i, id)
                 && p == PropAt(states, i + 1, id).(status := p.status);
      }
    } else {
      hide Initial;
      NotYetIssued(states, ops, reading, j, id);
    }
  }

  /**
   A successful dispatch happens at most once per proposal; it was preceded by a step at which
   the vote was countable, met the quorum and had a strict majority; and it comes no earlier than
   that step's ledger plus the delay in force at that step, whatever the delay became later.
   */
  lemma DispatchedOnceAfterTimelock(states: seq<State>, ops: seq<Op>, reading: Reading, j: nat, id: nat)
    requires Run(states, ops, reading) && DispatchesAt(states, ops, j, id)
    ensures exists i :: 0 <= i < j && PassesAt(states, ops, i, id)
              && states[j].host.seqNo >= states[i].host.seqNo + states[i].cfg.delay
              && PropAt(states, j, id) == PropAt(states, i + 1, id)
    ensures forall k :: 0 <= k < |ops| && k != j ==> !DispatchesAt(states, ops, k, id)
  {
    hide Transact, Initial, Inv;
    PassedOrigin(states, ops, reading, j, id);
    var i :| 0 <= i < j && PassesAt(states, ops, i, id)
             && PropAt(states, j, id) == PropAt(states, i + 1, id).(status := PropAt(states, j, id).status);
    forall k | 0 <= k < |ops| && k != j
      ensures !DispatchesAt(states, ops, k, id)
    {
      if DispatchesAt(states, ops, k, id) {
        if k < j {
          ResolvedStays(states, ops, reading, k + 1, j, id);
        } else {
          ResolvedStays(states, ops, reading, j + 1, k, id);
        }
        assert false;
      }
    }
  }

  /** The execution nonce counts the Executed proposals, and each of them was published once. */
  lemma NonceCountsExecutions(states: seq<State>, ops: seq<Op>, reading: Reading, j: nat)
    requires Run(states, ops, reading) && j < |states|
    ensures
      var s := states[j];
      && s.exec.nonce == |set id | id in s.reg.proposals && s.reg.proposals[id].status == Executed|
      && forall id :: id in s.reg.proposals ==>
           Replay(s.events, id).executions == if s.reg.proposals[id].status == Executed then 1 else 0
  {
    hide Transact, Initial, Replay;
    RunKeepsInv(states, ops, reading, j);
    hide RecordsAgree;
    forall id | id in states[j].reg.proposals
      ensures Replay(states[j].events, id).executions ==
                if states[j].reg.proposals[id].status == Executed then 1 else 0
    {
      InvRecord(states[j], id);
    }
  }
}
