/** Deposits along a run: the contract stays solvent and every deposit is settled once, the right way. */
module GovernanceEscrow {
  import opened MachineInts
  import opened Outcomes
  import opened Tokens
  import opened Delegation
  import opened Governance
  import opened GovernanceInvariant
  import opened GovernanceSteps
  import opened GovernanceRuns

  // ----- the event log only grows -----

  /** `later` extends `earlier` without a new escrow for any of `ids`. */
  ghost predicate Grows(earlier: seq<Event>, later: seq<Event>, ids: set<nat>) {
    && earlier <= later
    && forall i :: |earlier| <= i < |later| && later[i].DepositEscrowed? ==> later[i].id !in ids
  }

  lemma {:induction false} ReplayGrows(earlier: seq<Event>, later: seq<Event>, ids: set<nat>, id: nat)
    requires Grows(earlier, later, ids) && id in ids
    ensures
      var h, h' := Replay(earlier, id), Replay(later, id);
      && h'.escrowed == h.escrowed && h'.refunds >= h.refunds && h'.forfeits >= h.forfeits
      && h'.executions >= h.executions && h'.votes >= h.votes
    decreases |later|
  {
    if |earlier| < |later| {
      var front := later[..|later| - 1];
      assert later == front + [later[|later| - 1]];
      ReplayGrows(earlier, front, ids, id);
      ReplayNext(front, later[|later| - 1], id);
    } else {
      assert later == earlier;
    }
  }

  lemma PayoutEvents(s: State, id: nat, proposer: Address, ids: set<nat>)
    ensures Refund(s, id, proposer).Some? ==> Grows(s.events, Refund(s, id, proposer).value.events, ids)
    ensures Forfeit(s, id, proposer).Some? ==> Grows(s.events, Forfeit(s, id, proposer).value.events, ids)
  {
  }

  lemma GrowsOne(earlier: seq<Event>, later: seq<Event>, e: Event, ids: set<nat>)
    requires Grows(earlier, later, ids) && (e.DepositEscrowed? ==> e.id !in ids)
    ensures Grows(earlier, later + [e], ids)
  {
  }

  lemma GrowsTrans(a: seq<Event>, b: seq<Event>, c: seq<Event>, ids: set<nat>)
    requires Grows(a, b, ids) && Grows(b, c, ids)
    ensures Grows(a, c, ids)
  {
  }

  lemma StepGrows(s: State, op: Op)
    requires Inv(s) && (op.Create? ==> s.reg.count < U64_MAX)
    ensures Grows(s.events, Step(s, op).0.events, s.reg.proposals.Keys)
  {
    hide Inv, Grows, Refund, Forfeit, Delegate, Undelegate, ProvenBalance, VoteWeight, Approvers, NoDuplicates;
    var ids := s.reg.proposals.Keys;
    SameLog(s.events, ids);
    match op
    case Create(proposer) =>
      InvIds(s, s.reg.count + 1);
      var p := NewProposal(s, proposer);
      GrowsOne(s.events, s.events, ProposalCreated(p.id, proposer), ids);
      if CreateProposal(s, proposer).1 == Done {
        var e := DepositEscrowed(p.id, proposer, s.cfg.minDeposit);
        GrowsOne(s.events, s.events, e, ids);
        GrowsOne(s.events, s.events + [e], ProposalCreated(p.id, proposer), ids);
      }
    case Vote(voter, id, support) =>
      if CastVote(s, voter, id, support).1 == Done {
        InvIds(s, id);
        var e := Step(s, op).0.events[|s.events|];
        GrowsOne(s.events, s.events, e, ids);
      }
    case Execute(id, callSucceeds) => ExecuteGrows(s, id, callSucceeds);
    case Veto(signer, id, reasonGiven) => VetoGrows(s, signer, id, reasonGiven);
    case _ =>
  }

  lemma SameLog(events: seq<Event>, ids: set<nat>)
    ensures Grows(events, events, ids)
  {
  }

  lemma ExecuteGrows(s: State, id: nat, callSucceeds: bool)
    requires Inv(s)
    ensures Grows(s.events, ExecuteProposal(s, id, callSucceeds).0.events, s.reg.proposals.Keys)
  {
    hide Inv, Grows, Refund, Forfeit, Quorum, Countable, QuorumKnown;
    var ids := s.reg.proposals.Keys;
    SameLog(s.events, ids);
    InvIds(s, id);
    if LoadError(s, id).None? {
      var p := s.reg.proposals[id];
      PayoutEvents(SetStatus(s, p, Rejected), p.id, p.proposer, ids);
      PayoutEvents(SetStatus(s, p.(eta := s.host.seqNo + s.cfg.delay), Passed), p.id, p.proposer, ids);
      var done := SetStatus(s, p, Executed).(
        exec := Executions(s.exec.executed + {p.id}, Min(U64_MAX, s.exec.nonce + 1)));
      PayoutEvents(done, p.id, p.proposer, ids);
      if Refund(done, p.id, p.proposer).Some? {
        GrowsOne(s.events, Refund(done, p.id, p.proposer).value.events, ProposalExecuted(p.id), ids);
      }
      GrowsOne(s.events, s.events, ExecutionFailed(p.id), ids);
    }
  }

  lemma VetoGrows(s: State, signer: Address, id: nat, reasonGiven: bool)
    requires Inv(s)
    ensures Grows(s.events, VetoProposal(s, signer, id, reasonGiven).0.events, s.reg.proposals.Keys)
  {
    hide Inv, Grows, Forfeit, Approvers;
    var ids := s.reg.proposals.Keys;
    SameLog(s.events, ids);
    InvIds(s, id);
    if LoadError(s, id).None? && s.veto.signers.Some? {
      var p := s.reg.proposals[id];
      var approving := s.(veto := s.veto.(approvals := s.veto.approvals + {(id, signer)}));
      var approved := Approvers(s.veto.signers.value, approving.veto.approvals, id);
      var cleared := SetStatus(approving, p, Vetoed).(
        veto := approving.veto.(approvals := approving.veto.approvals - (set a | a in approved :: (p.id, a)),
                                phase := approving.veto.phase[p.id := VetoExecuted]));
      PayoutEvents(cleared, p.id, p.proposer, ids);
      if Forfeit(cleared, p.id, p.proposer).Some? {
        GrowsOne(s.events, Forfeit(cleared, p.id, p.proposer).value.events, ProposalVetoed(p.id, signer), ids);
      }
    }
  }

  lemma {:induction false} LogGrows(states: seq<State>, ops: seq<Op>, reading: Reading, i: nat, j: nat, id: nat)
    requires Run(states, ops, reading) && i <= j < |states| && At(states, i, id)
    ensures Grows(states[i].events, states[j].events, {id})
    decreases j
  {
    hide Inv, Initial, Step, Grows;
    if i == j {
      SameLog(states[i].events, {id});
    } else {
      LogGrows(states, ops, reading, i, j - 1, id);
      ProposalPersists(states, ops, reading, i, j - 1, id);
      RunKeepsInv(states, ops, reading, j - 1);
      var s, op := states[j - 1], ops[j - 1];
      StepGrows(s, op);
      GrowsFewer(s.events, Step(s, op).0.events, s.reg.proposals.Keys, {id});
      SameLog(s.events, {id});
      assert Grows(s.events, states[j].events, {id});
      GrowsTrans(states[i].events, s.events, states[j].events, {id});
    }
  }

  lemma GrowsFewer(a: seq<Event>, b: seq<Event>, ids: set<nat>, fewer: set<nat>)
    requires Grows(a, b, ids) && fewer <= ids
    ensures Grows(a, b, fewer)
  {
  }

  // ----- settlement -----

  lemma RecordAt(states: seq<State>, ops: seq<Op>, reading: Reading, j: nat, id: nat)
    requires Run(states, ops, reading) && At(states, j, id)
    ensures RecordAgrees(states[j], id)
  {
    hide Inv, Initial, Transact, RecordAgrees;
    RunKeepsInv(states, ops, reading, j);
    InvRecord(states[j], id);
  }

  /**
   A deposit is escrowed exactly while its proposal is Active, and afterwards settled by exactly
   one payment of exactly its amount.
   */
  lemma SettledExactlyWhenResolved(states: seq<State>, ops: seq<Op>, reading: Reading, j: nat, id: nat)
    requires Run(states, ops, reading) && At(states, j, id)
    ensures id in states[j].escrow.settled <==> PropAt(states, j, id).status != Active
    ensures
      var h := Replay(states[j].events, id);
      if PropAt(states, j, id).status == Active then
        DepositOf(states[j], id) == h.escrowed && h.refunded == 0 && h.forfeited == 0
      else
        && id !in states[j].escrow.deposits
        && h.refunded + h.forfeited == h.escrowed
        && h.refunds + h.forfeits == if h.escrowed > 0 then 1 else 0
  {
    hide Replay, Initial, Transact, Inv, VotesAgree, OutcomeAgrees;
    RecordAt(states, ops, reading, j, id);
    RunKeepsInv(states, ops, reading, j);
    DepositsPositive(states[j], id);
  }

  lemma DepositsPositive(s: State, id: nat)
    requires Inv(s)
    ensures id in s.escrow.deposits ==> s.escrow.deposits[id] > 0
  {
    hide IdsOk, RecordsAgree, Solvent, MirrorsOk, ExecutionsOk, VetoOk, CheckpointsOk, ValidBook, RecordAgrees;
    RecordOf(s, id);
  }

  /** Once a proposal has passed, its whole deposit is refunded and never forfeited, even after a veto. */
  lemma PassedIsRefundedForGood(states: seq<State>, ops: seq<Op>, reading: Reading, i: nat, j: nat, id: nat)
    requires Run(states, ops, reading) && PassesAt(states, ops, i, id) && i < j < |states|
    ensures
      var h := Replay(states[j].events, id);
      && h.escrowed == DepositOf(states[i], id)
      && h.refunded == h.escrowed && h.refunds == (if h.escrowed > 0 then 1 else 0) && h.forfeits == 0
  {
    hide Replay, Initial, Transact, Inv, VotesAgree, OutcomeAgrees, Grows;
    RecordAt(states, ops, reading, i, id);
    RecordAt(states, ops, reading, i + 1, id);
    ResolvedStays(states, ops, reading, i + 1, j, id);
    RecordAt(states, ops, reading, j, id);
    LogGrows(states, ops, reading, i, j, id);
    ReplayGrows(states[i].events, states[j].events, {id}, id);
    LogGrows(states, ops, reading, i + 1, j, id);
    ReplayGrows(states[i + 1].events, states[j].events, {id}, id);
  }

  // ----- solvency -----

  /** What the contract holds beyond its open deposits. */
  ghost function Surplus(s: State): int {
    BalanceOf(s.host.tokens, SELF) - Sum(s.escrow.deposits, s.escrow.deposits.Keys)
  }

  lemma SurplusIsCover(states: seq<State>, ops: seq<Op>, reading: Reading, j: nat)
    requires Run(states, ops, reading) && j < |states|
    ensures Surplus(states[j]) >= 0
  {
    hide Initial, Transact, IdsOk, RecordsAgree, MirrorsOk, ExecutionsOk, VetoOk, CheckpointsOk, ValidBook, Sum;
    RunKeepsInv(states, ops, reading, j);
  }

  lemma DepositTaken(deposits: map<nat, nat>, id: nat)
    ensures Sum(deposits - {id}, (deposits - {id}).Keys) == Sum(deposits, deposits.Keys) - BalanceOf(deposits, id)
  {
    hide Sum;
    var d := deposits - {id};
    SumSame(deposits, d, d.Keys);
    if id in deposits {
      assert d.Keys == deposits.Keys - {id};
      SumRemove(deposits, deposits.Keys, id);
    } else {
      assert d == deposits;
    }
  }

  lemma DepositGiven(deposits: map<nat, nat>, id: nat, amount: nat)
    requires id !in deposits
    ensures Sum(deposits[id := amount], deposits[id := amount].Keys) == Sum(deposits, deposits.Keys) + amount
  {
    hide Sum;
    var d := deposits[id := amount];
    SumRemove(d, d.Keys, id);
    assert d.Keys - {id} == deposits.Keys;
    SumSame(deposits, d, deposits.Keys);
  }

  lemma PayoutSurplus(s: State, id: nat, proposer: Address)
    ensures Refund(s, id, proposer).Some? ==> Surplus(Refund(s, id, proposer).value) >= Surplus(s)
    ensures Refund(s, id, proposer).Some? && proposer != SELF && id !in s.escrow.settled ==>
              Surplus(Refund(s, id, proposer).value) == Surplus(s)
    ensures Forfeit(s, id, proposer).Some? ==> Surplus(Forfeit(s, id, proposer).value) >= Surplus(s)
  {
    hide Sum;
    DepositTaken(s.escrow.deposits, id);
  }

  /** No step lets one deposit be paid out of another: the uncommitted balance never falls. */
  lemma SurplusNeverFalls(s: State, op: Op, reading: Reading)
    requires Inv(s) && (op.Create? ==> s.reg.count < U64_MAX)
    ensures Surplus(Transact(s, op, reading)) >= Surplus(s)
  {
    hide Inv, Surplus, Step;
    StepSurplus(s, op);
  }

  lemma StepSurplus(s: State, op: Op)
    requires Inv(s) && (op.Create? ==> s.reg.count < U64_MAX)
    ensures Surplus(Step(s, op).0) >= Surplus(s)
  {
    hide Inv, Sum, Refund, Forfeit, Delegate, Undelegate, ProvenBalance, VoteWeight, Approvers, NoDuplicates;
    hide WithDeposit;
    match op
    case Create(proposer) =>
      if CreateProposal(s, proposer).1 == Done {
        CreateSurplus(s, proposer);
      }
    case Execute(id, callSucceeds) => ExecuteSurplus(s, id, callSucceeds);
    case Veto(signer, id, reasonGiven) => VetoSurplus(s, signer, id, reasonGiven);
    case _ =>
  }

  lemma CreateSurplus(s: State, proposer: Address)
    requires Inv(s) && s.reg.count < U64_MAX && CreateProposal(s, proposer).1 == Done
    ensures Surplus(CreateProposal(s, proposer).0) == Surplus(s)
  {
    hide Inv, Sum;
    var id := s.reg.count + 1;
    NewIdHasNoDeposit(s);
    DepositGiven(s.escrow.deposits, id, s.cfg.minDeposit);
  }

  lemma NewIdHasNoDeposit(s: State)
    requires Inv(s)
    ensures s.reg.count + 1 !in s.escrow.deposits
  {
    hide RecordsAgree, Solvent, MirrorsOk, ExecutionsOk, VetoOk, CheckpointsOk, ValidBook, RecordAgrees;
    RecordOf(s, s.reg.count + 1);
  }

  lemma ExecuteSurplus(s: State, id: nat, callSucceeds: bool)
    requires Inv(s)
    ensures Surplus(ExecuteProposal(s, id, callSucceeds).0) >= Surplus(s)
  {
    hide Inv, Sum, Refund, Forfeit, Quorum, Countable, QuorumKnown;
    if LoadError(s, id).None? {
      var p := s.reg.proposals[id];
      PayoutSurplus(SetStatus(s, p, Rejected), p.id, p.proposer);
      PayoutSurplus(SetStatus(s, p.(eta := s.host.seqNo + s.cfg.delay), Passed), p.id, p.proposer);
      PayoutSurplus(SetStatus(s, p, Executed).(
        exec := Executions(s.exec.executed + {p.id}, Min(U64_MAX, s.exec.nonce + 1))), p.id, p.proposer);
    }
  }

  lemma VetoSurplus(s: State, signer: Address, id: nat, reasonGiven: bool)
    requires Inv(s)
    ensures Surplus(VetoProposal(s, signer, id, reasonGiven).0) >= Surplus(s)
  {
    hide Inv, Sum, Forfeit, Approvers;
    InvIds(s, id);
    if LoadError(s, id).None? && s.veto.signers.Some? {
      var p := s.reg.proposals[id];
      var approving := s.(veto := s.veto.(approvals := s.veto.approvals + {(id, signer)}));
      var approved := Approvers(s.veto.signers.value, approving.veto.approvals, id);
      PayoutSurplus(SetStatus(approving, p, Vetoed).(
        veto := approving.veto.(approvals := approving.veto.approvals - (set a | a in approved :: (p.id, a)),
                                phase := approving.veto.phase[p.id := VetoExecuted])), p.id, p.proposer);
    }
  }
}
