/**
 Who pays and who is paid. In every run the balance of every account is what the published deposit
 events say, plus what the world outside the contract moved.
 */
module GovernanceTokens {
  import opened MachineInts
  import opened Outcomes
  import opened Tokens
  import opened Delegation
  import opened Governance
  import opened GovernanceInvariant
  import opened GovernanceRuns

  // ----- what the events say -----

  function Gain(a: Address, who: Address, amount: int): int {
    if a == who then amount else 0
  }

  /** What an event says about the balance of `a`. */
  function Flow(e: Event, a: Address): int {
    match e
    case DepositEscrowed(_, proposer, amount) => Gain(a, SELF, amount) - Gain(a, proposer, amount)
    case DepositRefunded(_, proposer, amount) => Gain(a, proposer, amount) - Gain(a, SELF, amount)
    case DepositForfeited(_, _, amount, sink) =>
      if sink.None? then 0 else Gain(a, sink.value, amount) - Gain(a, SELF, amount)
    case _ => 0
  }

  function Flows(events: seq<Event>, a: Address): int {
    if events == [] then 0 else Flows(events[..|events| - 1], a) + Flow(events[|events| - 1], a)
  }

  /** The part of a balance that the events do not explain. */
  function Unexplained(s: State, a: Address): int {
    BalanceOf(s.host.tokens, a) - Flows(s.events, a)
  }

  lemma PublishExplains(s: State, e: Event, a: Address)
    ensures Unexplained(Publish(s, e), a) == Unexplained(s, a) - Flow(e, a)
  {
    assert (s.events + [e])[..|s.events|] == s.events;
  }

  lemma TransferMoves(bal: Balances, from: Address, to: Address, amount: nat, a: Address)
    requires amount <= BalanceOf(bal, from)
    ensures BalanceOf(Transfer(bal, from, to, amount), a) ==
              BalanceOf(bal, a) + Gain(a, to, amount) - Gain(a, from, amount)
  {
  }

  // ----- every payment is published -----

  lemma PaymentsExplained(s: State, id: nat, proposer: Address, a: Address)
    ensures Refund(s, id, proposer).Some? ==> Unexplained(Refund(s, id, proposer).value, a) == Unexplained(s, a)
    ensures Forfeit(s, id, proposer).Some? ==> Unexplained(Forfeit(s, id, proposer).value, a) == Unexplained(s, a)
  {
    hide Transfer, Flows;
    var amount := DepositOf(s, id);
    if amount <= BalanceOf(s.host.tokens, SELF) {
      TransferMoves(s.host.tokens, SELF, proposer, amount, a);
      PublishExplains(Settled(Paid(s, proposer, amount), id), DepositRefunded(id, proposer, amount), a);
      if s.cfg.sink.Some? {
        var sink := s.cfg.sink.value;
        TransferMoves(s.host.tokens, SELF, sink, amount, a);
        PublishExplains(Settled(Paid(s, sink, amount), id), DepositForfeited(id, proposer, amount, s.cfg.sink), a);
      }
    }
    PublishExplains(Settled(s, id), DepositForfeited(id, proposer, amount, None), a);
  }

  lemma SameFunds(s: State, s': State, a: Address)
    requires s'.host.tokens == s.host.tokens && s'.events == s.events
    ensures Unexplained(s', a) == Unexplained(s, a)
  {
  }

  lemma CreateExplained(s: State, proposer: Address, a: Address)
    ensures Unexplained(CreateProposal(s, proposer).0, a) == Unexplained(s, a)
  {
    hide Transfer, Flows;
    if CreateProposal(s, proposer).1 == Done {
      var p := NewProposal(s, proposer);
      var s1, amount := WithProposal(s, p, BalanceOf(s.host.tokens, proposer)), s.cfg.minDeposit;
      TransferMoves(s1.host.tokens, proposer, SELF, amount, a);
      var moved := s1.(host := s1.host.(tokens := Transfer(s1.host.tokens, proposer, SELF, amount)),
                       escrow := s1.escrow.(deposits := s1.escrow.deposits[p.id := amount]));
      PublishExplains(moved, DepositEscrowed(p.id, proposer, amount), a);
      PublishExplains(WithDeposit(s1, p, amount), ProposalCreated(p.id, proposer), a);
    }
  }

  lemma VoteExplained(s: State, voter: Address, id: nat, support: bool, a: Address)
    ensures Unexplained(CastVote(s, voter, id, support).0, a) == Unexplained(s, a)
  {
    hide ProvenBalance, VoteWeight, Flows;
    var s' := CastVote(s, voter, id, support).0;
    if CastVote(s, voter, id, support).1 == Done {
      var e := s'.events[|s.events|];
      PublishExplains(s, e, a);
      assert s'.events == s.events + [e];
      SameFunds(Publish(s, e), s', a);
    } else {
      SameFunds(s, s', a);
    }
  }

  lemma ExecuteExplained(s: State, id: nat, callSucceeds: bool, a: Address)
    ensures Unexplained(ExecuteProposal(s, id, callSucceeds).0, a) == Unexplained(s, a)
  {
    hide Refund, Forfeit, Quorum, Flows;
    if LoadError(s, id).None? {
      var p := s.reg.proposals[id];
      PaymentsExplained(SetStatus(s, p, Rejected), p.id, p.proposer, a);
      PaymentsExplained(SetStatus(s, p.(eta := s.host.seqNo + s.cfg.delay), Passed), p.id, p.proposer, a);
      var done := SetStatus(s, p, Executed).(
        exec := Executions(s.exec.executed + {p.id}, Min(U64_MAX, s.exec.nonce + 1)));
      PaymentsExplained(done, p.id, p.proposer, a);
      PublishExplains(s, ExecutionFailed(p.id), a);
      var refunded := Refund(done, p.id, p.proposer);
      if refunded.Some? {
        PublishExplains(refunded.value, ProposalExecuted(p.id), a);
      }
    }
  }

  lemma CarryOutExplained(s: State, p: Proposal, signer: Address, approved: seq<Address>, a: Address)
    ensures Unexplained(CarryOutVeto(s, p, signer, approved).0, a) == Unexplained(s, a)
  {
    hide Forfeit, Flows;
    var cleared := SetStatus(s, p, Vetoed).(
      veto := s.veto.(approvals := s.veto.approvals - (set b | b in approved :: (p.id, b)),
                      phase := s.veto.phase[p.id := VetoExecuted]));
    PaymentsExplained(cleared, p.id, p.proposer, a);
    var forfeited := Forfeit(cleared, p.id, p.proposer);
    if forfeited.Some? {
      PublishExplains(forfeited.value, ProposalVetoed(p.id, signer), a);
    }
  }

  lemma VetoExplained(s: State, signer: Address, id: nat, reasonGiven: bool, a: Address)
    ensures Unexplained(VetoProposal(s, signer, id, reasonGiven).0, a) == Unexplained(s, a)
  {
    hide CarryOutVeto, Approvers, Flows;
    if LoadError(s, id).None? && s.veto.signers.Some? {
      var p := s.reg.proposals[id];
      var bound := if id in s.reg.proposers then s
                   else s.(reg := s.reg.(proposers := s.reg.proposers[id := p.proposer]));
      var approving := bound.(veto := s.veto.(approvals := s.veto.approvals + {(id, signer)}));
      CarryOutExplained(approving, p, signer, Approvers(s.veto.signers.value, approving.veto.approvals, id), a);
    }
  }

  /** What a step of the environment moves outside the contract. */
  function Moved(s: State, op: Op, a: Address): int {
    if op.BalanceBecomes? && op.a == a && a != SELF then op.v - BalanceOf(s.host.tokens, a)
    else if op.ContractReceives? && a == SELF then op.v
    else 0
  }

  lemma StepExplained(s: State, op: Op, a: Address)
    ensures Unexplained(Step(s, op).0, a) == Unexplained(s, a) + Moved(s, op, a)
  {
    hide Delegate, Undelegate, ProvenBalance, NoDuplicates, Flows;
    hide CreateProposal, CastVote, ExecuteProposal, VetoProposal;
    match op
    case Create(proposer) => CreateExplained(s, proposer, a);
    case Vote(voter, id, support) => VoteExplained(s, voter, id, support, a);
    case Execute(id, callSucceeds) => ExecuteExplained(s, id, callSucceeds, a);
    case Veto(signer, id, reasonGiven) => VetoExplained(s, signer, id, reasonGiven, a);
    case _ =>
  }

  lemma TransactExplained(s: State, op: Op, reading: Reading, a: Address)
    ensures Unexplained(Transact(s, op, reading), a) == Unexplained(s, a) + Moved(s, op, a)
  {
    hide Delegate, Undelegate, ProvenBalance, NoDuplicates, Flows;
    hide CreateProposal, CastVote, ExecuteProposal, VetoProposal;
    StepExplained(s, op, a);
  }

  /** All that was moved outside the contract up to state `j`. */
  ghost function MovedOutside(states: seq<State>, ops: seq<Op>, j: nat, a: Address): int
    requires j < |states| && |states| == |ops| + 1
  {
    if j == 0 then 0 else MovedOutside(states, ops, j - 1, a) + Moved(states[j - 1], ops[j - 1], a)
  }

  /**
   In every run the balance of every account, the contract's own included, is its first balance, plus
   what was moved outside, plus a refund or forfeit for each event that names it as the one paid,
   less a deposit for each event that names it as the one who pays.
   */
  lemma {:induction false} BalancesFollowEvents(states: seq<State>, ops: seq<Op>, reading: Reading, j: nat, a: Address)
    requires Run(states, ops, reading) && j < |states|
    ensures BalanceOf(states[j].host.tokens, a) ==
              BalanceOf(states[0].host.tokens, a) + MovedOutside(states, ops, j, a) + Flows(states[j].events, a)
  {
    hide Transact, Flow;
    if j == 0 {
      assert states[0].events == [];
    } else {
      hide Initial, Flows;
      BalancesFollowEvents(states, ops, reading, j - 1, a);
      TransactExplained(states[j - 1], ops[j - 1], reading, a);
    }
  }

  // ----- the events name the right parties -----

  /** What a deposit event published by `op` in state `s` must say. */
  ghost predicate Names(s: State, op: Op, e: Event) {
    match e
    case DepositEscrowed(id, proposer, amount) =>
      op == Create(proposer) && id == s.reg.count + 1 && amount == s.cfg.minDeposit
    case DepositRefunded(id, proposer, amount) =>
      id in s.reg.proposals && proposer == s.reg.proposals[id].proposer && amount == DepositOf(s, id)
    case DepositForfeited(id, proposer, amount, sink) =>
      id in s.reg.proposals && proposer == s.reg.proposals[id].proposer && amount == DepositOf(s, id)
      && sink == s.cfg.sink
    case _ => true
  }

  ghost predicate NewEventsName(s: State, op: Op, s': State) {
    s.events <= s'.events && forall i :: |s.events| <= i < |s'.events| ==> Names(s, op, s'.events[i])
  }

  /** A settlement in `mid`, which shares deposits, sink and log with `s`, names what `s` has on record. */
  lemma PaymentsName(s: State, op: Op, mid: State, p: Proposal)
    requires p.id in s.reg.proposals && s.reg.proposals[p.id].proposer == p.proposer
    requires mid.escrow == s.escrow && mid.cfg == s.cfg && mid.events == s.events
    ensures
      var r, f := Refund(mid, p.id, p.proposer), Forfeit(mid, p.id, p.proposer);
      (r.Some? ==> NewEventsName(s, op, r.value)) && (f.Some? ==> NewEventsName(s, op, f.value))
  {
  }

  lemma OneMoreName(s: State, op: Op, s': State, e: Event)
    requires NewEventsName(s, op, s') && Names(s, op, e)
    ensures NewEventsName(s, op, Publish(s', e))
  {
  }

  lemma ExecuteNames(s: State, op: Op)
    requires Inv(s) && op.Execute?
    ensures NewEventsName(s, op, Step(s, op).0)
  {
    hide Inv, Refund, Forfeit, Quorum, NewEventsName;
    QuietNames(s, op);
    InvIds(s, op.id);
    if LoadError(s, op.id).None? {
      var p := s.reg.proposals[op.id];
      PaymentsName(s, op, SetStatus(s, p, Rejected), p);
      PaymentsName(s, op, SetStatus(s, p.(eta := s.host.seqNo + s.cfg.delay), Passed), p);
      var done := SetStatus(s, p, Executed).(
        exec := Executions(s.exec.executed + {p.id}, Min(U64_MAX, s.exec.nonce + 1)));
      PaymentsName(s, op, done, p);
      OneMoreName(s, op, s, ExecutionFailed(p.id));
      var refunded := Refund(done, p.id, p.proposer);
      if refunded.Some? {
        OneMoreName(s, op, refunded.value, ProposalExecuted(p.id));
      }
    }
  }

  lemma QuietNames(s: State, op: Op)
    ensures forall s': State :: s'.events == s.events ==> NewEventsName(s, op, s')
  {
  }

  lemma VetoNames(s: State, op: Op)
    requires Inv(s) && op.Veto?
    ensures NewEventsName(s, op, Step(s, op).0)
  {
    hide Inv, Forfeit, Approvers, NewEventsName;
    QuietNames(s, op);
    InvIds(s, op.id);
    if LoadError(s, op.id).None? && s.veto.signers.Some? {
      var p, id := s.reg.proposals[op.id], op.id;
      var approvals := s.veto.approvals + {(id, op.signer)};
      var approved := Approvers(s.veto.signers.value, approvals, id);
      var cleared := SetStatus(s, p, Vetoed).(
        veto := s.veto.(approvals := approvals - (set b | b in approved :: (p.id, b)),
                        phase := s.veto.phase[p.id := VetoExecuted]));
      PaymentsName(s, op, cleared, p);
      var forfeited := Forfeit(cleared, p.id, p.proposer);
      if forfeited.Some? {
        OneMoreName(s, op, forfeited.value, ProposalVetoed(p.id, op.signer));
      }
    }
  }

  lemma CreateNames(s: State, proposer: Address)
    requires s.reg.count < U64_MAX
    ensures NewEventsName(s, Create(proposer), CreateProposal(s, proposer).0)
  {
  }

  lemma VoteNames(s: State, op: Op)
    requires op.Vote?
    ensures NewEventsName(s, op, Step(s, op).0)
  {
    hide ProvenBalance, VoteWeight;
  }

  lemma StepNames(s: State, op: Op)
    requires Inv(s) && (op.Create? ==> s.reg.count < U64_MAX)
    ensures NewEventsName(s, op, Step(s, op).0)
  {
    hide Inv, Delegate, Undelegate, ProvenBalance, NoDuplicates;
    hide CreateProposal, CastVote, ExecuteProposal, VetoProposal;
    hide NewEventsName;
    QuietNames(s, op);
    match op
    case Create(proposer) => CreateNames(s, proposer);
    case Vote(_, _, _) => VoteNames(s, op);
    case Execute(_, _) => ExecuteNames(s, op);
    case Veto(_, _, _) => VetoNames(s, op);
    case _ =>
  }

  /**
   Every deposit event of every run names the proposer on record and the whole deposit, and a
   forfeit names the sink in force at that call.
   */
  lemma EventsNameTheParties(states: seq<State>, ops: seq<Op>, reading: Reading, i: nat)
    requires Run(states, ops, reading) && i < |ops|
    ensures NewEventsName(states[i], ops[i], states[i + 1])
  {
    hide Initial, Step, Inv;
    RunKeepsInv(states, ops, reading, i);
    StepNames(states[i], ops[i]);
    assert states[i + 1] == Transact(states[i], ops[i], reading);
  }
}
