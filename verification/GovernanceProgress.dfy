/** What closes a vote, and what leaves it open for ever. */
module GovernanceProgress {
  import opened MachineInts
  import opened Delegation
  import opened Governance
  import opened GovernanceInvariant
  import opened GovernanceSteps
  import opened GovernanceRuns

  // ----- closing a vote -----

  lemma TalliesNonNegative(s: State, id: nat)
    requires Inv(s) && id in s.reg.proposals
    ensures s.reg.proposals[id].votesFor >= 0 && s.reg.proposals[id].votesAgainst >= 0
    ensures 1 <= s.cfg.quorumBps <= 10_000
  {
    hide Replay, EscrowAgrees, OutcomeAgrees;
    hide IdsOk, RecordsAgree, Solvent, MirrorsOk, ExecutionsOk, VetoOk, CheckpointsOk, ValidBook;
    InvRecord(s, id);
  }

  /**
   After the voting window, a call to execute an Active proposal resolves it if and only if the
   tallies can be added, a total supply is set, and either the vote is won and the eta fits 32
   bits, or it is not and the writes of a failing call are kept. A passed proposal gets the ledger
   of this call plus the delay in force as its eta; nothing else of it changes.
   */
  lemma ExecuteResolvesIff(s: State, id: nat, callSucceeds: bool, reading: Reading)
    requires Inv(s) && id in s.reg.proposals
    requires s.reg.proposals[id].status == Active && s.host.time >= s.reg.proposals[id].votingEnd
    ensures
      var p, s' := s.reg.proposals[id], Transact(s, Execute(id, callSucceeds), reading);
      var readable := p.votesFor + p.votesAgainst <= I128_MAX && s.cfg.totalSupply > 0;
      && id in s'.reg.proposals
      && (s'.reg.proposals[id].status == Passed <==>
            readable && Won(s.cfg, p) && s.host.seqNo + s.cfg.delay <= U32_MAX)
      && (s'.reg.proposals[id].status == Rejected <==> readable && !Won(s.cfg, p) && reading == KeepOnError)
      && (s'.reg.proposals[id].status == Passed ==>
            s'.reg.proposals[id] == p.(status := Passed, eta := s.host.seqNo + s.cfg.delay))
      && (s'.reg.proposals[id].status == Rejected ==> s'.reg.proposals[id] == p.(status := Rejected))
      && (s'.reg.proposals[id].status != Passed && s'.reg.proposals[id].status != Rejected ==>
            s'.reg.proposals[id] == p)
  {
    hide Inv, Refund, Forfeit, Quorum, Won;
    var p := s.reg.proposals[id];
    InvIds(s, id);
    TalliesNonNegative(s, id);
    if Readable(s.cfg, p) {
      QuorumDecides(s, p);
    }
    ExecuteKeepsInv(s, id, callSucceeds);
    RefundKeepsProposals(SetStatus(s, p, Rejected), p.id, p.proposer);
    RefundKeepsProposals(SetStatus(s, p.(eta := s.host.seqNo + s.cfg.delay), Passed), p.id, p.proposer);
  }

  /**
   A call to execute a Passed proposal carries it out if and only if the eta has come and the
   cross-contract call succeeds. Any other call leaves every proposal as it was, to be tried again.
   */
  lemma DispatchSucceedsIff(s: State, id: nat, callSucceeds: bool, reading: Reading)
    requires Inv(s) && id in s.reg.proposals
    requires s.reg.proposals[id].status == Passed && s.host.time >= s.reg.proposals[id].votingEnd
    ensures
      var p, s' := s.reg.proposals[id], Transact(s, Execute(id, callSucceeds), reading);
      if s.host.seqNo >= p.eta && callSucceeds
      then s'.reg == s.reg.(proposals := s.reg.proposals[id := p.(status := Executed)])
      else
        && s'.reg == s.reg && s'.escrow == s.escrow && s'.host == s.host && s'.exec == s.exec
        && s'.events == s.events + if s.host.seqNo >= p.eta then [ExecutionFailed(id)] else []
  {
    hide Inv, Refund, Forfeit;
    var p := s.reg.proposals[id];
    InvIds(s, id);
    ExecuteKeepsInv(s, id, callSucceeds);
    RefundKeepsProposals(SetStatus(s, p, Executed).(
      exec := Executions(s.exec.executed + {p.id}, Min(U64_MAX, s.exec.nonce + 1))), p.id, p.proposer);
  }

  lemma MoveToRejected(s: State, op: Op, p: Proposal, p': Proposal)
    requires Moves(s, op, p, p') && p'.status == Rejected && p.status != Rejected
    ensures RejectMove(s, op, p, p')
  {
    hide Approvers;
  }

  /** If the host discards the writes of failing calls, no proposal is ever Rejected. */
  lemma {:induction false} NothingRejectedWhenDiscarding(states: seq<State>, ops: seq<Op>, j: nat, id: nat)
    requires Run(states, ops, DiscardOnError) && At(states, j, id)
    ensures PropAt(states, j, id).status != Rejected
  {
    hide Transact, Initial, Inv, Moves, RejectMove;
    NoneAtFirst(states, ops, DiscardOnError, id);
    if j > 0 {
      if At(states, j - 1, id) {
        NothingRejectedWhenDiscarding(states, ops, j - 1, id);
        MoveAt(states, ops, DiscardOnError, j - 1, id);
        if PropAt(states, j, id).status == Rejected {
          MoveToRejected(states[j - 1], ops[j - 1], PropAt(states, j - 1, id), PropAt(states, j, id));
          assert false;
        }
      } else {
        NotYetIssued(states, ops, DiscardOnError, j, id);
      }
    }
  }

  lemma LostMoves(s: State, op: Op, p: Proposal, p': Proposal)
    requires Moves(s, op, p, p') && !RejectMove(s, op, p, p')
    requires s.host.time >= p.votingEnd && p.votesFor <= p.votesAgainst
    ensures p.status == Active ==> p' == p || p' == p.(status := Vetoed)
  {
    hide Approvers;
  }

  /** Then a vote that closed without a majority stays Active for ever, unless it is vetoed. */
  lemma {:induction false} LostVoteStaysOpenWhenDiscarding(states: seq<State>, ops: seq<Op>, i: nat, j: nat, id: nat)
    requires Run(states, ops, DiscardOnError) && i <= j < |states| && At(states, i, id)
    requires
      var p := PropAt(states, i, id);
      p.status == Active && states[i].host.time >= p.votingEnd && p.votesFor <= p.votesAgainst
    ensures At(states, j, id)
    ensures
      var p, q := PropAt(states, i, id), PropAt(states, j, id);
      q == p || q == p.(status := Vetoed)
    decreases j
  {
    hide Transact, Initial, Inv, Moves, RejectMove;
    if i < j {
      LostVoteStaysOpenWhenDiscarding(states, ops, i, j - 1, id);
      TimePasses(states, ops, DiscardOnError, i, j - 1);
      MoveAt(states, ops, DiscardOnError, j - 1, id);
      var p, q := PropAt(states, j - 1, id), PropAt(states, j, id);
      if p.status == Active {
        LostMoves(states[j - 1], ops[j - 1], p, q);
      } else {
        SettledMoves(states[j - 1], ops[j - 1], p, q);
      }
    }
  }

  const UNVOTED := Proposal(1, 1, Active, 0, 0, 1_000, 1_000 + VOTING_PERIOD_SECS, 0)

  lemma FirstProposal(s: State)
    requires Initial(s) && s.host == Host(100, 1_000, map[1 := 1_000])
    ensures
      var s' := Transact(s, Create(1), DiscardOnError);
      s'.reg.proposals == map[1 := UNVOTED] && s'.host == s.host
  {
  }

  lemma WindowCloses(s: State)
    requires s.reg.proposals == map[1 := UNVOTED] && s.host == Host(100, 1_000, map[1 := 1_000])
    ensures
      var s' := Transact(s, LedgerCloses(200, 1_000 + VOTING_PERIOD_SECS), DiscardOnError);
      s'.reg == s.reg && s'.host.time == UNVOTED.votingEnd
  {
  }

  /** A run in which a proposal nobody votes on is closed and still Active. */
  lemma UnvotedProposalStaysActive(states: seq<State>, ops: seq<Op>)
    requires Run(states, ops, DiscardOnError) && states[0].host == Host(100, 1_000, map[1 := 1_000])
    requires ops == [Create(1), LedgerCloses(200, 1_000 + VOTING_PERIOD_SECS), Execute(1, true)]
    ensures At(states, 3, 1) && PropAt(states, 3, 1) == UNVOTED && states[3].host.time >= UNVOTED.votingEnd
  {
    hide Initial, Transact, Inv, Won;
    FirstProposal(states[0]);
    assert states[1] == Transact(states[0], ops[0], DiscardOnError);
    WindowCloses(states[1]);
    assert states[2] == Transact(states[1], ops[1], DiscardOnError);
    RunKeepsInv(states, ops, DiscardOnError, 2);
    assert states[3] == Transact(states[2], ops[2], DiscardOnError);
    ExecuteResolvesIff(states[2], 1, true, DiscardOnError);
    NoMajority(states[2]);
    TimePasses(states, ops, DiscardOnError, 2, 3);
  }

  lemma NoMajority(s: State)
    ensures !Won(s.cfg, UNVOTED)
  {
  }
}
