/** Votes along a run: one per voter, a fixed weight, and backed by balances held beforehand. */
module GovernanceVotes {
  import opened MachineInts
  import opened Outcomes
  import opened Tokens
  import opened Delegation
  import opened Governance
  import opened GovernanceInvariant
  import opened GovernanceRuns

  // ----- one vote per voter -----

  predicate IsVote(e: Event, id: nat) {
    e.VoteCast? && e.id == id
  }

  lemma {:induction false} ManyVotesFewVoters(events: seq<Event>, id: nat)
    ensures Replay(events, id).votes >= |Replay(events, id).weights|
    ensures forall a :: 0 <= a < |events| && IsVote(events[a], id) ==> events[a].voter in Replay(events, id).weights
  {
    if events != [] {
      var front, e := events[..|events| - 1], events[|events| - 1];
      assert events == front + [e];
      ManyVotesFewVoters(front, id);
      ReplayNext(front, e, id);
      if IsVote(e, id) {
        var w := Replay(front, id).weights;
        assert w[e.voter := e.weight].Keys == w.Keys + {e.voter};
        assert |w[e.voter := e.weight]| == |w.Keys + {e.voter}| <= |w.Keys| + 1 == |w| + 1;
      }
    }
  }

  /** A second vote of the same voter would leave fewer voters than votes. */
  lemma {:induction false} DuplicateVoteShows(events: seq<Event>, id: nat, a: nat, b: nat)
    requires a < b < |events|
    requires IsVote(events[a], id) && IsVote(events[b], id) && events[a].voter == events[b].voter
    ensures Replay(events, id).votes > |Replay(events, id).weights|
  {
    var front, e := events[..|events| - 1], events[|events| - 1];
    assert events == front + [e];
    ReplayNext(front, e, id);
    ManyVotesFewVoters(front, id);
    var w := Replay(front, id).weights;
    if b < |front| {
      DuplicateVoteShows(front, id, a, b);
      if IsVote(e, id) {
        assert w[e.voter := e.weight].Keys == w.Keys + {e.voter};
        assert |w[e.voter := e.weight]| == |w.Keys + {e.voter}| <= |w.Keys| + 1 == |w| + 1;
      }
    } else {
      assert front[a].voter in w;
      assert w[e.voter := e.weight].Keys == w.Keys;
      assert |w[e.voter := e.weight]| == |w.Keys| == |w|;
    }
  }

  predicate HasVoted(s: State, id: nat, voter: Address) {
    (id, voter) in s.ballots.tempVoted || (id, voter) in s.ballots.receipts
  }

  /**
   Even if temporary receipts vanish at any moment: no voter has two votes on one proposal, the
   contract knows exactly who voted, and each side is the saturated sum of the published weights.
   */
  lemma OneVoteEach(states: seq<State>, ops: seq<Op>, reading: Reading, j: nat, id: nat)
    requires Run(states, ops, reading) && At(states, j, id)
    ensures
      var s, p, h := states[j], PropAt(states, j, id), Replay(states[j].events, id);
      && p.votesFor == Min(I128_MAX, h.forSum) && p.votesAgainst == Min(I128_MAX, h.againstSum)
      && (forall v :: HasVoted(s, id, v) <==> v in h.weights)
      && (forall v :: v in h.weights ==> AppliedWeight(s, id, v) == Some(h.weights[v]))
    ensures
      var events := states[j].events;
      forall a, b ::
        0 <= a < b < |events| && IsVote(events[a], id) && IsVote(events[b], id) ==> events[a].voter != events[b].voter
  {
    hide Initial, Transact, Inv, EscrowAgrees, OutcomeAgrees, Replay;
    RunKeepsInv(states, ops, reading, j);
    var s, events := states[j], states[j].events;
    InvRecord(s, id);
    InvIds(s, id);
    InvMirrors(s);
    forall a, b | 0 <= a < b < |events| && IsVote(events[a], id) && IsVote(events[b], id)
      ensures events[a].voter != events[b].voter
    {
      if events[a].voter == events[b].voter {
        DuplicateVoteShows(events, id, a, b);
        assert false;
      }
    }
  }

  lemma StepReceipts(s: State, op: Op, k: Key)
    requires k in s.ballots.receipts
    ensures k in Step(s, op).0.ballots.receipts && Step(s, op).0.ballots.receipts[k] == s.ballots.receipts[k]
  {
    hide Delegate, Undelegate, ProvenBalance, VoteWeight, NoDuplicates, Approvers, ExecuteProposal, VetoProposal;
    PayoutsKeepBallots(s, op);
  }

  lemma {:induction false} ReceiptsStay(states: seq<State>, ops: seq<Op>, reading: Reading, i: nat, j: nat, k: Key)
    requires Run(states, ops, reading) && i <= j < |states| && k in states[i].ballots.receipts
    ensures k in states[j].ballots.receipts && states[j].ballots.receipts[k] == states[i].ballots.receipts[k]
    decreases j
  {
    hide Initial, Step;
    if i < j {
      ReceiptsStay(states, ops, reading, i, j - 1, k);
      StepReceipts(states[j - 1], ops[j - 1], k);
    }
  }

  /** Once reported, the applied weight of a vote never changes, whatever is archived. */
  lemma AppliedWeightFixed(states: seq<State>, ops: seq<Op>, reading: Reading, i: nat, j: nat, id: nat, voter: Address)
    requires Run(states, ops, reading) && i <= j < |states| && AppliedWeight(states[i], id, voter).Some?
    ensures AppliedWeight(states[j], id, voter) == AppliedWeight(states[i], id, voter)
  {
    hide Initial, Transact, Inv;
    RunKeepsInv(states, ops, reading, i);
    RunKeepsInv(states, ops, reading, j);
    InvMirrors(states[i]);
    InvMirrors(states[j]);
    ReceiptsStay(states, ops, reading, i, j, (id, voter));
  }

  // ----- where checkpoints and snapshots come from -----

  /** `c` is what `v` really held in state `k` of the run. */
  ghost predicate HeldAt(states: seq<State>, k: nat, v: Address, c: Checkpoint) {
    k < |states| && states[k].host.seqNo == c.ledger && BalanceOf(states[k].host.tokens, v) == c.balance
  }

  ghost predicate HeldBefore(states: seq<State>, j: nat, v: Address, c: Checkpoint) {
    exists k :: 0 <= k < j && HeldAt(states, k, v, c)
  }

  lemma CheckpointStep(s: State, op: Op, v: Address)
    ensures
      var b, b' := s.ballots, Step(s, op).0.ballots;
      var now := Checkpoint(BalanceOf(s.host.tokens, v), s.host.seqNo);
      && (v in b'.latest ==> b'.latest[v] == now || (v in b.latest && b'.latest[v] == b.latest[v]))
      && (v in b'.prior ==> (v in b.latest && b'.prior[v] == b.latest[v])
                             || (v in b.prior && b'.prior[v] == b.prior[v]))
  {
    hide Delegate, Undelegate, ProvenBalance, VoteWeight, NoDuplicates, Approvers, ExecuteProposal, VetoProposal;
    PayoutsKeepBallots(s, op);
  }

  lemma PayoutsKeepBallots(s: State, op: Op)
    ensures op.Execute? || op.Veto? ==> Step(s, op).0.ballots == s.ballots
  {
    hide Approvers, Quorum;
  }

  /** Every stored checkpoint is a balance its owner held in an earlier state of the run. */
  lemma {:induction false} CheckpointOrigin(states: seq<State>, ops: seq<Op>, reading: Reading, j: nat, v: Address)
    requires Run(states, ops, reading) && j < |states|
    ensures v in states[j].ballots.latest ==> HeldBefore(states, j, v, states[j].ballots.latest[v])
    ensures v in states[j].ballots.prior ==> HeldBefore(states, j, v, states[j].ballots.prior[v])
  {
    hide Initial, Step, HeldAt;
    NoCheckpointsAtFirst(states, ops, reading);
    if j > 0 {
      CheckpointOrigin(states, ops, reading, j - 1, v);
      var s := states[j - 1];
      CheckpointStep(s, ops[j - 1], v);
      assert states[j] == Transact(s, ops[j - 1], reading);
      HeldNow(states, j - 1, v);
      assert forall c :: HeldBefore(states, j - 1, v, c) ==> HeldBefore(states, j, v, c);
    }
  }

  lemma NoCheckpointsAtFirst(states: seq<State>, ops: seq<Op>, reading: Reading)
    requires Run(states, ops, reading)
    ensures states[0].ballots.latest == map[] && states[0].ballots.prior == map[]
  {
    hide Transact;
  }

  lemma HeldNow(states: seq<State>, k: nat, v: Address)
    requires k < |states|
    ensures HeldAt(states, k, v, Checkpoint(BalanceOf(states[k].host.tokens, v), states[k].host.seqNo))
  {
  }

  lemma EligibleIsStored(s: State, v: Address, ledger: nat)
    ensures
      var c := EligibleCheckpoint(s, v, ledger);
      c.Some? ==>
        && Aged(c.value, ledger)
        && ((v in s.ballots.latest && c.value == s.ballots.latest[v])
            || (v in s.ballots.prior && c.value == s.ballots.prior[v]))
  {
  }

  /** The age test is exact except at the very last ledger number, where the sum saturates. */
  lemma AgedExactly(c: Checkpoint, ledger: nat)
    requires c.ledger <= U32_MAX && ledger <= U32_MAX
    ensures Aged(c, ledger) <==>
              c.ledger + MIN_VOTE_HOLD_LEDGERS <= ledger
              || (ledger == U32_MAX && c.ledger + MIN_VOTE_HOLD_LEDGERS > U32_MAX)
  {
  }

  /** There, a checkpoint of the same ledger passes the test. */
  lemma LastLedgerNeedsNoHold(balance: nat)
    ensures Aged(Checkpoint(balance, U32_MAX), U32_MAX)
  {
  }

  lemma SnapshotStep(s: State, op: Op, key: Key)
    requires key in Step(s, op).0.ballots.snapshots
    ensures
      var old_, new_ := s.ballots.snapshots, Step(s, op).0.ballots.snapshots;
      || (key in old_ && new_[key] == old_[key])
      || (op.Create? && Step(s, op).1 == Done && key == (Min(U64_MAX, s.reg.count + 1), op.proposer))
      || (op.Vote? && key == (op.id, op.voter) && key !in old_ && LoadError(s, op.id) == None
          && op.id in s.reg.createdLedger
          && ProvenBalance(s, op.voter, s.reg.createdLedger[op.id]) == Some(new_[key]))
  {
    hide CastVote, CreateProposal, ProvenBalance;
    if op.Create? {
      CreateSnapshot(s, op.proposer, key);
    } else if op.Vote? {
      VoteSnapshot(s, op.voter, op.id, op.support, key);
    } else {
      OthersKeepSnapshots(s, op);
    }
  }

  lemma CreateSnapshot(s: State, proposer: Address, key: Key)
    requires key in CreateProposal(s, proposer).0.ballots.snapshots
    ensures
      var r := CreateProposal(s, proposer);
      || (key in s.ballots.snapshots && r.0.ballots.snapshots[key] == s.ballots.snapshots[key])
      || (r.1 == Done && key == (Min(U64_MAX, s.reg.count + 1), proposer))
  {
  }

  lemma VoteSnapshot(s: State, voter: Address, id: nat, support: bool, key: Key)
    requires key in CastVote(s, voter, id, support).0.ballots.snapshots
    ensures
      var old_, new_ := s.ballots.snapshots, CastVote(s, voter, id, support).0.ballots.snapshots;
      || (key in old_ && new_[key] == old_[key])
      || (key == (id, voter) && key !in old_ && LoadError(s, id) == None && id in s.reg.createdLedger
          && ProvenBalance(s, voter, s.reg.createdLedger[id]) == Some(new_[key]))
  {
    hide ProvenBalance, VoteWeight;
  }

  lemma OthersKeepSnapshots(s: State, op: Op)
    requires !op.Create? && !op.Vote?
    ensures Step(s, op).0.ballots.snapshots == s.ballots.snapshots
  {
    hide Delegate, Undelegate, ProvenBalance, NoDuplicates, ExecuteProposal, VetoProposal;
    PayoutsKeepBallots(s, op);
  }

  lemma CreatedLedgerStep(s: State, op: Op, reading: Reading, id: nat)
    requires Inv(s) && id in s.reg.proposals && (op.Create? ==> s.reg.count < U64_MAX)
    ensures
      var s' := Transact(s, op, reading);
      id in s'.reg.createdLedger && id in s.reg.createdLedger && s'.reg.createdLedger[id] == s.reg.createdLedger[id]
  {
    hide Inv, Delegate, Undelegate, ProvenBalance, VoteWeight, NoDuplicates, ExecuteProposal, VetoProposal;
    InvIds(s, id);
    InvIds(s, s.reg.count + 1);
    PayoutsKeepClock(s, op);
  }

  /** Balance proofs exist only for proposals that exist. */
  lemma {:induction false} SnapshotsAreIssued(states: seq<State>, ops: seq<Op>, reading: Reading, j: nat, key: Key)
    requires Run(states, ops, reading) && j < |states| && key in states[j].ballots.snapshots
    ensures At(states, j, key.0)
  {
    hide Inv, Step;
    if j > 0 {
      hide Initial;
      var s, op := states[j - 1], ops[j - 1];
      RunKeepsInv(states, ops, reading, j - 1);
      if key in s.ballots.snapshots {
        SnapshotsAreIssued(states, ops, reading, j - 1, key);
        ProposalPersists(states, ops, reading, j - 1, j, key.0);
      } else {
        SnapshotStep(s, op, key);
        if op.Vote? {
          InvIds(s, op.id);
          ProposalPersists(states, ops, reading, j - 1, j, key.0);
        } else {
          CreatedIsIssued(s, op);
        }
      }
    }
  }

  lemma CreatedIsIssued(s: State, op: Op)
    requires op.Create? && Step(s, op).1 == Done
    ensures Min(U64_MAX, s.reg.count + 1) in Step(s, op).0.reg.proposals
    ensures Step(s, op).0.reg.proposals[Min(U64_MAX, s.reg.count + 1)].proposer == op.proposer
  {
  }

  /** `v` held at least `amount` in some earlier state whose ledger is the hold period before `ledger`. */
  ghost predicate HeldLongBefore(states: seq<State>, j: nat, v: Address, amount: nat, ledger: nat) {
    exists k :: 0 <= k < j && k < |states| && states[k].host.seqNo + MIN_VOTE_HOLD_LEDGERS <= ledger
                && amount <= BalanceOf(states[k].host.tokens, v)
  }

  lemma ProvenWasHeld(states: seq<State>, ops: seq<Op>, reading: Reading, j: nat, v: Address, ledger: nat)
    requires Run(states, ops, reading) && j < |states| && ledger < U32_MAX
    requires ProvenBalance(states[j], v, ledger).Some?
    ensures HeldLongBefore(states, j, v, ProvenBalance(states[j], v, ledger).value, ledger)
    ensures ProvenBalance(states[j], v, ledger).value <= BalanceOf(states[j].host.tokens, v)
  {
    hide Inv, Initial, Transact, EligibleCheckpoint;
    var s := states[j];
    var c := EligibleCheckpoint(s, v, ledger).value;
    EligibleIsStored(s, v, ledger);
    CheckpointOrigin(states, ops, reading, j, v);
    assert HeldBefore(states, j, v, c);
    var k :| 0 <= k < j && HeldAt(states, k, v, c);
    assert states[k].host.seqNo + MIN_VOTE_HOLD_LEDGERS <= ledger;
  }

  /**
   The own-balance part of every vote that is not the proposer's is at most a balance the voter
   really held at least the hold period before the proposal was created.
   */
  lemma {:induction false} VotesAreBackedByAgedBalances(states: seq<State>, ops: seq<Op>, reading: Reading, j: nat,
                                                        id: nat, v: Address)
    requires Run(states, ops, reading) && At(states, j, id) && (id, v) in states[j].ballots.snapshots
    requires v != PropAt(states, j, id).proposer
    requires id in states[j].reg.createdLedger && states[j].reg.createdLedger[id] < U32_MAX
    ensures HeldLongBefore(states, j, v, states[j].ballots.snapshots[(id, v)], states[j].reg.createdLedger[id])
  {
    hide Inv, Step;
    if j > 0 {
      hide Initial;
      var s, op, key := states[j - 1], ops[j - 1], (id, v);
      RunKeepsInv(states, ops, reading, j - 1);
      if key in s.ballots.snapshots {
        SnapshotsAreIssued(states, ops, reading, j - 1, key);
        ProposalPersists(states, ops, reading, j - 1, j, id);
        CreatedLedgerStep(s, op, reading, id);
        VotesAreBackedByAgedBalances(states, ops, reading, j - 1, id, v);
        SnapshotSame(states, ops, reading, j, key);
      } else {
        SnapshotStep(s, op, key);
        if op.Vote? {
          InvIds(s, op.id);
          CreatedLedgerStep(s, op, reading, id);
          ProvenWasHeld(states, ops, reading, j - 1, v, s.reg.createdLedger[id]);
        } else {
          CreatedIsIssued(s, op);
          assert false;
        }
      }
    }
  }

  lemma SnapshotSame(states: seq<State>, ops: seq<Op>, reading: Reading, j: nat, key: Key)
    requires Run(states, ops, reading) && 0 < j < |states|
    requires key in states[j - 1].ballots.snapshots && key in states[j].ballots.snapshots
    ensures states[j].ballots.snapshots[key] == states[j - 1].ballots.snapshots[key]
  {
    hide Inv, Initial, Step;
    var s, op := states[j - 1], ops[j - 1];
    RunKeepsInv(states, ops, reading, j - 1);
    if key in Step(s, op).0.ballots.snapshots {
      SnapshotStep(s, op, key);
      if op.Create? {
        InvIds(s, s.reg.count + 1);
        SnapshotsAreIssued(states, ops, reading, j - 1, key);
      }
    }
  }

  // ----- refreshing a checkpoint -----

  /**
   A refresh keeps the proof backing an existing proposal if and only if it does not push an
   eligible prior checkpoint out by a newer one that is not yet eligible.
   */
  lemma RefreshKeepsProofIff(s: State, v: Address, ledger: nat)
    requires CheckpointsOk(s.ballots, s.host.seqNo) && ledger <= s.host.seqNo && ledger < U32_MAX
    ensures
      var b := s.ballots;
      EligibleCheckpoint(CheckpointBalance(s, v).0, v, ledger) == EligibleCheckpoint(s, v, ledger) <==>
        !(v in b.latest && b.latest[v].ledger < s.host.seqNo && !Aged(b.latest[v], ledger)
          && v in b.prior && Aged(b.prior[v], ledger))
  {
  }

  /** `proof` is still the newest aged checkpoint of `v`, though later ones may sit in front of it. */
  ghost predicate ProofKept(b: Ballots, v: Address, proof: Checkpoint, seqNo: nat) {
    v in b.latest && (b.latest[v] == proof || (b.latest[v].ledger == seqNo && v in b.prior && b.prior[v] == proof))
  }

  lemma ProofKeptStep(s: State, op: Op, v: Address, proof: Checkpoint)
    requires ProofKept(s.ballots, v, proof, s.host.seqNo) && proof.ledger < s.host.seqNo
    requires Step(s, op).0.host.seqNo == s.host.seqNo
    ensures ProofKept(Step(s, op).0.ballots, v, proof, s.host.seqNo)
  {
    hide Delegate, Undelegate, ProvenBalance, VoteWeight, NoDuplicates, Approvers, ExecuteProposal, VetoProposal;
    PayoutsKeepBallots(s, op);
  }

  lemma {:induction false} ProofKeptWithinLedger(states: seq<State>, ops: seq<Op>, reading: Reading, i: nat, j: nat,
                                                 v: Address, proof: Checkpoint)
    requires Run(states, ops, reading) && i <= j < |states| && states[j].host.seqNo == states[i].host.seqNo
    requires v in states[i].ballots.latest && states[i].ballots.latest[v] == proof
    requires proof.ledger < states[i].host.seqNo
    ensures ProofKept(states[j].ballots, v, proof, states[j].host.seqNo)
    decreases j
  {
    hide Initial, Step;
    if i < j {
      TimePasses(states, ops, reading, i, j - 1);
      TimePasses(states, ops, reading, j - 1, j);
      ProofKeptWithinLedger(states, ops, reading, i, j - 1, v, proof);
      StaysInLedger(states[j - 1], ops[j - 1], reading);
      ProofKeptStep(states[j - 1], ops[j - 1], v, proof);
    }
  }

  lemma StaysInLedger(s: State, op: Op, reading: Reading)
    requires Transact(s, op, reading).host.seqNo == s.host.seqNo
    ensures Step(s, op).0.host.seqNo == s.host.seqNo
  {
    hide Delegate, Undelegate, ProvenBalance, VoteWeight, NoDuplicates, Approvers, Quorum;
  }

  /**
   Within one ledger, no sequence of calls and token movements changes the proof that backs an
   existing proposal, if the voter's latest checkpoint was the eligible one when it began.
   */
  lemma SameLedgerKeepsProof(states: seq<State>, ops: seq<Op>, reading: Reading, i: nat, j: nat, v: Address,
                             ledger: nat)
    requires Run(states, ops, reading) && i <= j < |states| && states[j].host.seqNo == states[i].host.seqNo
    requires ledger <= states[i].host.seqNo && ledger < U32_MAX
    requires v in states[i].ballots.latest && Aged(states[i].ballots.latest[v], ledger)
    ensures EligibleCheckpoint(states[j], v, ledger) == EligibleCheckpoint(states[i], v, ledger)
  {
    hide Initial, Step, Inv;
    RunKeepsInv(states, ops, reading, i);
    RunKeepsInv(states, ops, reading, j);
    InvCheckpoints(states[i]);
    InvCheckpoints(states[j]);
    ProofKeptWithinLedger(states, ops, reading, i, j, v, states[i].ballots.latest[v]);
  }
}
