/** The weight cast on a proposal along a run, vote by vote. */
module VoteAccount {
  import opened MachineInts
  import opened Outcomes
  import opened Delegation
  import opened Governance
  import opened GovernanceInvariant
  import opened GovernanceRuns
  import opened GovernanceVotes
  import opened IntegerSqrt

  // ----- who voted, and with what weight -----

  /** The voters on `id`, in the order of their votes. */
  ghost function Voters(events: seq<Event>, id: nat): seq<Address> {
    if events == [] then []
    else
      var e := events[|events| - 1];
      Voters(events[..|events| - 1], id) + if IsVote(e, id) then [e.voter] else []
  }

  /** All weight published on `id`, for and against. */
  ghost function Cast(events: seq<Event>, id: nat): int {
    Replay(events, id).forSum + Replay(events, id).againstSum
  }

  lemma VotersNext(events: seq<Event>, e: Event, id: nat)
    ensures Voters(events + [e], id) == Voters(events, id) + if IsVote(e, id) then [e.voter] else []
    ensures Cast(events + [e], id) == Cast(events, id) + if IsVote(e, id) then e.weight else 0
  {
    ReplayNext(events, e, id);
    assert (events + [e])[..|events|] == events;
  }

  /** The new events hold no vote on `id`. */
  ghost predicate Quiet(earlier: seq<Event>, later: seq<Event>, id: nat) {
    earlier <= later && forall i :: |earlier| <= i < |later| ==> !IsVote(later[i], id)
  }

  lemma {:induction false} QuietKeepsVotes(earlier: seq<Event>, later: seq<Event>, id: nat)
    requires Quiet(earlier, later, id)
    ensures Voters(later, id) == Voters(earlier, id) && Cast(later, id) == Cast(earlier, id)
    decreases |later|
  {
    if |earlier| < |later| {
      var front, e := later[..|later| - 1], later[|later| - 1];
      assert later == front + [e];
      QuietKeepsVotes(earlier, front, id);
      VotersNext(front, e, id);
    } else {
      assert later == earlier;
    }
  }

  lemma PayoutsAreQuiet(s: State, p: nat, proposer: Address, id: nat)
    ensures Refund(s, p, proposer).Some? ==> Quiet(s.events, Refund(s, p, proposer).value.events, id)
    ensures Forfeit(s, p, proposer).Some? ==> Quiet(s.events, Forfeit(s, p, proposer).value.events, id)
  {
  }

  lemma ExecuteIsQuiet(s: State, p: nat, callSucceeds: bool, id: nat)
    ensures Quiet(s.events, ExecuteProposal(s, p, callSucceeds).0.events, id)
  {
    hide Refund, Forfeit, Quorum;
    if LoadError(s, p).None? {
      var q := s.reg.proposals[p];
      PayoutsAreQuiet(SetStatus(s, q, Rejected), q.id, q.proposer, id);
      PayoutsAreQuiet(SetStatus(s, q.(eta := s.host.seqNo + s.cfg.delay), Passed), q.id, q.proposer, id);
      PayoutsAreQuiet(SetStatus(s, q, Executed).(
        exec := Executions(s.exec.executed + {q.id}, Min(U64_MAX, s.exec.nonce + 1))), q.id, q.proposer, id);
    }
  }

  lemma CarryOutIsQuiet(s: State, p: Proposal, signer: Address, approved: seq<Address>, id: nat)
    ensures Quiet(s.events, CarryOutVeto(s, p, signer, approved).0.events, id)
  {
    hide Forfeit;
    PayoutsAreQuiet(SetStatus(s, p, Vetoed).(
      veto := s.veto.(approvals := s.veto.approvals - (set a | a in approved :: (p.id, a)),
                      phase := s.veto.phase[p.id := VetoExecuted])), p.id, p.proposer, id);
  }

  lemma VetoIsQuiet(s: State, signer: Address, p: nat, reasonGiven: bool, id: nat)
    ensures Quiet(s.events, VetoProposal(s, signer, p, reasonGiven).0.events, id)
  {
    hide CarryOutVeto, Approvers;
    if LoadError(s, p).None? && s.veto.signers.Some? {
      var q := s.reg.proposals[p];
      var bound := if p in s.reg.proposers then s else s.(reg := s.reg.(proposers := s.reg.proposers[p := q.proposer]));
      var approving := bound.(veto := s.veto.(approvals := s.veto.approvals + {(p, signer)}));
      CarryOutIsQuiet(approving, q, signer, Approvers(s.veto.signers.value, approving.veto.approvals, p), id);
    }
  }

  ghost predicate CastsVote(s: State, op: Op, id: nat) {
    op.Vote? && op.id == id && Step(s, op).1 == Done
  }

  lemma OthersAreQuiet(s: State, op: Op, id: nat)
    requires !CastsVote(s, op, id)
    ensures Quiet(s.events, Step(s, op).0.events, id)
  {
    hide Delegate, Undelegate, ProvenBalance, VoteWeight, NoDuplicates, ExecuteProposal, VetoProposal;
    if op.Execute? {
      ExecuteIsQuiet(s, op.id, op.callSucceeds, id);
    } else if op.Veto? {
      VetoIsQuiet(s, op.signer, op.id, op.reasonGiven, id);
    }
  }

  /** What a successful vote does: one event with the weight of the stored snapshot, and no token moves. */
  lemma VoteIsCast(s: State, op: Op, id: nat)
    requires CastsVote(s, op, id)
    ensures
      var s', key := Step(s, op).0, (id, op.voter);
      && id in s.reg.proposals && s.reg.proposals[id].id == id && s'.host == s.host && s'.book == s.book
      && key !in s.ballots.receipts && key in s'.ballots.snapshots && key in s'.ballots.receipts
      && s'.ballots.receipts[key] == VoteWeight(s, op.voter, s'.ballots.snapshots[key])
      && s'.events == s.events + [VoteCast(id, op.voter, op.support, s'.ballots.receipts[key])]
  {
    hide ProvenBalance, VoteWeight;
  }

  /** The vote of `v` at step `i` gave the receipt and the snapshot that state `j` holds. */
  ghost predicate ReceiptFrom(states: seq<State>, ops: seq<Op>, i: nat, j: nat, id: nat, v: Address) {
    && i < |ops| && i < |states| && j < |states| && CastsVote(states[i], ops[i], id) && ops[i].voter == v
    && (id, v) in states[j].ballots.snapshots && (id, v) in states[j].ballots.receipts
    && states[j].ballots.receipts[(id, v)] == VoteWeight(states[i], v, states[j].ballots.snapshots[(id, v)])
  }

  lemma ReceiptStep(s: State, op: Op, key: Key)
    requires key in Step(s, op).0.ballots.receipts && key !in s.ballots.receipts
    ensures CastsVote(s, op, key.0) && op.voter == key.1
  {
    hide Delegate, Undelegate, ProvenBalance, VoteWeight, NoDuplicates, Approvers, ExecuteProposal, VetoProposal;
    PayoutsKeepBallots(s, op);
  }

  lemma SnapshotStays(s: State, op: Op, key: Key)
    requires key in s.ballots.snapshots && key in s.ballots.receipts
    requires op.Create? ==> key != (Min(U64_MAX, s.reg.count + 1), op.proposer)
    ensures key in Step(s, op).0.ballots.snapshots && Step(s, op).0.ballots.snapshots[key] == s.ballots.snapshots[key]
  {
    hide Delegate, Undelegate, ProvenBalance, VoteWeight, NoDuplicates, Approvers, ExecuteProposal, VetoProposal;
    PayoutsKeepBallots(s, op);
  }

  /**
   Every receipt ever seen is the weight of one vote call: the stored snapshot of the voter together
   with what was delegated to them at that call, under the voting mode of that call.
   */
  lemma {:induction false} ReceiptOrigin(states: seq<State>, ops: seq<Op>, reading: Reading, j: nat, id: nat,
                                         v: Address)
    requires Run(states, ops, reading) && j < |states| && (id, v) in states[j].ballots.receipts
    ensures exists i :: 0 <= i < j && ReceiptFrom(states, ops, i, j, id, v)
  {
    hide Step, VoteWeight, Inv;
    if j > 0 {
      hide Initial;
      var s, op, s' := states[j - 1], ops[j - 1], states[j];
      assert s' == Transact(s, op, reading);
      if (id, v) in s.ballots.receipts {
        ReceiptOrigin(states, ops, reading, j - 1, id, v);
        var i :| 0 <= i < j - 1 && ReceiptFrom(states, ops, i, j - 1, id, v);
        RunKeepsInv(states, ops, reading, j - 1);
        VoteIsCast(states[i], ops[i], id);
        ProposalPersists(states, ops, reading, i, j - 1, id);
        InvIds(s, s.reg.count + 1);
        SnapshotStays(s, op, (id, v));
        StepReceipts(s, op, (id, v));
        assert ReceiptFrom(states, ops, i, j, id, v);
      } else {
        ReceiptStep(s, op, (id, v));
        VoteIsCast(s, op, id);
        assert ReceiptFrom(states, ops, j - 1, j, id, v);
      }
    }
  }

  ghost predicate OncePerVoter(events: seq<Event>, id: nat) {
    forall a, b :: 0 <= a < b < |events| && IsVote(events[a], id) && IsVote(events[b], id) ==>
      events[a].voter != events[b].voter
  }

  ghost predicate VotedBefore(events: seq<Event>, id: nat, v: Address) {
    exists a :: 0 <= a < |events| && IsVote(events[a], id) && events[a].voter == v
  }

  lemma {:induction false} VotersOf(events: seq<Event>, id: nat)
    requires OncePerVoter(events, id)
    ensures NoDuplicates(Voters(events, id))
    ensures forall v :: v in Voters(events, id) <==> v in Replay(events, id).weights
    ensures forall v :: v in Voters(events, id) ==> VotedBefore(events, id, v)
  {
    if events != [] {
      var front, e := events[..|events| - 1], events[|events| - 1];
      assert events == front + [e];
      VotersOf(front, id);
      VotersNext(front, e, id);
      ReplayNext(front, e, id);
      forall v | v in Voters(front, id)
        ensures VotedBefore(events, id, v) && (IsVote(e, id) ==> v != e.voter)
      {
        assert VotedBefore(front, id, v);
        var a :| 0 <= a < |front| && IsVote(front[a], id) && front[a].voter == v;
        assert events[a] == front[a];
      }
      var voters := Voters(front, id);
      assert forall i :: 0 <= i < |voters| ==> voters[i] in voters;
    }
  }

  /** The voters of the log are those with a receipt, each once. */
  lemma VotersHaveReceipts(states: seq<State>, ops: seq<Op>, reading: Reading, j: nat, id: nat)
    requires Run(states, ops, reading) && At(states, j, id)
    ensures NoDuplicates(Voters(states[j].events, id))
    ensures forall v :: v in Voters(states[j].events, id) <==> (id, v) in states[j].ballots.receipts
  {
    hide Run, Replay, Inv;
    OneVoteEach(states, ops, reading, j, id);
    VotersOf(states[j].events, id);
    RunKeepsInv(states, ops, reading, j);
    InvRecord(states[j], id);
    InvIds(states[j], id);
  }

  /** The weights the contract reports for these voters, added up. */
  ghost function AppliedSum(s: State, id: nat, voters: seq<Address>): int {
    if voters == [] then 0
    else
      var w := AppliedWeight(s, id, voters[|voters| - 1]);
      AppliedSum(s, id, voters[..|voters| - 1]) + if w.None? then 0 else w.value
  }

  /** The weights reported for all voters on a proposal add up to the weight published on it. */
  lemma AppliedWeightsAddUp(states: seq<State>, ops: seq<Op>, reading: Reading, j: nat, id: nat)
    requires Run(states, ops, reading) && At(states, j, id)
    ensures AppliedSum(states[j], id, Voters(states[j].events, id)) == Cast(states[j].events, id)
  {
    hide Run, Replay, AppliedWeight;
    OneVoteEach(states, ops, reading, j, id);
    LatestWeights(states[j].events, id);
    PublishedAddUp(states[j], id, states[j].events);
  }

  /** With one vote each, the weight on record for a voter is that of their vote. */
  lemma {:induction false} LatestWeights(events: seq<Event>, id: nat)
    requires OncePerVoter(events, id)
    ensures forall a :: 0 <= a < |events| && IsVote(events[a], id) ==>
              events[a].voter in Replay(events, id).weights
              && Replay(events, id).weights[events[a].voter] == events[a].weight
  {
    if events != [] {
      var front, e := events[..|events| - 1], events[|events| - 1];
      assert events == front + [e];
      LatestWeights(front, id);
      ReplayNext(front, e, id);
    }
  }

  lemma NothingPublished(id: nat)
    ensures Voters([], id) == [] && Cast([], id) == 0
  {
  }

  lemma {:induction false} PublishedAddUp(s: State, id: nat, events: seq<Event>)
    requires forall a :: 0 <= a < |events| && IsVote(events[a], id) ==>
               AppliedWeight(s, id, events[a].voter) == Some(events[a].weight)
    ensures AppliedSum(s, id, Voters(events, id)) == Cast(events, id)
    decreases |events|
  {
    hide AppliedWeight, Cast, Voters;
    if events == [] {
      NothingPublished(id);
    } else {
      var front, e := events[..|events| - 1], events[|events| - 1];
      assert events == front + [e];
      PublishedAddUp(s, id, front);
      VotersNext(front, e, id);
      if IsVote(e, id) {
        assert AppliedWeight(s, id, events[|events| - 1].voter) == Some(e.weight);
        assert Voters(events, id)[..|Voters(events, id)| - 1] == Voters(front, id);
      } else {
        assert Voters(events, id) == Voters(front, id);
      }
    }
  }

  // ----- what a vote counts, told from the state before it -----

  /** The own part of a vote: the snapshot taken earlier, or what a checkpoint proves now. */
  ghost function Own(s: State, id: nat, v: Address): nat {
    if (id, v) in s.ballots.snapshots then s.ballots.snapshots[(id, v)]
    else if id in s.reg.createdLedger && ProvenBalance(s, v, s.reg.createdLedger[id]).Some? then
      ProvenBalance(s, v, s.reg.createdLedger[id]).value
    else 0
  }

  /** Own part and delegated weight, clipped to 128 bits and square-rooted if so set. */
  ghost function Counted(s: State, id: nat, v: Address): int {
    var raw := Min(I128_MAX, Own(s, id, v) + WeightOf(s.book.weight, v));
    if s.cfg.quadratic then Isqrt(Max(raw, 0)) else raw
  }

  lemma VoteCounts(s: State, op: Op, id: nat)
    requires CastsVote(s, op, id) && ValidBook(s.book)
    ensures
      var b', key := Step(s, op).0.ballots, (id, op.voter);
      && key in b'.snapshots && b'.snapshots[key] == Own(s, id, op.voter)
      && key in b'.receipts && b'.receipts[key] == Counted(s, id, op.voter)
  {
    hide Isqrt, ProvenBalance, Mirrored;
  }

  /** What the vote calls up to state `j` counted, each told from the state it was made in. */
  ghost function VoteSum(states: seq<State>, ops: seq<Op>, j: nat, id: nat): int
    requires j < |states| && |states| == |ops| + 1
  {
    if j == 0 then 0
    else
      VoteSum(states, ops, j - 1, id)
      + if CastsVote(states[j - 1], ops[j - 1], id) then Counted(states[j - 1], id, ops[j - 1].voter) else 0
  }

  lemma CastStep(states: seq<State>, ops: seq<Op>, reading: Reading, i: nat, id: nat)
    requires Run(states, ops, reading) && i < |ops|
    ensures ValidBook(states[i].book)
    ensures CastsVote(states[i], ops[i], id) ==>
              && Cast(states[i + 1].events, id) == Cast(states[i].events, id) + Counted(states[i], id, ops[i].voter)
              && states[i + 1].host == states[i].host
    ensures !CastsVote(states[i], ops[i], id) ==> Cast(states[i + 1].events, id) == Cast(states[i].events, id)
  {
    hide Initial, Step, Cast, Voters, Inv, Counted, ValidBook;
    var s, op := states[i], ops[i];
    RunKeepsInv(states, ops, reading, i);
    InvBook(s);
    assert states[i + 1] == Transact(s, op, reading);
    if CastsVote(s, op, id) {
      VoteIsCast(s, op, id);
      VoteCounts(s, op, id);
      VotersNext(s.events, states[i + 1].events[|s.events|], id);
    } else {
      OthersAreQuiet(s, op, id);
      QuietKeepsVotes(s.events, Step(s, op).0.events, id);
    }
  }

  /** In every run the weight cast on a proposal is the sum of what its votes counted. */
  lemma {:induction false} CastIsSumOfVotes(states: seq<State>, ops: seq<Op>, reading: Reading, j: nat, id: nat)
    requires Run(states, ops, reading) && j < |states|
    ensures Cast(states[j].events, id) == VoteSum(states, ops, j, id)
  {
    hide Transact, Counted, Step;
    if j == 0 {
      assert states[0].events == [];
    } else {
      hide Initial, Cast;
      CastIsSumOfVotes(states, ops, reading, j - 1, id);
      CastStep(states, ops, reading, j - 1, id);
    }
  }

  // ----- linear voting -----

  ghost function StoredSnapshot(s: State, id: nat, v: Address): nat {
    if (id, v) in s.ballots.snapshots then s.ballots.snapshots[(id, v)] else 0
  }

  /** The snapshots the votes stored, plus the delegated weight at each vote as far as it fits 128 bits. */
  ghost function SnapshotsPlusDelegated(states: seq<State>, ops: seq<Op>, j: nat, id: nat): int
    requires j < |states| && |states| == |ops| + 1
  {
    if j == 0 then 0
    else
      SnapshotsPlusDelegated(states, ops, j - 1, id)
      + if CastsVote(states[j - 1], ops[j - 1], id) then
          var own := StoredSnapshot(states[j], id, ops[j - 1].voter);
          own + Min(WeightOf(states[j - 1].book.weight, ops[j - 1].voter), I128_MAX - own)
        else 0
  }

  lemma LinearCount(states: seq<State>, ops: seq<Op>, reading: Reading, i: nat, id: nat)
    requires Run(states, ops, reading) && i < |ops| && CastsVote(states[i], ops[i], id) && !states[i].cfg.quadratic
    ensures
      var own := StoredSnapshot(states[i + 1], id, ops[i].voter);
      && own == Own(states[i], id, ops[i].voter)
      && Counted(states[i], id, ops[i].voter)
         == own + Min(WeightOf(states[i].book.weight, ops[i].voter), I128_MAX - own)
  {
    hide Initial, Step, Inv, ValidBook, Own;
    RunKeepsInv(states, ops, reading, i);
    InvBook(states[i]);
    VoteCounts(states[i], ops[i], id);
    assert states[i + 1] == Transact(states[i], ops[i], reading);
  }

  /**
   While votes on a proposal are linear, the weight cast on it is the sum, over its votes, of the
   stored snapshot and the weight delegated to the voter at that vote.
   */
  lemma {:induction false} LinearCast(states: seq<State>, ops: seq<Op>, reading: Reading, j: nat, id: nat)
    requires Run(states, ops, reading) && j < |states|
    requires forall i :: 0 <= i < j && CastsVote(states[i], ops[i], id) ==> !states[i].cfg.quadratic
    ensures Cast(states[j].events, id) == SnapshotsPlusDelegated(states, ops, j, id)
  {
    hide Initial, Transact, Counted, Step, Cast, StoredSnapshot;
    CastIsSumOfVotes(states, ops, reading, j, id);
    if j > 0 {
      LinearCast(states, ops, reading, j - 1, id);
      CastIsSumOfVotes(states, ops, reading, j - 1, id);
      if CastsVote(states[j - 1], ops[j - 1], id) {
        LinearCount(states, ops, reading, j - 1, id);
      }
    }
  }
}
