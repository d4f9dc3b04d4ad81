/** Vetoes along a run: who approved them, and when they are over. */
module GovernanceVeto {
  import opened Outcomes
  import opened Delegation
  import opened Governance
  import opened GovernanceInvariant
  import opened GovernanceRuns

  ghost predicate VetoesAt(states: seq<State>, ops: seq<Op>, j: nat, id: nat) {
    && j < |ops| && At(states, j, id) && At(states, j + 1, id)
    && VetoMove(states[j], ops[j], PropAt(states, j, id), PropAt(states, j + 1, id))
  }

  /** `a` approved a veto of `id` at step `i`, and the call succeeded. */
  ghost predicate ApprovesAt(states: seq<State>, ops: seq<Op>, i: nat, a: Address, id: nat) {
    i < |ops| && i < |states| && ops[i].Veto? && ops[i].signer == a && ops[i].id == id
    && Step(states[i], ops[i]).1 == Done
  }

  ghost predicate ApprovedBefore(states: seq<State>, ops: seq<Op>, j: nat, a: Address, id: nat) {
    exists i :: 0 <= i < j && ApprovesAt(states, ops, i, a, id)
  }

  lemma ApprovalStep(s: State, op: Op, key: Key)
    requires key in Step(s, op).0.veto.approvals
    ensures key in s.veto.approvals
            || (op.Veto? && key == (op.id, op.signer) && (Step(s, op).1 == Done || Step(s, op).1 == Trapped))
  {
    hide Delegate, Undelegate, ProvenBalance, VoteWeight, NoDuplicates, Approvers, Quorum;
  }

  lemma NoApprovalsAtFirst(states: seq<State>, ops: seq<Op>, reading: Reading, key: Key)
    requires Run(states, ops, reading)
    ensures key !in states[0].veto.approvals
  {
    hide Step;
  }

  lemma ApprovesNow(states: seq<State>, ops: seq<Op>, reading: Reading, j: nat, a: Address, id: nat)
    requires Run(states, ops, reading) && j + 1 < |states|
    requires (id, a) !in states[j].veto.approvals && (id, a) in states[j + 1].veto.approvals
    ensures ApprovesAt(states, ops, j, a, id)
  {
    hide Step, Initial;
    ApprovalStep(states[j], ops[j], (id, a));
  }

  /** Every durable approval was given by a successful call of that signer for that proposal. */
  lemma {:induction false} ApprovalOrigin(states: seq<State>, ops: seq<Op>, reading: Reading, j: nat, a: Address,
                                          id: nat)
    requires Run(states, ops, reading) && j < |states| && (id, a) in states[j].veto.approvals
    ensures ApprovedBefore(states, ops, j, a, id)
  {
    hide Step, Initial, ApprovesAt;
    NoApprovalsAtFirst(states, ops, reading, (id, a));
    if j > 0 {
      var s, op := states[j - 1], ops[j - 1];
      if (id, a) in s.veto.approvals {
        ApprovalOrigin(states, ops, reading, j - 1, a, id);
        var i :| 0 <= i < j - 1 && ApprovesAt(states, ops, i, a, id);
      } else {
        ApprovesNow(states, ops, reading, j - 1, a, id);
      }
    }
  }

  lemma {:induction false} ApproversContents(signers: seq<Address>, approvals: set<Key>, id: nat)
    requires NoDuplicates(signers)
    ensures
      var approved := Approvers(signers, approvals, id);
      && (forall a :: a in approved <==> a in signers && (id, a) in approvals)
      && NoDuplicates(approved)
  {
    if signers != [] {
      var front, last := signers[..|signers| - 1], signers[|signers| - 1];
      assert signers == front + [last];
      ApproversContents(front, approvals, id);
      assert last !in front;
    }
  }

  lemma {:induction false} DistinctSize(xs: seq<Address>)
    requires NoDuplicates(xs)
    ensures |Members(xs)| == |xs|
  {
    if xs != [] {
      var front, last := xs[..|xs| - 1], xs[|xs| - 1];
      assert xs == front + [last];
      DistinctSize(front);
      assert Members(xs) == Members(front) + {last};
      assert last !in Members(front);
    }
  }

  lemma VetoCallSucceeds(s: State, op: Op, reading: Reading, id: nat)
    requires Inv(s) && id in s.reg.proposals && op.Veto? && op.id == id
    requires id in Transact(s, op, reading).reg.proposals
    requires Transact(s, op, reading).reg.proposals[id] != s.reg.proposals[id]
    ensures Step(s, op).1 == Done
  {
    hide Inv, Approvers;
    InvIds(s, id);
  }

  /**
   A veto takes effect only at a step where at least `threshold` different members of the signer
   set configured at that step have each approved a veto of this very proposal by a successful call.
   */
  lemma VetoNeedsThreshold(states: seq<State>, ops: seq<Op>, reading: Reading, j: nat, id: nat)
    returns (who: set<Address>)
    requires Run(states, ops, reading) && VetoesAt(states, ops, j, id)
    ensures states[j].veto.enabled && states[j].veto.signers.Some? && 1 <= states[j].veto.threshold <= |who|
    ensures forall a :: a in who ==>
              a in states[j].veto.signers.value && ApprovedBefore(states, ops, j + 1, a, id)
  {
    hide Inv, Initial, Step;
    var s, op := states[j], ops[j];
    RunKeepsInv(states, ops, reading, j);
    InvIds(s, id);
    InvVeto(s);
    var approved := Approvers(s.veto.signers.value, s.veto.approvals + {(id, op.signer)}, id);
    ApproversContents(s.veto.signers.value, s.veto.approvals + {(id, op.signer)}, id);
    DistinctSize(approved);
    who := Members(approved);
    VetoCallSucceeds(s, op, reading, id);
    assert ApprovesAt(states, ops, j, op.signer, id);
    forall a | a in who
      ensures ApprovedBefore(states, ops, j + 1, a, id)
    {
      if a != op.signer {
        ApprovalOrigin(states, ops, reading, j, a, id);
        var i :| 0 <= i < j && ApprovesAt(states, ops, i, a, id);
      }
    }
  }

  lemma DisabledStep(s: State, op: Op)
    requires !s.veto.enabled
    ensures !Step(s, op).0.veto.enabled
  {
    hide Delegate, Undelegate, ProvenBalance, VoteWeight, NoDuplicates, Approvers, Quorum;
  }

  /** Once veto power is disabled it stays so, and no proposal is vetoed any more. */
  lemma {:induction false} DisabledForever(states: seq<State>, ops: seq<Op>, reading: Reading, i: nat, j: nat)
    requires Run(states, ops, reading) && i <= j < |states| && !states[i].veto.enabled
    ensures !states[j].veto.enabled
    ensures forall id :: !VetoesAt(states, ops, j, id)
    decreases j
  {
    hide Step, Initial, Approvers;
    if i < j {
      DisabledForever(states, ops, reading, i, j - 1);
      DisabledStep(states[j - 1], ops[j - 1]);
    }
  }

  lemma MoveToVetoed(s: State, op: Op, p: Proposal, p': Proposal)
    requires Moves(s, op, p, p') && p'.status == Vetoed && p.status != Vetoed
    ensures VetoMove(s, op, p, p')
  {
    hide Approvers;
  }

  /** The set of vetoed proposals does not grow after veto power is disabled. */
  lemma {:induction false} NoVetoAfterDisable(states: seq<State>, ops: seq<Op>, reading: Reading, i: nat, j: nat,
                                              id: nat)
    requires Run(states, ops, reading) && i <= j < |states| && !states[i].veto.enabled
    requires At(states, j, id) && PropAt(states, j, id).status == Vetoed
    ensures At(states, i, id) && PropAt(states, i, id).status == Vetoed
    decreases j
  {
    hide Transact, Initial, Inv, Moves, VetoMove;
    if i < j {
      if !At(states, j - 1, id) {
        NotYetIssued(states, ops, reading, j, id);
        assert false;
      }
      MoveAt(states, ops, reading, j - 1, id);
      DisabledForever(states, ops, reading, i, j - 1);
      assert !VetoesAt(states, ops, j - 1, id);
      if PropAt(states, j - 1, id).status != Vetoed {
        MoveToVetoed(states[j - 1], ops[j - 1], PropAt(states, j - 1, id), PropAt(states, j, id));
        assert false;
      }
      NoVetoAfterDisable(states, ops, reading, i, j - 1, id);
    }
  }
}
