/** The settings in force at any moment of a run are the last ones validly set before it. */
module GovernanceSettings {
  import opened MachineInts
  import opened Outcomes
  import opened Delegation
  import opened Governance
  import opened GovernanceRuns

  /** The last value that `given` has to a call before call `n`, or `first` if there is none. */
  ghost function LastOf<T>(n: nat, given: nat -> Option<T>, first: T): T {
    if n == 0 then first else if given(n - 1).Some? then given(n - 1).value else LastOf(n - 1, given, first)
  }

  // ----- what each call validly sets -----

  /** Veto power has been given up before call `k`. */
  ghost predicate GivenUp(ops: seq<Op>, k: nat) {
    exists i :: 0 <= i < k && i < |ops| && ops[i] == DisableVetoPower
  }

  ghost function QuorumSet(ops: seq<Op>): nat -> Option<nat> {
    (k: nat) => if k < |ops| && ops[k].SetQuorum? && 1 <= ops[k].bps <= 10_000 then Some(ops[k].bps) else None
  }

  ghost function SupplySet(ops: seq<Op>): nat -> Option<int> {
    (k: nat) => if k < |ops| && ops[k].SetSupply? then Some(ops[k].supply) else None
  }

  ghost function GateSet(ops: seq<Op>): nat -> Option<int> {
    (k: nat) => if k < |ops| && ops[k].SetBalanceGate? then Some(ops[k].amount) else None
  }

  ghost function DepositSet(ops: seq<Op>): nat -> Option<int> {
    (k: nat) => if k < |ops| && ops[k].SetDeposit? && ops[k].amount >= 0 then Some(ops[k].amount) else None
  }

  ghost function SinkSet(ops: seq<Op>): nat -> Option<Option<Address>> {
    (k: nat) => if k < |ops| && ops[k].SetSink? then Some(ops[k].sink) else None
  }

  ghost function ModeSet(ops: seq<Op>): nat -> Option<bool> {
    (k: nat) => if k < |ops| && ops[k].SetQuadratic? then Some(ops[k].on) else None
  }

  /** By the admin, at most thirty days, and at least a day once veto power is gone. */
  ghost function DelaySet(ops: seq<Op>, admin: Address): nat -> Option<nat> {
    (k: nat) => if k < |ops| && ops[k].SetDelay? && ops[k].caller == admin && ops[k].delay <= 518_400
                   && (GivenUp(ops, k) ==> ops[k].delay >= 17_280)
                then Some(ops[k].delay) else None
  }

  ghost function DepthSet(ops: seq<Op>): nat -> Option<nat> {
    (k: nat) => if k < |ops| && ops[k].SetDepth? && ops[k].depth <= U32_MAX then Some(ops[k].depth) else None
  }

  /** At least one signer, none twice, and a threshold between one and their number. */
  ghost predicate ValidSigners(signers: seq<Address>, threshold: nat) {
    1 <= threshold <= |signers| && forall i, j :: 0 <= i < j < |signers| ==> signers[i] != signers[j]
  }

  ghost function SignersSet(ops: seq<Op>): nat -> Option<(Option<seq<Address>>, nat)> {
    (k: nat) => if k < |ops| && ops[k].ConfigureSigners? && ValidSigners(ops[k].signers, ops[k].threshold)
                then Some((Some(ops[k].signers), ops[k].threshold)) else None
  }

  // ----- the law -----

  ghost predicate InForce(states: seq<State>, ops: seq<Op>, j: nat)
    requires j < |states|
  {
    var first, s := states[0].cfg, states[j];
    && s.cfg == Settings(first.admin, LastOf(j, QuorumSet(ops), 1_000), LastOf(j, SupplySet(ops), first.totalSupply),
                         LastOf(j, GateSet(ops), 1_000), LastOf(j, DepositSet(ops), 0), LastOf(j, SinkSet(ops), None),
                         LastOf(j, DelaySet(ops, first.admin), 0), LastOf(j, ModeSet(ops), false))
    && s.veto.enabled == !GivenUp(ops, j)
    && (s.veto.signers, s.veto.threshold) == LastOf(j, SignersSet(ops), (None, 0))
    && s.book.cap == LastOf(j, DepthSet(ops), 10)
  }

  /** The calls that set nothing. */
  lemma OthersKeepSettings(s: State, op: Op)
    requires op.Create? || op.Vote? || op.Execute? || op.Veto? || op.DelegateTo? || op.Withdraw?
    ensures
      var s' := Step(s, op).0;
      && s'.cfg == s.cfg && s'.veto.enabled == s.veto.enabled && s'.veto.signers == s.veto.signers
      && s'.veto.threshold == s.veto.threshold && s'.book.cap == s.book.cap
  {
    hide ExecuteProposal, VetoProposal, ProvenBalance, VoteWeight, FitsCap;
    match op
    case Execute(id, callSucceeds) => ExecuteKeepsSettings(s, id, callSucceeds);
    case Veto(signer, id, reasonGiven) => VetoKeepsSettings(s, signer, id, reasonGiven);
    case _ =>
  }

  lemma PaymentsKeepSettings(s: State, id: nat, proposer: Address)
    ensures Refund(s, id, proposer).Some? ==>
              var t := Refund(s, id, proposer).value;
              t.cfg == s.cfg && t.veto == s.veto && t.book == s.book
    ensures Forfeit(s, id, proposer).Some? ==>
              var t := Forfeit(s, id, proposer).value;
              t.cfg == s.cfg && t.veto == s.veto && t.book == s.book
  {
  }

  lemma ExecuteKeepsSettings(s: State, id: nat, callSucceeds: bool)
    ensures
      var t := ExecuteProposal(s, id, callSucceeds).0;
      t.cfg == s.cfg && t.veto == s.veto && t.book == s.book
  {
    hide Refund, Forfeit, Quorum;
    if LoadError(s, id).None? {
      var p := s.reg.proposals[id];
      PaymentsKeepSettings(SetStatus(s, p, Rejected), p.id, p.proposer);
      PaymentsKeepSettings(SetStatus(s, p.(eta := s.host.seqNo + s.cfg.delay), Passed), p.id, p.proposer);
      PaymentsKeepSettings(SetStatus(s, p, Executed).(
        exec := Executions(s.exec.executed + {p.id}, Min(U64_MAX, s.exec.nonce + 1))), p.id, p.proposer);
    }
  }

  lemma VetoKeepsSettings(s: State, signer: Address, id: nat, reasonGiven: bool)
    ensures
      var t := VetoProposal(s, signer, id, reasonGiven).0;
      && t.cfg == s.cfg && t.book == s.book
      && t.veto.enabled == s.veto.enabled && t.veto.signers == s.veto.signers && t.veto.threshold == s.veto.threshold
  {
    hide Approvers, Forfeit;
    if LoadError(s, id).None? && s.veto.signers.Some? {
      var p := s.reg.proposals[id];
      var bound := if id in s.reg.proposers then s
                   else s.(reg := s.reg.(proposers := s.reg.proposers[id := p.proposer]));
      var approving := bound.(veto := s.veto.(approvals := s.veto.approvals + {(id, signer)}));
      var approved := Approvers(s.veto.signers.value, approving.veto.approvals, id);
      PaymentsKeepSettings(SetStatus(approving, p, Vetoed).(
        veto := approving.veto.(approvals := approving.veto.approvals - (set a | a in approved :: (p.id, a)),
                                phase := approving.veto.phase[p.id := VetoExecuted])), p.id, p.proposer);
    }
  }

  /** What one call does to the settings. */
  lemma SetterStep(s: State, op: Op, reading: Reading)
    ensures
      var s', c, c' := Transact(s, op, reading), s.cfg, Transact(s, op, reading).cfg;
      && c'.admin == c.admin
      && c'.quorumBps == (if op.SetQuorum? && 1 <= op.bps <= 10_000 then op.bps else c.quorumBps)
      && c'.totalSupply == (if op.SetSupply? then op.supply else c.totalSupply)
      && c'.minBalance == (if op.SetBalanceGate? then op.amount else c.minBalance)
      && c'.minDeposit == (if op.SetDeposit? && op.amount >= 0 then op.amount else c.minDeposit)
      && c'.sink == (if op.SetSink? then op.sink else c.sink)
      && c'.quadratic == (if op.SetQuadratic? then op.on else c.quadratic)
      && c'.delay == (if op.SetDelay? && op.caller == c.admin && op.delay <= 518_400
                         && (!s.veto.enabled ==> op.delay >= 17_280) then op.delay else c.delay)
      && s'.veto.enabled == (s.veto.enabled && op != DisableVetoPower)
      && (s'.veto.signers, s'.veto.threshold) ==
           (if op.ConfigureSigners? && ValidSigners(op.signers, op.threshold) then (Some(op.signers), op.threshold)
            else (s.veto.signers, s.veto.threshold))
      && s'.book.cap == (if op.SetDepth? && op.depth <= U32_MAX then op.depth else s.book.cap)
  {
    hide CreateProposal, CastVote, ExecuteProposal, VetoProposal, DelegateVotes, UndelegateVotes;
    if op.Create? || op.Vote? || op.Execute? || op.Veto? || op.DelegateTo? || op.Withdraw? {
      OthersKeepSettings(s, op);
    }
  }

  lemma SettingsStep(states: seq<State>, ops: seq<Op>, reading: Reading, j: nat)
    requires Run(states, ops, reading) && 0 < j < |states| && InForce(states, ops, j - 1)
    ensures InForce(states, ops, j)
  {
    hide Initial, Transact, ValidSigners;
    var s, op, s' := states[j - 1], ops[j - 1], states[j];
    assert s' == Transact(s, op, reading);
    assert GivenUp(ops, j) <==> GivenUp(ops, j - 1) || op == DisableVetoPower;
    SetterStep(s, op, reading);
  }

  /**
   In every state of every run each setting, the veto signers with their threshold and the depth cap
   are those of the last valid call that set them, or the initial ones; and veto power is enabled
   unless it was given up.
   */
  lemma {:induction false} SettingsAreLastSet(states: seq<State>, ops: seq<Op>, reading: Reading, j: nat)
    requires Run(states, ops, reading) && j < |states|
    ensures InForce(states, ops, j)
  {
    hide Transact, InForce;
    if j == 0 {
      FirstSettings(states, ops, reading);
    } else {
      SettingsAreLastSet(states, ops, reading, j - 1);
      SettingsStep(states, ops, reading, j);
    }
  }

  lemma FirstSettings(states: seq<State>, ops: seq<Op>, reading: Reading)
    requires Run(states, ops, reading)
    ensures InForce(states, ops, 0)
  {
    hide Transact;
  }
}
