/** Every step of the governance contract keeps its invariant. */
module GovernanceSteps {
  import opened MachineInts
  import opened Outcomes
  import opened Tokens
  import opened Delegation
  import opened IntegerSqrt
  import opened Governance
  import opened GovernanceInvariant

  // ----- changes confined to one proposal -----

  /** `s'` may differ from `s` only in what is stored and published about proposal `id`. */
  ghost predicate OnlyAbout(s: State, s': State, id: nat) {
    && s'.reg.proposals.Keys == s.reg.proposals.Keys + {id}
    && (forall j :: j in s.reg.proposals && j != id ==> s'.reg.proposals[j] == s.reg.proposals[j])
    && (forall k: Key :: k.0 != id ==> (k in s'.ballots.receipts <==> k in s.ballots.receipts))
    && (forall k: Key :: k in s.ballots.receipts && k.0 != id ==> s'.ballots.receipts[k] == s.ballots.receipts[k])
    && (forall j :: j != id ==> BalanceOf(s'.escrow.deposits, j) == BalanceOf(s.escrow.deposits, j))
    && (forall j :: j != id ==> (j in s'.escrow.deposits <==> j in s.escrow.deposits))
    && (forall j :: j != id ==> (j in s'.escrow.settled <==> j in s.escrow.settled))
    && (forall j :: j != id ==> Replay(s'.events, j) == Replay(s.events, j))
  }

  ghost predicate RecordAgrees(s: State, id: nat)
    requires id in s.reg.proposals
  {
    Agrees(s.reg.proposals[id], Replay(s.events, id), s.ballots.receipts, BalanceOf(s.escrow.deposits, id),
           id in s.escrow.settled)
  }

  lemma OtherRecord(p: Proposal, h: History, receipts: map<Key, int>, receipts': map<Key, int>, deposit: nat,
                    settled: bool)
    requires Agrees(p, h, receipts, deposit, settled)
    requires forall v :: (p.id, v) in receipts' <==> (p.id, v) in receipts
    requires forall v :: (p.id, v) in receipts ==> receipts'[(p.id, v)] == receipts[(p.id, v)]
    ensures Agrees(p, h, receipts', deposit, settled)
  {
    hide EscrowAgrees, OutcomeAgrees;
  }

  lemma RecordsStillAgree(s: State, s': State, id: nat)
    requires IdsOk(s.reg, s.host.seqNo) && RecordsAgree(s.reg.proposals, s.ballots.receipts, s.escrow, s.events)
    requires OnlyAbout(s, s', id) && s'.reg.proposals[id].id == id && RecordAgrees(s', id)
    requires id in s'.escrow.deposits ==> s'.escrow.deposits[id] > 0
    ensures RecordsAgree(s'.reg.proposals, s'.ballots.receipts, s'.escrow, s'.events)
  {
    hide Replay, Agrees;
    forall j | j in s'.reg.proposals
      ensures RecordAgrees(s', j)
    {
      if j != id {
        assert RecordAgrees(s, j);
        OtherRecord(s.reg.proposals[j], Replay(s.events, j), s.ballots.receipts, s'.ballots.receipts,
                    BalanceOf(s.escrow.deposits, j), j in s.escrow.settled);
      }
    }
    forall j | j in s'.escrow.deposits && j != id
      ensures s'.escrow.deposits[j] > 0
    {
      assert BalanceOf(s'.escrow.deposits, j) == BalanceOf(s.escrow.deposits, j);
    }
  }

  lemma RecordOf(s: State, id: nat)
    requires RecordsAgree(s.reg.proposals, s.ballots.receipts, s.escrow, s.events)
    ensures id in s.reg.proposals ==> RecordAgrees(s, id)
    ensures id !in s.reg.proposals ==>
              Replay(s.events, id) == NOTHING && id !in s.escrow.deposits && id !in s.escrow.settled
              && forall v :: (id, v) !in s.ballots.receipts
    ensures id in s.escrow.deposits ==> s.escrow.deposits[id] > 0
  {
    hide Replay, Agrees;
  }

  lemma PublishAbout(events: seq<Event>, e: Event)
    ensures forall j :: j != e.id ==> Replay(events + [e], j) == Replay(events, j)
    ensures Replay(events + [e], e.id) == Extend(Replay(events, e.id), e)
  {
    hide Replay, Extend;
    forall j
      ensures Replay(events + [e], j) == if e.id == j then Extend(Replay(events, j), e) else Replay(events, j)
    {
      ReplayNext(events, e, j);
    }
  }

  /** The shape of every update that touches one proposal and perhaps its escrow, but no receipt. */
  lemma TouchesOnly(s: State, s': State, p': Proposal)
    requires s'.reg.proposals == s.reg.proposals[p'.id := p'] && s'.ballots.receipts == s.ballots.receipts
    requires s'.escrow.settled == s.escrow.settled || s'.escrow.settled == s.escrow.settled + {p'.id}
    requires forall j :: j != p'.id ==>
               (j in s'.escrow.deposits <==> j in s.escrow.deposits)
               && (j in s.escrow.deposits ==> s'.escrow.deposits[j] == s.escrow.deposits[j])
    requires forall j :: j != p'.id ==> Replay(s'.events, j) == Replay(s.events, j)
    ensures OnlyAbout(s, s', p'.id)
  {
    hide Replay;
  }

  /** One settlement turns the open escrow of an Active proposal into a closed one. */
  lemma EscrowCloses(h: History, deposit: nat, h': History, status: Status, refund: bool)
    requires EscrowAgrees(Active, h, deposit, false)
    requires h' == AfterSettlement(h, deposit, refund)
    requires status == Vetoed || status == if refund then Passed else Rejected
    requires status == Vetoed ==> !refund
    ensures EscrowAgrees(status, h', 0, true)
  {
  }

  lemma EscrowStays(h: History, deposit: nat, h': History, status: Status, status': Status)
    requires EscrowAgrees(status, h, deposit, true) && status == Passed && (status' == Executed || status' == Vetoed)
    requires h'.escrowed == h.escrowed && h'.refunds == h.refunds && h'.refunded == h.refunded
    requires h'.forfeits == h.forfeits && h'.forfeited == h.forfeited
    ensures EscrowAgrees(status', h', deposit, true)
  {
  }

  lemma StatusChange(proposals: map<nat, Proposal>, x: Executions, p: Proposal)
    requires ExecutionsOk(proposals, x) && p.id in proposals
    requires p.status != Executed && proposals[p.id].status != Executed
    ensures ExecutionsOk(proposals[p.id := p], x)
  {
    var q := proposals[p.id := p];
    assert (set j | j in q && q[j].status == Executed) == x.executed;
  }

  // ----- creating a proposal -----

  lemma DepositAdded(tokens: Balances, deposits: map<nat, nat>, id: nat, from: Address, amount: nat)
    requires Solvent(tokens, deposits) && id !in deposits && from != SELF && amount <= BalanceOf(tokens, from)
    ensures Solvent(Transfer(tokens, from, SELF, amount), deposits[id := amount])
  {
    hide Sum;
    var d := deposits[id := amount];
    SumRemove(d, d.Keys, id);
    assert d.Keys - {id} == deposits.Keys;
    SumSame(deposits, d, deposits.Keys);
  }

  lemma CreateEscrow(s: State, p: Proposal, amount: nat)
    requires Solvent(s.host.tokens, s.escrow.deposits) && p.id !in s.escrow.deposits && p.proposer != SELF
    requires amount <= BalanceOf(s.host.tokens, p.proposer)
    ensures
      var s', h := WithDeposit(s, p, amount), Replay(s.events, p.id);
      && Solvent(s'.host.tokens, s'.escrow.deposits)
      && (forall j :: j != p.id ==> Replay(s'.events, j) == Replay(s.events, j))
      && Replay(s'.events, p.id) == h.(escrowed := h.escrowed + amount)
      && s'.escrow == (if amount == 0 then s.escrow else s.escrow.(deposits := s.escrow.deposits[p.id := amount]))
  {
    hide Replay, Solvent, Transfer;
    if amount > 0 {
      PublishAbout(s.events, DepositEscrowed(p.id, p.proposer, amount));
      DepositAdded(s.host.tokens, s.escrow.deposits, p.id, p.proposer, amount);
    }
  }

  lemma FreshRecord(p: Proposal, receipts: map<Key, int>, amount: nat)
    requires p.status == Active && p.votesFor == 0 && p.votesAgainst == 0
    requires forall v :: (p.id, v) !in receipts
    ensures Agrees(p, NOTHING.(escrowed := amount), receipts, amount, false)
  {
  }

  lemma CreateRecords(s: State, proposer: Address)
    requires IdsOk(s.reg, s.host.seqNo) && RecordsAgree(s.reg.proposals, s.ballots.receipts, s.escrow, s.events)
    requires Solvent(s.host.tokens, s.escrow.deposits)
    requires s.reg.count < U64_MAX && CreateProposal(s, proposer).1 == Done
    ensures
      var s' := CreateProposal(s, proposer).0;
      && RecordsAgree(s'.reg.proposals, s'.ballots.receipts, s'.escrow, s'.events)
      && Solvent(s'.host.tokens, s'.escrow.deposits)
  {
    hide Replay, RecordsAgree, Solvent, Transfer, WithDeposit, Agrees, OnlyAbout;
    var p, balance := NewProposal(s, proposer), BalanceOf(s.host.tokens, proposer);
    var id, amount := p.id, s.cfg.minDeposit;
    var s0 := WithProposal(s, p, balance);
    var s1 := WithDeposit(s0, p, amount);
    var s' := Publish(s1, ProposalCreated(id, proposer));
    RecordOf(s, id);
    CreateEscrow(s0, p, amount);
    DepositShape(s0, p, amount);
    PublishAbout(s1.events, ProposalCreated(id, proposer));
    TouchesOnly(s, s', p);
    FreshRecord(p, s.ballots.receipts, amount);
    RecordsStillAgree(s, s', id);
  }

  lemma DepositShape(s: State, p: Proposal, amount: nat)
    requires amount <= BalanceOf(s.host.tokens, p.proposer)
    ensures
      var s' := WithDeposit(s, p, amount);
      && s'.cfg == s.cfg && s'.reg == s.reg && s'.ballots == s.ballots && s'.veto == s.veto && s'.exec == s.exec
      && s'.book == s.book && s'.host.seqNo == s.host.seqNo && s'.host.time == s.host.time
      && s'.escrow.settled == s.escrow.settled
  {
  }

  lemma CreateKeepsInv(s: State, proposer: Address)
    requires Inv(s) && s.reg.count < U64_MAX && CreateProposal(s, proposer).1 == Done
    ensures Inv(CreateProposal(s, proposer).0)
  {
    hide IdsOk, RecordsAgree, Solvent, MirrorsOk, ExecutionsOk, VetoOk, CheckpointsOk, ValidBook;
    hide WithDeposit, WithProposal;
    var p, balance := NewProposal(s, proposer), BalanceOf(s.host.tokens, proposer);
    var s' := CreateProposal(s, proposer).0;
    CreateRecords(s, proposer);
    NewShape(s, p, balance);
    DepositShape(WithProposal(s, p, balance), p, s.cfg.minDeposit);
    assert s'.reg == WithProposal(s, p, balance).reg && s'.ballots == WithProposal(s, p, balance).ballots;
    NewIdIsFree(s);
    NewKeepsIds(s, p, balance);
    NewKeepsTables(s, p);
    NewKeepsMirrors(s, p, balance);
    NewKeepsCheckpoints(s, p, balance);
  }

  lemma NewShape(s: State, p: Proposal, balance: nat)
    ensures
      var s' := WithProposal(s, p, balance);
      && s' == s.(reg := s'.reg, ballots := s'.ballots)
      && s'.reg.proposals == s.reg.proposals[p.id := p] && s'.reg.count == p.id
  {
  }

  lemma NewIdIsFree(s: State)
    requires IdsOk(s.reg, s.host.seqNo)
    ensures s.reg.count + 1 !in s.reg.proposals
  {
  }

  lemma NewKeepsIds(s: State, p: Proposal, balance: nat)
    requires IdsOk(s.reg, s.host.seqNo) && p.id == s.reg.count + 1
    ensures IdsOk(WithProposal(s, p, balance).reg, s.host.seqNo)
  {
  }

  lemma NewKeepsCheckpoints(s: State, p: Proposal, balance: nat)
    requires CheckpointsOk(s.ballots, s.host.seqNo)
    ensures CheckpointsOk(WithProposal(s, p, balance).ballots, s.host.seqNo)
  {
  }

  lemma NewKeepsTables(s: State, p: Proposal)
    requires ExecutionsOk(s.reg.proposals, s.exec) && VetoOk(s.reg.proposals, s.veto)
    requires p.id !in s.reg.proposals && p.status == Active
    ensures ExecutionsOk(s.reg.proposals[p.id := p], s.exec) && VetoOk(s.reg.proposals[p.id := p], s.veto)
  {
    var q := s.reg.proposals[p.id := p];
    assert (set j | j in q && q[j].status == Executed) == s.exec.executed;
  }

  lemma NewKeepsMirrors(s: State, p: Proposal, balance: nat)
    requires MirrorsOk(s.ballots)
    ensures MirrorsOk(WithProposal(s, p, balance).ballots)
  {
  }

  // ----- voting -----

  lemma WeightIsPositive(s: State, voter: Address, own: nat)
    requires ValidBook(s.book) && VoteWeight(s, voter, own) != 0
    ensures 0 < VoteWeight(s, voter, own) <= I128_MAX
  {
    hide Isqrt, Mirrored;
    SqrtFits(Max(SatAdd(own, WeightOf(s.book.weight, voter)), 0));
  }

  lemma TallySaturates(sum: int, weight: int)
    requires sum >= 0 && weight > 0
    ensures SatAdd(Min(I128_MAX, sum), weight) == Min(I128_MAX, sum + weight)
  {
  }

  lemma VoteExtends(p: Proposal, h: History, receipts: map<Key, int>, voter: Address, support: bool, weight: int)
    requires VotesAgree(p, h, receipts) && (p.id, voter) !in receipts && weight > 0
    ensures
      var tallied := if support then p.(votesFor := SatAdd(p.votesFor, weight))
                     else p.(votesAgainst := SatAdd(p.votesAgainst, weight));
      VotesAgree(tallied, Extend(h, VoteCast(p.id, voter, support, weight)), receipts[(p.id, voter) := weight])
  {
    TallySaturates(h.forSum, weight);
    TallySaturates(h.againstSum, weight);
    assert voter !in h.weights;
    var w := h.weights[voter := weight];
    assert w.Keys == h.weights.Keys + {voter};
    assert |w| == |w.Keys|;
    assert |h.weights| == |h.weights.Keys|;
  }

  lemma SameEscrow(status: Status, h: History, h': History, deposit: nat, settled: bool)
    requires h' == h.(forSum := h'.forSum, againstSum := h'.againstSum, votes := h'.votes, weights := h'.weights)
    ensures EscrowAgrees(status, h', deposit, settled) <==> EscrowAgrees(status, h, deposit, settled)
    ensures OutcomeAgrees(status, h') <==> OutcomeAgrees(status, h)
  {
  }

  lemma RecordedVote(s: State, p: Proposal, voter: Address, support: bool, weight: int)
    requires IdsOk(s.reg, s.host.seqNo) && RecordsAgree(s.reg.proposals, s.ballots.receipts, s.escrow, s.events)
    requires p.id in s.reg.proposals && s.reg.proposals[p.id] == p
    requires (p.id, voter) !in s.ballots.receipts && 0 < weight
    ensures
      var s' := Recorded(s, p, voter, support, weight);
      RecordsAgree(s'.reg.proposals, s'.ballots.receipts, s'.escrow, s'.events)
  {
    hide Replay, RecordsAgree, VotesAgree, EscrowAgrees, OutcomeAgrees;
    var s', id, e := Recorded(s, p, voter, support, weight), p.id, VoteCast(p.id, voter, support, weight);
    var h := Replay(s.events, id);
    RecordOf(s, id);
    PublishAbout(s.events, e);
    VoteExtends(p, h, s.ballots.receipts, voter, support, weight);
    SameEscrow(p.status, h, Extend(h, e), BalanceOf(s.escrow.deposits, id), id in s.escrow.settled);
    RecordsStillAgree(s, s', id);
  }

  lemma RecordedMirrors(s: State, p: Proposal, voter: Address, support: bool, weight: int)
    requires MirrorsOk(s.ballots)
    ensures MirrorsOk(Recorded(s, p, voter, support, weight).ballots)
  {
  }

  lemma RecordedTables(s: State, p: Proposal, voter: Address, support: bool, weight: int)
    requires IdsOk(s.reg, s.host.seqNo) && ExecutionsOk(s.reg.proposals, s.exec) && VetoOk(s.reg.proposals, s.veto)
    requires p.id in s.reg.proposals && s.reg.proposals[p.id] == p && p.status == Active
    ensures
      var s' := Recorded(s, p, voter, support, weight);
      IdsOk(s'.reg, s.host.seqNo) && ExecutionsOk(s'.reg.proposals, s.exec) && VetoOk(s'.reg.proposals, s.veto)
  {
    hide ExecutionsOk;
    StatusChange(s.reg.proposals, s.exec, Recorded(s, p, voter, support, weight).reg.proposals[p.id]);
  }

  lemma VoteKeepsInv(s: State, voter: Address, id: nat, support: bool)
    requires Inv(s)
    ensures Inv(CastVote(s, voter, id, support).0)
  {
    hide RecordsAgree, Solvent, ExecutionsOk, VetoOk, ValidBook, VoteWeight, ProvenBalance, Recorded;
    var r := CastVote(s, voter, id, support);
    if r.1 == Done {
      var key, p := (id, voter), s.reg.proposals[id];
      var own := if key in s.ballots.snapshots then Some(s.ballots.snapshots[key])
                 else ProvenBalance(s, voter, s.reg.createdLedger[id]);
      var s1 := s.(ballots := s.ballots.(snapshots := s.ballots.snapshots[key := own.value]));
      var weight := VoteWeight(s, voter, own.value);
      WeightIsPositive(s, voter, own.value);
      RecordedVote(s1, p, voter, support, weight);
      RecordedMirrors(s1, p, voter, support, weight);
      RecordedTables(s1, p, voter, support, weight);
      RecordedShape(s1, p, voter, support, weight);
    }
  }

  lemma RecordedShape(s: State, p: Proposal, voter: Address, support: bool, weight: int)
    ensures
      var s' := Recorded(s, p, voter, support, weight);
      && s' == s.(reg := s'.reg, ballots := s'.ballots, events := s'.events)
      && s'.ballots.latest == s.ballots.latest && s'.ballots.prior == s.ballots.prior
      && s'.ballots.snapshots == s.ballots.snapshots && s'.reg.count == s.reg.count
  {
  }

  // ----- settling a deposit -----

  lemma PayOut(tokens: Balances, deposits: map<nat, nat>, id: nat, to: Address)
    requires Solvent(tokens, deposits)
    ensures Solvent(tokens, deposits - {id})
    ensures BalanceOf(deposits, id) <= BalanceOf(tokens, SELF)
    ensures Solvent(Transfer(tokens, SELF, to, BalanceOf(deposits, id)), deposits - {id})
  {
    hide Sum;
    var d := deposits - {id};
    SumSame(deposits, d, d.Keys);
    if id in deposits {
      assert d.Keys == deposits.Keys - {id};
      SumRemove(deposits, deposits.Keys, id);
    } else {
      assert d == deposits;
    }
  }

  /** What refunding and forfeiting have in common: they never trap and touch only the escrow. */
  ghost predicate SettlesEscrow(s: State, r: Option<State>, id: nat) {
    && r.Some?
    && r.value == Settled(s, id).(host := r.value.host, events := r.value.events)
    && r.value.host == s.host.(tokens := r.value.host.tokens)
    && Solvent(r.value.host.tokens, r.value.escrow.deposits)
    && (forall j :: j != id ==> Replay(r.value.events, j) == Replay(s.events, j))
  }

  lemma RefundSettles(s: State, id: nat, proposer: Address)
    requires Solvent(s.host.tokens, s.escrow.deposits) && id !in s.escrow.settled
    ensures SettlesEscrow(s, Refund(s, id, proposer), id)
    ensures
      var h, amount := Replay(s.events, id), DepositOf(s, id);
      Replay(Refund(s, id, proposer).value.events, id) == AfterSettlement(h, amount, true)
  {
    hide Replay, Solvent, Transfer;
    PayOut(s.host.tokens, s.escrow.deposits, id, proposer);
    PublishAbout(s.events, DepositRefunded(id, proposer, DepositOf(s, id)));
  }

  lemma ForfeitSettles(s: State, id: nat, proposer: Address)
    requires Solvent(s.host.tokens, s.escrow.deposits) && id !in s.escrow.settled
    ensures SettlesEscrow(s, Forfeit(s, id, proposer), id)
    ensures
      var h, amount := Replay(s.events, id), DepositOf(s, id);
      Replay(Forfeit(s, id, proposer).value.events, id) == AfterSettlement(h, amount, false)
  {
    hide Replay, Solvent, Transfer;
    PayOut(s.host.tokens, s.escrow.deposits, id, if s.cfg.sink.None? then SELF else s.cfg.sink.value);
    PublishAbout(s.events, DepositForfeited(id, proposer, DepositOf(s, id), s.cfg.sink));
  }

  // ----- resolving a vote -----

  lemma SameVotes(p: Proposal, p': Proposal, h: History, h': History, receipts: map<Key, int>)
    requires VotesAgree(p, h, receipts)
    requires p'.id == p.id && p'.votesFor == p.votesFor && p'.votesAgainst == p.votesAgainst
    requires h'.forSum == h.forSum && h'.againstSum == h.againstSum && h'.votes == h.votes && h'.weights == h.weights
    ensures VotesAgree(p', h', receipts)
  {
  }

  /** A settlement of `amount` as it shows in the published events. */
  function AfterSettlement(h: History, amount: nat, refund: bool): History {
    if amount == 0 then h
    else if refund then h.(refunds := h.refunds + 1, refunded := h.refunded + amount)
    else h.(forfeits := h.forfeits + 1, forfeited := h.forfeited + amount)
  }

  lemma SettledRecord(s: State, p: Proposal, p': Proposal, s': State, refund: bool)
    requires IdsOk(s.reg, s.host.seqNo) && RecordsAgree(s.reg.proposals, s.ballots.receipts, s.escrow, s.events)
    requires p.id in s.reg.proposals && s.reg.proposals[p.id] == p && p.status == Active
    requires p' == p.(status := if refund then Passed else Rejected, eta := p'.eta)
    requires SettlesEscrow(Replaced(s, p'), Some(s'), p.id)
    requires Replay(s'.events, p.id) ==
               AfterSettlement(Replay(s.events, p.id), BalanceOf(s.escrow.deposits, p.id), refund)
    ensures RecordsAgree(s'.reg.proposals, s'.ballots.receipts, s'.escrow, s'.events)
  {
    hide Replay, RecordsAgree, Solvent, VotesAgree, EscrowAgrees, OnlyAbout;
    var id, h, deposit := p.id, Replay(s.events, p.id), BalanceOf(s.escrow.deposits, p.id);
    RecordOf(s, id);
    ActiveIsOpen(h, deposit, id in s.escrow.settled);
    SameVotes(p, p', h, Replay(s'.events, id), s.ballots.receipts);
    EscrowCloses(h, deposit, Replay(s'.events, id), p'.status, refund);
    TouchesOnly(s, s', p');
    RecordsStillAgree(s, s', id);
  }

  /** Leaving Active through one settlement keeps the records in agreement. */
  lemma LeaveActive(s: State, p: Proposal, p': Proposal, refund: bool)
    requires IdsOk(s.reg, s.host.seqNo) && RecordsAgree(s.reg.proposals, s.ballots.receipts, s.escrow, s.events)
    requires Solvent(s.host.tokens, s.escrow.deposits)
    requires p.id in s.reg.proposals && s.reg.proposals[p.id] == p && p.status == Active
    requires p' == p.(status := if refund then Passed else Rejected, eta := p'.eta)
    ensures
      var mid := Replaced(s, p');
      var r := if refund then Refund(mid, p.id, p.proposer) else Forfeit(mid, p.id, p.proposer);
      && SettlesEscrow(mid, r, p.id)
      && RecordsAgree(r.value.reg.proposals, r.value.ballots.receipts, r.value.escrow, r.value.events)
  {
    hide Replay, RecordsAgree, Solvent, VotesAgree, EscrowAgrees, Refund, Forfeit;
    var id, mid := p.id, Replaced(s, p');
    RecordOf(s, id);
    ActiveIsOpen(Replay(s.events, id), BalanceOf(s.escrow.deposits, id), id in s.escrow.settled);
    if refund {
      RefundSettles(mid, id, p.proposer);
      SettledRecord(s, p, p', Refund(mid, id, p.proposer).value, true);
    } else {
      ForfeitSettles(mid, id, p.proposer);
      SettledRecord(s, p, p', Forfeit(mid, id, p.proposer).value, false);
    }
  }

  lemma ActiveIsOpen(h: History, deposit: nat, settled: bool)
    requires EscrowAgrees(Active, h, deposit, settled)
    ensures !settled
  {
  }

  lemma ClosedIsSettled(status: Status, h: History, deposit: nat, settled: bool)
    requires EscrowAgrees(status, h, deposit, settled) && status != Active
    ensures settled && deposit == 0
  {
  }

  /** Replacing a proposal by a later stage of itself, other than Executed or Vetoed. */
  lemma StageTables(s: State, p: Proposal, p': Proposal)
    requires IdsOk(s.reg, s.host.seqNo) && ExecutionsOk(s.reg.proposals, s.exec) && VetoOk(s.reg.proposals, s.veto)
    requires p.id in s.reg.proposals && s.reg.proposals[p.id] == p && p.status == Active
    requires p' == p.(status := p'.status, eta := p'.eta) && (p'.status == Passed || p'.status == Rejected)
    ensures
      var q := Replaced(s, p').reg;
      IdsOk(q, s.host.seqNo) && ExecutionsOk(q.proposals, s.exec) && VetoOk(q.proposals, s.veto)
  {
    hide ExecutionsOk;
    StatusChange(s.reg.proposals, s.exec, p');
  }

  lemma ResolveKeepsInv(s: State, p: Proposal)
    requires Inv(s) && p.id in s.reg.proposals && s.reg.proposals[p.id] == p && p.status == Active
    ensures ResolveVote(s, p).1 != Trapped
    ensures Inv(ResolveVote(s, p).0)
  {
    hide IdsOk, RecordsAgree, Solvent, MirrorsOk, ExecutionsOk, VetoOk, CheckpointsOk, ValidBook;
    hide Refund, Forfeit, Replay;
    hide Countable, QuorumKnown, Quorum;
    var rejected, passed := p.(status := Rejected), p.(status := Passed, eta := s.host.seqNo + s.cfg.delay);
    LeaveActive(s, p, rejected, false);
    LeaveActive(s, p, passed, true);
    StageTables(s, p, rejected);
    StageTables(s, p, passed);
  }

  // ----- executing -----

  lemma DispatchRecords(s: State, p: Proposal, callSucceeds: bool)
    requires IdsOk(s.reg, s.host.seqNo) && RecordsAgree(s.reg.proposals, s.ballots.receipts, s.escrow, s.events)
    requires p.id in s.reg.proposals && s.reg.proposals[p.id] == p && p.status == Passed && s.host.seqNo >= p.eta
    ensures
      var s' := Dispatch(s, p, callSucceeds).0;
      && RecordsAgree(s'.reg.proposals, s'.ballots.receipts, s'.escrow, s'.events)
      && s' == s.(reg := s'.reg, exec := s'.exec, events := s'.events)
      && s'.reg == (if callSucceeds then Replaced(s, p.(status := Executed)).reg else s.reg)
      && s'.exec == (if callSucceeds then Executions(s.exec.executed + {p.id}, Min(U64_MAX, s.exec.nonce + 1))
                     else s.exec)
    ensures Dispatch(s, p, callSucceeds).1 == Done
  {
    hide Replay, RecordsAgree, VotesAgree, EscrowAgrees, OnlyAbout;
    var id, s', h := p.id, Dispatch(s, p, callSucceeds).0, Replay(s.events, p.id);
    RecordOf(s, id);
    ClosedIsSettled(p.status, h, BalanceOf(s.escrow.deposits, id), id in s.escrow.settled);
    PublishAbout(s.events, if callSucceeds then ProposalExecuted(id) else ExecutionFailed(id));
    SameVotes(p, s'.reg.proposals[id], h, Replay(s'.events, id), s.ballots.receipts);
    if callSucceeds {
      EscrowStays(h, BalanceOf(s.escrow.deposits, id), Replay(s'.events, id), Passed, Executed);
    }
    assert s'.reg.proposals == s.reg.proposals[id := s'.reg.proposals[id]];
    TouchesOnly(s, s', s'.reg.proposals[id]);
    RecordsStillAgree(s, s', id);
  }

  lemma {:induction false} IdsBelow(ids: set<nat>, n: nat)
    requires forall j :: j in ids ==> 1 <= j <= n
    ensures |ids| <= n
  {
    if n == 0 {
      assert ids == {};
    } else {
      IdsBelow(ids - {n}, n - 1);
      assert ids <= (ids - {n}) + {n};
    }
  }

  lemma ExecutedTables(s: State, p: Proposal)
    requires IdsOk(s.reg, s.host.seqNo) && ExecutionsOk(s.reg.proposals, s.exec) && VetoOk(s.reg.proposals, s.veto)
    requires s.reg.count <= U64_MAX
    requires p.id in s.reg.proposals && s.reg.proposals[p.id] == p && p.status == Passed
    ensures
      var q := Replaced(s, p.(status := Executed)).reg;
      && IdsOk(q, s.host.seqNo) && VetoOk(q.proposals, s.veto)
      && ExecutionsOk(q.proposals, Executions(s.exec.executed + {p.id}, Min(U64_MAX, s.exec.nonce + 1)))
  {
    IdsBelow(s.exec.executed + {p.id}, s.reg.count);
    var q := s.reg.proposals[p.id := p.(status := Executed)];
    assert s.exec.executed + {p.id} == (set j | j in q && q[j].status == Executed);
  }

  lemma DispatchKeepsInv(s: State, p: Proposal, callSucceeds: bool)
    requires Inv(s) && p.id in s.reg.proposals && s.reg.proposals[p.id] == p && p.status == Passed
    ensures Dispatch(s, p, callSucceeds).1 != Trapped
    ensures Inv(Dispatch(s, p, callSucceeds).0)
  {
    hide IdsOk, RecordsAgree, Solvent, MirrorsOk, ExecutionsOk, VetoOk, CheckpointsOk, ValidBook, Refund;
    if s.host.seqNo >= p.eta {
      DispatchRecords(s, p, callSucceeds);
      ExecutedTables(s, p);
    }
  }

  lemma ExecuteKeepsInv(s: State, id: nat, callSucceeds: bool)
    requires Inv(s)
    ensures ExecuteProposal(s, id, callSucceeds).1 != Trapped
    ensures Inv(ExecuteProposal(s, id, callSucceeds).0)
  {
    hide Inv, ResolveVote, Dispatch;
    if LoadError(s, id).None? {
      var p := s.reg.proposals[id];
      if p.status == Active {
        ResolveKeepsInv(s, p);
      } else if p.status == Passed {
        DispatchKeepsInv(s, p, callSucceeds);
      }
    }
  }

  // ----- vetoing -----

  /** A veto forfeits the deposit of an Active proposal and finds that of a Passed one settled. */
  lemma VetoSettles(s: State, p: Proposal, h: History)
    requires p.id in s.reg.proposals && s.reg.proposals[p.id].status == Vetoed
    requires Solvent(s.host.tokens, s.escrow.deposits)
    requires EscrowAgrees(p.status, h, BalanceOf(s.escrow.deposits, p.id), p.id in s.escrow.settled)
    requires p.status == Active || p.status == Passed
    requires h == Replay(s.events, p.id) && (p.id in s.escrow.deposits ==> s.escrow.deposits[p.id] > 0)
    ensures Forfeit(s, p.id, p.proposer).Some?
    ensures
      var s1 := Forfeit(s, p.id, p.proposer).value;
      && s1 == s.(host := s1.host, escrow := s1.escrow, events := s1.events)
      && s1.host == s.host.(tokens := s1.host.tokens) && s1.escrow == Settled(s, p.id).escrow
      && Solvent(s1.host.tokens, s1.escrow.deposits)
      && (forall j :: j != p.id ==> Replay(s1.events, j) == Replay(s.events, j))
      && Replay(s1.events, p.id) == AfterSettlement(h, BalanceOf(s.escrow.deposits, p.id), false)
      && EscrowAgrees(Vetoed, Replay(s1.events, p.id), 0, true)
  {
    hide Replay, Solvent, EscrowAgrees, Forfeit;
    var id, deposit := p.id, BalanceOf(s.escrow.deposits, p.id);
    if p.status == Active {
      ActiveIsOpen(h, deposit, id in s.escrow.settled);
      ForfeitSettles(s, id, p.proposer);
      EscrowCloses(h, deposit, AfterSettlement(h, deposit, false), Vetoed, false);
    } else {
      ClosedIsSettled(p.status, h, deposit, id in s.escrow.settled);
      AlreadySettled(s, id, p.proposer);
      EscrowStays(h, deposit, h, Passed, Vetoed);
      assert s.escrow.deposits - {id} == s.escrow.deposits && s.escrow.settled + {id} == s.escrow.settled;
    }
  }

  lemma VetoRecords(s: State, p: Proposal, signer: Address, approved: seq<Address>)
    requires IdsOk(s.reg, s.host.seqNo) && RecordsAgree(s.reg.proposals, s.ballots.receipts, s.escrow, s.events)
    requires Solvent(s.host.tokens, s.escrow.deposits)
    requires p.id in s.reg.proposals && s.reg.proposals[p.id] == p && (p.status == Active || p.status == Passed)
    ensures CarryOutVeto(s, p, signer, approved).1 == Done
    ensures
      var s' := CarryOutVeto(s, p, signer, approved).0;
      && RecordsAgree(s'.reg.proposals, s'.ballots.receipts, s'.escrow, s'.events)
      && Solvent(s'.host.tokens, s'.escrow.deposits)
      && s' == s.(host := s'.host, reg := Replaced(s, p.(status := Vetoed)).reg, veto := s'.veto, escrow := s'.escrow,
                  events := s'.events)
      && s'.host == s.host.(tokens := s'.host.tokens)
      && s'.veto == s.veto.(approvals := s'.veto.approvals, phase := s.veto.phase[p.id := VetoExecuted])
  {
    hide Replay, RecordsAgree, Solvent, VotesAgree, EscrowAgrees, Forfeit, OnlyAbout;
    var id, h, p' := p.id, Replay(s.events, p.id), p.(status := Vetoed);
    RecordOf(s, id);
    var cleared := SetStatus(s, p, Vetoed).(
      veto := s.veto.(approvals := s.veto.approvals - (set a | a in approved :: (id, a)),
                      phase := s.veto.phase[id := VetoExecuted]));
    VetoSettles(cleared, p, h);
    var s1 := Forfeit(cleared, id, p.proposer).value;
    VetoedRecord(s, p, s1, Publish(s1, ProposalVetoed(id, signer)), signer);
  }

  lemma VetoedRecord(s: State, p: Proposal, s1: State, s': State, signer: Address)
    requires IdsOk(s.reg, s.host.seqNo) && RecordsAgree(s.reg.proposals, s.ballots.receipts, s.escrow, s.events)
    requires p.id in s.reg.proposals && s.reg.proposals[p.id] == p && (p.status == Active || p.status == Passed)
    requires s1.reg.proposals == s.reg.proposals[p.id := p.(status := Vetoed)]
    requires s1.ballots == s.ballots && s1.escrow == Settled(s, p.id).escrow
    requires forall j :: j != p.id ==> Replay(s1.events, j) == Replay(s.events, j)
    requires Replay(s1.events, p.id) ==
               AfterSettlement(Replay(s.events, p.id), BalanceOf(s.escrow.deposits, p.id), false)
    requires EscrowAgrees(Vetoed, Replay(s1.events, p.id), 0, true)
    requires s' == Publish(s1, ProposalVetoed(p.id, signer))
    ensures RecordsAgree(s'.reg.proposals, s'.ballots.receipts, s'.escrow, s'.events)
  {
    hide Replay, RecordsAgree, RecordAgrees, EscrowAgrees, OnlyAbout;
    RecordOf(s, p.id);
    VetoedAgrees(s, p, s1, signer);
    PublishAbout(s1.events, ProposalVetoed(p.id, signer));
    TouchesOnly(s, s', p.(status := Vetoed));
    RecordsStillAgree(s, s', p.id);
  }

  lemma VetoedAgrees(s: State, p: Proposal, s1: State, signer: Address)
    requires p.id in s.reg.proposals && s.reg.proposals[p.id] == p && RecordAgrees(s, p.id)
    requires p.status == Active || p.status == Passed
    requires s1.reg.proposals == s.reg.proposals[p.id := p.(status := Vetoed)]
    requires s1.ballots == s.ballots && s1.escrow == Settled(s, p.id).escrow
    requires Replay(s1.events, p.id) ==
               AfterSettlement(Replay(s.events, p.id), BalanceOf(s.escrow.deposits, p.id), false)
    requires EscrowAgrees(Vetoed, Replay(s1.events, p.id), 0, true)
    ensures RecordAgrees(Publish(s1, ProposalVetoed(p.id, signer)), p.id)
  {
    hide Replay, VotesAgree, EscrowAgrees;
    var s', h := Publish(s1, ProposalVetoed(p.id, signer)), Replay(s.events, p.id);
    PublishAbout(s1.events, ProposalVetoed(p.id, signer));
    SameVotes(p, p.(status := Vetoed), h, Replay(s'.events, p.id), s.ballots.receipts);
    SameSettlement(Replay(s1.events, p.id), Replay(s'.events, p.id), 0);
  }

  lemma SameSettlement(h: History, h': History, deposit: nat)
    requires EscrowAgrees(Vetoed, h, deposit, true) && h' == h.(vetoes := h'.vetoes)
    ensures EscrowAgrees(Vetoed, h', deposit, true)
  {
  }

  lemma AlreadySettled(s: State, id: nat, proposer: Address)
    requires id in s.escrow.settled
    ensures Forfeit(s, id, proposer) == Some(s) && Refund(s, id, proposer) == Some(s)
  {
  }

  lemma VetoedTables(s: State, p: Proposal)
    requires IdsOk(s.reg, s.host.seqNo) && ExecutionsOk(s.reg.proposals, s.exec) && VetoOk(s.reg.proposals, s.veto)
    requires p.id in s.reg.proposals && s.reg.proposals[p.id] == p && (p.status == Active || p.status == Passed)
    ensures
      var q := Replaced(s, p.(status := Vetoed)).reg;
      && IdsOk(q, s.host.seqNo) && ExecutionsOk(q.proposals, s.exec)
      && forall v: Multisig :: v == s.veto.(approvals := v.approvals, phase := s.veto.phase[p.id := VetoExecuted])
           ==> VetoOk(q.proposals, v)
  {
    hide ExecutionsOk;
    StatusChange(s.reg.proposals, s.exec, p.(status := Vetoed));
  }

  lemma CarryOutVetoKeepsInv(s: State, p: Proposal, signer: Address, approved: seq<Address>)
    requires Inv(s)
    requires p.id in s.reg.proposals && s.reg.proposals[p.id] == p && (p.status == Active || p.status == Passed)
    ensures CarryOutVeto(s, p, signer, approved).1 == Done
    ensures Inv(CarryOutVeto(s, p, signer, approved).0)
  {
    hide IdsOk, RecordsAgree, Solvent, MirrorsOk, ExecutionsOk, VetoOk, CheckpointsOk, ValidBook, CarryOutVeto;
    VetoRecords(s, p, signer, approved);
    VetoedTables(s, p);
  }

  lemma PendingVeto(proposals: map<nat, Proposal>, v: Multisig, id: nat, approvals: set<Key>)
    requires VetoOk(proposals, v) && id in proposals && proposals[id].status != Vetoed
    ensures VetoOk(proposals, v.(approvals := approvals))
    ensures VetoOk(proposals, v.(approvals := approvals, phase := v.phase[id := VetoPending]))
  {
  }

  lemma VetoKeepsInv(s: State, signer: Address, id: nat, reasonGiven: bool)
    requires Inv(s)
    ensures VetoProposal(s, signer, id, reasonGiven).1 != Trapped
    ensures Inv(VetoProposal(s, signer, id, reasonGiven).0)
  {
    hide RecordsAgree, Solvent, MirrorsOk, ExecutionsOk, VetoOk, CheckpointsOk, ValidBook, CarryOutVeto, Approvers;
    if LoadError(s, id).None? && s.veto.signers.Some? {
      var p := s.reg.proposals[id];
      if p.status == Active || p.status == Passed {
        var approving := s.(veto := s.veto.(approvals := s.veto.approvals + {(id, signer)}));
        PendingVeto(s.reg.proposals, s.veto, id, approving.veto.approvals);
        CarryOutVetoKeepsInv(approving, p, signer, Approvers(s.veto.signers.value, approving.veto.approvals, id));
      }
    }
  }

  // ----- settings and environment -----

  lemma BalanceMoveKeepsSolvent(tokens: Balances, deposits: map<nat, nat>, a: Address, v: nat)
    requires Solvent(tokens, deposits) && (a != SELF || v >= BalanceOf(tokens, SELF))
    ensures Solvent(tokens[a := v], deposits)
  {
    hide Sum;
  }

  lemma ArchiveKeeps(b: Ballots, voted: set<Key>, weights: set<Key>, seqNo: nat)
    requires MirrorsOk(b) && CheckpointsOk(b, seqNo)
    ensures
      var b' := b.(tempVoted := b.tempVoted - voted, tempWeight := b.tempWeight - weights);
      MirrorsOk(b') && CheckpointsOk(b', seqNo)
  {
  }

  lemma CapKeepsValid(b: Book, depth: nat)
    requires ValidBook(b) && depth <= U32_MAX
    ensures ValidBook(b.(cap := depth))
  {
  }

  lemma LedgerKeeps(s: State, seqNo: nat)
    requires IdsOk(s.reg, s.host.seqNo) && CheckpointsOk(s.ballots, s.host.seqNo) && s.host.seqNo <= seqNo
    ensures IdsOk(s.reg, seqNo) && CheckpointsOk(s.ballots, seqNo)
  {
  }

  lemma TakeCheckpointKeeps(s: State, voter: Address)
    requires CheckpointsOk(s.ballots, s.host.seqNo) && MirrorsOk(s.ballots)
    ensures
      var s' := CheckpointBalance(s, voter).0;
      && CheckpointsOk(s'.ballots, s.host.seqNo) && MirrorsOk(s'.ballots)
      && s' == s.(ballots := s'.ballots) && s'.ballots.receipts == s.ballots.receipts
  {
  }

  lemma SignersKeep(s: State, signers: seq<Address>, threshold: nat)
    requires VetoOk(s.reg.proposals, s.veto)
    ensures VetoOk(s.reg.proposals, ConfigureVeto(s, signers, threshold).0.veto)
  {
  }

  lemma DisableKeeps(proposals: map<nat, Proposal>, v: Multisig)
    requires VetoOk(proposals, v)
    ensures VetoOk(proposals, v.(enabled := false))
  {
  }

  /** The environment and the settings, which leave proposals and events alone. */
  lemma OtherKeepsInv(s: State, op: Op)
    requires Inv(s) && !op.Create? && !op.Vote? && !op.Execute? && !op.Veto?
    ensures Inv(Step(s, op).0)
  {
    hide IdsOk, RecordsAgree, Solvent, MirrorsOk, ExecutionsOk, VetoOk, CheckpointsOk, ValidBook, Delegate, Undelegate;
    hide ProvenBalance, CheckpointBalance, NoDuplicates;
    match op
    case DelegateTo(x, y) =>
      var proven := ProvenBalance(s, x, s.host.seqNo);
      DelegateKeepsValid(s.book, x, y, if proven.None? then None else Some(proven.value));
    case Withdraw(x) => UndelegateKeepsValid(s.book, x, BalanceOf(s.host.tokens, x));
    case SetDepth(depth) =>
      if depth <= U32_MAX {
        CapKeepsValid(s.book, depth);
      }
    case TakeCheckpoint(voter) => TakeCheckpointKeeps(s, voter);
    case ConfigureSigners(signers, threshold) => SignersKeep(s, signers, threshold);
    case DisableVetoPower => DisableKeeps(s.reg.proposals, s.veto);
    case LedgerCloses(seqNo, time) =>
      if s.host.seqNo <= seqNo {
        LedgerKeeps(s, seqNo);
      }
    case BalanceBecomes(a, v) =>
      if a != SELF {
        BalanceMoveKeepsSolvent(s.host.tokens, s.escrow.deposits, a, v);
      }
    case ContractReceives(v) =>
      BalanceMoveKeepsSolvent(s.host.tokens, s.escrow.deposits, SELF, BalanceOf(s.host.tokens, SELF) + v);
    case Archive(voted, weights) => ArchiveKeeps(s.ballots, voted, weights, s.host.seqNo);
    case _ =>
  }

  // ----- all steps -----

  lemma CreateFails(s: State, proposer: Address)
    requires CreateProposal(s, proposer).1 != Done
    ensures CreateProposal(s, proposer).0 == s
  {
  }

  /** The raw state after any call satisfies the invariant, whether or not the call failed. */
  lemma StepKeepsInv(s: State, op: Op)
    requires Inv(s) && (op.Create? ==> s.reg.count < U64_MAX)
    ensures Inv(Step(s, op).0)
  {
    hide Inv, CreateProposal, CastVote, ExecuteProposal, VetoProposal;
    match op
    case Create(proposer) =>
      if CreateProposal(s, proposer).1 == Done {
        CreateKeepsInv(s, proposer);
      } else {
        CreateFails(s, proposer);
      }
    case Vote(voter, id, support) => VoteKeepsInv(s, voter, id, support);
    case Execute(id, callSucceeds) => ExecuteKeepsInv(s, id, callSucceeds);
    case Veto(signer, id, reasonGiven) => VetoKeepsInv(s, signer, id, reasonGiven);
    case _ => OtherKeepsInv(s, op);
  }
}
