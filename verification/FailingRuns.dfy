/** Runs from the initial state in which a documented promise fails. */
module FailingRuns {
  import opened MachineInts
  import opened Outcomes
  import opened Tokens
  import opened ChainGraph
  import opened Delegation
  import opened DelegationTally
  import opened Governance
  import opened GovernanceRuns
  import opened GovernanceVotes
  import opened VoteAccount
  import opened VoteSupply
  import DelegationRuns

  // ----- single steps -----

  lemma Checkpointed(s: State, v: Address, reading: Reading)
    ensures
      var b := s.ballots;
      var prior := if v in b.latest && b.latest[v].ledger < s.host.seqNo then b.prior[v := b.latest[v]] else b.prior;
      Transact(s, TakeCheckpoint(v), reading) ==
        s.(ballots := b.(prior := prior,
                         latest := b.latest[v := Checkpoint(BalanceOf(s.host.tokens, v), s.host.seqNo)]))
  {
  }

  lemma Closed(s: State, seqNo: nat, reading: Reading)
    requires s.host.seqNo <= seqNo <= U32_MAX && s.host.time <= U64_MAX
    ensures Transact(s, LedgerCloses(seqNo, s.host.time), reading) == s.(host := s.host.(seqNo := seqNo))
  {
  }

  lemma Held(s: State, a: Address, v: nat, reading: Reading)
    requires a != SELF
    ensures Transact(s, BalanceBecomes(a, v), reading) == s.(host := s.host.(tokens := s.host.tokens[a := v]))
  {
  }

  lemma Created(s: State, a: Address, reading: Reading)
    requires a != SELF && BalanceOf(s.host.tokens, a) >= s.cfg.minBalance && s.cfg.minDeposit == 0
    ensures
      var p := NewProposal(s, a);
      Transact(s, Create(a), reading) ==
        Publish(WithProposal(s, p, BalanceOf(s.host.tokens, a)), ProposalCreated(p.id, a))
  {
  }

  /** A first vote of `v` on the open proposal 1, with `own` as its snapshot or proven balance. */
  lemma Voted(s: State, v: Address, own: nat, reading: Reading)
    requires s.reg.count == 1 && 1 in s.reg.proposals && s.reg.proposals[1].id == 1 && 1 in s.reg.createdLedger
    requires s.reg.proposals[1].status == Active && s.host.time < s.reg.proposals[1].votingEnd
    requires (1, v) !in s.ballots.receipts && (1, v) !in s.ballots.tempVoted
    requires if (1, v) in s.ballots.snapshots then s.ballots.snapshots[(1, v)] == own
             else ProvenBalance(s, v, s.reg.createdLedger[1]) == Some(own)
    requires VoteWeight(s, v, own) != 0
    ensures
      var s1 := s.(ballots := s.ballots.(snapshots := s.ballots.snapshots[(1, v) := own]));
      Transact(s, Vote(v, 1, true), reading) == Recorded(s1, s.reg.proposals[1], v, true, VoteWeight(s, v, own))
  {
    hide ProvenBalance, VoteWeight, Recorded;
  }

  lemma VoteSucceeds(s: State, v: Address, own: nat)
    requires s.reg.count == 1 && 1 in s.reg.proposals && s.reg.proposals[1].id == 1 && 1 in s.reg.createdLedger
    requires s.reg.proposals[1].status == Active && s.host.time < s.reg.proposals[1].votingEnd
    requires (1, v) !in s.ballots.receipts && (1, v) !in s.ballots.tempVoted
    requires if (1, v) in s.ballots.snapshots then s.ballots.snapshots[(1, v)] == own
             else ProvenBalance(s, v, s.reg.createdLedger[1]) == Some(own)
    requires VoteWeight(s, v, own) != 0
    ensures CastsVote(s, Vote(v, 1, true), 1)
  {
    hide ProvenBalance, VoteWeight, Recorded;
  }

  lemma LinearVote(s: State, v: Address, own: nat)
    requires !s.cfg.quadratic && own + WeightOf(s.book.weight, v) <= I128_MAX && WeightOf(s.book.weight, v) >= 0
    ensures VoteWeight(s, v, own) == own + WeightOf(s.book.weight, v)
  {
  }

  lemma OneHolder(a: Address, v: nat, bal: Balances)
    requires bal == map[a := v]
    ensures Sum(bal, bal.Keys) == v
  {
    SumRemove(bal, {a}, a);
    assert bal.Keys == {a} && {a} - {a} == {};
  }

  const OPENED := Proposal(1, 1, Active, 0, 0, 0, VOTING_PERIOD_SECS, 0)

  // ----- tokens that move between two votes -----

  const MOVING: seq<Op> := [
    TakeCheckpoint(1), BalanceBecomes(1, 0), BalanceBecomes(2, 1_000), LedgerCloses(10, 0), Create(2),
    Vote(2, 1, true), BalanceBecomes(2, 0), BalanceBecomes(1, 1_000), Vote(1, 1, true)]

  lemma MovingOpens(states: seq<State>, reading: Reading)
    requires Run(states, MOVING, reading) && states[0].host == Host(0, 0, map[1 := 1_000])
    ensures
      var s, p := states[5], OPENED.(proposer := 2);
      && s.host == Host(10, 0, map[1 := 0, 2 := 1_000]) && s.book == states[0].book && s.cfg == states[0].cfg
      && s.reg == Registry(1, map[1 := p], map[1 := 10], map[1 := 2])
      && s.ballots == Ballots(map[(1, 2) := 1_000], map[1 := Checkpoint(1_000, 0), 2 := Checkpoint(1_000, 10)],
                              map[], {}, map[], map[])
      && s.events == [ProposalCreated(1, 2)]
  {
    hide Transact;
    assert Initial(states[0]);
    assert states[1] == Transact(states[0], TakeCheckpoint(1), reading);
    Checkpointed(states[0], 1, reading);
    assert states[2] == Transact(states[1], BalanceBecomes(1, 0), reading);
    Held(states[1], 1, 0, reading);
    assert states[3] == Transact(states[2], BalanceBecomes(2, 1_000), reading);
    Held(states[2], 2, 1_000, reading);
    assert states[4] == Transact(states[3], LedgerCloses(10, 0), reading);
    Closed(states[3], 10, reading);
    assert states[5] == Transact(states[4], Create(2), reading);
    Created(states[4], 2, reading);
  }

  lemma MovingReturns(states: seq<State>, reading: Reading)
    requires Run(states, MOVING, reading) && states[0].host == Host(0, 0, map[1 := 1_000])
    ensures
      var s, p := states[8], OPENED.(proposer := 2, votesFor := 1_000);
      && s.host == Host(10, 0, map[1 := 1_000, 2 := 0]) && s.book == states[0].book && s.cfg == states[0].cfg
      && s.reg == Registry(1, map[1 := p], map[1 := 10], map[1 := 2])
      && s.ballots.latest == map[1 := Checkpoint(1_000, 0), 2 := Checkpoint(1_000, 10)] && s.ballots.prior == map[]
      && s.ballots.snapshots.Keys == s.ballots.tempVoted == s.ballots.receipts.Keys == {(1, 2)}
      && s.events == [ProposalCreated(1, 2), VoteCast(1, 2, true, 1_000)]
  {
    hide Transact;
    MovingOpens(states, reading);
    assert Initial(states[0]);
    assert states[6] == Transact(states[5], Vote(2, 1, true), reading);
    LinearVote(states[5], 2, 1_000);
    Voted(states[5], 2, 1_000, reading);
    assert states[7] == Transact(states[6], BalanceBecomes(2, 0), reading);
    Held(states[6], 2, 0, reading);
    assert states[8] == Transact(states[7], BalanceBecomes(1, 1_000), reading);
    Held(states[7], 1, 1_000, reading);
  }

  lemma MovingEnds(states: seq<State>, reading: Reading)
    requires Run(states, MOVING, reading) && states[0].host == Host(0, 0, map[1 := 1_000])
    ensures
      var s, p := states[9], OPENED.(proposer := 2, votesFor := 2_000);
      && s.host == states[8].host && s.book == states[0].book && s.reg.proposals == map[1 := p]
      && s.events == states[8].events + [VoteCast(1, 1, true, 1_000)]
  {
    hide Transact;
    MovingReturns(states, reading);
    assert Initial(states[0]);
    assert states[9] == Transact(states[8], Vote(1, 1, true), reading);
    assert ProvenBalance(states[8], 1, 10) == Some(1_000);
    LinearVote(states[8], 1, 1_000);
    Voted(states[8], 1, 1_000, reading);
  }

  /** The weight of a log of one creation and two votes. */
  lemma TwoVotes(events: seq<Event>, c: Event, a: Event, b: Event)
    requires events == [c, a, b] && !c.VoteCast? && IsVote(a, 1) && IsVote(b, 1)
    ensures Cast(events, 1) == a.weight + b.weight
  {
    assert [] + [c] == [c] && [c] + [a] == [c, a] && [c, a] + [b] == events;
    VotersNext([], c, 1);
    VotersNext([c], a, 1);
    VotersNext([c, a], b, 1);
  }

  /** The same 1000 tokens vote in two accounts, one after the other; nobody has delegated. */
  lemma MovedTokensVoteTwice(states: seq<State>, reading: Reading)
    requires Run(states, MOVING, reading) && states[0].host == Host(0, 0, map[1 := 1_000])
    ensures At(states, 9, 1) && PropAt(states, 9, 1).votesFor == 2_000 && Cast(states[9].events, 1) == 2_000
    ensures states[9].book.next == map[] && Sum(states[9].host.tokens, states[9].host.tokens.Keys) == 1_000
  {
    hide Transact, Cast;
    MovingReturns(states, reading);
    MovingEnds(states, reading);
    assert Initial(states[0]);
    var events := states[9].events;
    TwoVotes(events, events[0], events[1], events[2]);
    var bal := states[9].host.tokens;
    assert bal.Keys == {1, 2};
    SumRemove(bal, {1, 2}, 1);
    SumRemove(bal, {2}, 2);
    assert {1, 2} - {1} == {2} && {2} - {2} == {};
  }

  lemma MovingCalls(states: seq<State>, reading: Reading)
    requires Run(states, MOVING, reading) && states[0].host == Host(0, 0, map[1 := 1_000])
    ensures CastsVote(states[5], MOVING[5], 1)
    ensures states[6].host == states[5].host && states[7].host.tokens == map[1 := 0, 2 := 0]
    ensures forall i :: 0 <= i < 9 && i != 5 && i != 8 ==> !CastsVote(states[i], MOVING[i], 1)
  {
    hide Transact;
    MovingOpens(states, reading);
    assert Initial(states[0]);
    LinearVote(states[5], 2, 1_000);
    VoteSucceeds(states[5], 2, 1_000);
    assert states[6] == Transact(states[5], Vote(2, 1, true), reading);
    Voted(states[5], 2, 1_000, reading);
    assert states[7] == Transact(states[6], BalanceBecomes(2, 0), reading);
    Held(states[6], 2, 0, reading);
  }

  lemma NoBackers(s: State, v: Address)
    requires s.book.next == map[]
    ensures Group(s, v) == {v}
  {
    assert Backers(s.book.next, v) == {};
  }

  /** There the guard breaks at the transfer after the first vote: it takes 1000 tokens out of an account spoken for. */
  lemma MovingBreaksTheGuard(states: seq<State>, reading: Reading)
    requires Run(states, MOVING, reading) && states[0].host == Host(0, 0, map[1 := 1_000])
    ensures
      var spent := Spent(states, MOVING, 6, 1);
      spent == {2} && Leak(states[6], states[7], spent) == 1_000
      && !Guarded(states[6], MOVING[6], states[7], spent, 1)
  {
    hide Transact, CastsVote;
    MovingCalls(states, reading);
    MovingOpens(states, reading);
    assert Initial(states[0]);
    NoBackers(states[5], 2);
    NothingSpent(states, MOVING, 5, 1);
    SumRemove(states[6].host.tokens, {2}, 2);
    SumRemove(states[7].host.tokens, {2}, 2);
    assert {2} - {2} == {};
  }

  // ----- a delegator who votes beside their delegate -----

  const BOTH: seq<Op> := [
    TakeCheckpoint(1), TakeCheckpoint(2), LedgerCloses(10, 0), DelegateTo(1, 2), Create(1),
    Vote(1, 1, true), Vote(2, 1, true)]

  lemma BothDelegated(states: seq<State>, reading: Reading)
    requires Run(states, BOTH, reading) && states[0].host == Host(0, 0, map[1 := 1_000])
    ensures
      var s := states[4];
      && s.host == Host(10, 0, map[1 := 1_000]) && s.cfg == states[0].cfg && s.reg == states[0].reg && s.events == []
      && s.ballots == Ballots(map[], map[1 := Checkpoint(1_000, 0), 2 := Checkpoint(0, 0)], map[], {}, map[], map[])
      && s.book == Book(map[1 := 2], map[2 := [1]], map[2 := 1_000], 10)
  {
    hide Transact;
    assert Initial(states[0]);
    assert states[1] == Transact(states[0], TakeCheckpoint(1), reading);
    Checkpointed(states[0], 1, reading);
    assert states[2] == Transact(states[1], TakeCheckpoint(2), reading);
    Checkpointed(states[1], 2, reading);
    assert states[3] == Transact(states[2], LedgerCloses(10, 0), reading);
    Closed(states[2], 10, reading);
    assert states[4] == Transact(states[3], DelegateTo(1, 2), reading);
    assert ProvenBalance(states[3], 1, 10) == Some(1_000);
    Delegated(states[3], reading);
  }

  lemma Delegated(s: State, reading: Reading)
    requires s.book == Book(map[], map[], map[], 10) && ProvenBalance(s, 1, s.host.seqNo) == Some(1_000)
    ensures Transact(s, DelegateTo(1, 2), reading) ==
              s.(book := Book(map[1 := 2], map[2 := [1]], map[2 := 1_000], 10))
  {
    hide Delegate, ProvenBalance;
    DelegationRuns.FirstEdge(s.book, 1_000);
  }

  /** Both vote: the delegator with their balance, the delegate with the same tokens again. */
  lemma DelegatorAndDelegateBothVote(states: seq<State>, reading: Reading)
    requires Run(states, BOTH, reading) && states[0].host == Host(0, 0, map[1 := 1_000])
    ensures At(states, 7, 1) && PropAt(states, 7, 1).votesFor == 2_000 && Cast(states[7].events, 1) == 2_000
    ensures Sum(states[7].host.tokens, states[7].host.tokens.Keys) == 1_000
  {
    hide Transact, Cast;
    BothVoted(states, reading);
    var events := states[7].events;
    TwoVotes(events, events[0], events[1], events[2]);
    OneHolder(1, 1_000, states[7].host.tokens);
  }

  lemma BothCalls(states: seq<State>, reading: Reading)
    requires Run(states, BOTH, reading) && states[0].host == Host(0, 0, map[1 := 1_000])
    ensures CastsVote(states[5], BOTH[5], 1) && CastsVote(states[6], BOTH[6], 1)
    ensures forall i :: 0 <= i < 5 ==> !CastsVote(states[i], BOTH[i], 1)
    ensures states[5].book == states[4].book
  {
    hide Transact;
    BothDelegated(states, reading);
    BothFirstVote(states, reading);
    assert Initial(states[0]);
    assert states[5] == Transact(states[4], Create(1), reading);
    Created(states[4], 1, reading);
    LinearVote(states[5], 1, 1_000);
    VoteSucceeds(states[5], 1, 1_000);
    assert ProvenBalance(states[6], 2, 10) == Some(0);
    LinearVote(states[6], 2, 0);
    VoteSucceeds(states[6], 2, 0);
  }

  lemma OneEdgeGroups(s: State)
    requires s.book.next == map[1 := 2] && ValidBook(s.book)
    ensures Group(s, 1) == {1} && Group(s, 2) == {1, 2}
  {
    DepthStep(s.book.next, 1);
    DepthStep(s.book.next, 2);
    assert Terminal(s.book.next, 1) == 2;
    assert Backers(s.book.next, 1) == {} && Backers(s.book.next, 2) == {1};
  }

  /** There the guard breaks at the delegate's vote: it spends the delegator's 1000 tokens a second time. */
  lemma BothBreaksTheGuard(states: seq<State>, reading: Reading)
    requires Run(states, BOTH, reading) && states[0].host == Host(0, 0, map[1 := 1_000])
    ensures
      var spent := Spent(states, BOTH, 6, 1);
      spent == {1} && Repeated(states[6], 2, spent) == 1_000
      && !Guarded(states[6], BOTH[6], states[7], spent, 1)
  {
    hide Transact, Initial, CastsVote, ValidBook, Group, Spent;
    BothSpent(states, reading);
    BothCalls(states, reading);
    BothFirstVote(states, reading);
    SumRemove(states[6].host.tokens, {1}, 1);
    assert {1} - {1} == {} && {1, 2} * {1} == {1};
  }

  lemma BothSpent(states: seq<State>, reading: Reading)
    requires Run(states, BOTH, reading) && states[0].host == Host(0, 0, map[1 := 1_000])
    ensures Spent(states, BOTH, 6, 1) == {1} && Group(states[6], 2) == {1, 2}
  {
    hide Transact, Initial, CastsVote, ValidBook, Group;
    BothCalls(states, reading);
    BothDelegated(states, reading);
    BothFirstVote(states, reading);
    CastStep(states, BOTH, reading, 5, 1);
    CastStep(states, BOTH, reading, 6, 1);
    OneEdgeGroups(states[5]);
    OneEdgeGroups(states[6]);
    NothingSpent(states, BOTH, 5, 1);
  }

  lemma BothFirstVote(states: seq<State>, reading: Reading)
    requires Run(states, BOTH, reading) && states[0].host == Host(0, 0, map[1 := 1_000])
    ensures
      var s, p := states[6], OPENED.(votesFor := 1_000);
      && s.host == Host(10, 0, map[1 := 1_000]) && s.book == states[4].book && s.cfg == states[0].cfg
      && s.reg == Registry(1, map[1 := p], map[1 := 10], map[1 := 1])
      && s.ballots.latest == states[4].ballots.latest && s.ballots.prior == map[]
      && s.ballots.snapshots.Keys == s.ballots.tempVoted == s.ballots.receipts.Keys == {(1, 1)}
      && s.events == [ProposalCreated(1, 1), VoteCast(1, 1, true, 1_000)]
  {
    hide Transact;
    BothDelegated(states, reading);
    assert Initial(states[0]);
    assert states[5] == Transact(states[4], Create(1), reading);
    Created(states[4], 1, reading);
    assert states[6] == Transact(states[5], Vote(1, 1, true), reading);
    LinearVote(states[5], 1, 1_000);
    Voted(states[5], 1, 1_000, reading);
  }

  lemma BothVoted(states: seq<State>, reading: Reading)
    requires Run(states, BOTH, reading) && states[0].host == Host(0, 0, map[1 := 1_000])
    ensures
      var s, p := states[7], OPENED.(votesFor := 2_000);
      && s.host == Host(10, 0, map[1 := 1_000]) && s.reg.proposals == map[1 := p]
      && s.events == [ProposalCreated(1, 1), VoteCast(1, 1, true, 1_000), VoteCast(1, 2, true, 1_000)]
  {
    hide Transact;
    BothDelegated(states, reading);
    BothFirstVote(states, reading);
    assert Initial(states[0]);
    assert states[7] == Transact(states[6], Vote(2, 1, true), reading);
    assert ProvenBalance(states[6], 2, 10) == Some(0);
    LinearVote(states[6], 2, 0);
    Voted(states[6], 2, 0, reading);
  }

  // ----- a balance proof lost to two refreshes -----

  const REFRESHING: seq<Op> := [
    TakeCheckpoint(2), LedgerCloses(10, 0), Create(1), LedgerCloses(11, 0), TakeCheckpoint(2),
    LedgerCloses(12, 0), TakeCheckpoint(2), Vote(2, 1, true)]

  lemma RefreshedOnce(states: seq<State>, reading: Reading)
    requires Run(states, REFRESHING, reading) && states[0].host == Host(0, 0, map[1 := 1_000, 2 := 5])
    ensures
      var s := states[4];
      && s.host == states[0].host.(seqNo := 11) && s.reg == Registry(1, map[1 := OPENED], map[1 := 10], map[1 := 1])
      && s.ballots == Ballots(map[(1, 1) := 1_000], map[1 := Checkpoint(1_000, 10), 2 := Checkpoint(5, 0)],
                              map[], {}, map[], map[])
  {
    hide Transact;
    assert Initial(states[0]);
    assert states[1] == Transact(states[0], TakeCheckpoint(2), reading);
    Checkpointed(states[0], 2, reading);
    assert states[2] == Transact(states[1], LedgerCloses(10, 0), reading);
    Closed(states[1], 10, reading);
    assert states[3] == Transact(states[2], Create(1), reading);
    Created(states[2], 1, reading);
    assert states[4] == Transact(states[3], LedgerCloses(11, 0), reading);
    Closed(states[3], 11, reading);
  }

  /**
   A voter whose checkpoint backs proposal 1 refreshes it in two later ledgers: the proof is gone
   and the vote is refused, although the balance never moved.
   */
  lemma TwoRefreshesLoseProof(states: seq<State>, reading: Reading)
    requires Run(states, REFRESHING, reading) && states[0].host == Host(0, 0, map[1 := 1_000, 2 := 5])
    ensures EligibleCheckpoint(states[4], 2, 10) == Some(Checkpoint(5, 0))
    ensures EligibleCheckpoint(states[7], 2, 10) == None
    ensures Step(states[7], REFRESHING[7]).1 == Failed(InsufficientHoldingPeriod)
  {
    RefreshedTwice(states, reading);
    RefreshedOnce(states, reading);
  }

  lemma RefreshedTwice(states: seq<State>, reading: Reading)
    requires Run(states, REFRESHING, reading) && states[0].host == Host(0, 0, map[1 := 1_000, 2 := 5])
    ensures
      var s := states[7];
      && s.host == states[0].host.(seqNo := 12) && s.reg == Registry(1, map[1 := OPENED], map[1 := 10], map[1 := 1])
      && s.ballots == Ballots(map[(1, 1) := 1_000], map[1 := Checkpoint(1_000, 10), 2 := Checkpoint(5, 12)],
                              map[2 := Checkpoint(5, 11)], {}, map[], map[])
  {
    hide Transact;
    RefreshedOnce(states, reading);
    assert states[5] == Transact(states[4], TakeCheckpoint(2), reading);
    Checkpointed(states[4], 2, reading);
    assert states[6] == Transact(states[5], LedgerCloses(12, 0), reading);
    Closed(states[5], 12, reading);
    assert states[7] == Transact(states[6], TakeCheckpoint(2), reading);
    Checkpointed(states[6], 2, reading);
  }
}
