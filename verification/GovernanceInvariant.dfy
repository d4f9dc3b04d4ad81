/**
 The invariant of the governance contract. Its centre is an agreement between two independent
 accounts of every proposal: what storage says, and what a reader of the published events
 reconstructs from them.
 */
module GovernanceInvariant {
  import opened MachineInts
  import opened Tokens
  import opened Delegation
  import opened Governance

  // ----- replaying the event log -----

  /** What the events about one proposal add up to. */
  datatype History = History(
    forSum: int, againstSum: int, votes: nat, weights: map<Address, int>,
    escrowed: nat, refunds: nat, refunded: nat, forfeits: nat, forfeited: nat,
    executions: nat, vetoes: nat)

  const NOTHING := History(0, 0, 0, map[], 0, 0, 0, 0, 0, 0, 0)

  function Extend(h: History, e: Event): History {
    match e
    case ProposalCreated(_, _) => h
    case VoteCast(_, voter, support, weight) =>
      h.(forSum := h.forSum + if support then weight else 0,
         againstSum := h.againstSum + if support then 0 else weight,
         votes := h.votes + 1,
         weights := h.weights[voter := weight])
    case DepositEscrowed(_, _, amount) => h.(escrowed := h.escrowed + amount)
    case DepositRefunded(_, _, amount) => h.(refunds := h.refunds + 1, refunded := h.refunded + amount)
    case DepositForfeited(_, _, amount, _) => h.(forfeits := h.forfeits + 1, forfeited := h.forfeited + amount)
    case ExecutionFailed(_) => h
    case ProposalExecuted(_) => h.(executions := h.executions + 1)
    case ProposalVetoed(_, _) => h.(vetoes := h.vetoes + 1)
  }

  ghost function Replay(events: seq<Event>, id: nat): History {
    if events == [] then NOTHING
    else
      var h, e := Replay(events[..|events| - 1], id), events[|events| - 1];
      if e.id == id then Extend(h, e) else h
  }

  lemma ReplayNext(events: seq<Event>, e: Event, id: nat)
    ensures Replay(events + [e], id) == if e.id == id then Extend(Replay(events, id), e) else Replay(events, id)
  {
    assert (events + [e])[..|events|] == events;
  }

  // ----- the parts of the invariant -----

  /** The tallies and receipts are those of the votes published. */
  ghost predicate VotesAgree(p: Proposal, h: History, receipts: map<Key, int>) {
    && h.forSum >= 0 && h.againstSum >= 0
    && p.votesFor == Min(I128_MAX, h.forSum) && p.votesAgainst == Min(I128_MAX, h.againstSum)
    && h.votes == |h.weights|
    && (forall v :: v in h.weights <==> (p.id, v) in receipts)
    && (forall v :: v in h.weights ==> h.weights[v] == receipts[(p.id, v)])
  }

  /** An Active proposal holds its whole escrow; any other has settled it in one payment. */
  ghost predicate EscrowAgrees(status: Status, h: History, deposit: nat, settled: bool) {
    if status == Active then
      !settled && deposit == h.escrowed && h.refunds == 0 && h.refunded == 0 && h.forfeits == 0 && h.forfeited == 0
    else
      && settled && deposit == 0
      && h.refunded + h.forfeited == h.escrowed
      && h.refunds + h.forfeits == (if h.escrowed > 0 then 1 else 0)
      && (h.refunds == 0 ==> h.refunded == 0) && (h.forfeits == 0 ==> h.forfeited == 0)
      && (status == Passed || status == Executed ==> h.forfeits == 0)
      && (status == Rejected ==> h.refunds == 0)
  }

  ghost predicate OutcomeAgrees(status: Status, h: History) {
    && h.executions == (if status == Executed then 1 else 0)
    && h.vetoes == (if status == Vetoed then 1 else 0)
  }

  ghost predicate Agrees(p: Proposal, h: History, receipts: map<Key, int>, deposit: nat, settled: bool) {
    && VotesAgree(p, h, receipts)
    && EscrowAgrees(p.status, h, deposit, settled)
    && OutcomeAgrees(p.status, h)
  }

  ghost predicate RecordsAgree(proposals: map<nat, Proposal>, receipts: map<Key, int>, escrow: Escrow,
                               events: seq<Event>) {
    && (forall id :: id in proposals ==>
          Agrees(proposals[id], Replay(events, id), receipts, BalanceOf(escrow.deposits, id), id in escrow.settled))
    && (forall id :: id !in proposals ==>
          Replay(events, id) == NOTHING && id !in escrow.deposits && id !in escrow.settled)
    && (forall k :: k in receipts ==> k.0 in proposals)
    && (forall id :: id in escrow.deposits ==> escrow.deposits[id] > 0)
  }

  ghost predicate IdsOk(reg: Registry, seqNo: nat) {
    && (forall id :: id in reg.proposals <==> 1 <= id <= reg.count)
    && (forall id :: id in reg.proposals ==> reg.proposals[id].id == id)
    && reg.createdLedger.Keys == reg.proposals.Keys && reg.proposers.Keys == reg.proposals.Keys
    && (forall id :: id in reg.proposals ==> reg.createdLedger[id] <= seqNo)
    && (forall id :: id in reg.proposals ==> reg.proposers[id] == reg.proposals[id].proposer)
  }

  /** The contract's own tokens cover every open deposit. */
  ghost predicate Solvent(tokens: Balances, deposits: map<nat, nat>) {
    Sum(deposits, deposits.Keys) <= BalanceOf(tokens, SELF)
  }

  /** Temporary receipts may be missing, but what is there repeats the durable ones. */
  ghost predicate MirrorsOk(b: Ballots) {
    && b.tempVoted <= b.receipts.Keys
    && (forall k :: k in b.tempWeight ==> k in b.receipts && b.tempWeight[k] == b.receipts[k])
  }

  ghost predicate ExecutionsOk(proposals: map<nat, Proposal>, x: Executions) {
    && x.executed == (set id | id in proposals && proposals[id].status == Executed)
    && x.nonce == |x.executed|
  }

  ghost predicate VetoOk(proposals: map<nat, Proposal>, v: Multisig) {
    && (v.signers.Some? ==> NoDuplicates(v.signers.value) && 1 <= v.threshold <= |v.signers.value|)
    && (forall id :: id in proposals ==>
          (proposals[id].status == Vetoed <==> id in v.phase && v.phase[id] == VetoExecuted))
    && (forall id :: id in v.phase ==> id in proposals)
  }

  /** The two checkpoint slots are strictly ordered by ledger. */
  ghost predicate CheckpointsOk(b: Ballots, seqNo: nat) {
    && (forall v :: v in b.latest ==> b.latest[v].ledger <= seqNo)
    && (forall v :: v in b.prior ==> v in b.latest && b.prior[v].ledger < b.latest[v].ledger)
  }

  ghost predicate SettingsOk(cfg: Settings, host: Host, count: nat) {
    && 1 <= cfg.quorumBps <= 10_000 && cfg.minDeposit >= 0 && cfg.delay <= MAX_EXECUTION_DELAY
    && host.seqNo <= U32_MAX && host.time <= U64_MAX && count <= U64_MAX
  }

  ghost predicate Inv(s: State) {
    && IdsOk(s.reg, s.host.seqNo)
    && RecordsAgree(s.reg.proposals, s.ballots.receipts, s.escrow, s.events)
    && Solvent(s.host.tokens, s.escrow.deposits)
    && MirrorsOk(s.ballots)
    && ExecutionsOk(s.reg.proposals, s.exec)
    && VetoOk(s.reg.proposals, s.veto)
    && CheckpointsOk(s.ballots, s.host.seqNo)
    && SettingsOk(s.cfg, s.host, s.reg.count)
    && ValidBook(s.book)
  }

  lemma InitialInv(s: State)
    requires Initial(s)
    ensures Inv(s)
  {
    forall a
      ensures ChainGraph.Ends(s.book.next, a)
    {
      assert ChainGraph.EndsAt(s.book.next, a, a, 0);
    }
    ChainGraph.AcyclicIffEveryChainEnds(s.book.next);
  }

  // ----- one part of the invariant at a time -----

  lemma InvSolvent(s: State)
    requires Inv(s)
    ensures Solvent(s.host.tokens, s.escrow.deposits)
  {
    hide IdsOk, RecordsAgree, Solvent, MirrorsOk, ExecutionsOk, VetoOk, CheckpointsOk, ValidBook;
  }

  lemma InvMirrors(s: State)
    requires Inv(s)
    ensures MirrorsOk(s.ballots)
  {
    hide IdsOk, RecordsAgree, Solvent, MirrorsOk, ExecutionsOk, VetoOk, CheckpointsOk, ValidBook;
  }

  lemma InvVeto(s: State)
    requires Inv(s)
    ensures VetoOk(s.reg.proposals, s.veto)
  {
    hide IdsOk, RecordsAgree, Solvent, MirrorsOk, ExecutionsOk, VetoOk, CheckpointsOk, ValidBook;
  }

  lemma InvCheckpoints(s: State)
    requires Inv(s)
    ensures CheckpointsOk(s.ballots, s.host.seqNo)
  {
    hide IdsOk, RecordsAgree, Solvent, MirrorsOk, ExecutionsOk, VetoOk, CheckpointsOk, ValidBook;
  }

  lemma InvBook(s: State)
    requires Inv(s)
    ensures ValidBook(s.book)
  {
    hide IdsOk, RecordsAgree, Solvent, MirrorsOk, ExecutionsOk, VetoOk, CheckpointsOk, ValidBook;
  }
}
