/**
 The delegation laws in runs of the whole contract, where the proven balance of a delegator comes
 from stored checkpoints and tokens move with deposits, refunds and transfers.
 */
module GovernanceDelegation {
  import opened MachineInts
  import opened Outcomes
  import opened Tokens
  import opened ChainGraph
  import opened Delegation
  import opened DelegationTally
  import opened Governance
  import opened GovernanceInvariant
  import opened GovernanceRuns
  import DelegationRuns

  // ----- a run of the contract is a run of its delegation book -----

  ghost function LedgerOf(s: State): DelegationRuns.Ledger {
    DelegationRuns.Ledger(s.book, s.host.tokens)
  }

  /** What a step does to the book and the balances. */
  ghost function ActionOf(s: State, op: Op, reading: Reading): DelegationRuns.Action {
    match op
    case DelegateTo(x, y) =>
      var c := EligibleCheckpoint(s, x, s.host.seqNo);
      DelegationRuns.Delegates(x, y, if c.None? then None else Some(c.value.balance))
    case Withdraw(x) => DelegationRuns.Undelegates(x)
    case SetDepth(depth) => DelegationRuns.CapBecomes(depth)
    case _ => DelegationRuns.BalancesBecome(Transact(s, op, reading).host.tokens)
  }

  lemma StepIsAction(s: State, op: Op, reading: Reading)
    requires ValidBook(s.book)
    ensures LedgerOf(Transact(s, op, reading)) == DelegationRuns.After(LedgerOf(s), ActionOf(s, op, reading))
  {
    hide Delegate, Undelegate, EligibleCheckpoint, ValidBook;
    if op.DelegateTo? {
      var c := EligibleCheckpoint(s, op.x, s.host.seqNo);
      var proven: Option<int> := if c.None? then None else Some(Min(c.value.balance, BalanceOf(s.host.tokens, op.x)));
      DelegateKeepsValid(s.book, op.x, op.y, proven);
    } else if !op.Withdraw? && !op.SetDepth? {
      OthersKeepBook(s, op);
    }
  }

  lemma OthersKeepBook(s: State, op: Op)
    requires !op.DelegateTo? && !op.Withdraw? && !op.SetDepth?
    ensures Step(s, op).0.book == s.book
  {
    hide Delegate, Undelegate, ProvenBalance, VoteWeight, NoDuplicates, ExecuteProposal, VetoProposal;
    PayoutsKeepClock(s, op);
  }

  ghost function Ledgers(states: seq<State>): seq<DelegationRuns.Ledger> {
    seq(|states|, i requires 0 <= i < |states| => LedgerOf(states[i]))
  }

  ghost function Actions(states: seq<State>, ops: seq<Op>, reading: Reading): seq<DelegationRuns.Action>
    requires |states| == |ops| + 1
  {
    seq(|ops|, i requires 0 <= i < |ops| => ActionOf(states[i], ops[i], reading))
  }

  lemma ContractRunsTheBook(states: seq<State>, ops: seq<Op>, reading: Reading)
    requires Run(states, ops, reading)
    ensures DelegationRuns.IsRun(Ledgers(states), Actions(states, ops, reading))
    ensures states[0].book == Book(map[], map[], map[], DEFAULT_MAX_DELEGATION_DEPTH)
  {
    hide Transact, Inv, ActionOf, DelegationRuns.After, ValidBook;
    forall i | 0 <= i < |states|
      ensures ValidBook(states[i].book)
    {
      RunKeepsInv(states, ops, reading, i);
      InvBook(states[i]);
    }
    forall i | 0 <= i < |ops|
      ensures Ledgers(states)[i + 1] == DelegationRuns.After(Ledgers(states)[i], Actions(states, ops, reading)[i])
    {
      StepIsAction(states[i], ops[i], reading);
    }
  }

  lemma EmptyBook(b: Book, bal: Balances)
    requires b == Book(map[], map[], map[], DEFAULT_MAX_DELEGATION_DEPTH) && ValidBook(b)
    ensures DelegationRuns.DepthBounded(b) && TallyExact(b, bal)
  {
    forall a
      ensures Depth(b.next, a) == 0
    {
      DepthStep(b.next, a);
    }
    forall t
      ensures Owed(b.next, bal, t) == 0
    {
      assert Backers(b.next, t) == {};
    }
  }

  // ----- the laws, lifted -----

  lemma LedgerRun(states: seq<State>, ops: seq<Op>, reading: Reading)
    requires Run(states, ops, reading)
    ensures DelegationRuns.IsRun(Ledgers(states), Actions(states, ops, reading))
    ensures DelegationRuns.DepthBounded(states[0].book) && DelegationRuns.Exact(Ledgers(states)[0])
  {
    hide Initial, Transact, ValidBook, DelegationRuns.IsRun, DelegationRuns.DepthBounded, TallyExact;
    ContractRunsTheBook(states, ops, reading);
    DelegationRuns.RunKeepsValid(Ledgers(states), Actions(states, ops, reading), 0);
    EmptyBook(states[0].book, states[0].host.tokens);
  }

  /** In every run, no delegation chain is longer than the largest cap ever in force so far. */
  lemma ChainsWithinHighestCap(states: seq<State>, ops: seq<Op>, reading: Reading, j: nat)
    requires Run(states, ops, reading) && j < |states|
    requires DelegationRuns.HighestCap(Ledgers(states), j) < U32_MAX || |states[j].book.next| <= U32_MAX
    ensures ChainsWithin(states[j].book.next, DelegationRuns.HighestCap(Ledgers(states), j))
  {
    hide Initial, Transact, DelegationRuns.IsRun, DelegationRuns.DepthBounded;
    LedgerRun(states, ops, reading);
    DelegationRuns.ChainsWithinHighestCap(Ledgers(states), Actions(states, ops, reading), j);
  }

  /** What a step must keep for the depth bound: see DelegationRuns.CapGuard. */
  ghost predicate KeepsDepth(s: State, op: Op, reading: Reading) {
    DelegationRuns.CapGuard(LedgerOf(s), ActionOf(s, op, reading))
  }

  /**
   In a run of the contract every chain is within the cap of the moment, and resolving any address
   returns a true sink, in every state, if and only if every step keeps its guard.
   */
  lemma DepthBoundedThroughoutIff(states: seq<State>, ops: seq<Op>, reading: Reading)
    requires Run(states, ops, reading)
    ensures (forall i :: 0 <= i < |states| ==> ChainsWithin(states[i].book.next, states[i].book.cap)) <==>
            (forall i :: 0 <= i < |ops| ==> KeepsDepth(states[i], ops[i], reading))
    ensures (forall i :: 0 <= i < |states| ==> DelegationRuns.Resolves(states[i].book)) <==>
            (forall i :: 0 <= i < |ops| ==> KeepsDepth(states[i], ops[i], reading))
  {
    hide Initial, Transact, DelegationRuns.IsRun, DelegationRuns.Resolves, ChainsWithin;
    hide ActionOf, DelegationRuns.CapGuard;
    var ledgers, actions := Ledgers(states), Actions(states, ops, reading);
    LedgerRun(states, ops, reading);
    DelegationRuns.DepthBoundedThroughoutIff(ledgers, actions);
    DelegationRuns.ResolvesThroughoutIff(ledgers, actions);
    assert forall i :: 0 <= i < |states| ==> ledgers[i].book == states[i].book;
    assert forall i :: 0 <= i < |ops| ==>
      KeepsDepth(states[i], ops[i], reading) == DelegationRuns.CapGuard(ledgers[i], actions[i]);
  }

  /** If the cap is never lowered in a run of the contract, resolving any address returns its true sink. */
  lemma NeverLoweredResolves(states: seq<State>, ops: seq<Op>, reading: Reading, j: nat)
    requires Run(states, ops, reading) && j < |states|
    requires forall i :: 0 <= i < |ops| && ops[i].SetDepth? ==> states[i].book.cap <= ops[i].depth
    requires forall i :: 0 <= i < |states| ==> DelegationRuns.CapMatters(states[i].book)
    ensures ChainsWithin(states[j].book.next, states[j].book.cap) && DelegationRuns.Resolves(states[j].book)
    ensures forall a :: Walk(states[j].book.next, a, states[j].book.cap) == Terminal(states[j].book.next, a)
  {
    hide Initial, Transact, DelegationRuns.IsRun, DelegationRuns.Resolves, ChainsWithin;
    hide DelegationRuns.CapMatters, EligibleCheckpoint;
    var ledgers, actions := Ledgers(states), Actions(states, ops, reading);
    LedgerRun(states, ops, reading);
    assert forall i :: 0 <= i < |ops| ==> (actions[i].CapBecomes? <==> ops[i].SetDepth?);
    assert forall i :: 0 <= i < |states| ==> ledgers[i].book == states[i].book;
    DelegationRuns.NeverLoweredResolves(ledgers, actions, j);
  }

  /** Every tally is exact in every state of a run if and only if every step meets its guard. */
  lemma TallyExactThroughoutIff(states: seq<State>, ops: seq<Op>, reading: Reading)
    requires Run(states, ops, reading)
    requires forall i :: 0 <= i < |states| ==> SupplyFits(states[i].host.tokens)
    ensures (forall i :: 0 <= i < |states| ==> TallyExact(states[i].book, states[i].host.tokens)) <==>
            (forall i :: 0 <= i < |ops| ==>
               DelegationRuns.TallyGuard(LedgerOf(states[i]), ActionOf(states[i], ops[i], reading)))
  {
    hide DelegationRuns.IsRun, DelegationRuns.TallyGuard, DelegationRuns.DepthBounded, TallyExact, SupplyFits;
    hide ActionOf, Transact, Initial;
    var ledgers, actions := Ledgers(states), Actions(states, ops, reading);
    LedgerRun(states, ops, reading);
    DelegationRuns.TallyExactThroughoutIff(ledgers, actions);
    assert forall i :: 0 <= i < |states| ==>
      DelegationRuns.Exact(ledgers[i]) == TallyExact(states[i].book, states[i].host.tokens);
    assert forall i :: 0 <= i < |ops| ==>
      DelegationRuns.TallyGuard(ledgers[i], actions[i])
      == DelegationRuns.TallyGuard(LedgerOf(states[i]), ActionOf(states[i], ops[i], reading));
  }

  /**
   The cap is never lowered, whoever changes their delegation has no delegators of their own and,
   to delegate, an eligible checkpoint not below the live balance; and no delegator's balance moves.
   */
  ghost predicate Careful(s: State, op: Op, s': State) {
    && (op.DelegateTo? && Step(s, op).1 == Done ==>
          var c := EligibleCheckpoint(s, op.x, s.host.seqNo);
          Preds(s.book.delegators, op.x) == [] && c.Some? && c.value.balance >= BalanceOf(s.host.tokens, op.x))
    && (op.Withdraw? ==> Preds(s.book.delegators, op.x) == [])
    && (op.SetDepth? ==> s.book.cap <= op.depth)
    && forall a :: a in s.book.next ==> BalanceOf(s'.host.tokens, a) == BalanceOf(s.host.tokens, a)
  }

  lemma CarefulAction(s: State, op: Op, reading: Reading)
    requires Careful(s, op, Transact(s, op, reading))
    ensures DelegationRuns.Careful(LedgerOf(s), ActionOf(s, op, reading))
  {
    hide Delegate, EligibleCheckpoint, Undelegate;
    if op.DelegateTo? {
      var c := EligibleCheckpoint(s, op.x, s.host.seqNo);
      var proven: Option<int> := if c.None? then None else Some(Min(c.value.balance, BalanceOf(s.host.tokens, op.x)));
      assert Step(s, op).1 == Delegate(s.book, op.x, op.y, proven).1;
    }
  }

  /**
   In every careful run of the contract, every tally equals the balances of the delegators whose
   chain ends at the address.
   */
  lemma CarefulRunsStayExact(states: seq<State>, ops: seq<Op>, reading: Reading, j: nat)
    requires Run(states, ops, reading) && j < |states|
    requires forall i :: 0 <= i < |ops| ==> Careful(states[i], ops[i], states[i + 1])
    requires forall i :: 0 <= i < |ops| ==> SupplyFits(states[i].host.tokens)
    requires forall i :: 0 <= i < |states| ==> DelegationRuns.CapMatters(states[i].book)
    ensures TallyExact(states[j].book, states[j].host.tokens)
  {
    hide DelegationRuns.IsRun, DelegationRuns.DepthBounded, TallyExact, SupplyFits;
    hide ActionOf, Transact, Initial, Careful;
    hide DelegationRuns.Careful, DelegationRuns.CapMatters;
    var ledgers, actions := Ledgers(states), Actions(states, ops, reading);
    LedgerRun(states, ops, reading);
    forall i | 0 <= i < |ops|
      ensures DelegationRuns.Careful(ledgers[i], actions[i]) && SupplyFits(ledgers[i].bal)
    {
      assert Careful(states[i], ops[i], states[i + 1]) && states[i + 1] == Transact(states[i], ops[i], reading);
      CarefulAction(states[i], ops[i], reading);
    }
    assert forall i :: 0 <= i < |states| ==> ledgers[i].book == states[i].book;
    DelegationRuns.CarefulRunsStayExact(ledgers, actions, j);
  }
}
