/**
 Runs of the delegation operations, interleaved with cap changes and arbitrary movements of
 tokens: exactly which runs keep the depth bound and the tallies.
 */
module DelegationRuns {
  import opened MachineInts
  import opened Outcomes
  import opened ChainGraph
  import opened Delegation
  import opened DelegationTally
  import opened Tokens

  datatype Ledger = Ledger(book: Book, bal: Balances)

  datatype Action =
    | Delegates(x: Address, y: Address, checkpoint: Option<nat>)
    | Undelegates(x: Address)
    | CapBecomes(depth: nat)
    | BalancesBecome(bal: Balances)

  /** The weight a checkpoint proves: it never counts for more than the live balance. */
  function Proven(bal: Balances, x: Address, checkpoint: Option<nat>): Option<int> {
    if checkpoint.None? then None else Some(Min(checkpoint.value, BalanceOf(bal, x)))
  }

  ghost function After(s: Ledger, op: Action): Ledger {
    match op
    case Delegates(x, y, checkpoint) => s.(book := Delegate(s.book, x, y, Proven(s.bal, x, checkpoint)).0)
    case Undelegates(x) => s.(book := Undelegate(s.book, x, BalanceOf(s.bal, x)))
    case CapBecomes(depth) => if depth <= U32_MAX then s.(book := s.book.(cap := depth)) else s
    case BalancesBecome(bal) => s.(bal := bal)
  }

  ghost predicate IsRun(states: seq<Ledger>, ops: seq<Action>) {
    && |states| == |ops| + 1
    && ValidBook(states[0].book)
    && forall i :: 0 <= i < |ops| ==> states[i + 1] == After(states[i], ops[i])
  }

  lemma StepKeepsValid(s: Ledger, op: Action)
    requires ValidBook(s.book)
    ensures ValidBook(After(s, op).book)
  {
    match op
    case Delegates(x, y, checkpoint) => DelegateKeepsValid(s.book, x, y, Proven(s.bal, x, checkpoint));
    case Undelegates(x) => UndelegateKeepsValid(s.book, x, BalanceOf(s.bal, x));
    case CapBecomes(_) =>
    case BalancesBecome(_) =>
  }

  /** Every reachable graph is acyclic and exactly mirrored by the reverse index. */
  lemma {:induction false} RunKeepsValid(states: seq<Ledger>, ops: seq<Action>, j: nat)
    requires IsRun(states, ops) && j < |states|
    ensures ValidBook(states[j].book)
  {
    if j > 0 {
      RunKeepsValid(states, ops, j - 1);
      StepKeepsValid(states[j - 1], ops[j - 1]);
    }
  }

  // ----- the depth bound -----

  ghost predicate DepthBounded(b: Book) {
    ChainsWithin(b.next, b.cap)
  }

  /**
   A cap change must not cut below a chain that exists; and at u32::MAX, where the check of the sum
   never fails, a new edge must not complete a longer chain.
   */
  ghost predicate CapGuard(s: Ledger, op: Action) {
    match op
    case Delegates(x, y, checkpoint) =>
      s.book.cap == U32_MAX && Delegate(s.book, x, y, Proven(s.bal, x, checkpoint)).1 == Done ==>
        EdgeFits(s.book.next, x, y, U32_MAX)
    case CapBecomes(depth) => depth <= U32_MAX ==> ChainsWithin(s.book.next, depth)
    case _ => true
  }

  lemma StepKeepsDepthIff(s: Ledger, op: Action)
    requires ValidBook(s.book) && DepthBounded(s.book)
    ensures DepthBounded(After(s, op).book) <==> CapGuard(s, op)
  {
    match op
    case Delegates(x, y, checkpoint) => DelegateKeepsDepthIff(s.book, x, y, Proven(s.bal, x, checkpoint));
    case Undelegates(x) => UndelegateDepth(s.book, x, BalanceOf(s.bal, x), s.book.cap);
    case CapBecomes(_) =>
    case BalancesBecome(_) =>
  }

  lemma DelegateKeepsDepthIff(b: Book, x: Address, y: Address, proven: Option<int>)
    requires ValidBook(b) && DepthBounded(b)
    ensures
      var r := Delegate(b, x, y, proven);
      && r.0.cap == b.cap
      && (DepthBounded(r.0) <==> (b.cap == U32_MAX && r.1 == Done ==> EdgeFits(b.next, x, y, U32_MAX)))
  {
    hide EdgeFits, ChainsWithin;
    var r := Delegate(b, x, y, proven);
    if r.1 == Done && b.cap == U32_MAX {
      DelegatedEdge(b, x, y, proven);
      if DepthBounded(r.0) {
        BoundedEdgeFits(b, x, y, U32_MAX);
      } else if EdgeFits(b.next, x, y, U32_MAX) {
        DelegateDepth(b, x, y, proven, U32_MAX);
      }
    } else {
      DelegateDepth(b, x, y, proven, b.cap);
    }
  }

  lemma DelegatedEdge(b: Book, x: Address, y: Address, proven: Option<int>)
    requires ValidBook(b) && Delegate(b, x, y, proven).1 == Done
    ensures !Through(b.next, y, x) && Delegate(b, x, y, proven).0.next == b.next[x := y]
  {
    NoCycleThrough(b, x, y);
    RelinkKeepsValid(b, x, y, proven.value);
  }

  lemma BoundedEdgeFits(b: Book, x: Address, y: Address, bound: nat)
    requires ValidBook(b) && !Through(b.next, y, x) && ChainsWithin(b.next[x := y], bound)
    ensures EdgeFits(b.next, x, y, bound)
  {
    LinkKeepsAcyclic(b.next, x, y);
    forall a, m: nat | Reaches(b.next, a, x, m)
      ensures m + 1 + Depth(b.next, y) <= bound
    {
      assert Depth(b.next[x := y], a) <= bound;
    }
  }

  /** If each step keeps a property exactly under its guard, all steps do exactly under all guards. */
  lemma ThroughoutIff(holds: seq<bool>, guard: seq<bool>)
    requires |holds| == |guard| + 1 && holds[0]
    requires forall i :: 0 <= i < |guard| ==> holds[i] ==> (holds[i + 1] <==> guard[i])
    ensures (forall i :: 0 <= i < |holds| ==> holds[i]) <==> (forall i :: 0 <= i < |guard| ==> guard[i])
  {
    if forall i :: 0 <= i < |holds| ==> holds[i] {
      forall i | 0 <= i < |guard|
        ensures guard[i]
      {
        assert holds[i + 1];
      }
    }
    if forall i :: 0 <= i < |guard| ==> guard[i] {
      for j := 0 to |guard|
        invariant forall i :: 0 <= i <= j ==> holds[i]
      {
        assert guard[j];
      }
    }
  }

  lemma DepthStepAt(states: seq<Ledger>, ops: seq<Action>, i: nat)
    requires IsRun(states, ops) && i < |ops| && DepthBounded(states[i].book)
    ensures DepthBounded(states[i + 1].book) <==> CapGuard(states[i], ops[i])
  {
    RunKeepsValid(states, ops, i);
    StepKeepsDepthIff(states[i], ops[i]);
  }

  /** No chain is ever longer than the cap, if and only if every step keeps its guard. */
  lemma DepthBoundedThroughoutIff(states: seq<Ledger>, ops: seq<Action>)
    requires IsRun(states, ops) && DepthBounded(states[0].book)
    ensures (forall i :: 0 <= i < |states| ==> DepthBounded(states[i].book)) <==>
            (forall i :: 0 <= i < |ops| ==> CapGuard(states[i], ops[i]))
  {
    var holds := seq(|states|, i requires 0 <= i < |states| => DepthBounded(states[i].book));
    var guard := seq(|ops|, i requires 0 <= i < |ops| => CapGuard(states[i], ops[i]));
    forall i | 0 <= i < |ops| && holds[i]
      ensures holds[i + 1] <==> guard[i]
    {
      DepthStepAt(states, ops, i);
    }
    ThroughoutIff(holds, guard);
    assert forall i :: 0 <= i < |states| ==> holds[i] == DepthBounded(states[i].book);
    assert forall i :: 0 <= i < |ops| ==> guard[i] == CapGuard(states[i], ops[i]);
  }

  ghost function HighestCap(states: seq<Ledger>, j: nat): nat
    requires j < |states|
  {
    if j == 0 then states[0].book.cap else Max(HighestCap(states, j - 1), states[j].book.cap)
  }

  /** At a cap of u32::MAX, fewer than 2^32 delegators. */
  ghost predicate CapMatters(b: Book) {
    b.cap < U32_MAX || |b.next| <= U32_MAX
  }

  lemma ChainsWithinGraph(b: Book, bound: nat)
    requires ValidBook(b) && |b.next| <= bound
    ensures ChainsWithin(b.next, bound)
  {
    forall a
      ensures Depth(b.next, a) <= bound
    {
      ChainEnds(b.next, a);
      ChainFitsGraph(b.next, a, Terminal(b.next, a), Depth(b.next, a));
    }
  }

  /** Whatever happens to the cap, no chain outgrows the largest cap that was ever in force. */
  lemma {:induction false} ChainsWithinHighestCap(states: seq<Ledger>, ops: seq<Action>, j: nat)
    requires IsRun(states, ops) && DepthBounded(states[0].book) && j < |states|
    requires HighestCap(states, j) < U32_MAX || |states[j].book.next| <= U32_MAX
    ensures ChainsWithin(states[j].book.next, HighestCap(states, j))
  {
    hide ChainsWithin, Delegate, Undelegate, ValidBook;
    RunKeepsValid(states, ops, j);
    if HighestCap(states, j) >= U32_MAX {
      ChainsWithinGraph(states[j].book, HighestCap(states, j));
    } else if j > 0 {
      var s, op, high := states[j - 1], ops[j - 1], HighestCap(states, j - 1);
      RunKeepsValid(states, ops, j - 1);
      ChainsWithinHighestCap(states, ops, j - 1);
      CapBelowHighest(states, j - 1);
      StepWithin(s, op, high);
      Wider(states[j].book, high, HighestCap(states, j));
    }
  }

  lemma CapBelowHighest(states: seq<Ledger>, j: nat)
    requires j < |states|
    ensures states[j].book.cap <= HighestCap(states, j)
  {
  }

  lemma Wider(b: Book, bound: nat, bound': nat)
    requires ChainsWithin(b.next, bound) && bound <= bound'
    ensures ChainsWithin(b.next, bound')
  {
  }

  lemma StepWithin(s: Ledger, op: Action, high: nat)
    requires ValidBook(s.book) && ChainsWithin(s.book.next, high) && s.book.cap <= high < U32_MAX
    ensures ChainsWithin(After(s, op).book.next, high)
  {
    hide Delegate, Undelegate, ValidBook, ChainsWithin;
    match op
    case Delegates(x, y, checkpoint) => DelegateDepth(s.book, x, y, Proven(s.bal, x, checkpoint), high);
    case Undelegates(x) => UndelegateDepth(s.book, x, BalanceOf(s.bal, x), high);
    case CapBecomes(_) =>
    case BalancesBecome(_) =>
  }

  // ----- resolving an address -----

  /** The bounded walk from anywhere ends at an address that does not delegate. */
  ghost predicate Resolves(b: Book) {
    forall a :: Walk(b.next, a, b.cap) !in b.next
  }

  /** It does exactly when every chain is within the cap, and then it returns the true end. */
  lemma ResolvesIff(b: Book)
    requires ValidBook(b)
    ensures Resolves(b) <==> DepthBounded(b)
    ensures Resolves(b) ==> forall a :: Walk(b.next, a, b.cap) == Terminal(b.next, a)
  {
    hide Walk, Depth, Terminal, Mirrored;
    forall a {
      BoundedWalk(b.next, a, b.cap);
    }
    if Resolves(b) {
      forall a
        ensures Depth(b.next, a) <= b.cap
      {
        assert Walk(b.next, a, b.cap) !in b.next;
      }
    }
  }

  /** In a run, resolving always returns a true sink if and only if every step keeps the depth guard. */
  lemma ResolvesThroughoutIff(states: seq<Ledger>, ops: seq<Action>)
    requires IsRun(states, ops) && DepthBounded(states[0].book)
    ensures (forall i :: 0 <= i < |states| ==> Resolves(states[i].book)) <==>
            (forall i :: 0 <= i < |ops| ==> CapGuard(states[i], ops[i]))
  {
    hide Resolves, DepthBounded, CapGuard, After, ValidBook;
    DepthBoundedThroughoutIff(states, ops);
    forall i | 0 <= i < |states|
      ensures Resolves(states[i].book) <==> DepthBounded(states[i].book)
    {
      RunKeepsValid(states, ops, i);
      ResolvesIff(states[i].book);
    }
  }

  /** If the cap is never lowered, every chain stays within it and resolving always returns a true sink. */
  lemma {:induction false} NeverLoweredResolves(states: seq<Ledger>, ops: seq<Action>, j: nat)
    requires IsRun(states, ops) && DepthBounded(states[0].book) && j < |states|
    requires forall i :: 0 <= i < |ops| && ops[i].CapBecomes? ==> states[i].book.cap <= ops[i].depth
    requires forall i :: 0 <= i < |states| ==> CapMatters(states[i].book)
    ensures DepthBounded(states[j].book) && Resolves(states[j].book)
    ensures forall a :: Walk(states[j].book.next, a, states[j].book.cap) == Terminal(states[j].book.next, a)
  {
    hide Resolves, ChainsWithin, Delegate, Undelegate, ValidBook;
    RunKeepsValid(states, ops, j);
    if j > 0 {
      NeverLoweredResolves(states, ops, j - 1);
      RunKeepsValid(states, ops, j - 1);
      NeverLoweredStep(states[j - 1], ops[j - 1]);
    }
    ResolvesIff(states[j].book);
  }

  lemma NeverLoweredStep(s: Ledger, op: Action)
    requires ValidBook(s.book) && DepthBounded(s.book) && CapMatters(After(s, op).book)
    requires op.CapBecomes? ==> s.book.cap <= op.depth
    ensures DepthBounded(After(s, op).book)
  {
    hide ChainsWithin, Delegate, Undelegate, ValidBook;
    StepKeepsValid(s, op);
    CapStays(s, op);
    if After(s, op).book.cap >= U32_MAX {
      ChainsWithinGraph(After(s, op).book, After(s, op).book.cap);
    } else if op.CapBecomes? {
      Wider(s.book, s.book.cap, op.depth);
    } else {
      StepKeepsDepthIff(s, op);
    }
  }

  lemma CapStays(s: Ledger, op: Action)
    ensures After(s, op).book.cap == if op.CapBecomes? && op.depth <= U32_MAX then op.depth else s.book.cap
  {
    hide Reaches, Depth, FitsCap;
  }

  // ----- the tallies -----

  ghost predicate TallyGuard(s: Ledger, op: Action) {
    match op
    case Delegates(x, y, checkpoint) =>
      var proven := Proven(s.bal, x, checkpoint);
      Delegate(s.book, x, y, proven).1 == Done ==> DelegateGuard(s.book, s.bal, x, y, proven.value)
    case Undelegates(x) => UndelegateGuard(s.book, s.bal, x)
    case CapBecomes(_) => true
    case BalancesBecome(bal) => forall t :: Owed(s.book.next, bal, t) == Owed(s.book.next, s.bal, t)
  }

  lemma CapKeepsTally(b: Book, bal: Balances, depth: nat)
    ensures TallyExact(b.(cap := depth), bal) <==> TallyExact(b, bal)
  {
  }

  /** Tokens may move, as long as the delegators behind each end together hold what they held. */
  lemma BalancesKeepTallyIff(b: Book, bal: Balances, bal': Balances)
    requires TallyExact(b, bal)
    ensures TallyExact(b, bal') <==> forall t :: Owed(b.next, bal', t) == Owed(b.next, bal, t)
  {
    hide Owed;
  }

  lemma StepKeepsTallyIff(s: Ledger, op: Action)
    requires ValidBook(s.book) && TallyExact(s.book, s.bal) && SupplyFits(s.bal)
    ensures TallyExact(After(s, op).book, After(s, op).bal) <==> TallyGuard(s, op)
  {
    hide TallyExact, ValidBook, SupplyFits, Undelegate, UndelegateGuard, DelegateGuard;
    match op
    case Delegates(x, y, checkpoint) =>
      var proven := Proven(s.bal, x, checkpoint);
      if Delegate(s.book, x, y, proven).1 == Done {
        DelegateKeepsTallyIff(s.book, s.bal, x, y, proven.value);
      }
    case Undelegates(x) => UndelegateKeepsTallyIff(s.book, s.bal, x);
    case CapBecomes(depth) => CapKeepsTally(s.book, s.bal, depth);
    case BalancesBecome(bal) => BalancesKeepTallyIff(s.book, s.bal, bal);
  }

  ghost predicate Exact(s: Ledger) {
    TallyExact(s.book, s.bal)
  }

  lemma TallyStepAt(states: seq<Ledger>, ops: seq<Action>, i: nat)
    requires IsRun(states, ops) && i < |ops| && SupplyFits(states[i].bal) && Exact(states[i])
    ensures Exact(states[i + 1]) <==> TallyGuard(states[i], ops[i])
  {
    RunKeepsValid(states, ops, i);
    StepKeepsTallyIff(states[i], ops[i]);
  }

  /**
   Every tally equals the balances of the delegators whose chain ends there, in every state of a
   run, if and only if every step of the run meets its guard.
   */
  lemma TallyExactThroughoutIff(states: seq<Ledger>, ops: seq<Action>)
    requires IsRun(states, ops) && Exact(states[0])
    requires forall i :: 0 <= i < |states| ==> SupplyFits(states[i].bal)
    ensures (forall i :: 0 <= i < |states| ==> Exact(states[i])) <==>
            (forall i :: 0 <= i < |ops| ==> TallyGuard(states[i], ops[i]))
  {
    var holds := seq(|states|, i requires 0 <= i < |states| => Exact(states[i]));
    var guard := seq(|ops|, i requires 0 <= i < |ops| => TallyGuard(states[i], ops[i]));
    forall i | 0 <= i < |ops| && holds[i]
      ensures holds[i + 1] <==> guard[i]
    {
      TallyStepAt(states, ops, i);
    }
    ThroughoutIff(holds, guard);
    assert forall i :: 0 <= i < |states| ==> holds[i] == Exact(states[i]);
    assert forall i :: 0 <= i < |ops| ==> guard[i] == TallyGuard(states[i], ops[i]);
  }

  /** An address nobody delegates to meets its guards with a full checkpoint and an uncut cap. */
  lemma LeafMeetsGuards(s: Ledger, x: Address, y: Address, checkpoint: nat)
    requires ValidBook(s.book) && DepthBounded(s.book)
    requires Preds(s.book.delegators, x) == [] && checkpoint >= BalanceOf(s.bal, x)
    ensures TallyGuard(s, Delegates(x, y, Some(checkpoint)))
    ensures TallyGuard(s, Undelegates(x))
  {
    var e := s.book.next;
    forall a | a in Upstream(e, x)
      ensures false
    {
      var k: nat :| Reaches(e, a, x, k);
      var p := LastHop(e, a, x, k);
    }
    assert Upstream(e, x) == {};
  }

  // ----- runs that keep everything -----

  /**
   The cap is never lowered, an address changes its delegation only while nobody delegates to it
   and with a full checkpoint, and the balances of delegators stay as they are.
   */
  ghost predicate Careful(s: Ledger, op: Action) {
    match op
    case Delegates(x, y, checkpoint) =>
      Delegate(s.book, x, y, Proven(s.bal, x, checkpoint)).1 == Done ==>
        Preds(s.book.delegators, x) == [] && checkpoint.value >= BalanceOf(s.bal, x)
    case Undelegates(x) => Preds(s.book.delegators, x) == []
    case CapBecomes(depth) => s.book.cap <= depth
    case BalancesBecome(bal) => forall a :: a in s.book.next ==> BalanceOf(bal, a) == BalanceOf(s.bal, a)
  }

  lemma CarefulIsGuarded(s: Ledger, op: Action)
    requires ValidBook(s.book) && DepthBounded(s.book) && Careful(s, op)
    ensures TallyGuard(s, op)
  {
    hide ValidBook, TallyExact, Delegate, Undelegate, DelegateGuard, UndelegateGuard;
    match op
    case Delegates(x, y, checkpoint) =>
      if Delegate(s.book, x, y, Proven(s.bal, x, checkpoint)).1 == Done {
        DoneIsProven(s.book, x, y, Proven(s.bal, x, checkpoint));
        LeafMeetsGuards(s, x, y, checkpoint.value);
      }
    case Undelegates(x) => LeafMeetsGuards(s, x, x, BalanceOf(s.bal, x));
    case CapBecomes(_) =>
    case BalancesBecome(bal) =>
      forall t
        ensures Owed(s.book.next, bal, t) == Owed(s.book.next, s.bal, t)
      {
        SumSame(bal, s.bal, Backers(s.book.next, t));
      }
  }

  lemma DoneIsProven(b: Book, x: Address, y: Address, proven: Option<int>)
    requires Delegate(b, x, y, proven).1 == Done
    ensures proven.Some?
  {
  }

  /** Along a careful run every tally is the sum of the balances of the delegators whose chain ends there. */
  lemma {:induction false} CarefulRunsStayExact(states: seq<Ledger>, ops: seq<Action>, j: nat)
    requires IsRun(states, ops) && DepthBounded(states[0].book) && Exact(states[0]) && j < |states|
    requires forall i :: 0 <= i < |ops| ==> Careful(states[i], ops[i]) && SupplyFits(states[i].bal)
    requires forall i :: 0 <= i < |states| ==> CapMatters(states[i].book)
    ensures Exact(states[j])
  {
    hide ValidBook, DepthBounded, SupplyFits, Exact, CapMatters, TallyGuard, After;
    if j > 0 {
      CarefulRunsStayExact(states, ops, j - 1);
      CarefulCaps(states, ops);
      NeverLoweredResolves(states, ops, j - 1);
      RunKeepsValid(states, ops, j - 1);
      CarefulIsGuarded(states[j - 1], ops[j - 1]);
      TallyStepAt(states, ops, j - 1);
    }
  }

  lemma CarefulCaps(states: seq<Ledger>, ops: seq<Action>)
    requires |states| == |ops| + 1 && forall i :: 0 <= i < |ops| ==> Careful(states[i], ops[i])
    ensures forall i :: 0 <= i < |ops| && ops[i].CapBecomes? ==> states[i].book.cap <= ops[i].depth
  {
    hide Delegate;
  }

  // ----- runs that break the laws -----

  const HUB_BALANCES: Balances := map[1 := 5, 2 := 7]

  lemma FirstEdge(b: Book, amount: int)
    requires b == Book(map[], map[], map[], 10) && 0 < amount <= I128_MAX
    ensures ValidBook(b) && TallyExact(b, HUB_BALANCES)
    ensures Delegate(b, 1, 2, Some(amount)) == (Book(map[1 := 2], map[2 := [1]], map[2 := amount], 10), Done)
    ensures Depth(map[1 := 2], 1) == 1
  {
    forall a
      ensures Ends(b.next, a)
    {
      assert EndsAt(b.next, a, a, 0);
    }
    AcyclicIffEveryChainEnds(b.next);
    forall t
      ensures Owed(b.next, HUB_BALANCES, t) == 0
    {
      assert Backers(b.next, t) == {};
    }
    LinkKeepsAcyclic(b.next, 1, 2);
    DelegateAdmitsExactly(b, 1, 2, amount);
    forall a, k: nat | Reaches(b.next, a, 1, k)
      ensures k == 0
    {
    }
    DepthStep(b.next, 2);
    assert Reaches(b.next, 1, 1, 0);
    assert Walk(b.next, 2, 10) == 2;
    var b' := Relinked(b, 1, 2, amount);
    assert Preds(b.delegators, 2) + [1] == [1];
    assert b'.next == map[1 := 2] && b'.delegators == map[2 := [1]] && b'.weight == map[2 := amount];
    assert Delegate(b, 1, 2, Some(amount)).1 == Done;
  }

  /**
   The depth bound can fail: one delegation, then a cap of 0, leaves a chain of length 1.
   */
  lemma LoweredCapBreaksDepth(states: seq<Ledger>, ops: seq<Action>)
    requires IsRun(states, ops) && states[0] == Ledger(Book(map[], map[], map[], 10), HUB_BALANCES)
    requires ops == [Delegates(1, 2, Some(5)), CapBecomes(0)]
    ensures DepthBounded(states[0].book) && !DepthBounded(states[2].book)
  {
    FirstEdge(states[0].book, 5);
    assert states[1] == After(states[0], ops[0]);
    assert states[2] == After(states[1], ops[1]);
    forall a
      ensures Depth(states[0].book.next, a) <= 10
    {
      DepthStep(states[0].book.next, a);
    }
  }

  /**
   The tally law can fail: after 1 -> 2, the delegation 2 -> 3 leaves the weight of 1 at 2.
   */
  lemma RedelegatedHubBreaksTally(states: seq<Ledger>, ops: seq<Action>)
    requires IsRun(states, ops) && states[0] == Ledger(Book(map[], map[], map[], 10), HUB_BALANCES)
    requires ops == [Delegates(1, 2, Some(5)), Delegates(2, 3, Some(7))]
    ensures Exact(states[0]) && !Exact(states[2])
  {
    FirstEdge(states[0].book, 5);
    var e, b := states[0].book.next, states[1].book;
    assert states[1] == After(states[0], ops[0]);
    assert states[2] == After(states[1], ops[1]);
    RunKeepsValid(states, ops, 1);
    RunKeepsValid(states, ops, 2);
    DepthStep(b.next, 3);
    assert !Through(b.next, 3, 2);
    CycleIffThrough(b.next, 2, 3);
    LinkKeepsAcyclic(b.next, 2, 3);
    forall a | Through(b.next, a, 2)
      ensures Depth(b.next[2 := 3], a) <= 10
    {
      var k: nat :| Reaches(b.next, a, 2, k);
      ThroughSameEnd(b.next, a, 2, k);
      DepthStep(b.next, a);
      DepthStep(b.next, 2);
    }
    DelegateAdmitsExactly(b, 2, 3, 7);
    assert states[2].book.weight == map[2 := 5, 3 := 7];
    assert 2 in states[2].book.next;
    UpstreamEnds(states[2].book.next, 2);
    assert Owed(states[2].book.next, HUB_BALANCES, 2) == 0;
    assert WeightOf(states[2].book.weight, 2) == 5;
  }
}
