/**
 The delegation graph of the governance contract: forward pointers, their reverse
 index, the depth cap and the running weight tallies.
 */
module Delegation {
  import opened MachineInts
  import opened Outcomes
  import opened ChainGraph

  type Reverse = map<Address, seq<Address>>
  type Weights = map<Address, int>

  datatype Book = Book(next: Edges, delegators: Reverse, weight: Weights, cap: nat)

  // ----- the storage helpers -----

  function Preds(d: Reverse, a: Address): seq<Address> {
    if a in d then d[a] else []
  }

  function Without(s: seq<Address>, x: Address): seq<Address> {
    if s == [] then []
    else Without(s[..|s| - 1], x) + if s[|s| - 1] == x then [] else [s[|s| - 1]]
  }

  function AddDelegator(d: Reverse, a: Address, x: Address): Reverse {
    if x in Preds(d, a) then d else d[a := Preds(d, a) + [x]]
  }

  function RemoveDelegator(d: Reverse, a: Address, x: Address): Reverse {
    var kept := Without(Preds(d, a), x);
    if kept == [] then d - {a} else d[a := kept]
  }

  function WeightOf(w: Weights, a: Address): int {
    if a in w then w[a] else 0
  }

  function Adjust(w: Weights, a: Address, delta: int): Weights {
    var updated := SatAdd(WeightOf(w, a), delta);
    if updated <= 0 then w - {a} else w[a := updated]
  }

  // ----- the entry points, on values -----

  /** No chain that would run through the new edge x -> y is longer than `bound`. */
  ghost predicate EdgeFits(e: Edges, x: Address, y: Address, bound: nat) {
    forall a, m: nat :: Reaches(e, a, x, m) ==> m + 1 + Depth(e, y) <= bound
  }

  /** What the depth check decides: the saturating sum never exceeds u32::MAX. */
  ghost predicate FitsCap(e: Edges, x: Address, y: Address, cap: nat) {
    cap == U32_MAX || EdgeFits(e, x, y, cap)
  }

  function Detached(b: Book, x: Address, amount: int): Book
    requires x in b.next
  {
    Book(b.next - {x}, RemoveDelegator(b.delegators, b.next[x], x),
         Adjust(b.weight, Walk(b.next, b.next[x], b.cap), -amount), b.cap)
  }

  function Attached(b: Book, x: Address, y: Address, terminal: Address, amount: int): Book {
    Book(b.next[x := y], AddDelegator(b.delegators, y, x), Adjust(b.weight, terminal, amount), b.cap)
  }

  function Relinked(b: Book, x: Address, y: Address, proven: int): Book {
    var base := if x in b.next then Detached(b, x, proven) else b;
    Attached(base, x, y, Walk(b.next, y, b.cap), proven)
  }

  /** Delegate x -> y; `proven` is the checkpoint-proven balance of `x`, if there is one. */
  ghost function Delegate(b: Book, x: Address, y: Address, proven: Option<int>): (Book, Outcome) {
    if x == y then (b, Failed(CannotDelegateToSelf))
    else if proven.None? then (b, Failed(InsufficientHoldingPeriod))
    else if exists k: nat :: 1 <= k <= b.cap + 1 && Reaches(b.next, y, x, k) then
      (b, Failed(DelegationCyclePrevented))
    else if Depth(b.next, y) > b.cap then
      (b, if b.cap == U32_MAX then Trapped else Failed(MaxDelegationDepthExceeded))
    else if !FitsCap(b.next, x, y, b.cap) then (b, Failed(MaxDelegationDepthExceeded))
    else (Relinked(b, x, y, proven.value), Done)
  }

  function Undelegate(b: Book, x: Address, balance: int): Book {
    if x in b.next then Detached(b, x, balance) else b
  }

  // ----- the invariant -----

  predicate NoDuplicates(s: seq<Address>) {
    forall i, j :: 0 <= i < j < |s| ==> s[i] != s[j]
  }

  ghost function Members(xs: seq<Address>): set<Address> {
    set a | a in xs
  }

  /** The reverse index lists exactly the direct delegators, each once. */
  ghost predicate Mirrored(e: Edges, d: Reverse) {
    && (forall a :: a in d ==> d[a] != [] && NoDuplicates(d[a]))
    && (forall p, a :: p in Preds(d, a) <==> p in e && e[p] == a)
  }

  ghost predicate ValidBook(b: Book) {
    && Acyclic(b.next)
    && Mirrored(b.next, b.delegators)
    && (forall a :: a in b.weight ==> 0 < b.weight[a] <= I128_MAX)
    && b.cap <= U32_MAX
  }

  lemma {:induction false} WithoutContents(s: seq<Address>, x: Address)
    ensures forall p :: p in Without(s, x) <==> p in s && p != x
    ensures NoDuplicates(s) ==> NoDuplicates(Without(s, x))
  {
    if s != [] {
      var front, last := s[..|s| - 1], s[|s| - 1];
      assert s == front + [last];
      WithoutContents(front, x);
      if NoDuplicates(s) {
        assert last !in front;
        assert last !in Without(front, x);
      }
    }
  }

  lemma DetachMirrors(e: Edges, d: Reverse, x: Address)
    requires Mirrored(e, d) && x in e
    ensures Mirrored(e - {x}, RemoveDelegator(d, e[x], x))
  {
    WithoutContents(Preds(d, e[x]), x);
    var d' := RemoveDelegator(d, e[x], x);
    assert forall a :: a != e[x] ==> Preds(d', a) == Preds(d, a);
    assert Preds(d', e[x]) == Without(Preds(d, e[x]), x);
  }

  lemma AttachMirrors(e: Edges, d: Reverse, x: Address, y: Address)
    requires Mirrored(e, d) && x !in e
    ensures Mirrored(e[x := y], AddDelegator(d, y, x))
  {
    var d' := AddDelegator(d, y, x);
    assert x !in Preds(d, y);
    assert forall a :: a != y ==> Preds(d', a) == Preds(d, a);
    assert Preds(d', y) == Preds(d, y) + [x];
  }

  lemma NoCycleThrough(b: Book, x: Address, y: Address)
    requires ValidBook(b) && x != y && Depth(b.next, y) <= b.cap
    requires forall k: nat :: 1 <= k <= b.cap + 1 ==> !Reaches(b.next, y, x, k)
    ensures !Through(b.next, y, x)
  {
    forall k: nat
      ensures !Reaches(b.next, y, x, k)
    {
      if Reaches(b.next, y, x, k) {
        ChainEnds(b.next, y);
        EndIsLast(b.next, y, x, Terminal(b.next, y), k, Depth(b.next, y));
        assert false;
      }
    }
  }

  lemma RelinkKeepsValid(b: Book, x: Address, y: Address, proven: int)
    requires ValidBook(b) && !Through(b.next, y, x)
    ensures ValidBook(Relinked(b, x, y, proven))
    ensures Relinked(b, x, y, proven).next == b.next[x := y]
  {
    var base := if x in b.next then Detached(b, x, proven) else b;
    assert base.next[x := y] == b.next[x := y];
    assert Mirrored(base.next, base.delegators) && x !in base.next by {
      if x in b.next {
        DetachMirrors(b.next, b.delegators, x);
      }
    }
    AttachMirrors(base.next, base.delegators, x, y);
    assert Acyclic(b.next[x := y]) by {
      LinkKeepsAcyclic(b.next, x, y);
    }
  }

  lemma DelegateKeepsValid(b: Book, x: Address, y: Address, proven: Option<int>)
    requires ValidBook(b)
    ensures ValidBook(Delegate(b, x, y, proven).0)
    ensures Delegate(b, x, y, proven).1 != Done ==> Delegate(b, x, y, proven).0 == b
  {
    if Delegate(b, x, y, proven).1 == Done {
      NoCycleThrough(b, x, y);
      RelinkKeepsValid(b, x, y, proven.value);
    }
  }

  lemma UndelegateKeepsValid(b: Book, x: Address, balance: int)
    requires ValidBook(b)
    ensures ValidBook(Undelegate(b, x, balance))
  {
    if x in b.next {
      CutKeepsAcyclic(b.next, x);
      DetachMirrors(b.next, b.delegators, x);
    }
  }

  // ----- the depth bound -----

  ghost predicate ChainsWithin(e: Edges, bound: nat) {
    forall a :: Depth(e, a) <= bound
  }

  lemma CycleIffThrough(e: Edges, x: Address, y: Address)
    requires Acyclic(e)
    ensures Acyclic(e[x := y]) <==> !Through(e, y, x)
  {
    if Through(e, y, x) {
      var k: nat :| Reaches(e, y, x, k);
      KeepsPrefix(e, e[x := y], y, x, k);
      assert Reaches(e[x := y], x, x, k + 1);
    } else {
      LinkKeepsAcyclic(e, x, y);
    }
  }

  /**
   The check is exact: for a proven delegator, an edge is admitted if and only if the resulting
   graph is acyclic and every chain through the edge stays within the cap in force. At
   cap == u32::MAX the saturating sum never exceeds the cap and only the forward part is checked.
   */
  lemma DelegateAdmitsExactly(b: Book, x: Address, y: Address, proven: int)
    requires ValidBook(b)
    ensures Delegate(b, x, y, Some(proven)).1 == Done <==>
              && Acyclic(b.next[x := y])
              && if b.cap == U32_MAX then Depth(b.next, y) <= b.cap
                 else forall a :: Through(b.next, a, x) ==> Depth(b.next[x := y], a) <= b.cap
  {
    var e := b.next;
    CycleIffThrough(e, x, y);
    assert Reaches(e, x, x, 0);
    if !Through(e, y, x) {
      LinkKeepsAcyclic(e, x, y);
      if forall a :: Through(e, a, x) ==> Depth(e[x := y], a) <= b.cap {
        assert Through(e, x, x);
        assert Depth(e[x := y], x) == 1 + Depth(e, y);
        forall a, m: nat | Reaches(e, a, x, m)
          ensures m + 1 + Depth(e, y) <= b.cap
        {
          assert Through(e, a, x);
        }
      }
    } else if Delegate(b, x, y, Some(proven)).1 == Done {
      NoCycleThrough(b, x, y);
      assert false;
    }
  }

  /**
   What a refused delegation returns, while the chain of the delegate is within the cap: the errors
   come in this order, and only a cycle is called one.
   */
  lemma DelegateRefusals(b: Book, x: Address, y: Address, proven: Option<int>)
    requires ValidBook(b) && Depth(b.next, y) <= b.cap
    ensures Delegate(b, x, y, proven).1 ==
              if x == y then Failed(CannotDelegateToSelf)
              else if proven.None? then Failed(InsufficientHoldingPeriod)
              else if !Acyclic(b.next[x := y]) then Failed(DelegationCyclePrevented)
              else if b.cap < U32_MAX && !EdgeFits(b.next, x, y, b.cap) then Failed(MaxDelegationDepthExceeded)
              else Done
  {
    hide EdgeFits, Mirrored;
    CycleIffThrough(b.next, x, y);
    if x != y {
      ChainEnds(b.next, y);
      if k: nat :| Reaches(b.next, y, x, k) {
        EndIsLast(b.next, y, x, Terminal(b.next, y), k, Depth(b.next, y));
        assert k > 0;
      }
    }
  }

  /** A successful delegation only lengthens chains up to the cap in force at that call. */
  lemma DelegateDepth(b: Book, x: Address, y: Address, proven: Option<int>, bound: nat)
    requires ValidBook(b) && ChainsWithin(b.next, bound) && b.cap <= bound
    requires b.cap < U32_MAX || (Delegate(b, x, y, proven).1 == Done ==> EdgeFits(b.next, x, y, bound))
    ensures ChainsWithin(Delegate(b, x, y, proven).0.next, bound)
  {
    if Delegate(b, x, y, proven).1 == Done {
      NoCycleThrough(b, x, y);
      RelinkKeepsValid(b, x, y, proven.value);
      LinkKeepsAcyclic(b.next, x, y);
      var e := b.next[x := y];
      forall a
        ensures Depth(e, a) <= bound
      {
        if Through(b.next, a, x) {
          var k: nat :| Reaches(b.next, a, x, k);
        }
      }
    }
  }

  lemma UndelegateDepth(b: Book, x: Address, balance: int, bound: nat)
    requires ValidBook(b) && ChainsWithin(b.next, bound)
    ensures ChainsWithin(Undelegate(b, x, balance).next, bound)
  {
    if x in b.next {
      CutKeepsAcyclic(b.next, x);
      var e := b.next - {x};
      forall a
        ensures Depth(e, a) <= bound
      {
        if Through(b.next, a, x) {
          var k: nat :| Reaches(b.next, a, x, k);
          ThroughSameEnd(b.next, a, x, k);
        }
      }
    }
  }
}
