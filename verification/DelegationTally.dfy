/**
 When the stored tallies are the sums they are meant to be. A tally is exact when it equals
 the balances of all delegators whose chain ends at the address; every operation is given
 the exact condition under which it keeps all tallies exact.
 */
module DelegationTally {
  import opened MachineInts
  import opened Outcomes
  import opened ChainGraph
  import opened Delegation
  import opened Tokens

  // ----- what the tallies should be -----

  ghost function Backers(e: Edges, t: Address): set<Address> {
    set a | a in e && Terminal(e, a) == t
  }

  ghost function Owed(e: Edges, bal: Balances, t: Address): nat {
    Sum(bal, Backers(e, t))
  }

  ghost predicate TallyExact(b: Book, bal: Balances) {
    forall t :: WeightOf(b.weight, t) == Owed(b.next, bal, t)
  }

  /** The delegators whose chain passes through `x`, without `x` itself. */
  ghost function Upstream(e: Edges, x: Address): set<Address> {
    set a | a in e && a != x && Through(e, a, x)
  }

  ghost predicate SupplyFits(bal: Balances) {
    forall s: set<Address> :: Sum(bal, s) <= I128_MAX
  }

  // ----- how one edge moves the backers -----

  lemma UpstreamEnds(e: Edges, x: Address)
    requires Acyclic(e)
    ensures forall a :: a in Upstream(e, x) ==> Terminal(e, a) == Terminal(e, x)
    ensures x !in e ==> Backers(e, x) == Upstream(e, x)
    ensures x in e ==> Backers(e, x) == {} && Upstream(e, x) + {x} <= Backers(e, Terminal(e, x))
  {
    forall a | Through(e, a, x)
      ensures Terminal(e, a) == Terminal(e, x)
    {
      var k: nat :| Reaches(e, a, x, k);
      ThroughSameEnd(e, a, x, k);
    }
    forall a | a in e && Terminal(e, a) == x
      ensures x !in e && Through(e, a, x)
    {
      ChainEnds(e, a);
    }
    DepthStep(e, x);
  }

  lemma LinkMovesBackers(e: Edges, x: Address, y: Address, t: Address)
    requires Acyclic(e) && !Through(e, y, x)
    ensures Backers(e[x := y], t) ==
              Backers(e, t) - (Upstream(e, x) + {x}) + if t == Terminal(e, y) then Upstream(e, x) + {x} else {}
  {
    var e', moved := e[x := y], Upstream(e, x) + {x};
    forall a | a in e'
      ensures Terminal(e', a) == if a in moved then Terminal(e, y) else Terminal(e, a)
    {
      LinkTerminal(e, x, y, a);
      assert a == x ==> Reaches(e, a, x, 0);
    }
  }

  lemma CutMovesBackers(e: Edges, x: Address, t: Address)
    requires Acyclic(e) && x in e
    ensures Backers(e - {x}, t) ==
              Backers(e, t) - (Upstream(e, x) + {x}) + if t == x then Upstream(e, x) else {}
  {
    var e' := e - {x};
    forall a | a in e'
      ensures Terminal(e', a) == if a in Upstream(e, x) then x else Terminal(e, a)
    {
      CutTerminal(e, x, a);
    }
  }

  lemma SplitUpstream(e: Edges, bal: Balances, x: Address)
    ensures Sum(bal, Upstream(e, x) + {x}) == Sum(bal, Upstream(e, x)) + BalanceOf(bal, x)
  {
    SumRemove(bal, Upstream(e, x) + {x}, x);
    assert Upstream(e, x) + {x} - {x} == Upstream(e, x);
  }

  /** Linking moves `x` and everyone upstream of it from the old end to the end of `y`. */
  lemma LinkMovesOwed(e: Edges, bal: Balances, x: Address, y: Address, t: Address)
    requires Acyclic(e) && !Through(e, y, x)
    ensures
      var up, own := Sum(bal, Upstream(e, x)), BalanceOf(bal, x);
      var leaves := if t != Terminal(e, x) then 0 else if x in e then up + own else up;
      var arrives := if t == Terminal(e, y) then up + own else 0;
      Owed(e[x := y], bal, t) == Owed(e, bal, t) - leaves + arrives
  {
    var moved := Upstream(e, x) + {x};
    var stay := Backers(e, t) - moved;
    LinkMovesBackers(e, x, y, t);
    UpstreamEnds(e, x);
    DepthStep(e, x);
    SplitUpstream(e, bal, x);
    if t == Terminal(e, y) {
      SumUnion(bal, stay, moved);
    } else {
      assert stay + {} == stay;
    }
    RemovedFrom(e, bal, x, t);
  }

  lemma RemovedFrom(e: Edges, bal: Balances, x: Address, t: Address)
    requires Acyclic(e)
    ensures
      var up, own := Sum(bal, Upstream(e, x)), BalanceOf(bal, x);
      var leaves := if t != Terminal(e, x) then 0 else if x in e then up + own else up;
      Sum(bal, Backers(e, t) - (Upstream(e, x) + {x})) == Owed(e, bal, t) - leaves
  {
    var moved := Upstream(e, x) + {x};
    UpstreamEnds(e, x);
    DepthStep(e, x);
    SplitUpstream(e, bal, x);
    if t != Terminal(e, x) {
      assert Backers(e, t) - moved == Backers(e, t);
    } else if x in e {
      SumSubset(bal, moved, Backers(e, t));
    } else {
      assert Backers(e, t) - moved == {};
    }
  }

  lemma CutMovesOwed(e: Edges, bal: Balances, x: Address, t: Address)
    requires Acyclic(e) && x in e
    ensures
      var up, own := Sum(bal, Upstream(e, x)), BalanceOf(bal, x);
      Owed(e - {x}, bal, t) == if t == x then up
                               else if t == Terminal(e, x) then Owed(e, bal, t) - up - own
                               else Owed(e, bal, t)
  {
    CutMovesBackers(e, x, t);
    RemovedFrom(e, bal, x, t);
    UpstreamEnds(e, x);
    ChainEnds(e, x);
    if t == x {
      assert Backers(e, t) - (Upstream(e, x) + {x}) + Upstream(e, x) == Upstream(e, x);
    } else {
      assert Backers(e, t) - (Upstream(e, x) + {x}) + {} == Backers(e, t) - (Upstream(e, x) + {x});
    }
  }

  // ----- the exact condition for each operation -----

  /** The bounded walk still finds the end of the chain `x` is about to leave. */
  ghost predicate OldEndFound(b: Book, x: Address)
    requires x in b.next
  {
    Depth(b.next, b.next[x]) <= b.cap
  }

  /** What `x` can check before delegating to `y` with the proven balance `proven`. */
  ghost predicate DelegateGuard(b: Book, bal: Balances, x: Address, y: Address, proven: int) {
    var up, own := Sum(bal, Upstream(b.next, x)), BalanceOf(bal, x);
    if x !in b.next then up == 0 && proven == own
    else if OldEndFound(b, x) then
      Terminal(b.next, x) == Terminal(b.next, y) || (up == 0 && proven == own)
    else if Terminal(b.next, x) == Terminal(b.next, y) then
      proven == 0 || WeightOf(b.weight, Terminal(b.next, y)) == I128_MAX
    else up + own == 0
  }

  /** What the new end gains; it saturates only when the old end was not found and is the new one. */
  ghost function Gain(b: Book, x: Address, y: Address, proven: int): int {
    var end := Terminal(b.next, y);
    if x in b.next && !OldEndFound(b, x) && Terminal(b.next, x) == end
    then Min(proven, I128_MAX - WeightOf(b.weight, end))
    else proven
  }

  ghost predicate UndelegateGuard(b: Book, bal: Balances, x: Address) {
    x in b.next ==>
      if OldEndFound(b, x) then Sum(bal, Upstream(b.next, x)) == 0
      else Sum(bal, Upstream(b.next, x)) + BalanceOf(bal, x) == 0
  }

  lemma OldEnd(b: Book, x: Address)
    requires ValidBook(b) && x in b.next
    ensures
      var found := Walk(b.next, b.next[x], b.cap);
      if OldEndFound(b, x) then found == Terminal(b.next, x) else found in b.next && found != x
  {
    var e := b.next;
    var found := Walk(e, e[x], b.cap);
    BoundedWalk(e, e[x], b.cap);
    DepthStep(e, x);
    WalkReaches(e, e[x], b.cap);
    if found == x {
      assert Reaches(e, x, x, Hops(e, e[x], b.cap) + 1);
      assert false;
    }
  }

  lemma AdjustWeight(w: Weights, a: Address, delta: int, t: Address)
    requires WeightOf(w, a) >= 0 && delta >= -I128_MAX
    ensures WeightOf(Adjust(w, a, delta), t) ==
              if t == a then Min(I128_MAX, Max(0, WeightOf(w, a) + delta)) else WeightOf(w, t)
  {
  }

  /** Adding the proven balance at the new end cannot overflow: it is owed to that end. */
  lemma RoomAtNewEnd(b: Book, bal: Balances, x: Address, y: Address)
    requires Acyclic(b.next) && TallyExact(b, bal) && SupplyFits(bal) && !Through(b.next, y, x)
    ensures
      var end := Terminal(b.next, y);
      && x != end
      && WeightOf(b.weight, end) - (if x in b.next && end == Terminal(b.next, x) then BalanceOf(bal, x) else 0)
         + BalanceOf(bal, x) <= I128_MAX
  {
    var end := Terminal(b.next, y);
    ChainEnds(b.next, y);
    assert x == end ==> Reaches(b.next, y, x, Depth(b.next, y));
    LinkMovesOwed(b.next, bal, x, y, end);
    DepthStep(b.next, x);
    assert Owed(b.next[x := y], bal, end) <= I128_MAX;
  }

  /** Taking the proven balance off the old end leaves a non-negative tally. */
  lemma RoomAtOldEnd(b: Book, bal: Balances, x: Address)
    requires Acyclic(b.next) && TallyExact(b, bal) && x in b.next
    ensures WeightOf(b.weight, Terminal(b.next, x)) >= Sum(bal, Upstream(b.next, x)) + BalanceOf(bal, x)
  {
    UpstreamEnds(b.next, x);
    SumSubset(bal, Upstream(b.next, x) + {x}, Backers(b.next, Terminal(b.next, x)));
    SplitUpstream(b.next, bal, x);
  }

  lemma NoTallyInside(b: Book, bal: Balances, a: Address)
    requires Acyclic(b.next) && TallyExact(b, bal) && a in b.next
    ensures WeightOf(b.weight, a) == 0
  {
    UpstreamEnds(b.next, a);
  }

  lemma TwoAdjusts(w: Weights, a: Address, end: Address, p: int, t: Address)
    requires 0 <= p <= I128_MAX && 0 <= WeightOf(w, a) <= I128_MAX && 0 <= WeightOf(w, end)
    requires a == end ==> p <= WeightOf(w, a)
    ensures WeightOf(Adjust(Adjust(w, a, -p), end, p), t) ==
              if t == end then (if a == end then WeightOf(w, t) else Min(I128_MAX, WeightOf(w, t) + p))
              else if t == a then Max(0, WeightOf(w, a) - p) else WeightOf(w, t)
  {
    AdjustWeight(w, a, -p, t);
    AdjustWeight(w, a, -p, end);
    AdjustWeight(Adjust(w, a, -p), end, p, t);
  }

  /** What the adjustments of a successful delegation do to the tallies. */
  lemma RelinkWeights(b: Book, bal: Balances, x: Address, y: Address, proven: int, t: Address)
    requires ValidBook(b) && TallyExact(b, bal) && SupplyFits(bal)
    requires !Through(b.next, y, x) && Depth(b.next, y) <= b.cap && 0 <= proven <= BalanceOf(bal, x)
    ensures
      var end, old_ := Terminal(b.next, y), Terminal(b.next, x);
      WeightOf(Relinked(b, x, y, proven).weight, t) ==
        WeightOf(b.weight, t)
        + (if t == end then Gain(b, x, y, proven) else 0)
        - (if x in b.next && OldEndFound(b, x) && t == old_ then proven else 0)
  {
    var end := Terminal(b.next, y);
    assert Walk(b.next, y, b.cap) == end && end !in b.next by {
      BoundedWalk(b.next, y, b.cap);
    }
    RoomAtNewEnd(b, bal, x, y);
    assert WeightOf(b.weight, end) >= 0;
    if x in b.next {
      var found := Walk(b.next, b.next[x], b.cap);
      OldEnd(b, x);
      RoomAtOldEnd(b, bal, x);
      if found in b.next {
        NoTallyInside(b, bal, found);
      }
      TwoAdjusts(b.weight, found, end, proven, t);
    } else {
      AdjustWeight(b.weight, end, proven, t);
    }
  }

  /** The tally of `t` moves by as much as what it is owed. */
  ghost predicate LocallyExact(b: Book, bal: Balances, x: Address, y: Address, proven: int, t: Address) {
    var up, own := Sum(bal, Upstream(b.next, x)), BalanceOf(bal, x);
    var end, old_ := Terminal(b.next, y), Terminal(b.next, x);
    (if t == end then Gain(b, x, y, proven) else 0)
    - (if x in b.next && OldEndFound(b, x) && t == old_ then proven else 0)
    == (if t == end then up + own else 0) - (if t != old_ then 0 else if x in b.next then up + own else up)
  }

  lemma LocallyExactEverywhere(b: Book, bal: Balances, x: Address, y: Address, proven: int)
    requires Acyclic(b.next) && !Through(b.next, y, x) && 0 <= proven <= BalanceOf(bal, x)
    requires WeightOf(b.weight, Terminal(b.next, y)) <= I128_MAX
    ensures (forall t :: LocallyExact(b, bal, x, y, proven, t)) <==> DelegateGuard(b, bal, x, y, proven)
  {
    var end, old_ := Terminal(b.next, y), Terminal(b.next, x);
    ChainEnds(b.next, y);
    assert x == end ==> Reaches(b.next, y, x, Depth(b.next, y));
    DepthStep(b.next, x);
    if forall t :: LocallyExact(b, bal, x, y, proven, t) {
      assert LocallyExact(b, bal, x, y, proven, end);
      assert LocallyExact(b, bal, x, y, proven, old_);
    }
  }

  lemma RelinkedTally(b: Book, bal: Balances, x: Address, y: Address, proven: int, t: Address)
    requires ValidBook(b) && TallyExact(b, bal) && SupplyFits(bal)
    requires !Through(b.next, y, x) && Depth(b.next, y) <= b.cap && 0 <= proven <= BalanceOf(bal, x)
    ensures WeightOf(Relinked(b, x, y, proven).weight, t) == Owed(b.next[x := y], bal, t)
            <==> LocallyExact(b, bal, x, y, proven, t)
  {
    RelinkWeights(b, bal, x, y, proven, t);
    LinkMovesOwed(b.next, bal, x, y, t);
  }

  /** A successful delegation keeps every tally exact if and only if its guard holds. */
  lemma DelegateKeepsTallyIff(b: Book, bal: Balances, x: Address, y: Address, proven: int)
    requires ValidBook(b) && TallyExact(b, bal) && SupplyFits(bal)
    requires 0 <= proven <= BalanceOf(bal, x) && Delegate(b, x, y, Some(proven)).1 == Done
    ensures TallyExact(Delegate(b, x, y, Some(proven)).0, bal) <==> DelegateGuard(b, bal, x, y, proven)
  {
    NoCycleThrough(b, x, y);
    var b' := Relinked(b, x, y, proven);
    assert b'.next == b.next[x := y] by {
      RelinkKeepsValid(b, x, y, proven);
    }
    forall t
      ensures WeightOf(b'.weight, t) == Owed(b'.next, bal, t) <==> LocallyExact(b, bal, x, y, proven, t)
    {
      RelinkedTally(b, bal, x, y, proven, t);
    }
    LocallyExactEverywhere(b, bal, x, y, proven);
    assert (forall t :: LocallyExact(b, bal, x, y, proven, t)) <==> TallyExact(b', bal);
  }

  lemma DetachedTally(b: Book, bal: Balances, x: Address, t: Address)
    requires ValidBook(b) && TallyExact(b, bal) && SupplyFits(bal) && x in b.next
    ensures
      var up, own := Sum(bal, Upstream(b.next, x)), BalanceOf(bal, x);
      WeightOf(Detached(b, x, own).weight, t) == Owed(b.next - {x}, bal, t) <==>
        if t == x then up == 0
        else if t == Terminal(b.next, x) then up + own == if OldEndFound(b, x) then own else 0
        else true
  {
    var own: int, found := BalanceOf(bal, x), Walk(b.next, b.next[x], b.cap);
    OldEnd(b, x);
    RoomAtOldEnd(b, bal, x);
    NoTallyInside(b, bal, x);
    if found in b.next {
      NoTallyInside(b, bal, found);
    }
    CutMovesOwed(b.next, bal, x, t);
    assert Owed(b.next, bal, Terminal(b.next, x)) <= I128_MAX;
    AdjustWeight(b.weight, found, -own, t);
    assert Terminal(b.next, x) != x by {
      ChainEnds(b.next, x);
    }
  }

  /** The same for withdrawing a delegation. */
  lemma UndelegateKeepsTallyIff(b: Book, bal: Balances, x: Address)
    requires ValidBook(b) && TallyExact(b, bal) && SupplyFits(bal)
    ensures TallyExact(Undelegate(b, x, BalanceOf(bal, x)), bal) <==> UndelegateGuard(b, bal, x)
  {
    if x in b.next {
      var b', end := Detached(b, x, BalanceOf(bal, x)), Terminal(b.next, x);
      forall t
        ensures WeightOf(b'.weight, t) == Owed(b'.next, bal, t) <==>
                  if t == x then Sum(bal, Upstream(b.next, x)) == 0 else t == end ==> UndelegateGuard(b, bal, x)
      {
        DetachedTally(b, bal, x, t);
      }
      ChainEnds(b.next, x);
      if TallyExact(b', bal) {
        assert WeightOf(b'.weight, end) == Owed(b'.next, bal, end);
      }
    }
  }

  /** A token balance that changes under a delegator puts its tally out, and only that does. */
  lemma BalanceChangeKeepsTallyIff(b: Book, bal: Balances, a: Address, v: nat)
    requires TallyExact(b, bal)
    ensures TallyExact(b, bal[a := v]) <==> a !in b.next || v == BalanceOf(bal, a)
  {
    forall t
      ensures Owed(b.next, bal[a := v], t) ==
                Owed(b.next, bal, t) + if a in Backers(b.next, t) then v - BalanceOf(bal, a) else 0
    {
      SumUpdate(bal, a, v, Backers(b.next, t));
    }
    if a in b.next {
      var end := Terminal(b.next, a);
      assert a in Backers(b.next, end);
      if TallyExact(b, bal[a := v]) {
        assert WeightOf(b.weight, end) == Owed(b.next, bal[a := v], end);
      }
    }
  }
}
