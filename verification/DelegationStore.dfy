/** The delegation part of the contract's storage and the entry points that update it. */
module DelegationStorage {
  import opened MachineInts
  import opened Outcomes
  import opened ChainGraph
  import opened Delegation

  type Stack = seq<(Address, bool)>

  /** The predecessors a depth-first step still has to visit, as pushed. */
  function Pending(preds: seq<Address>, best: map<Address, nat>): Stack {
    if preds == [] then []
    else
      var p := preds[|preds| - 1];
      Pending(preds[..|preds| - 1], best) + if p in best then [] else [(p, false)]
  }

  lemma {:induction false} PendingContents(preds: seq<Address>, best: map<Address, nat>)
    ensures forall t :: t in Pending(preds, best) <==> !t.1 && t.0 in preds && t.0 !in best
    ensures NoDuplicates(preds) ==> DistinctNodes(Pending(preds, best))
  {
    if preds != [] {
      var front, p := preds[..|preds| - 1], preds[|preds| - 1];
      assert preds == front + [p];
      PendingContents(front, best);
      if NoDuplicates(preds) {
        assert p !in front;
      }
    }
  }

  ghost predicate DistinctNodes(s: Stack) {
    forall i, j :: 0 <= i < j < |s| ==> s[i].0 != s[j].0
  }

  ghost predicate OnStack(s: Stack, from: nat, p: Address) {
    exists j :: from <= j < |s| && s[j].0 == p
  }

  /** Every opened node waits only for predecessors that are computed or above it. */
  ghost predicate WaitsAbove(e: Edges, s: Stack, best: map<Address, nat>) {
    forall i, p :: 0 <= i < |s| && s[i].1 && p in e && e[p] == s[i].0 ==> p in best || OnStack(s, i + 1, p)
  }

  /** Every node but the bottom one was pushed by its opened successor further down. */
  ghost predicate Pushed(e: Edges, s: Stack, start: Address) {
    && (s != [] ==> s[0].0 == start)
    && (forall j :: 0 < j < |s| ==> s[j].0 in e && (e[s[j].0], true) in s[..j])
    && (forall j :: 0 <= j < |s| ==> Through(e, s[j].0, start))
  }

  ghost predicate BestExact(longest: map<Address, nat>, best: map<Address, nat>) {
    forall a :: a in best ==> a in longest && best[a] == Min(U32_MAX, longest[a])
  }

  lemma BestExtended(longest: map<Address, nat>, best: map<Address, nat>, a: Address)
    requires BestExact(longest, best) && a in longest
    ensures BestExact(longest, best[a := Min(U32_MAX, longest[a])])
  {
  }

  lemma SplitTop(s: Stack)
    requires s != []
    ensures s == s[..|s| - 1] + [s[|s| - 1]]
  {
  }

  ghost predicate StackInvariant(e: Edges, s: Stack, best: map<Address, nat>, start: Address) {
    && DistinctNodes(s)
    && WaitsAbove(e, s, best)
    && Pushed(e, s, start)
    && (start in best || s != [])
  }

  ghost function Unopened(nodes: set<Address>, s: Stack, best: map<Address, nat>): set<Address> {
    nodes - best.Keys - set t | t in s && t.1 :: t.0
  }

  lemma TopIsNode(e: Edges, base: Stack, top: (Address, bool), start: Address)
    requires Pushed(e, base + [top], start)
    ensures top.0 in e.Keys + {start} && Through(e, top.0, start)
  {
    assert (base + [top])[|base|] == top;
    var k: nat :| Reaches(e, top.0, start, k);
  }

  /** `n` is 0 without predecessors and otherwise one more than the largest of theirs. */
  ghost predicate OneMoreThanBest(longest: map<Address, nat>, preds: seq<Address>, n: nat) {
    && (forall p :: p in preds ==> p in longest && longest[p] + 1 <= n)
    && (n > 0 ==> exists p :: p in preds && p in longest && n == longest[p] + 1)
  }

  lemma LongestRecurrence(e: Edges, d: Reverse, longest: map<Address, nat>)
    requires Acyclic(e) && Mirrored(e, d) && e.Keys <= longest.Keys
    requires forall a :: a in longest ==> longest[a] == LongestInbound(e, a)
    ensures forall a :: a in longest ==> OneMoreThanBest(longest, Preds(d, a), longest[a])
  {
    forall a | a in longest
      ensures OneMoreThanBest(longest, Preds(d, a), longest[a])
    {
      LongestInboundRecursive(e, a);
    }
  }

  // ----- opening a node -----

  lemma OpenDistinct(e: Edges, base: Stack, node: Address, more: Stack, start: Address)
    requires Acyclic(e) && Pushed(e, base + [(node, false)], start)
    requires DistinctNodes(base + [(node, false)]) && DistinctNodes(more)
    requires forall t :: t in more ==> t.0 in e && e[t.0] == node
    ensures DistinctNodes(base + [(node, true)] + more)
  {
    var old_ := base + [(node, false)];
    var new_ := base + [(node, true)] + more;
    forall i, j | 0 <= i < j < |new_|
      ensures new_[i].0 != new_[j].0
    {
      if j <= |base| {
        assert old_[i].0 != old_[j].0;
      } else if i <= |base| {
        assert new_[j] in more && new_[i].0 == old_[i].0;
        PredIsFresh(e, base, node, new_[j].0, start, i);
      } else {
        assert new_[i] == more[i - |base| - 1] && new_[j] == more[j - |base| - 1];
      }
    }
  }

  /** A predecessor of the top node is not on the stack yet: it would close a cycle. */
  lemma PredIsFresh(e: Edges, base: Stack, node: Address, p: Address, start: Address, i: nat)
    requires Acyclic(e) && Pushed(e, base + [(node, false)], start)
    requires DistinctNodes(base + [(node, false)]) && p in e && e[p] == node && i <= |base|
    ensures (base + [(node, false)])[i].0 != p
  {
    var s := base + [(node, false)];
    assert s[|base|] == (node, false);
    var k: nat :| Reaches(e, node, start, k);
    assert Reaches(e, p, start, k + 1);
    if s[i].0 == p {
      assert false;
    }
  }

  lemma OpenWaits(e: Edges, base: Stack, node: Address, more: Stack, best: map<Address, nat>)
    requires WaitsAbove(e, base + [(node, false)], best)
    requires forall t :: t in more ==> !t.1
    requires forall p :: p in e && e[p] == node && p !in best ==> (p, false) in more
    ensures WaitsAbove(e, base + [(node, true)] + more, best)
  {
    var old_ := base + [(node, false)];
    var new_ := base + [(node, true)] + more;
    assert forall q :: |base| < q < |new_| ==> new_[q] in more;
    forall i, p | 0 <= i < |new_| && new_[i].1 && p in e && e[p] == new_[i].0 && p !in best
      ensures OnStack(new_, i + 1, p)
    {
      if i < |base| {
        assert old_[i] == new_[i];
        var j :| i + 1 <= j < |old_| && old_[j].0 == p;
        assert new_[j].0 == p;
      } else {
        var j :| 0 <= j < |more| && more[j] == (p, false);
        assert new_[|base| + 1 + j].0 == p;
      }
    }
  }

  lemma OpenPushed(e: Edges, base: Stack, node: Address, more: Stack, start: Address)
    requires Pushed(e, base + [(node, false)], start)
    requires forall t :: t in more ==> t.0 in e && e[t.0] == node
    ensures Pushed(e, base + [(node, true)] + more, start)
  {
    var old_ := base + [(node, false)];
    var new_ := base + [(node, true)] + more;
    assert old_[0].0 == new_[0].0;
    TopIsNode(e, base, (node, false), start);
    forall j | 0 <= j < |new_|
      ensures 0 < j ==> new_[j].0 in e && (e[new_[j].0], true) in new_[..j]
      ensures Through(e, new_[j].0, start)
    {
      if j <= |base| {
        assert new_[j].0 == old_[j].0 && new_[..j] == old_[..j];
      } else {
        assert new_[j] in more && new_[..j][|base|] == (node, true);
        var k: nat :| Reaches(e, node, start, k);
        assert Reaches(e, new_[j].0, start, k + 1);
      }
    }
  }

  lemma OpenShrinks(nodes: set<Address>, base: Stack, node: Address, more: Stack, best: map<Address, nat>)
    requires node in nodes && node !in best && DistinctNodes(base + [(node, false)])
    ensures Unopened(nodes, base + [(node, true)] + more, best) < Unopened(nodes, base + [(node, false)], best)
  {
    var old_ := base + [(node, false)];
    var new_ := base + [(node, true)] + more;
    forall t | t in old_ && t.1
      ensures t in new_ && t.0 != node
    {
      var i :| 0 <= i < |old_| && old_[i] == t;
      assert new_[i] == t && old_[|base|].0 == node;
    }
    assert new_[|base|] == (node, true);
    assert node in Unopened(nodes, old_, best);
    assert node !in Unopened(nodes, new_, best);
  }

  lemma OpenNode(e: Edges, d: Reverse, base: Stack, node: Address, best: map<Address, nat>, start: Address)
    requires Acyclic(e) && Mirrored(e, d) && node !in best
    requires StackInvariant(e, base + [(node, false)], best, start)
    ensures
      var after := base + [(node, true)] + Pending(Preds(d, node), best);
      && StackInvariant(e, after, best, start)
      && Unopened(e.Keys + {start}, after, best) < Unopened(e.Keys + {start}, base + [(node, false)], best)
  {
    var more := Pending(Preds(d, node), best);
    PendingContents(Preds(d, node), best);
    TopIsNode(e, base, (node, false), start);
    OpenDistinct(e, base, node, more, start);
    OpenWaits(e, base, node, more, best);
    OpenPushed(e, base, node, more, start);
    OpenShrinks(e.Keys + {start}, base, node, more, best);
  }

  // ----- taking the top node off once it is computed -----

  lemma PopWaits(e: Edges, base: Stack, top: (Address, bool), best: map<Address, nat>, best': map<Address, nat>)
    requires WaitsAbove(e, base + [top], best) && best.Keys <= best'.Keys && top.0 in best'
    ensures WaitsAbove(e, base, best')
  {
    var old_ := base + [top];
    forall i, p | 0 <= i < |base| && base[i].1 && p in e && e[p] == base[i].0 && p !in best'
      ensures OnStack(base, i + 1, p)
    {
      assert old_[i] == base[i];
      var j :| i + 1 <= j < |old_| && old_[j].0 == p;
      assert base[j].0 == p;
    }
  }

  lemma PopPushed(e: Edges, base: Stack, top: (Address, bool), start: Address)
    requires Pushed(e, base + [top], start)
    ensures Pushed(e, base, start)
    ensures base == [] ==> top.0 == start
  {
    var old_ := base + [top];
    assert old_[|base|] == top;
    forall j | 0 <= j < |base|
      ensures 0 < j ==> base[j].0 in e && (e[base[j].0], true) in base[..j]
      ensures Through(e, base[j].0, start)
    {
      assert old_[j] == base[j] && old_[..j] == base[..j];
    }
    if base != [] {
      assert base[0] == old_[0];
    }
  }

  lemma PopNode(e: Edges, base: Stack, top: (Address, bool), best: map<Address, nat>, best': map<Address, nat>,
                start: Address)
    requires StackInvariant(e, base + [top], best, start)
    requires best.Keys <= best'.Keys && top.0 in best'
    ensures StackInvariant(e, base, best', start)
    ensures Unopened(e.Keys + {start}, base, best') <= Unopened(e.Keys + {start}, base + [top], best)
  {
    var old_ := base + [top];
    forall i, j | 0 <= i < j < |base|
      ensures base[i].0 != base[j].0
    {
      assert old_[i].0 != old_[j].0;
    }
    PopWaits(e, base, top, best, best');
    PopPushed(e, base, top, start);
    forall t | t in old_ && t.1
      ensures t in base || t.0 in best'
    {
      var i :| 0 <= i < |old_| && old_[i] == t;
      assert i < |base| ==> base[i] == t;
    }
  }

  /** Nothing above the top of the stack: the predecessors of an opened top are all computed. */
  lemma TopIsReady(e: Edges, base: Stack, node: Address, best: map<Address, nat>)
    requires WaitsAbove(e, base + [(node, true)], best)
    ensures forall p :: p in e && e[p] == node ==> p in best
  {
    var s := base + [(node, true)];
    assert s[|base|] == (node, true);
    forall p | p in e && e[p] == node
      ensures p in best
    {
      assert !OnStack(s, |base| + 1, p);
    }
  }

  class DelegationStore {
    var next: Edges
    var delegators: Reverse
    var weight: Weights
    var cap: nat

    ghost function Contents(): Book
      reads this
    {
      Book(next, delegators, weight, cap)
    }

    ghost predicate Valid()
      reads this
    {
      ValidBook(Contents())
    }

    constructor (depth: nat)
      requires depth <= U32_MAX
      ensures Valid() && Contents() == Book(map[], map[], map[], depth)
    {
      next, delegators, weight, cap := map[], map[], map[], depth;
      new;
      AcyclicIffEveryChainEnds(next);
      forall a
        ensures Ends(next, a)
      {
        assert EndsAt(next, a, a, 0);
      }
    }

    method SetMaxDelegationDepth(depth: nat)
      requires Valid() && depth <= U32_MAX
      modifies this
      ensures Valid() && Contents() == old(Contents()).(cap := depth)
    {
      cap := depth;
    }

    method GetDelegate(a: Address) returns (r: Option<Address>)
      ensures r == if a in next then Some(next[a]) else None
    {
      r := if a in next then Some(next[a]) else None;
    }

    /** The explicit-stack, memoised longest path into `start`, clipped at u32::MAX. */
    method LongestInboundDepth(start: Address) returns (n: nat)
      requires Valid()
      ensures n == Min(U32_MAX, LongestInbound(next, start))
    {
      ghost var nodes := next.Keys + {start};
      ghost var longest := map a | a in nodes :: LongestInbound(next, a);
      LongestRecurrence(next, delegators, longest);
      var best: map<Address, nat> := map[];
      var stack: Stack := [(start, false)];
      assert Reaches(next, start, start, 0);
      while stack != []
        invariant BestExact(longest, best)
        invariant StackInvariant(next, stack, best, start)
        decreases Unopened(nodes, stack, best), |stack|
      {
        stack, best := VisitTop(stack, best, longest, start);
      }
      n := best[start];
    }

    /** One round of the search: pop a node, then either finish it or open it. */
    method VisitTop(stack: Stack, best: map<Address, nat>, ghost longest: map<Address, nat>, ghost start: Address)
      returns (stack': Stack, best': map<Address, nat>)
      requires Acyclic(next) && Mirrored(next, delegators) && stack != []
      requires longest.Keys == next.Keys + {start}
      requires forall a :: a in longest ==> OneMoreThanBest(longest, Preds(delegators, a), longest[a])
      requires BestExact(longest, best) && StackInvariant(next, stack, best, start)
      ensures BestExact(longest, best') && StackInvariant(next, stack', best', start)
      ensures
        var before, after := Unopened(longest.Keys, stack, best), Unopened(longest.Keys, stack', best');
        after < before || (after == before && |stack'| < |stack|)
    {
      var (node, processed) := stack[|stack| - 1];
      stack' := stack[..|stack| - 1];
      ghost var base := stack';
      SplitTop(stack);
      TopIsNode(next, base, (node, processed), start);
      var preds := Preds(delegators, node);
      if processed {
        TopIsReady(next, base, node, best);
        var nodeBest := BestOf(preds, best, longest, node);
        BestExtended(longest, best, node);
        best' := best[node := nodeBest];
        PopNode(next, base, (node, true), best, best', start);
      } else if node in best {
        best' := best;
        PopNode(next, base, (node, false), best, best, start);
      } else {
        best' := best;
        OpenNode(next, delegators, base, node, best, start);
        stack' := PushPending(stack' + [(node, true)], preds, best);
      }
    }

    static method PushPending(base: Stack, preds: seq<Address>, best: map<Address, nat>) returns (stack: Stack)
      ensures stack == base + Pending(preds, best)
    {
      stack := base;
      for i := 0 to |preds|
        invariant stack == base + Pending(preds[..i], best)
      {
        assert preds[..i + 1][..i] == preds[..i];
        if preds[i] !in best {
          stack := stack + [(preds[i], false)];
        }
      }
      assert preds[..|preds|] == preds;
    }

    /** One more than the best computed predecessor. */
    static method BestOf(preds: seq<Address>, best: map<Address, nat>, ghost longest: map<Address, nat>, node: Address)
      returns (nodeBest: nat)
      requires BestExact(longest, best) && (forall p :: p in preds ==> p in best)
      requires node in longest && OneMoreThanBest(longest, preds, longest[node])
      ensures nodeBest == Min(U32_MAX, longest[node])
    {
      nodeBest := 0;
      for i := 0 to |preds|
        invariant forall k :: 0 <= k < i ==> Min(U32_MAX, longest[preds[k]] + 1) <= nodeBest
        invariant nodeBest <= Min(U32_MAX, longest[node])
      {
        var known := if preds[i] in best then best[preds[i]] else 0;
        var candidate := Min(U32_MAX, known + 1);
        if candidate > nodeBest {
          nodeBest := candidate;
        }
      }
    }

    method ForwardDelegationDepth(start: Address) returns (depth: nat)
      ensures depth == Hops(next, start, cap)
    {
      var current := start;
      depth := 0;
      while depth < cap && current in next
        invariant depth <= cap
        invariant Hops(next, start, cap) == depth + Hops(next, current, cap - depth)
      {
        current := next[current];
        depth := depth + 1;
      }
    }

    method ResolveTerminal(start: Address) returns (current: Address)
      ensures current == Walk(next, start, cap)
    {
      current := start;
      var depth := 0;
      while depth < cap && current in next
        invariant depth <= cap
        invariant Walk(next, start, cap) == Walk(next, current, cap - depth)
      {
        current := next[current];
        depth := depth + 1;
      }
    }

    method AddDelegatorTo(delegate: Address, delegator: Address)
      modifies this`delegators
      ensures delegators == AddDelegator(old(delegators), delegate, delegator)
    {
      var list := Preds(delegators, delegate);
      if delegator !in list {
        delegators := delegators[delegate := list + [delegator]];
      }
    }

    method RemoveDelegatorFrom(delegate: Address, delegator: Address)
      modifies this`delegators
      ensures delegators == RemoveDelegator(old(delegators), delegate, delegator)
    {
      var list := Preds(delegators, delegate);
      var filtered: seq<Address> := [];
      for i := 0 to |list|
        invariant filtered == Without(list[..i], delegator)
      {
        assert list[..i + 1][..i] == list[..i];
        if list[i] != delegator {
          filtered := filtered + [list[i]];
        }
      }
      assert list[..|list|] == list;
      if filtered == [] {
        delegators := delegators - {delegate};
      } else {
        delegators := delegators[delegate := filtered];
      }
    }

    method AdjustDelegatedToMe(a: Address, delta: int)
      modifies this`weight
      ensures weight == Adjust(old(weight), a, delta)
    {
      var updated := SatAdd(WeightOf(weight, a), delta);
      if updated <= 0 {
        weight := weight - {a};
      } else {
        weight := weight[a := updated];
      }
    }

    /** The bounded forward walk from `delegate` that looks for `delegator`. */
    method CheckNoCycle(delegator: Address, delegate: Address) returns (r: Outcome)
      requires Valid()
      ensures (exists k: nat :: 1 <= k <= cap + 1 && Reaches(next, delegate, delegator, k)) ==>
                r == Failed(DelegationCyclePrevented)
      ensures (forall k: nat :: 1 <= k <= cap + 1 ==> !Reaches(next, delegate, delegator, k)) ==>
                r == if Depth(next, delegate) <= cap then Done
                     else if cap == U32_MAX then Trapped else Failed(MaxDelegationDepthExceeded)
    {
      var cursor := GetDelegate(delegate);
      var hops := 0;
      ghost var at := delegate;
      ChainEnds(next, delegate);
      while cursor.Some?
        invariant hops <= cap
        invariant Reaches(next, delegate, at, hops)
        invariant cursor == if at in next then Some(next[at]) else None
        invariant forall k: nat :: 1 <= k <= hops ==> !Reaches(next, delegate, delegator, k)
        decreases Depth(next, delegate) - hops
      {
        assert Reaches(next, next[at], next[at], 0);
        assert Reaches(next, at, next[at], 1);
        ReachesTrans(next, delegate, at, next[at], hops, 1);
        EndIsLast(next, delegate, next[at], Terminal(next, delegate), hops + 1, Depth(next, delegate));
        if cursor.value == delegator {
          return Failed(DelegationCyclePrevented);
        }
        if Reaches(next, delegate, delegator, hops + 1) {
          ReachesSplit(next, delegate, next[at], delegator, hops + 1, hops + 1);
          assert false;
        }
        if hops == U32_MAX {
          return Trapped;
        }
        hops := hops + 1;
        if hops > cap {
          return Failed(MaxDelegationDepthExceeded);
        }
        at := cursor.value;
        cursor := GetDelegate(cursor.value);
      }
      ChainIs(next, delegate, at, hops);
      forall k: nat | k > hops
        ensures !Reaches(next, delegate, delegator, k)
      {
        if Reaches(next, delegate, delegator, k) {
          EndIsLast(next, delegate, delegator, at, k, hops);
          assert false;
        }
      }
      r := Done;
    }

    /** Measures the chain an edge delegator -> delegate would complete and compares it with the cap. */
    method CheckDepth(delegator: Address, delegate: Address) returns (r: bool)
      requires Valid() && Depth(next, delegate) <= cap
      ensures r <==> FitsCap(next, delegator, delegate, cap)
    {
      BoundedWalk(next, delegate, cap);
      var downstream := ForwardDelegationDepth(delegate);
      var upstream := LongestInboundDepth(delegator);
      CapDecision(next, delegator, delegate, cap);
      r := Min(U32_MAX, Min(U32_MAX, upstream + 1) + downstream) <= cap;
    }

    method Relink(delegator: Address, delegate: Address, proven: int)
      modifies this
      ensures Contents() == Relinked(old(Contents()), delegator, delegate, proven)
    {
      var terminal := ResolveTerminal(delegate);
      var previous := GetDelegate(delegator);
      if previous.Some? {
        var oldTerminal := ResolveTerminal(previous.value);
        AdjustDelegatedToMe(oldTerminal, -proven);
        RemoveDelegatorFrom(previous.value, delegator);
      }
      assert (next - {delegator})[delegator := delegate] == next[delegator := delegate];
      next := next[delegator := delegate];
      AddDelegatorTo(delegate, delegator);
      AdjustDelegatedToMe(terminal, proven);
    }

    /** `proven` is the checkpoint-proven balance of the delegator, if there is one. */
    method DelegateVotes(delegator: Address, delegate: Address, proven: Option<int>) returns (r: Outcome)
      requires Valid()
      modifies this
      ensures Valid() && (Contents(), r) == Delegate(old(Contents()), delegator, delegate, proven)
    {
      DelegateKeepsValid(Contents(), delegator, delegate, proven);
      if delegator == delegate {
        return Failed(CannotDelegateToSelf);
      }
      if proven.None? {
        return Failed(InsufficientHoldingPeriod);
      }
      r := CheckNoCycle(delegator, delegate);
      if r != Done {
        return;
      }
      var fits := CheckDepth(delegator, delegate);
      if !fits {
        return Failed(MaxDelegationDepthExceeded);
      }
      Relink(delegator, delegate, proven.value);
    }

    /** `balance` is the live token balance of the delegator. */
    method UndelegateVotes(delegator: Address, balance: int)
      requires Valid()
      modifies this
      ensures Valid() && Contents() == Undelegate(old(Contents()), delegator, balance)
    {
      UndelegateKeepsValid(Contents(), delegator, balance);
      var old_ := GetDelegate(delegator);
      if old_.Some? {
        var oldTerminal := ResolveTerminal(old_.value);
        AdjustDelegatedToMe(oldTerminal, -balance);
        RemoveDelegatorFrom(old_.value, delegator);
        next := next - {delegator};
      }
    }
  }

  /** The clipped sum of the two measured depths decides FitsCap exactly. */
  lemma CapDecision(e: Edges, x: Address, y: Address, cap: nat)
    requires Acyclic(e) && Depth(e, y) <= cap <= U32_MAX
    ensures
      var up := Min(U32_MAX, LongestInbound(e, x));
      Min(U32_MAX, Min(U32_MAX, up + 1) + Depth(e, y)) <= cap <==> FitsCap(e, x, y, cap)
  {
    var n := LongestInbound(e, x);
    var a :| Reaches(e, a, x, n);
  }
}
