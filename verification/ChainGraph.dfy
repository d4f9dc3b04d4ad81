/** Chains in a finite graph where every node has at most one outgoing edge. */
module ChainGraph {

  type Address = nat
  type Edges = map<Address, Address>

  /** `b` is reached from `a` by following exactly `n` edges. */
  ghost predicate Reaches(e: Edges, a: Address, b: Address, n: nat)
    decreases n
  {
    if n == 0 then a == b else a in e && Reaches(e, e[a], b, n - 1)
  }

  /** `x` lies on the chain from `a` (possibly `a == x`). */
  ghost predicate Through(e: Edges, a: Address, x: Address) {
    exists k: nat :: Reaches(e, a, x, k)
  }

  ghost predicate Acyclic(e: Edges) {
    forall a, n: nat :: n > 0 ==> !Reaches(e, a, a, n)
  }

  /** The walk from `a` that stops at a sink or after `n` edges. */
  function Walk(e: Edges, a: Address, n: nat): Address
    decreases n
  {
    if n == 0 || a !in e then a else Walk(e, e[a], n - 1)
  }

  /** The number of edges that walk follows. */
  function Hops(e: Edges, a: Address, n: nat): nat
    decreases n
  {
    if n == 0 || a !in e then 0 else 1 + Hops(e, e[a], n - 1)
  }

  /** The chain starting at `a` ends at the sink `b` after exactly `n` edges. */
  ghost predicate EndsAt(e: Edges, a: Address, b: Address, n: nat) {
    b !in e && Reaches(e, a, b, n)
  }

  /** Length and end of the chain from `a`: a walk of |e| edges exhausts an acyclic graph. */
  ghost function Depth(e: Edges, a: Address): nat {
    Hops(e, a, |e|)
  }

  ghost function Terminal(e: Edges, a: Address): Address {
    Walk(e, a, |e|)
  }

  // ----- composing and cutting chains -----

  lemma {:induction false} ReachesTrans(e: Edges, a: Address, b: Address, c: Address, m: nat, n: nat)
    requires Reaches(e, a, b, m) && Reaches(e, b, c, n)
    ensures Reaches(e, a, c, m + n)
    decreases m
  {
    if m > 0 {
      ReachesTrans(e, e[a], b, c, m - 1, n);
    }
  }

  /** Two nodes on one chain are ordered along it. */
  lemma {:induction false} ReachesSplit(e: Edges, a: Address, b: Address, c: Address, m: nat, n: nat)
    requires Reaches(e, a, b, m) && Reaches(e, a, c, n) && m <= n
    ensures Reaches(e, b, c, n - m)
    decreases m
  {
    if m > 0 {
      ReachesSplit(e, e[a], b, c, m - 1, n - 1);
    }
  }

  lemma EndIsLast(e: Edges, a: Address, b: Address, t: Address, m: nat, n: nat)
    requires Reaches(e, a, b, m) && EndsAt(e, a, t, n)
    ensures m <= n && EndsAt(e, b, t, n - m)
  {
    if m > n {
      ReachesSplit(e, a, t, b, n, m);
      assert false;
    }
    ReachesSplit(e, a, b, t, m, n);
  }

  lemma EndIsUnique(e: Edges, a: Address, t: Address, u: Address, m: nat, n: nat)
    requires EndsAt(e, a, t, m) && EndsAt(e, a, u, n)
    ensures m == n && t == u
  {
    EndIsLast(e, a, t, u, m, n);
    EndIsLast(e, a, u, t, n, m);
  }

  // ----- acyclicity is the existence of an end for every chain -----

  lemma {:induction false} WalkReaches(e: Edges, a: Address, n: nat)
    ensures Reaches(e, a, Walk(e, a, n), Hops(e, a, n))
    ensures Hops(e, a, n) <= n
    ensures Walk(e, a, n) in e ==> Hops(e, a, n) == n
    decreases n
  {
    if n > 0 && a in e {
      WalkReaches(e, e[a], n - 1);
    }
  }

  /** An acyclic chain of `n` edges leaves `n` different nodes. */
  lemma {:induction false} ChainFitsGraph(e: Edges, a: Address, b: Address, n: nat)
    requires Acyclic(e) && Reaches(e, a, b, n)
    ensures n <= |e|
  {
    var seen := Sources(e, a, b, n);
    assert |seen| <= |e.Keys| by {
      SubsetSize(seen, e.Keys);
    }
  }

  lemma SubsetSize(s: set<Address>, t: set<Address>)
    requires s <= t
    ensures |s| <= |t|
  {
    assert t == s + (t - s);
  }

  lemma {:induction false} Sources(e: Edges, a: Address, b: Address, n: nat) returns (seen: set<Address>)
    requires Acyclic(e) && Reaches(e, a, b, n)
    ensures |seen| == n && seen <= e.Keys
    ensures forall c :: c in seen ==> Through(e, a, c)
    decreases n
  {
    if n == 0 {
      seen := {};
    } else {
      var rest := Sources(e, e[a], b, n - 1);
      if a in rest {
        var k: nat :| Reaches(e, e[a], a, k);
        assert Reaches(e, a, a, k + 1);
        assert false;
      }
      seen := rest + {a};
      assert Reaches(e, a, a, 0);
      forall c | c in rest
        ensures Through(e, a, c)
      {
        var k: nat :| Reaches(e, e[a], c, k);
        assert Reaches(e, a, c, k + 1);
      }
    }
  }

  /** In an acyclic graph every chain ends, at Terminal and after Depth edges. */
  lemma ChainEnds(e: Edges, a: Address)
    requires Acyclic(e)
    ensures EndsAt(e, a, Terminal(e, a), Depth(e, a))
  {
    WalkReaches(e, a, |e|);
    var t := Terminal(e, a);
    if t in e {
      assert Reaches(e, e[t], e[t], 0);
      assert Reaches(e, t, e[t], 1);
      ReachesTrans(e, a, t, e[t], |e|, 1);
      ChainFitsGraph(e, a, e[t], |e| + 1);
      assert false;
    }
  }

  lemma ChainIs(e: Edges, a: Address, t: Address, n: nat)
    requires Acyclic(e) && EndsAt(e, a, t, n)
    ensures Depth(e, a) == n && Terminal(e, a) == t
  {
    ChainEnds(e, a);
    EndIsUnique(e, a, t, Terminal(e, a), n, Depth(e, a));
  }

  ghost predicate Ends(e: Edges, a: Address) {
    exists t, n: nat :: EndsAt(e, a, t, n)
  }

  ghost predicate EveryChainEnds(e: Edges) {
    forall a :: Ends(e, a)
  }

  lemma AcyclicIffEveryChainEnds(e: Edges)
    ensures Acyclic(e) <==> EveryChainEnds(e)
  {
    if Acyclic(e) {
      forall a
        ensures Ends(e, a)
      {
        ChainEnds(e, a);
      }
    }
    if EveryChainEnds(e) {
      forall a, n: nat | n > 0
        ensures !Reaches(e, a, a, n)
      {
        assert Ends(e, a);
        var t, m: nat :| EndsAt(e, a, t, m);
        if Reaches(e, a, a, n) {
          EndIsLast(e, a, a, t, n, m);
          EndIsUnique(e, a, t, t, m, m - n);
          assert false;
        }
      }
    }
  }

  /** A walk bounded by `n` finds the end exactly when the chain is not longer than `n`. */
  lemma BoundedWalk(e: Edges, a: Address, n: nat)
    requires Acyclic(e)
    ensures Walk(e, a, n) !in e <==> Depth(e, a) <= n
    ensures Depth(e, a) <= n ==> Walk(e, a, n) == Terminal(e, a) && Hops(e, a, n) == Depth(e, a)
    ensures Depth(e, a) > n ==> Hops(e, a, n) == n && Walk(e, a, n) != Terminal(e, a)
  {
    WalkReaches(e, a, n);
    ChainEnds(e, a);
    EndIsLast(e, a, Walk(e, a, n), Terminal(e, a), Hops(e, a, n), Depth(e, a));
    if Walk(e, a, n) !in e {
      ChainIs(e, a, Walk(e, a, n), Hops(e, a, n));
    }
  }

  lemma DepthStep(e: Edges, a: Address)
    requires Acyclic(e)
    ensures a !in e ==> Depth(e, a) == 0 && Terminal(e, a) == a
    ensures a in e ==> Depth(e, a) == 1 + Depth(e, e[a]) && Terminal(e, a) == Terminal(e, e[a])
  {
    if a in e {
      ChainEnds(e, e[a]);
      ChainIs(e, a, Terminal(e, e[a]), 1 + Depth(e, e[a]));
    } else {
      ChainIs(e, a, a, 0);
    }
  }

  // ----- adding, replacing and removing one edge -----

  lemma {:induction false} KeepsPrefix(e: Edges, e': Edges, a: Address, x: Address, k: nat)
    requires Acyclic(e) && Reaches(e, a, x, k)
    requires forall b :: b != x ==> (b in e <==> b in e') && (b in e ==> e[b] == e'[b])
    ensures Reaches(e', a, x, k)
    decreases k
  {
    if k > 0 {
      assert a != x;
      KeepsPrefix(e, e', e[a], x, k - 1);
    }
  }

  lemma {:induction false} KeepsOther(e: Edges, e': Edges, a: Address, b: Address, x: Address, n: nat)
    requires !Through(e, a, x) && Reaches(e, a, b, n)
    requires forall c :: c != x ==> (c in e <==> c in e') && (c in e ==> e[c] == e'[c])
    ensures Reaches(e', a, b, n) && b != x
    decreases n
  {
    assert Reaches(e, a, a, 0);
    if n > 0 {
      forall k: nat
        ensures !Reaches(e, e[a], x, k)
      {
        if Reaches(e, e[a], x, k) {
          assert Reaches(e, a, x, k + 1);
        }
      }
      KeepsOther(e, e', e[a], b, x, n - 1);
    }
  }

  /** Pointing `x` at `y`, where `x` is not on the chain of `y`, splices the two chains. */
  lemma LinkKeepsAcyclic(e: Edges, x: Address, y: Address)
    requires Acyclic(e) && !Through(e, y, x)
    ensures Acyclic(e[x := y])
    ensures forall a, k: nat :: Reaches(e, a, x, k) ==>
              Depth(e[x := y], a) == k + 1 + Depth(e, y) && Terminal(e[x := y], a) == Terminal(e, y)
    ensures forall a :: !Through(e, a, x) ==>
              Depth(e[x := y], a) == Depth(e, a) && Terminal(e[x := y], a) == Terminal(e, a)
  {
    var e' := e[x := y];
    forall a
      ensures Ends(e', a)
    {
      if Through(e, a, x) {
        var k: nat :| Reaches(e, a, x, k);
        LinkEnd(e, x, y, a, k);
      } else {
        UntouchedEnd(e, e', x, a);
      }
    }
    AcyclicIffEveryChainEnds(e');
    forall a, k: nat | Reaches(e, a, x, k)
      ensures Depth(e', a) == k + 1 + Depth(e, y) && Terminal(e', a) == Terminal(e, y)
    {
      LinkEnd(e, x, y, a, k);
      ChainIs(e', a, Terminal(e, y), k + 1 + Depth(e, y));
    }
    forall a | !Through(e, a, x)
      ensures Depth(e', a) == Depth(e, a) && Terminal(e', a) == Terminal(e, a)
    {
      UntouchedEnd(e, e', x, a);
      ChainIs(e', a, Terminal(e, a), Depth(e, a));
    }
  }

  lemma LinkEnd(e: Edges, x: Address, y: Address, a: Address, k: nat)
    requires Acyclic(e) && !Through(e, y, x) && Reaches(e, a, x, k)
    ensures EndsAt(e[x := y], a, Terminal(e, y), k + 1 + Depth(e, y))
  {
    var e' := e[x := y];
    UntouchedEnd(e, e', x, y);
    assert Reaches(e', x, Terminal(e, y), 1 + Depth(e, y));
    KeepsPrefix(e, e', a, x, k);
    ReachesTrans(e', a, x, Terminal(e, y), k, 1 + Depth(e, y));
  }

  lemma UntouchedEnd(e: Edges, e': Edges, x: Address, a: Address)
    requires Acyclic(e) && !Through(e, a, x)
    requires forall c :: c != x ==> (c in e <==> c in e') && (c in e ==> e[c] == e'[c])
    ensures EndsAt(e', a, Terminal(e, a), Depth(e, a))
  {
    ChainEnds(e, a);
    KeepsOther(e, e', a, Terminal(e, a), x, Depth(e, a));
  }

  /** Removing the edge out of `x` makes `x` the end of every chain through it. */
  lemma CutKeepsAcyclic(e: Edges, x: Address)
    requires Acyclic(e)
    ensures Acyclic(e - {x})
    ensures forall a, k: nat :: Reaches(e, a, x, k) ==>
              Depth(e - {x}, a) == k && Terminal(e - {x}, a) == x
    ensures forall a :: !Through(e, a, x) ==>
              Depth(e - {x}, a) == Depth(e, a) && Terminal(e - {x}, a) == Terminal(e, a)
  {
    var e' := e - {x};
    forall a
      ensures Ends(e', a)
    {
      if Through(e, a, x) {
        var k: nat :| Reaches(e, a, x, k);
        KeepsPrefix(e, e', a, x, k);
        assert EndsAt(e', a, x, k);
      } else {
        UntouchedEnd(e, e', x, a);
      }
    }
    AcyclicIffEveryChainEnds(e');
    forall a, k: nat | Reaches(e, a, x, k)
      ensures Depth(e', a) == k && Terminal(e', a) == x
    {
      KeepsPrefix(e, e', a, x, k);
      ChainIs(e', a, x, k);
    }
    forall a | !Through(e, a, x)
      ensures Depth(e', a) == Depth(e, a) && Terminal(e', a) == Terminal(e, a)
    {
      UntouchedEnd(e, e', x, a);
      ChainIs(e', a, Terminal(e, a), Depth(e, a));
    }
  }

  lemma LinkTerminal(e: Edges, x: Address, y: Address, a: Address)
    requires Acyclic(e) && !Through(e, y, x)
    ensures Terminal(e[x := y], a) == if Through(e, a, x) then Terminal(e, y) else Terminal(e, a)
  {
    LinkKeepsAcyclic(e, x, y);
    if Through(e, a, x) {
      var k: nat :| Reaches(e, a, x, k);
    }
  }

  lemma CutTerminal(e: Edges, x: Address, a: Address)
    requires Acyclic(e)
    ensures Terminal(e - {x}, a) == if Through(e, a, x) then x else Terminal(e, a)
  {
    CutKeepsAcyclic(e, x);
    if Through(e, a, x) {
      var k: nat :| Reaches(e, a, x, k);
    }
  }

  lemma ThroughSameEnd(e: Edges, a: Address, x: Address, k: nat)
    requires Acyclic(e) && Reaches(e, a, x, k)
    ensures Terminal(e, a) == Terminal(e, x) && Depth(e, a) == k + Depth(e, x)
  {
    ChainEnds(e, x);
    ReachesTrans(e, a, x, Terminal(e, x), k, Depth(e, x));
    ChainIs(e, a, Terminal(e, x), k + Depth(e, x));
  }

  // ----- the longest chain into a node -----

  ghost predicate IsLongestInbound(e: Edges, x: Address, n: nat) {
    && (exists a :: Reaches(e, a, x, n))
    && (forall a, m: nat :: Reaches(e, a, x, m) ==> m <= n)
  }

  lemma LongestInboundExists(e: Edges, x: Address)
    requires Acyclic(e)
    ensures exists n: nat :: IsLongestInbound(e, x, n)
  {
    assert Reaches(e, x, x, 0);
    var n: nat := 0;
    while n < |e| && exists a, m: nat :: m > n && Reaches(e, a, x, m)
      invariant n <= |e|
      invariant exists a :: Reaches(e, a, x, n)
    {
      var a, m: nat :| m > n && Reaches(e, a, x, m);
      ChainFitsGraph(e, a, x, m);
      n := m;
    }
    forall a, m: nat | Reaches(e, a, x, m)
      ensures m <= n
    {
      ChainFitsGraph(e, a, x, m);
    }
    assert IsLongestInbound(e, x, n);
  }

  /** Length of the longest chain that ends with `x`. */
  ghost function LongestInbound(e: Edges, x: Address): (n: nat)
    requires Acyclic(e)
    ensures IsLongestInbound(e, x, n)
  {
    LongestInboundExists(e, x);
    var n: nat :| IsLongestInbound(e, x, n);
    n
  }

  /** The recursive reading: one more than the best predecessor, or 0 without one. */
  lemma LongestInboundRecursive(e: Edges, x: Address)
    requires Acyclic(e)
    ensures forall p :: p in e && e[p] == x ==> LongestInbound(e, p) + 1 <= LongestInbound(e, x)
    ensures LongestInbound(e, x) > 0 ==>
              exists p :: p in e && e[p] == x && LongestInbound(e, x) == LongestInbound(e, p) + 1
  {
    var n := LongestInbound(e, x);
    forall p | p in e && e[p] == x
      ensures LongestInbound(e, p) + 1 <= n
    {
      var m := LongestInbound(e, p);
      var a :| Reaches(e, a, p, m);
      assert Reaches(e, x, x, 0);
      assert Reaches(e, p, x, 1);
      ReachesTrans(e, a, p, x, m, 1);
    }
    if n > 0 {
      var a :| Reaches(e, a, x, n);
      var p := LastHop(e, a, x, n);
      assert LongestInbound(e, p) + 1 <= n;
      assert n - 1 <= LongestInbound(e, p);
    }
  }

  lemma {:induction false} LastHop(e: Edges, a: Address, x: Address, n: nat) returns (p: Address)
    requires n > 0 && Reaches(e, a, x, n)
    ensures Reaches(e, a, p, n - 1) && p in e && e[p] == x
    decreases n
  {
    if n == 1 {
      p := a;
    } else {
      p := LastHop(e, e[a], x, n - 1);
    }
  }
}
