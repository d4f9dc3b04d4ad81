/** What an allocation pays to whom, told from the claims as they are submitted. */
module AllocationExact {
  import opened MachineInts
  import opened Sorting
  import opened ClaimAllocation
  import opened AllocationLaws

  // ----- who is served before whom -----

  /** FIFO serves the earlier claim first, the other strategies the larger premiums; then the earlier submission. */
  predicate Ahead(strategy: Strategy, claims: seq<Claim>, k: nat, m: nat)
    requires k < |claims| && m < |claims|
  {
    var c, d := claims[k], claims[m];
    if strategy == Fifo then c.timestamp < d.timestamp || (c.timestamp == d.timestamp && k < m)
    else c.premiums > d.premiums || (c.premiums == d.premiums && k < m)
  }

  /** The places of all claims, each once, in the order in which they are served. */
  ghost predicate Serves(strategy: Strategy, claims: seq<Claim>, places: seq<nat>) {
    && |places| == |claims| && multiset(places) == multiset(Range(|claims|)) && Within(places, |claims|)
    && forall i, j :: 0 <= i < j < |places| ==> Ahead(strategy, claims, places[i], places[j])
  }

  lemma QueueServes(claims: seq<Claim>, strategy: Strategy) returns (places: seq<nat>)
    ensures Serves(strategy, claims, places) && Queue(claims, strategy) == Pick(claims, places)
  {
    hide SortBy;
    places := SortOrder(claims, SortKey(strategy));
    var key := KeyAt(claims, SortKey(strategy));
    forall i, j | 0 <= i < j < |places|
      ensures Ahead(strategy, claims, places[i], places[j])
    {
      assert Before(key, places[i], places[j]);
    }
  }

  // ----- what one claim is paid -----

  /** `q` is `a` divided by `d`, rounded toward zero. */
  ghost predicate Quotient(a: int, d: int, q: int) {
    && Abs(q) * Abs(d) <= Abs(a) < (Abs(q) + 1) * Abs(d)
    && (q > 0 ==> ((a > 0) == (d > 0))) && (q < 0 ==> ((a > 0) != (d > 0)))
  }

  lemma NatQuotient(a: nat, d: int)
    requires d > 0
    ensures 0 <= a / d && (a / d) * d <= a < (a / d + 1) * d
    ensures a == 0 ==> a / d == 0
  {
    QuotientOfNat(a, d);
    assert a == (a / d) * d + a % d;
    assert (a / d + 1) * d == (a / d) * d + d;
    DivUnique(0, d, 0, 0);
  }

  lemma TruncDivIs(a: int, d: int)
    requires d != 0
    ensures Quotient(a, d, TruncDiv(a, d))
  {
    NatQuotient(Abs(a), Abs(d));
    SignedQuotient(a, d, Abs(a) / Abs(d), TruncDiv(a, d));
  }

  lemma SignedQuotient(a: int, d: int, n: int, q: int)
    requires d != 0 && n >= 0 && n * Abs(d) <= Abs(a) < (n + 1) * Abs(d) && (a == 0 ==> n == 0)
    requires q == if (a >= 0) == (d > 0) then n else -n
    ensures Quotient(a, d, q)
  {
    assert Abs(q) == n;
  }

  /** The premium share of `base`, clipped to 128 bits before the division. */
  ghost predicate IsShare(c: Claim, base: int, total: int, y: int) {
    if total <= 0 then y == 0 else Quotient(Saturate(base * c.premiums), total, y)
  }

  /** That share in relation 100 to 100 plus the default count. */
  ghost predicate IsWeighted(c: Claim, y: int, z: int) {
    Quotient(Saturate(y * 100), 100 + c.defaults, z)
  }

  /** `x` is what the claim is due out of `left`. */
  ghost predicate Due(c: Claim, strategy: Strategy, total: int, left: int, x: int) {
    var base := Min(c.cap, left);
    if base <= 0 then x == 0
    else
      match strategy
      case Fifo => x == base
      case ProRata => exists y :: IsShare(c, base, total, y) && x == Min(left, Max(y, 0))
      case RiskWeighted =>
        exists y, z :: IsShare(c, base, total, y) && IsWeighted(c, y, z) && x == Min(left, Max(Saturate(z), 0))
  }

  lemma PayIsDue(c: Claim, strategy: Strategy, total: int, left: int)
    requires I32_MIN <= c.defaults <= I32_MAX
    requires strategy == RiskWeighted && c.defaults == -100 ==> c.cap <= 0 || left <= 0
    ensures Due(c, strategy, total, left, Pay(c, strategy, total, left))
  {
    hide TruncDiv, Quotient, Saturate;
    var base := Min(c.cap, left);
    if base > 0 && strategy != Fifo {
      var y := ProRataShare(c, base, total);
      if total > 0 {
        TruncDivIs(SatMul(base, c.premiums), total);
      }
      assert IsShare(c, base, total, y);
      if strategy == RiskWeighted {
        FitsUnchanged(100 + c.defaults);
        var z := TruncDiv(SatMul(y, 100), 100 + c.defaults);
        TruncDivIs(SatMul(y, 100), 100 + c.defaults);
        assert IsWeighted(c, y, z);
      }
    }
  }

  // ----- the whole allocation -----

  /** The positive amounts, each with the provider of the claim served there. */
  function Entries(claims: seq<Claim>, places: seq<nat>, amounts: seq<nat>): seq<(nat, int)>
    requires |places| == |amounts| && forall i :: 0 <= i < |places| ==> places[i] < |claims|
  {
    if places == [] then []
    else
      (if amounts[0] > 0 then [(claims[places[0]].lp, amounts[0])] else [])
      + Entries(claims, places[1..], amounts[1..])
  }

  lemma {:induction false} ListedEntries(claims: seq<Claim>, places: seq<nat>, amounts: seq<nat>)
    requires |places| == |amounts| && Within(places, |claims|)
    ensures Listed(Pick(claims, places), amounts) == Entries(claims, places, amounts)
    decreases |places|
  {
    if places != [] {
      assert Pick(claims, places)[1..] == Pick(claims, places[1..]);
      ListedEntries(claims, places[1..], amounts[1..]);
    }
  }

  /**
   A successful allocation serves all claims in order; each gets what it is due out of what the ones
   before it left; and the positive amounts are listed with the providers of their claims.
   */
  lemma AllocationIs(claims: seq<Claim>, strategy: Strategy, pool: int)
    returns (places: seq<nat>, amounts: seq<nat>)
    requires Allocate(claims, strategy, pool).Allocated?
    requires forall c :: c in claims ==> I32_MIN <= c.defaults <= I32_MAX
    ensures Serves(strategy, claims, places) && |amounts| == |places|
    ensures Allocate(claims, strategy, pool).payouts == Entries(claims, places, amounts)
    ensures forall i :: 0 <= i < |places| ==>
              Due(claims[places[i]], strategy, PremiumSum(claims), pool - Total(amounts, i), amounts[i])
  {
    hide Payouts, PanicsOn, SumFits, PremiumSum, SortBy, Pay, Due, Listed, Entries;
    places := QueueServes(claims, strategy);
    var queue, total := Queue(claims, strategy), PremiumSum(claims);
    amounts := Payouts(queue, strategy, total, pool);
    ListedEntries(claims, places, amounts);
    PanicIff(queue, strategy, total, pool);
    forall i | 0 <= i < |places|
      ensures Due(claims[places[i]], strategy, total, pool - Total(amounts, i), amounts[i])
    {
      PayoutAt(queue, strategy, total, pool, i);
      assert queue[i] == claims[places[i]] && claims[places[i]] in claims;
      assert !PanicsAt(queue, strategy, total, pool, i);
      PayIsDue(queue[i], strategy, total, pool - Total(amounts, i));
    }
  }

  // ----- FIFO, claim by claim -----

  /** The non-negative caps of the first `n` claims that are served before the claim at `m`. */
  function CapsAhead(claims: seq<Claim>, m: nat, n: nat): nat
    requires m < |claims| && n <= |claims|
  {
    if n == 0 then 0
    else CapsAhead(claims, m, n - 1) + if Ahead(Fifo, claims, n - 1, m) then Max(claims[n - 1].cap, 0) else 0
  }

  function CapAhead(claims: seq<Claim>, m: nat): nat -> int
    requires m < |claims|
  {
    (k: nat) => if k < |claims| && Ahead(Fifo, claims, k, m) then Max(claims[k].cap, 0) else 0
  }

  lemma {:induction false} CapsAheadIs(claims: seq<Claim>, m: nat, n: nat)
    requires m < |claims| && n <= |claims|
    ensures SumOf(Range(n), CapAhead(claims, m)) == CapsAhead(claims, m, n)
  {
    if n > 0 {
      CapsAheadIs(claims, m, n - 1);
      assert Range(n)[..n - 1] == Range(n - 1);
    }
  }

  /** Up to place `i` those served are ahead of it, so their caps add up the same in the queue. */
  lemma {:induction false} QueueCaps(claims: seq<Claim>, places: seq<nat>, i: nat, n: nat)
    requires Serves(Fifo, claims, places) && n <= i < |places|
    ensures CapSum(Pick(claims, places), n) == SumOf(places[..n], CapAhead(claims, places[i]))
  {
    if n > 0 {
      QueueCaps(claims, places, i, n - 1);
      assert places[..n][..n - 1] == places[..n - 1];
      assert Ahead(Fifo, claims, places[n - 1], places[i]);
    }
  }

  /** From place `i` on nobody is ahead of it. */
  lemma {:induction false} NobodyAhead(claims: seq<Claim>, places: seq<nat>, i: nat, n: nat)
    requires Serves(Fifo, claims, places) && i < |places| && i <= n <= |places|
    ensures SumOf(places[i..n], CapAhead(claims, places[i])) == 0
    decreases n
  {
    if n > i {
      NobodyAhead(claims, places, i, n - 1);
      assert places[i..n][..n - 1 - i] == places[i..n - 1];
      assert n - 1 > i ==> Ahead(Fifo, claims, places[i], places[n - 1]);
    }
  }

  lemma CapsBefore(claims: seq<Claim>, places: seq<nat>, i: nat)
    requires Serves(Fifo, claims, places) && i < |places|
    ensures CapSum(Pick(claims, places), i) == CapsAhead(claims, places[i], |claims|)
  {
    hide CapSum, CapsAhead, SumOf, Serves;
    ServedOnce(claims, places);
    var f := CapAhead(claims, places[i]);
    QueueCaps(claims, places, i, i);
    NobodyAhead(claims, places, i, |places|);
    assert places == places[..i] + places[i..|places|];
    SumOfParts(places[..i], places[i..|places|], f);
    SumOfPermuted(places, Range(|claims|), f);
    CapsAheadIs(claims, places[i], |claims|);
  }

  lemma ServedOnce(claims: seq<Claim>, places: seq<nat>)
    requires Serves(Fifo, claims, places)
    ensures |places| == |claims| && multiset(places) == multiset(Range(|claims|)) && Within(places, |claims|)
  {
  }

  /**
   Under FIFO every claim gets the lesser of its cap and the pool less the caps of all submitted
   claims with an earlier time, or the same time and an earlier submission.
   */
  lemma FifoPaysByTime(claims: seq<Claim>, pool: int) returns (places: seq<nat>, amounts: seq<nat>)
    requires 0 <= pool && SumFits(claims)
    ensures Serves(Fifo, claims, places) && |amounts| == |places|
    ensures Allocate(claims, Fifo, pool) == Allocated(Entries(claims, places, amounts))
    ensures forall i :: 0 <= i < |places| ==>
              amounts[i] == Min(Max(claims[places[i]].cap, 0),
                                Max(0, pool - CapsAhead(claims, places[i], |claims|)))
  {
    hide Payouts, PanicsOn, SumFits, PremiumSum, SortBy, Pay, Listed, Entries, CapsAhead, CapSum;
    places := QueueServes(claims, Fifo);
    var queue, total := Queue(claims, Fifo), PremiumSum(claims);
    amounts := Payouts(queue, Fifo, total, pool);
    ListedEntries(claims, places, amounts);
    PanicIff(queue, Fifo, total, pool);
    forall i | 0 <= i < |places|
      ensures amounts[i] == Min(Max(claims[places[i]].cap, 0),
                                Max(0, pool - CapsAhead(claims, places[i], |claims|)))
    {
      FifoIsWaterfall(queue, total, pool, i);
      FifoFillsInOrder(queue, total, pool, i);
      CapsBefore(claims, places, i);
    }
  }
}
