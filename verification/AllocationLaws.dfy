/** What the allocation promises, claim by claim, and how two allocations compare. */
module AllocationLaws {
  import opened MachineInts
  import opened Sorting
  import opened ClaimAllocation

  // ----- conservation -----

  /** What the first `k` claims of the queue receive together. */
  function Total(payouts: seq<nat>, k: nat): nat
    requires k <= |payouts|
  {
    if k == 0 then 0 else Total(payouts, k - 1) + payouts[k - 1]
  }

  lemma {:induction false} TotalOfTail(payouts: seq<nat>, k: nat)
    requires 0 < k <= |payouts|
    ensures Total(payouts, k) == payouts[0] + Total(payouts[1..], k - 1)
  {
    if k > 1 {
      TotalOfTail(payouts, k - 1);
    }
  }

  /** For every strategy and any input, no prefix of the queue is paid more than the pool. */
  lemma {:induction false} NeverOverspends(claims: seq<Claim>, strategy: Strategy, total: int, pool: nat, k: nat)
    requires k <= |claims|
    ensures Total(Payouts(claims, strategy, total, pool), k) <= pool
    decreases k
  {
    hide Pay;
    if k > 0 {
      var ps := Payouts(claims, strategy, total, pool);
      TotalOfTail(ps, k);
      NeverOverspends(claims[1..], strategy, total, pool - ps[0], k - 1);
    }
  }

  /** The entries handed back add up to the payouts. */
  function ListedSum(entries: seq<(nat, int)>): int {
    if entries == [] then 0 else entries[0].1 + ListedSum(entries[1..])
  }

  lemma {:induction false} ListedSumOf(claims: seq<Claim>, payouts: seq<nat>)
    requires |claims| == |payouts|
    ensures ListedSum(Listed(claims, payouts)) == Total(payouts, |payouts|)
    ensures forall e :: e in Listed(claims, payouts) ==> e.1 > 0
  {
    if claims != [] {
      ListedSumOf(claims[1..], payouts[1..]);
      TotalOfTail(payouts, |payouts|);
      var rest := Listed(claims[1..], payouts[1..]);
      if payouts[0] > 0 {
        assert ([(claims[0].lp, payouts[0] as int)] + rest)[1..] == rest;
      } else {
        assert Listed(claims, payouts) == rest;
      }
    }
  }

  /** A successful allocation lists positive amounts only, and together at most the pool. */
  lemma AllocationIsCovered(claims: seq<Claim>, strategy: Strategy, pool: int)
    requires Allocate(claims, strategy, pool).Allocated?
    ensures
      var entries := Allocate(claims, strategy, pool).payouts;
      ListedSum(entries) <= pool && forall e :: e in entries ==> e.1 > 0
  {
    hide Payouts, Listed, PanicsOn, SumFits;
    var queue, total := Queue(claims, strategy), PremiumSum(claims);
    var ps := Payouts(queue, strategy, total, pool);
    NeverOverspends(queue, strategy, total, pool, |queue|);
    ListedSumOf(queue, ps);
  }

  const I32_MAX: int := 0x7FFF_FFFF
  const I32_MIN: int := -I32_MAX - 1

  // ----- rounding -----

  lemma DivUnique(a: int, d: int, q: int, r: int)
    requires d > 0 && a == q * d + r && 0 <= r < d
    ensures a / d == q
  {
    var q0, r0 := a / d, a % d;
    assert a == d * q0 + r0;
    assert (q - q0) * d == r0 - r && (q0 - q) * d == r - r0;
    if q > q0 {
      MulUp(1, q - q0, d);
    } else if q < q0 {
      MulUp(1, q0 - q, d);
    }
  }

  lemma DivShift(a: int, k: int, d: int)
    requires d > 0
    ensures (a + k * d) / d == a / d + k
  {
    var q, r := a / d, a % d;
    assert a == d * q + r;
    assert (q + k) * d == d * q + k * d;
    DivUnique(a + k * d, d, q + k, r);
  }

  lemma DivMono(a: int, b: int, d: int)
    requires d > 0 && a <= b
    ensures a / d <= b / d
  {
    var q, q' := a / d, b / d;
    assert a == d * q + a % d && b == d * q' + b % d;
    assert (q - q') * d == d * q - d * q';
    if q' < q {
      MulUp(1, q - q', d);
    }
  }

  lemma DivStep(a: int, b: int, k: int, d: int)
    requires d > 0 && a <= b <= a + k * d
    ensures a / d <= b / d <= a / d + k
  {
    DivMono(a, b, d);
    DivMono(b, a + k * d, d);
    DivShift(a, k, d);
  }

  lemma MulUp(a: int, b: int, c: int)
    requires a <= b && c >= 0
    ensures a * c <= b * c
  {
    assert (b - a) * c >= 0;
  }

  /** The benign inputs: premiums and default counts as the pool records them. */
  predicate BenignClaim(c: Claim, total: int) {
    0 <= c.premiums <= total <= I128_MAX && 0 <= c.defaults <= I32_MAX
  }

  lemma ProRataLipschitz(c: Claim, b: int, b': int, total: int)
    requires BenignClaim(c, total) && 0 < b <= b' <= I128_MAX
    ensures 0 <= ProRataShare(c, b, total) <= ProRataShare(c, b', total) <= ProRataShare(c, b, total) + (b' - b)
    ensures ProRataShare(c, b, total) <= b
    ensures total > 0 ==> ProRataShare(c, b, total) <= b * c.premiums / total
  {
    if total > 0 {
      var p := c.premiums;
      MulUp(b, b', p);
      MulUp(0, b, p);
      MulUp(p, total, b' - b);
      MulUp(p, total, b);
      var n, n' := Min(I128_MAX, b * p), Min(I128_MAX, b' * p);
      assert b' * p == b * p + (b' - b) * p;
      DivStep(n, n', b' - b, total);
      DivStep(0, n, b, total);
      DivMono(n, b * p, total);
      assert SatMul(b, p) == n && SatMul(b', p) == n';
    }
  }

  lemma RiskStep(x: int, x': int, d: int, defaults: int)
    requires 0 <= x <= x' <= x + d && x' <= I128_MAX && 0 <= defaults <= I32_MAX
    ensures
      var w, w' := Min(I128_MAX, x * 100) / (100 + defaults), Min(I128_MAX, x' * 100) / (100 + defaults);
      0 <= w <= w' <= w + d && w <= x
  {
    var m, m', q := Min(I128_MAX, x * 100), Min(I128_MAX, x' * 100), 100 + defaults;
    MulUp(100, q, d);
    MulUp(100, q, x);
    DivStep(m, m', d, q);
    DivStep(0, m, x, q);
  }

  lemma ShareLipschitz(c: Claim, strategy: Strategy, b: int, b': int, total: int)
    requires BenignClaim(c, total) && 0 < b <= b' <= I128_MAX
    ensures 0 <= Share(c, strategy, b, total) <= Share(c, strategy, b', total)
    ensures Share(c, strategy, b', total) <= Share(c, strategy, b, total) + (b' - b)
    ensures Share(c, strategy, b, total) <= b
    ensures strategy != Fifo ==> Share(c, strategy, b, total) <= ProRataShare(c, b, total)
  {
    hide ProRataShare;
    ProRataLipschitz(c, b, b', total);
    if strategy == RiskWeighted {
      var x, x' := ProRataShare(c, b, total), ProRataShare(c, b', total);
      ProRataLipschitz(c, b', b', total);
      RiskStep(x, x', b' - b, c.defaults);
      RiskAsDivision(c, b, total);
      RiskAsDivision(c, b', total);
    }
  }

  lemma RiskAsDivision(c: Claim, b: int, total: int)
    requires 0 <= ProRataShare(c, b, total) <= I128_MAX && 0 <= c.defaults <= I32_MAX
    ensures RiskWeightedShare(c, b, total) == Min(I128_MAX, ProRataShare(c, b, total) * 100) / (100 + c.defaults)
  {
    hide ProRataShare;
    var x := ProRataShare(c, b, total);
    var m, q := Min(I128_MAX, x * 100), 100 + c.defaults;
    assert SatMul(x, 100) == m && SatAdd(100, c.defaults) == q;
    MulUp(100, q, x);
    DivStep(0, m, x, q);
  }

  // ----- one claim against two balances, or two strategies -----

  /** More money left never pays a claim less, and never leaves less behind it. */
  lemma PayMonotone(c: Claim, strategy: Strategy, total: int, r: int, r': int)
    requires BenignClaim(c, total) && 0 <= r <= r' <= I128_MAX
    ensures Pay(c, strategy, total, r) <= Pay(c, strategy, total, r')
    ensures r - Pay(c, strategy, total, r) <= r' - Pay(c, strategy, total, r')
  {
    hide Share;
    var b, b' := Min(c.cap, r), Min(c.cap, r');
    if b > 0 {
      ShareLipschitz(c, strategy, b, b', total);
      ShareLipschitz(c, strategy, b', b', total);
    } else if b' > 0 {
      ShareLipschitz(c, strategy, b', b', total);
    }
  }

  lemma PayBounds(c: Claim, strategy: Strategy, total: int, r: int)
    requires BenignClaim(c, total) && 0 <= r <= I128_MAX
    ensures Pay(c, strategy, total, r) <= Max(c.cap, 0)
    ensures strategy != Fifo ==> Pay(c, strategy, total, r) <= Pay(c, ProRata, total, r)
    ensures strategy != Fifo && total > 0 ==> Pay(c, strategy, total, r) <= r * c.premiums / total
    ensures strategy != Fifo && total == 0 ==> Pay(c, strategy, total, r) == 0
  {
    hide ProRataShare;
    var b := Min(c.cap, r);
    if b > 0 {
      ShareLipschitz(c, strategy, b, b, total);
      ProRataLipschitz(c, b, b, total);
      if strategy != Fifo && total > 0 {
        MulUp(b, r, c.premiums);
        MulUp(0, b, c.premiums);
        DivMono(b * c.premiums, r * c.premiums, total);
      } else {
        NoPremiums(c, b);
      }
    } else if total > 0 {
      MulUp(0, r, c.premiums);
      DivMono(0, r * c.premiums, total);
    }
  }

  lemma NoPremiums(c: Claim, b: int)
    ensures ProRataShare(c, b, 0) == 0
  {
  }

  // ----- the cap, for every input -----

  /** With a negative default count, a sole claimant is paid twice its cap, or twice the pool before the clamp. */
  lemma NegativeDefaultsExceedCap()
    ensures Pay(Claim(1, 1, 0, 1, -50, 100), RiskWeighted, 1, 1_000) == 200
    ensures Payout(Claim(1, 1, 0, 1, -50, 1_000), RiskWeighted, 1, 100) == 200
  {
  }

  /**
   Tells from the claim, without dividing, whether its share of `base` is within `base`. The divisor
   of the risk weighting may be negative.
   */
  predicate ShareHolds(c: Claim, strategy: Strategy, base: int, total: int) {
    || base <= 0 || base == I128_MAX
    || match strategy
       case ProRata => total <= 0 || SatMul(base, c.premiums) < (base + 1) * total
       case RiskWeighted =>
         var weighed, divisor := SatMul(ProRataShare(c, base, total), 100), 100 + c.defaults;
         (if divisor >= 0 then weighed else -weighed) < (base + 1) * Abs(divisor)
       case Fifo => true
  }

  /** The claim has a divisor; a default count of -100 makes the risk weighting panic. */
  predicate Divides(c: Claim, strategy: Strategy) {
    I32_MIN <= c.defaults <= I32_MAX && (strategy == RiskWeighted ==> c.defaults != -100)
  }

  lemma ShareDecides(c: Claim, strategy: Strategy, base: int, total: int)
    requires 0 < base < I128_MAX && Divides(c, strategy)
    ensures Share(c, strategy, base, total) <= base <==> ShareHolds(c, strategy, base, total)
  {
    hide SatMul, TruncDiv;
    if strategy == RiskWeighted {
      RiskDecides(c, base, total);
    } else if strategy == ProRata && total > 0 {
      TruncAtMost(SatMul(base, c.premiums), total, base);
    }
  }

  lemma RiskDecides(c: Claim, base: int, total: int)
    requires 0 < base < I128_MAX && Divides(c, RiskWeighted)
    ensures RiskWeightedShare(c, base, total) <= base <==> ShareHolds(c, RiskWeighted, base, total)
  {
    hide ProRataShare, SatMul, TruncDiv;
    var m, q := SatMul(ProRataShare(c, base, total), 100), 100 + c.defaults;
    FitsUnchanged(q);
    TruncAtMost(m, q, base);
  }

  lemma ShareFits(c: Claim, strategy: Strategy, base: int, total: int)
    requires base <= I128_MAX
    ensures Share(c, strategy, base, total) <= I128_MAX
  {
    hide TruncDiv, SatMul;
    if strategy == ProRata && total > 0 {
      SmallerQuotient(SatMul(base, c.premiums), total);
      Saturated(base, c.premiums);
    }
  }

  lemma Saturated(a: int, b: int)
    ensures FitsI128(SatMul(a, b))
  {
    hide Abs;
  }

  lemma SmallerQuotient(a: int, d: int)
    requires d > 0
    ensures TruncDiv(a, d) <= Max(a, 0)
  {
    QuotientOfNat(Abs(a), d);
    MulUp(1, d, Abs(a) + 1);
    DivAtMost(Abs(a), d, Abs(a));
  }

  /**
   The calculation returns at most the lesser of cap and pool if and only if ShareHolds. Nothing is
   assumed of premiums, total or default count, except that a divisor of 0 panics.
   */
  lemma PayoutWithinIff(c: Claim, strategy: Strategy, total: int, pool: int)
    requires FitsI128(c.cap) && 0 <= pool <= I128_MAX && Divides(c, strategy)
    ensures Payout(c, strategy, total, pool) <= Max(Min(c.cap, pool), 0) <==>
            ShareHolds(c, strategy, Min(c.cap, pool), total)
  {
    hide Share, ShareHolds;
    var base := Min(c.cap, pool);
    if 0 < base < I128_MAX {
      ShareDecides(c, strategy, base, total);
    } else {
      NothingToBreak(c, strategy, base, total);
      ShareFits(c, strategy, base, total);
    }
  }

  lemma NothingToBreak(c: Claim, strategy: Strategy, base: int, total: int)
    requires base <= 0 || base == I128_MAX
    ensures ShareHolds(c, strategy, base, total)
  {
  }

  /** Out of what is left, a claim is paid at most its cap if and only if ShareHolds or no more is left. */
  lemma PaidWithinCapIff(c: Claim, strategy: Strategy, total: int, left: int)
    requires FitsI128(c.cap) && 0 <= left <= I128_MAX && Divides(c, strategy)
    ensures Pay(c, strategy, total, left) <= Max(c.cap, 0) <==>
            ShareHolds(c, strategy, c.cap, total) || left <= Max(c.cap, 0)
  {
    hide Share, ShareHolds;
    if 0 < c.cap < left {
      ShareDecides(c, strategy, c.cap, total);
    } else if c.cap <= 0 {
      NothingToBreak(c, strategy, c.cap, total);
    }
  }

  /** So it stays within its cap for every pool if and only if ShareHolds at the cap. */
  lemma WithinCapIff(c: Claim, strategy: Strategy, total: int)
    requires FitsI128(c.cap) && Divides(c, strategy)
    ensures (forall pool :: 0 <= pool <= I128_MAX ==> Pay(c, strategy, total, pool) <= Max(c.cap, 0)) <==>
            ShareHolds(c, strategy, c.cap, total)
  {
    hide Pay, ShareHolds;
    forall pool | 0 <= pool <= I128_MAX
      ensures ShareHolds(c, strategy, c.cap, total) ==> Pay(c, strategy, total, pool) <= Max(c.cap, 0)
    {
      PaidWithinCapIff(c, strategy, total, pool);
    }
    assert ShareHolds(c, strategy, c.cap, total) ==> Pay(c, strategy, total, I128_MAX) <= Max(c.cap, 0);
    PaidWithinCapIff(c, strategy, total, I128_MAX);
    if c.cap == I128_MAX {
      NothingToBreak(c, strategy, c.cap, total);
    }
  }

  lemma TruncAtMost(a: int, d: int, k: int)
    requires d != 0 && k > 0
    ensures TruncDiv(a, d) <= k <==> (if d >= 0 then a else -a) < (k + 1) * Abs(d)
  {
    var top := if d >= 0 then a else -a;
    MulUp(0, k + 1, Abs(d));
    if top >= 0 {
      DivAtMost(top, Abs(d), k);
    } else {
      DivMono(0, Abs(a), Abs(d));
    }
  }

  /** For recorded premiums, a count below -100 pays nothing; it divides by a negative number. */
  lemma BelowMinusHundredPaysNothing(c: Claim, total: int, pool: int)
    requires 0 <= c.premiums <= total <= I128_MAX && I32_MIN <= c.defaults < -100 && 0 <= pool <= I128_MAX
    ensures Pay(c, RiskWeighted, total, pool) == 0
  {
    hide ProRataShare, TruncDiv;
    var b := Min(c.cap, pool);
    if b > 0 {
      ProRataLipschitz(c.(defaults := 0), b, b, total);
      var x := ProRataShare(c, b, total);
      SameShare(c, b, total);
      var m := Min(I128_MAX, x * 100);
      assert SatMul(x, 100) == m && SatAdd(100, c.defaults) == 100 + c.defaults;
      NegativeDivisor(m, 100 + c.defaults);
    }
  }

  lemma SameShare(c: Claim, b: int, total: int)
    ensures ProRataShare(c.(defaults := 0), b, total) == ProRataShare(c, b, total)
  {
  }

  lemma NegativeDivisor(a: int, d: int)
    requires a >= 0 && d < 0
    ensures TruncDiv(a, d) <= 0
  {
    QuotientOfNat(a, -d);
    assert TruncDiv(a, d) == -(a / -d);
  }

  lemma QuotientOfNat(a: nat, d: int)
    requires d > 0
    ensures a / d >= 0
  {
    DivUnique(0, d, 0, 0);
    DivMono(0, a, d);
  }

  /** The claim at `i` divides by zero with what the earlier ones leave. */
  ghost predicate PanicsAt(claims: seq<Claim>, strategy: Strategy, total: int, pool: int, i: nat) {
    && i < |claims| && strategy == RiskWeighted && claims[i].defaults == -100 && claims[i].cap > 0
    && pool - Total(Payouts(claims, strategy, total, pool), i) > 0
  }

  lemma PanicsInTail(claims: seq<Claim>, strategy: Strategy, total: int, pool: int, i: nat)
    requires 0 < i < |claims|
    ensures PanicsAt(claims, strategy, total, pool, i) <==>
              PanicsAt(claims[1..], strategy, total, pool - Pay(claims[0], strategy, total, pool), i - 1)
  {
    hide Pay;
    var ps := Payouts(claims, strategy, total, pool);
    assert ps[1..] == Payouts(claims[1..], strategy, total, pool - ps[0]);
    TotalOfTail(ps, i);
  }

  /** A run panics if and only if it reaches a claim whose count is -100 with a cap and money left. */
  lemma {:induction false} PanicIff(claims: seq<Claim>, strategy: Strategy, total: int, pool: int)
    ensures PanicsOn(claims, strategy, total, pool) <==> exists i: nat :: PanicsAt(claims, strategy, total, pool, i)
  {
    hide Pay;
    if claims != [] {
      var left := pool - Pay(claims[0], strategy, total, pool);
      PanicIff(claims[1..], strategy, total, left);
      assert PanicsAt(claims, strategy, total, pool, 0) <==> Panics(claims[0], strategy, pool);
      if i: nat :| PanicsAt(claims[1..], strategy, total, left, i) {
        PanicsInTail(claims, strategy, total, pool, i + 1);
      }
      if i: nat :| PanicsAt(claims, strategy, total, pool, i) && i > 0 {
        PanicsInTail(claims, strategy, total, pool, i);
      }
    }
  }

  lemma FitsUnchanged(x: int)
    ensures FitsI128(x) ==> Saturate(x) == x
  {
  }

  lemma DivAtMost(a: int, d: int, k: int)
    requires d > 0
    ensures a / d <= k <==> a < (k + 1) * d
  {
    var q, r := a / d, a % d;
    assert a == q * d + r;
    if q <= k {
      MulUp(q + 1, k + 1, d);
    } else {
      MulUp(k + 1, q, d);
    }
  }

  // ----- two runs of the whole loop -----

  ghost predicate AllBenign(claims: seq<Claim>, total: int) {
    forall c :: c in claims ==> BenignClaim(c, total)
  }

  lemma TailBenign(claims: seq<Claim>, total: int)
    requires AllBenign(claims, total) && claims != []
    ensures AllBenign(claims[1..], total) && BenignClaim(claims[0], total)
  {
  }

  /** A larger pool never pays any single claim less, even where products saturate. */
  lemma {:induction false} PoolMonotone(claims: seq<Claim>, strategy: Strategy, total: int, pool: int, pool': int,
                                        i: nat)
    requires AllBenign(claims, total) && 0 <= pool <= pool' <= I128_MAX && i < |claims|
    ensures Payouts(claims, strategy, total, pool)[i] <= Payouts(claims, strategy, total, pool')[i]
    decreases i
  {
    hide Pay, AllBenign;
    TailBenign(claims, total);
    PayMonotone(claims[0], strategy, total, pool, pool');
    if i > 0 {
      var x, x' := Pay(claims[0], strategy, total, pool), Pay(claims[0], strategy, total, pool');
      PoolMonotone(claims[1..], strategy, total, pool - x, pool' - x', i - 1);
    }
  }

  /**
   On the same queue, risk weighting has paid out no more than pro rata at any point. The two runs
   may have different balances left; the one that spent less stays ahead.
   */
  lemma {:induction false} RiskNeverAhead(claims: seq<Claim>, total: int, left: int, left': int, k: nat)
    requires AllBenign(claims, total) && 0 <= left <= left' <= I128_MAX && k <= |claims|
    ensures left - Total(Payouts(claims, ProRata, total, left), k)
            <= left' - Total(Payouts(claims, RiskWeighted, total, left'), k)
    decreases k
  {
    hide Pay, AllBenign;
    if k > 0 {
      TailBenign(claims, total);
      var x, x' := Pay(claims[0], ProRata, total, left), Pay(claims[0], RiskWeighted, total, left');
      PayMonotone(claims[0], ProRata, total, left, left');
      PayBounds(claims[0], RiskWeighted, total, left');
      TotalOfTail(Payouts(claims, ProRata, total, left), k);
      TotalOfTail(Payouts(claims, RiskWeighted, total, left'), k);
      RiskNeverAhead(claims[1..], total, left - x, left' - x', k - 1);
    }
  }

  /** Every payout is within its cap and, unless FIFO, within the LP's share of the starting pool. */
  lemma {:induction false} PayoutWithinShare(claims: seq<Claim>, strategy: Strategy, total: int, pool: int, i: nat)
    requires AllBenign(claims, total) && 0 <= pool <= I128_MAX && i < |claims|
    ensures
      var x := Payouts(claims, strategy, total, pool)[i];
      && x <= Max(claims[i].cap, 0)
      && (strategy != Fifo ==> x == 0 || (total > 0 && x <= pool * claims[i].premiums / total))
    decreases i
  {
    hide Pay, AllBenign;
    TailBenign(claims, total);
    if i == 0 {
      PayBounds(claims[0], strategy, total, pool);
    } else {
      var left := pool - Pay(claims[0], strategy, total, pool);
      PayoutWithinShare(claims[1..], strategy, total, left, i - 1);
      if total > 0 {
        assert claims[1..][i - 1] == claims[i];
        BenignAt(claims, total, i);
        MulUp(left, pool, claims[i].premiums);
        DivMono(left * claims[i].premiums, pool * claims[i].premiums, total);
      }
    }
  }

  lemma BenignAt(claims: seq<Claim>, total: int, i: nat)
    requires AllBenign(claims, total) && i < |claims|
    ensures BenignClaim(claims[i], total)
  {
  }

  // ----- FIFO is a waterfall -----

  /** The non-negative caps of the first `k` claims, added up. */
  function CapSum(claims: seq<Claim>, k: nat): nat
    requires k <= |claims|
  {
    if k == 0 then 0 else CapSum(claims, k - 1) + Max(claims[k - 1].cap, 0)
  }

  lemma {:induction false} CapSumOfTail(claims: seq<Claim>, k: nat)
    requires 0 < k <= |claims|
    ensures CapSum(claims, k) == Max(claims[0].cap, 0) + CapSum(claims[1..], k - 1)
  {
    if k > 1 {
      CapSumOfTail(claims, k - 1);
    }
  }

  /** The first `k` claims together get the lesser of the pool and their caps. */
  lemma {:induction false} FifoFillsInOrder(claims: seq<Claim>, total: int, pool: nat, k: nat)
    requires k <= |claims|
    ensures Total(Payouts(claims, Fifo, total, pool), k) == Min(pool, CapSum(claims, k))
    decreases k
  {
    if k > 0 {
      var x := Pay(claims[0], Fifo, total, pool);
      assert x == Min(pool, Max(claims[0].cap, 0));
      TotalOfTail(Payouts(claims, Fifo, total, pool), k);
      CapSumOfTail(claims, k);
      FifoFillsInOrder(claims[1..], total, pool - x, k - 1);
    }
  }

  /** Each claim gets the lesser of its cap and what the earlier ones left. */
  lemma FifoIsWaterfall(claims: seq<Claim>, total: int, pool: nat, i: nat)
    requires i < |claims|
    ensures
      var ps := Payouts(claims, Fifo, total, pool);
      ps[i] == Min(Max(claims[i].cap, 0), pool - Total(ps, i))
  {
    FifoFillsInOrder(claims, total, pool, i);
    FifoFillsInOrder(claims, total, pool, i + 1);
  }

  // ----- the order of the input -----

  lemma {:induction false} PremiumSumOf(claims: seq<Claim>, claims': seq<Claim>)
    requires multiset(claims) == multiset(claims')
    ensures PremiumSum(claims) == PremiumSum(claims')
    decreases |claims|
  {
    if claims == [] {
      assert |multiset(claims')| == 0;
    } else {
      var front, last := claims[..|claims| - 1], claims[|claims| - 1];
      assert claims == front + [last];
      assert last in multiset(claims');
      var i :| 0 <= i < |claims'| && claims'[i] == last;
      Without(claims', i);
      assert multiset(front) == multiset(claims) - multiset{last};
      PremiumSumOf(front, claims'[..i] + claims'[i + 1..]);
      PremiumSumWithout(claims', i);
    }
  }

  lemma Without(claims: seq<Claim>, i: nat)
    requires i < |claims|
    ensures multiset(claims[..i] + claims[i + 1..]) == multiset(claims) - multiset{claims[i]}
  {
    assert claims == claims[..i] + [claims[i]] + claims[i + 1..];
  }

  lemma {:induction false} PremiumSumWithout(claims: seq<Claim>, i: nat)
    requires i < |claims|
    ensures PremiumSum(claims) == PremiumSum(claims[..i] + claims[i + 1..]) + claims[i].premiums
  {
    var front, last := claims[..|claims| - 1], claims[|claims| - 1];
    if i == |claims| - 1 {
      assert claims[..i] + claims[i + 1..] == front;
    } else {
      PremiumSumWithout(front, i);
      var rest := claims[..i] + claims[i + 1..];
      assert rest[..|rest| - 1] == front[..i] + front[i + 1..];
    }
  }

  lemma {:induction false} PremiumSumGrows(claims: seq<Claim>, n: nat)
    requires n <= |claims| && forall c :: c in claims ==> c.premiums >= 0
    ensures 0 <= PremiumSum(claims[..n]) <= PremiumSum(claims)
    decreases |claims| - n
  {
    PremiumSumNonNegative(claims[..n]);
    if n < |claims| {
      PremiumSumGrows(claims, n + 1);
      assert claims[..n + 1][..n] == claims[..n];
    } else {
      assert claims[..n] == claims;
    }
  }

  lemma {:induction false} PremiumSumNonNegative(claims: seq<Claim>)
    requires forall c :: c in claims ==> c.premiums >= 0
    ensures PremiumSum(claims) >= 0
  {
    if claims != [] {
      PremiumSumNonNegative(claims[..|claims| - 1]);
    }
  }

  lemma SumFitsWhenTotalDoes(claims: seq<Claim>)
    requires (forall c :: c in claims ==> c.premiums >= 0) && PremiumSum(claims) <= I128_MAX
    ensures SumFits(claims)
  {
    forall n | 0 <= n <= |claims|
      ensures FitsI128(PremiumSum(claims[..n]))
    {
      PremiumSumGrows(claims, n);
    }
  }

  /** The two submissions have the same queue and the same premium total. */
  lemma SameQueue(claims: seq<Claim>, claims': seq<Claim>, strategy: Strategy)
    requires multiset(claims) == multiset(claims') && DistinctKeys(claims, SortKey(strategy))
    ensures Queue(claims, strategy) == Queue(claims', strategy) && PremiumSum(claims) == PremiumSum(claims')
  {
    hide PremiumSum, SortBy, Sorted;
    var key := SortKey(strategy);
    SortContents(claims, key);
    SortContents(claims', key);
    DistinctAfterSort(claims, SortBy(claims, key), key);
    SortedOrderIsUnique(SortBy(claims, key), SortBy(claims', key), key);
    PremiumSumOf(claims, claims');
  }

  /**
   Claims with distinct sort keys are allocated alike, whatever order they are submitted in, if and
   only if the running premium sum fits 128 bits in both orders or in neither; with a negative pool or
   a division by zero the two always agree.
   */
  lemma OrderDoesNotMatterIff(claims: seq<Claim>, claims': seq<Claim>, strategy: Strategy, pool: int)
    requires multiset(claims) == multiset(claims') && DistinctKeys(claims, SortKey(strategy))
    ensures Allocate(claims, strategy, pool) == Allocate(claims', strategy, pool) <==>
              || (SumFits(claims) <==> SumFits(claims'))
              || pool < 0 || PanicsOn(Queue(claims, strategy), strategy, PremiumSum(claims), pool)
  {
    hide Payouts, Listed, PanicsOn, SumFits, PremiumSum, SortBy;
    SameQueue(claims, claims', strategy);
  }

  /** It can matter: a negative premium keeps one running sum in range and not the other. */
  lemma OrderDecidesOverflow(a: Claim, b: Claim, c: Claim)
    requires a.premiums == I128_MAX && b.premiums == 1 && c.premiums == -1
    ensures !SumFits([a, b, c]) && SumFits([a, c, b])
  {
    PremiumsOfTwo(a, b);
    PremiumsOfTwo(a, c);
    assert [a, b, c][..2] == [a, b];
    assert !FitsI128(PremiumSum([a, b, c][..2]));
    var s := [a, c, b];
    assert s[..0] == [] && s[..1] == [a] && s[..2] == [a, c] && s[..3] == s;
    forall n | 0 <= n <= |s|
      ensures FitsI128(PremiumSum(s[..n]))
    {
      assert n == 0 || n == 1 || n == 2 || n == 3;
    }
  }

  lemma PremiumsOfTwo(a: Claim, b: Claim)
    ensures PremiumSum([a]) == a.premiums && PremiumSum([a, b]) == a.premiums + b.premiums
  {
    assert [a][..0] == [] && [a, b][..1] == [a];
  }

  /** Recorded premiums never overflow on the way if their total does not, so there the order is free. */
  lemma OrderDoesNotMatter(claims: seq<Claim>, claims': seq<Claim>, strategy: Strategy, pool: int)
    requires multiset(claims) == multiset(claims') && DistinctKeys(claims, SortKey(strategy))
    requires forall c :: c in claims ==> c.premiums >= 0
    ensures Allocate(claims, strategy, pool) == Allocate(claims', strategy, pool)
  {
    hide Allocate, SumFits, PremiumSum, PanicsOn, SortBy;
    forall c | c in claims'
      ensures c.premiums >= 0
    {
      assert c in multiset(claims);
    }
    SumFitsIff(claims);
    SumFitsIff(claims');
    PremiumSumOf(claims, claims');
    OrderDoesNotMatterIff(claims, claims', strategy, pool);
  }

  lemma SumFitsIff(claims: seq<Claim>)
    requires forall c :: c in claims ==> c.premiums >= 0
    ensures SumFits(claims) <==> PremiumSum(claims) <= I128_MAX
  {
    if PremiumSum(claims) <= I128_MAX {
      SumFitsWhenTotalDoes(claims);
    }
    if SumFits(claims) {
      assert claims[..|claims|] == claims;
    }
  }

  lemma {:induction false} DistinctAfterSort<T>(s: seq<T>, t: seq<T>, key: T -> int)
    requires DistinctKeys(s, key) && multiset(s) == multiset(t)
    ensures DistinctKeys(t, key)
  {
    forall i, j | 0 <= i < j < |t|
      ensures key(t[i]) != key(t[j])
    {
      if key(t[i]) == key(t[j]) {
        var x, y := t[i], t[j];
        assert x in multiset(t) && y in multiset(t);
        var a :| 0 <= a < |s| && s[a] == x;
        var b :| 0 <= b < |s| && s[b] == y;
        assert a == b;
        TwiceInSequence(t, i, j);
        OnceInSequence(s, a, key);
        assert false;
      }
    }
  }

  lemma TwiceInSequence<T>(t: seq<T>, i: nat, j: nat)
    requires i < j < |t| && t[i] == t[j]
    ensures multiset(t)[t[i]] >= 2
  {
    assert t == t[..i] + [t[i]] + t[i + 1..j] + [t[j]] + t[j + 1..];
  }

  lemma OnceInSequence<T>(s: seq<T>, a: nat, key: T -> int)
    requires DistinctKeys(s, key) && a < |s|
    ensures multiset(s)[s[a]] == 1
  {
    assert s == s[..a] + [s[a]] + s[a + 1..];
    assert s[a] !in s[..a] && s[a] !in s[a + 1..];
  }

  // ----- the laws for a whole allocation -----

  /** Claims as the pool records them: no negative premium or default count, a total within 128 bits. */
  ghost predicate Ordinary(claims: seq<Claim>) {
    && (forall c :: c in claims ==> c.premiums >= 0 && 0 <= c.defaults <= I32_MAX)
    && PremiumSum(claims) <= I128_MAX
  }

  lemma OnePremium(claims: seq<Claim>, i: nat)
    requires i < |claims| && forall c :: c in claims ==> c.premiums >= 0
    ensures claims[i].premiums <= PremiumSum(claims)
  {
    PremiumSumWithout(claims, i);
    PremiumSumNonNegative(claims[..i] + claims[i + 1..]);
  }

  lemma QueueIsBenign(claims: seq<Claim>, strategy: Strategy)
    requires Ordinary(claims)
    ensures AllBenign(Queue(claims, strategy), PremiumSum(claims)) && |Queue(claims, strategy)| == |claims|
  {
    hide SortBy, PremiumSum;
    var queue := Queue(claims, strategy);
    SortContents(claims, SortKey(strategy));
    forall c | c in queue
      ensures BenignClaim(c, PremiumSum(claims))
    {
      assert c in multiset(queue);
      assert c in multiset(claims);
      var i :| 0 <= i < |claims| && claims[i] == c;
      OnePremium(claims, i);
    }
  }

  lemma {:induction false} NoPanic(claims: seq<Claim>, strategy: Strategy, total: int, left: int)
    requires AllBenign(claims, total)
    ensures !PanicsOn(claims, strategy, total, left)
  {
    hide Pay;
    if claims != [] {
      TailBenign(claims, total);
      NoPanic(claims[1..], strategy, total, left - Pay(claims[0], strategy, total, left));
    }
  }

  /** What the claim at position `i` of the queue is paid. */
  function PaidTo(claims: seq<Claim>, strategy: Strategy, pool: int, i: nat): nat
    requires i < |Queue(claims, strategy)|
  {
    Payouts(Queue(claims, strategy), strategy, PremiumSum(claims), pool)[i]
  }

  /** Ordinary claims are always allocated, and a larger pool pays none of them less. */
  lemma LargerPoolPaysNoClaimLess(claims: seq<Claim>, strategy: Strategy, pool: int, pool': int, i: nat)
    requires Ordinary(claims) && 0 <= pool <= pool' <= I128_MAX && i < |Queue(claims, strategy)|
    ensures Allocate(claims, strategy, pool).Allocated? && Allocate(claims, strategy, pool').Allocated?
    ensures PaidTo(claims, strategy, pool, i) <= PaidTo(claims, strategy, pool', i)
  {
    hide Payouts, Listed, PanicsOn, SumFits, PremiumSum, SortBy;
    var queue, total := Queue(claims, strategy), PremiumSum(claims);
    QueueIsBenign(claims, strategy);
    SumFitsWhenTotalDoes(claims);
    NoPanic(queue, strategy, total, pool);
    NoPanic(queue, strategy, total, pool');
    PoolMonotone(queue, strategy, total, pool, pool', i);
  }

  /** At every point of the shared queue, risk weighting has disbursed at most what pro rata has. */
  lemma RiskWeightingSpendsNoMore(claims: seq<Claim>, pool: int, k: nat)
    requires Ordinary(claims) && 0 <= pool <= I128_MAX && k <= |claims|
    ensures Queue(claims, RiskWeighted) == Queue(claims, ProRata) && |Queue(claims, ProRata)| == |claims|
    ensures
      var queue, total := Queue(claims, ProRata), PremiumSum(claims);
      Total(Payouts(queue, RiskWeighted, total, pool), k) <= Total(Payouts(queue, ProRata, total, pool), k)
  {
    hide Payouts, PremiumSum, SortBy;
    QueueIsBenign(claims, ProRata);
    RiskNeverAhead(Queue(claims, ProRata), PremiumSum(claims), pool, pool, k);
  }

  /** No claim is paid beyond its cap or, unless FIFO, beyond its premium share of the starting pool. */
  lemma NoClaimBeyondItsShare(claims: seq<Claim>, strategy: Strategy, pool: int, i: nat)
    requires Ordinary(claims) && 0 <= pool <= I128_MAX && i < |Queue(claims, strategy)|
    ensures
      var c, x, total := Queue(claims, strategy)[i], PaidTo(claims, strategy, pool, i), PremiumSum(claims);
      && x <= Max(c.cap, 0)
      && (strategy != Fifo ==> x == 0 || (total > 0 && x <= pool * c.premiums / total))
  {
    hide Payouts, PremiumSum, SortBy;
    QueueIsBenign(claims, strategy);
    PayoutWithinShare(Queue(claims, strategy), strategy, PremiumSum(claims), pool, i);
  }

  // ----- the cap, at every place of a queue -----

  /** The payout at `i` is what the claim gets out of what the earlier ones leave. */
  lemma {:induction false} PayoutAt(claims: seq<Claim>, strategy: Strategy, total: int, pool: int, i: nat)
    requires i < |claims|
    ensures
      var ps := Payouts(claims, strategy, total, pool);
      ps[i] == Pay(claims[i], strategy, total, pool - Total(ps, i))
    decreases i
  {
    hide Pay;
    if i > 0 {
      var ps := Payouts(claims, strategy, total, pool);
      assert ps[1..] == Payouts(claims[1..], strategy, total, pool - ps[0]);
      TotalOfTail(ps, i);
      PayoutAt(claims[1..], strategy, total, pool - ps[0], i - 1);
    }
  }

  /**
   In a successful allocation, the claim at `i` of the queue is paid at most its cap if and only if
   ShareHolds at the cap or the earlier claims leave no more than the cap.
   */
  lemma AllocatedWithinCapIff(claims: seq<Claim>, strategy: Strategy, pool: int, i: nat)
    requires pool <= I128_MAX && Allocate(claims, strategy, pool).Allocated? && i < |Queue(claims, strategy)|
    requires
      var c := Queue(claims, strategy)[i];
      FitsI128(c.cap) && I32_MIN <= c.defaults <= I32_MAX
    ensures
      var queue, total := Queue(claims, strategy), PremiumSum(claims);
      var left := pool - Total(Payouts(queue, strategy, total, pool), i);
      PaidTo(claims, strategy, pool, i) <= Max(queue[i].cap, 0) <==>
        ShareHolds(queue[i], strategy, queue[i].cap, total) || left <= Max(queue[i].cap, 0)
  {
    hide Payouts, Listed, PanicsOn, SumFits, PremiumSum, SortBy, ShareHolds, Total, Share;
    var queue, total := Queue(claims, strategy), PremiumSum(claims);
    var c, left := queue[i], pool - Total(Payouts(queue, strategy, total, pool), i);
    PayoutAt(queue, strategy, total, pool, i);
    NeverOverspends(queue, strategy, total, pool, i);
    if Divides(c, strategy) {
      PaidWithinCapIff(c, strategy, total, left);
    } else {
      PanicIff(queue, strategy, total, pool);
      assert !PanicsAt(queue, strategy, total, pool, i);
      if c.cap <= 0 {
        NothingToBreak(c, strategy, c.cap, total);
      }
    }
  }
}
