/** Sharing a pool that may be too small among several insurance claims. */
module ClaimAllocation {
  import opened MachineInts
  import opened Sorting

  datatype Strategy = ProRata | RiskWeighted | Fifo

  datatype Claim = Claim(lp: nat, invoice: nat, timestamp: nat, premiums: int, defaults: int, cap: int)

  datatype Allocation = Allocated(payouts: seq<(nat, int)>) | InvalidPoolBalance | Panicked

  // ----- one claim -----

  function ProRataShare(c: Claim, base: int, total: int): int {
    if total <= 0 then 0 else TruncDiv(SatMul(base, c.premiums), total)
  }

  /** Dividing by zero panics; that case is singled out by Panics below. */
  function RiskWeightedShare(c: Claim, base: int, total: int): int {
    if c.defaults == -100 then 0
    else Saturate(TruncDiv(SatMul(ProRataShare(c, base, total), 100), SatAdd(100, c.defaults)))
  }

  function Share(c: Claim, strategy: Strategy, base: int, total: int): int {
    match strategy
    case ProRata => ProRataShare(c, base, total)
    case RiskWeighted => RiskWeightedShare(c, base, total)
    case Fifo => base
  }

  predicate Panics(c: Claim, strategy: Strategy, remaining: int) {
    strategy == RiskWeighted && c.defaults == -100 && Min(c.cap, remaining) > 0
  }

  /** What the calculation for one claim returns, given a pool that is not negative. */
  function Payout(c: Claim, strategy: Strategy, total: int, pool: int): (x: nat) {
    var base := Min(c.cap, pool);
    if base <= 0 then 0 else Max(Share(c, strategy, base, total), 0)
  }

  /** What the loop pays the claim out of `remaining`. */
  function Pay(c: Claim, strategy: Strategy, total: int, remaining: int): (x: nat)
    ensures x <= Max(remaining, 0)
  {
    Min(Payout(c, strategy, total, remaining), Max(remaining, 0))
  }

  // ----- the loop, on values -----

  /** What each claim of the sorted list gets. */
  function Payouts(claims: seq<Claim>, strategy: Strategy, total: int, remaining: int): (ps: seq<nat>)
    ensures |ps| == |claims|
  {
    if claims == [] then []
    else
      var x := Pay(claims[0], strategy, total, remaining);
      [x] + Payouts(claims[1..], strategy, total, remaining - x)
  }

  predicate PanicsOn(claims: seq<Claim>, strategy: Strategy, total: int, remaining: int) {
    claims != [] && (Panics(claims[0], strategy, remaining)
                     || PanicsOn(claims[1..], strategy, total, remaining - Pay(claims[0], strategy, total, remaining)))
  }

  function PremiumSum(claims: seq<Claim>): int {
    if claims == [] then 0 else PremiumSum(claims[..|claims| - 1]) + claims[|claims| - 1].premiums
  }

  /** The checked sum of the premiums never leaves the 128-bit range. */
  predicate SumFits(claims: seq<Claim>) {
    forall n :: 0 <= n <= |claims| ==> FitsI128(PremiumSum(claims[..n]))
  }

  /** FIFO sorts by time, the other strategies by premiums, largest first. */
  function SortKey(strategy: Strategy): Claim -> int {
    if strategy == Fifo then (c: Claim) => c.timestamp else (c: Claim) => -c.premiums
  }

  function Queue(claims: seq<Claim>, strategy: Strategy): seq<Claim> {
    SortBy(claims, SortKey(strategy))
  }

  /** The entries the caller gets back: only positive payouts are listed. */
  function Listed(claims: seq<Claim>, payouts: seq<nat>): seq<(nat, int)>
    requires |claims| == |payouts|
  {
    if claims == [] then []
    else (if payouts[0] > 0 then [(claims[0].lp, payouts[0])] else []) + Listed(claims[1..], payouts[1..])
  }

  function Allocate(claims: seq<Claim>, strategy: Strategy, pool: int): Allocation {
    var queue, total := Queue(claims, strategy), PremiumSum(claims);
    if pool < 0 then InvalidPoolBalance
    else if !SumFits(claims) || PanicsOn(queue, strategy, total, pool) then Panicked
    else Allocated(Listed(queue, Payouts(queue, strategy, total, pool)))
  }

  // ----- the loop, as the source runs it -----

  lemma NothingLeft(claims: seq<Claim>, strategy: Strategy, total: int, remaining: int)
    requires remaining <= 0
    ensures !PanicsOn(claims, strategy, total, remaining)
    ensures Listed(claims, Payouts(claims, strategy, total, remaining)) == []
  {
    if claims != [] {
      NothingLeft(claims[1..], strategy, total, remaining);
    }
  }

  method SumPremiums(claims: seq<Claim>) returns (fits: bool, total: int)
    ensures fits <==> SumFits(claims)
    ensures fits ==> total == PremiumSum(claims)
  {
    total := 0;
    for i := 0 to |claims|
      invariant total == PremiumSum(claims[..i])
      invariant forall n :: 0 <= n <= i ==> FitsI128(PremiumSum(claims[..n]))
    {
      assert claims[..i + 1][..i] == claims[..i];
      total := total + claims[i].premiums;
      if !FitsI128(total) {
        return false, total;
      }
    }
    assert claims[..|claims|] == claims;
    fits := true;
  }

  /** One round of the loop, read off the list that is left. */
  lemma NextClaim(queue: seq<Claim>, i: nat, strategy: Strategy, total: int, remaining: int)
    requires i < |queue|
    ensures
      var x := Pay(queue[i], strategy, total, remaining);
      && PanicsOn(queue[i..], strategy, total, remaining) ==
           (Panics(queue[i], strategy, remaining) || PanicsOn(queue[i + 1..], strategy, total, remaining - x))
      && Listed(queue[i..], Payouts(queue[i..], strategy, total, remaining)) ==
           (if x > 0 then [(queue[i].lp, x)] else [])
           + Listed(queue[i + 1..], Payouts(queue[i + 1..], strategy, total, remaining - x))
  {
    hide Pay, Panics;
    var rest := queue[i..];
    assert rest[0] == queue[i] && rest[1..] == queue[i + 1..];
    var x := Pay(queue[i], strategy, total, remaining);
    assert Payouts(rest, strategy, total, remaining)[1..] == Payouts(rest[1..], strategy, total, remaining - x);
  }

  /** The loop over the sorted claims; None when it panics. */
  method PayQueue(queue: seq<Claim>, strategy: Strategy, total: int, pool: int)
    returns (panicked: bool, allocations: seq<(nat, int)>)
    requires 0 <= pool <= I128_MAX
    ensures panicked == PanicsOn(queue, strategy, total, pool)
    ensures !panicked ==> allocations == Listed(queue, Payouts(queue, strategy, total, pool))
  {
    hide Pay, Panics, PanicsOn, Listed, Payouts;
    allocations := [];
    var remaining := pool;
    ghost var all := Listed(queue, Payouts(queue, strategy, total, pool));
    assert queue[0..] == queue;
    for i := 0 to |queue|
      invariant 0 <= remaining <= pool
      invariant PanicsOn(queue, strategy, total, pool) == PanicsOn(queue[i..], strategy, total, remaining)
      invariant all == allocations + Listed(queue[i..], Payouts(queue[i..], strategy, total, remaining))
    {
      if remaining <= 0 {
        NothingLeft(queue[i..], strategy, total, remaining);
        return false, allocations;
      }
      NextClaim(queue, i, strategy, total, remaining);
      if Panics(queue[i], strategy, remaining) {
        return true, allocations;
      }
      var paid := Pay(queue[i], strategy, total, remaining);
      if paid > 0 {
        allocations := allocations + [(queue[i].lp, paid)];
        remaining := SatSub(remaining, paid);
      }
    }
    assert queue[|queue|..] == [];
    NothingQueued(strategy, total, remaining);
    panicked := false;
  }

  lemma NothingQueued(strategy: Strategy, total: int, remaining: int)
    ensures !PanicsOn([], strategy, total, remaining) && Listed([], Payouts([], strategy, total, remaining)) == []
  {
  }

  method AllocatePayouts(claims: seq<Claim>, strategy: Strategy, pool: int) returns (r: Allocation)
    requires FitsI128(pool)
    ensures r == Allocate(claims, strategy, pool)
  {
    hide PanicsOn, Listed, Payouts, SumFits;
    if pool < 0 {
      return InvalidPoolBalance;
    }
    if claims == [] {
      NothingQueued(strategy, 0, pool);
      NothingToSum();
      return Allocated([]);
    }
    var queue := Queue(claims, strategy);
    var fits, total := SumPremiums(claims);
    if !fits {
      return Panicked;
    }
    var panicked, allocations := PayQueue(queue, strategy, total, pool);
    r := if panicked then Panicked else Allocated(allocations);
  }

  lemma NothingToSum()
    ensures SumFits([])
  {
  }
}
