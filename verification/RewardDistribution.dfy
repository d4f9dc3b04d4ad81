/** Governance-token rewards: lifetime counters, changing rates, incremental claims. */
module RewardDistribution {
  import opened MachineInts

  type Address = nat

  const HUNDRED_USDC: int := 1_000_000_000
  const DEFAULT_LP_RATE: int := 10_000_000
  const DEFAULT_SETTLEMENT_RATE: int := 5_000_000
  const MAX_LP_ACCRUAL: int := 10_000_000_000_000

  datatype Rates = Rates(lp: int, freelancer: int, payer: int)

  /** `minted` is what the token contract has minted to each participant on this contract's behalf. */
  datatype State = State(volume: map<Address, int>, freelanced: map<Address, nat>, paidOnTime: map<Address, nat>,
                         claimed: map<Address, int>, rates: Rates, minted: map<Address, int>)

  const EMPTY := State(map[], map[], map[], map[],
                       Rates(DEFAULT_LP_RATE, DEFAULT_SETTLEMENT_RATE, DEFAULT_SETTLEMENT_RATE), map[])

  function Of(m: map<Address, int>, a: Address): int {
    if a in m then m[a] else 0
  }

  function CountOf(m: map<Address, nat>, a: Address): nat {
    if a in m then m[a] else 0
  }

  /** The reward for all recorded activity at the rates of this moment. */
  function TotalEarned(s: State, a: Address): int {
    SatAdd(SatAdd(SatMul(TruncDiv(Of(s.volume, a), HUNDRED_USDC), s.rates.lp),
                  SatMul(CountOf(s.freelanced, a), s.rates.freelancer)),
           SatMul(CountOf(s.paidOnTime, a), s.rates.payer))
  }

  function AccrueLp(s: State, lp: Address, amount: int): State {
    if amount <= 0 || amount > MAX_LP_ACCRUAL then s
    else s.(volume := s.volume[lp := SatAdd(Of(s.volume, lp), amount)])
  }

  function AccrueSettlement(s: State, freelancer: Address, payer: Address, onTime: bool): State {
    var s1 := s.(freelanced := s.freelanced[freelancer := Min(U64_MAX, CountOf(s.freelanced, freelancer) + 1)]);
    if onTime then s1.(paidOnTime := s1.paidOnTime[payer := Min(U64_MAX, CountOf(s1.paidOnTime, payer) + 1)]) else s1
  }

  function Claimable(s: State, a: Address): int {
    SatSub(TotalEarned(s, a), Of(s.claimed, a))
  }

  function Claim(s: State, a: Address): State {
    var amount := Claimable(s, a);
    if amount <= 0 then s
    else s.(minted := s.minted[a := Of(s.minted, a) + amount],
            claimed := s.claimed[a := SatAdd(Of(s.claimed, a), amount)])
  }

  datatype Op =
    | Funds(lp: Address, amount: int)
    | Settles(freelancer: Address, payer: Address, onTime: bool)
    | Claims(a: Address)
    | SetLpRate(rate: int)
    | SetFreelancerRate(rate: int)
    | SetPayerRate(rate: int)

  function Step(s: State, op: Op): State {
    match op
    case Funds(lp, amount) => AccrueLp(s, lp, amount)
    case Settles(freelancer, payer, onTime) => AccrueSettlement(s, freelancer, payer, onTime)
    case Claims(a) => Claim(s, a)
    case SetLpRate(rate) => s.(rates := s.rates.(lp := rate))
    case SetFreelancerRate(rate) => s.(rates := s.rates.(freelancer := rate))
    case SetPayerRate(rate) => s.(rates := s.rates.(payer := rate))
  }

  function Exec(s: State, ops: seq<Op>): State
    decreases |ops|
  {
    if ops == [] then s else Exec(Step(s, ops[0]), ops[1..])
  }

  /** The largest of `floor` and what `a` had earned at each of their claims in the run. */
  function Peak(s: State, ops: seq<Op>, a: Address, floor: int): int
    decreases |ops|
  {
    if ops == [] then floor
    else Peak(Step(s, ops[0]), ops[1..], a, if ops[0] == Claims(a) then Max(floor, TotalEarned(s, a)) else floor)
  }

  // ----- what the counters hold -----

  /** All volume that is accepted for `a`, added up without a limit. */
  function Funded(ops: seq<Op>, a: Address): nat {
    if ops == [] then 0
    else
      var op := ops[0];
      (if op.Funds? && op.lp == a && 0 < op.amount <= MAX_LP_ACCRUAL then op.amount else 0) + Funded(ops[1..], a)
  }

  /** How often `a` was paid as a freelancer, and how often `a` paid on time. */
  function Settlements(ops: seq<Op>, a: Address): nat {
    if ops == [] then 0
    else (if ops[0].Settles? && ops[0].freelancer == a then 1 else 0) + Settlements(ops[1..], a)
  }

  function OnTimePayments(ops: seq<Op>, a: Address): nat {
    if ops == [] then 0
    else (if ops[0].Settles? && ops[0].onTime && ops[0].payer == a then 1 else 0) + OnTimePayments(ops[1..], a)
  }

  /** What one step adds to the counters of `a`. */
  lemma CountersStep(s: State, op: Op, a: Address)
    requires 0 <= Of(s.volume, a) <= I128_MAX
    ensures
      var s' := Step(s, op);
      && Of(s'.volume, a) == Min(I128_MAX, Of(s.volume, a) + Funded([op], a))
      && (CountOf(s.freelanced, a) <= U64_MAX ==>
            CountOf(s'.freelanced, a) == Min(U64_MAX, CountOf(s.freelanced, a) + Settlements([op], a)))
      && (CountOf(s.paidOnTime, a) <= U64_MAX ==>
            CountOf(s'.paidOnTime, a) == Min(U64_MAX, CountOf(s.paidOnTime, a) + OnTimePayments([op], a)))
  {
    hide TotalEarned;
    assert [op][1..] == [];
  }

  lemma TotalsOfHead(ops: seq<Op>, a: Address)
    requires ops != []
    ensures Funded(ops, a) == Funded([ops[0]], a) + Funded(ops[1..], a)
    ensures Settlements(ops, a) == Settlements([ops[0]], a) + Settlements(ops[1..], a)
    ensures OnTimePayments(ops, a) == OnTimePayments([ops[0]], a) + OnTimePayments(ops[1..], a)
  {
    assert [ops[0]][1..] == [];
  }

  /** After any run the counters are the unlimited totals of the run, clipped to their integer types. */
  lemma {:induction false} CountersAreTotals(s: State, ops: seq<Op>, a: Address)
    requires 0 <= Of(s.volume, a) <= I128_MAX
    requires CountOf(s.freelanced, a) <= U64_MAX && CountOf(s.paidOnTime, a) <= U64_MAX
    ensures
      var t := Exec(s, ops);
      && Of(t.volume, a) == Min(I128_MAX, Of(s.volume, a) + Funded(ops, a))
      && CountOf(t.freelanced, a) == Min(U64_MAX, CountOf(s.freelanced, a) + Settlements(ops, a))
      && CountOf(t.paidOnTime, a) == Min(U64_MAX, CountOf(s.paidOnTime, a) + OnTimePayments(ops, a))
    decreases |ops|
  {
    hide Step, Of, CountOf, Funded, Settlements, OnTimePayments;
    if ops == [] {
      NoTotals(a);
    } else {
      CountersStep(s, ops[0], a);
      TotalsOfHead(ops, a);
      CountersAreTotals(Step(s, ops[0]), ops[1..], a);
    }
  }

  lemma NoTotals(a: Address)
    ensures Funded([], a) == 0 && Settlements([], a) == 0 && OnTimePayments([], a) == 0
  {
  }

  // ----- what has been minted -----

  /** What is recorded as claimed is what was minted, and fits the token's integers. */
  ghost predicate Booked(s: State) {
    forall a :: 0 <= Of(s.minted, a) == Of(s.claimed, a) <= I128_MAX
  }

  lemma ClaimMints(s: State, op: Op, a: Address)
    requires Booked(s)
    ensures Of(Step(s, op).minted, a) ==
              if op == Claims(a) then Max(Of(s.minted, a), TotalEarned(s, a)) else Of(s.minted, a)
    ensures Of(Step(s, op).claimed, a) == Of(Step(s, op).minted, a)
  {
    hide TotalEarned, Booked;
    BookedAt(s, a);
    if op.Claims? && op.a == a {
      EarnedFits(s, a);
    }
  }

  lemma EarnedFits(s: State, a: Address)
    ensures FitsI128(TotalEarned(s, a))
  {
    hide SatMul, TruncDiv, Of, CountOf;
  }

  lemma StepBooked(s: State, op: Op)
    requires Booked(s)
    ensures Booked(Step(s, op))
  {
    hide Step, Booked, TotalEarned;
    forall a
      ensures 0 <= Of(Step(s, op).minted, a) == Of(Step(s, op).claimed, a) <= I128_MAX
    {
      ClaimMints(s, op, a);
      BookedAt(s, a);
      EarnedFits(s, a);
    }
    BookedFrom(Step(s, op));
  }

  lemma BookedAt(s: State, a: Address)
    requires Booked(s)
    ensures 0 <= Of(s.minted, a) == Of(s.claimed, a) <= I128_MAX
  {
  }

  lemma BookedFrom(s: State)
    requires forall a :: 0 <= Of(s.minted, a) == Of(s.claimed, a) <= I128_MAX
    ensures Booked(s)
  {
  }

  /**
   In any interleaving of accruals, rate changes and claims, a participant has been minted exactly
   the largest amount they had earned at any of their claims, or nothing if that was never positive.
   */
  lemma {:induction false} MintedIsPeakEarned(s: State, ops: seq<Op>, a: Address)
    requires Booked(s)
    ensures Of(Exec(s, ops).minted, a) == Peak(s, ops, a, Of(s.minted, a))
    ensures Booked(Exec(s, ops))
    decreases |ops|
  {
    hide Step, Booked;
    if ops != [] {
      StepBooked(s, ops[0]);
      ClaimMints(s, ops[0], a);
      MintedIsPeakEarned(Step(s, ops[0]), ops[1..], a);
    }
  }

  lemma MintedFromScratch(ops: seq<Op>, a: Address)
    ensures Of(Exec(EMPTY, ops).minted, a) == Peak(EMPTY, ops, a, 0)
  {
    MintedIsPeakEarned(EMPTY, ops, a);
  }

  /** The peak is at least what was earned at each claim, and is the floor or one of those amounts. */
  lemma {:induction false} PeakIsAttained(s: State, ops: seq<Op>, a: Address, floor: int)
    ensures Peak(s, ops, a, floor) >= floor
    ensures forall i :: 0 <= i < |ops| && ops[i] == Claims(a) ==>
              TotalEarned(Exec(s, ops[..i]), a) <= Peak(s, ops, a, floor)
    ensures Peak(s, ops, a, floor) == floor
            || exists i :: 0 <= i < |ops| && ops[i] == Claims(a)
                           && TotalEarned(Exec(s, ops[..i]), a) == Peak(s, ops, a, floor)
    decreases |ops|
  {
    hide Step, TotalEarned;
    if ops != [] {
      var s1, rest := Step(s, ops[0]), ops[1..];
      var floor1 := if ops[0] == Claims(a) then Max(floor, TotalEarned(s, a)) else floor;
      PeakIsAttained(s1, rest, a, floor1);
      assert ops[..0] == [];
      forall i | 0 < i < |ops|
        ensures Exec(s, ops[..i]) == Exec(s1, rest[..i - 1])
      {
        assert ops[..i][0] == ops[0] && ops[..i][1..] == rest[..i - 1];
      }
      if Peak(s1, rest, a, floor1) != floor1 {
        var i :| 0 <= i < |rest| && rest[i] == Claims(a)
                 && TotalEarned(Exec(s1, rest[..i]), a) == Peak(s1, rest, a, floor1);
        assert ops[i + 1] == Claims(a);
        assert ops[..i + 1][1..] == rest[..i];
      }
    }
  }

  // ----- an extra claim -----

  lemma {:induction false} ExecAppend(s: State, xs: seq<Op>, ys: seq<Op>)
    ensures Exec(s, xs + ys) == Exec(Exec(s, xs), ys)
    decreases |xs|
  {
    if xs == [] {
      assert xs + ys == ys;
    } else {
      assert (xs + ys)[0] == xs[0] && (xs + ys)[1..] == xs[1..] + ys;
      ExecAppend(Step(s, xs[0]), xs[1..], ys);
    }
  }

  /** `t` is `s` except that `a` may have claimed more already. */
  ghost predicate AheadFor(s: State, t: State, a: Address) {
    && t.volume == s.volume && t.freelanced == s.freelanced && t.paidOnTime == s.paidOnTime && t.rates == s.rates
    && (forall b :: b != a ==> Of(t.minted, b) == Of(s.minted, b) && Of(t.claimed, b) == Of(s.claimed, b))
    && Of(s.minted, a) <= Of(t.minted, a)
  }

  lemma AheadStep(s: State, t: State, a: Address, op: Op)
    requires AheadFor(s, t, a) && Booked(s) && Booked(t)
    ensures AheadFor(Step(s, op), Step(t, op), a)
  {
    hide SatMul, TruncDiv, Saturate, Booked;
    var s', t' := Step(s, op), Step(t, op);
    forall b
      ensures b != a ==> Of(t'.minted, b) == Of(s'.minted, b) && Of(t'.claimed, b) == Of(s'.claimed, b)
      ensures b == a ==> Of(s'.minted, b) <= Of(t'.minted, b)
    {
      ClaimMints(s, op, b);
      ClaimMints(t, op, b);
      assert TotalEarned(s, b) == TotalEarned(t, b);
    }
  }

  lemma {:induction false} AheadForever(s: State, t: State, a: Address, ops: seq<Op>)
    requires AheadFor(s, t, a) && Booked(s) && Booked(t)
    ensures AheadFor(Exec(s, ops), Exec(t, ops), a)
    decreases |ops|
  {
    hide Step, Booked, AheadFor;
    if ops != [] {
      AheadStep(s, t, a, ops[0]);
      StepBooked(s, ops[0]);
      StepBooked(t, ops[0]);
      AheadForever(Step(s, ops[0]), Step(t, ops[0]), a, ops[1..]);
    }
  }

  /** An extra claim, anywhere in a run, never lowers what anyone is minted in the end. */
  lemma ExtraClaimNeverHurts(s: State, before: seq<Op>, after: seq<Op>, a: Address, b: Address)
    requires Booked(s)
    ensures
      var without, with := Exec(s, before + after), Exec(s, before + [Claims(a)] + after);
      Of(without.minted, b) <= Of(with.minted, b) && (b != a ==> Of(without.minted, b) == Of(with.minted, b))
  {
    hide Step, Booked;
    var mid := Exec(s, before);
    ExecAppend(s, before, after);
    ExecAppend(s, before + [Claims(a)], after);
    ExecAppend(s, before, [Claims(a)]);
    MintedIsPeakEarned(s, before, a);
    assert Exec(mid, [Claims(a)]) == Step(mid, Claims(a)) by {
      assert [Claims(a)][1..] == [];
    }
    StepBooked(mid, Claims(a));
    ClaimIsAhead(mid, a);
    AheadForever(mid, Step(mid, Claims(a)), a, after);
  }

  lemma ClaimIsAhead(s: State, a: Address)
    requires Booked(s)
    ensures AheadFor(s, Step(s, Claims(a)), a)
  {
    hide TotalEarned, Booked;
    ClaimMints(s, Claims(a), a);
  }

  // ----- the contract -----

  class Distribution {
    var volume: map<Address, int>
    var freelanced: map<Address, nat>
    var paidOnTime: map<Address, nat>
    var claimed: map<Address, int>
    var rates: Rates
    var minted: map<Address, int>

    ghost function Contents(): State
      reads this
    {
      State(volume, freelanced, paidOnTime, claimed, rates, minted)
    }

    constructor ()
      ensures Contents() == EMPTY
    {
      volume, freelanced, paidOnTime, claimed, minted := map[], map[], map[], map[], map[];
      rates := Rates(DEFAULT_LP_RATE, DEFAULT_SETTLEMENT_RATE, DEFAULT_SETTLEMENT_RATE);
    }

    method AccrueLp(lp: Address, amount: int)
      modifies this`volume
      ensures Contents() == Step(old(Contents()), Funds(lp, amount))
    {
      if amount <= 0 || amount > MAX_LP_ACCRUAL {
        return;
      }
      var current := Of(volume, lp);
      volume := volume[lp := SatAdd(current, amount)];
    }

    method AccrueSettlement(freelancer: Address, payer: Address, onTime: bool)
      modifies this`freelanced, this`paidOnTime
      ensures Contents() == Step(old(Contents()), Settles(freelancer, payer, onTime))
    {
      freelanced := freelanced[freelancer := Min(U64_MAX, CountOf(freelanced, freelancer) + 1)];
      if onTime {
        paidOnTime := paidOnTime[payer := Min(U64_MAX, CountOf(paidOnTime, payer) + 1)];
      }
    }

    method EarnedBy(a: Address) returns (total: int)
      ensures total == TotalEarned(Contents(), a)
    {
      var lpReward := SatMul(TruncDiv(Of(volume, a), HUNDRED_USDC), rates.lp);
      var freelancerReward := SatMul(CountOf(freelanced, a), rates.freelancer);
      var payerReward := SatMul(CountOf(paidOnTime, a), rates.payer);
      total := SatAdd(SatAdd(lpReward, freelancerReward), payerReward);
    }

    /** Mints what has been earned beyond what was claimed before. */
    method ClaimTokens(claimer: Address) returns (amount: int)
      requires Booked(Contents())
      modifies this`minted, this`claimed
      ensures Contents() == Step(old(Contents()), Claims(claimer)) && Booked(Contents())
      ensures amount == Of(minted, claimer) - old(Of(minted, claimer)) >= 0
    {
      hide TotalEarned, Booked;
      StepBooked(Contents(), Claims(claimer));
      ClaimMints(Contents(), Claims(claimer), claimer);
      var total := EarnedBy(claimer);
      var already := Of(claimed, claimer);
      var claimable := SatSub(total, already);
      if claimable <= 0 {
        return 0;
      }
      minted := minted[claimer := Of(minted, claimer) + claimable];
      claimed := claimed[claimer := SatAdd(already, claimable)];
      amount := claimable;
    }

    method SetLpRewardRate(rate: int)
      modifies this`rates
      ensures Contents() == Step(old(Contents()), SetLpRate(rate))
    {
      rates := rates.(lp := rate);
    }

    method SetFreelancerRewardRate(rate: int)
      modifies this`rates
      ensures Contents() == Step(old(Contents()), SetFreelancerRate(rate))
    {
      rates := rates.(freelancer := rate);
    }

    method SetPayerRewardRate(rate: int)
      modifies this`rates
      ensures Contents() == Step(old(Contents()), SetPayerRate(rate))
    {
      rates := rates.(payer := rate);
    }
  }
}
