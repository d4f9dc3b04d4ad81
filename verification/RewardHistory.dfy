/** Rewards told from the history of calls alone: what was funded and settled, and the last rates set. */
module RewardHistory {
  import opened MachineInts
  import opened RewardDistribution

  // ----- the reference -----

  function LastLpRate(ops: seq<Op>): int {
    if ops == [] then 10_000_000
    else
      var op := ops[|ops| - 1];
      if op.SetLpRate? then op.rate else LastLpRate(ops[..|ops| - 1])
  }

  function LastFreelancerRate(ops: seq<Op>): int {
    if ops == [] then 5_000_000
    else
      var op := ops[|ops| - 1];
      if op.SetFreelancerRate? then op.rate else LastFreelancerRate(ops[..|ops| - 1])
  }

  function LastPayerRate(ops: seq<Op>): int {
    if ops == [] then 5_000_000
    else
      var op := ops[|ops| - 1];
      if op.SetPayerRate? then op.rate else LastPayerRate(ops[..|ops| - 1])
  }

  /** One reward for every full 100 USDC funded, at the last LP rate. */
  function LpReward(ops: seq<Op>, a: Address): int {
    Min(I128_MAX, Funded(ops, a)) / 1_000_000_000 * LastLpRate(ops)
  }

  function FreelancerReward(ops: seq<Op>, a: Address): int {
    Min(U64_MAX, Settlements(ops, a)) * LastFreelancerRate(ops)
  }

  function PayerReward(ops: seq<Op>, a: Address): int {
    Min(U64_MAX, OnTimePayments(ops, a)) * LastPayerRate(ops)
  }

  /** The three rewards added up, clipped to 128 bits at every product and sum. */
  function Earned(ops: seq<Op>, a: Address): int {
    Saturate(Saturate(Saturate(LpReward(ops, a)) + Saturate(FreelancerReward(ops, a))) + Saturate(PayerReward(ops, a)))
  }

  // ----- the contract computes it -----

  lemma RatesStep(s: State, op: Op)
    ensures
      var r, r' := s.rates, Step(s, op).rates;
      && r'.lp == (if op.SetLpRate? then op.rate else r.lp)
      && r'.freelancer == (if op.SetFreelancerRate? then op.rate else r.freelancer)
      && r'.payer == (if op.SetPayerRate? then op.rate else r.payer)
  {
    hide TotalEarned;
  }

  lemma {:induction false} RatesAreLastSet(ops: seq<Op>)
    ensures Exec(EMPTY, ops).rates == Rates(LastLpRate(ops), LastFreelancerRate(ops), LastPayerRate(ops))
    decreases |ops|
  {
    hide Step;
    if ops != [] {
      var front, op := ops[..|ops| - 1], ops[|ops| - 1];
      assert ops == front + [op] && [op][1..] == [];
      RatesAreLastSet(front);
      ExecAppend(EMPTY, front, [op]);
      assert Exec(Exec(EMPTY, front), [op]) == Step(Exec(EMPTY, front), op);
      RatesStep(Exec(EMPTY, front), op);
    }
  }

  lemma TotalOf(s: State, a: Address)
    requires Of(s.volume, a) >= 0
    ensures TotalEarned(s, a) ==
              Saturate(Saturate(Saturate(Of(s.volume, a) / 1_000_000_000 * s.rates.lp)
                                + Saturate(CountOf(s.freelanced, a) * s.rates.freelancer))
                       + Saturate(CountOf(s.paidOnTime, a) * s.rates.payer))
  {
    hide Saturate;
  }

  /**
   After any history, what a participant has earned is the volume funded in full hundreds times the
   last LP rate, plus the settlements times the last freelancer rate, plus the payments on time
   times the last payer rate, clipped to the integer types.
   */
  lemma EarnedFromHistory(ops: seq<Op>, a: Address)
    ensures TotalEarned(Exec(EMPTY, ops), a) == Earned(ops, a)
  {
    hide TotalEarned, Saturate, Step, Funded, Settlements, OnTimePayments;
    CountersAreTotals(EMPTY, ops, a);
    RatesAreLastSet(ops);
    TotalOf(Exec(EMPTY, ops), a);
  }

  /** Where nothing leaves its integer type, that is the plain sum. */
  lemma EarnedExactly(ops: seq<Op>, a: Address)
    requires Funded(ops, a) <= I128_MAX && Settlements(ops, a) <= U64_MAX && OnTimePayments(ops, a) <= U64_MAX
    requires FitsI128(LpReward(ops, a)) && FitsI128(FreelancerReward(ops, a)) && FitsI128(PayerReward(ops, a))
    requires FitsI128(LpReward(ops, a) + FreelancerReward(ops, a))
    requires FitsI128(LpReward(ops, a) + FreelancerReward(ops, a) + PayerReward(ops, a))
    ensures TotalEarned(Exec(EMPTY, ops), a) ==
              Funded(ops, a) / 1_000_000_000 * LastLpRate(ops)
              + Settlements(ops, a) * LastFreelancerRate(ops)
              + OnTimePayments(ops, a) * LastPayerRate(ops)
  {
    hide TotalEarned, Funded, Settlements, OnTimePayments, Exec;
    EarnedFromHistory(ops, a);
  }

  /**
   What has been minted, from the history alone: the largest amount earned by the calls before any
   of the participant's claims, or nothing if that was never positive.
   */
  lemma MintedFromHistory(ops: seq<Op>, a: Address)
    ensures
      var minted := Of(Exec(EMPTY, ops).minted, a);
      && minted >= 0
      && (forall i :: 0 <= i < |ops| && ops[i] == Claims(a) ==> Earned(ops[..i], a) <= minted)
      && (minted == 0 || exists i :: 0 <= i < |ops| && ops[i] == Claims(a) && Earned(ops[..i], a) == minted)
  {
    hide TotalEarned, Earned, Exec, Peak;
    MintedFromScratch(ops, a);
    PeakIsAttained(EMPTY, ops, a, 0);
    forall i | 0 <= i < |ops| && ops[i] == Claims(a)
      ensures TotalEarned(Exec(EMPTY, ops[..i]), a) == Earned(ops[..i], a)
    {
      EarnedFromHistory(ops[..i], a);
    }
  }
}
