/**
 The weight cast on a proposal along a run, set against the tokens that exist. Every vote spends the
 tokens of the voter and of the delegators whose chain ends there. The account is exact, and each
 entry can be told from the state before the step: the balances, the delegation graph, the stored
 tally and the voter's proof.
 */
module VoteSupply {
  import opened MachineInts
  import opened Tokens
  import opened Delegation
  import opened DelegationTally
  import opened Governance
  import opened GovernanceRuns
  import opened IntegerSqrt
  import opened VoteAccount

  // ----- the accounts a vote speaks for -----

  /** The voter and the delegators whose chain ends there. */
  ghost function Group(s: State, v: Address): set<Address> {
    {v} + Backers(s.book.next, v)
  }

  /** The accounts that votes on `id` have spoken for, as the graph stood at each vote. */
  ghost function Spent(states: seq<State>, ops: seq<Op>, j: nat, id: nat): set<Address>
    requires j < |states| && |states| == |ops| + 1
  {
    if j == 0 then {}
    else
      Spent(states, ops, j - 1, id)
      + if CastsVote(states[j - 1], ops[j - 1], id) then Group(states[j - 1], ops[j - 1].voter) else {}
  }

  lemma {:induction false} NothingSpent(states: seq<State>, ops: seq<Op>, j: nat, id: nat)
    requires j < |states| && |states| == |ops| + 1
    requires forall i :: 0 <= i < j ==> !CastsVote(states[i], ops[i], id)
    ensures Spent(states, ops, j, id) == {}
  {
    hide CastsVote;
    if j > 0 {
      NothingSpent(states, ops, j - 1, id);
    }
  }

  // ----- the entries of the account -----

  /** Tokens in the voter's group whose accounts have been spoken for already. */
  ghost function Repeated(s: State, v: Address, spent: set<Address>): nat {
    Sum(s.host.tokens, Group(s, v) * spent)
  }

  /** The part of the voter's balance that the vote does not prove; negative for a snapshot above the balance. */
  ghost function Unproven(s: State, id: nat, v: Address): int {
    BalanceOf(s.host.tokens, v) - Own(s, id, v)
  }

  /** By how much the stored tally exceeds the balances it stands for. */
  ghost function Misfiled(s: State, v: Address): int {
    WeightOf(s.book.weight, v) - Owed(s.book.next, s.host.tokens, v)
  }

  /** What clipping and the square root take off. */
  ghost function Discount(s: State, id: nat, v: Address): int {
    Own(s, id, v) + WeightOf(s.book.weight, v) - Counted(s, id, v)
  }

  /** Tokens that a step takes out of accounts spoken for. */
  ghost function Leak(s: State, s': State, spent: set<Address>): int {
    Sum(s.host.tokens, spent) - Sum(s'.host.tokens, spent)
  }

  ghost function Entry(s: State, op: Op, s': State, spent: set<Address>, id: nat): int {
    Leak(s, s', spent)
    + if CastsVote(s, op, id) then
        Repeated(s, op.voter, spent) + Misfiled(s, op.voter) - Unproven(s, id, op.voter) - Discount(s, id, op.voter)
      else 0
  }

  /** All entries up to state `j`. */
  ghost function Excess(states: seq<State>, ops: seq<Op>, j: nat, id: nat): int
    requires j < |states| && |states| == |ops| + 1
  {
    if j == 0 then 0
    else
      Excess(states, ops, j - 1, id)
      + Entry(states[j - 1], ops[j - 1], states[j], Spent(states, ops, j - 1, id), id)
  }

  // ----- the account balances -----

  lemma GroupHolds(s: State, v: Address)
    requires ValidBook(s.book)
    ensures Sum(s.host.tokens, Group(s, v)) == BalanceOf(s.host.tokens, v) + Owed(s.book.next, s.host.tokens, v)
  {
    var backers := Backers(s.book.next, v);
    UpstreamEnds(s.book.next, v);
    assert v !in backers;
    SumRemove(s.host.tokens, Group(s, v), v);
    assert Group(s, v) - {v} == backers;
  }

  lemma SumSplit(bal: Balances, group: set<Address>, spent: set<Address>)
    ensures Sum(bal, spent + group) + Sum(bal, group * spent) == Sum(bal, spent) + Sum(bal, group)
  {
    SumUnion(bal, spent, group - spent);
    assert spent + (group - spent) == spent + group;
    SumSubset(bal, group * spent, group);
    assert group - group * spent == group - spent;
  }

  /** One step moves the weight cast and the tokens spent apart by exactly its entry. */
  lemma EntryBalances(states: seq<State>, ops: seq<Op>, reading: Reading, i: nat, id: nat)
    requires Run(states, ops, reading) && i < |ops|
    ensures
      var spent, spent' := Spent(states, ops, i, id), Spent(states, ops, i + 1, id);
      Cast(states[i + 1].events, id) - Sum(states[i + 1].host.tokens, spent')
      == Cast(states[i].events, id) - Sum(states[i].host.tokens, spent)
         + Entry(states[i], ops[i], states[i + 1], spent, id)
  {
    hide Initial, Transact, Cast, Step, Counted, Own, ValidBook, Sum;
    CastStep(states, ops, reading, i, id);
    if CastsVote(states[i], ops[i], id) {
      var s, v := states[i], ops[i].voter;
      GroupHolds(s, v);
      SumSplit(s.host.tokens, Group(s, v), Spent(states, ops, i, id));
    } else {
      assert Spent(states, ops, i + 1, id) == Spent(states, ops, i, id);
    }
  }

  /** In every run the weight cast on a proposal is what the accounts spoken for hold, plus the entries. */
  lemma {:induction false} CastIsSpentPlusExcess(states: seq<State>, ops: seq<Op>, reading: Reading, j: nat, id: nat)
    requires Run(states, ops, reading) && j < |states|
    ensures Cast(states[j].events, id) ==
              Sum(states[j].host.tokens, Spent(states, ops, j, id)) + Excess(states, ops, j, id)
  {
    hide Transact, Entry, Step;
    if j == 0 {
      assert states[0].events == [];
    } else {
      hide Initial, Cast, Spent;
      CastIsSpentPlusExcess(states, ops, reading, j - 1, id);
      EntryBalances(states, ops, reading, j - 1, id);
    }
  }

  /**
   The weight cast on a proposal is within all tokens there are, in a given state of a run, if and
   only if the entries so far add up to no more than the accounts nobody has spoken for hold there;
   and likewise for the supply that the contract has on record.
   */
  lemma CastWithinSupplyIff(states: seq<State>, ops: seq<Op>, reading: Reading, j: nat, id: nat)
    requires Run(states, ops, reading) && j < |states|
    ensures
      var s, bal, spent := states[j], states[j].host.tokens, Spent(states, ops, j, id);
      && (Cast(s.events, id) <= Sum(bal, bal.Keys) <==> Excess(states, ops, j, id) <= Sum(bal, bal.Keys - spent))
      && (Cast(s.events, id) <= s.cfg.totalSupply <==>
            Excess(states, ops, j, id) <= s.cfg.totalSupply - Sum(bal, spent))
  {
    hide Initial, Transact, Cast, Excess, Spent;
    CastIsSpentPlusExcess(states, ops, reading, j, id);
    SumOfHolders(states[j].host.tokens, Spent(states, ops, j, id));
  }

  lemma SumOfHolders(bal: Balances, s: set<Address>)
    ensures Sum(bal, s) + Sum(bal, bal.Keys - s) == Sum(bal, bal.Keys)
  {
    var holders := s * bal.Keys;
    SumSubset(bal, holders, s);
    NoHolders(bal, s - holders);
    SumSubset(bal, holders, bal.Keys);
    assert bal.Keys - holders == bal.Keys - s;
  }

  lemma {:induction false} NoHolders(bal: Balances, s: set<Address>)
    requires s !! bal.Keys
    ensures Sum(bal, s) == 0
    decreases s
  {
    if s != {} {
      var a :| a in s;
      SumRemove(bal, s, a);
      NoHolders(bal, s - {a});
    }
  }

  // ----- a guard for each step -----

  /**
   A vote spends no account twice, proves no more than the voter holds and uses a tally no larger
   than the balances behind it; and no step takes tokens out of accounts spoken for.
   */
  ghost predicate Guarded(s: State, op: Op, s': State, spent: set<Address>, id: nat) {
    && Sum(s.host.tokens, spent) <= Sum(s'.host.tokens, spent)
    && (CastsVote(s, op, id) ==>
          && Group(s, op.voter) !! spent
          && Own(s, id, op.voter) <= BalanceOf(s.host.tokens, op.voter)
          && WeightOf(s.book.weight, op.voter) <= Owed(s.book.next, s.host.tokens, op.voter))
  }

  lemma GuardedEntry(s: State, op: Op, s': State, spent: set<Address>, id: nat)
    requires Guarded(s, op, s', spent, id) && ValidBook(s.book)
    ensures Entry(s, op, s', spent, id) <= 0
  {
    hide Step, Own, Isqrt, Mirrored;
    if CastsVote(s, op, id) {
      assert Group(s, op.voter) * spent == {};
      SqrtFits(Max(Min(I128_MAX, Own(s, id, op.voter) + WeightOf(s.book.weight, op.voter)), 0));
    }
  }

  /** While every step keeps its guard, the weight cast is within the tokens spoken for, and so within all. */
  lemma {:induction false} GuardedCastWithinSupply(states: seq<State>, ops: seq<Op>, reading: Reading, j: nat, id: nat)
    requires Run(states, ops, reading) && j < |states|
    requires forall i :: 0 <= i < j ==> Guarded(states[i], ops[i], states[i + 1], Spent(states, ops, i, id), id)
    ensures Excess(states, ops, j, id) <= 0
    ensures
      var bal := states[j].host.tokens;
      Cast(states[j].events, id) <= Sum(bal, Spent(states, ops, j, id)) <= Sum(bal, bal.Keys)
  {
    hide Initial, Transact, Cast, Spent, Entry, Guarded, ValidBook;
    if j > 0 {
      GuardedCastWithinSupply(states, ops, reading, j - 1, id);
      CastStep(states, ops, reading, j - 1, id);
      GuardedEntry(states[j - 1], ops[j - 1], states[j], Spent(states, ops, j - 1, id), id);
    }
    CastIsSpentPlusExcess(states, ops, reading, j, id);
    SumOfHolders(states[j].host.tokens, Spent(states, ops, j, id));
  }
}
