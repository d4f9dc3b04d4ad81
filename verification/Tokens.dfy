/** Balances of the governance token. */
module Tokens {
  type Account = nat
  type Balances = map<Account, nat>

  function BalanceOf(bal: Balances, a: Account): nat {
    if a in bal then bal[a] else 0
  }

  function Transfer(bal: Balances, from: Account, to: Account, amount: nat): Balances
    requires amount <= BalanceOf(bal, from)
  {
    if from == to then bal
    else bal[from := BalanceOf(bal, from) - amount][to := BalanceOf(bal, to) + amount]
  }

  // ----- sums over finite sets -----

  ghost function Sum(bal: Balances, s: set<Account>): nat {
    if s == {} then 0
    else
      var a :| a in s;
      BalanceOf(bal, a) + Sum(bal, s - {a})
  }

  lemma {:induction false} SumRemove(bal: Balances, s: set<Account>, a: Account)
    requires a in s
    ensures Sum(bal, s) == BalanceOf(bal, a) + Sum(bal, s - {a})
    decreases s
  {
    var c :| c in s && Sum(bal, s) == BalanceOf(bal, c) + Sum(bal, s - {c});
    if c != a {
      SumRemove(bal, s - {c}, a);
      SumRemove(bal, s - {a}, c);
      assert s - {c} - {a} == s - {a} - {c};
    }
  }

  lemma {:induction false} SumUnion(bal: Balances, s: set<Account>, t: set<Account>)
    requires s !! t
    ensures Sum(bal, s + t) == Sum(bal, s) + Sum(bal, t)
    decreases t
  {
    if t == {} {
      assert s + t == s;
    } else {
      var a :| a in t;
      SumRemove(bal, t, a);
      SumRemove(bal, s + t, a);
      assert s + t - {a} == s + (t - {a});
      SumUnion(bal, s, t - {a});
    }
  }

  lemma SumSubset(bal: Balances, s: set<Account>, t: set<Account>)
    requires s <= t
    ensures Sum(bal, s) + Sum(bal, t - s) == Sum(bal, t)
  {
    assert s + (t - s) == t;
    SumUnion(bal, s, t - s);
  }

  lemma {:induction false} SumUpdate(bal: Balances, a: Account, v: nat, s: set<Account>)
    ensures a !in s ==> Sum(bal[a := v], s) == Sum(bal, s)
    ensures a in s ==> Sum(bal[a := v], s) + BalanceOf(bal, a) == Sum(bal, s) + v
    decreases s
  {
    if s != {} {
      var c :| c in s;
      SumRemove(bal, s, c);
      SumRemove(bal[a := v], s, c);
      SumUpdate(bal, a, v, s - {c});
    }
  }

  lemma {:induction false} SumSame(bal: Balances, bal': Balances, s: set<Account>)
    requires forall a :: a in s ==> BalanceOf(bal, a) == BalanceOf(bal', a)
    ensures Sum(bal, s) == Sum(bal', s)
    decreases s
  {
    if s != {} {
      var a :| a in s;
      SumRemove(bal, s, a);
      SumRemove(bal', s, a);
      SumSame(bal, bal', s - {a});
    }
  }
}
