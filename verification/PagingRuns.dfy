/** Paging through the proposals while the contract runs. */
module PagingRuns {
  import opened Outcomes
  import opened Governance
  import opened GovernanceInvariant
  import opened GovernanceRuns
  import opened ProposalPaging

  /** The registries at successive moments of a run. */
  ghost function Views(states: seq<State>, moments: seq<nat>): seq<Registry>
    requires forall k :: 0 <= k < |moments| ==> moments[k] < |states|
  {
    seq(|moments|, k requires 0 <= k < |moments| => states[moments[k]].reg)
  }

  ghost predicate Moments(states: seq<State>, moments: seq<nat>) {
    && moments != []
    && (forall k :: 0 <= k < |moments| ==> moments[0] <= moments[k] < |states|)
  }

  lemma ViewKeeps(states: seq<State>, ops: seq<Op>, reading: Reading, i: nat, j: nat)
    requires Run(states, ops, reading) && i <= j < |states|
    ensures IdsMatch(states[j].reg.proposals) && states[i].reg.count <= states[j].reg.count
    ensures forall id: nat :: id <= states[i].reg.count ==> (Shows(states[j].reg, None, id) <==> 1 <= id)
  {
    hide IsRun, IdsLeft, Inv;
    RunKeepsInv(states, ops, reading, i);
    RunKeepsInv(states, ops, reading, j);
    forall id: nat
      ensures id in states[i].reg.proposals <==> 1 <= id <= states[i].reg.count
      ensures id in states[j].reg.proposals <==> 1 <= id <= states[j].reg.count
      ensures id in states[j].reg.proposals ==> states[j].reg.proposals[id].id == id
    {
      InvIds(states[i], id);
      InvIds(states[j], id);
    }
    var n := states[i].reg.count;
    if n > 0 {
      assert At(states, i, n);
      ProposalPersists(states, ops, reading, i, j, n);
    }
  }

  /**
   While the contract runs, under any interleaving of calls between the pages, an unfiltered scan
   returns every proposal that existed at its first page, once each, from the newest to the first.
   */
  lemma RunScanIsComplete(states: seq<State>, ops: seq<Op>, reading: Reading, moments: seq<nat>, pageSize: nat)
    requires Run(states, ops, reading) && Moments(states, moments) && pageSize > 0
    requires |moments| > states[moments[0]].reg.count
    ensures
      var n := states[moments[0]].reg.count;
      Ids(Scan(Views(states, moments), None, None, pageSize)) == seq(n, k requires 0 <= k < n => n - k)
  {
    hide Run, Scan, Shows;
    var views, n := Views(states, moments), states[moments[0]].reg.count;
    ViewKeeps(states, ops, reading, moments[0], moments[0]);
    forall k | 0 <= k < |views|
      ensures IdsMatch(views[k].proposals) && n <= views[k].count && ShowSame(views[0], views[k], None, n)
    {
      ViewKeeps(states, ops, reading, moments[0], moments[k]);
    }
    Countdown(views[0], n);
    ScanIsComplete(views, None, pageSize);
  }

  lemma {:induction false} Countdown(reg: Registry, n: nat)
    requires IdsMatch(reg.proposals) && forall id: nat :: 1 <= id <= n ==> Shows(reg, None, id)
    ensures Ids(Below(reg.proposals, None, n)) == seq(n, k requires 0 <= k < n => n - k)
    ensures |Below(reg.proposals, None, n)| == n
  {
    if n > 0 {
      Countdown(reg, n - 1);
      assert Shows(reg, None, n);
      assert Below(reg.proposals, None, n) == [reg.proposals[n]] + Below(reg.proposals, None, n - 1);
      IdsOfSum([reg.proposals[n]], Below(reg.proposals, None, n - 1));
    }
  }

  /** With a filter, a scan of a running contract reads nothing twice and misses no proposal that keeps matching. */
  lemma RunScanMissesNothing(states: seq<State>, ops: seq<Op>, reading: Reading, moments: seq<nat>,
                             status: Option<Status>, pageSize: nat)
    requires Run(states, ops, reading) && Moments(states, moments) && pageSize > 0
    requires |moments| > states[moments[0]].reg.count
    ensures
      var views, n := Views(states, moments), states[moments[0]].reg.count;
      var out := Scan(views, status, None, pageSize);
      WellRead(out, views, status, n) && MissesNothing(out, views, status, n)
  {
    hide Run, Shows, Page;
    var views, n := Views(states, moments), states[moments[0]].reg.count;
    forall k | 0 <= k < |views|
      ensures IdsMatch(views[k].proposals) && n <= views[k].count
    {
      ViewKeeps(states, ops, reading, moments[0], moments[k]);
    }
    FirstPage(views[0], status, pageSize);
    ScanUnderChange(views, status, n, pageSize);
  }
}
