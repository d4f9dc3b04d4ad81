/** Paging through the proposals, newest first. */
module ProposalPaging {
  import opened MachineInts
  import opened Outcomes
  import opened Governance

  const MAX_PAGE_SIZE: nat := 20

  predicate Matches(p: Proposal, status: Option<Status>) {
    status.None? || p.status == status.value
  }

  /** All matching proposals with an id up to `n`, in descending order of id. */
  function Below(proposals: map<nat, Proposal>, status: Option<Status>, n: nat): seq<Proposal> {
    if n == 0 then []
    else
      (if n in proposals && Matches(proposals[n], status) then [proposals[n]] else [])
      + Below(proposals, status, n - 1)
  }

  /** The id a page starts from. */
  function Start(count: nat, cursor: Option<nat>): nat {
    if cursor.None? then count
    else if cursor.value <= 1 then 0
    else Min(cursor.value - 1, count)
  }

  function Take(all: seq<Proposal>, n: nat): seq<Proposal> {
    if n <= |all| then all[..n] else all
  }

  function Page(reg: Registry, status: Option<Status>, cursor: Option<nat>, pageSize: nat): seq<Proposal> {
    Take(Below(reg.proposals, status, Start(reg.count, cursor)), Min(MAX_PAGE_SIZE, pageSize))
  }

  method ListProposals(reg: Registry, status: Option<Status>, cursor: Option<nat>, pageSize: nat)
    returns (page: seq<Proposal>)
    ensures page == Page(reg, status, cursor, pageSize)
  {
    hide Below, Matches, Take;
    page := [];
    NothingBelow(reg.proposals, status);
    if reg.count == 0 || pageSize == 0 {
      TakeNone(Below(reg.proposals, status, Start(reg.count, cursor)), Min(MAX_PAGE_SIZE, pageSize));
      return;
    }
    var size := if pageSize > MAX_PAGE_SIZE then MAX_PAGE_SIZE else pageSize;
    var start := reg.count;
    if cursor.Some? {
      if cursor.value <= 1 {
        TakeNone([], size);
        return;
      }
      start := Min(cursor.value - 1, reg.count);
    }
    var id := start;
    ghost var all := Below(reg.proposals, status, start);
    while id > 0
      invariant 0 <= id <= start && |page| < size
      invariant all == page + Below(reg.proposals, status, id)
    {
      BelowNext(reg.proposals, status, id, page);
      if id in reg.proposals && Matches(reg.proposals[id], status) {
        page := page + [reg.proposals[id]];
        if |page| == size {
          TakeFirst(page, Below(reg.proposals, status, id - 1), size);
          return;
        }
      }
      id := id - 1;
    }
    TakeFirst(page, [], size);
  }

  lemma TakeNone(all: seq<Proposal>, n: nat)
    requires all == [] || n == 0
    ensures Take(all, n) == []
  {
  }

  lemma TakeFirst(page: seq<Proposal>, rest: seq<Proposal>, n: nat)
    requires |page| == n || (|page| < n && rest == [])
    ensures Take(page + rest, n) == page
  {
  }

  lemma BelowNext(proposals: map<nat, Proposal>, status: Option<Status>, n: nat, page: seq<Proposal>)
    requires n > 0
    ensures
      var found := if n in proposals && Matches(proposals[n], status) then [proposals[n]] else [];
      page + Below(proposals, status, n) == (page + found) + Below(proposals, status, n - 1)
  {
    hide Matches;
  }

  lemma NothingBelow(proposals: map<nat, Proposal>, status: Option<Status>)
    ensures Below(proposals, status, 0) == []
  {
  }

  // ----- what a scan returns -----

  ghost predicate IdsMatch(proposals: map<nat, Proposal>) {
    forall id :: id in proposals ==> proposals[id].id == id
  }

  ghost predicate Descending(ps: seq<Proposal>) {
    forall i, j :: 0 <= i < j < |ps| ==> ps[i].id > ps[j].id
  }

  /** The reference list holds exactly the matching proposals, once each, newest first. */
  lemma {:induction false} BelowIsExact(proposals: map<nat, Proposal>, status: Option<Status>, n: nat)
    requires IdsMatch(proposals)
    ensures forall p :: p in Below(proposals, status, n) <==>
              1 <= p.id <= n && p.id in proposals && proposals[p.id] == p && Matches(p, status)
    ensures Descending(Below(proposals, status, n))
  {
    if n > 0 {
      BelowIsExact(proposals, status, n - 1);
    }
  }

  /** What follows an element of the list is the list below that element. */
  lemma {:induction false} BelowAfter(proposals: map<nat, Proposal>, status: Option<Status>, n: nat, k: nat)
    requires IdsMatch(proposals) && k < |Below(proposals, status, n)|
    ensures
      var all := Below(proposals, status, n);
      1 <= all[k].id <= n && all[k + 1..] == Below(proposals, status, all[k].id - 1)
  {
    var all, rest := Below(proposals, status, n), Below(proposals, status, n - 1);
    if n in proposals && Matches(proposals[n], status) {
      assert all == [proposals[n]] + rest;
      if k > 0 {
        BelowAfter(proposals, status, n - 1, k - 1);
        assert all[k + 1..] == rest[k..];
      } else {
        assert all[1..] == rest;
      }
    } else {
      assert all == rest;
      BelowAfter(proposals, status, n - 1, k);
    }
  }

  function Ids(ps: seq<Proposal>): seq<nat> {
    seq(|ps|, i requires 0 <= i < |ps| => ps[i].id)
  }

  lemma IdsOfSum(a: seq<Proposal>, b: seq<Proposal>)
    ensures Ids(a + b) == Ids(a) + Ids(b)
  {
  }

  /** A client that reads page after page, each from the registry of that moment, until one is empty. */
  ghost function Scan(views: seq<Registry>, status: Option<Status>, cursor: Option<nat>, pageSize: nat): seq<Proposal> {
    if views == [] then []
    else
      var page := Page(views[0], status, cursor, pageSize);
      if page == [] then []
      else page + Scan(views[1..], status, Some(page[|page| - 1].id), pageSize)
  }

  /** The proposal `id` is there and passes the filter. */
  ghost predicate Shows(reg: Registry, status: Option<Status>, id: nat) {
    id in reg.proposals && Matches(reg.proposals[id], status)
  }

  ghost predicate Readable(views: seq<Registry>, n: nat) {
    forall i :: 0 <= i < |views| ==> IdsMatch(views[i].proposals) && n <= views[i].count
  }

  /** A page is the first part of the reference list; what follows it lies below its last id. */
  lemma PageIs(reg: Registry, status: Option<Status>, n: nat, pageSize: nat)
    requires IdsMatch(reg.proposals) && n <= reg.count && pageSize > 0
    ensures
      var all, page := Below(reg.proposals, status, n), Page(reg, status, Some(n + 1), pageSize);
      && page <= all && (page == [] <==> all == [])
      && (page != [] ==>
            var last := page[|page| - 1].id;
            1 <= last <= n && all == page + Below(reg.proposals, status, last - 1))
  {
    hide Below, Matches;
    var all, page := Below(reg.proposals, status, n), Page(reg, status, Some(n + 1), pageSize);
    assert Start(reg.count, Some(n + 1)) == n;
    if page != [] {
      BelowAfter(reg.proposals, status, n, |page| - 1);
      assert all == page + all[|page|..];
    }
  }

  /** What a caller may see: below the cursor and of the status asked for. */
  ghost predicate Asked(p: Proposal, status: Option<Status>, cursor: Option<nat>) {
    (cursor.None? || p.id < cursor.value) && (status.None? || p.status == status.value)
  }

  /**
   A page holds at most 20 proposals and at most as many as asked for, newest first; each is asked
   for; and whatever is asked for and missing is older than a page that is full.
   */
  lemma PageIsExact(reg: Registry, status: Option<Status>, cursor: Option<nat>, pageSize: nat)
    requires IdsMatch(reg.proposals) && forall id :: id in reg.proposals ==> 1 <= id <= reg.count
    ensures
      var page := Page(reg, status, cursor, pageSize);
      && Descending(page) && |page| <= Min(20, pageSize)
      && (forall p :: p in page ==> p.id in reg.proposals && reg.proposals[p.id] == p && Asked(p, status, cursor))
      && (forall id :: id in reg.proposals && Asked(reg.proposals[id], status, cursor) ==>
            reg.proposals[id] in page
            || (|page| == Min(20, pageSize) && forall p :: p in page ==> p.id > id))
  {
    hide Below;
    var n, all, page := Start(reg.count, cursor), Below(reg.proposals, status, Start(reg.count, cursor)),
                        Page(reg, status, cursor, pageSize);
    BelowIsExact(reg.proposals, status, n);
    assert page <= all;
    forall p | p in page
      ensures p in all
    {
      var i :| 0 <= i < |page| && page[i] == p;
      assert all[i] == p;
    }
    forall id | id in reg.proposals && Asked(reg.proposals[id], status, cursor) && reg.proposals[id] !in page
      ensures |page| == Min(20, pageSize) && forall p :: p in page ==> p.id > id
    {
      assert reg.proposals[id] in all;
      var k :| 0 <= k < |all| && all[k] == reg.proposals[id];
      assert k >= |page|;
    }
  }

  // ----- scans while the filter result stays -----

  /** Registries that show the same ids up to `n`; tallies, and statuses the filter ignores, may differ. */
  ghost predicate ShowSame(a: Registry, b: Registry, status: Option<Status>, n: nat) {
    forall id: nat :: id <= n ==> (Shows(a, status, id) <==> Shows(b, status, id))
  }

  lemma {:induction false} BelowSame(a: Registry, b: Registry, status: Option<Status>, n: nat, m: nat)
    requires ShowSame(a, b, status, n) && m <= n && IdsMatch(a.proposals) && IdsMatch(b.proposals)
    ensures Ids(Below(a.proposals, status, m)) == Ids(Below(b.proposals, status, m))
    decreases m
  {
    hide Matches;
    if m > 0 {
      BelowSame(a, b, status, n, m - 1);
      var fa := if Shows(a, status, m) then [a.proposals[m]] else [];
      var fb := if Shows(b, status, m) then [b.proposals[m]] else [];
      assert Shows(a, status, m) <==> Shows(b, status, m);
      IdsOfSum(fa, Below(a.proposals, status, m - 1));
      IdsOfSum(fb, Below(b.proposals, status, m - 1));
      assert Ids(fa) == Ids(fb);
    }
  }

  lemma {:induction false} ScanFromCursor(reg: Registry, views: seq<Registry>, status: Option<Status>, n: nat,
                                          pageSize: nat)
    requires IdsMatch(reg.proposals) && pageSize > 0 && |views| > |Below(reg.proposals, status, n)|
    requires Readable(views, n) && forall i :: 0 <= i < |views| ==> ShowSame(reg, views[i], status, n)
    ensures Ids(Scan(views, status, Some(n + 1), pageSize)) == Ids(Below(reg.proposals, status, n))
    decreases |views|
  {
    hide Below, Matches, Page, Shows;
    BelowSame(reg, views[0], status, n, n);
    PageIs(views[0], status, n, pageSize);
    var page := Page(views[0], status, Some(n + 1), pageSize);
    if page != [] {
      var last := page[|page| - 1].id;
      BelowSame(reg, views[0], status, n, last - 1);
      var rest := Below(views[0].proposals, status, last - 1);
      IdsOfSum(page, rest);
      assert |Ids(page + rest)| == |page| + |rest|;
      ScanFromCursor(reg, views[1..], status, last - 1, pageSize);
      IdsOfSum(page, Scan(views[1..], status, Some(last), pageSize));
    }
  }

  /**
   Reading pages of any positive size until one is empty returns the ids that match at the first
   page, once each and newest first, as long as every later page shows the same of them.
   */
  lemma ScanIsComplete(views: seq<Registry>, status: Option<Status>, pageSize: nat)
    requires pageSize > 0 && views != [] && Readable(views, views[0].count)
    requires |views| > |Below(views[0].proposals, status, views[0].count)|
    requires forall i :: 0 <= i < |views| ==> ShowSame(views[0], views[i], status, views[0].count)
    ensures Ids(Scan(views, status, None, pageSize)) == Ids(Below(views[0].proposals, status, views[0].count))
  {
    FirstPage(views[0], status, pageSize);
    ScanFromCursor(views[0], views, status, views[0].count, pageSize);
  }

  lemma FirstPage(reg: Registry, status: Option<Status>, pageSize: nat)
    ensures Page(reg, status, None, pageSize) == Page(reg, status, Some(reg.count + 1), pageSize)
  {
  }

  // ----- scans while anything changes -----

  /** What a scan returned: in descending order, and each shown by the view of its page. */
  ghost predicate WellRead(out: seq<Proposal>, views: seq<Registry>, status: Option<Status>, n: nat) {
    && Descending(out)
    && forall p :: p in out ==> 1 <= p.id <= n && ReadFrom(p, views, status)
  }

  ghost predicate ReadFrom(p: Proposal, views: seq<Registry>, status: Option<Status>) {
    exists i :: 0 <= i < |views| && Shows(views[i], status, p.id) && views[i].proposals[p.id] == p
  }

  ghost predicate AlwaysShown(views: seq<Registry>, status: Option<Status>, id: nat) {
    forall i :: 0 <= i < |views| ==> Shows(views[i], status, id)
  }

  ghost predicate MissesNothing(out: seq<Proposal>, views: seq<Registry>, status: Option<Status>, n: nat) {
    forall id :: 1 <= id <= n && AlwaysShown(views, status, id) ==> id in Ids(out)
  }

  /** However the registry changes between pages, nothing is read twice and nothing that stays is missed. */
  lemma {:induction false} ScanUnderChange(views: seq<Registry>, status: Option<Status>, n: nat, pageSize: nat)
    requires pageSize > 0 && |views| > n && Readable(views, n)
    ensures WellRead(Scan(views, status, Some(n + 1), pageSize), views, status, n)
    ensures MissesNothing(Scan(views, status, Some(n + 1), pageSize), views, status, n)
    decreases |views|
  {
    hide Below, Matches, Page, Shows, WellRead, MissesNothing;
    var page := Page(views[0], status, Some(n + 1), pageSize);
    PageIs(views[0], status, n, pageSize);
    if page == [] {
      NothingRead(views, status, n);
    } else {
      var last := page[|page| - 1].id;
      ScanUnderChange(views[1..], status, last - 1, pageSize);
      PageThenTail(views, status, n, page, Scan(views[1..], status, Some(last), pageSize));
    }
  }

  lemma NothingRead(views: seq<Registry>, status: Option<Status>, n: nat)
    requires views != [] && Below(views[0].proposals, status, n) == []
    ensures WellRead([], views, status, n) && MissesNothing([], views, status, n)
  {
    hide Below, Shows;
    forall id | 1 <= id <= n
      ensures !AlwaysShown(views, status, id)
    {
      NoneShown(views[0], status, n, id);
    }
  }

  lemma PageThenTail(views: seq<Registry>, status: Option<Status>, n: nat, page: seq<Proposal>, tail: seq<Proposal>)
    requires views != [] && IdsMatch(views[0].proposals) && page != [] && 1 <= page[|page| - 1].id <= n
    requires
      var last := page[|page| - 1].id;
      && Below(views[0].proposals, status, n) == page + Below(views[0].proposals, status, last - 1)
      && WellRead(tail, views[1..], status, last - 1) && MissesNothing(tail, views[1..], status, last - 1)
    ensures WellRead(page + tail, views, status, n) && MissesNothing(page + tail, views, status, n)
  {
    hide Below, Matches, Shows, WellRead;
    var last := page[|page| - 1].id;
    TailRead(views, status, tail, last - 1);
    PageRead(views, status, n, page, tail, last);
    IdsOfSum(page, tail);
    forall id | 1 <= id <= n && AlwaysShown(views, status, id)
      ensures id in Ids(page + tail)
    {
      PageOrTail(views, status, n, page, last, id);
    }
  }

  lemma {:induction false} NoneShown(reg: Registry, status: Option<Status>, n: nat, id: nat)
    requires Below(reg.proposals, status, n) == [] && 1 <= id <= n
    ensures !Shows(reg, status, id)
  {
    if id < n {
      NoneShown(reg, status, n - 1, id);
    }
  }

  /** The reference list holds the proposals a registry shows. */
  lemma BelowShows(reg: Registry, status: Option<Status>, n: nat)
    requires IdsMatch(reg.proposals)
    ensures forall p :: p in Below(reg.proposals, status, n) <==>
              1 <= p.id <= n && Shows(reg, status, p.id) && reg.proposals[p.id] == p
    ensures Descending(Below(reg.proposals, status, n))
  {
    BelowIsExact(reg.proposals, status, n);
  }

  lemma TailRead(views: seq<Registry>, status: Option<Status>, tail: seq<Proposal>, n: nat)
    requires views != [] && WellRead(tail, views[1..], status, n)
    ensures WellRead(tail, views, status, n)
  {
    hide Matches;
    forall p | p in tail
      ensures ReadFrom(p, views, status)
    {
      assert ReadFrom(p, views[1..], status);
      var i :| 0 <= i < |views[1..]| && Shows(views[1..][i], status, p.id) && views[1..][i].proposals[p.id] == p;
      assert views[i + 1] == views[1..][i];
    }
  }

  lemma PageRead(views: seq<Registry>, status: Option<Status>, n: nat, page: seq<Proposal>, tail: seq<Proposal>,
                 last: nat)
    requires views != [] && IdsMatch(views[0].proposals) && page != [] && page[|page| - 1].id == last && 1 <= last <= n
    requires page <= Below(views[0].proposals, status, n) && WellRead(tail, views, status, last - 1)
    ensures WellRead(page + tail, views, status, n)
  {
    hide Below, Shows;
    BelowShows(views[0], status, n);
    var all := Below(views[0].proposals, status, n);
    forall p | p in page
      ensures last <= p.id <= n && ReadFrom(p, views, status)
    {
      var i :| 0 <= i < |page| && page[i] == p;
      assert all[i] == p && all[|page| - 1].id == last;
    }
    assert forall i :: 0 <= i < |page| ==> page[i] in page && page[i] == all[i];
    assert forall i :: 0 <= i < |tail| ==> tail[i] in tail;
  }

  lemma PageOrTail(views: seq<Registry>, status: Option<Status>, n: nat, page: seq<Proposal>, last: nat, id: nat)
    requires views != [] && IdsMatch(views[0].proposals) && 1 <= id <= n && AlwaysShown(views, status, id)
    requires 1 <= last && Below(views[0].proposals, status, n) == page + Below(views[0].proposals, status, last - 1)
    ensures id in Ids(page) || (1 <= id <= last - 1 && AlwaysShown(views[1..], status, id))
  {
    hide Below, Shows;
    var reg := views[0];
    assert Shows(reg, status, id);
    BelowShows(reg, status, n);
    BelowShows(reg, status, last - 1);
    ShownRecord(reg, status, id);
    var p := reg.proposals[id];
    assert p in page + Below(reg.proposals, status, last - 1);
    if p in page {
      var i :| 0 <= i < |page| && page[i] == p;
      assert Ids(page)[i] == id;
    }
    assert forall i :: 0 <= i < |views| - 1 ==> views[1..][i] == views[i + 1];
  }

  lemma ShownRecord(reg: Registry, status: Option<Status>, id: nat)
    requires Shows(reg, status, id) && IdsMatch(reg.proposals)
    ensures id in reg.proposals && reg.proposals[id].id == id
  {
  }
}
