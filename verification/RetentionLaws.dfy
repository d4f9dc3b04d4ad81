/** What a pruning run keeps: the newest backup, one per bucket, no more than the policy allows. */
module RetentionLaws {
  import opened Calendar
  import opened MachineInts
  import opened Retention

  ghost predicate DistinctFiles(s: seq<Backup>) {
    forall i, j :: 0 <= i < j < |s| ==> s[i].file != s[j].file
  }

  // ----- what is kept -----

  /** The first backup behind the newest that shares the bucket of `s[i]`. */
  lemma {:induction false} FirstOfBucket(p: Policy, s: seq<Backup>, i: nat) returns (k: nat)
    requires 0 < i < |s| && !BucketAt(p, s, i).Expired?
    ensures 0 < k <= i && BucketAt(p, s, k) == BucketAt(p, s, i) && Chosen(p, s, k)
  {
    hide BucketOf;
    k := i;
    if j :| 0 < j < i && BucketAt(p, s, j) == BucketAt(p, s, i) {
      k := FirstOfBucket(p, s, j);
    }
  }

  /**
   Every listed backup that is in some window is covered by a kept one of the same day, week or month
   that is at least as new; the newest backup itself is always kept.
   */
  lemma EveryBucketCovered(p: Policy, listing: seq<Backup>, e: Backup) returns (k: Backup)
    requires e in listing
    ensures
      var s := NewestFirst(listing);
      && s != [] && s[0] in listing && s[0].file in Kept(p, s)
      && (!BucketOf(p, s[0].time, e.time).Expired? ==>
            && k in listing && k.file in Kept(p, s) && k.time >= e.time
            && BucketOf(p, s[0].time, k.time) == BucketOf(p, s[0].time, e.time))
  {
    hide BucketOf, Chosen;
    var s := NewestFirst(listing);
    SortedListing(listing);
    assert e in multiset(s);
    var i :| 0 <= i < |s| && s[i] == e;
    assert s[0] in multiset(listing);
    FirstChosen(p, s);
    k := s[0];
    if i > 0 && !BucketAt(p, s, i).Expired? {
      var j := FirstOfBucket(p, s, i);
      k := s[j];
      assert k in multiset(listing);
    }
  }

  /** Behind the newest, no two backups of one bucket are chosen and none that is past every window. */
  lemma OnePerBucket(p: Policy, s: seq<Backup>, i: nat, j: nat)
    requires 0 < i < |s| && 0 < j < |s| && Chosen(p, s, i) && Chosen(p, s, j)
    ensures !BucketAt(p, s, i).Expired?
    ensures BucketAt(p, s, i) == BucketAt(p, s, j) ==> i == j
  {
    hide BucketOf;
  }

  // ----- a second run -----

  function Survivors(s: seq<Backup>, keep: set<string>): seq<Backup> {
    if s == [] then []
    else Survivors(s[..|s| - 1], keep) + if s[|s| - 1].file in keep then [s[|s| - 1]] else []
  }

  lemma {:induction false} SurvivorIff(s: seq<Backup>, keep: set<string>, b: Backup)
    ensures b in Survivors(s, keep) <==> b in s && b.file in keep
  {
    if s != [] {
      assert s == s[..|s| - 1] + [s[|s| - 1]];
      SurvivorIff(s[..|s| - 1], keep, b);
    }
  }

  lemma {:induction false} SurvivorsDistinct(s: seq<Backup>, keep: set<string>)
    requires DistinctFiles(s)
    ensures DistinctFiles(Survivors(s, keep))
  {
    if s != [] {
      var front := s[..|s| - 1];
      SurvivorsDistinct(front, keep);
      var kept := Survivors(front, keep);
      forall i | 0 <= i < |kept|
        ensures kept[i].file != s[|s| - 1].file
      {
        SurvivorIff(front, keep, kept[i]);
      }
    }
  }

  lemma {:induction false} DistinctListings(a: seq<Backup>, b: seq<Backup>)
    requires DistinctFiles(a) && multiset(a) == multiset(b)
    ensures DistinctFiles(b)
  {
    forall i, j | 0 <= i < j < |b|
      ensures b[i].file != b[j].file
    {
      assert b == b[..i] + [b[i]] + b[i + 1..j] + [b[j]] + b[j + 1..];
      assert b[i] in multiset(a) && b[j] in multiset(a);
      if b[i] == b[j] {
        assert multiset(b)[b[i]] >= 2;
        CountsOnce(a, b[i]);
      } else if b[i].file == b[j].file {
        assert false;
      }
    }
  }

  lemma {:induction false} CountsOnce(s: seq<Backup>, b: Backup)
    requires DistinctFiles(s)
    ensures multiset(s)[b] <= 1
  {
    if s != [] {
      assert s == s[..|s| - 1] + [s[|s| - 1]];
      CountsOnce(s[..|s| - 1], b);
    }
  }

  /** A survivor is a chosen backup of the first run. */
  lemma SurvivorChosen(p: Policy, s: seq<Backup>, b: Backup) returns (i: nat)
    requires DistinctFiles(s) && b in Survivors(s, Kept(p, s))
    ensures i < |s| && s[i] == b && Chosen(p, s, i)
  {
    hide Chosen;
    SurvivorIff(s, Kept(p, s), b);
    i :| 0 <= i < |s| && s[i].file == b.file && Chosen(p, s, i);
    var j :| 0 <= j < |s| && s[j] == b;
  }

  /** `again` lists the survivors of the run on `s`, newest first. */
  ghost predicate Relisted(p: Policy, s: seq<Backup>, again: seq<Backup>) {
    && Descending(s) && Descending(again) && DistinctFiles(s) && DistinctFiles(again)
    && forall b :: b in again <==> b in Survivors(s, Kept(p, s))
  }

  lemma SameNewest(p: Policy, s: seq<Backup>, again: seq<Backup>)
    requires Relisted(p, s, again) && s != []
    ensures again != [] && again[0].time == s[0].time
  {
    hide BucketOf, Survivors;
    FirstChosen(p, s);
    SurvivorIff(s, Kept(p, s), s[0]);
    assert s[0] in again;
    SurvivorIff(s, Kept(p, s), again[0]);
  }

  /** In the second run, no two backups behind the newest share a bucket. */
  lemma NoRivals(p: Policy, s: seq<Backup>, again: seq<Backup>, i: nat, j: nat)
    requires Relisted(p, s, again) && s != [] && 0 < j < i < |again| && again[0].time == s[0].time
    ensures BucketAt(p, again, j) != BucketAt(p, again, i)
  {
    hide BucketOf, Survivors, Chosen, KeptAmong;
    var i0 := SurvivorChosen(p, s, again[0]);
    var i1 := SurvivorChosen(p, s, again[j]);
    var i2 := SurvivorChosen(p, s, again[i]);
    // If the newest of the first run is among the rivals, again[0] is as new and takes its place.
    var x, y := if i1 == 0 then i0 else i1, if i2 == 0 then i0 else i2;
    OnePerBucket(p, s, x, y);
  }

  lemma RelistedAllChosen(p: Policy, s: seq<Backup>, again: seq<Backup>, i: nat)
    requires Relisted(p, s, again) && s != [] && i < |again| && again[0].time == s[0].time
    ensures Chosen(p, again, i)
  {
    hide BucketOf, Survivors, KeptAmong;
    if i > 0 {
      forall j | 0 < j < i
        ensures BucketAt(p, again, j) != BucketAt(p, again, i)
      {
        NoRivals(p, s, again, i, j);
      }
      var k := SurvivorChosen(p, s, again[i]);
      var k0 := SurvivorChosen(p, s, again[0]);
      // again[0] and again[i] are different backups, so one of them is not the first run's newest.
      if k > 0 {
        OnePerBucket(p, s, k, k);
      } else {
        OnePerBucket(p, s, k0, k0);
      }
    }
  }

  lemma {:induction false} NothingLeft(s: seq<Backup>, keep: set<string>)
    requires forall i :: 0 <= i < |s| ==> s[i].file in keep
    ensures Files(s, keep) == []
  {
    if s != [] {
      NothingLeft(s[..|s| - 1], keep);
    }
  }

  /** A second run deletes nothing, in whatever order the directory lists what the first one left. */
  lemma RetentionIsIdempotent(p: Policy, listing: seq<Backup>, relisting: seq<Backup>)
    requires DistinctFiles(listing)
    requires
      var s := NewestFirst(listing);
      multiset(relisting) == multiset(Survivors(s, Kept(p, s)))
    ensures Deleted(p, relisting) == []
  {
    hide BucketOf, Chosen, Survivors;
    var s, again := NewestFirst(listing), NewestFirst(relisting);
    SortedListing(listing);
    SortedListing(relisting);
    DistinctListings(listing, s);
    var kept := Survivors(s, Kept(p, s));
    SurvivorsDistinct(s, Kept(p, s));
    DistinctListings(kept, again);
    if again != [] {
      forall b
        ensures b in again <==> b in kept
      {
        assert b in multiset(again) <==> b in multiset(kept);
      }
      SurvivorIff(s, Kept(p, s), again[0]);
      SameNewest(p, s, again);
      forall i | 0 <= i < |again|
        ensures again[i].file in Kept(p, again)
      {
        RelistedAllChosen(p, s, again, i);
      }
    }
    NothingLeft(again, Kept(p, again));
  }

  // ----- how many are kept -----

  /** A window of n times 24 hours touches n + 1 calendar days. */
  function DayBuckets(p: Policy): int {
    if p.days <= 0 then 0 else p.days + 1
  }

  /** How many weeks back the weekly tier begins: what is newer belongs to the daily tier. */
  function FirstWeek(p: Policy): int {
    Max(p.days, 0) / 7
  }

  function WeekBuckets(p: Policy): int {
    Max(0, p.weeks - FirstWeek(p))
  }

  /** How many months back the monthly tier begins at least, behind the other two. */
  function FirstMonth(p: Policy): int {
    Max(Max(p.days, 7 * p.weeks - 6), 0) / 31
  }

  function MonthBuckets(p: Policy): int {
    Max(0, p.months - FirstMonth(p))
  }

  /** Numbers the buckets a policy can have open: days, then weeks, then months, counted back from now. */
  ghost function Place(p: Policy, now: int, time: int): int {
    match BucketOf(p, now, time)
    case Daily(_) => Day(now) - Day(time)
    case Weekly(_) => DayBuckets(p) + WeeksAgo(Day(now), Day(time)) - FirstWeek(p)
    case Monthly(_) => DayBuckets(p) + WeekBuckets(p) + MonthsAgo(now, time) - FirstMonth(p)
    case Expired => -1
  }

  function Limit(p: Policy): int {
    DayBuckets(p) + WeekBuckets(p) + MonthBuckets(p)
  }

  lemma DaysBack(now: int, time: int)
    requires time <= now
    ensures Age(now, time) >= 0
    ensures Day(time) + Age(now, time) <= Day(now) <= Day(time) + Age(now, time) + 1
  {
  }

  lemma WeeksBack(day: int, later: int, n: int)
    requires day + Max(n, 0) <= later
    ensures Max(n, 0) / 7 <= WeekIndex(later) - WeekIndex(day)
    ensures 7 * (WeekIndex(later) - WeekIndex(day)) - 6 <= later - day
  {
  }

  lemma MonthsBack(p: Policy, now: int, time: int)
    requires time <= now && BucketOf(p, now, time).Monthly?
    ensures FirstMonth(p) <= MonthsAgo(now, time)
  {
    hide Year, Month, DayKeyOf, WeekKeyOf, MonthKeyOf, WeeksAgo, WeekIndex, Age, Day;
    DaysBack(now, time);
    WeeksAgoCounts(Day(now), Day(time));
    WeeksBack(Day(time), Day(now), 0);
    ManyMonthsPass(Day(time), Day(now), FirstMonth(p));
  }

  lemma PlaceInRange(p: Policy, now: int, time: int)
    requires time <= now && !BucketOf(p, now, time).Expired?
    ensures 0 <= Place(p, now, time) < Limit(p)
    ensures BucketOf(p, now, time).Daily? <==> Place(p, now, time) < DayBuckets(p)
    ensures BucketOf(p, now, time).Monthly? <==> DayBuckets(p) + WeekBuckets(p) <= Place(p, now, time)
  {
    hide Year, Month, DayKeyOf, WeekKeyOf, MonthKeyOf, WeeksAgo, WeekIndex, Age, Day, MonthsAgo, FirstMonth;
    DaysBack(now, time);
    WeeksAgoCounts(Day(now), Day(time));
    if BucketOf(p, now, time).Weekly? {
      WeeksBack(Day(time), Day(now), p.days);
    } else if BucketOf(p, now, time).Monthly? {
      MonthsBack(p, now, time);
    }
  }

  /** Equal places mean equal buckets. */
  lemma SamePlace(p: Policy, now: int, t: int, u: int)
    requires t <= now && u <= now && !BucketOf(p, now, t).Expired? && !BucketOf(p, now, u).Expired?
    requires Place(p, now, t) == Place(p, now, u)
    ensures BucketOf(p, now, t) == BucketOf(p, now, u)
  {
    hide Year, Month, DayKeyOf, WeekKeyOf, MonthKeyOf, WeeksAgo, WeekIndex, Age, Day, FirstMonth, FirstWeek;
    PlaceInRange(p, now, t);
    PlaceInRange(p, now, u);
    WeeksAgoCounts(Day(now), Day(t));
    WeeksAgoCounts(Day(now), Day(u));
    WeekKeyExact(Day(t), Day(u));
    MonthKeyExact(Day(t), Day(u));
  }

  ghost function Places(p: Policy, s: seq<Backup>, n: nat): set<int>
    requires n <= |s|
  {
    set i | 0 < i < n && Chosen(p, s, i) :: Place(p, s[0].time, s[i].time)
  }

  lemma PlacesNext(p: Policy, s: seq<Backup>, n: nat)
    requires 0 < n < |s| && Descending(s) && Chosen(p, s, n)
    ensures Places(p, s, n + 1) == Places(p, s, n) + {Place(p, s[0].time, s[n].time)}
    ensures Place(p, s[0].time, s[n].time) !in Places(p, s, n)
  {
    hide BucketOf, Chosen, Place;
    forall i | 0 < i < n && Chosen(p, s, i)
      ensures Place(p, s[0].time, s[i].time) != Place(p, s[0].time, s[n].time)
    {
      OnePerBucket(p, s, n, i);
      OnePerBucket(p, s, i, n);
      if Place(p, s[0].time, s[i].time) == Place(p, s[0].time, s[n].time) {
        SamePlace(p, s[0].time, s[i].time, s[n].time);
        assert false;
      }
    }
  }

  lemma {:induction false} KeptByPlace(p: Policy, s: seq<Backup>, n: nat)
    requires 0 < n <= |s| && Descending(s)
    ensures |KeptAmong(p, s, n)| <= 1 + |Places(p, s, n)|
  {
    hide BucketOf, Chosen, Place, KeptAmong, Places;
    KeptNext(p, s, n - 1);
    if n == 1 {
      NothingSeen(p, s);
    } else {
      KeptByPlace(p, s, n - 1);
      if Chosen(p, s, n - 1) {
        PlacesNext(p, s, n - 1);
      } else {
        PlacesSame(p, s, n - 1);
      }
    }
  }

  lemma PlacesSame(p: Policy, s: seq<Backup>, n: nat)
    requires n < |s| && !Chosen(p, s, n)
    ensures Places(p, s, n + 1) == Places(p, s, n)
  {
    hide Chosen, Place;
  }

  lemma {:induction false} BoundedSet(xs: set<int>, n: nat)
    requires forall x :: x in xs ==> 0 <= x < n
    ensures |xs| <= n
  {
    if n == 0 {
      forall x: int
        ensures x !in xs
      {
        if x in xs {
          assert false;
        }
      }
      assert xs == {};
    } else {
      BoundedSet(xs - {n - 1}, n - 1);
    }
  }

  /**
   A pruning run leaves at most the newest archive and one per bucket that the policy can have open:
   the weekly tier begins behind the daily one, the monthly tier behind both.
   */
  lemma KeptIsBounded(p: Policy, listing: seq<Backup>)
    ensures |Kept(p, NewestFirst(listing))| <= 1 + DayBuckets(p) + WeekBuckets(p) + MonthBuckets(p)
  {
    hide BucketOf, Chosen, Place, FirstWeek, FirstMonth;
    var s := NewestFirst(listing);
    SortedListing(listing);
    if s == [] {
      assert Kept(p, s) == {};
    } else {
      KeptByPlace(p, s, |s|);
      var places := Places(p, s, |s|);
      forall x | x in places
        ensures 0 <= x < Limit(p)
      {
        var i :| 0 < i < |s| && Chosen(p, s, i) && Place(p, s[0].time, s[i].time) == x;
        OnePerBucket(p, s, i, i);
        PlaceInRange(p, s[0].time, s[i].time);
      }
      BoundedSet(places, Limit(p));
    }
  }

  /** With the default windows that is the documented number, 15. */
  lemma DefaultsKeepAtMost15(listing: seq<Backup>)
    ensures |Kept(DEFAULTS, NewestFirst(listing))| <= 15
  {
    KeptIsBounded(DEFAULTS, listing);
  }

  // ----- the bound is reached -----

  /** The newest backup at midnight, one at each midnight back to day 1, and one just before that. */
  function Midnights(names: seq<string>): seq<Backup> {
    seq(|names|, k requires 0 <= k < |names| => Backup(names[k], MidnightTime(|names| - 2, k)))
  }

  function MidnightTime(days: int, k: int): int {
    if k == 0 then days * MS_PER_DAY
    else if k <= days then (days + 1 - k) * MS_PER_DAY
    else MS_PER_DAY - 1
  }

  lemma MidnightDay(days: int, k: int)
    requires 0 < k <= days + 1 && 1 <= days
    ensures Day(MidnightTime(days, k)) == days + 1 - k
    ensures 0 <= Age(MidnightTime(days, 0), MidnightTime(days, k)) < days
  {
  }

  lemma MidnightsDescend(names: seq<string>)
    requires |names| >= 3
    ensures Descending(Midnights(names)) && NewestFirst(Midnights(names)) == Midnights(names)
  {
    SortedIsFixed(Midnights(names));
  }

  lemma {:induction false} SortedIsFixed(s: seq<Backup>)
    requires Descending(s)
    ensures NewestFirst(s) == s
  {
    if s != [] {
      SortedIsFixed(s[..|s| - 1]);
      assert s == s[..|s| - 1] + [s[|s| - 1]];
    }
  }

  lemma MidnightChosen(names: seq<string>, i: nat)
    requires |names| >= 3 && i < |names|
    ensures Chosen(Policy(|names| - 2, 0, 0), Midnights(names), i)
  {
    hide DayKeyOf, Day, Age, MidnightTime;
    var days := |names| - 2;
    if i > 0 {
      MidnightDay(days, i);
      forall j | 0 < j < i
        ensures DayKeyOf(days + 1 - j) != DayKeyOf(days + 1 - i)
        ensures Day(MidnightTime(days, j)) == days + 1 - j
      {
        MidnightDay(days, j);
        DayKeyExact(days + 1 - j, days + 1 - i);
      }
    }
  }

  lemma {:induction false} AllChosenKept(p: Policy, s: seq<Backup>, n: nat)
    requires DistinctFiles(s) && n <= |s| && forall i :: 0 <= i < n ==> Chosen(p, s, i)
    ensures |KeptAmong(p, s, n)| == n
  {
    hide Chosen;
    if n > 0 {
      AllChosenKept(p, s, n - 1);
      KeptNext(p, s, n - 1);
    }
  }

  ghost predicate DistinctNames(names: seq<string>) {
    forall i, j :: 0 <= i < j < |names| ==> names[i] != names[j]
  }

  /** For every daily window a listing keeps days + 2 archives: a day more than the window's number. */
  lemma DailyBoundReached(days: nat, names: seq<string>)
    requires 1 <= days && |names| == days + 2 && DistinctNames(names)
    ensures |Kept(Policy(days, 0, 0), NewestFirst(Midnights(names)))| == 1 + (days + 1)
  {
    hide KeptAmong, NewestFirst, Chosen, MidnightTime;
    MidnightsDescend(names);
    forall i | 0 <= i < |names|
      ensures Chosen(Policy(days, 0, 0), Midnights(names), i)
    {
      MidnightChosen(names, i);
    }
    AllChosenKept(Policy(days, 0, 0), Midnights(names), |names|);
  }

  /** Sunday, 31 May 1970, with backups of eight days, of the three weeks before and of three months. */
  function FullDay(k: int): int {
    if k == 0 then 150 else if k <= 8 then 151 - k else if k == 9 then 143 else if k == 10 then 135
    else if k == 11 then 128 else if k == 12 then 122 else if k == 13 then 100 else 70
  }

  function FullTime(k: int): int {
    FullDay(k) * MS_PER_DAY + if k == 8 then MS_PER_DAY - 1 else 0
  }

  function FullListing(names: seq<string>): seq<Backup> {
    seq(|names|, k requires 0 <= k < |names| => Backup(names[k], FullTime(k)))
  }

  lemma FullBucket(k: int)
    requires 0 < k < 15
    ensures BucketOf(DEFAULTS, FullTime(0), FullTime(k)) ==
              if k <= 8 then Daily(DayKeyOf(FullDay(k)))
              else if k <= 11 then Weekly(WeekKeyOf(FullDay(k)))
              else Monthly(MonthKeyOf(FullDay(k)))
  {
    hide DayKeyOf, WeekKeyOf, MonthKeyOf, Year, Month;
    assert Day(FullTime(k)) == FullDay(k) && Day(FullTime(0)) == 150;
    assert k > 8 ==> Age(FullTime(0), FullTime(k)) >= 7;
    assert k > 8 ==> WeeksAgo(150, FullDay(k)) ==
                     if k <= 11 then k - 8 else if k == 12 then 4 else if k == 13 then 7 else 11;
    In1970(150);
    In1970(FullDay(k));
  }

  lemma In1970(day: int)
    requires 0 <= day < 365
    ensures Year(day) == 1970 && Month(day) == MonthAt(day, 0) && MonthIndex(day) == 12 * 1970 + MonthAt(day, 0)
  {
  }

  lemma FullBucketsDiffer(j: int, k: int)
    requires 0 < j < k < 15
    ensures BucketOf(DEFAULTS, FullTime(0), FullTime(j)) != BucketOf(DEFAULTS, FullTime(0), FullTime(k))
  {
    hide BucketOf, DayKeyOf, WeekKeyOf, MonthKeyOf, Year, Month, MonthIndex;
    FullBucket(j);
    FullBucket(k);
    DayKeyExact(FullDay(j), FullDay(k));
    WeekKeyExact(FullDay(j), FullDay(k));
    MonthKeyExact(FullDay(j), FullDay(k));
    In1970(FullDay(j));
    In1970(FullDay(k));
  }

  lemma FullChosen(names: seq<string>, i: nat)
    requires |names| == 15 && i < 15
    ensures Chosen(DEFAULTS, FullListing(names), i)
  {
    hide BucketOf, FullTime;
    if i > 0 {
      FullBucket(i);
      forall j | 0 < j < i
        ensures BucketAt(DEFAULTS, FullListing(names), j) != BucketAt(DEFAULTS, FullListing(names), i)
      {
        FullBucketsDiffer(j, i);
      }
    }
  }

  /** Fifteen archives are indeed kept of this listing. */
  lemma DefaultBoundReached(names: seq<string>)
    requires |names| == 15 && DistinctNames(names)
    ensures |Kept(DEFAULTS, NewestFirst(FullListing(names)))| == 15
  {
    hide KeptAmong, NewestFirst, Chosen;
    SortedIsFixed(FullListing(names));
    forall i | 0 <= i < 15
      ensures Chosen(DEFAULTS, FullListing(names), i)
    {
      FullChosen(names, i);
    }
    AllChosenKept(DEFAULTS, FullListing(names), 15);
  }
}
