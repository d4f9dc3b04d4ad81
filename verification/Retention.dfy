/** Grandfather-father-son retention of indexer backups: which archives a pruning run deletes. */
module Retention {
  import opened Calendar
  import opened MachineInts
  import opened Sorting

  /** `time` is the creation time in milliseconds. */
  datatype Backup = Backup(file: string, time: int)

  datatype Policy = Policy(days: int, weeks: int, months: int)

  const DEFAULTS := Policy(7, 4, 3)

  /** The group of backups of which only the newest is kept. */
  datatype Bucket =
    | Daily(day: DayKey)
    | Weekly(week: WeekKey)
    | Monthly(month: MonthKey)
    | Expired

  function Age(now: int, time: int): int {
    (now - time) / MS_PER_DAY
  }

  function MonthsAgo(now: int, time: int): int {
    (Year(Day(now)) - Year(Day(time))) * 12 + (Month(Day(now)) - Month(Day(time)))
  }

  function BucketOf(p: Policy, now: int, time: int): Bucket {
    if Age(now, time) < p.days then Daily(DayKeyOf(Day(time)))
    else if WeeksAgo(Day(now), Day(time)) < p.weeks then Weekly(WeekKeyOf(Day(time)))
    else if MonthsAgo(now, time) < p.months then Monthly(MonthKeyOf(Day(time)))
    else Expired
  }

  function NewestFirst(listing: seq<Backup>): seq<Backup> {
    SortBy(listing, (b: Backup) => -b.time)
  }

  ghost predicate Descending(s: seq<Backup>) {
    forall i, j :: 0 <= i < j < |s| ==> s[i].time >= s[j].time
  }

  ghost function BucketAt(p: Policy, s: seq<Backup>, i: nat): Bucket
    requires i < |s|
  {
    BucketOf(p, s[0].time, s[i].time)
  }

  /** The newest backup, and the first behind it of each bucket. */
  ghost predicate Chosen(p: Policy, s: seq<Backup>, i: nat)
    requires i < |s|
  {
    i == 0 || (!BucketAt(p, s, i).Expired? && forall j :: 0 < j < i ==> BucketAt(p, s, j) != BucketAt(p, s, i))
  }

  ghost function KeptAmong(p: Policy, s: seq<Backup>, n: nat): set<string>
    requires n <= |s|
  {
    set i | 0 <= i < n && Chosen(p, s, i) :: s[i].file
  }

  ghost function Kept(p: Policy, s: seq<Backup>): set<string> {
    KeptAmong(p, s, |s|)
  }

  /** The files of `s` that are not in `keep`. */
  function Files(s: seq<Backup>, keep: set<string>): seq<string> {
    if s == [] then []
    else Files(s[..|s| - 1], keep) + if s[|s| - 1].file in keep then [] else [s[|s| - 1].file]
  }

  /** What a pruning run on `listing` deletes, newest first. */
  ghost function Deleted(p: Policy, listing: seq<Backup>): seq<string> {
    var s := NewestFirst(listing);
    Files(s, Kept(p, s))
  }

  lemma SortedListing(listing: seq<Backup>)
    ensures
      var s := NewestFirst(listing);
      Descending(s) && multiset(s) == multiset(listing) && |s| == |listing|
  {
    SortContents(listing, (b: Backup) => -b.time);
  }

  // ----- the pruning run -----

  ghost predicate SeenBefore(p: Policy, s: seq<Backup>, n: nat, b: Bucket)
    requires n <= |s|
  {
    exists j :: 0 < j < n && BucketAt(p, s, j) == b
  }

  /** The three sets of keys hold the buckets met behind the newest backup. */
  ghost predicate SeenAre(p: Policy, s: seq<Backup>, n: nat,
                          days: set<DayKey>, weeks: set<WeekKey>, months: set<MonthKey>)
    requires n <= |s|
  {
    && (forall d :: d in days <==> SeenBefore(p, s, n, Daily(d)))
    && (forall w :: w in weeks <==> SeenBefore(p, s, n, Weekly(w)))
    && (forall m :: m in months <==> SeenBefore(p, s, n, Monthly(m)))
  }

  lemma SeenNext(p: Policy, s: seq<Backup>, n: nat, b: Bucket)
    requires 0 < n < |s|
    ensures SeenBefore(p, s, n + 1, b) <==> SeenBefore(p, s, n, b) || BucketAt(p, s, n) == b
  {
    hide BucketOf;
  }

  lemma KeptNext(p: Policy, s: seq<Backup>, n: nat)
    requires n < |s|
    ensures KeptAmong(p, s, n + 1) == KeptAmong(p, s, n) + if Chosen(p, s, n) then {s[n].file} else {}
  {
    hide Chosen;
  }

  lemma ChosenIff(p: Policy, s: seq<Backup>, n: nat)
    requires 0 < n < |s|
    ensures Chosen(p, s, n) <==> !BucketAt(p, s, n).Expired? && !SeenBefore(p, s, n, BucketAt(p, s, n))
  {
    hide BucketOf;
  }

  method ApplyRetention(listing: seq<Backup>, p: Policy) returns (deleted: seq<string>)
    ensures deleted == Deleted(p, listing)
  {
    hide BucketOf, Chosen, SeenBefore;
    if listing == [] {
      return [];
    }
    var entries := NewestFirst(listing);
    SortedListing(listing);
    var keep := ChooseKept(entries, p);
    deleted := [];
    for i := 0 to |entries|
      invariant deleted == Files(entries[..i], keep)
    {
      assert entries[..i + 1][..i] == entries[..i];
      if entries[i].file !in keep {
        deleted := deleted + [entries[i].file];
      }
    }
    assert entries[..|entries|] == entries;
  }

  method ChooseKept(entries: seq<Backup>, p: Policy) returns (keep: set<string>)
    requires entries != []
    ensures keep == Kept(p, entries)
  {
    hide BucketOf, Chosen, SeenBefore, KeptAmong;
    var now := entries[0].time;
    var seenDays, seenWeeks, seenMonths := {}, {}, {};
    keep := {};
    NothingSeen(p, entries);
    for i := 0 to |entries|
      invariant keep == KeptAmong(p, entries, i)
      invariant i > 0 ==> keep != {}
      invariant SeenAre(p, entries, Max(i, 1), seenDays, seenWeeks, seenMonths)
    {
      KeptNext(p, entries, i);
      if keep == {} {
        keep := keep + {entries[i].file};
        FirstChosen(p, entries);
        continue;
      }
      keep, seenDays, seenWeeks, seenMonths := Consider(entries, p, now, i, keep, seenDays, seenWeeks, seenMonths);
    }
  }

  /** One pass of the loop for a backup behind the newest. */
  method Consider(entries: seq<Backup>, p: Policy, now: int, i: nat, keep0: set<string>,
                  days0: set<DayKey>, weeks0: set<WeekKey>, months0: set<MonthKey>)
    returns (keep: set<string>, days: set<DayKey>, weeks: set<WeekKey>, months: set<MonthKey>)
    requires 0 < i < |entries| && now == entries[0].time
    requires SeenAre(p, entries, i, days0, weeks0, months0)
    ensures SeenAre(p, entries, i + 1, days, weeks, months)
    ensures keep == keep0 + if Chosen(p, entries, i) then {entries[i].file} else {}
  {
    hide Chosen, SeenBefore, Age, Day, WeeksAgo, MonthsAgo, DayKeyOf, WeekKeyOf, MonthKeyOf;
    forall b {
      SeenNext(p, entries, i, b);
    }
    ChosenIff(p, entries, i);
    keep, days, weeks, months := keep0, days0, weeks0, months0;
    var time := entries[i].time;
    if Age(now, time) < p.days {
      var key := DayKeyOf(Day(time));
      if key !in days {
        days, keep := days + {key}, keep + {entries[i].file};
      }
    } else if WeeksAgo(Day(now), Day(time)) < p.weeks {
      var key := WeekKeyOf(Day(time));
      if key !in weeks {
        weeks, keep := weeks + {key}, keep + {entries[i].file};
      }
    } else if MonthsAgo(now, time) < p.months {
      var key := MonthKeyOf(Day(time));
      if key !in months {
        months, keep := months + {key}, keep + {entries[i].file};
      }
    }
  }

  lemma NothingSeen(p: Policy, s: seq<Backup>)
    requires s != []
    ensures SeenAre(p, s, 1, {}, {}, {}) && KeptAmong(p, s, 0) == {}
  {
  }

  lemma FirstChosen(p: Policy, s: seq<Backup>)
    requires s != []
    ensures Chosen(p, s, 0)
  {
  }
}
