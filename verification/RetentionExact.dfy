/** Which backup a pruning run deletes, told from the listing and the clock alone. */
module RetentionExact {
  import opened Calendar
  import opened Retention
  import opened RetentionLaws
  import opened Sorting

  // ----- windows -----

  datatype Tier = DayTier | WeekTier | MonthTier | NoTier

  /**
   Less than so many times 24 hours old; else of one of so many Monday-to-Sunday weeks; else of one
   of so many calendar months, the current one included.
   */
  ghost function TierOf(p: Policy, now: int, time: int): Tier {
    if now - time < p.days * 86_400_000 then DayTier
    else if WeekIndex(Day(now)) - WeekIndex(Day(time)) < p.weeks then WeekTier
    else if MonthIndex(Day(now)) - MonthIndex(Day(time)) < p.months then MonthTier
    else NoTier
  }

  /** The day, week or month of a backup, counted through. */
  ghost function UnitOf(tier: Tier, time: int): int {
    match tier
    case DayTier => Day(time)
    case WeekTier => WeekIndex(Day(time))
    case MonthTier => MonthIndex(Day(time))
    case NoTier => 0
  }

  lemma AgeBelow(now: int, time: int, days: int)
    ensures Age(now, time) < days <==> now - time < days * 86_400_000
  {
  }

  lemma TierIs(p: Policy, now: int, time: int)
    ensures
      var b := BucketOf(p, now, time);
      match TierOf(p, now, time)
      case DayTier => b == Daily(DayKeyOf(Day(time)))
      case WeekTier => b == Weekly(WeekKeyOf(Day(time)))
      case MonthTier => b == Monthly(MonthKeyOf(Day(time)))
      case NoTier => b == Expired
  {
    hide Age, Day, WeekIndex, DayKeyOf, WeekKeyOf, MonthKeyOf, Year, Month, WeeksAgo;
    AgeBelow(now, time, p.days);
    WeeksAgoCounts(Day(now), Day(time));
  }

  /** Two backups share a bucket exactly when tier and unit agree. */
  lemma SameBucketIff(p: Policy, now: int, t: int, u: int)
    ensures BucketOf(p, now, t) == BucketOf(p, now, u) <==>
              TierOf(p, now, t) == TierOf(p, now, u)
              && UnitOf(TierOf(p, now, t), t) == UnitOf(TierOf(p, now, u), u)
  {
    hide BucketOf, TierOf, Day, WeekIndex, DayKeyOf, WeekKeyOf, MonthKeyOf, MonthIndex;
    TierIs(p, now, t);
    TierIs(p, now, u);
    DayKeyExact(Day(t), Day(u));
    WeekKeyExact(Day(t), Day(u));
    MonthKeyExact(Day(t), Day(u));
  }

  // ----- the listing -----

  /** `k` is newer than `m`; of equal times the one listed first counts as newer. */
  ghost predicate Newer(listing: seq<Backup>, k: nat, m: nat) {
    k < |listing| && m < |listing|
    && (listing[k].time > listing[m].time || (listing[k].time == listing[m].time && k < m))
  }

  ghost predicate IsNewest(listing: seq<Backup>, z: nat) {
    z < |listing| && forall k :: 0 <= k < |listing| && k != z ==> Newer(listing, z, k)
  }

  /** Behind the newest, `k` is newer than `m` and of the same tier and unit. */
  ghost predicate Rivals(p: Policy, listing: seq<Backup>, z: nat, k: nat, m: nat)
    requires z < |listing| && m < |listing|
  {
    && Newer(listing, k, m) && k != z
    && TierOf(p, listing[z].time, listing[k].time) == TierOf(p, listing[z].time, listing[m].time)
    && UnitOf(TierOf(p, listing[z].time, listing[k].time), listing[k].time)
       == UnitOf(TierOf(p, listing[z].time, listing[m].time), listing[m].time)
  }

  lemma ListingOrder(listing: seq<Backup>) returns (places: seq<nat>)
    ensures |places| == |listing| && multiset(places) == multiset(Range(|listing|)) && Within(places, |listing|)
    ensures NewestFirst(listing) == Pick(listing, places)
    ensures forall i, j :: 0 <= i < j < |places| ==> Newer(listing, places[i], places[j])
  {
    hide SortBy;
    var key := (b: Backup) => -b.time;
    places := SortOrder(listing, key);
    LibraryListing(listing, key);
    var at := KeyAt(listing, key);
    forall i, j | 0 <= i < j < |places|
      ensures Newer(listing, places[i], places[j])
    {
      assert Before(at, places[i], places[j]);
    }
  }

  lemma LibraryListing(listing: seq<Backup>, key: Backup -> int)
    requires forall b: Backup :: key(b) == -b.time
    ensures SortBy(listing, key) == NewestFirst(listing)
  {
    SortAlike(listing, key, (b: Backup) => -b.time);
  }

  /** Keys that agree sort alike. */
  lemma {:induction false} SortAlike(s: seq<Backup>, f: Backup -> int, g: Backup -> int)
    requires forall b: Backup :: f(b) == g(b)
    ensures SortBy(s, f) == SortBy(s, g)
  {
    if s != [] {
      SortAlike(s[..|s| - 1], f, g);
      InsertAlike(s[|s| - 1], SortBy(s[..|s| - 1], f), f, g);
    }
  }

  lemma {:induction false} InsertAlike(x: Backup, s: seq<Backup>, f: Backup -> int, g: Backup -> int)
    requires forall b: Backup :: f(b) == g(b)
    ensures Insert(x, s, f) == Insert(x, s, g)
  {
    if s != [] && f(s[|s| - 1]) > f(x) {
      InsertAlike(x, s[..|s| - 1], f, g);
    }
  }

  lemma {:induction false} FilesAre(s: seq<Backup>, keep: set<string>, file: string)
    ensures file in Files(s, keep) <==> file !in keep && exists i :: 0 <= i < |s| && s[i].file == file
  {
    if s != [] {
      var front, last := s[..|s| - 1], s[|s| - 1];
      FilesAre(front, keep, file);
      if file in Files(front, keep) {
        var i :| 0 <= i < |front| && front[i].file == file;
        assert s[i] == front[i];
      }
      if last.file == file {
        assert s[|s| - 1].file == file;
      }
      if i :| 0 <= i < |s| && s[i].file == file && i < |front| {
        assert front[i].file == file;
      }
    }
  }

  /** The deleted files are listed in the order of the backups, newest first. */
  lemma {:induction false} FilesInOrder(s: seq<Backup>, t: seq<Backup>, keep: set<string>)
    ensures Files(s + t, keep) == Files(s, keep) + Files(t, keep)
  {
    if t == [] {
      assert s + t == s;
    } else {
      assert (s + t)[..|s + t| - 1] == s + t[..|t| - 1];
      FilesInOrder(s, t[..|t| - 1], keep);
    }
  }

  lemma OneFile(b: Backup, keep: set<string>)
    ensures Files([b], keep) == if b.file in keep then [] else [b.file]
  {
    assert [b][..0] == [];
  }

  lemma PlaceOf(places: seq<nat>, n: nat, m: nat) returns (i: nat)
    requires multiset(places) == multiset(Range(n)) && m < n
    ensures i < |places| && places[i] == m
  {
    assert Range(n)[m] == m;
    assert m in multiset(places);
    i :| 0 <= i < |places| && places[i] == m;
  }

  /** In terms of places: kept exactly when chosen. */
  lemma KeptIffChosen(p: Policy, s: seq<Backup>, i: nat)
    requires DistinctFiles(s) && i < |s|
    ensures s[i].file in Kept(p, s) <==> Chosen(p, s, i)
  {
    hide Chosen;
  }

  /**
   A listed backup is deleted if and only if it is not the newest and it is either in no window or
   not the newest of its day, week or month among the backups of its tier behind the newest.
   */
  lemma DeletedIff(p: Policy, listing: seq<Backup>, m: nat) returns (z: nat)
    requires DistinctFiles(listing) && m < |listing|
    ensures IsNewest(listing, z)
    ensures listing[m].file in Deleted(p, listing) <==>
              z != m && (TierOf(p, listing[z].time, listing[m].time) == NoTier
                         || exists k: nat :: Rivals(p, listing, z, k, m))
  {
    hide TierOf, UnitOf, BucketOf, Chosen, KeptAmong, Files, SortBy;
    var s := NewestFirst(listing);
    SortedListing(listing);
    DistinctListings(listing, s);
    var places := ListingOrder(listing);
    var i := PlaceOf(places, |listing|, m);
    z := places[0];
    NewestIs(listing, places);
    assert s[i] == listing[m] && s[0] == listing[z];
    FilesAre(s, Kept(p, s), listing[m].file);
    KeptIffChosen(p, s, i);
    ChosenByRivals(p, listing, places, i);
    assert z != m <==> i != 0;
  }

  lemma NewestIs(listing: seq<Backup>, places: seq<nat>)
    requires |places| == |listing| > 0 && multiset(places) == multiset(Range(|listing|)) && Within(places, |listing|)
    requires forall i, j :: 0 <= i < j < |places| ==> Newer(listing, places[i], places[j])
    ensures IsNewest(listing, places[0])
  {
    hide Newer;
    forall k: nat | k < |listing| && k != places[0]
      ensures Newer(listing, places[0], k)
    {
      var i := PlaceOf(places, |listing|, k);
    }
  }

  lemma ChosenByRivals(p: Policy, listing: seq<Backup>, places: seq<nat>, i: nat)
    requires |places| == |listing| && multiset(places) == multiset(Range(|listing|)) && Within(places, |listing|)
    requires forall a, b :: 0 <= a < b < |places| ==> Newer(listing, places[a], places[b])
    requires NewestFirst(listing) == Pick(listing, places) && i < |places|
    ensures
      var z, m, now := places[0], places[i], listing[places[0]].time;
      Chosen(p, NewestFirst(listing), i) <==>
        i == 0 || (TierOf(p, now, listing[m].time) != NoTier && !exists k: nat :: Rivals(p, listing, z, k, m))
  {
    hide TierOf, UnitOf, BucketOf, SortBy, NewestFirst;
    var s, z, m, now := NewestFirst(listing), places[0], places[i], listing[places[0]].time;
    TierIs(p, now, listing[m].time);
    forall j: nat | 0 < j < i
      ensures BucketAt(p, s, j) == BucketAt(p, s, i) <==> Rivals(p, listing, z, places[j], m)
    {
      SameBucketIff(p, now, listing[places[j]].time, listing[m].time);
      assert Newer(listing, places[j], places[i]) && Newer(listing, places[0], places[j]);
    }
    forall k: nat | Rivals(p, listing, z, k, m)
      ensures exists j :: 0 < j < i && places[j] == k
    {
      var j := PlaceOf(places, |listing|, k);
      assert !Newer(listing, places[i], places[j]);
    }
  }
}
