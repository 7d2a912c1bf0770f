/** Which backups survive: the retention policy as a choice over a set of copies. A rule keeps the newest
    copy of each of the most recent periods that have one, and the policy is the union of three rules. */
module Retention {
  import opened Calendar

  /** `takenAt` counts nanoseconds from Go's zero time; 0 is the zero time, "no date". */
  datatype BackupCopy = BackupCopy(name: string, takenAt: int, tier: string, sizeBytes: int)

  datatype Policy = Policy(daily: int, weekly: int, monthly: int)

  type Key = int -> string

  /** The three period keys; the results below hold for any, and CALENDAR is what the code uses. */
  datatype Keys = Keys(day: Key, week: Key, month: Key)

  const CALENDAR: Keys := Keys(DayKey, WeekKey, MonthKey)

  predicate IsDated(c: BackupCopy) { c.takenAt != 0 }

  /** The guard that turns an all-zero policy into "keep everything". */
  predicate KeepsNothing(p: Policy) { p.daily == 0 && p.weekly == 0 && p.monthly == 0 }

  // --------------------------------------------------------------- one rule

  /** The periods of the copies newer than t. */
  ghost function NewerPeriods(copies: set<BackupCopy>, t: int, key: Key): set<string> {
    set c | c in copies && c.takenAt > t :: key(c.takenAt)
  }

  /** Of copies that share an instant a rule wants all or none. The code sees them in some order and marks
      the first, so it computes this policy when no two dated copies share one. */
  ghost predicate Wants(copies: set<BackupCopy>, c: BackupCopy, count: int, key: Key) {
    var newer := NewerPeriods(copies, c.takenAt, key);
    key(c.takenAt) !in newer && |newer| < count
  }

  ghost function Rule(copies: set<BackupCopy>, count: int, key: Key): set<BackupCopy> {
    set c | c in copies && Wants(copies, c, count, key)
  }

  ghost predicate OneCopyPerInstant(copies: set<BackupCopy>) {
    forall c, d :: c in copies && d in copies && c.takenAt == d.takenAt ==> c == d
  }

  // -------------------------------------------------------------- the policy

  ghost function DatedOf(copies: set<BackupCopy>): set<BackupCopy> { set c | c in copies && IsDated(c) }

  ghost function ByRules(dated: set<BackupCopy>, p: Policy, k: Keys): set<BackupCopy> {
    Rule(dated, p.daily, k.day) + Rule(dated, p.weekly, k.week) + Rule(dated, p.monthly, k.month)
  }

  /** What the policy keeps of a volume. */
  ghost function Kept(copies: set<BackupCopy>, p: Policy, k: Keys): set<BackupCopy> {
    if KeepsNothing(p) then copies
    else (copies - DatedOf(copies)) + ByRules(DatedOf(copies), p, k)
  }

  /** Path independence: pruning what was there before adding new copies makes no difference. */
  lemma PathIndependence(earlier: set<BackupCopy>, added: set<BackupCopy>, p: Policy, k: Keys)
    ensures Kept(Kept(earlier, p, k) + added, p, k) == Kept(earlier + added, p, k)
  {
    if !KeepsNothing(p) {
      var all, rest := DatedOf(earlier + added), DatedOf(Kept(earlier, p, k) + added);
      OldCopiesKept(earlier, added, p, k, p.daily, k.day);
      OldCopiesKept(earlier, added, p, k, p.weekly, k.week);
      OldCopiesKept(earlier, added, p, k, p.monthly, k.month);
      RuleIgnoresTheUnwanted(all, rest, p.daily, k.day);
      RuleIgnoresTheUnwanted(all, rest, p.weekly, k.week);
      RuleIgnoresTheUnwanted(all, rest, p.monthly, k.month);
      assert ByRules(rest, p, k) == ByRules(all, p, k);
      UndatedStay(earlier, added, p, k);
    }
  }

  lemma UndatedStay(earlier: set<BackupCopy>, added: set<BackupCopy>, p: Policy, k: Keys)
    ensures var pruned := Kept(earlier, p, k) + added;
            pruned - DatedOf(pruned) == (earlier + added) - DatedOf(earlier + added)
  {
  }

  lemma OldCopiesKept(earlier: set<BackupCopy>, added: set<BackupCopy>, p: Policy, k: Keys, count: int, key: Key)
    requires !KeepsNothing(p)
    requires Rule(DatedOf(earlier), count, key) <= ByRules(DatedOf(earlier), p, k)
    ensures Rule(DatedOf(earlier + added), count, key) <= DatedOf(Kept(earlier, p, k) + added) <= DatedOf(earlier + added)
  {
    forall c | c in Rule(DatedOf(earlier + added), count, key) && c in earlier ensures c in Kept(earlier, p, k) {
      WantsShrinks(DatedOf(earlier), DatedOf(earlier + added), c, count, key);
      assert c in Rule(DatedOf(earlier), count, key);
    }
  }

  /** Pruning twice is pruning once. */
  lemma PruneIdempotent(copies: set<BackupCopy>, p: Policy, k: Keys)
    ensures Kept(Kept(copies, p, k), p, k) == Kept(copies, p, k)
  {
    PathIndependence(copies, {}, p, k);
    assert Kept(copies, p, k) + {} == Kept(copies, p, k) && copies + {} == copies;
  }

  /** The volume after a run of "take some copies, then prune". */
  ghost function VolumeAfter(batches: seq<set<BackupCopy>>, p: Policy, k: Keys): set<BackupCopy> {
    if batches == [] then {}
    else Kept(VolumeAfter(batches[..|batches| - 1], p, k) + batches[|batches| - 1], p, k)
  }

  ghost function History(batches: seq<set<BackupCopy>>): set<BackupCopy> {
    if batches == [] then {} else History(batches[..|batches| - 1]) + batches[|batches| - 1]
  }

  /** Over any run, however the backups were batched, the volume holds exactly what one pruning
      of everything ever taken would keep. */
  lemma {:induction false} RunKeepsWhatOnePruningKeeps(batches: seq<set<BackupCopy>>, p: Policy, k: Keys)
    ensures VolumeAfter(batches, p, k) == Kept(History(batches), p, k)
  {
    if batches != [] {
      var before := batches[..|batches| - 1];
      RunKeepsWhatOnePruningKeeps(before, p, k);
      PathIndependence(History(before), batches[|batches| - 1], p, k);
    }
  }

  // ------------------------------------------------- what survives, and what may not

  /** Raising counts of a policy that is not all zero never drops a copy that was kept. */
  lemma LargerCountsKeepMore(copies: set<BackupCopy>, p: Policy, q: Policy, k: Keys)
    requires !KeepsNothing(p)
    requires p.daily <= q.daily && p.weekly <= q.weekly && p.monthly <= q.monthly
    ensures Kept(copies, p, k) <= Kept(copies, q, k)
  {
    forall c | c in Kept(copies, p, k) ensures c in Kept(copies, q, k) {
      if IsDated(c) {
        assert c in ByRules(DatedOf(copies), p, k);
      }
    }
  }

  ghost predicate IsNewest(copies: set<BackupCopy>, c: BackupCopy) {
    c in DatedOf(copies) && forall d :: d in DatedOf(copies) ==> d.takenAt <= c.takenAt
  }

  /** The newest copy survives exactly when some count is positive or all are zero. The guard in
      the source tests for zero only, so a negative count beside zeros, which the schema refuses
      but the function accepts, drops every dated copy. */
  lemma NewestKeptIff(copies: set<BackupCopy>, p: Policy, k: Keys, c: BackupCopy)
    requires IsNewest(copies, c)
    ensures c in Kept(copies, p, k) <==> KeepsNothing(p) || p.daily > 0 || p.weekly > 0 || p.monthly > 0
  {
    var d := DatedOf(copies);
    assert NewerPeriods(d, c.takenAt, k.day) == {};
    assert NewerPeriods(d, c.takenAt, k.week) == {};
    assert NewerPeriods(d, c.takenAt, k.month) == {};
  }

  /** Every policy with no positive count that is not all zero keeps the undated copies only. */
  lemma NegativeCountsDropEverything(copies: set<BackupCopy>, p: Policy, k: Keys)
    requires !KeepsNothing(p) && p.daily <= 0 && p.weekly <= 0 && p.monthly <= 0
    ensures Kept(copies, p, k) == copies - DatedOf(copies)
  {
    assert ByRules(DatedOf(copies), p, k) == {};
  }

  // --------------------------------------------- the rules in terms of the calendar

  ghost function LaterPeriods(copies: set<BackupCopy>, i: int, index: int -> int): set<int> {
    set c | c in copies && index(c.takenAt) > i :: index(c.takenAt)
  }

  /** c is the newest copy of its period and fewer than `count` later periods hold a copy. */
  ghost predicate NewestOfRecentPeriod(copies: set<BackupCopy>, c: BackupCopy, count: int, index: int -> int) {
    && (forall d :: d in copies && index(d.takenAt) == index(c.takenAt) ==> d.takenAt <= c.takenAt)
    && |LaterPeriods(copies, index(c.takenAt), index)| < count
  }

  lemma {:induction false} ImagesAgree(copies: set<BackupCopy>, t: int, key: Key, index: int -> int)
    requires forall a, b :: key(a) == key(b) <==> index(a) == index(b)
    ensures |NewerPeriods(copies, t, key)| == |set c | c in copies && c.takenAt > t :: index(c.takenAt)|
    decreases |copies|
  {
    var ks := NewerPeriods(copies, t, key);
    var indices := set c | c in copies && c.takenAt > t :: index(c.takenAt);
    if ks != {} {
      var k :| k in ks;
      var m :| m in copies && m.takenAt > t && key(m.takenAt) == k;
      var rest := set c | c in copies && key(c.takenAt) != k;
      assert m !in rest;
      SubsetSize(rest, copies - {m});
      ImagesAgree(rest, t, key, index);
      assert NewerPeriods(rest, t, key) == ks - {k};
      assert (set c | c in rest && c.takenAt > t :: index(c.takenAt)) == indices - {index(m.takenAt)};
    } else {
      assert forall c :: c in copies && c.takenAt > t ==> key(c.takenAt) in ks;
      assert indices == {};
    }
  }

  lemma WantsByIndex(copies: set<BackupCopy>, c: BackupCopy, count: int, key: Key, index: int -> int)
    requires Names(key, index)
    requires c in copies
    ensures Wants(copies, c, count, key) <==> NewestOfRecentPeriod(copies, c, count, index)
  {
    var newer := NewerPeriods(copies, c.takenAt, key);
    var indices := set d | d in copies && d.takenAt > c.takenAt :: index(d.takenAt);
    ImagesAgree(copies, c.takenAt, key, index);
    if key(c.takenAt) in newer {
      var d :| d in copies && d.takenAt > c.takenAt && key(d.takenAt) == key(c.takenAt);
      assert !NewestOfRecentPeriod(copies, c, count, index);
    } else {
      assert forall d :: d in copies && d.takenAt > c.takenAt ==> key(d.takenAt) in newer;
      forall d | d in copies && d.takenAt > c.takenAt ensures index(d.takenAt) > index(c.takenAt) {
        assert key(d.takenAt) in newer;
      }
      assert indices == LaterPeriods(copies, index(c.takenAt), index);
    }
  }

  /** The policy, read off the calendar: a copy survives iff the policy is all zeros, or it has no date, or
      of the copies with a date it is the newest of its day, ISO week or month and fewer than the rule's
      count of later such periods hold one. */
  lemma KeptIffNewestOfRecentPeriod(copies: set<BackupCopy>, p: Policy, c: BackupCopy)
    requires c in copies
    ensures var dated := set d | d in copies && d.takenAt != 0;
            c in Kept(copies, p, CALENDAR) <==>
              || (p.daily == 0 && p.weekly == 0 && p.monthly == 0)
              || c.takenAt == 0
              || NewestOfRecentPeriod(dated, c, p.daily, Day)
              || NewestOfRecentPeriod(dated, c, p.weekly, WeekIndex)
              || NewestOfRecentPeriod(dated, c, p.monthly, MonthIndex)
  {
    assert DatedOf(copies) == set d | d in copies && d.takenAt != 0;
    if !KeepsNothing(p) && c.takenAt != 0 { DatedKeptIff(copies, p, c); }
  }

  lemma DatedKeptIff(copies: set<BackupCopy>, p: Policy, c: BackupCopy)
    requires !KeepsNothing(p) && c in DatedOf(copies)
    ensures var d := DatedOf(copies);
            c in Kept(copies, p, CALENDAR) <==>
              || NewestOfRecentPeriod(d, c, p.daily, Day)
              || NewestOfRecentPeriod(d, c, p.weekly, WeekIndex)
              || NewestOfRecentPeriod(d, c, p.monthly, MonthIndex)
  {
    CalendarKeys();
    WantsByIndex(DatedOf(copies), c, p.daily, CALENDAR.day, Day);
    WantsByIndex(DatedOf(copies), c, p.weekly, CALENDAR.week, WeekIndex);
    WantsByIndex(DatedOf(copies), c, p.monthly, CALENDAR.month, MonthIndex);
    UnionOfRules(copies, p, CALENDAR, c);
  }

  lemma UnionOfRules(copies: set<BackupCopy>, p: Policy, k: Keys, c: BackupCopy)
    requires !KeepsNothing(p) && c in DatedOf(copies)
    ensures var d := DatedOf(copies);
            c in Kept(copies, p, k) <==>
              Wants(d, c, p.daily, k.day) || Wants(d, c, p.weekly, k.week) || Wants(d, c, p.monthly, k.month)
  {
  }

  ghost predicate Names(key: Key, index: int -> int) {
    && (forall a, b :: key(a) == key(b) <==> index(a) == index(b))
    && (forall a, b :: a <= b ==> index(a) <= index(b))
  }

  /** The textual keys name exactly the days, ISO weeks and months, which are ordered in time. */
  lemma CalendarKeys()
    ensures Names(CALENDAR.day, Day) && Names(CALENDAR.week, WeekIndex) && Names(CALENDAR.month, MonthIndex)
  {
    DaysNamed();
    WeeksNamed();
    MonthsNamed();
  }

  lemma DaysNamed()
    ensures Names(DayKey, Day)
  {
    forall a, b ensures DayKey(a) == DayKey(b) <==> Day(a) == Day(b) { DayKeyNamesDay(a, b); }
  }

  lemma WeeksNamed()
    ensures Names(WeekKey, WeekIndex)
  {
    forall a, b ensures WeekKey(a) == WeekKey(b) <==> WeekIndex(a) == WeekIndex(b) { WeekKeyNamesIsoWeek(a, b); }
  }

  lemma MonthsNamed()
    ensures Names(MonthKey, MonthIndex)
  {
    forall a, b ensures MonthKey(a) == MonthKey(b) <==> MonthIndex(a) == MonthIndex(b) { MonthKeyNamesMonth(a, b); }
    forall a, b | a <= b ensures MonthIndex(a) <= MonthIndex(b) { MonthMonotone(Day(a), Day(b)); }
  }

  // ------------------------------------------------- the proofs behind it: one rule

  lemma SubsetSize<T>(a: set<T>, b: set<T>)
    requires a <= b
    ensures |a| <= |b|
  {
    assert b == a + (b - a);
  }

  /** Adding copies never makes a rule want a copy it did not want. */
  lemma WantsShrinks(fewer: set<BackupCopy>, more: set<BackupCopy>, c: BackupCopy, count: int, key: Key)
    requires fewer <= more && Wants(more, c, count, key)
    ensures Wants(fewer, c, count, key)
  {
    SubsetSize(NewerPeriods(fewer, c.takenAt, key), NewerPeriods(more, c.takenAt, key));
  }

  /** A newest copy among those of period k later than t. */
  lemma {:induction false} NewestOfPeriod(copies: set<BackupCopy>, t: int, key: Key, k: string) returns (m: BackupCopy)
    requires k in NewerPeriods(copies, t, key)
    ensures m in copies && m.takenAt > t && key(m.takenAt) == k
    ensures forall c :: c in copies && key(c.takenAt) == k ==> c.takenAt <= m.takenAt
    decreases |copies|
  {
    m :| m in copies && m.takenAt > t && key(m.takenAt) == k;
    if k in NewerPeriods(copies - {m}, m.takenAt, key) {
      m := NewestOfPeriod(copies - {m}, m.takenAt, key, k);
    }
  }

  /** When the newest copies of all periods later than t fit in the count, they are all kept. */
  lemma RecentPeriodKept(copies: set<BackupCopy>, t: int, count: nat, key: Key, k: string)
    requires |NewerPeriods(copies, t, key)| <= count
    requires k in NewerPeriods(copies, t, key)
    ensures k in NewerPeriods(Rule(copies, count, key), t, key)
  {
    var m := NewestOfPeriod(copies, t, key, k);
    var newer := NewerPeriods(copies, m.takenAt, key);
    assert newer <= NewerPeriods(copies, t, key) - {k};
    SubsetSize(newer, NewerPeriods(copies, t, key) - {k});
    assert m in Rule(copies, count, key);
  }

  /** Moving t past the oldest copy newer than it loses one period at most. */
  lemma NextMoment(copies: set<BackupCopy>, t: int, key: Key) returns (u: int)
    requires NewerPeriods(copies, t, key) != {}
    ensures u > t && NewerThan(copies, u) < NewerThan(copies, t)
    ensures |NewerPeriods(copies, u, key)| >= |NewerPeriods(copies, t, key)| - 1
  {
    var k :| k in NewerPeriods(copies, t, key);
    var any :| any in copies && any.takenAt > t && key(any.takenAt) == k;
    assert any in NewerThan(copies, t);
    var oldest := OldestNewerThan(copies, t);
    u := oldest.takenAt;
    assert oldest in NewerThan(copies, t) && oldest !in NewerThan(copies, u);
    assert NewerThan(copies, u) <= NewerThan(copies, t);
    var later := NewerPeriods(copies, u, key) + {key(u)};
    assert NewerPeriods(copies, t, key) <= later;
    SubsetSize(NewerPeriods(copies, t, key), later);
  }

  /** What a rule keeps still shows its periods: seen from any moment t, the kept copies newer
      than t cover all the periods the full set covers, or at least `count` of them. */
  lemma {:induction false} RuleCoversPeriods(copies: set<BackupCopy>, t: int, count: nat, key: Key)
    ensures var all := NewerPeriods(copies, t, key);
            var kept := NewerPeriods(Rule(copies, count, key), t, key);
            kept <= all && (kept == all || |kept| >= count)
    decreases NewerThan(copies, t)
  {
    var all := NewerPeriods(copies, t, key);
    var kept := NewerPeriods(Rule(copies, count, key), t, key);
    assert kept <= all;
    if |all| <= count {
      forall k | k in all ensures k in kept { RecentPeriodKept(copies, t, count, key, k); }
    } else {
      var u := NextMoment(copies, t, key);
      RuleCoversPeriods(copies, u, count, key);
      assert NewerPeriods(Rule(copies, count, key), u, key) <= kept;
      SubsetSize(NewerPeriods(Rule(copies, count, key), u, key), kept);
    }
  }

  ghost function NewerThan(copies: set<BackupCopy>, t: int): set<BackupCopy> {
    set c | c in copies && c.takenAt > t
  }

  lemma {:induction false} OldestNewerThan(copies: set<BackupCopy>, t: int) returns (o: BackupCopy)
    requires NewerThan(copies, t) != {}
    ensures o in copies && o.takenAt > t
    ensures forall c :: c in copies && c.takenAt > t ==> o.takenAt <= c.takenAt
    decreases |copies|
  {
    o :| o in NewerThan(copies, t);
    var rest := copies - {o};
    var p := o;
    if NewerThan(rest, t) != {} {
      p := OldestNewerThan(rest, t);
    }
    var any := o;
    if p.takenAt < o.takenAt { o := p; }
    forall c | c in copies && c.takenAt > t ensures o.takenAt <= c.takenAt {
      if c != any { assert c in NewerThan(rest, t); }
    }
  }

  /** Throwing away copies a rule does not want never changes what it wants. */
  lemma RuleIgnoresTheUnwanted(copies: set<BackupCopy>, rest: set<BackupCopy>, count: int, key: Key)
    requires Rule(copies, count, key) <= rest <= copies
    ensures Rule(rest, count, key) == Rule(copies, count, key)
  {
    forall c | c in Rule(copies, count, key) ensures c in Rule(rest, count, key) {
      WantsShrinks(rest, copies, c, count, key);
    }
    forall c | c in Rule(rest, count, key) ensures c in Rule(copies, count, key) {
      var all := NewerPeriods(copies, c.takenAt, key);
      var left := NewerPeriods(rest, c.takenAt, key);
      var kept := NewerPeriods(Rule(copies, count, key), c.takenAt, key);
      RuleCoversPeriods(copies, c.takenAt, count, key);
      assert kept <= left <= all;
      SubsetSize(kept, left);
    }
  }
}
