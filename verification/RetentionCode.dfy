/** The retention loops, proved against the policy of module Retention. */
module RetentionCode {
  import opened Retention
  import opened Sorting

  // ------------------------------------------------- what the loops do to an ordered list

  ghost function KeysBefore(s: seq<BackupCopy>, i: nat, key: Key): set<string>
    requires i <= |s|
  {
    set j | 0 <= j < i :: key(s[j].takenAt)
  }

  /** Position i is the first of its period, and fewer than `count` periods come before it. */
  ghost predicate MarkedAt(s: seq<BackupCopy>, i: nat, count: int, key: Key)
    requires i < |s|
  {
    key(s[i].takenAt) !in KeysBefore(s, i, key) && |KeysBefore(s, i, key)| < count
  }

  /** Names marked by one pass over the first n copies. */
  ghost function Marked(s: seq<BackupCopy>, n: nat, count: int, key: Key): set<string>
    requires n <= |s|
  {
    set i | 0 <= i < n && MarkedAt(s, i, count, key) :: s[i].name
  }

  ghost function MarkedByAll(s: seq<BackupCopy>, p: Policy, k: Keys): set<string> {
    Marked(s, |s|, p.daily, k.day) + Marked(s, |s|, p.weekly, k.week) + Marked(s, |s|, p.monthly, k.month)
  }

  function Undated(s: seq<BackupCopy>): (r: seq<BackupCopy>) {
    if s == [] then []
    else Undated(s[..|s| - 1]) + if IsDated(s[|s| - 1]) then [] else [s[|s| - 1]]
  }

  function Datable(s: seq<BackupCopy>): (r: seq<BackupCopy>) {
    if s == [] then []
    else Datable(s[..|s| - 1]) + if IsDated(s[|s| - 1]) then [s[|s| - 1]] else []
  }

  /** The copies of s whose name is (or is not) in a set, in order. */
  ghost function Named(s: seq<BackupCopy>, names: set<string>, wanted: bool): seq<BackupCopy> {
    if s == [] then []
    else
      var c := s[|s| - 1];
      Named(s[..|s| - 1], names, wanted) + if (c.name in names) == wanted then [c] else []
  }

  predicate Newer(a: BackupCopy, b: BackupCopy) { a.takenAt > b.takenAt }

  /** Some newest-first arrangement of the dated copies; ties may come in any order. */
  ghost predicate NewestFirst(order: seq<BackupCopy>, copies: seq<BackupCopy>) {
    multiset(order) == multiset(Datable(copies)) && Sorted(order, Newer)
  }

  // ------------------------------------------------------------------ the code

  /** Go's `map[string]bool` shared by the three passes. */
  class KeptNames {
    var kept: map<string, bool>

    ghost function Names(): set<string> reads this { set n | n in kept && kept[n] }

    constructor ()
      ensures Names() == {}
    {
      kept := map[];
    }

    /** Marks the newest copy of each of the `periods` most recent periods that have one. */
    method MarkNewestPerPeriod(sorted: seq<BackupCopy>, periods: int, key: Key)
      modifies this
      ensures Names() == old(Names()) + Marked(sorted, |sorted|, periods, key)
    {
      if periods <= 0 {
        return;
      }
      var seen: set<string> := {};
      var i := 0;
      while i < |sorted|
        invariant 0 <= i <= |sorted|
        invariant seen == KeysBefore(sorted, i, key) && |seen| <= periods
        invariant Names() == old(Names()) + Marked(sorted, i, periods, key)
      {
        var k := key(sorted[i].takenAt);
        if k !in seen {
          if |seen| >= periods {
            NothingMoreMarked(sorted, i, periods, key);
            return;
          }
          label L:
          seen := seen + {k};
          kept := kept[sorted[i].name := true];
          assert Names() == old@L(Names()) + {sorted[i].name};
        }
        assert KeysBefore(sorted, i + 1, key) == KeysBefore(sorted, i, key) + {k};
        MarkedStep(sorted, i, periods, key);
        i := i + 1;
      }
    }
  }

  lemma MarkedStep(s: seq<BackupCopy>, i: nat, count: int, key: Key)
    requires i < |s|
    ensures Marked(s, i + 1, count, key) ==
            Marked(s, i, count, key) + if MarkedAt(s, i, count, key) then {s[i].name} else {}
  {
  }

  lemma NothingMoreMarked(s: seq<BackupCopy>, i: nat, count: int, key: Key)
    requires i <= |s| && |KeysBefore(s, i, key)| >= count
    ensures Marked(s, |s|, count, key) == Marked(s, i, count, key)
  {
    forall j | i <= j < |s| ensures !MarkedAt(s, j, count, key) {
      SubsetSize(KeysBefore(s, i, key), KeysBefore(s, j, key));
    }
  }

  /** Copies with no date are set aside before any rule sees them. */
  method SetAsideUndated(copies: seq<BackupCopy>) returns (undated: seq<BackupCopy>, datable: seq<BackupCopy>)
    ensures undated == Undated(copies) && datable == Datable(copies)
  {
    undated, datable := [], [];
    for i := 0 to |copies|
      invariant undated == Undated(copies[..i]) && datable == Datable(copies[..i])
    {
      assert copies[..i + 1][..i] == copies[..i];
      if IsDated(copies[i]) {
        datable := datable + [copies[i]];
      } else {
        undated := undated + [copies[i]];
      }
    }
    assert copies[..|copies|] == copies;
  }

  /** One pass per rule over the same map. */
  method MarkByAllRules(sorted: seq<BackupCopy>, policy: Policy, k: Keys) returns (kept: KeptNames)
    ensures fresh(kept) && kept.Names() == MarkedByAll(sorted, policy, k)
  {
    kept := new KeptNames();
    kept.MarkNewestPerPeriod(sorted, policy.daily, k.day);
    kept.MarkNewestPerPeriod(sorted, policy.weekly, k.week);
    kept.MarkNewestPerPeriod(sorted, policy.monthly, k.month);
  }

  /** The last loop: a copy is kept iff its name was marked. */
  method Divide(sorted: seq<BackupCopy>, kept: KeptNames) returns (keep: seq<BackupCopy>, drop: seq<BackupCopy>)
    ensures keep == Named(sorted, kept.Names(), true) && drop == Named(sorted, kept.Names(), false)
  {
    keep, drop := [], [];
    for i := 0 to |sorted|
      invariant keep == Named(sorted[..i], kept.Names(), true)
      invariant drop == Named(sorted[..i], kept.Names(), false)
    {
      var c := sorted[i];
      assert sorted[..i + 1][..i] == sorted[..i];
      if c.name in kept.kept && kept.kept[c.name] {
        keep := keep + [c];
      } else {
        drop := drop + [c];
      }
    }
    assert sorted[..|sorted|] == sorted;
  }

  /** What the rules decide when the policy is not all zero, for some newest-first order. */
  ghost predicate DividedByRules(
    order: seq<BackupCopy>, copies: seq<BackupCopy>, p: Policy, k: Keys, keep: seq<BackupCopy>, drop: seq<BackupCopy>)
  {
    && NewestFirst(order, copies)
    && keep == Named(order, MarkedByAll(order, p, k), true) + Undated(copies)
    && drop == Named(order, MarkedByAll(order, p, k), false)
  }

  ghost predicate DividedInSomeOrder(
    copies: seq<BackupCopy>, p: Policy, k: Keys, keep: seq<BackupCopy>, drop: seq<BackupCopy>)
  {
    exists order :: DividedByRules(order, copies, p, k, keep, drop)
  }

  /** Keep and drop partition the input, no undated copy is dropped, and on an unambiguous volume
      the two are what the policy says. */
  ghost predicate Sound(
    copies: seq<BackupCopy>, p: Policy, k: Keys, keep: seq<BackupCopy>, drop: seq<BackupCopy>)
  {
    && multiset(keep) + multiset(drop) == multiset(copies)
    && (forall c :: c in drop ==> c.takenAt != 0)
    && (Unambiguous(copies) ==>
          && Elements(keep) == Kept(Elements(copies), p, k)
          && Elements(drop) == Elements(copies) - Kept(Elements(copies), p, k))
  }

  lemma NoneDatable(copies: seq<BackupCopy>, p: Policy, k: Keys)
    requires Datable(copies) == []
    ensures DividedInSomeOrder(copies, p, k, Undated(copies), [])
    ensures !KeepsNothing(p) ==> Sound(copies, p, k, Undated(copies), [])
  {
    assert [] + Undated(copies) == Undated(copies);
    assert DividedByRules([], copies, p, k, Undated(copies), []);
    if !KeepsNothing(p) { DecisionIsSound([], copies, p, k, Undated(copies), []); }
  }

  /** The entry point: what stays on the volume and what is deleted. */
  method Retain(copies: seq<BackupCopy>, policy: Policy) returns (keep: seq<BackupCopy>, drop: seq<BackupCopy>)
    ensures KeepsNothing(policy) ==> keep == copies && drop == []
    ensures !KeepsNothing(policy) ==> DividedInSomeOrder(copies, policy, CALENDAR, keep, drop)
    ensures Sound(copies, policy, CALENDAR, keep, drop)
  {
    if |copies| == 0 {
      NoneDatable(copies, policy, CALENDAR);
      return [], [];
    }
    if policy.daily == 0 && policy.weekly == 0 && policy.monthly == 0 {
      return copies, [];
    }
    var undated, datable := SetAsideUndated(copies);
    if |datable| == 0 {
      NoneDatable(copies, policy, CALENDAR);
      return undated, [];
    }
    var sorted := SortBy(datable, Newer);
    var kept := MarkByAllRules(sorted, policy, CALENDAR);
    keep, drop := Divide(sorted, kept);
    keep := keep + undated;
    DecisionIsSound(sorted, copies, policy, CALENDAR, keep, drop);
  }

  // ---------------------------------------------------------- the proofs behind it

  lemma {:induction false} DatableAndUndated(s: seq<BackupCopy>)
    ensures multiset(Datable(s)) + multiset(Undated(s)) == multiset(s)
  {
    if s != [] {
      var rest, c := s[..|s| - 1], s[|s| - 1];
      DatableAndUndated(rest);
      assert s == rest + [c];
      OneMoreOfEither(Datable(rest), Undated(rest), rest, c);
      if IsDated(c) {
        assert Datable(s) == Datable(rest) + [c] && Undated(s) == Undated(rest);
      } else {
        assert Datable(s) == Datable(rest) && Undated(s) == Undated(rest) + [c];
      }
    }
  }

  lemma {:induction false} DatableMembers(s: seq<BackupCopy>)
    ensures forall c :: c in Datable(s) <==> c in s && IsDated(c)
    ensures forall c :: c in Undated(s) <==> c in s && !IsDated(c)
  {
    if s != [] {
      DatableMembers(s[..|s| - 1]);
      assert s == s[..|s| - 1] + [s[|s| - 1]];
    }
  }

  lemma {:induction false} NamedPartition(s: seq<BackupCopy>, names: set<string>)
    ensures multiset(Named(s, names, true)) + multiset(Named(s, names, false)) == multiset(s)
  {
    if s != [] {
      var rest, c := s[..|s| - 1], s[|s| - 1];
      NamedPartition(rest, names);
      assert s == rest + [c];
      OneMoreOfEither(Named(rest, names, true), Named(rest, names, false), rest, c);
      if c.name in names {
        assert Named(s, names, true) == Named(rest, names, true) + [c];
        assert Named(s, names, false) == Named(rest, names, false);
      } else {
        assert Named(s, names, true) == Named(rest, names, true);
        assert Named(s, names, false) == Named(rest, names, false) + [c];
      }
    }
  }

  lemma {:induction false} NamedMembers(s: seq<BackupCopy>, names: set<string>, wanted: bool)
    ensures forall c :: c in Named(s, names, wanted) <==> c in s && (c.name in names) == wanted
  {
    if s != [] {
      NamedMembers(s[..|s| - 1], names, wanted);
      assert s == s[..|s| - 1] + [s[|s| - 1]];
    }
  }

  /** The volume a run leaves behind: names are file names, and no two dated copies share an
      instant. Only then is "the newest" a single copy, and a name a single copy. */
  ghost predicate Unambiguous(copies: seq<BackupCopy>) {
    && Distinct(copies)
    && (forall c, d :: c in copies && d in copies && c.name == d.name ==> c == d)
    && (forall c, d :: c in copies && d in copies && c.takenAt != 0 && c.takenAt == d.takenAt ==> c == d)
  }

  /** In a strictly newest-first list, the periods before a position are those of newer copies. */
  lemma KeysBeforeAreNewer(order: seq<BackupCopy>, i: nat, key: Key)
    requires i < |order| && Sorted(order, Newer) && Distinct(order) && OneCopyPerInstant(Elements(order))
    ensures KeysBefore(order, i, key) == NewerPeriods(Elements(order), order[i].takenAt, key)
  {
    var newer := NewerPeriods(Elements(order), order[i].takenAt, key);
    forall k | k in KeysBefore(order, i, key) ensures k in newer {
      var j :| 0 <= j < i && key(order[j].takenAt) == k;
      assert !Newer(order[i], order[j]) && order[j] in Elements(order) && order[i] in Elements(order);
    }
    forall k | k in newer ensures k in KeysBefore(order, i, key) {
      var c :| c in Elements(order) && c.takenAt > order[i].takenAt && key(c.takenAt) == k;
      var j :| 0 <= j < |order| && order[j] == c;
      assert j < i;
    }
  }

  /** A pass marks the copies its rule wants. */
  lemma MarkedIsRule(order: seq<BackupCopy>, count: int, key: Key)
    requires Sorted(order, Newer) && Unambiguous(order) && OneCopyPerInstant(Elements(order))
    ensures forall c :: c in order ==>
              (c.name in Marked(order, |order|, count, key) <==> c in Rule(Elements(order), count, key))
  {
    forall i | 0 <= i < |order|
      ensures order[i].name in Marked(order, |order|, count, key) <==> order[i] in Rule(Elements(order), count, key)
    {
      KeysBeforeAreNewer(order, i, key);
      if order[i].name in Marked(order, |order|, count, key) {
        var j :| 0 <= j < |order| && MarkedAt(order, j, count, key) && order[j].name == order[i].name;
        assert order[j] == order[i];
        KeysBeforeAreNewer(order, j, key);
      }
    }
  }

  lemma MarkedNamesAreRules(order: seq<BackupCopy>, p: Policy, k: Keys)
    requires Sorted(order, Newer) && Unambiguous(order) && OneCopyPerInstant(Elements(order))
    ensures forall c :: c in order ==> (c.name in MarkedByAll(order, p, k) <==> c in ByRules(Elements(order), p, k))
  {
    MarkedIsRule(order, p.daily, k.day);
    MarkedIsRule(order, p.weekly, k.week);
    MarkedIsRule(order, p.monthly, k.month);
  }

  /** For an unambiguous volume the code's answer is the policy's. */
  lemma DecisionIsPolicy(
    order: seq<BackupCopy>, copies: seq<BackupCopy>, p: Policy, k: Keys, keep: seq<BackupCopy>, drop: seq<BackupCopy>)
    requires Unambiguous(copies) && !KeepsNothing(p)
    requires DividedByRules(order, copies, p, k, keep, drop)
    ensures Elements(keep) == Kept(Elements(copies), p, k)
    ensures Elements(drop) == Elements(copies) - Kept(Elements(copies), p, k)
  {
    OrderUnambiguous(order, copies);
    MarkedNamesAreRules(order, p, k);
    DatableMembers(copies);
    NamedMembers(order, MarkedByAll(order, p, k), true);
    NamedMembers(order, MarkedByAll(order, p, k), false);
    forall c ensures c in keep <==> c in Kept(Elements(copies), p, k) {
      assert c in order <==> c in DatedOf(Elements(copies));
    }
    forall c ensures c in drop <==> c in copies && c !in Kept(Elements(copies), p, k) {
      assert c in order <==> c in DatedOf(Elements(copies));
    }
  }

  lemma DecisionPartitions(
    order: seq<BackupCopy>, copies: seq<BackupCopy>, p: Policy, k: Keys, keep: seq<BackupCopy>, drop: seq<BackupCopy>)
    requires DividedByRules(order, copies, p, k, keep, drop)
    ensures multiset(keep) + multiset(drop) == multiset(copies)
    ensures forall c :: c in drop ==> IsDated(c)
  {
    DatableAndUndated(copies);
    DatableMembers(copies);
    NamedPartition(order, MarkedByAll(order, p, k));
    forall c | c in drop ensures IsDated(c) {
      assert c in multiset(drop) && c in multiset(order);
      assert c in multiset(Datable(copies));
    }
  }

  lemma DecisionIsSound(
    order: seq<BackupCopy>, copies: seq<BackupCopy>, p: Policy, k: Keys, keep: seq<BackupCopy>, drop: seq<BackupCopy>)
    requires !KeepsNothing(p) && DividedByRules(order, copies, p, k, keep, drop)
    ensures DividedInSomeOrder(copies, p, k, keep, drop)
    ensures Sound(copies, p, k, keep, drop)
  {
    DecisionPartitions(order, copies, p, k, keep, drop);
    if Unambiguous(copies) { DecisionIsPolicy(order, copies, p, k, keep, drop); }
  }

  lemma OrderUnambiguous(order: seq<BackupCopy>, copies: seq<BackupCopy>)
    requires Unambiguous(copies) && NewestFirst(order, copies)
    ensures Unambiguous(order) && Elements(order) == DatedOf(Elements(copies)) && OneCopyPerInstant(Elements(order))
  {
    DatableMembers(copies);
    forall c ensures c in order <==> c in Datable(copies) {
      assert c in multiset(order) <==> c in multiset(Datable(copies));
    }
    DatableAndUndated(copies);
    DistinctByMultiset(copies, order);
  }

  lemma DistinctByMultiset(copies: seq<BackupCopy>, order: seq<BackupCopy>)
    requires Distinct(copies) && multiset(order) <= multiset(copies)
    ensures Distinct(order)
  {
    forall i, j | 0 <= i < j < |order| ensures order[i] != order[j] {
      if order[i] == order[j] { TwiceInMultiset(order, i, j); OnceEach(copies, order[i]); }
    }
  }

  lemma FewerStayUnambiguous(fewer: seq<BackupCopy>, copies: seq<BackupCopy>)
    requires Unambiguous(copies) && multiset(fewer) <= multiset(copies)
    ensures Unambiguous(fewer)
  {
    DistinctByMultiset(copies, fewer);
    forall c | c in fewer ensures c in copies { assert c in multiset(fewer) && c in multiset(copies); }
  }

  /** Path independence of the code's answers: pruning a volume, adding copies and pruning again keeps
      the copies that pruning everything once keeps. The three answers are what Retain promises. */
  lemma PruningAsYouGoIsPruningOnce(
    before: seq<BackupCopy>, added: seq<BackupCopy>, p: Policy, k: Keys,
    keep1: seq<BackupCopy>, drop1: seq<BackupCopy>, keep2: seq<BackupCopy>, drop2: seq<BackupCopy>,
    keep: seq<BackupCopy>, drop: seq<BackupCopy>)
    requires Unambiguous(before + added) && Sound(before, p, k, keep1, drop1)
    requires Sound(keep1 + added, p, k, keep2, drop2) && Sound(before + added, p, k, keep, drop)
    ensures Elements(keep2) == Elements(keep)
  {
    PartUnambiguous(before, added);
    FewerStayUnambiguous(keep1 + added, before + added);
    ElementsOfConcat(before, added);
    ElementsOfConcat(keep1, added);
    PathIndependence(Elements(before), Elements(added), p, k);
  }

  /** Everything ever taken. */
  function Everything(batches: seq<seq<BackupCopy>>): seq<BackupCopy> {
    if batches == [] then [] else Everything(batches[..|batches| - 1]) + batches[|batches| - 1]
  }

  ghost predicate PrunesTo(
    before: seq<BackupCopy>, batch: seq<BackupCopy>, p: Policy, k: Keys, keep: seq<BackupCopy>)
  {
    exists drop :: Sound(before + batch, p, k, keep, drop)
  }

  /** `keeps` is what Retain may have answered, one batch after another, each time given what it kept
      before and the new batch. */
  ghost predicate PrunedAlong(batches: seq<seq<BackupCopy>>, p: Policy, k: Keys, keeps: seq<seq<BackupCopy>>) {
    && |keeps| == |batches|
    && forall i :: 0 <= i < |batches| ==> PrunesTo(KeptBefore(keeps, i), batches[i], p, k, keeps[i])
  }

  function KeptBefore(keeps: seq<seq<BackupCopy>>, i: nat): seq<BackupCopy>
    requires i <= |keeps|
  {
    if i == 0 then [] else keeps[i - 1]
  }

  /** Over any run of the code, however the backups were batched and whatever order it saw them in,
      what is kept is what one call on everything ever taken keeps. */
  lemma {:induction false} RunKeepsWhatOneCallKeeps(
    batches: seq<seq<BackupCopy>>, p: Policy, k: Keys, keeps: seq<seq<BackupCopy>>,
    once: seq<BackupCopy>, drop: seq<BackupCopy>)
    requires batches != [] && PrunedAlong(batches, p, k, keeps) && Unambiguous(Everything(batches))
    requires Sound(Everything(batches), p, k, once, drop)
    ensures Elements(keeps[|keeps| - 1]) == Elements(once)
  {
    KeptAlong(batches, p, k, keeps);
  }

  /** A list of copies taken from `all`, exactly those the policy wants. */
  ghost predicate IsKeptOf(keep: seq<BackupCopy>, all: seq<BackupCopy>, p: Policy, k: Keys) {
    multiset(keep) <= multiset(all) && Elements(keep) == Kept(Elements(all), p, k)
  }

  lemma {:induction false} KeptAlong(batches: seq<seq<BackupCopy>>, p: Policy, k: Keys, keeps: seq<seq<BackupCopy>>)
    requires PrunedAlong(batches, p, k, keeps) && Unambiguous(Everything(batches))
    ensures IsKeptOf(KeptBefore(keeps, |keeps|), Everything(batches), p, k)
    decreases |batches|
  {
    if batches != [] {
      var n := |batches| - 1;
      PartUnambiguous(Everything(batches[..n]), batches[n]);
      PrunedSoFar(batches, p, k, keeps, n);
      KeptAlong(batches[..n], p, k, keeps[..n]);
      LastBatch(batches, p, k, keeps, n);
    }
  }

  lemma LastBatch(batches: seq<seq<BackupCopy>>, p: Policy, k: Keys, keeps: seq<seq<BackupCopy>>, n: nat)
    requires n + 1 == |batches| == |keeps| && Unambiguous(Everything(batches))
    requires IsKeptOf(KeptBefore(keeps[..n], n), Everything(batches[..n]), p, k)
    requires PrunesTo(KeptBefore(keeps, n), batches[n], p, k, keeps[n])
    ensures IsKeptOf(KeptBefore(keeps, n + 1), Everything(batches), p, k)
  {
    OneBatchMore(Everything(batches[..n]), batches[n], p, k, KeptBefore(keeps, n), keeps[n]);
  }

  lemma PrunedSoFar(batches: seq<seq<BackupCopy>>, p: Policy, k: Keys, keeps: seq<seq<BackupCopy>>, n: nat)
    requires PrunedAlong(batches, p, k, keeps) && n < |batches|
    ensures PrunedAlong(batches[..n], p, k, keeps[..n]) && PrunesTo(KeptBefore(keeps, n), batches[n], p, k, keeps[n])
  {
    forall i | 0 <= i < n ensures PrunesTo(KeptBefore(keeps[..n], i), batches[..n][i], p, k, keeps[..n][i]) {
      assert PrunesTo(KeptBefore(keeps, i), batches[i], p, k, keeps[i]);
    }
  }

  lemma OneBatchMore(
    earlier: seq<BackupCopy>, added: seq<BackupCopy>, p: Policy, k: Keys, before: seq<BackupCopy>, keep: seq<BackupCopy>)
    requires Unambiguous(earlier + added) && IsKeptOf(before, earlier, p, k) && PrunesTo(before, added, p, k, keep)
    ensures IsKeptOf(keep, earlier + added, p, k)
  {
    var drop :| Sound(before + added, p, k, keep, drop);
    assert multiset(before + added) <= multiset(earlier + added);
    FewerStayUnambiguous(before + added, earlier + added);
    ElementsOfConcat(earlier, added);
    ElementsOfConcat(before, added);
    PathIndependence(Elements(earlier), Elements(added), p, k);
  }

  lemma ElementsOfConcat(a: seq<BackupCopy>, b: seq<BackupCopy>)
    ensures Elements(a + b) == Elements(a) + Elements(b)
  {
  }

  lemma PartUnambiguous(a: seq<BackupCopy>, b: seq<BackupCopy>)
    requires Unambiguous(a + b)
    ensures Unambiguous(a)
  {
    forall i, j | 0 <= i < j < |a| ensures a[i] != a[j] { assert (a + b)[i] != (a + b)[j]; }
  }

  // ---------------------------------------------------------------------- tiers

  predicate ContainsCopy(s: seq<BackupCopy>, name: string) { exists c :: c in s && c.name == name }

  /** What Retain may answer for a policy: the list kept, in some newest-first order. */
  ghost predicate MayKeep(all: seq<BackupCopy>, p: Policy, keep: seq<BackupCopy>) {
    if KeepsNothing(p) then keep == all else exists drop :: DividedInSomeOrder(all, p, CALENDAR, keep, drop)
  }

  ghost predicate MayShow(all: seq<BackupCopy>, p: Policy, name: string, shown: bool) {
    exists keep :: MayKeep(all, p, keep) && ContainsCopy(keep, name) == shown
  }

  /** The tier follows from answers Retain may give to the one-rule policies, on any volume. */
  ghost predicate TierMayBe(c: BackupCopy, p: Policy, all: seq<BackupCopy>, tier: string) {
    var monthly, weekly := Policy(0, 0, p.monthly), Policy(0, p.weekly, 0);
    if tier == "monthly" then MayShow(all, monthly, c.name, true)
    else if tier == "weekly" then MayShow(all, monthly, c.name, false) && MayShow(all, weekly, c.name, true)
    else tier == "daily" && MayShow(all, monthly, c.name, false) && MayShow(all, weekly, c.name, false)
  }

  /** The label the console puts beside a backup: the first one-rule policy that keeps its name. */
  method TierOf(c: BackupCopy, policy: Policy, all: seq<BackupCopy>) returns (tier: string)
    ensures TierMayBe(c, policy, all, tier)
    ensures Unambiguous(all) && c in all ==> tier == TierName(c, policy, Elements(all), CALENDAR)
  {
    var monthly, droppedMonthly := Retain(all, Policy(0, 0, policy.monthly));
    assert MayKeep(all, Policy(0, 0, policy.monthly), monthly);
    InKept(c, all, monthly, Policy(0, 0, policy.monthly));
    if ContainsCopy(monthly, c.name) {
      return "monthly";
    }
    var weekly, droppedWeekly := Retain(all, Policy(0, policy.weekly, 0));
    assert MayKeep(all, Policy(0, policy.weekly, 0), weekly);
    InKept(c, all, weekly, Policy(0, policy.weekly, 0));
    if ContainsCopy(weekly, c.name) {
      return "weekly";
    }
    return "daily";
  }

  ghost function TierName(c: BackupCopy, p: Policy, all: set<BackupCopy>, k: Keys): string {
    if c in Kept(all, Policy(0, 0, p.monthly), k) then "monthly"
    else if c in Kept(all, Policy(0, p.weekly, 0), k) then "weekly"
    else "daily"
  }

  lemma InKept(c: BackupCopy, all: seq<BackupCopy>, kept: seq<BackupCopy>, p: Policy)
    requires Unambiguous(all) ==> Elements(kept) == Kept(Elements(all), p, CALENDAR)
    ensures Unambiguous(all) && c in all ==> (ContainsCopy(kept, c.name) <==> c in Kept(Elements(all), p, CALENDAR))
  {
    if Unambiguous(all) && c in all {
      KeptAreCopies(Elements(all), p, CALENDAR);
      NamesIt(c, all, kept, Kept(Elements(all), p, CALENDAR));
    }
  }

  lemma KeptAreCopies(copies: set<BackupCopy>, p: Policy, k: Keys)
    ensures Kept(copies, p, k) <= copies
  {
  }

  lemma NamesIt(c: BackupCopy, all: seq<BackupCopy>, some: seq<BackupCopy>, chosen: set<BackupCopy>)
    requires c in all && Elements(some) == chosen <= Elements(all)
    requires forall d :: d in all && d.name == c.name ==> d == c
    ensures ContainsCopy(some, c.name) <==> c in chosen
  {
    if c in chosen { assert c in Elements(some); }
    forall d | d in some && d.name == c.name ensures d == c { assert d in Elements(some); }
  }

  /** The rule a tier name stands for, alone. */
  ghost function RuleNamed(tier: string, dated: set<BackupCopy>, p: Policy, k: Keys): set<BackupCopy> {
    if tier == "monthly" then Rule(dated, p.monthly, k.month)
    else if tier == "weekly" then Rule(dated, p.weekly, k.week)
    else Rule(dated, p.daily, k.day)
  }

  /** For a dated copy the policy keeps, the tier shown is a rule that keeps it on its own, as long
      as the monthly and weekly counts are not zero. With a zero monthly count it is wrong for every
      copy, and with a zero weekly count for every copy the monthly rule does not keep: the one-rule
      policy is then all zero, and an all-zero policy keeps everything. */
  lemma TierNamesAKeepingRule(c: BackupCopy, p: Policy, all: set<BackupCopy>, k: Keys)
    requires c in DatedOf(all) && c in Kept(all, p, k) && !KeepsNothing(p)
    ensures p.monthly != 0 && (p.weekly != 0 || c in Rule(DatedOf(all), p.monthly, k.month)) <==>
            c in RuleNamed(TierName(c, p, all, k), DatedOf(all), p, k)
  {
  }

  /** A volume of one copy that only the daily rule keeps, shown as monthly. */
  lemma ZeroMonthlyShowsMonthly(k: Keys)
    ensures var c, p := BackupCopy("a", 1, "", 0), Policy(1, 0, 0);
            TierName(c, p, {c}, k) == "monthly" && c in Rule({c}, p.daily, k.day) && c !in RuleNamed("monthly", {c}, p, k)
  {
    var c := BackupCopy("a", 1, "", 0);
    assert NewerPeriods({c}, 1, k.day) == {};
  }

  // ------------------------------------------- on any volume, repeated names and dates included

  function Positive(n: int): nat { if n < 0 then 0 else n }

  /** A pass marks no more names than its count. */
  lemma {:induction false} MarkedBounded(s: seq<BackupCopy>, n: nat, count: int, key: Key)
    requires n <= |s|
    ensures |Marked(s, n, count, key)| <= |KeysBefore(s, n, key)|
    ensures |Marked(s, n, count, key)| <= Positive(count)
  {
    if n == 0 {
      assert Marked(s, 0, count, key) == {} && KeysBefore(s, 0, key) == {};
    } else {
      MarkedBounded(s, n - 1, count, key);
      MarkedStep(s, n - 1, count, key);
      KeysStep(s, n - 1, key);
    }
  }

  lemma KeysStep(s: seq<BackupCopy>, i: nat, key: Key)
    requires i < |s|
    ensures |KeysBefore(s, i + 1, key)| ==
            |KeysBefore(s, i, key)| + if key(s[i].takenAt) in KeysBefore(s, i, key) then 0 else 1
  {
    assert KeysBefore(s, i + 1, key) == KeysBefore(s, i, key) + {key(s[i].takenAt)};
    if key(s[i].takenAt) in KeysBefore(s, i, key) { assert KeysBefore(s, i + 1, key) == KeysBefore(s, i, key); }
  }

  /** A larger count marks the same names and perhaps more, in the same order. */
  lemma MarkedGrows(s: seq<BackupCopy>, count: int, more: int, key: Key)
    requires count <= more
    ensures Marked(s, |s|, count, key) <= Marked(s, |s|, more, key)
  {
    forall i | 0 <= i < |s| && MarkedAt(s, i, count, key) ensures MarkedAt(s, i, more, key) { }
  }

  ghost predicate NamesApart(s: seq<BackupCopy>) {
    Distinct(s) && forall c, d :: c in s && d in s && c.name == d.name ==> c == d
  }

  lemma {:induction false} NamedBounded(s: seq<BackupCopy>, names: set<string>)
    requires NamesApart(s)
    ensures |Named(s, names, true)| <= |names|
    decreases |s|
  {
    if s != [] {
      var n := |s| - 1;
      var c, rest := s[n], s[..n];
      assert forall d :: d in rest ==> d in s;
      assert Distinct(rest) && forall i :: 0 <= i < n ==> s[i] != s[n];
      if c.name in names {
        forall d | d in rest ensures d.name != c.name {
          var i :| 0 <= i < n && s[i] == d;
        }
        NamedWithout(rest, names, c.name);
        NamedBounded(rest, names - {c.name});
      } else {
        NamedBounded(rest, names);
      }
    }
  }

  lemma {:induction false} NamedWithout(s: seq<BackupCopy>, names: set<string>, n: string)
    requires forall d :: d in s ==> d.name != n
    ensures Named(s, names, true) == Named(s, names - {n}, true)
  {
    if s != [] {
      assert s[|s| - 1] in s && forall d :: d in s[..|s| - 1] ==> d in s;
      NamedWithout(s[..|s| - 1], names, n);
    }
  }

  /** With distinct names, whatever the dates, the code keeps at most Daily+Weekly+Monthly dated
      copies, undated ones apart. */
  lemma CodeKeepsAtMost(
    order: seq<BackupCopy>, copies: seq<BackupCopy>, p: Policy, k: Keys, keep: seq<BackupCopy>, drop: seq<BackupCopy>)
    requires NamesApart(copies) && DividedByRules(order, copies, p, k, keep, drop)
    ensures |keep| - |Undated(copies)| <= Positive(p.daily) + Positive(p.weekly) + Positive(p.monthly)
  {
    DatableAndUndated(copies);
    DistinctByMultiset(copies, order);
    forall c | c in order ensures c in copies { assert c in multiset(order) && c in multiset(copies); }
    NamedBounded(order, MarkedByAll(order, p, k));
    MarkedBounded(order, |order|, p.daily, k.day);
    MarkedBounded(order, |order|, p.weekly, k.week);
    MarkedBounded(order, |order|, p.monthly, k.month);
  }

  /** On any volume the first of the newest-first order, a newest copy, keeps its name when some count
      is positive. */
  lemma NewestNameIsMarked(order: seq<BackupCopy>, p: Policy, k: Keys)
    requires order != [] && (p.daily > 0 || p.weekly > 0 || p.monthly > 0)
    ensures order[0].name in MarkedByAll(order, p, k)
  {
    assert KeysBefore(order, 0, k.day) == {} && KeysBefore(order, 0, k.week) == {} && KeysBefore(order, 0, k.month) == {};
    assert p.daily > 0 ==> MarkedAt(order, 0, p.daily, k.day);
    assert p.weekly > 0 ==> MarkedAt(order, 0, p.weekly, k.week);
    assert p.monthly > 0 ==> MarkedAt(order, 0, p.monthly, k.month);
  }
}
