/** Choosing the instance a database lands on: one decision. */
module Placement {
  import opened Sorting
  import opened Wrappers

  // ------------------------------------------------------------------ 32-bit arithmetic

  const TWO_31: int := 0x8000_0000
  const TWO_32: int := 0x1_0000_0000

  type int32 = i: int | -TWO_31 <= i < TWO_31

  /** Go's int32 arithmetic: the result modulo 2^32, as a signed value. */
  function Wrap32(i: int): (r: int32)
    ensures -TWO_31 <= i < TWO_31 ==> r == i
  {
    (i + TWO_31) % TWO_32 - TWO_31
  }

  // ------------------------------------------------------------------ the catalogue

  datatype Role = ProductionRole | OtherRole(name: string)

  datatype Tier = Production | NonProduction | Any | Unclassified(name: string)

  datatype Condition = Condition(kind: string, status: string)

  datatype Candidate = Candidate(
    name: string,
    unschedulable: Option<bool>, tier: Tier, maxDatabases: int32, reservedGi: Option<int32>,
    databases: int32, available: int32, conditions: seq<Condition>, probed: bool, diskFreeGi: Option<int32>)

  datatype Database = Database(role: Role, sizeGi: Option<int32>)

  datatype Rejection =
    | Cordoned
    | TierRefuses(tier: Tier, role: Role)
    | NotReachable
    | AtCapacity(databases: int32, maxDatabases: int32)
    | DiskNeverObserved
    | TooLittleDisk(after: int32, reserved: int32, free: int32, want: int32)

  predicate AcceptsRole(tier: Tier, role: Role) {
    if tier == Any then true
    else if role == ProductionRole then tier == Production
    else tier == NonProduction
  }

  predicate ConditionTrue(conditions: seq<Condition>, kind: string) {
    if conditions == [] then false
    else if conditions[0].kind == kind then conditions[0].status == "True"
    else ConditionTrue(conditions[1..], kind)
  }

  const REACHABLE: string := "Reachable"

  /** Twice the size: a restore stages a writable copy of the dump beside the database. */
  function WantedGi(sizeGi: Option<int32>): int32 {
    if sizeGi.Some? && sizeGi.value > 0 then Wrap32(sizeGi.value * 2) else 0
  }

  function Headroom(c: Candidate, sizeGi: Option<int32>): Option<Rejection> {
    if c.reservedGi.None? || c.reservedGi.value <= 0 then None
    else if !c.probed || c.diskFreeGi.None? then Some(DiskNeverObserved)
    else
      var want := WantedGi(sizeGi);
      var after := Wrap32(c.diskFreeGi.value - want);
      if after < c.reservedGi.value then Some(TooLittleDisk(after, c.reservedGi.value, c.diskFreeGi.value, want))
      else None
  }

  /** Why a candidate does not qualify, or None. */
  function Reject(db: Database, c: Candidate): Option<Rejection> {
    if c.unschedulable == Some(true) then Some(Cordoned)
    else if !AcceptsRole(c.tier, db.role) then Some(TierRefuses(c.tier, db.role))
    else if !ConditionTrue(c.conditions, REACHABLE) then Some(NotReachable)
    else if c.available <= 0 then Some(AtCapacity(c.databases, c.maxDatabases))
    else Headroom(c, db.sizeGi)
  }

  predicate Qualifies(db: Database, c: Candidate) { Reject(db, c).None? }

  // ------------------------------------------------------------------ the decision

  datatype Outcome = Placed(name: string) | NoInstance(role: Role, rejected: seq<(string, Rejection)>)

  /** The index of the candidate the loop holds on to after the whole list. */
  function Best(db: Database, s: seq<Candidate>): (b: Option<nat>)
    ensures b.Some? ==> b.value < |s|
  {
    if s == [] then None
    else
      var n := |s| - 1;
      var b := Best(db, s[..n]);
      if !Qualifies(db, s[n]) then b
      else if b.None? || s[n].available > s[b.value].available then Some(n)
      else b
  }

  function Rejected(db: Database, s: seq<Candidate>): seq<(string, Rejection)> {
    if s == [] then []
    else
      var n := |s| - 1;
      var why := Reject(db, s[n]);
      Rejected(db, s[..n]) + if why.Some? then [(s[n].name, why.value)] else []
  }

  function Decide(db: Database, s: seq<Candidate>): Outcome {
    var b := Best(db, s);
    if b.None? then NoInstance(db.role, Rejected(db, s)) else Placed(s[b.value].name)
  }

  predicate NameLess(a: Candidate, b: Candidate) { StringLess(a.name, b.name) }

  ghost predicate ByName(s: seq<Candidate>, candidates: seq<Candidate>) {
    multiset(s) == multiset(candidates) && Sorted(s, NameLess)
  }

  /** The answer for some arrangement of the candidates by name. */
  ghost predicate Decides(db: Database, candidates: seq<Candidate>, r: Outcome) {
    exists s :: ByName(s, candidates) && r == Decide(db, s)
  }

  lemma NameLessIsWeakOrder()
    ensures WeakOrder(NameLess)
  {
    StringLessIsWeakOrder();
  }

  /** One pass over the candidates by name, keeping the roomiest that qualifies. */
  method Place(db: Database, candidates: seq<Candidate>) returns (r: Outcome)
    ensures Decides(db, candidates, r)
  {
    NameLessIsWeakOrder();
    var sorted := SortBy(candidates, NameLess);
    var rejected: seq<(string, Rejection)> := [];
    var best: Option<nat> := None;
    for i := 0 to |sorted|
      invariant rejected == Rejected(db, sorted[..i])
      invariant best == Best(db, sorted[..i])
    {
      assert sorted[..i + 1][..i] == sorted[..i];
      var why := Reject(db, sorted[i]);
      if why.Some? {
        rejected := rejected + [(sorted[i].name, why.value)];
      } else if best.None? || sorted[i].available > sorted[best.value].available {
        best := Some(i);
      }
    }
    assert sorted[..|sorted|] == sorted;
    assert ByName(sorted, candidates);
    if best.None? {
      return NoInstance(db.role, rejected);
    }
    return Placed(sorted[best.value].name);
  }

  // ------------------------------------------------------------------ what it decides

  /** The most room, and the first in the list among equals; nothing when all are rejected. */
  lemma {:induction false} BestIsFirstOfTheRoomiest(db: Database, s: seq<Candidate>)
    ensures Best(db, s).None? <==> forall j :: 0 <= j < |s| ==> !Qualifies(db, s[j])
    ensures Best(db, s).Some? ==>
              var i := Best(db, s).value;
              && Qualifies(db, s[i])
              && (forall j :: 0 <= j < |s| && Qualifies(db, s[j]) ==> s[j].available <= s[i].available)
              && (forall j :: 0 <= j < i && Qualifies(db, s[j]) ==> s[j].available < s[i].available)
  {
    if s != [] {
      var n := |s| - 1;
      BestIsFirstOfTheRoomiest(db, s[..n]);
      assert forall j :: 0 <= j < n ==> s[..n][j] == s[j];
    }
  }

  lemma {:induction false} RejectedInOrder(db: Database, s: seq<Candidate>)
    requires forall j :: 0 <= j < |s| ==> !Qualifies(db, s[j])
    ensures |Rejected(db, s)| == |s|
    ensures forall j :: 0 <= j < |s| ==>
              Rejected(db, s)[j].0 == s[j].name && Reject(db, s[j]) == Some(Rejected(db, s)[j].1)
  {
    if s != [] {
      RejectedInOrder(db, s[..|s| - 1]);
    }
  }

  /** An answer is a qualifying instance with the most room, least by name among those with as
      much; an error lists every candidate once, by name, with its reason. */
  ghost predicate IsRightAnswer(db: Database, candidates: seq<Candidate>, r: Outcome) {
    match r
    case Placed(name) =>
      exists c :: c in candidates && c.name == name && Qualifies(db, c)
        && forall d :: d in candidates && Qualifies(db, d) ==>
             d.available < c.available || (d.available == c.available && !StringLess(d.name, c.name))
    case NoInstance(role, rejected) =>
      && role == db.role
      && (forall c :: c in candidates ==> !Qualifies(db, c))
      && exists s: seq<Candidate> :: ByName(s, candidates) && |rejected| == |s|
           && forall j :: 0 <= j < |s| ==> rejected[j].0 == s[j].name && Reject(db, s[j]) == Some(rejected[j].1)
  }

  lemma DecisionIsRight(db: Database, candidates: seq<Candidate>, r: Outcome)
    requires Decides(db, candidates, r)
    ensures IsRightAnswer(db, candidates, r)
    ensures r.NoInstance? <==> forall c :: c in candidates ==> !Qualifies(db, c)
  {
    var s: seq<Candidate> :| ByName(s, candidates) && r == Decide(db, s);
    BestIsFirstOfTheRoomiest(db, s);
    SameMembers(s, candidates);
    if Best(db, s).Some? {
      ChosenIsRoomiest(db, s);
    } else {
      RejectedInOrder(db, s);
      forall c | c in candidates ensures !Qualifies(db, c) {
        var j :| 0 <= j < |s| && s[j] == c;
      }
    }
  }

  /** A tier that names one kind of database takes that kind, and Any takes both. */
  ghost predicate FitsTier(tier: Tier, role: Role) {
    || tier == Any
    || (role == ProductionRole && tier == Production)
    || (role != ProductionRole && tier == NonProduction)
  }

  /** The first condition of a kind decides; there may be none. */
  ghost predicate FirstIsTrue(conditions: seq<Condition>, kind: string) {
    exists i :: 0 <= i < |conditions| && conditions[i] == Condition(kind, "True")
      && forall j :: 0 <= j < i ==> conditions[j].kind != kind
  }

  lemma {:induction false} ConditionTrueIff(conditions: seq<Condition>, kind: string)
    ensures ConditionTrue(conditions, kind) <==> FirstIsTrue(conditions, kind)
  {
    if conditions != [] {
      var rest := conditions[1..];
      ConditionTrueIff(rest, kind);
      if conditions[0].kind == kind {
        if conditions[0].status == "True" { assert conditions[0] == Condition(kind, "True"); }
      } else {
        if FirstIsTrue(rest, kind) {
          var i :| 0 <= i < |rest| && rest[i] == Condition(kind, "True") && forall j :: 0 <= j < i ==> rest[j].kind != kind;
          assert conditions[i + 1] == Condition(kind, "True") && forall j :: 0 < j < i + 1 ==> conditions[j] == rest[j - 1];
        }
        if FirstIsTrue(conditions, kind) {
          var i :| 0 <= i < |conditions| && conditions[i] == Condition(kind, "True")
                   && forall j :: 0 <= j < i ==> conditions[j].kind != kind;
          assert rest[i - 1] == Condition(kind, "True") && forall j :: 0 <= j < i - 1 ==> rest[j] == conditions[j + 1];
        }
      }
    }
  }

  /** A reservation is kept when the disk has been observed and twice the size, counted in 32 bits, leaves it. */
  ghost predicate KeepsReserve(db: Database, c: Candidate) {
    c.reservedGi.Some? && c.reservedGi.value > 0 ==>
      && c.probed && c.diskFreeGi.Some?
      && Wrap32(c.diskFreeGi.value - Wrap32(2 * if SizeOf(db.sizeGi) > 0 then SizeOf(db.sizeGi) else 0)) >= c.reservedGi.value
  }

  /** Who qualifies, from what the instance reports: it is not cordoned, its tier takes the role, it is
      reachable, it has a slot left and it keeps its reservation. */
  lemma WhoQualifies(db: Database, c: Candidate)
    ensures Qualifies(db, c) <==>
              && c.unschedulable != Some(true) && FitsTier(c.tier, db.role)
              && FirstIsTrue(c.conditions, "Reachable") && c.available > 0 && KeepsReserve(db, c)
  {
    ConditionTrueIff(c.conditions, "Reachable");
  }

  /** When nobody qualifies the list holds every candidate with one reason, which is the first of its
      failings: cordoned, of a tier that does not take the role, not reachable, full, its reservation set and
      its disk never observed. */
  lemma RejectionsBlameTheFirstFailing(db: Database, candidates: seq<Candidate>, r: Outcome, c: Candidate)
    requires Decides(db, candidates, r) && r.NoInstance? && NamesApart(candidates) && c in candidates
    ensures var cordoned, fits, reachable := c.unschedulable == Some(true), FitsTier(c.tier, db.role), FirstIsTrue(c.conditions, "Reachable");
            var observed := (c.reservedGi.Some? && c.reservedGi.value > 0) ==> c.probed && c.diskFreeGi.Some?;
            && ((c.name, Cordoned) in r.rejected <==> cordoned)
            && ((c.name, TierRefuses(c.tier, db.role)) in r.rejected <==> !cordoned && !fits)
            && ((c.name, NotReachable) in r.rejected <==> !cordoned && fits && !reachable)
            && ((c.name, AtCapacity(c.databases, c.maxDatabases)) in r.rejected <==>
                  !cordoned && fits && reachable && c.available <= 0)
            && ((c.name, DiskNeverObserved) in r.rejected <==>
                  !cordoned && fits && reachable && c.available > 0 && !observed)
  {
    ConditionTrueIff(c.conditions, "Reachable");
    ListedWithItsReason(db, candidates, r, c, Cordoned);
    ListedWithItsReason(db, candidates, r, c, TierRefuses(c.tier, db.role));
    ListedWithItsReason(db, candidates, r, c, NotReachable);
    ListedWithItsReason(db, candidates, r, c, AtCapacity(c.databases, c.maxDatabases));
    ListedWithItsReason(db, candidates, r, c, DiskNeverObserved);
  }

  lemma ListedWithItsReason(db: Database, candidates: seq<Candidate>, r: Outcome, c: Candidate, why: Rejection)
    requires Decides(db, candidates, r) && r.NoInstance? && NamesApart(candidates) && c in candidates
    ensures (c.name, why) in r.rejected <==> Reject(db, c) == Some(why)
  {
    var s: seq<Candidate> :| ByName(s, candidates) && r == Decide(db, s);
    SameMembers(s, candidates);
    BestIsFirstOfTheRoomiest(db, s);
    RejectedInOrder(db, s);
    var at :| 0 <= at < |s| && s[at] == c;
    assert r.rejected[at].0 == c.name && Some(r.rejected[at].1) == Reject(db, c);
    if (c.name, why) in r.rejected {
      var j :| 0 <= j < |s| && r.rejected[j] == (c.name, why);
      assert s[j] in s && s[j].name == c.name;
    }
  }

  lemma ChosenIsRoomiest(db: Database, s: seq<Candidate>)
    requires Sorted(s, NameLess) && Best(db, s).Some?
    ensures var c := s[Best(db, s).value];
            && Qualifies(db, c)
            && forall d :: d in s && Qualifies(db, d) ==>
                 d.available < c.available || (d.available == c.available && !StringLess(d.name, c.name))
  {
    BestIsFirstOfTheRoomiest(db, s);
    var b := Best(db, s).value;
    forall d | d in s && Qualifies(db, d)
      ensures d.available < s[b].available || (d.available == s[b].available && !StringLess(d.name, s[b].name))
    {
      var j :| 0 <= j < |s| && s[j] == d;
      if j > b { assert !NameLess(s[j], s[b]); }
      StringLessTotal(d.name, d.name);
    }
  }

  lemma SameMembers<T>(a: seq<T>, b: seq<T>)
    requires multiset(a) == multiset(b)
    ensures forall x :: x in a <==> x in b
  {
    forall x ensures x in a <==> x in b {
      assert x in multiset(a) <==> x in multiset(b);
    }
  }

  ghost predicate NamesApart(candidates: seq<Candidate>) {
    forall c, d :: c in candidates && d in candidates && c.name == d.name ==> c == d
  }

  /** Whatever order the catalogue arrives in, the answer is the same, refusals included. */
  lemma DecisionIgnoresOrder(db: Database, a: seq<Candidate>, b: seq<Candidate>, r: Outcome, q: Outcome)
    requires multiset(a) == multiset(b) && NamesApart(a)
    requires Decides(db, a, r) && Decides(db, b, q)
    ensures r == q
  {
    var s: seq<Candidate> :| ByName(s, a) && r == Decide(db, s);
    var t: seq<Candidate> :| ByName(t, b) && q == Decide(db, t);
    SameMembers(s, a);
    forall x, y | x in s && y in s && !NameLess(x, y) && !NameLess(y, x) ensures x == y {
      StringLessTotal(x.name, y.name);
    }
    SortedUnique(s, t, NameLess);
  }

  // ------------------------------------------------------------------ the disk reservation

  /** What the reservation means: twice the size fits above it, in integers. */
  predicate LeavesReserve(free: int, size: int, reserved: int) {
    free - (if size > 0 then 2 * size else 0) >= reserved
  }

  /** The 32-bit remainder is the integer one exactly while 2 * size <= free + 2^31, and the check
      is right for every reservation exactly then or when the wrapped remainder still falls short. */
  lemma HeadroomExact(c: Candidate, size: int32)
    requires c.reservedGi.Some? && c.reservedGi.value > 0 && c.probed && c.diskFreeGi.Some?
    ensures var free, reserved := c.diskFreeGi.value, c.reservedGi.value;
            var after := Wrap32(free - WantedGi(Some(size)));
            && (after == free - (if size > 0 then 2 * size else 0) <==> size <= 0 || 2 * size <= free + TWO_31)
            && ((Headroom(c, Some(size)).None? <==> LeavesReserve(free, size, reserved)) <==>
                size <= 0 || 2 * size <= free + TWO_31 || free + TWO_32 - 2 * size < reserved)
  {
  }

  /** A request that declares no size is weighed as 0. */
  function SizeOf(sizeGi: Option<int32>): int32 { if sizeGi.Some? then sizeGi.value else 0 }

  /** Below 2^30 GiB, and with free space observed at zero or more, nothing wraps. */
  lemma HeadroomMeansReserve(c: Candidate, sizeGi: Option<int32>)
    requires c.reservedGi.Some? && c.reservedGi.value > 0 && c.probed && c.diskFreeGi.Some?
    requires SizeOf(sizeGi) < 0x4000_0000 && c.diskFreeGi.value >= 0
    ensures Headroom(c, sizeGi).None? <==> LeavesReserve(c.diskFreeGi.value, SizeOf(sizeGi), c.reservedGi.value)
  {
    HeadroomExact(c, SizeOf(sizeGi));
  }

  /** Without that bound the check can be wrong: the largest 32-bit size wraps to a want of -2. */
  lemma HugeSizeIsAccepted(c: Candidate)
    requires c.reservedGi == Some(10) && c.probed && c.diskFreeGi == Some(20)
    ensures Headroom(c, Some(0x7fff_ffff)).None? && !LeavesReserve(20, 0x7fff_ffff, 10)
  {
  }
}
