/** Runs of placements over a fixed catalogue: separation, capacity, balance and completeness.
    Between two placements the instance controller has refreshed the counts of the instance that
    was chosen: one more database, and `Available` recomputed as the maximum minus the databases,
    never below zero. */
module PlacementRuns {
  import opened Placement
  import opened Sorting
  import opened Wrappers

  /** The catalogue, listed by name; names identify instances. */
  ghost predicate IsPool(pool: seq<Candidate>) {
    && Sorted(pool, NameLess)
    && (forall i, j :: 0 <= i < j < |pool| ==> pool[i].name != pool[j].name)
    && (forall i :: 0 <= i < |pool| ==> IsCounted(pool[i]))
  }

  /** The counts an instance reports: what was placed there, and the rest of its capacity. */
  predicate IsCounted(c: Candidate) {
    c.available == if c.databases < c.maxDatabases then c.maxDatabases - c.databases else 0
  }

  function Occupied(c: Candidate): (d: Candidate)
    requires IsCounted(c) && c.available > 0
    ensures IsCounted(d) && d.available == c.available - 1
  {
    c.(databases := c.databases + 1, available := c.maxDatabases - (c.databases + 1))
  }

  lemma NamesKeepOrder(pool: seq<Candidate>, next: seq<Candidate>)
    requires Sorted(pool, NameLess) && |next| == |pool|
    requires forall i :: 0 <= i < |pool| ==> next[i].name == pool[i].name
    ensures Sorted(next, NameLess)
  {
    forall i, j | 0 <= i < j < |next| ensures !NameLess(next[j], next[i]) {
      assert !NameLess(pool[j], pool[i]);
    }
  }

  /** One placement: the chosen instance holds one more database. */
  function Step(db: Database, pool: seq<Candidate>): (next: seq<Candidate>)
    requires IsPool(pool)
    ensures IsPool(next) && |next| == |pool|
    ensures forall i :: 0 <= i < |pool| ==> next[i].name == pool[i].name && next[i].tier == pool[i].tier
  {
    BestIsFirstOfTheRoomiest(db, pool);
    var b := Best(db, pool);
    if b.None? then pool else
      var next := pool[b.value := Occupied(pool[b.value])];
      NamesKeepOrder(pool, next);
      next
  }

  function PoolAfter(pool: seq<Candidate>, dbs: seq<Database>): (after: seq<Candidate>)
    requires IsPool(pool)
    ensures IsPool(after) && |after| == |pool|
    ensures forall i :: 0 <= i < |pool| ==> after[i].name == pool[i].name && after[i].tier == pool[i].tier
  {
    if dbs == [] then pool
    else Step(dbs[|dbs| - 1], PoolAfter(pool, dbs[..|dbs| - 1]))
  }

  /** The outcome the placer reports for the last request of a run. */
  function LastOutcome(pool: seq<Candidate>, dbs: seq<Database>): Outcome
    requires IsPool(pool) && dbs != []
  {
    Decide(dbs[|dbs| - 1], PoolAfter(pool, dbs[..|dbs| - 1]))
  }

  /** Where each database of the run went: instance name and role, for those placed. */
  function Holdings(pool: seq<Candidate>, dbs: seq<Database>): seq<(string, Role)>
    requires IsPool(pool)
  {
    if dbs == [] then []
    else
      var before := Holdings(pool, dbs[..|dbs| - 1]);
      match LastOutcome(pool, dbs)
      case Placed(name) => before + [(name, dbs[|dbs| - 1].role)]
      case NoInstance(_, _) => before
  }

  // ------------------------------------------------------------------ separation

  /** Over any run, an instance that was given a production database is of tier Production or Any, and one
      that was given any other is of tier NonProduction or Any. */
  lemma {:induction false} TiersHoldTheirOwn(pool: seq<Candidate>, dbs: seq<Database>, i: nat, role: Role)
    requires IsPool(pool) && i < |pool| && (pool[i].name, role) in Holdings(pool, dbs)
    ensures role == ProductionRole ==> pool[i].tier == Production || pool[i].tier == Any
    ensures role != ProductionRole ==> pool[i].tier == NonProduction || pool[i].tier == Any
  {
    if dbs != [] {
      var before := dbs[..|dbs| - 1];
      if (pool[i].name, role) in Holdings(pool, before) {
        TiersHoldTheirOwn(pool, before, i, role);
      } else {
        var db, now := dbs[|dbs| - 1], PoolAfter(pool, before);
        BestIsFirstOfTheRoomiest(db, now);
        var b := Best(db, now).value;
        assert now[b].name == pool[b].name && now[b].tier == pool[b].tier;
        assert b == i;
      }
    }
  }

  /** No instance of tier Production or NonProduction ever mixes the two kinds of database. */
  lemma ProductionNeverShares(pool: seq<Candidate>, dbs: seq<Database>, i: nat, role: Role)
    requires IsPool(pool) && i < |pool| && (pool[i].name, role) in Holdings(pool, dbs)
    requires (pool[i].name, ProductionRole) in Holdings(pool, dbs) && role != ProductionRole
    ensures pool[i].tier == Any
  {
    TiersHoldTheirOwn(pool, dbs, i, role);
    TiersHoldTheirOwn(pool, dbs, i, ProductionRole);
  }

  // ------------------------------------------------------------------ capacity

  function CountOn(name: string, held: seq<(string, Role)>): nat {
    if held == [] then 0
    else CountOn(name, held[..|held| - 1]) + if held[|held| - 1].0 == name then 1 else 0
  }

  /** The counts follow the placements, and no instance is filled past its maximum. */
  lemma {:induction false} NeverOverfull(pool: seq<Candidate>, dbs: seq<Database>, i: nat)
    requires IsPool(pool) && i < |pool|
    ensures var after := PoolAfter(pool, dbs)[i];
            && after.maxDatabases == pool[i].maxDatabases
            && after.databases == pool[i].databases + CountOn(pool[i].name, Holdings(pool, dbs))
            && (pool[i].databases <= pool[i].maxDatabases ==> after.databases <= after.maxDatabases)
  {
    if dbs != [] {
      var before := dbs[..|dbs| - 1];
      NeverOverfull(pool, before, i);
      var db, now := dbs[|dbs| - 1], PoolAfter(pool, before);
      BestIsFirstOfTheRoomiest(db, now);
      var held := Holdings(pool, dbs);
      if Best(db, now).Some? {
        var b := Best(db, now).value;
        assert held == Holdings(pool, before) + [(now[b].name, db.role)];
        assert held[..|held| - 1] == Holdings(pool, before);
        assert now[b].name == pool[b].name;
        assert b == i <==> pool[b].name == pool[i].name;
      }
    }
  }

  /** Whatever a run has placed before, a choice that falls on an instance with a reservation leaves
      twice the size free above it, as long as the size is below 2^30 GiB and free space at least 0. */
  lemma ChoicesLeaveTheReserve(pool: seq<Candidate>, dbs: seq<Database>, db: Database)
    requires IsPool(pool) && SizeOf(db.sizeGi) < 0x4000_0000
    requires Best(db, PoolAfter(pool, dbs)).Some?
    ensures var c := PoolAfter(pool, dbs)[Best(db, PoolAfter(pool, dbs)).value];
            c.reservedGi.Some? && c.reservedGi.value > 0 ==>
              && c.probed && c.diskFreeGi.Some?
              && (c.diskFreeGi.value >= 0 ==> LeavesReserve(c.diskFreeGi.value, SizeOf(db.sizeGi), c.reservedGi.value))
  {
    var now := PoolAfter(pool, dbs);
    BestIsFirstOfTheRoomiest(db, now);
    var c := now[Best(db, now).value];
    if c.reservedGi.Some? && c.reservedGi.value > 0 { QualifiedLeavesTheReserve(db, c); }
  }

  lemma QualifiedLeavesTheReserve(db: Database, c: Candidate)
    requires Qualifies(db, c) && SizeOf(db.sizeGi) < 0x4000_0000
    requires c.reservedGi.Some? && c.reservedGi.value > 0
    ensures c.probed && c.diskFreeGi.Some?
    ensures c.diskFreeGi.value >= 0 ==> LeavesReserve(c.diskFreeGi.value, SizeOf(db.sizeGi), c.reservedGi.value)
  {
    if c.diskFreeGi.Some? && c.diskFreeGi.value >= 0 { HeadroomMeansReserve(c, db.sizeGi); }
  }

  // ------------------------------------------------------------------ groups of instances

  /** An instance that only a lack of room could rule out. */
  predicate OnlyRoomMatters(db: Database, c: Candidate) {
    && c.unschedulable != Some(true) && AcceptsRole(c.tier, db.role)
    && ConditionTrue(c.conditions, REACHABLE) && Headroom(c, db.sizeGi).None?
  }

  /** The request suits exactly the instances of the group, room apart. */
  ghost predicate ForGroup(db: Database, pool: seq<Candidate>, group: set<string>) {
    forall i :: 0 <= i < |pool| ==> (OnlyRoomMatters(db, pool[i]) <==> pool[i].name in group)
  }

  /** The request suits none of them. */
  ghost predicate NotForGroup(db: Database, pool: seq<Candidate>, group: set<string>) {
    forall i :: 0 <= i < |pool| && pool[i].name in group ==> !OnlyRoomMatters(db, pool[i])
  }

  /** Every request is for the whole group or for none of it, as production and other databases are
      for two groups of a catalogue whose instances take one kind each. */
  ghost predicate Grouped(pool: seq<Candidate>, dbs: seq<Database>, group: set<string>) {
    forall k :: 0 <= k < |dbs| ==> ForGroup(dbs[k], pool, group) || NotForGroup(dbs[k], pool, group)
  }

  lemma {:induction false} RunChangesOnlyRoom(pool: seq<Candidate>, dbs: seq<Database>, other: Database, i: nat)
    requires IsPool(pool) && i < |pool|
    ensures OnlyRoomMatters(other, PoolAfter(pool, dbs)[i]) <==> OnlyRoomMatters(other, pool[i])
  {
    if dbs != [] {
      var db, now := dbs[|dbs| - 1], PoolAfter(pool, dbs[..|dbs| - 1]);
      RunChangesOnlyRoom(pool, dbs[..|dbs| - 1], other, i);
    }
  }

  lemma StillGrouped(pool: seq<Candidate>, dbs: seq<Database>, db: Database, group: set<string>)
    requires IsPool(pool)
    ensures ForGroup(db, PoolAfter(pool, dbs), group) <==> ForGroup(db, pool, group)
    ensures NotForGroup(db, PoolAfter(pool, dbs), group) <==> NotForGroup(db, pool, group)
  {
    var after := PoolAfter(pool, dbs);
    forall i | 0 <= i < |pool| ensures OnlyRoomMatters(db, after[i]) <==> OnlyRoomMatters(db, pool[i]) {
      RunChangesOnlyRoom(pool, dbs, db, i);
    }
  }

  // ------------------------------------------------------------------ balance

  ghost predicate SpreadAtMost(pool: seq<Candidate>, group: set<string>, d: int) {
    forall i, j :: 0 <= i < |pool| && 0 <= j < |pool| && pool[i].name in group && pool[j].name in group ==>
      pool[i].available - pool[j].available <= d
  }

  /** A request for the group takes a slot from its roomiest instance, and fails only when it is full. */
  lemma StepTakesFromTheRoomiest(db: Database, pool: seq<Candidate>, group: set<string>) returns (b: Option<nat>)
    requires IsPool(pool) && ForGroup(db, pool, group)
    ensures b == Best(db, pool)
    ensures b.None? ==> forall i :: 0 <= i < |pool| && pool[i].name in group ==> pool[i].available == 0
    ensures b.Some? ==>
              && pool[b.value].name in group && pool[b.value].available > 0
              && forall i :: 0 <= i < |pool| && pool[i].name in group ==> pool[i].available <= pool[b.value].available
  {
    BestIsFirstOfTheRoomiest(db, pool);
    b := Best(db, pool);
    forall i | 0 <= i < |pool| ensures Qualifies(db, pool[i]) <==> pool[i].name in group && pool[i].available > 0 {
    }
    forall i | 0 <= i < |pool| && pool[i].name in group && pool[i].available == 0
      ensures b.Some? ==> pool[i].available <= pool[b.value].available
    {
    }
  }

  /** And a request that suits none of it leaves it alone. */
  lemma StepLeavesGroup(db: Database, pool: seq<Candidate>, group: set<string>)
    requires IsPool(pool) && NotForGroup(db, pool, group)
    ensures forall i :: 0 <= i < |pool| && pool[i].name in group ==> Step(db, pool)[i] == pool[i]
    ensures Best(db, pool).Some? ==> pool[Best(db, pool).value].name !in group
  {
    BestIsFirstOfTheRoomiest(db, pool);
  }

  lemma StepKeepsSpread(db: Database, pool: seq<Candidate>, group: set<string>, d: int)
    requires IsPool(pool) && d >= 1 && SpreadAtMost(pool, group, d)
    requires ForGroup(db, pool, group) || NotForGroup(db, pool, group)
    ensures SpreadAtMost(Step(db, pool), group, d)
  {
    var next := Step(db, pool);
    if ForGroup(db, pool, group) {
      var b := StepTakesFromTheRoomiest(db, pool, group);
      forall i, j | 0 <= i < |next| && 0 <= j < |next| && next[i].name in group && next[j].name in group
        ensures next[i].available - next[j].available <= d
      {
        assert pool[i].available - pool[j].available <= d;
      }
    } else {
      StepLeavesGroup(db, pool, group);
    }
  }

  /** Worst fit balances: over any run, whatever else is placed elsewhere, the difference in room
      between two instances of a group never exceeds what it was at first, or one. */
  lemma {:induction false} RunStaysBalanced(pool: seq<Candidate>, dbs: seq<Database>, group: set<string>, spread: int)
    requires IsPool(pool) && Grouped(pool, dbs, group) && SpreadAtMost(pool, group, spread)
    ensures SpreadAtMost(PoolAfter(pool, dbs), group, if spread >= 1 then spread else 1)
  {
    if dbs != [] {
      var n := |dbs| - 1;
      assert forall k :: 0 <= k < n ==> dbs[..n][k] == dbs[k];
      RunStaysBalanced(pool, dbs[..n], group, spread);
      StillGrouped(pool, dbs[..n], dbs[n], group);
      StepKeepsSpread(dbs[n], PoolAfter(pool, dbs[..n]), group, if spread >= 1 then spread else 1);
    }
  }

  // ------------------------------------------------------------------ completeness

  /** The slots left in a group. */
  function Room(pool: seq<Candidate>, group: set<string>): int {
    if pool == [] then 0
    else Room(pool[..|pool| - 1], group) + if pool[|pool| - 1].name in group then pool[|pool| - 1].available else 0
  }

  lemma {:induction false} RoomOfUpdate(pool: seq<Candidate>, i: nat, c: Candidate, group: set<string>)
    requires i < |pool| && c.name == pool[i].name
    ensures Room(pool[i := c], group) ==
            Room(pool, group) + if c.name in group then c.available - pool[i].available else 0
  {
    var n := |pool| - 1;
    if i < n {
      RoomOfUpdate(pool[..n], i, c, group);
      assert pool[i := c][..n] == pool[..n][i := c];
    } else {
      assert pool[i := c][..n] == pool[..n];
    }
  }

  lemma {:induction false} NoRoomMeansFull(pool: seq<Candidate>, group: set<string>)
    requires forall i :: 0 <= i < |pool| ==> pool[i].available >= 0
    ensures Room(pool, group) >= 0
    ensures Room(pool, group) == 0 <==> forall i :: 0 <= i < |pool| && pool[i].name in group ==> pool[i].available == 0
  {
    if pool != [] { NoRoomMeansFull(pool[..|pool| - 1], group); }
  }

  lemma StepUsesOneSlot(db: Database, pool: seq<Candidate>, group: set<string>)
    requires IsPool(pool) && ForGroup(db, pool, group)
    ensures Best(db, pool).Some? <==> Room(pool, group) > 0
    ensures Best(db, pool).Some? ==> pool[Best(db, pool).value].name in group
    ensures Room(Step(db, pool), group) == if Room(pool, group) > 0 then Room(pool, group) - 1 else 0
  {
    var b := StepTakesFromTheRoomiest(db, pool, group);
    NoRoomMeansFull(pool, group);
    if b.Some? { RoomOfUpdate(pool, b.value, Occupied(pool[b.value]), group); }
  }

  lemma StepKeepsRoom(db: Database, pool: seq<Candidate>, group: set<string>)
    requires IsPool(pool) && NotForGroup(db, pool, group)
    ensures Room(Step(db, pool), group) == Room(pool, group)
    ensures Best(db, pool).Some? ==> pool[Best(db, pool).value].name !in group
  {
    StepLeavesGroup(db, pool, group);
    var b := Best(db, pool);
    if b.Some? {
      BestIsFirstOfTheRoomiest(db, pool);
      RoomOfUpdate(pool, b.value, Occupied(pool[b.value]), group);
    }
  }

  /** How many requests of a run are for the group, and how many databases the group was given. */
  ghost function Asked(pool: seq<Candidate>, dbs: seq<Database>, group: set<string>): nat {
    if dbs == [] then 0
    else Asked(pool, dbs[..|dbs| - 1], group) + if ForGroup(dbs[|dbs| - 1], pool, group) then 1 else 0
  }

  function HeldIn(group: set<string>, held: seq<(string, Role)>): nat {
    if held == [] then 0
    else HeldIn(group, held[..|held| - 1]) + if held[|held| - 1].0 in group then 1 else 0
  }

  /** A request for the group holds one slot more than before, or found no room in it; another request
      leaves its room and its databases as they were. */
  lemma OneMoreRequest(pool: seq<Candidate>, dbs: seq<Database>, group: set<string>)
    requires IsPool(pool) && Grouped(pool, dbs, group) && dbs != []
    ensures var n, now := |dbs| - 1, PoolAfter(pool, dbs[..|dbs| - 1]);
            var one := if ForGroup(dbs[n], pool, group) && Room(now, group) > 0 then 1 else 0;
            && Room(PoolAfter(pool, dbs), group) == Room(now, group) - one
            && HeldIn(group, Holdings(pool, dbs)) == HeldIn(group, Holdings(pool, dbs[..n])) + one
  {
    var n := |dbs| - 1;
    var db, now := dbs[n], PoolAfter(pool, dbs[..n]);
    StillGrouped(pool, dbs[..n], db, group);
    NoRoomMeansFull(now, group);
    assert ForGroup(db, pool, group) || NotForGroup(db, pool, group);
    if ForGroup(db, pool, group) {
      StepUsesOneSlot(db, now, group);
    } else {
      StepKeepsRoom(db, now, group);
    }
    HeldOneMore(pool, dbs, group);
  }

  lemma HeldOneMore(pool: seq<Candidate>, dbs: seq<Database>, group: set<string>)
    requires IsPool(pool) && dbs != []
    ensures var n, now := |dbs| - 1, PoolAfter(pool, dbs[..|dbs| - 1]);
            var b := Best(dbs[n], now);
            HeldIn(group, Holdings(pool, dbs)) ==
            HeldIn(group, Holdings(pool, dbs[..n])) + if b.Some? && now[b.value].name in group then 1 else 0
  {
    var n, held := |dbs| - 1, Holdings(pool, dbs);
    if Best(dbs[n], PoolAfter(pool, dbs[..n])).Some? {
      assert held[..|held| - 1] == Holdings(pool, dbs[..n]);
    }
  }

  /** A run fails a request only when the room of its group is exhausted: of the requests for a group,
      exactly as many are placed as it had slots, up to their number, whatever else is placed. */
  lemma {:induction false} RunFillsTheRoom(pool: seq<Candidate>, dbs: seq<Database>, group: set<string>)
    requires IsPool(pool) && Grouped(pool, dbs, group)
    ensures var asked, room := Asked(pool, dbs, group), Room(pool, group);
            var placed := if asked <= room then asked else room;
            && Room(PoolAfter(pool, dbs), group) == room - placed
            && HeldIn(group, Holdings(pool, dbs)) == placed
  {
    NoRoomMeansFull(pool, group);
    if dbs == [] {
      assert PoolAfter(pool, dbs) == pool;
    } else {
      var n := |dbs| - 1;
      assert forall k :: 0 <= k < n ==> dbs[..n][k] == dbs[k];
      RunFillsTheRoom(pool, dbs[..n], group);
      OneMoreRequest(pool, dbs, group);
    }
  }
}
