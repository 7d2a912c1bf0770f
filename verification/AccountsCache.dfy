/** The console's account cache: a Secret read at most every 30 seconds, by many loaders at once.
    `load` is two critical sections around a slow read. The model interleaves the sections of any
    number of loaders with the passing of time; what the Secret holds at each instant is an
    arbitrary function of time. */
module AccountsCache {
  import opened Wrappers

  /** What the Secret resolves to; only equality matters. */
  type Accounts = int

  type Timeline = int -> Accounts

  /** accountTTL, in nanoseconds. */
  const TTL: int := 30_000_000_000

  /** `readAt` is a history variable: the instant the Secret answered with these accounts. */
  datatype Entry = Entry(accounts: Accounts, fetched: int, readAt: int)

  datatype Loader = Idle | Asking | Holding(accounts: Accounts, readAt: int)

  datatype State = State(now: int, cached: Option<Entry>, loaders: map<int, Loader>)

  datatype Step =
    | Tick(d: nat)
    | Check(who: int)     // under the read lock: serve if fresh, otherwise go and ask
    | Answer(who: int)    // the Secret's content at this instant
    | Refuse(who: int)    // the read failed
    | Store(who: int)     // under the write lock, stamped with the time of the store

  function Phase(s: State, who: int): Loader { if who in s.loaders then s.loaders[who] else Idle }

  predicate Fresh(cached: Option<Entry>, now: int) { cached.Some? && now - cached.value.fetched < TTL }

  function With(s: State, who: int, p: Loader): State { s.(loaders := s.loaders[who := p]) }

  function Apply(secret: Timeline, s: State, step: Step): State {
    match step
    case Tick(d) => s.(now := s.now + d)
    case Check(i) => if Phase(s, i) == Idle && !Fresh(s.cached, s.now) then With(s, i, Asking) else s
    case Answer(i) => if Phase(s, i) == Asking then With(s, i, Holding(secret(s.now), s.now)) else s
    case Refuse(i) => if Phase(s, i) == Asking then With(s, i, Idle) else s
    case Store(i) =>
      var p := Phase(s, i);
      if p.Holding? then With(s, i, Idle).(cached := Some(Entry(p.accounts, s.now, p.readAt))) else s
  }

  /** What the step returns to its caller: the cache's accounts, or what the loader itself read. */
  function Served(s: State, step: Step): Option<Accounts> {
    match step
    case Check(i) => if Phase(s, i) == Idle && Fresh(s.cached, s.now) then Some(s.cached.value.accounts) else None
    case Store(i) => if Phase(s, i).Holding? then Some(Phase(s, i).accounts) else None
    case _ => None
  }

  function After(secret: Timeline, s: State, run: seq<Step>): State {
    if run == [] then s else Apply(secret, After(secret, s, run[..|run| - 1]), run[|run| - 1])
  }

  const EMPTY: State := State(0, None, map[])

  /** No loader of the run takes longer than d between the Secret's answer and its store. */
  ghost predicate StoresWithin(secret: Timeline, run: seq<Step>, d: int) {
    forall k :: 0 <= k < |run| && run[k].Store? ==>
      var s := After(secret, EMPTY, run[..k]);
      Phase(s, run[k].who).Holding? ==> s.now - Phase(s, run[k].who).readAt <= d
  }

  // ------------------------------------------------------------------ the two critical sections

  class LocalAccounts {
    var cached: Option<Accounts>
    var fetched: int

    /** The two fields are the model's cache entry. */
    ghost predicate Mirrors(s: State) reads this {
      match s.cached
      case None => cached.None?
      case Some(e) => cached == Some(e.accounts) && fetched == e.fetched
    }

    /** The part under the read lock. */
    method TryCached(now: int, ghost s: State, ghost who: int) returns (hit: Option<Accounts>)
      requires Mirrors(s) && s.now == now && Phase(s, who) == Idle
      ensures hit == Served(s, Check(who))
    {
      if cached.Some? && now - fetched < TTL {
        return cached;
      }
      return None;
    }

    /** The part under the write lock: whatever is there is overwritten. */
    method Keep(accounts: Accounts, now: int, ghost secret: Timeline, ghost s: State, ghost who: int)
      requires Mirrors(s) && s.now == now && Phase(s, who).Holding? && Phase(s, who).accounts == accounts
      modifies this
      ensures Mirrors(Apply(secret, s, Store(who)))
      ensures cached == Some(accounts) && fetched == now
    {
      cached, fetched := Some(accounts), now;
    }
  }

  // ------------------------------------------------------------------ every load is served

  /** Steps that are not this loader's. */
  ghost predicate OthersOnly(steps: seq<Step>, who: int) {
    forall step :: step in steps ==> step.Tick? || step.who != who
  }

  lemma {:induction false} OthersLeaveLoader(secret: Timeline, s: State, steps: seq<Step>, who: int)
    requires OthersOnly(steps, who)
    ensures Phase(After(secret, s, steps), who) == Phase(s, who)
  {
    if steps != [] {
      var n := |steps| - 1;
      assert steps[n] in steps && forall step :: step in steps[..n] ==> step in steps;
      OthersLeaveLoader(secret, s, steps[..n], who);
    }
  }

  /** Whatever the others do in between, a load is served once. While the cache is younger than 30 seconds
      it is served from it, and nobody asks. Otherwise it asks, is served what the Secret held when it
      answered, and leaves that in the cache, stamped when it was stored; and a read that fails leaves the
      cache as it was. */
  lemma LoadIsServed(secret: Timeline, s: State, who: int, before: seq<Step>, after: seq<Step>)
    requires Phase(s, who) == Idle && OthersOnly(before, who) && OthersOnly(after, who)
    ensures var young := s.cached.Some? && s.now - s.cached.value.fetched < 30_000_000_000;
            var asked := After(secret, Apply(secret, s, Check(who)), before);
            var read := After(secret, Apply(secret, asked, Answer(who)), after);
            if young then Served(s, Check(who)) == Some(s.cached.value.accounts) && Apply(secret, s, Check(who)) == s
            else
              && Served(s, Check(who)).None?
              && Served(read, Store(who)) == Some(secret(asked.now))
              && Apply(secret, read, Store(who)) ==
                   read.(cached := Some(Entry(secret(asked.now), read.now, asked.now)), loaders := read.loaders[who := Idle])
              && Apply(secret, asked, Refuse(who)) == asked.(loaders := asked.loaders[who := Idle])
  {
    var checked := Apply(secret, s, Check(who));
    var asked := After(secret, checked, before);
    OthersLeaveLoader(secret, checked, before, who);
    OthersLeaveLoader(secret, Apply(secret, asked, Answer(who)), after, who);
  }

  // ------------------------------------------------------------------ the staleness bound

  ghost predicate Inv(secret: Timeline, s: State, d: int) {
    && (s.cached.Some? ==>
          var e := s.cached.value;
          secret(e.readAt) == e.accounts && e.readAt <= e.fetched <= s.now && e.fetched - e.readAt <= d)
    && (forall i :: i in s.loaders && s.loaders[i].Holding? ==>
          secret(s.loaders[i].readAt) == s.loaders[i].accounts && s.loaders[i].readAt <= s.now)
  }

  lemma {:induction false} RunKeepsInv(secret: Timeline, run: seq<Step>, d: int)
    requires StoresWithin(secret, run, d)
    ensures Inv(secret, After(secret, EMPTY, run), d)
  {
    if run != [] {
      var n := |run| - 1;
      forall k | 0 <= k < n && run[..n][k].Store?
        ensures var s := After(secret, EMPTY, run[..n][..k]);
                Phase(s, run[..n][k].who).Holding? ==> s.now - Phase(s, run[..n][k].who).readAt <= d
      {
        assert run[..n][..k] == run[..k] && run[k].Store?;
      }
      RunKeepsInv(secret, run[..n], d);
    }
  }

  /** The accounts were what the Secret held at some instant of the given age or younger. */
  ghost predicate HeldWithin(secret: Timeline, accounts: Accounts, now: int, age: int) {
    exists m :: now - age <= m <= now && secret(m) == accounts
  }

  /** Under any interleaving, whatever a load serves was the Secret's content less than the TTL plus
      the slowest read-to-store ago, even when a slow loader has overwritten a newer read. */
  lemma StalenessBound(secret: Timeline, run: seq<Step>, step: Step, d: nat)
    requires StoresWithin(secret, run + [step], d)
    ensures var s := After(secret, EMPTY, run);
            Served(s, step).Some? ==> HeldWithin(secret, Served(s, step).value, s.now, TTL + d - 1)
  {
    var s := After(secret, EMPTY, run);
    var all := run + [step];
    assert all[..|run|] == run && all[|run|] == step;
    forall k | 0 <= k < |run| && run[k].Store?
      ensures var t := After(secret, EMPTY, run[..k]);
              Phase(t, run[k].who).Holding? ==> t.now - Phase(t, run[k].who).readAt <= d
    {
      assert all[..k] == run[..k] && all[k].Store?;
    }
    RunKeepsInv(secret, run, d);
    if Served(s, step).Some? {
      var m := if step.Check? then s.cached.value.readAt else Phase(s, step.who).readAt;
      assert step.Store? ==> all[|run|].Store?;
      assert s.now - (TTL + d - 1) <= m <= s.now && secret(m) == Served(s, step).value;
    }
  }

  // ------------------------------------------------------------------ it cannot be better

  function Changing(from: int): Timeline { t => if t < from then 0 else 1 }

  /** A run so far, and that none of its stores was later than d. */
  lemma Extend(secret: Timeline, run: seq<Step>, step: Step, d: nat)
    requires StoresWithin(secret, run, d)
    requires step.Store? ==>
               var p := Phase(After(secret, EMPTY, run), step.who);
               p.Holding? && After(secret, EMPTY, run).now - p.readAt <= d
    ensures StoresWithin(secret, run + [step], d)
    ensures After(secret, EMPTY, run + [step]) == Apply(secret, After(secret, EMPTY, run), step)
  {
    var all := run + [step];
    forall k | 0 <= k < |all| && all[k].Store?
      ensures var s := After(secret, EMPTY, all[..k]);
              Phase(s, all[k].who).Holding? ==> s.now - Phase(s, all[k].who).readAt <= d
    {
      if k < |run| {
        assert all[..k] == run[..k] && run[k].Store?;
      } else {
        assert all[..k] == run;
      }
    }
  }

  /** The bound is reached: one loader reads just before the content changes at instant 1 and stores
      d later, over what a second loader has read and stored in between. Just before the cache
      expires it still serves the content, which has not been the Secret's for TTL + d - 2. So the
      TTL alone, which the source's comment gives as the bound, fails as soon as a store lags. */
  lemma BoundIsReached(d: nat) returns (run: seq<Step>)
    requires d >= 1
    ensures var secret := Changing(1);
            var s := After(secret, EMPTY, run);
            && StoresWithin(secret, run, d)
            && Served(s, Check(3)) == Some(0)
            && s.now == TTL + d - 1
            && !HeldWithin(secret, 0, s.now, TTL + d - 2)
  {
    var secret := Changing(1);
    var steps: seq<Step> :=
      [Check(1), Check(2), Answer(1), Tick(1), Answer(2), Store(2), Tick(d - 1), Store(1), Tick(TTL - 1)];
    run := [];
    var i := 0;
    var s := EMPTY;
    while i < 9
      invariant 0 <= i <= 9 && StoresWithin(secret, run, d) && s == After(secret, EMPTY, run)
      invariant s.now == if i <= 3 then 0 else if i <= 6 then 1 else if i <= 8 then d else d + TTL - 1
      invariant s.cached == if i <= 5 then None else if i <= 7 then Some(Entry(1, 1, 1)) else Some(Entry(0, d, 0))
      invariant Phase(s, 1) == if i == 0 then Idle else if i <= 2 then Asking else if i <= 7 then Holding(0, 0) else Idle
      invariant Phase(s, 2) == if i <= 1 then Idle else if i <= 4 then Asking else if i == 5 then Holding(1, 1) else Idle
      invariant Phase(s, 3) == Idle
    {
      Extend(secret, run, steps[i], d);
      s := Apply(secret, s, steps[i]);
      run := run + [steps[i]];
      i := i + 1;
    }
  }
}
