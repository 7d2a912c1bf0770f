/** The edge: the Middleware objects an Ingress refers to, created, kept level and removed from one
    list of rules. The store is the namespace's Middleware objects; every call to it may fail. */
module Edge {
  import opened Wrappers

  datatype AuthType = BasicAuth | ForwardAuth | OtherAuth
  datatype WafMode = NoWaf | InCluster | Provider

  datatype Exposure = Exposure(
    isPublic: bool, auth: AuthType, forwardUrl: string, noIndex: Option<bool>, rateLimitRps: Option<int>,
    allowFrom: seq<string>, waf: Option<WafMode>, hsts: Option<bool>)

  datatype Env = Env(name: string, namespace: string, exposure: Exposure)

  /** What one rule makes the edge do. */
  datatype Body =
    | AskPassword(secret: string, realm: string)
    | AskService(address: string)
    | NoIndex
    | RateLimit(average: int)
    | AllowOnly(networks: seq<string>)
    | Inspect
    | Hsts

  /** The suffix of the object's name, and the last part of what the Ingress refers to. */
  function RuleName(b: Body): (name: string)
    ensures '-' !in name
  {
    match b
    case AskPassword(_, _) => "basicauth"
    case AskService(_) => "forwardauth"
    case NoIndex => "noindex"
    case RateLimit(_) => "ratelimit"
    case AllowOnly(_) => "allowfrom"
    case Inspect => "waf"
    case Hsts => "hsts"
  }

  /** The position of a kind of rule in the list; the two kinds of authentication exclude each other. */
  function Rank(b: Body): nat {
    match b
    case AskPassword(_, _) => 0
    case AskService(_) => 0
    case NoIndex => 1
    case RateLimit(_) => 2
    case AllowOnly(_) => 3
    case Inspect => 4
    case Hsts => 5
  }

  ghost predicate Ranked(rules: seq<Body>, low: nat, below: nat) {
    && (forall i :: 0 <= i < |rules| ==> low <= Rank(rules[i]) < below)
    && (forall i, j :: 0 <= i < j < |rules| ==> Rank(rules[i]) < Rank(rules[j]))
  }

  function When(on: bool, b: Body): seq<Body> { if on then [b] else [] }

  function AuthRules(env: Env, htpasswd: string): (rules: seq<Body>)
    ensures Ranked(rules, 0, 1)
  {
    var e := env.exposure;
    if !e.isPublic then []
    else match e.auth
      case BasicAuth => [AskPassword(htpasswd, "doblura: " + env.name)]
      case ForwardAuth => [AskService(e.forwardUrl)]
      case OtherAuth => []
  }

  function HeaderRules(e: Exposure): (rules: seq<Body>)
    ensures Ranked(rules, 1, 4)
  {
    var rps := if e.rateLimitRps.Some? then e.rateLimitRps.value else 0;
    ThreeRanked(e.noIndex != Some(false), NoIndex, rps > 0, RateLimit(rps), |e.allowFrom| > 0, AllowOnly(e.allowFrom));
    When(e.noIndex != Some(false), NoIndex) + When(rps > 0, RateLimit(rps)) + When(|e.allowFrom| > 0, AllowOnly(e.allowFrom))
  }

  lemma WhenRanked(on: bool, b: Body)
    ensures Ranked(When(on, b), Rank(b), Rank(b) + 1)
  {
  }

  lemma ThreeRanked(first: bool, a: Body, second: bool, b: Body, third: bool, c: Body)
    requires Rank(b) == Rank(a) + 1 && Rank(c) == Rank(b) + 1
    ensures Ranked(When(first, a) + When(second, b) + When(third, c), Rank(a), Rank(c) + 1)
  {
    WhenRanked(first, a);
    WhenRanked(second, b);
    WhenRanked(third, c);
    RankedConcat(When(first, a), When(second, b), Rank(a), Rank(b), Rank(c));
    RankedConcat(When(first, a) + When(second, b), When(third, c), Rank(a), Rank(c), Rank(c) + 1);
  }

  function ExposureRules(e: Exposure): (rules: seq<Body>)
    ensures Ranked(rules, 1, 6)
  {
    var waf, hsts := When(e.waf == Some(InCluster), Inspect), When(if e.hsts.Some? then e.hsts.value else e.isPublic, Hsts);
    RankedConcat(waf, hsts, 4, 5, 6);
    RankedConcat(HeaderRules(e), waf + hsts, 1, 4, 6);
    HeaderRules(e) + (waf + hsts)
  }

  /** Everything the edge must do for this environment, and the single source of the names. */
  function EdgeRules(env: Env, htpasswd: string): (rules: seq<Body>)
    ensures Ranked(rules, 0, 6)
  {
    RankedConcat(AuthRules(env, htpasswd), ExposureRules(env.exposure), 0, 1, 6);
    AuthRules(env, htpasswd) + ExposureRules(env.exposure)
  }

  /** What an exposure asks the edge to do, field by field. */
  predicate Asks(env: Env, htpasswd: string, b: Body) {
    var e := env.exposure;
    match b
    case AskPassword(secret, realm) =>
      e.isPublic && e.auth == BasicAuth && secret == htpasswd && realm == "doblura: " + env.name
    case AskService(address) => e.isPublic && e.auth == ForwardAuth && address == e.forwardUrl
    case NoIndex => e.noIndex.None? || e.noIndex.value
    case RateLimit(average) => e.rateLimitRps == Some(average) && average > 0
    case AllowOnly(networks) => networks == e.allowFrom && networks != []
    case Inspect => e.waf == Some(InCluster)
    case Hsts => e.hsts == Some(true) || (e.hsts.None? && e.isPublic)
  }

  /** A rule is on the list just when the exposure asks for it. */
  lemma RulesAreWhatIsAsked(env: Env, htpasswd: string, b: Body)
    ensures b in EdgeRules(env, htpasswd) <==> Asks(env, htpasswd, b)
  {
    InOneOf(AuthRules(env, htpasswd), ExposureRules(env.exposure), b);
    ExposureRulesAreAsked(env, htpasswd, b);
  }

  lemma ExposureRulesAreAsked(env: Env, htpasswd: string, b: Body)
    ensures b in ExposureRules(env.exposure) <==> !b.AskPassword? && !b.AskService? && Asks(env, htpasswd, b)
  {
    HeaderRulesAreAsked(env, htpasswd, b);
  }

  lemma HeaderRulesAreAsked(env: Env, htpasswd: string, b: Body)
    ensures b in HeaderRules(env.exposure) <==> (b.NoIndex? || b.RateLimit? || b.AllowOnly?) && Asks(env, htpasswd, b)
  {
    var e := env.exposure;
    var rps := if e.rateLimitRps.Some? then e.rateLimitRps.value else 0;
    var first, second, third :=
      When(e.noIndex != Some(false), NoIndex), When(rps > 0, RateLimit(rps)), When(|e.allowFrom| > 0, AllowOnly(e.allowFrom));
    InOneOf(first, second, b);
    InOneOf(first + second, third, b);
    assert b in first + second + third <==>
      (b == NoIndex && e.noIndex != Some(false)) || (b == RateLimit(rps) && rps > 0) || (b == AllowOnly(e.allowFrom) && |e.allowFrom| > 0);
  }

  lemma InOneOf<T>(a: seq<T>, b: seq<T>, x: T)
    ensures x in a + b <==> x in a || x in b
  {
  }

  lemma RankedConcat(a: seq<Body>, b: seq<Body>, low: nat, mid: nat, below: nat)
    requires low <= mid <= below && Ranked(a, low, mid) && Ranked(b, mid, below)
    ensures Ranked(a + b, low, below)
  {
  }

  // ------------------------------------------------------------------ names

  function EdgeObjectName(env: string, rule: string): string { env + "-" + rule }

  /** (environment, rule) to object name is injective, because no rule name contains a dash. */
  lemma ObjectNameInjective(e: string, x: string, f: string, y: string)
    requires '-' !in x && '-' !in y
    requires EdgeObjectName(e, x) == EdgeObjectName(f, y)
    ensures e == f && x == y
  {
    var s := EdgeObjectName(e, x);
    if |e| < |f| { DashSplitsLater(e, x, f, y); }
    if |f| < |e| { DashSplitsLater(f, y, e, x); }
    assert s[..|e|] == e && s[..|f|] == f && s[|e| + 1..] == x && s[|f| + 1..] == y;
  }

  lemma DashSplitsLater(e: string, x: string, f: string, y: string)
    requires EdgeObjectName(e, x) == EdgeObjectName(f, y) && |e| < |f|
    ensures '-' in x
  {
    var s := EdgeObjectName(e, x);
    assert s[|f|] == '-' && s[|f|] == x[|f| - |e| - 1];
  }

  /** One annotation entry per rule. */
  method EdgeMiddlewareNames(env: Env, htpasswd: string) returns (out: seq<string>)
    ensures |out| == |EdgeRules(env, htpasswd)|
    ensures forall i :: 0 <= i < |out| ==>
              out[i] == env.namespace + "-" + (env.name + "-" + RuleName(EdgeRules(env, htpasswd)[i])) + "@kubernetescrd"
  {
    var rules := EdgeRules(env, htpasswd);
    out := ReferencesTo(env, rules);
  }

  method ReferencesTo(env: Env, rules: seq<Body>) returns (out: seq<string>)
    ensures |out| == |rules| && forall i :: 0 <= i < |out| ==> out[i] == Reference(env, RuleName(rules[i]))
  {
    out := [];
    for i := 0 to |rules|
      invariant |out| == i && forall j :: 0 <= j < i ==> out[j] == Reference(env, RuleName(rules[j]))
    {
      var name := RuleName(rules[i]);
      out := out + [Reference(env, name)];
    }
  }

  function Reference(env: Env, rule: string): string {
    env.namespace + "-" + EdgeObjectName(env.name, rule) + "@kubernetescrd"
  }

  // ------------------------------------------------------------------ the store

  /** `envLabel` is the environment the object says it belongs to. */
  datatype Middleware = Middleware(envLabel: string, body: Body)

  /** Keyed by namespace and name. */
  type Store = map<(string, string), Middleware>

  function Key(env: Env, b: Body): (string, string) { (env.namespace, EdgeObjectName(env.name, RuleName(b))) }

  /** The objects the environment's rules ask for. */
  function Wanted(env: Env, rules: seq<Body>): (w: Store)
    ensures forall k :: k in w ==> k.0 == env.namespace && w[k].envLabel == env.name
  {
    if rules == [] then map[]
    else Wanted(env, rules[..|rules| - 1])[Key(env, rules[|rules| - 1]) := Middleware(env.name, rules[|rules| - 1])]
  }

  ghost function Labelled(s: Store, env: Env): set<(string, string)> {
    set k | k in s && k.0 == env.namespace && s[k].envLabel == env.name
  }

  /** Everything labelled with the environment goes, except what it wants, which is there. */
  ghost function Reconciled(s: Store, env: Env, rules: seq<Body>): Store {
    (s - Labelled(s, env)) + Wanted(env, rules)
  }

  datatype Op = Apply(key: (string, string)) | Delete(key: (string, string))
  datatype Response = Ok | NotFound | Refused

  class Cluster {
    var store: Store
    ghost var log: seq<Op>

    /** Server-side apply with force: the object is there afterwards, with our label and body. */
    method Patch(key: (string, string), mw: Middleware, answer: Response) returns (ok: bool)
      modifies this
      ensures ok <==> answer == Ok
      ensures store == if ok then old(store)[key := mw] else old(store)
      ensures log == if ok then old(log) + [Apply(key)] else old(log)
    {
      ok := answer == Ok;
      if ok {
        store := store[key := mw];
        log := log + [Apply(key)];
      }
    }

    /** NotFound is success: somebody else removed it first. */
    method Remove(key: (string, string), answer: Response) returns (ok: bool)
      modifies this
      ensures ok <==> answer != Refused
      ensures store == if ok then old(store) - {key} else old(store)
      ensures log == if ok then old(log) + [Delete(key)] else old(log)
    {
      ok := answer != Refused;
      if ok {
        store := store - {key};
        log := log + [Delete(key)];
      }
    }

    /** The labelled objects of the namespace, in whatever order the server lists them. */
    method List(env: Env) returns (keys: seq<(string, string)>)
      ensures forall k :: k in keys <==> k in Labelled(store, env)
    {
      keys := [];
      var left := store;
      while left != map[]
        invariant left.Keys <= store.Keys
        invariant forall k :: k in keys <==> k in Labelled(store, env) && k !in left
        decreases |left|
      {
        var k :| k in left;
        if k.0 == env.namespace && store[k].envLabel == env.name {
          keys := keys + [k];
        }
        left := left - {k};
      }
    }

    /** Creates what the Ingress refers to, then removes what was turned off. `answers` is how the
        server responds to each call, and a list that fails ends the pass without cleaning up. */
    method EnsureEdge(env: Env, htpasswd: Option<string>, answers: Op -> Response, listFails: bool) returns (ok: bool)
      modifies this
      ensures htpasswd.None? ==> !ok && store == old(store)
      ensures htpasswd.Some? && NoneRefused(answers) ==> ok
      ensures htpasswd.Some? && ok && !listFails ==> store == Reconciled(old(store), env, EdgeRules(env, htpasswd.value))
      ensures htpasswd.Some? && ok && listFails ==>
                store == old(store) + Wanted(env, EdgeRules(env, htpasswd.value))
      ensures htpasswd.Some? ==> ThroughoutSafe(old(store), store, env, EdgeRules(env, htpasswd.value))
      ensures htpasswd.Some? ==> ApplyThenDelete(old(log), log, env, EdgeRules(env, htpasswd.value))
    {
      if htpasswd.None? { return false; }
      ok := Converge(env, EdgeRules(env, htpasswd.value), answers, listFails);
    }

    method Converge(env: Env, rules: seq<Body>, answers: Op -> Response, listFails: bool) returns (ok: bool)
      modifies this
      ensures NoneRefused(answers) ==> ok
      ensures ok && !listFails ==> store == Reconciled(old(store), env, rules)
      ensures ok && listFails ==> store == old(store) + Wanted(env, rules)
      ensures ThroughoutSafe(old(store), store, env, rules)
      ensures ApplyThenDelete(old(log), log, env, rules)
    {
      var wanted;
      ghost var n;
      ok, wanted, n := ApplyRules(env, rules, answers);
      assert rules[..|rules|] == rules;
      PartlyApplied(old(store), env, rules, n);
      LogOf(old(log), log, env, rules, n, []);
      if ok && !listFails {
        ok := CleanUp(env, rules, wanted, old(store), old(log), answers);
      }
    }

    /** The loop over the rules: each is applied, until a call is refused. */
    method ApplyRules(env: Env, rules: seq<Body>, answers: Op -> Response)
      returns (ok: bool, wanted: set<(string, string)>, ghost n: nat)
      modifies this
      ensures n <= |rules| && (ok ==> n == |rules|) && (NoneRefused(answers) ==> ok)
      ensures store == old(store) + Wanted(env, rules[..n]) && wanted == Wanted(env, rules[..n]).Keys
      ensures log == old(log) + AppliesOf(env, rules[..n])
    {
      wanted, n, ok := {}, 0, true;
      for i := 0 to |rules|
        invariant n == i && ok
        invariant store == old(store) + Wanted(env, rules[..n])
        invariant wanted == Wanted(env, rules[..n]).Keys
        invariant log == old(log) + AppliesOf(env, rules[..n])
      {
        ok := ApplyNext(env, rules, i, answers, old(store), old(log));
        if !ok {
          return;
        }
        wanted, n := wanted + {Key(env, rules[i])}, i + 1;
        assert rules[..i + 1][..i] == rules[..i];
      }
    }

    method ApplyNext(
      env: Env, rules: seq<Body>, i: nat, answers: Op -> Response, ghost before: Store, ghost logBefore: seq<Op>)
      returns (ok: bool)
      requires i < |rules|
      requires store == before + Wanted(env, rules[..i]) && log == logBefore + AppliesOf(env, rules[..i])
      modifies this
      ensures NoneRefused(answers) ==> ok
      ensures var n := if ok then i + 1 else i;
              store == before + Wanted(env, rules[..n]) && log == logBefore + AppliesOf(env, rules[..n])
    {
      OneMoreApplied(before, store, env, rules, i);
      var key := Key(env, rules[i]);
      ok := Patch(key, Middleware(env.name, rules[i]), answers(Apply(key)));
    }

    /** Deletes the labelled objects no rule names any more. */
    method CleanUp(
      env: Env, rules: seq<Body>, wanted: set<(string, string)>, ghost before: Store, ghost logBefore: seq<Op>,
      answers: Op -> Response) returns (ok: bool)
      requires store == before + Wanted(env, rules) && wanted == Wanted(env, rules).Keys
      requires log == logBefore + AppliesOf(env, rules)
      modifies this
      ensures NoneRefused(answers) ==> ok
      ensures ok ==> store == Reconciled(before, env, rules)
      ensures ThroughoutSafe(before, store, env, rules)
      ensures ApplyThenDelete(logBefore, log, env, rules)
    {
      assert rules[..|rules|] == rules;
      var live := List(env);
      ghost var full := store;
      ghost var gone, deletes;
      ok, gone, deletes := DeleteUnwanted(live, wanted, answers);
      assert forall k :: k in gone ==> k in Labelled(full, env) && k !in wanted;
      PartlyDeleted(before, env, rules, gone);
      LogOf(logBefore, log, env, rules, |rules|, deletes);
      if ok {
        assert gone == Labelled(full, env) - wanted;
        AllDeleted(before, env, rules, gone);
      }
    }

    /** The loop over the live objects: what is not wanted goes, until a call is refused. */
    method DeleteUnwanted(live: seq<(string, string)>, wanted: set<(string, string)>, answers: Op -> Response)
      returns (ok: bool, ghost gone: set<(string, string)>, ghost deletes: seq<Op>)
      modifies this
      ensures store == old(store) - gone
      ensures log == old(log) + deletes && OnlyDeletes(deletes, wanted)
      ensures gone <= Unwanted(live, wanted) && (ok ==> gone == Unwanted(live, wanted))
      ensures NoneRefused(answers) ==> ok
    {
      gone, deletes := {}, [];
      for i := 0 to |live|
        invariant store == old(store) - gone && gone == Unwanted(live[..i], wanted)
        invariant log == old(log) + deletes && OnlyDeletes(deletes, wanted)
      {
        if live[i] !in wanted {
          var done := Remove(live[i], answers(Delete(live[i])));
          if !done {
            ok := false;
            return;
          }
          gone := gone + {live[i]};
          deletes := deletes + [Delete(live[i])];
        }
      }
      assert live[..|live|] == live;
      ok := true;
    }
  }

  /** Every apply works, and every delete works or finds nothing to delete. */
  ghost predicate NoneRefused(answers: Op -> Response) {
    forall key :: answers(Apply(key)) == Ok && answers(Delete(key)) != Refused
  }

  /** The listed objects no rule names. */
  ghost function Unwanted(live: seq<(string, string)>, wanted: set<(string, string)>): set<(string, string)> {
    set k | k in live && k !in wanted
  }

  function AppliesOf(env: Env, rules: seq<Body>): seq<Op> {
    if rules == [] then []
    else AppliesOf(env, rules[..|rules| - 1]) + [Apply(Key(env, rules[|rules| - 1]))]
  }

  ghost predicate OnlyDeletes(ops: seq<Op>, wanted: set<(string, string)>) {
    forall j :: 0 <= j < |ops| ==> ops[j].Delete? && ops[j].key !in wanted
  }

  /** The calls that took effect: the first n rules in order, then deletions of objects no rule
      names, and deletions only when every rule has been applied. */
  ghost predicate TookEffect(before: seq<Op>, log: seq<Op>, env: Env, rules: seq<Body>, n: nat, deletes: seq<Op>) {
    && n <= |rules|
    && log == before + AppliesOf(env, rules[..n]) + deletes
    && OnlyDeletes(deletes, Wanted(env, rules).Keys)
    && (n < |rules| ==> deletes == [])
  }

  ghost predicate ApplyThenDelete(before: seq<Op>, log: seq<Op>, env: Env, rules: seq<Body>) {
    exists n, deletes :: TookEffect(before, log, env, rules, n, deletes)
  }

  /** However far a pass got: an object of another label or namespace is as it was unless a rule
      names it, and whatever was there and is wanted is still there. */
  ghost predicate ThroughoutSafe(before: Store, after: Store, env: Env, rules: seq<Body>) {
    var w := Wanted(env, rules);
    && (forall k :: k in before && k !in Labelled(before, env) && k !in w ==> k in after && after[k] == before[k])
    && (forall k :: k in before && k in w ==> k in after)
    && (forall k :: k in after && k !in w ==> k in before && after[k] == before[k])
  }

  // ------------------------------------------------------------------ the proofs behind it

  lemma {:induction false} WantedPrefix(env: Env, rules: seq<Body>, n: nat)
    requires n <= |rules|
    ensures Wanted(env, rules[..n]).Keys <= Wanted(env, rules).Keys
    decreases |rules|
  {
    if n == |rules| {
      assert rules[..n] == rules;
    } else {
      assert rules[..|rules| - 1][..n] == rules[..n];
      WantedPrefix(env, rules[..|rules| - 1], n);
    }
  }

  lemma OneMoreApplied(before: Store, now: Store, env: Env, rules: seq<Body>, i: nat)
    requires i < |rules| && now == before + Wanted(env, rules[..i])
    ensures var key := Key(env, rules[i]);
            && now[key := Middleware(env.name, rules[i])] == before + Wanted(env, rules[..i + 1])
            && Wanted(env, rules[..i + 1]).Keys == Wanted(env, rules[..i]).Keys + {key}
            && AppliesOf(env, rules[..i + 1]) == AppliesOf(env, rules[..i]) + [Apply(key)]
  {
    assert rules[..i + 1][..i] == rules[..i];
  }

  lemma LogOf(before: seq<Op>, log: seq<Op>, env: Env, rules: seq<Body>, n: nat, deletes: seq<Op>)
    requires n <= |rules| && log == before + AppliesOf(env, rules[..n]) + deletes
    requires OnlyDeletes(deletes, Wanted(env, rules).Keys) && (n < |rules| ==> deletes == [])
    ensures ApplyThenDelete(before, log, env, rules)
  {
    assert TookEffect(before, log, env, rules, n, deletes);
  }

  lemma PartlyApplied(before: Store, env: Env, rules: seq<Body>, n: nat)
    requires n <= |rules|
    ensures ThroughoutSafe(before, before + Wanted(env, rules[..n]), env, rules)
  {
    WantedPrefix(env, rules, n);
  }

  lemma PartlyDeleted(before: Store, env: Env, rules: seq<Body>, gone: set<(string, string)>)
    requires var w := Wanted(env, rules);
             forall k :: k in gone ==> k in Labelled(before + w, env) && k !in w
    ensures ThroughoutSafe(before, (before + Wanted(env, rules)) - gone, env, rules)
  {
  }

  lemma AllDeleted(before: Store, env: Env, rules: seq<Body>, gone: set<(string, string)>)
    requires gone == Labelled(before + Wanted(env, rules), env) - Wanted(env, rules).Keys
    ensures (before + Wanted(env, rules)) - gone == Reconciled(before, env, rules)
  {
    var w := Wanted(env, rules);
    assert gone == Labelled(before, env) - w.Keys;
  }

  // ------------------------------------------------------------------ convergence

  /** After a complete pass the labelled objects are exactly the wanted ones, with their bodies. */
  lemma PassLeavesExactlyTheWanted(s: Store, env: Env, rules: seq<Body>)
    ensures var t, w := Reconciled(s, env, rules), Wanted(env, rules);
            Labelled(t, env) == w.Keys && forall k :: k in w ==> k in t && t[k] == w[k]
  {
  }

  /** A second pass changes nothing. */
  lemma SecondPassChangesNothing(s: Store, env: Env, rules: seq<Body>)
    ensures Reconciled(Reconciled(s, env, rules), env, rules) == Reconciled(s, env, rules)
  {
    PassLeavesExactlyTheWanted(s, env, rules);
  }

  lemma KeysApart(env: Env, rules: seq<Body>, i: nat, j: nat)
    requires Ranked(rules, 0, 6) && i < |rules| && j < |rules| && i != j
    ensures Key(env, rules[i]) != Key(env, rules[j])
  {
    if Key(env, rules[i]) == Key(env, rules[j]) {
      ObjectNameInjective(env.name, RuleName(rules[i]), env.name, RuleName(rules[j]));
    }
  }

  lemma {:induction false} WantedHolds(env: Env, rules: seq<Body>, i: nat)
    requires i < |rules| && Ranked(rules, 0, 6)
    ensures Key(env, rules[i]) in Wanted(env, rules)
    ensures Wanted(env, rules)[Key(env, rules[i])] == Middleware(env.name, rules[i])
  {
    var n := |rules| - 1;
    if i < n {
      WantedHolds(env, rules[..n], i);
      KeysApart(env, rules, i, n);
    }
  }

  /** The password secret changes what a rule says, never which rules there are. */
  lemma NamesIgnoreSecret(env: Env, a: string, b: string)
    ensures |EdgeRules(env, a)| == |EdgeRules(env, b)|
    ensures forall i :: 0 <= i < |EdgeRules(env, a)| ==> RuleName(EdgeRules(env, a)[i]) == RuleName(EdgeRules(env, b)[i])
  {
    var x, y := AuthRules(env, a), AuthRules(env, b);
    assert |x| == |y| && (|x| == 1 ==> RuleName(x[0]) == RuleName(y[0]));
  }

  /** Every name the Ingress refers to is an object that exists, whatever the Ingress builder passes
      as the password secret, and it does what its rule says. */
  lemma EveryReferenceExists(s: Store, env: Env, htpasswd: string, other: string, i: nat)
    requires i < |EdgeRules(env, other)|
    ensures i < |EdgeRules(env, htpasswd)|
    ensures var k, t := Key(env, EdgeRules(env, other)[i]), Reconciled(s, env, EdgeRules(env, htpasswd));
            k in t && t[k] == Middleware(env.name, EdgeRules(env, htpasswd)[i])
  {
    NamesIgnoreSecret(env, htpasswd, other);
    WantedHolds(env, EdgeRules(env, htpasswd), i);
  }

  lemma {:induction false} WantedIsARule(env: Env, rules: seq<Body>, k: (string, string)) returns (i: nat)
    requires k in Wanted(env, rules)
    ensures i < |rules| && k == Key(env, rules[i]) && Wanted(env, rules)[k] == Middleware(env.name, rules[i])
  {
    var n := |rules| - 1;
    if k == Key(env, rules[n]) {
      i := n;
    } else {
      i := WantedIsARule(env, rules[..n], k);
    }
  }

  lemma StoreHoldsTheRules(s: Store, env: Env, rules: seq<Body>, b: Body)
    requires Ranked(rules, 0, 6)
    ensures var k, t := Key(env, b), Reconciled(s, env, rules);
            (k in t && t[k] == Middleware(env.name, b)) <==> b in rules
  {
    var k, t := Key(env, b), Reconciled(s, env, rules);
    PassLeavesExactlyTheWanted(s, env, rules);
    if b in rules {
      var i :| 0 <= i < |rules| && rules[i] == b;
      WantedHolds(env, rules, i);
    }
    if k in t && t[k] == Middleware(env.name, b) {
      assert k in Labelled(t, env);
      var i := WantedIsARule(env, rules, k);
    }
  }

  /** After a complete pass the environment has an object that does something just when its exposure asks
      for it, whatever was in the store. */
  lemma StoreDoesWhatIsAsked(s: Store, env: Env, htpasswd: string, b: Body)
    ensures var k, t := (env.namespace, env.name + "-" + RuleName(b)), Reconciled(s, env, EdgeRules(env, htpasswd));
            (k in t && t[k] == Middleware(env.name, b)) <==> Asks(env, htpasswd, b)
  {
    RulesAreWhatIsAsked(env, htpasswd, b);
    StoreHoldsTheRules(s, env, EdgeRules(env, htpasswd), b);
  }

  /** So a public environment with basic authentication asks for the password of its secret. */
  lemma PublicEnvironmentsAskForAPassword(s: Store, env: Env, htpasswd: string)
    requires env.exposure.isPublic && env.exposure.auth == BasicAuth
    ensures var k, t := (env.namespace, env.name + "-" + "basicauth"), Reconciled(s, env, EdgeRules(env, htpasswd));
            k in t && t[k] == Middleware(env.name, AskPassword(htpasswd, "doblura: " + env.name))
  {
    StoreDoesWhatIsAsked(s, env, htpasswd, AskPassword(htpasswd, "doblura: " + env.name));
  }

  // ------------------------------------------------------------------ isolation

  lemma {:induction false} WantedKeys(env: Env, rules: seq<Body>, k: (string, string)) returns (b: Body)
    requires k in Wanted(env, rules)
    ensures k == Key(env, b)
  {
    var n := |rules| - 1;
    if k == Key(env, rules[n]) {
      b := rules[n];
    } else {
      b := WantedKeys(env, rules[..n], k);
    }
  }

  /** No two environments of a namespace have one name. */
  predicate Apart(e: Env, f: Env) { e.name != f.name || e.namespace != f.namespace }

  lemma WantedDisjoint(e: Env, f: Env, k: (string, string), a: seq<Body>, b: seq<Body>)
    requires Apart(e, f)
    ensures !(k in Wanted(e, a) && k in Wanted(f, b))
  {
    if k in Wanted(e, a) && k in Wanted(f, b) {
      var x := WantedKeys(e, a, k);
      var y := WantedKeys(f, b, k);
      ObjectNameInjective(e.name, RuleName(x), f.name, RuleName(y));
    }
  }

  /** Two environments never fight over an object: their passes commute. */
  lemma EnvironmentsCommute(s: Store, e: Env, f: Env, a: seq<Body>, b: seq<Body>)
    requires Apart(e, f)
    ensures Reconciled(Reconciled(s, e, a), f, b) == Reconciled(Reconciled(s, f, b), e, a)
  {
    var v, w := Wanted(e, a), Wanted(f, b);
    forall k ensures !(k in v && k in w) { WantedDisjoint(e, f, k, a, b); }
    BothPasses(s, e, f, v, w);
    BothPasses(s, f, e, w, v);
    assert v + w == w + v;
    assert s - Labelled(s, e) - Labelled(s, f) == s - Labelled(s, f) - Labelled(s, e);
  }

  lemma BothPasses(s: Store, e: Env, f: Env, v: Store, w: Store)
    requires Apart(e, f) && forall k :: !(k in v && k in w)
    requires forall k :: k in v ==> k.0 == e.namespace && v[k].envLabel == e.name
    ensures var once := (s - Labelled(s, e)) + v;
            (once - Labelled(once, f)) + w == (s - Labelled(s, e) - Labelled(s, f)) + (v + w)
  {
    var once := (s - Labelled(s, e)) + v;
    assert forall k :: k in Labelled(once, f) ==> k !in v;
    assert once - Labelled(once, f) == (s - Labelled(s, e) - Labelled(s, f)) + v;
    var rest := s - Labelled(s, e) - Labelled(s, f);
    assert (rest + v) + w == rest + (v + w);
  }

  /** What another environment's pass has put in place stays in place through ours. */
  lemma OthersUntouched(s: Store, e: Env, f: Env, a: seq<Body>, b: seq<Body>, k: (string, string))
    requires Apart(e, f) && k in Wanted(f, b)
    requires k in s && s[k] == Wanted(f, b)[k]
    ensures k in Reconciled(s, e, a) && Reconciled(s, e, a)[k] == s[k]
  {
    WantedDisjoint(e, f, k, a, b);
  }
}
