/** Edge passes of several environments at once, interleaved call by call over one store.
    A pass applies its rules one by one, lists what bears its label, and deletes by name what it listed
    and does not want; a refused call ends it. One that has made no call yet begins later. */
module EdgeRuns {
  import opened Wrappers
  import opened Edge

  /** `todo` is what the pass has listed and not yet deleted. */
  datatype Pass = Pass(env: Env, rules: seq<Body>, next: nat, todo: Option<set<(string, string)>>)

  datatype World = World(store: Store, passes: map<nat, Pass>)

  datatype Step =
    | Call(who: nat, key: (string, string))
    | Refusal(who: nat)

  function Fresh(env: Env, rules: seq<Body>): Pass { Pass(env, rules, 0, None) }

  ghost predicate IsPass(p: Pass) { p.next <= |p.rules| && (p.todo.Some? ==> p.next == |p.rules|) }

  predicate Done(p: Pass) { p.todo == Some({}) }

  /** The next call of a pass. It may delete what it listed in any order: `key` says which comes next. */
  ghost function Called(w: World, who: nat, key: (string, string)): World
    requires who in w.passes
  {
    var p := w.passes[who];
    if p.next < |p.rules| then
      World(w.store[Key(p.env, p.rules[p.next]) := Middleware(p.env.name, p.rules[p.next])],
            w.passes[who := p.(next := p.next + 1)])
    else if p.todo.None? then
      w.(passes := w.passes[who := p.(todo := Some(Labelled(w.store, p.env) - Wanted(p.env, p.rules).Keys))])
    else if key in p.todo.value then
      World(w.store - {key}, w.passes[who := p.(todo := Some(p.todo.value - {key}))])
    else w
  }

  ghost function Stepped(w: World, s: Step): World {
    if s.who !in w.passes then w
    else match s
      case Call(who, key) => Called(w, who, key)
      case Refusal(who) => w.(passes := w.passes - {who})
  }

  ghost function After(w: World, steps: seq<Step>): World
    decreases |steps|
  {
    if steps == [] then w else After(Stepped(w, steps[0]), steps[1..])
  }

  /** The labelled objects are the wanted ones, with their bodies. */
  ghost predicate Stands(s: Store, p: Pass) {
    var v := Wanted(p.env, p.rules);
    Labelled(s, p.env) == v.Keys && forall k :: k in v ==> s[k] == v[k]
  }

  /** What a pass may still delete: what it has listed, or what it would list now. */
  ghost function Reach(s: Store, p: Pass): set<(string, string)> {
    if p.todo.Some? then p.todo.value else Labelled(s, p.env)
  }

  /** It may still delete an object the first pass wants. */
  ghost predicate Threatens(s: Store, q: Pass, p: Pass) { exists k :: k in Wanted(p.env, p.rules) && k in Reach(s, q) }

  ghost predicate Clash(w: World, e: nat)
    requires e in w.passes
  {
    exists f :: f in w.passes && f != e && Threatens(w.store, w.passes[f], w.passes[e])
  }

  /** Only one pass of an environment is in flight: the controller never handles one object twice at a time. */
  ghost predicate Alone(w: World, e: nat)
    requires e in w.passes
  {
    && (forall f :: f in w.passes ==> IsPass(w.passes[f]))
    && forall f :: f in w.passes && f != e ==> Apart(w.passes[e].env, w.passes[f].env)
  }

  // ------------------------------------------------------------------ a pass among others

  /** What the pass has done so far is there, and what it lists or may list covers what must go. */
  ghost predicate Underway(s: Store, p: Pass) {
    && IsPass(p)
    && (var v := Wanted(p.env, p.rules[..p.next]); forall k :: k in v ==> k in s && s[k] == v[k])
    && (p.todo.Some? ==>
          && p.todo.value !! Wanted(p.env, p.rules).Keys
          && Labelled(s, p.env) - Wanted(p.env, p.rules).Keys <= p.todo.value)
  }

  /** And nobody is going to undo it. */
  ghost predicate Holding(w: World, e: nat) {
    e in w.passes ==> Alone(w, e) && !Clash(w, e) && Underway(w.store, w.passes[e])
  }

  lemma OwnApply(s: Store, p: Pass, key: (string, string), mw: Middleware)
    requires Underway(s, p) && p.next < |p.rules|
    requires key == Key(p.env, p.rules[p.next]) && mw == Middleware(p.env.name, p.rules[p.next])
    ensures Underway(s[key := mw], p.(next := p.next + 1))
    ensures forall q: Pass :: Apart(p.env, q.env) ==> Reach(s[key := mw], q) <= Reach(s, q)
  {
    assert p.rules[..p.next + 1][..p.next] == p.rules[..p.next];
  }

  lemma OwnRest(w: World, e: nat, key: (string, string))
    requires e in w.passes && Underway(w.store, w.passes[e]) && w.passes[e].next == |w.passes[e].rules|
    ensures var t := Called(w, e, key);
            Underway(t.store, t.passes[e]) && forall q: Pass :: Reach(t.store, q) <= Reach(w.store, q)
  {
    var p := w.passes[e];
    assert p.rules[..p.next] == p.rules;
  }

  lemma OwnCall(w: World, e: nat, key: (string, string))
    requires Holding(w, e) && e in w.passes
    ensures Holding(Called(w, e, key), e)
  {
    var p := w.passes[e];
    var t := Called(w, e, key);
    if p.next < |p.rules| {
      OwnApply(w.store, p, Key(p.env, p.rules[p.next]), Middleware(p.env.name, p.rules[p.next]));
    } else {
      OwnRest(w, e, key);
    }
    assert forall f :: f in t.passes && f != e ==> t.passes[f] == w.passes[f];
  }

  /** Another pass applies: what it writes is none of ours. */
  lemma OtherApply(s: Store, p: Pass, key: (string, string), mw: Middleware)
    requires Underway(s, p) && key !in Wanted(p.env, p.rules)
    requires !(key.0 == p.env.namespace && mw.envLabel == p.env.name)
    ensures Underway(s[key := mw], p)
    ensures forall q: Pass :: Reach(s[key := mw], q) <= Reach(s, q) + {key}
  {
    WantedPrefix(p.env, p.rules, p.next);
  }

  lemma OtherDelete(s: Store, p: Pass, key: (string, string))
    requires Underway(s, p) && key !in Wanted(p.env, p.rules)
    ensures Underway(s - {key}, p)
    ensures forall q: Pass :: Reach(s - {key}, q) <= Reach(s, q)
  {
    WantedPrefix(p.env, p.rules, p.next);
  }

  lemma {:induction false} OneOfWanted(env: Env, rules: seq<Body>, i: nat)
    requires i < |rules|
    ensures Key(env, rules[i]) in Wanted(env, rules)
  {
    if i < |rules| - 1 { OneOfWanted(env, rules[..|rules| - 1], i); }
  }

  lemma OthersCall(w: World, e: nat, f: nat, key: (string, string))
    requires Holding(w, e) && e in w.passes && f in w.passes && f != e
    ensures Holding(Called(w, f, key), e)
  {
    var p, t := w.passes[e], Called(w, f, key);
    assert !Threatens(w.store, w.passes[f], p);
    OthersCallKeepsPass(w, p, f, key);
    forall g | g in t.passes && g != e ensures !Threatens(t.store, t.passes[g], p) {
      assert !Threatens(w.store, w.passes[g], p);
    }
  }

  lemma OthersCallKeepsPass(w: World, p: Pass, f: nat, key: (string, string))
    requires Underway(w.store, p) && f in w.passes && IsPass(w.passes[f])
    requires Apart(p.env, w.passes[f].env) && !Threatens(w.store, w.passes[f], p)
    ensures Underway(Called(w, f, key).store, p)
    ensures forall g :: g in w.passes && !Threatens(w.store, w.passes[g], p) ==>
              !Threatens(Called(w, f, key).store, Called(w, f, key).passes[g], p)
  {
    var q := w.passes[f];
    if q.next < |q.rules| {
      var k0 := Key(q.env, q.rules[q.next]);
      OneOfWanted(q.env, q.rules, q.next);
      WantedDisjoint(p.env, q.env, k0, p.rules, q.rules);
      OtherApply(w.store, p, k0, Middleware(q.env.name, q.rules[q.next]));
      AppliesLeaveReach(w, p, f, key);
    } else if q.todo.Some? && key in q.todo.value {
      OtherDelete(w.store, p, key);
    }
  }

  lemma AppliesLeaveReach(w: World, p: Pass, f: nat, key: (string, string))
    requires f in w.passes && w.passes[f].next < |w.passes[f].rules|
    requires Key(w.passes[f].env, w.passes[f].rules[w.passes[f].next]) !in Wanted(p.env, p.rules)
    ensures forall g :: g in w.passes && !Threatens(w.store, w.passes[g], p) ==>
              !Threatens(Called(w, f, key).store, Called(w, f, key).passes[g], p)
  {
    var t := Called(w, f, key);
    assert forall g, k :: g in w.passes && k in Wanted(p.env, p.rules) && k in Reach(t.store, t.passes[g]) ==>
        k in Reach(w.store, w.passes[g]);
  }

  lemma StepHolds(w: World, e: nat, s: Step)
    requires Holding(w, e)
    ensures Holding(Stepped(w, s), e)
  {
    if s.who in w.passes && e in w.passes && s.Call? {
      if s.who == e { OwnCall(w, e, s.key); } else { OthersCall(w, e, s.who, s.key); }
    }
  }

  lemma {:induction false} RunHolds(w: World, e: nat, steps: seq<Step>)
    requires Holding(w, e)
    ensures Holding(After(w, steps), e)
    decreases |steps|
  {
    if steps != [] {
      StepHolds(w, e, steps[0]);
      RunHolds(Stepped(w, steps[0]), e, steps[1..]);
    }
  }

  lemma DoneStands(s: Store, p: Pass)
    requires Underway(s, p) && Done(p)
    ensures Stands(s, p)
  {
    var v := Wanted(p.env, p.rules);
    assert p.rules[..p.next] == p.rules;
    forall k ensures k in Labelled(s, p.env) <==> k in v {
      if k in v { assert s[k] == v[k]; }
      assert k !in Labelled(s, p.env) - v.Keys;
    }
  }

  // ------------------------------------------------------------------ a pass on its own

  lemma {:induction false} AfterInTwo(w: World, a: seq<Step>, b: seq<Step>)
    ensures After(w, a + b) == After(After(w, a), b)
    decreases |a|
  {
    if a == [] {
      assert a + b == b;
    } else {
      assert (a + b)[1..] == a[1..] + b;
      AfterInTwo(Stepped(w, a[0]), a[1..], b);
    }
  }

  lemma AfterFirst(w: World, s: Step, rest: seq<Step>)
    ensures After(w, [s] + rest) == After(Stepped(w, s), rest)
  {
    assert ([s] + rest)[1..] == rest;
  }

  /** A pass left to itself applies its rules and lists. What bore its label and is not wanted is listed. */
  lemma {:induction false} Lists(w: World, who: nat) returns (steps: seq<Step>)
    requires who in w.passes && IsPass(w.passes[who])
    ensures var p, t := w.passes[who], After(w, steps);
            && t.passes.Keys == w.passes.Keys && t.passes == w.passes[who := t.passes[who]]
            && t.passes[who] == p.(next := |p.rules|, todo := t.passes[who].todo) && t.passes[who].todo.Some?
            && Reach(w.store, p) - Wanted(p.env, p.rules).Keys <= t.passes[who].todo.value
    decreases |w.passes[who].rules| - w.passes[who].next
  {
    var p := w.passes[who];
    if p.todo.Some? {
      steps := [];
    } else {
      var s := Call(who, ("", ""));
      var u := Stepped(w, s);
      var rest := [];
      if p.next < |p.rules| {
        OneOfWanted(p.env, p.rules, p.next);
        rest := Lists(u, who);
      }
      AfterFirst(w, s, rest);
      steps := [s] + rest;
    }
  }

  /** And then deletes all it has listed. */
  lemma {:induction false} Deletes(w: World, who: nat) returns (steps: seq<Step>)
    requires who in w.passes && IsPass(w.passes[who]) && w.passes[who].todo.Some?
    ensures After(w, steps) == World(w.store - w.passes[who].todo.value, w.passes[who := w.passes[who].(todo := Some({}))])
    decreases |w.passes[who].todo.value|
  {
    var p := w.passes[who];
    if p.todo.value == {} {
      steps := [];
    } else {
      var k :| k in p.todo.value;
      var rest := Deletes(Stepped(w, Call(who, k)), who);
      AfterFirst(w, Call(who, k), rest);
      steps := [Call(who, k)] + rest;
    }
  }

  /** The run ends with the pass complete, and yet what it wants is not what is there. */
  ghost predicate Spoils(w: World, e: nat, steps: seq<Step>) {
    var t := After(w, steps);
    e in t.passes && Done(t.passes[e]) && !Stands(t.store, t.passes[e])
  }

  /** The other pass lists, the pass completes, and the other one deletes what it has listed. */
  lemma ClashSpoils(w: World, e: nat, f: nat, k: (string, string)) returns (steps: seq<Step>)
    requires e in w.passes && Alone(w, e) && f in w.passes && f != e
    requires k in Wanted(w.passes[e].env, w.passes[e].rules) && k in Reach(w.store, w.passes[f])
    ensures Spoils(w, e, steps)
    ensures var t := After(w, steps); f in t.passes && Done(t.passes[f]) && k !in t.store
  {
    var p, q := w.passes[e], w.passes[f];
    WantedDisjoint(p.env, q.env, k, p.rules, q.rules);
    var a := Lists(w, f);
    var t := After(w, a);
    var b := Lists(t, e);
    var u := After(t, b);
    var c := Deletes(u, e);
    var v := After(u, c);
    AfterInTwo(w, a, b);
    AfterInTwo(w, a + b, c);
    var d := Deletes(v, f);
    AfterInTwo(w, a + b + c, d);
    steps := a + b + c + d;
  }

  // ------------------------------------------------------------------ the results

  /** A pass that begins now, whatever passes of other environments are in flight and whatever they do
      between its calls: what it leaves when it completes stands, just when none of them may still
      delete an object it wants. That is an object of its names that one of them has listed, or that
      bears the label of one of them that has not listed yet. */
  lemma StandsUnlessClash(w: World, e: nat)
    requires e in w.passes && Alone(w, e) && w.passes[e] == Fresh(w.passes[e].env, w.passes[e].rules)
    ensures (exists steps :: Spoils(w, e, steps)) <==> Clash(w, e)
  {
    if Clash(w, e) {
      var f :| f in w.passes && f != e && Threatens(w.store, w.passes[f], w.passes[e]);
      var k :| k in Wanted(w.passes[e].env, w.passes[e].rules) && k in Reach(w.store, w.passes[f]);
      var steps := ClashSpoils(w, e, f, k);
    } else {
      forall steps ensures !Spoils(w, e, steps) {
        RunHolds(w, e, steps);
        var t := After(w, steps);
        if e in t.passes && Done(t.passes[e]) { DoneStands(t.store, t.passes[e]); }
      }
    }
  }

  /** Every object is named after the environment whose label it bears, as those a pass applies are. */
  ghost predicate OwnNames(s: Store) {
    forall k :: k in s ==> NamedAfter(k, s[k].envLabel)
  }

  ghost predicate NamedAfter(k: (string, string), env: string) {
    exists b :: k.1 == EdgeObjectName(env, RuleName(b))
  }

  /** Then nobody can spoil anything, and so it stays whatever the passes do. */
  lemma OwnNamesNeverClash(w: World, e: nat, steps: seq<Step>)
    requires OwnNames(w.store)
    requires e in w.passes && Alone(w, e) && forall f :: f in w.passes ==> w.passes[f].todo.None?
    ensures !Clash(w, e) && OwnNames(After(w, steps).store)
  {
    RunKeepsOwnNames(w, steps);
    var p := w.passes[e];
    forall f, k | f in w.passes && f != e && k in Wanted(p.env, p.rules) && k in Reach(w.store, w.passes[f]) ensures false {
      var b := WantedKeys(p.env, p.rules, k);
      var c :| k.1 == EdgeObjectName(w.store[k].envLabel, RuleName(c));
      ObjectNameInjective(p.env.name, RuleName(b), w.store[k].envLabel, RuleName(c));
    }
  }

  lemma {:induction false} RunKeepsOwnNames(w: World, steps: seq<Step>)
    requires OwnNames(w.store)
    ensures OwnNames(After(w, steps).store)
    decreases |steps|
  {
    if steps != [] {
      var s, t := steps[0], Stepped(w, steps[0]);
      if s.Call? && s.who in w.passes && w.passes[s.who].next < |w.passes[s.who].rules| {
        var p := w.passes[s.who];
        assert NamedAfter(Key(p.env, p.rules[p.next]), p.env.name);
      }
      RunKeepsOwnNames(t, steps[1..]);
    }
  }

  // ------------------------------------------------------------------ interleaved is one after the other

  /** No pass puts there what no pass wants. */
  lemma {:induction false} UnwantedOnlyGoes(w: World, steps: seq<Step>, k: (string, string))
    requires forall i :: i in w.passes ==> k !in Wanted(w.passes[i].env, w.passes[i].rules)
    ensures var t := After(w, steps).store; k in t ==> k in w.store && t[k] == w.store[k]
    decreases |steps|
  {
    if steps != [] {
      CallsWriteWanted(w, steps[0]);
      UnwantedOnlyGoes(Stepped(w, steps[0]), steps[1..], k);
    }
  }

  lemma CallsWriteWanted(w: World, s: Step)
    ensures var t := Stepped(w, s);
            && t.passes.Keys <= w.passes.Keys
            && (forall i :: i in t.passes ==> t.passes[i].env == w.passes[i].env && t.passes[i].rules == w.passes[i].rules)
            && forall k :: k in t.store && !(k in w.store && t.store[k] == w.store[k]) ==>
                 s.who in w.passes && k in Wanted(w.passes[s.who].env, w.passes[s.who].rules)
  {
    if s.Call? && s.who in w.passes && w.passes[s.who].next < |w.passes[s.who].rules| {
      OneOfWanted(w.passes[s.who].env, w.passes[s.who].rules, w.passes[s.who].next);
    }
  }

  ghost predicate Bystander(w: World, k: (string, string)) {
    forall i :: i in w.passes ==>
      k !in Wanted(w.passes[i].env, w.passes[i].rules) && k !in Reach(w.store, w.passes[i])
  }

  lemma BystanderStays(w: World, s: Step, k: (string, string))
    requires Bystander(w, k) && k in w.store
    ensures var t := Stepped(w, s); Bystander(t, k) && k in t.store && t.store[k] == w.store[k]
  {
    if s.who in w.passes && s.Call? {
      var p := w.passes[s.who];
      assert k !in Wanted(p.env, p.rules) && k !in Reach(w.store, p);
      if p.next < |p.rules| { OneOfWanted(p.env, p.rules, p.next); }
      CalledPasses(w, s.who, s.key, k);
    }
  }

  lemma CalledPasses(w: World, who: nat, key: (string, string), k: (string, string))
    requires who in w.passes && k in w.store
    requires var t := Called(w, who, key); k in t.store && t.store[k] == w.store[k]
    ensures var t := Called(w, who, key);
            && t.passes.Keys == w.passes.Keys
            && forall i :: i in t.passes ==>
                 && t.passes[i].env == w.passes[i].env && t.passes[i].rules == w.passes[i].rules
                 && (k in Reach(t.store, t.passes[i]) ==> k in Reach(w.store, w.passes[i]))
  {
  }

  /** What no pass wants and none may delete is left alone. */
  lemma {:induction false} BystandersStay(w: World, steps: seq<Step>, k: (string, string))
    requires Bystander(w, k) && k in w.store
    ensures var t := After(w, steps).store; k in t && t[k] == w.store[k]
    decreases |steps|
  {
    if steps != [] {
      BystanderStays(w, steps[0], k);
      BystandersStay(Stepped(w, steps[0]), steps[1..], k);
    }
  }

  function Two(s: Store, e: Env, a: seq<Body>, f: Env, b: seq<Body>): World {
    World(s, map[0 := Fresh(e, a), 1 := Fresh(f, b)])
  }

  ghost predicate BothDone(w: World) { w.passes.Keys == {0, 1} && Done(w.passes[0]) && Done(w.passes[1]) }

  /** No object of either's names bears the other's label. */
  ghost predicate LabelsAgree(s: Store, e: Env, a: seq<Body>, f: Env, b: seq<Body>) {
    Labelled(s, f) !! Wanted(e, a).Keys && Labelled(s, e) !! Wanted(f, b).Keys
  }

  ghost predicate Differs(s: Store, e: Env, a: seq<Body>, f: Env, b: seq<Body>, steps: seq<Step>) {
    var t := After(Two(s, e, a, f, b), steps);
    BothDone(t) && t.store != Reconciled(Reconciled(s, e, a), f, b)
  }

  /** Two passes interleaved call by call leave, whenever both complete, what one after the other leaves,
      just when no object of either's names bears the other's label. */
  lemma InterleavedIsSequentialIff(s: Store, e: Env, a: seq<Body>, f: Env, b: seq<Body>)
    requires Apart(e, f)
    ensures (exists steps :: Differs(s, e, a, f, b, steps)) <==> !LabelsAgree(s, e, a, f, b)
  {
    if LabelsAgree(s, e, a, f, b) {
      forall steps ensures !Differs(s, e, a, f, b, steps) {
        if BothDone(After(Two(s, e, a, f, b), steps)) { Interleaved(s, e, a, f, b, steps); }
      }
    } else {
      var steps := DifferentEnd(s, e, a, f, b);
    }
  }

  lemma {:induction false} RunKeepsPasses(w: World, steps: seq<Step>)
    ensures var t := After(w, steps);
            && t.passes.Keys <= w.passes.Keys
            && forall i :: i in t.passes ==> t.passes[i].env == w.passes[i].env && t.passes[i].rules == w.passes[i].rules
    decreases |steps|
  {
    if steps != [] {
      CallsWriteWanted(w, steps[0]);
      RunKeepsPasses(Stepped(w, steps[0]), steps[1..]);
    }
  }

  lemma AgreeingPairHolds(s: Store, e: Env, a: seq<Body>, f: Env, b: seq<Body>, i: nat)
    requires Apart(e, f) && LabelsAgree(s, e, a, f, b) && i < 2
    ensures Holding(Two(s, e, a, f, b), i)
  {
    assert a[..0] == [] && b[..0] == [];
    assert Reach(s, Fresh(f, b)) == Labelled(s, f) && Reach(s, Fresh(e, a)) == Labelled(s, e);
  }

  lemma BothStand(s: Store, e: Env, a: seq<Body>, f: Env, b: seq<Body>, steps: seq<Step>)
    requires Apart(e, f) && LabelsAgree(s, e, a, f, b) && BothDone(After(Two(s, e, a, f, b), steps))
    ensures var t := After(Two(s, e, a, f, b), steps); Stands(t.store, Fresh(e, a)) && Stands(t.store, Fresh(f, b))
  {
    var w := Two(s, e, a, f, b);
    var t := After(w, steps);
    RunKeepsPasses(w, steps);
    forall i: nat | i < 2 ensures Stands(t.store, t.passes[i]) {
      AgreeingPairHolds(s, e, a, f, b, i);
      RunHolds(w, i, steps);
      DoneStands(t.store, t.passes[i]);
    }
    assert Stands(t.store, t.passes[0]) && Stands(t.store, t.passes[1]);
  }

  lemma Interleaved(s: Store, e: Env, a: seq<Body>, f: Env, b: seq<Body>, steps: seq<Step>)
    requires Apart(e, f) && LabelsAgree(s, e, a, f, b) && BothDone(After(Two(s, e, a, f, b), steps))
    ensures After(Two(s, e, a, f, b), steps).store == Reconciled(Reconciled(s, e, a), f, b)
  {
    var w := Two(s, e, a, f, b);
    var t := After(w, steps);
    BothStand(s, e, a, f, b, steps);
    forall k | k !in Wanted(e, a) && k !in Wanted(f, b)
      ensures (k in t.store <==> k in s - Labelled(s, e) - Labelled(s, f)) && (k in t.store ==> t.store[k] == s[k])
    {
      UnwantedOnlyGoes(w, steps, k);
      if k in s - Labelled(s, e) - Labelled(s, f) { BystandersStay(w, steps, k); }
    }
    SequentialIs(s, e, a, f, b, t.store);
  }

  /** The store in which both stand and nothing else has changed but for what bore their labels. */
  lemma SequentialIs(s: Store, e: Env, a: seq<Body>, f: Env, b: seq<Body>, t: Store)
    requires Apart(e, f) && Stands(t, Fresh(e, a)) && Stands(t, Fresh(f, b))
    requires forall k :: k !in Wanted(e, a) && k !in Wanted(f, b) ==>
                           (k in t <==> k in s - Labelled(s, e) - Labelled(s, f)) && (k in t ==> t[k] == s[k])
    ensures t == Reconciled(Reconciled(s, e, a), f, b)
  {
    var v, w := Wanted(e, a), Wanted(f, b);
    forall k ensures !(k in v && k in w) { WantedDisjoint(e, f, k, a, b); }
    BothPasses(s, e, f, v, w);
    var rest := s - Labelled(s, e) - Labelled(s, f);
    assert v.Keys <= t.Keys by { assert Labelled(t, e) <= t.Keys; }
    assert w.Keys <= t.Keys by { assert Labelled(t, f) <= t.Keys; }
    assert t == rest + (v + w);
  }

  lemma DifferentEnd(s: Store, e: Env, a: seq<Body>, f: Env, b: seq<Body>) returns (steps: seq<Step>)
    requires Apart(e, f) && !LabelsAgree(s, e, a, f, b)
    ensures Differs(s, e, a, f, b, steps)
  {
    var w := Two(s, e, a, f, b);
    if k :| k in Labelled(s, f) && k in Wanted(e, a) {
      steps := ClashSpoils(w, 0, 1, k);
      WantedDisjoint(e, f, k, a, b);
    } else {
      var k :| k in Labelled(s, e) && k in Wanted(f, b);
      steps := ClashSpoils(w, 1, 0, k);
    }
    RunKeepsPasses(w, steps);
  }
}
