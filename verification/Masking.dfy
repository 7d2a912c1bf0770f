/** Resolving presets, extras and overrides into what is masked and what is truncated, and the
    configuration the masking engine is given. */
module Masking {
  import opened Presets
  import opened Sorting
  import opened Wrappers

  // ------------------------------------------------------------------ truncation

  /** What add() lets through of a list: no kept table, no forbidden one, each once. */
  function Allowed(tables: seq<string>, keep: set<string>, never: set<string>): seq<string> {
    if tables == [] then []
    else
      var before, t := Allowed(tables[..|tables| - 1], keep, never), tables[|tables| - 1];
      if t in keep || t in never || t in before then before else before + [t]
  }

  /** Preset plus extra, minus keep, minus the tables that are never emptied. */
  method TablesToTruncate(preset: Option<bool>, extra: seq<string>, keep: seq<string>) returns (out: seq<string>)
    ensures Distinct(out)
    ensures forall t :: t in out <==>
              (t in extra || (preset == Some(true) && t in TRUNCATE_PRESET)) && t !in keep && t !in TRUNCATE_NEVER
    ensures out == Allowed((if preset == Some(true) then TRUNCATE_PRESET else []) + extra, Elements(keep), TRUNCATE_NEVER)
  {
    var asked := (if preset == Some(true) then TRUNCATE_PRESET else []) + extra;
    out := ResolveTables(asked, keep, TRUNCATE_NEVER);
    AllowedMembers(asked, Elements(keep), TRUNCATE_NEVER);
  }

  method ResolveTables(asked: seq<string>, keep: seq<string>, never: set<string>) returns (out: seq<string>)
    ensures out == Allowed(asked, Elements(keep), never)
  {
    var kept: set<string> := {};
    for i := 0 to |keep|
      invariant forall k :: k in kept <==> exists j :: 0 <= j < i && keep[j] == k
    {
      kept := kept + {keep[i]};
    }
    assert kept == Elements(keep);
    var seen: set<string> := {};
    out := [];
    for i := 0 to |asked|
      invariant out == Allowed(asked[..i], kept, never) && (forall t :: t in seen <==> t in out)
    {
      assert asked[..i + 1][..i] == asked[..i];
      var t := asked[i];
      if t !in kept && t !in seen && t !in never {
        seen := seen + {t};
        out := out + [t];
      }
    }
    assert asked[..|asked|] == asked;
  }

  lemma {:induction false} AllowedMembers(tables: seq<string>, keep: set<string>, never: set<string>)
    ensures var out := Allowed(tables, keep, never);
            Distinct(out) && forall t :: t in out <==> t in tables && t !in keep && t !in never
  {
    if tables != [] {
      AllowedMembers(tables[..|tables| - 1], keep, never);
      assert tables == tables[..|tables| - 1] + [tables[|tables| - 1]];
    }
  }

  // ------------------------------------------------------------------ mask rules

  function Key(r: MaskRule): string { r.table + "." + r.column }

  function FindKey(rules: seq<MaskRule>, k: string): (i: Option<nat>)
    ensures i.Some? ==> i.value < |rules| && Key(rules[i.value]) == k
    ensures i.None? ==> forall j :: 0 <= j < |rules| ==> Key(rules[j]) != k
  {
    if rules == [] then None
    else
      var i := FindKey(rules[..|rules| - 1], k);
      if i.Some? then i
      else if Key(rules[|rules| - 1]) == k then Some(|rules| - 1)
      else None
  }

  /** put(): a rule with a key already there takes its place, any other goes at the end. */
  function Put(out: seq<MaskRule>, r: MaskRule): seq<MaskRule> {
    var i := FindKey(out, Key(r));
    if i.Some? then out[i.value := r] else out + [r]
  }

  function Folded(rules: seq<MaskRule>): seq<MaskRule> {
    if rules == [] then [] else Put(Folded(rules[..|rules| - 1]), rules[|rules| - 1])
  }

  /** Preset, logins and the user's own rules, in the order they are put. */
  function Given(preset: Option<bool>, logins: Option<bool>, rules: seq<MaskRule>): seq<MaskRule> {
    (if preset == Some(false) then [] else MASK_PRESET + if logins == Some(true) then MASK_USER_LOGINS else [])
    + rules
  }

  lemma FoldedOneMore(given: seq<MaskRule>, r: MaskRule)
    ensures Folded(given + [r]) == Put(Folded(given), r)
  {
    assert (given + [r])[..|given|] == given;
  }

  lemma NextGiven(before: seq<MaskRule>, rules: seq<MaskRule>, i: nat)
    requires i < |rules|
    ensures before + rules[..i + 1] == (before + rules[..i]) + [rules[i]]
  {
  }

  /** The two variables the put closure shares with the loops. */
  class RuleList {
    var out: seq<MaskRule>
    var idx: map<string, nat>

    ghost predicate Valid() reads this {
      && (forall k :: k in idx ==> idx[k] < |out| && Key(out[idx[k]]) == k)
      && (forall i :: 0 <= i < |out| ==> Key(out[i]) in idx && idx[Key(out[i])] == i)
    }

    constructor ()
      ensures Valid() && out == []
    {
      out, idx := [], map[];
    }

    method PutRule(r: MaskRule)
      requires Valid()
      modifies this
      ensures Valid() && out == Put(old(out), r)
    {
      var k := Key(r);
      if k in idx {
        var i := idx[k];
        assert FindKey(out, k) == Some(i);
        out := out[i := r];
      } else {
        assert FindKey(out, k).None?;
        idx := idx[k := |out|];
        out := out + [r];
      }
    }

    method PutAll(rules: seq<MaskRule>, ghost before: seq<MaskRule>)
      requires Valid() && out == Folded(before)
      modifies this
      ensures Valid() && out == Folded(before + rules)
    {
      assert before + rules[..0] == before;
      for i := 0 to |rules|
        invariant Valid() && out == Folded(before + rules[..i])
      {
        NextGiven(before, rules, i);
        FoldedOneMore(before + rules[..i], rules[i]);
        PutRule(rules[i]);
      }
      assert rules[..|rules|] == rules;
    }
  }

  /** Resolves preset, logins and user-supplied rules. */
  method RulesToApply(preset: Option<bool>, logins: Option<bool>, rules: seq<MaskRule>) returns (out: seq<MaskRule>)
    ensures out == Folded(Given(preset, logins, rules))
    ensures Resolves(preset, logins, rules, out)
  {
    FoldResolves(preset, logins, rules);
    out := ResolveRules(preset, MASK_PRESET, logins, MASK_USER_LOGINS, rules);
  }

  method ResolveRules(
    preset: Option<bool>, presetRules: seq<MaskRule>, logins: Option<bool>, loginRules: seq<MaskRule>,
    rules: seq<MaskRule>) returns (out: seq<MaskRule>)
    ensures out == Folded(
      (if preset == Some(false) then [] else presetRules + if logins == Some(true) then loginRules else []) + rules)
  {
    var list := new RuleList();
    ghost var before: seq<MaskRule> := [];
    if preset != Some(false) {
      list.PutAll(presetRules, before);
      assert [] + presetRules == presetRules == presetRules + [];
      before := presetRules;
      if logins == Some(true) {
        list.PutAll(loginRules, before);
        before := presetRules + loginRules;
      }
    }
    list.PutAll(rules, before);
    out := list.out;
  }

  // ------------------------------------------------------------------ what the fold means

  /** The last rule of a list with key k. */
  function Last(rules: seq<MaskRule>, k: string): (r: Option<MaskRule>)
    ensures r.Some? ==> r.value in rules && Key(r.value) == k
    ensures r.None? <==> forall j :: 0 <= j < |rules| ==> Key(rules[j]) != k
  {
    if rules == [] then None
    else if Key(rules[|rules| - 1]) == k then Some(rules[|rules| - 1])
    else Last(rules[..|rules| - 1], k)
  }

  /** Where key k first appears, or the length of the list. */
  function First(rules: seq<MaskRule>, k: string): (i: nat)
    ensures i <= |rules|
    ensures i < |rules| ==> Key(rules[i]) == k
    ensures forall j :: 0 <= j < i ==> Key(rules[j]) != k
  {
    if rules == [] then 0
    else
      var i := First(rules[..|rules| - 1], k);
      if i < |rules| - 1 || Key(rules[|rules| - 1]) == k then i else |rules|
  }

  /** Unique keys; exactly the keys given; each with the last rule given for it. */
  ghost predicate LastWriterWins(given: seq<MaskRule>, out: seq<MaskRule>) {
    && (forall i, j :: 0 <= i < j < |out| ==> Key(out[i]) != Key(out[j]))
    && (forall i :: 0 <= i < |out| ==> Last(given, Key(out[i])) == Some(out[i]))
    && (forall j :: 0 <= j < |given| ==> exists i :: 0 <= i < |out| && Key(out[i]) == Key(given[j]))
  }

  /** Keys come out in the order in which they were first given. */
  ghost predicate FirstGivenFirst(given: seq<MaskRule>, out: seq<MaskRule>) {
    forall i, j :: 0 <= i < j < |out| ==> First(given, Key(out[i])) < First(given, Key(out[j])) < |given|
  }

  ghost predicate Covers(given: seq<MaskRule>, out: seq<MaskRule>) {
    forall j {:trigger FindKey(out, Key(given[j]))} :: 0 <= j < |given| ==> FindKey(out, Key(given[j])).Some?
  }

  ghost predicate UniqueKeys(out: seq<MaskRule>) {
    forall i, j :: 0 <= i < j < |out| ==> Key(out[i]) != Key(out[j])
  }

  ghost predicate LastOfEach(given: seq<MaskRule>, out: seq<MaskRule>) {
    forall i {:trigger Last(given, Key(out[i]))} :: 0 <= i < |out| ==> Last(given, Key(out[i])) == Some(out[i])
  }

  lemma FindKeyFinds(out: seq<MaskRule>, i: nat)
    requires i < |out|
    ensures FindKey(out, Key(out[i])).Some?
  {
  }

  lemma PutKeepsCover(given: seq<MaskRule>, out: seq<MaskRule>, r: MaskRule)
    requires Covers(given, out)
    ensures Covers(given + [r], Put(out, r))
  {
    var t := Put(out, r);
    forall j | 0 <= j < |given + [r]| ensures FindKey(t, Key((given + [r])[j])).Some? {
      if j < |given| {
        var i := FindKey(out, Key(given[j])).value;
        assert Key(t[i]) == Key(given[j]);
        FindKeyFinds(t, i);
      } else {
        var at := FindKey(out, Key(r));
        FindKeyFinds(t, if at.Some? then at.value else |out|);
      }
    }
  }

  lemma PutKeepsLast(given: seq<MaskRule>, out: seq<MaskRule>, r: MaskRule)
    requires UniqueKeys(out) && LastOfEach(given, out)
    ensures UniqueKeys(Put(out, r)) && LastOfEach(given + [r], Put(out, r))
  {
    var t, at := Put(out, r), FindKey(out, Key(r));
    assert (given + [r])[..|given|] == given;
    forall i | 0 <= i < |t| ensures Last(given + [r], Key(t[i])) == Some(t[i]) {
      if i < |out| && Key(out[i]) == Key(r) { assert at == Some(i); }
    }
  }

  /** What every put preserves. */
  ghost predicate FoldOk(given: seq<MaskRule>, out: seq<MaskRule>) {
    UniqueKeys(out) && LastOfEach(given, out) && Covers(given, out) && FirstGivenFirst(given, out)
  }

  lemma PutKeepsFoldOk(given: seq<MaskRule>, out: seq<MaskRule>, r: MaskRule)
    requires FoldOk(given, out)
    ensures FoldOk(given + [r], Put(out, r))
  {
    PutKeepsCover(given, out, r);
    PutKeepsLast(given, out, r);
    PutKeepsOrder(given, out, r);
  }

  lemma FoldOkGrows(given: seq<MaskRule>, r: MaskRule)
    requires FoldOk(given, Folded(given))
    ensures FoldOk(given + [r], Folded(given + [r]))
  {
    PutKeepsFoldOk(given, Folded(given), r);
  }

  lemma {:induction false} FoldInvariant(rules: seq<MaskRule>)
    ensures FoldOk(rules, Folded(rules))
  {
    if rules != [] {
      var given, r := rules[..|rules| - 1], rules[|rules| - 1];
      assert given + [r] == rules;
      FoldInvariant(given);
      FoldOkGrows(given, r);
    }
  }

  /** The resolved rules are a last-writer-wins map from columns to rules. */
  lemma FoldIsLastWriterWins(rules: seq<MaskRule>)
    ensures LastWriterWins(rules, Folded(rules))
  {
    FoldInvariant(rules);
    var out := Folded(rules);
    forall j | 0 <= j < |rules| ensures exists i :: 0 <= i < |out| && Key(out[i]) == Key(rules[j]) {
      var i := FindKey(out, Key(rules[j])).value;
      assert Key(out[i]) == Key(rules[j]);
    }
  }

  lemma PutKeepsOrder(given: seq<MaskRule>, out: seq<MaskRule>, r: MaskRule)
    requires FirstGivenFirst(given, out) && LastOfEach(given, out) && Covers(given, out)
    ensures FirstGivenFirst(given + [r], Put(out, r))
  {
    var t := Put(out, r);
    forall i, j | 0 <= i < j < |t|
      ensures First(given + [r], Key(t[i])) < First(given + [r], Key(t[j])) < |given + [r]|
    {
      PlaceOf(given, out, r, i);
      PlaceOf(given, out, r, j);
    }
  }

  lemma PutAt(out: seq<MaskRule>, r: MaskRule, i: nat)
    requires i < |Put(out, r)|
    ensures i < |out| ==> Key(Put(out, r)[i]) == Key(out[i])
    ensures i >= |out| ==> i == |out| && Put(out, r)[i] == r && FindKey(out, Key(r)).None?
  {
  }

  lemma NotGivenBefore(given: seq<MaskRule>, out: seq<MaskRule>, r: MaskRule)
    requires Covers(given, out) && FindKey(out, Key(r)).None?
    ensures First(given, Key(r)) == |given|
  {
  }

  /** Where the key at position i was first given, after one more put. */
  lemma PlaceOf(given: seq<MaskRule>, out: seq<MaskRule>, r: MaskRule, i: nat)
    requires LastOfEach(given, out) && Covers(given, out) && i < |Put(out, r)|
    ensures First(given + [r], Key(Put(out, r)[i])) == if i < |out| then First(given, Key(out[i])) else |given|
    ensures i < |out| ==> First(given, Key(out[i])) < |given|
  {
    PutAt(out, r, i);
    if i < |out| {
      assert Last(given, Key(out[i])).Some?;
    } else {
      NotGivenBefore(given, out, r);
    }
  }

  /** A column keeps the place where it was first given, however often it is overridden. */
  lemma FoldKeepsFirstOrder(rules: seq<MaskRule>)
    ensures FirstGivenFirst(rules, Folded(rules))
  {
    FoldInvariant(rules);
  }

  /** Which rule a column is resolved to: the user's own, the last if there are several; otherwise, unless
      the preset is off, that of the logins when they are to be masked; otherwise the preset's. */
  function RuleFor(preset: Option<bool>, logins: Option<bool>, rules: seq<MaskRule>, k: string): Option<MaskRule> {
    if Last(rules, k).Some? then Last(rules, k)
    else if preset == Some(false) then None
    else if logins == Some(true) && Last(MASK_USER_LOGINS, k).Some? then Last(MASK_USER_LOGINS, k)
    else Last(MASK_PRESET, k)
  }

  lemma {:induction false} LastOfTwo(a: seq<MaskRule>, b: seq<MaskRule>, k: string)
    ensures Last(a + b, k) == if Last(b, k).Some? then Last(b, k) else Last(a, k)
    decreases |b|
  {
    if b == [] {
      assert a + b == a;
    } else {
      assert (a + b)[..|a + b| - 1] == a + b[..|b| - 1];
      LastOfTwo(a, b[..|b| - 1], k);
    }
  }

  lemma LastGiven(preset: Option<bool>, logins: Option<bool>, rules: seq<MaskRule>, k: string)
    ensures Last(Given(preset, logins, rules), k) == RuleFor(preset, logins, rules, k)
  {
    var extra := if logins == Some(true) then MASK_USER_LOGINS else [];
    LastOfTwo(if preset == Some(false) then [] else MASK_PRESET + extra, rules, k);
    LastOfTwo(MASK_PRESET, extra, k);
  }

  /** The answer resolves every column once: to the user's rule when there is one, whatever the presets
      say of the column. */
  ghost predicate Resolves(preset: Option<bool>, logins: Option<bool>, rules: seq<MaskRule>, out: seq<MaskRule>) {
    && UniqueKeys(out)
    && (forall i :: 0 <= i < |out| ==> RuleFor(preset, logins, rules, Key(out[i])) == Some(out[i]))
    && forall k :: RuleFor(preset, logins, rules, k).Some? ==> RuleFor(preset, logins, rules, k).value in out
  }

  lemma FoldResolves(preset: Option<bool>, logins: Option<bool>, rules: seq<MaskRule>)
    ensures Resolves(preset, logins, rules, Folded(Given(preset, logins, rules)))
  {
    var given := Given(preset, logins, rules);
    var out := Folded(given);
    FoldInvariant(given);
    forall i | 0 <= i < |out| ensures RuleFor(preset, logins, rules, Key(out[i])) == Some(out[i]) {
      LastGiven(preset, logins, rules, Key(out[i]));
      assert Last(given, Key(out[i])) == Some(out[i]);
    }
    forall k | RuleFor(preset, logins, rules, k).Some? ensures RuleFor(preset, logins, rules, k).value in out {
      LastGiven(preset, logins, rules, k);
      var j :| 0 <= j < |given| && given[j] == Last(given, k).value;
      var i := FindKey(out, Key(given[j])).value;
      assert Last(given, Key(out[i])) == Some(out[i]);
    }
  }

  // ------------------------------------------------------------------ what a key names

  /** One name goes on from the other with a dot. */
  predicate RunsInto(t: string, u: string) { t + "." <= u }

  lemma SameKeySplits(r: MaskRule, s: MaskRule)
    requires Key(r) == Key(s)
    ensures |r.table| < |s.table| ==> RunsInto(r.table, s.table)
    ensures |r.table| == |s.table| ==> r.table == s.table && r.column == s.column
  {
    var k := Key(r);
    assert k[..|r.table|] == r.table && k[..|s.table|] == s.table;
    assert k[|r.table| + 1..] == r.column && k[|s.table| + 1..] == s.column;
    if |r.table| < |s.table| { assert k[..|r.table| + 1] == r.table + "." && k[..|r.table| + 1] <= s.table; }
  }

  lemma RunningIntoCollides(t: string, u: string, kind: MaskKind)
    requires RunsInto(t, u)
    ensures Key(Rule(t, u[|t| + 1..] + ".x", kind)) == Key(Rule(u, "x", kind))
  {
    assert u == t + "." + u[|t| + 1..];
  }

  /** Columns of two tables can share a key just when one table's name goes on from the other's with
      a dot. The columns need not be empty. */
  lemma TablesShareKeysIff(t: string, u: string, kind: MaskKind)
    requires t != u
    ensures (exists c, d :: c != "" && d != "" && Key(Rule(t, c, kind)) == Key(Rule(u, d, kind))) <==>
            RunsInto(t, u) || RunsInto(u, t)
  {
    if c, d :| c != "" && d != "" && Key(Rule(t, c, kind)) == Key(Rule(u, d, kind)) {
      SameKeySplits(Rule(t, c, kind), Rule(u, d, kind));
      SameKeySplits(Rule(u, d, kind), Rule(t, c, kind));
    }
    if RunsInto(t, u) { RunningIntoCollides(t, u, kind); }
    if RunsInto(u, t) { RunningIntoCollides(u, t, kind); }
  }

  /** So a key names one column of one table, whatever the columns, just when no name of the tables in
      use goes on from another's with a dot. */
  lemma KeyNamesColumn(tables: set<string>, kind: MaskKind)
    ensures (forall t, u, c, d | t in tables && u in tables && c != "" && d != "" ::
               Key(Rule(t, c, kind)) == Key(Rule(u, d, kind)) ==> (t == u && c == d)) <==>
            (forall t, u | t in tables && u in tables :: !RunsInto(t, u))
  {
    forall t, u, c, d | Key(Rule(t, c, kind)) == Key(Rule(u, d, kind))
      ensures (t == u && c == d) || RunsInto(t, u) || RunsInto(u, t)
    {
      SameKeySplits(Rule(t, c, kind), Rule(u, d, kind));
      SameKeySplits(Rule(u, d, kind), Rule(t, c, kind));
    }
    forall t, u | RunsInto(t, u)
      ensures exists c, d :: c != "" && d != "" && Key(Rule(t, c, kind)) == Key(Rule(u, d, kind))
    {
      TablesShareKeysIff(t, u, kind);
    }
  }

  lemma DottedTablesCollide(kind: MaskKind)
    ensures Key(Rule("a.b", "c", kind)) == Key(Rule("a", "b.c", kind))
  {
    assert "a.b" + "." + "c" == "a.b.c" == "a" + "." + "b.c";
  }
}
