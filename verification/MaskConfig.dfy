/** The masking engine's configuration: rules regrouped by table, and the subset root. */
module MaskConfig {
  import opened Presets
  import opened Sorting
  import opened SqlText
  import opened Wrappers

  /** One entry of the transformation list. `condition` is the text of subset_conds. */
  datatype Section = Section(table: string, condition: Option<string>, rules: seq<MaskRule>)

  const ROOT: string := "res_company"

  /** The rules of one table, in order. */
  function OfTable(rules: seq<MaskRule>, t: string): (r: seq<MaskRule>)
    ensures forall i :: 0 <= i < |r| ==> r[i].table == t
  {
    if rules == [] then []
    else OfTable(rules[..|rules| - 1], t) + if rules[|rules| - 1].table == t then [rules[|rules| - 1]] else []
  }

  ghost function Tables(rules: seq<MaskRule>): set<string> { set r | r in rules :: r.table }

  ghost predicate HasSection(out: seq<Section>, t: string) {
    exists i :: 0 <= i < |out| && out[i].table == t
  }

  ghost predicate TablesApart(out: seq<Section>) {
    forall i, j :: 0 <= i < j < |out| ==> out[i].table != out[j].table
  }

  ghost predicate OwnRules(rules: seq<MaskRule>, out: seq<Section>) {
    forall i :: 0 <= i < |out| ==> out[i].rules == OfTable(rules, out[i].table)
  }

  /** The sections after the root: no condition, strictly by name, of tables that have rules. */
  ghost predicate PlainByName(rules: seq<MaskRule>, out: seq<Section>) {
    && (forall i :: 0 <= i < |out| ==> out[i].condition.None? && out[i].table in Tables(rules))
    && (forall i, j :: 0 <= i < j < |out| ==> StringLess(out[i].table, out[j].table))
  }

  /** Every table once, each with exactly its own rules in order; the root first, with the subset
      condition, when companies are named; the rest by name. */
  ghost predicate Regroups(rules: seq<MaskRule>, companies: seq<string>, out: seq<Section>) {
    && TablesApart(out) && OwnRules(rules, out)
    && (forall t :: t in Tables(rules) ==> HasSection(out, t))
    && if companies == [] then PlainByName(rules, out)
       else
         && out != [] && out[0].table == "res_company"
         && out[0].condition == Some("res_company.name IN " + InList(companies))
         && PlainByName(rules, out[1..])
  }

  /** The map the first loop fills: every table named, with its rules in order. */
  ghost predicate Grouped(rules: seq<MaskRule>, byTable: map<string, seq<MaskRule>>) {
    && byTable.Keys == Tables(rules)
    && forall t :: t in byTable ==> byTable[t] == OfTable(rules, t)
  }

  lemma GroupedStep(rules: seq<MaskRule>, byTable: map<string, seq<MaskRule>>, r: MaskRule)
    requires Grouped(rules, byTable)
    ensures Grouped(rules + [r], byTable[r.table := (if r.table in byTable then byTable[r.table] else []) + [r]])
  {
    var more := rules + [r];
    assert more[..|rules|] == rules;
    if r.table !in byTable { NoneOfTable(rules, r.table); }
    assert Tables(more) == Tables(rules) + {r.table} by {
      assert forall x :: x in more <==> x in rules || x == r;
    }
  }

  lemma {:induction false} NoneOfTable(rules: seq<MaskRule>, t: string)
    requires t !in Tables(rules)
    ensures OfTable(rules, t) == []
  {
    if rules != [] {
      var n := |rules| - 1;
      assert rules[n] in rules;
      assert forall r :: r in rules[..n] ==> r in rules;
      NoneOfTable(rules[..n], t);
    }
  }

  method GroupByTable(rules: seq<MaskRule>) returns (byTable: map<string, seq<MaskRule>>)
    ensures Grouped(rules, byTable)
  {
    byTable := map[];
    for i := 0 to |rules|
      invariant Grouped(rules[..i], byTable)
    {
      GroupedStep(rules[..i], byTable, rules[i]);
      assert rules[..i + 1] == rules[..i] + [rules[i]];
      var t := rules[i].table;
      byTable := byTable[t := (if t in byTable then byTable[t] else []) + [rules[i]]];
    }
    assert rules[..|rules|] == rules;
  }

  /** The sections of a list of tables, leaving out the root when it has been emitted already. */
  function Plain(rules: seq<MaskRule>, tables: seq<string>, skipRoot: bool): seq<Section> {
    if tables == [] then []
    else
      var t := tables[|tables| - 1];
      Plain(rules, tables[..|tables| - 1], skipRoot)
      + if skipRoot && t == ROOT then [] else [Section(t, None, OfTable(rules, t))]
  }

  function RootSection(rules: seq<MaskRule>, companies: seq<string>): Section {
    Section(ROOT, Some("res_company.name IN " + InList(companies)), OfTable(rules, ROOT))
  }

  /** Regroups the resolved rules for the engine. */
  method GreenmaskConfig(rules: seq<MaskRule>, companies: seq<string>) returns (out: seq<Section>)
    ensures Regroups(rules, companies, out)
  {
    var byTable := GroupByTable(rules);
    var tables := SortedNames(byTable.Keys);
    out := [];
    if |companies| > 0 {
      var text := SubsetCondition(companies);
      if ROOT !in byTable { NoneOfTable(rules, ROOT); }
      out := [Section(ROOT, Some(text), if ROOT in byTable then byTable[ROOT] else [])];
      assert out == [RootSection(rules, companies)];
    }
    out := EmitTables(rules, byTable, tables, |companies| > 0, out);
    PlainRegroups(rules, tables, companies);
  }

  method EmitTables(
    ghost rules: seq<MaskRule>, byTable: map<string, seq<MaskRule>>, tables: seq<string>, rootDone: bool,
    start: seq<Section>) returns (out: seq<Section>)
    requires Grouped(rules, byTable) && Elements(tables) == byTable.Keys
    ensures out == start + Plain(rules, tables, rootDone)
  {
    out := start;
    for i := 0 to |tables|
      invariant out == start + Plain(rules, tables[..i], rootDone)
    {
      assert tables[..i + 1][..i] == tables[..i];
      var t := tables[i];
      assert t in Elements(tables);
      if !(rootDone && t == ROOT) {
        out := out + [Section(t, None, byTable[t])];
      }
    }
    assert tables[..|tables|] == tables;
  }

  lemma {:induction false} PlainSections(rules: seq<MaskRule>, tables: seq<string>, skipRoot: bool)
    requires forall i, j :: 0 <= i < j < |tables| ==> StringLess(tables[i], tables[j])
    ensures var out := Plain(rules, tables, skipRoot);
            && OwnRules(rules, out)
            && (forall i :: 0 <= i < |out| ==>
                  out[i].condition.None? && out[i].table in tables && !(skipRoot && out[i].table == ROOT))
            && (forall i, j :: 0 <= i < j < |out| ==> StringLess(out[i].table, out[j].table))
  {
    if tables != [] {
      var rest, t := tables[..|tables| - 1], tables[|tables| - 1];
      PlainSections(rules, rest, skipRoot);
      var before, out := Plain(rules, rest, skipRoot), Plain(rules, tables, skipRoot);
      assert forall u :: u in rest ==> u in tables && StringLess(u, t);
      if skipRoot && t == ROOT {
        assert out == before;
      } else {
        assert out == before + [Section(t, None, OfTable(rules, t))];
      }
    }
  }

  lemma {:induction false} PlainHas(rules: seq<MaskRule>, tables: seq<string>, skipRoot: bool, t: string)
    requires t in tables && !(skipRoot && t == ROOT)
    ensures HasSection(Plain(rules, tables, skipRoot), t)
  {
    var n := |tables| - 1;
    var out := Plain(rules, tables, skipRoot);
    if t == tables[n] {
      assert out[|out| - 1].table == t;
    } else {
      PlainHas(rules, tables[..n], skipRoot, t);
      var i :| 0 <= i < |Plain(rules, tables[..n], skipRoot)| && Plain(rules, tables[..n], skipRoot)[i].table == t;
      assert out[i].table == t;
    }
  }

  lemma PlainRegroups(rules: seq<MaskRule>, tables: seq<string>, companies: seq<string>)
    requires Elements(tables) == Tables(rules)
    requires forall i, j :: 0 <= i < j < |tables| ==> StringLess(tables[i], tables[j])
    ensures var root := if |companies| > 0 then [RootSection(rules, companies)] else [];
            Regroups(rules, companies, root + Plain(rules, tables, |companies| > 0))
  {
    var skip, root := |companies| > 0, RootSection(rules, companies);
    var plain := Plain(rules, tables, skip);
    PlainSections(rules, tables, skip);
    PlainIsByName(rules, tables, plain);
    forall t | t in Tables(rules) ensures HasSection((if skip then [root] else []) + plain, t) {
      assert t in Elements(tables);
      EveryTableHasOne(rules, tables, skip, t, root);
    }
    SectionsRegroup(rules, companies, plain);
  }

  lemma SectionsRegroup(rules: seq<MaskRule>, companies: seq<string>, plain: seq<Section>)
    requires PlainByName(rules, plain) && TablesApart(plain) && OwnRules(rules, plain)
    requires |companies| > 0 ==> forall i :: 0 <= i < |plain| ==> plain[i].table != ROOT
    requires var out := (if |companies| > 0 then [RootSection(rules, companies)] else []) + plain;
             forall t :: t in Tables(rules) ==> HasSection(out, t)
    ensures Regroups(rules, companies, (if |companies| > 0 then [RootSection(rules, companies)] else []) + plain)
  {
    if |companies| > 0 {
      var root := RootSection(rules, companies);
      RootFirst(rules, plain, root);
      assert ([root] + plain)[1..] == plain;
    } else {
      assert [] + plain == plain;
    }
  }

  lemma EveryTableHasOne(rules: seq<MaskRule>, tables: seq<string>, skip: bool, t: string, root: Section)
    requires t in tables && root.table == ROOT
    ensures HasSection((if skip then [root] else []) + Plain(rules, tables, skip), t)
  {
    if !skip {
      PlainHas(rules, tables, skip, t);
      assert [] + Plain(rules, tables, skip) == Plain(rules, tables, skip);
    } else if t == ROOT {
      assert ([root] + Plain(rules, tables, skip))[0].table == t;
    } else {
      HasThroughRoot(rules, tables, t, root);
    }
  }

  lemma PlainIsByName(rules: seq<MaskRule>, tables: seq<string>, plain: seq<Section>)
    requires Elements(tables) == Tables(rules)
    requires forall i :: 0 <= i < |plain| ==> plain[i].condition.None? && plain[i].table in tables
    requires forall i, j :: 0 <= i < j < |plain| ==> StringLess(plain[i].table, plain[j].table)
    ensures PlainByName(rules, plain) && TablesApart(plain)
  {
    forall i | 0 <= i < |plain| ensures plain[i].table in Tables(rules) { assert plain[i].table in Elements(tables); }
    forall i, j | 0 <= i < j < |plain| ensures plain[i].table != plain[j].table {
      StringLessTotal(plain[i].table, plain[j].table);
    }
  }

  lemma RootFirst(rules: seq<MaskRule>, plain: seq<Section>, root: Section)
    requires TablesApart(plain) && OwnRules(rules, plain) && OwnRules(rules, [root])
    requires forall i :: 0 <= i < |plain| ==> plain[i].table != root.table
    ensures TablesApart([root] + plain) && OwnRules(rules, [root] + plain)
  {
    assert [root][0] == root;
  }

  lemma HasThroughRoot(rules: seq<MaskRule>, tables: seq<string>, t: string, root: Section)
    requires t in tables && t != ROOT
    ensures HasSection([root] + Plain(rules, tables, true), t)
  {
    PlainHas(rules, tables, true, t);
    var plain := Plain(rules, tables, true);
    var i :| 0 <= i < |plain| && plain[i].table == t;
    assert ([root] + plain)[i + 1].table == t;
  }

  // ------------------------------------------------------------------ conservation

  function AllRules(out: seq<Section>): seq<MaskRule> {
    if out == [] then [] else out[0].rules + AllRules(out[1..])
  }

  function Except(rules: seq<MaskRule>, t: string): seq<MaskRule> {
    if rules == [] then []
    else Except(rules[..|rules| - 1], t) + if rules[|rules| - 1].table == t then [] else [rules[|rules| - 1]]
  }

  lemma {:induction false} SplitByTable(rules: seq<MaskRule>, t: string)
    ensures multiset(OfTable(rules, t)) + multiset(Except(rules, t)) == multiset(rules)
  {
    if rules != [] {
      var rest, r := rules[..|rules| - 1], rules[|rules| - 1];
      SplitByTable(rest, t);
      assert rules == rest + [r];
      OneMoreOfEither(OfTable(rest, t), Except(rest, t), rest, r);
      if r.table == t {
        assert OfTable(rules, t) == OfTable(rest, t) + [r] && Except(rules, t) == Except(rest, t);
      } else {
        assert OfTable(rules, t) == OfTable(rest, t) && Except(rules, t) == Except(rest, t) + [r];
      }
    }
  }

  lemma {:induction false} OthersUnaffected(rules: seq<MaskRule>, t: string, u: string)
    requires u != t
    ensures OfTable(Except(rules, t), u) == OfTable(rules, u)
  {
    if rules != [] {
      var n := |rules| - 1;
      OthersUnaffected(rules[..n], t, u);
      if rules[n].table == t {
        assert Except(rules, t) == Except(rules[..n], t);
        assert OfTable(rules, u) == OfTable(rules[..n], u);
      } else {
        assert Except(rules, t)[..|Except(rules, t)| - 1] == Except(rules[..n], t);
      }
    }
  }

  lemma {:induction false} ExceptMembers(rules: seq<MaskRule>, t: string)
    ensures forall r :: r in Except(rules, t) <==> r in rules && r.table != t
  {
    if rules != [] {
      ExceptMembers(rules[..|rules| - 1], t);
      assert rules == rules[..|rules| - 1] + [rules[|rules| - 1]];
    }
  }

  ghost predicate AllHaveSections(rules: seq<MaskRule>, out: seq<Section>) {
    forall r :: r in rules ==> HasSection(out, r.table)
  }

  /** Every rule is emitted exactly once, under its own table, with or without the subset root. */
  lemma {:induction false} EveryRuleOnce(rules: seq<MaskRule>, out: seq<Section>)
    requires TablesApart(out) && OwnRules(rules, out) && AllHaveSections(rules, out)
    ensures multiset(AllRules(out)) == multiset(rules)
    decreases |out|
  {
    if out == [] {
      assert forall r :: r in rules ==> HasSection(out, r.table);
      assert |rules| > 0 ==> rules[0] in rules;
    } else {
      var t, rest := out[0].table, out[1..];
      var others := Except(rules, t);
      SplitByTable(rules, t);
      RestHasSections(rules, out);
      RestOwnsRules(rules, out);
      EveryRuleOnce(others, rest);
    }
  }

  lemma RestHasSections(rules: seq<MaskRule>, out: seq<Section>)
    requires out != [] && AllHaveSections(rules, out)
    ensures AllHaveSections(Except(rules, out[0].table), out[1..])
  {
    ExceptMembers(rules, out[0].table);
    forall r | r in Except(rules, out[0].table) ensures HasSection(out[1..], r.table) {
      var i :| 0 <= i < |out| && out[i].table == r.table;
      assert out[1..][i - 1].table == r.table;
    }
  }

  lemma RestOwnsRules(rules: seq<MaskRule>, out: seq<Section>)
    requires out != [] && TablesApart(out) && OwnRules(rules, out)
    ensures OwnRules(Except(rules, out[0].table), out[1..])
  {
    forall i | 0 <= i < |out[1..]| ensures out[1..][i].rules == OfTable(Except(rules, out[0].table), out[1..][i].table) {
      assert out[1..][i] == out[i + 1];
      OthersUnaffected(rules, out[0].table, out[i + 1].table);
    }
  }

  /** The configuration conserves the resolved rules. */
  lemma ConfigConservesRules(rules: seq<MaskRule>, companies: seq<string>, out: seq<Section>)
    requires Regroups(rules, companies, out)
    ensures multiset(AllRules(out)) == multiset(rules)
  {
    forall r | r in rules ensures HasSection(out, r.table) {
      assert r.table in Tables(rules);
    }
    EveryRuleOnce(rules, out);
  }

  // ------------------------------------------------------------------ the SQL engine

  /** The literal a Fixed rule writes into its UPDATE, read back where it stands. */
  function FixedUpdate(r: MaskRule): string {
    "UPDATE " + r.table + " SET " + r.column + " = " + (Quoted(r.value) + (" WHERE " + r.column + " IS NOT NULL;\n"))
  }

  lemma FixedValueReadsBack(r: MaskRule)
    ensures var prefix := "UPDATE " + r.table + " SET " + r.column + " = ";
            && |prefix| <= |FixedUpdate(r)| && FixedUpdate(r)[..|prefix|] == prefix
            && ReadLiteral(FixedUpdate(r)[|prefix|..]) == Some((r.value, " WHERE " + r.column + " IS NOT NULL;\n"))
  {
    var prefix := "UPDATE " + r.table + " SET " + r.column + " = ";
    var rest := " WHERE " + r.column + " IS NOT NULL;\n";
    LiteralReadsBack(r.value, rest);
    TailAfter(prefix, Quoted(r.value) + rest);
  }

  lemma TailAfter(a: string, b: string)
    ensures |a| <= |a + b| && (a + b)[..|a|] == a && (a + b)[|a|..] == b
  {
  }
}
