/** Adding queue_job to a server_wide_modules line that may already name it, at the text level.

    The line is cut at its equals sign and its value at the commas; names are trimmed and empty ones
    skipped. What is proved is about the modules the rewritten line loads, read back by the same
    rules: those it loaded before, in their order, and queue_job, each as often as before. */
module ModulesLine {
  import opened ConfText
  import opened TierConfig

  /** The module names a comma list holds: trimmed, the empty ones skipped. */
  function Items(parts: seq<string>): seq<string> {
    if parts == [] then []
    else
      var m := TrimSpace(parts[|parts| - 1]);
      Items(parts[..|parts| - 1]) + if m == "" then [] else [m]
  }

  /** What a reader of the line loads. */
  function Modules(line: string): seq<string> { Items(Split(AfterEquals(line), ',')) }

  /** What follows the first equals sign, or nothing. */
  lemma {:induction false} CutAtFirstEquals(key: string, value: string)
    requires '=' !in key
    ensures AfterEquals(key + ['='] + value) == value && AfterEquals(key) == ""
  {
    if key == "" {
      assert key + ['='] + value == ['='] + value;
    } else {
      assert key[0] in key && (key + ['='] + value)[1..] == key[1..] + ['='] + value;
      CutAtFirstEquals(key[1..], value);
    }
  }

  lemma {:induction false} ItemsOfConcat(a: seq<string>, b: seq<string>)
    ensures Items(a + b) == Items(a) + Items(b)
    decreases |b|
  {
    if b == [] {
      assert a + b == a;
    } else {
      assert (a + b)[..|a + b| - 1] == a + b[..|b| - 1];
      ItemsOfConcat(a, b[..|b| - 1]);
    }
  }

  lemma LastItem(parts: seq<string>, x: string, y: string)
    requires TrimSpace(x) == TrimSpace(y)
    ensures Items(parts + [x]) == Items(parts + [y])
  {
    assert (parts + [x])[..|parts|] == parts && (parts + [y])[..|parts|] == parts;
  }

  /** Trailing spaces and commas hold no modules. */
  lemma {:induction false} TailHoldsNothing(v: string, junk: string)
    requires forall c :: c in junk ==> c in TAIL
    ensures Items(Split(v + junk, ',')) == Items(Split(v, ','))
    decreases |junk|
  {
    if junk == "" {
      assert v + junk == v;
    } else {
      var rest, c := junk[..|junk| - 1], junk[|junk| - 1];
      assert junk == rest + [c] && v + junk == (v + rest) + [c];
      TailHoldsNothing(v, rest);
      OneMoreTailChar(v + rest, c);
    }
  }

  lemma OneMoreTailChar(s: string, c: char)
    requires c in TAIL
    ensures Items(Split(s + [c], ',')) == Items(Split(s, ','))
  {
    var parts := Split(s, ',');
    assert (s + [c])[..|s|] == s;
    if c == ',' {
      assert Split(s + [c], ',') == parts + [""];
      ItemsOfConcat(parts, [""]);
      assert TrimSpace("") == "";
      assert [""][..0] == [];
    } else {
      var last := parts[|parts| - 1];
      assert TrimRight(last + [c], SPACE) == TrimRight(last, SPACE) by { assert (last + [c])[..|last|] == last; }
      LastItem(parts[..|parts| - 1], last + [c], last);
      assert parts[..|parts| - 1] + [last] == parts;
    }
  }

  lemma {:induction false} MentionedIsLoaded(parts: seq<string>)
    ensures Mentions(parts) <==> "queue_job" in Items(parts)
  {
    if parts != [] {
      var n := |parts| - 1;
      MentionedIsLoaded(parts[..n]);
      assert Mentions(parts) <==> Mentions(parts[..n]) || TrimSpace(parts[n]) == "queue_job" by {
        if Mentions(parts[..n]) {
          var i :| 0 <= i < n && TrimSpace(parts[..n][i]) == "queue_job";
          assert TrimSpace(parts[i]) == "queue_job";
        }
        if Mentions(parts) {
          var i :| 0 <= i < |parts| && TrimSpace(parts[i]) == "queue_job";
          assert i < n ==> TrimSpace(parts[..n][i]) == "queue_job";
        }
      }
    }
  }

  /** What follows the first '=' of a line that has one. */
  lemma {:induction false} CutAt(key: string, rest: string)
    requires '=' !in key
    ensures AfterEquals(key + "=" + rest) == rest
  {
    if key == "" {
      assert "" + "=" + rest == "=" + rest;
      assert ("=" + rest)[1..] == rest;
    } else {
      CutAt(key[1..], rest);
      assert (key + "=" + rest)[1..] == key[1..] + "=" + rest;
    }
  }

  lemma NamedLast(key: string, value: string)
    requires '=' !in key
    ensures Modules(key + "=" + (value + ",queue_job")) == Items(Split(value, ',')) + ["queue_job"]
  {
    CutAt(key, value + ",queue_job");
    assert value + ",queue_job" == value + [','] + "queue_job";
    OneItemMore(value, "queue_job");
  }

  lemma OneItemMore(value: string, item: string)
    requires ',' !in item && TrimSpace(item) == item && item != ""
    ensures Items(Split(value + [','] + item, ',')) == Items(Split(value, ',')) + [item]
  {
    SplitAcross(value, item, ',');
    PlainIsOnePart(item, ',');
    ItemsOfConcat(Split(value, ','), [item]);
    assert [item][..0] == [];
  }

  lemma TrimmedValue(key: string, list: string) returns (value: string)
    ensures TrimRight(key + "=" + list, TAIL) + ",queue_job" == key + "=" + (value + ",queue_job")
    ensures Items(Split(value, ',')) == Items(Split(list, ','))
  {
    var kept := TrimRight(key + "=" + list, TAIL);
    KeptValue(key, list);
    value := kept[|key| + 1..];
    Regroup(key + "=", value, ",queue_job");
    TailHoldsNothing(value, list[|value|..]);
    assert value + list[|value|..] == list;
  }

  lemma Regroup(a: string, b: string, c: string)
    ensures (a + b) + c == a + (b + c)
  {
  }

  /** A line `key = list` loads what it loaded before and, exactly when it did not mention it,
      queue_job after the rest. */
  lemma QueueJobIsAdded(key: string, list: string)
    requires '=' !in key
    ensures var line := key + "=" + list;
            Modules(WithQueueJob(line)) ==
            if "queue_job" in Modules(line) then Modules(line) else Modules(line) + ["queue_job"]
  {
    CutAt(key, list);
    MentionedIsLoaded(Split(list, ','));
    if "queue_job" !in Modules(key + "=" + list) {
      var value := TrimmedValue(key, list);
      NamedLast(key, value);
    }
  }

  /** Trimming the end of the line never reaches past its '='. */
  lemma KeptValue(key: string, list: string)
    ensures var line := key + "=" + list;
            var kept := TrimRight(line, TAIL);
            && |key| + 1 <= |kept| <= |line| && kept == (key + "=") + kept[|key| + 1..]
            && kept[|key| + 1..] <= list
            && forall c :: c in list[|kept| - |key| - 1..] ==> c in TAIL
  {
    var line := key + "=" + list;
    var kept := TrimRight(line, TAIL);
    assert line[|key|] == '=' && '=' !in TAIL;
    assert |kept| > |key|;
    assert kept == line[..|kept|];
    forall c | c in list[|kept| - |key| - 1..] ensures c in TAIL {
      var i :| |kept| - |key| - 1 <= i < |list| && list[i] == c;
      assert line[|key| + 1 + i] == list[i];
    }
  }

  function Count(modules: seq<string>, m: string): nat {
    if modules == [] then 0 else Count(modules[..|modules| - 1], m) + if modules[|modules| - 1] == m then 1 else 0
  }

  lemma {:induction false} CountZero(modules: seq<string>, m: string)
    ensures Count(modules, m) == 0 <==> m !in modules
  {
    if modules != [] {
      CountZero(modules[..|modules| - 1], m);
      assert modules == modules[..|modules| - 1] + [modules[|modules| - 1]];
    }
  }

  lemma CountAfterAdding(before: seq<string>, m: string)
    requires Count(before, "queue_job") <= 1
    ensures var after := if "queue_job" in before then before else before + ["queue_job"];
            Count(after, "queue_job") == 1 && (m != "queue_job" ==> Count(after, m) == Count(before, m))
  {
    CountZero(before, "queue_job");
    assert (before + ["queue_job"])[..|before|] == before;
  }

  /** Exactly once, when the line did not already repeat it, and every other module as before. */
  lemma LoadedExactlyOnce(key: string, list: string, m: string)
    requires '=' !in key && Count(Modules(key + "=" + list), "queue_job") <= 1
    ensures var after := Modules(WithQueueJob(key + "=" + list));
            && Count(after, "queue_job") == 1
            && (m != "queue_job" ==> Count(after, m) == Count(Modules(key + "=" + list), m))
  {
    var before := Modules(key + "=" + list);
    QueueJobIsAdded(key, list);
    CountAfterAdding(before, m);
  }
}
