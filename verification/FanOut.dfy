/** Asking every cluster at once, and adding up what they answered. */
module FanOut {
  import opened Sorting
  import opened Wrappers

  /** The answer of one cluster, or the reason there is none. */
  datatype Answer<+T> = Answered(value: T) | Failed(why: string)

  datatype ClusterResult<+T> = ClusterResult(cluster: string, answer: Answer<T>)

  // ------------------------------------------------------------------ the fan-out

  /** The picker's order: the local cluster, then the others by name. */
  ghost predicate PickerOrder(local: string, others: set<string>, names: seq<string>) {
    names != [] && names[0] == local && Increasing(names[1..]) && Elements(names[1..]) == others
  }

  method ClusterNames(local: string, others: set<string>) returns (names: seq<string>)
    ensures PickerOrder(local, others, names)
  {
    var rest := SortedNames(others);
    names := [local] + rest;
    assert names[1..] == rest;
  }

  /** The comparison the results are sorted with. */
  predicate Before<T>(local: string, a: ClusterResult<T>, b: ClusterResult<T>) {
    if a.cluster == local then true
    else if b.cluster == local then false
    else StringLess(a.cluster, b.cluster)
  }

  /** It puts the local cluster before itself. A sort compares different elements, so as long as no two
      are of the same cluster it sorts by this order. */
  predicate BeforeOther<T>(local: string, a: ClusterResult<T>, b: ClusterResult<T>) {
    a.cluster != b.cluster && Before(local, a, b)
  }

  lemma BeforeIsWeakOrder<T(!new)>(local: string)
    ensures WeakOrder((a: ClusterResult<T>, b: ClusterResult<T>) => BeforeOther(local, a, b))
  {
    forall a: ClusterResult<T>, b: ClusterResult<T> | BeforeOther(local, a, b) ensures !BeforeOther(local, b, a) {
      StringLessTotal(a.cluster, b.cluster);
    }
    forall a: ClusterResult<T>, b: ClusterResult<T>, c: ClusterResult<T> | BeforeOther(local, a, c)
      ensures BeforeOther(local, a, b) || BeforeOther(local, b, c)
    {
      if a.cluster != local && b.cluster != local && c.cluster != local {
        StringLessBetween(a.cluster, b.cluster, c.cluster);
        StringLessTotal(a.cluster, b.cluster);
        StringLessTotal(b.cluster, c.cluster);
      }
    }
  }

  /** The order in which the goroutines happen to write their slots. */
  ghost predicate IsSchedule(schedule: seq<nat>, n: nat) {
    && (forall i :: 0 <= i < |schedule| ==> schedule[i] < n)
    && (forall j :: 0 <= j < n ==> j in schedule)
  }

  /** The goroutines' part: each writes its own slot, in the order of the schedule. */
  method Gather<T>(clusters: seq<string>, ask: string -> Answer<T>, schedule: seq<nat>)
    returns (results: seq<ClusterResult<T>>)
    requires IsSchedule(schedule, |clusters|)
    ensures |results| == |clusters|
    ensures forall i :: 0 <= i < |results| ==> results[i] == ClusterResult(clusters[i], ask(clusters[i]))
  {
    var n := |clusters|;
    var slots := new Option<ClusterResult<T>>[n](_ => None);
    for s := 0 to |schedule|
      invariant forall i :: 0 <= i < n ==>
                  slots[i] == if i in schedule[..s] then Some(ClusterResult(clusters[i], ask(clusters[i]))) else None
    {
      var i := schedule[s];
      slots[i] := Some(ClusterResult(clusters[i], ask(clusters[i])));
      assert schedule[..s + 1] == schedule[..s] + [i];
    }
    assert schedule[..|schedule|] == schedule;
    results := [];
    for i := 0 to n
      invariant |results| == i
      invariant forall j :: 0 <= j < i ==> results[j] == ClusterResult(clusters[j], ask(clusters[j]))
    {
      results := results + [slots[i].value];
    }
  }

  function ClustersOf<T>(results: seq<ClusterResult<T>>): seq<string> {
    seq(|results|, i requires 0 <= i < |results| => results[i].cluster)
  }

  function Answers<T>(names: seq<string>, ask: string -> Answer<T>): seq<ClusterResult<T>> {
    seq(|names|, i requires 0 <= i < |names| => ClusterResult(names[i], ask(names[i])))
  }

  /** Every cluster of the picker, and every registration of one, is in the results once. */
  ghost predicate NobodyMissing<T>(local: string, others: set<string>, ask: string -> Answer<T>, out: seq<ClusterResult<T>>) {
    exists names :: PickerOrder(local, others, names) && multiset(out) == multiset(Answers(names, ask))
  }

  /** Asks every cluster. Whatever the schedule, the result is the sequential map over the clusters, in
      the picker's order unless a remote cluster has been given the local one's name. */
  method AskEverywhere<T(!new)>(local: string, others: set<string>, ask: string -> Answer<T>, schedule: seq<nat>)
    returns (out: seq<ClusterResult<T>>)
    requires IsSchedule(schedule, |others| + 1)
    ensures NobodyMissing(local, others, ask, out)
    ensures forall r :: r in out ==> r.answer == ask(r.cluster)
    ensures local !in others ==> PickerOrder(local, others, ClustersOf(out))
  {
    var clusters := ClusterNames(local, others);
    NamesCount(local, others, clusters);
    var results := Gather(clusters, ask, schedule);
    BeforeIsWeakOrder<T>(local);
    var order := (a: ClusterResult<T>, b: ClusterResult<T>) => BeforeOther(local, a, b);
    out := SortWith(results, (a: ClusterResult<T>, b: ClusterResult<T>) => Before(local, a, b), order);
    if local !in others {
      AlreadyInOrder(local, others, clusters, results, out);
      assert ClustersOf(out) == clusters;
    }
    assert results == Answers(clusters, ask);
    forall r | r in out ensures r.answer == ask(r.cluster) {
      assert r in multiset(out) && r in multiset(results);
    }
  }

  lemma NamesCount(local: string, others: set<string>, names: seq<string>)
    requires PickerOrder(local, others, names)
    ensures |names| == |others| + 1
    ensures forall i, j :: 0 <= i < j < |names| && local !in others ==> names[i] != names[j]
  {
    IncreasingCount(names[1..]);
    forall i, j | 0 <= i < j < |names| && local !in others ensures names[i] != names[j] {
      if i == 0 {
        assert names[j] == names[1..][j - 1] && names[j] in Elements(names[1..]);
      } else {
        assert StringLess(names[1..][i - 1], names[1..][j - 1]);
        StringLessTotal(names[i], names[i]);
      }
    }
  }

  lemma {:induction false} IncreasingCount(names: seq<string>)
    requires Increasing(names)
    ensures |Elements(names)| == |names|
  {
    if names != [] {
      IncreasingCount(names[1..]);
      assert names[0] !in names[1..] by { StringLessTotal(names[0], names[0]); }
      assert Elements(names) == {names[0]} + Elements(names[1..]);
    }
  }

  /** The slots were written in the picker's order, so sorting them changes nothing. */
  lemma AlreadyInOrder<T(!new)>(
    local: string, others: set<string>, names: seq<string>, results: seq<ClusterResult<T>>, out: seq<ClusterResult<T>>)
    requires local !in others && PickerOrder(local, others, names)
    requires |results| == |names| && forall i :: 0 <= i < |results| ==> results[i].cluster == names[i]
    requires multiset(out) == multiset(results)
    requires Sorted(out, (a: ClusterResult<T>, b: ClusterResult<T>) => BeforeOther(local, a, b))
    ensures out == results
  {
    var less := (a: ClusterResult<T>, b: ClusterResult<T>) => BeforeOther(local, a, b);
    NamesCount(local, others, names);
    forall i, j | 0 <= i < j < |results| ensures !less(results[j], results[i]) {
      if i > 0 {
        assert StringLess(names[1..][i - 1], names[1..][j - 1]);
        StringLessTotal(names[i], names[j]);
      }
    }
    forall x, y | x in out && y in out && !less(x, y) && !less(y, x) ensures x == y {
      assert x in multiset(results) && y in multiset(results);
      var i :| 0 <= i < |results| && results[i] == x;
      var j :| 0 <= j < |results| && results[j] == y;
      StringLessTotal(x.cluster, y.cluster);
    }
    SortedUnique(out, results, less);
  }
}
