/** The overview of every cluster: totals, rows stamped with their cluster, and who did not answer. */
module Dashboard {
  import opened FanOut
  import opened Sorting

  datatype Row = Row(name: string, customer: string, cluster: string, href: string, state: string, severity: int)
  datatype Quota = Quota(customer: string, cluster: string, href: string, open: int, quota: int, full: bool)
  datatype StateCount = StateCount(state: string, n: nat)

  /** What one cluster answers the overview with. */
  datatype View = View(
    customers: int, environments: int, up: int, workloadVisible: bool,
    attention: seq<Row>, all: seq<Row>, expiring: seq<Row>, quotas: seq<Quota>)

  datatype Merged = Merged(view: View, troubles: seq<(string, string)>, tally: seq<StateCount>)

  type Result = ClusterResult<View>

  /** The link that switches cluster on the way; `escape` is the URL query escaping. */
  function CrossCluster(escape: string -> string, cluster: string, href: string): string {
    if href == "" then "" else "/cluster?to=" + escape(cluster) + "&back=" + escape(href)
  }

  function StampedRow(escape: string -> string, cluster: string, r: Row): Row {
    r.(cluster := cluster, href := CrossCluster(escape, cluster, r.href))
  }

  function StampedQuota(escape: string -> string, cluster: string, q: Quota): Quota {
    q.(cluster := cluster, href := CrossCluster(escape, cluster, q.href))
  }

  function Stamped(escape: string -> string, cluster: string, rows: seq<Row>): seq<Row> {
    seq(|rows|, i requires 0 <= i < |rows| => StampedRow(escape, cluster, rows[i]))
  }

  function StampedQuotas(escape: string -> string, cluster: string, quotas: seq<Quota>): seq<Quota> {
    seq(|quotas|, i requires 0 <= i < |quotas| => StampedQuota(escape, cluster, quotas[i]))
  }

  /** A stamped row says what the cluster's row said. What changes is the cluster, and a link, which goes
      through the switch to that cluster. */
  lemma StampKeepsTheRow(escape: string -> string, cluster: string, rows: seq<Row>, i: nat)
    requires i < |rows|
    ensures |Stamped(escape, cluster, rows)| == |rows|
    ensures var r, t := rows[i], Stamped(escape, cluster, rows)[i];
            && t == Row(r.name, r.customer, cluster, t.href, r.state, r.severity)
            && (t.href == if r.href == "" then "" else "/cluster?to=" + escape(cluster) + "&back=" + escape(r.href))
  {
  }

  lemma StampKeepsTheQuota(escape: string -> string, cluster: string, quotas: seq<Quota>, i: nat)
    requires i < |quotas|
    ensures |StampedQuotas(escape, cluster, quotas)| == |quotas|
    ensures var q, t := quotas[i], StampedQuotas(escape, cluster, quotas)[i];
            && t == Quota(q.customer, cluster, t.href, q.open, q.quota, q.full)
            && (t.href == if q.href == "" then "" else "/cluster?to=" + escape(cluster) + "&back=" + escape(q.href))
  {
  }

  // ------------------------------------------------------------------ tally

  const STATES: seq<string> := ["down", "degraded", "building", "asleep", "unknown", "up"]

  function CountState(rows: seq<Row>, state: string): nat {
    if rows == [] then 0
    else CountState(rows[..|rows| - 1], state) + if rows[|rows| - 1].state == state then 1 else 0
  }

  function Tallied(rows: seq<Row>, states: seq<string>): seq<StateCount> {
    if states == [] then []
    else
      var st := states[|states| - 1];
      Tallied(rows, states[..|states| - 1])
      + if CountState(rows, st) > 0 then [StateCount(st, CountState(rows, st))] else []
  }

  /** One count per listed state that occurs, in the order of the list. */
  method Tally(rows: seq<Row>) returns (out: seq<StateCount>)
    ensures out == Tallied(rows, STATES)
  {
    out := TallyOf(rows, STATES);
  }

  method TallyOf(rows: seq<Row>, order: seq<string>) returns (out: seq<StateCount>)
    ensures out == Tallied(rows, order)
  {
    var n: map<string, nat> := map[];
    for i := 0 to |rows|
      invariant forall st :: (if st in n then n[st] else 0) == CountState(rows[..i], st)
    {
      assert rows[..i + 1][..i] == rows[..i];
      var st := rows[i].state;
      n := n[st := (if st in n then n[st] else 0) + 1];
    }
    assert rows[..|rows|] == rows;
    out := [];
    for i := 0 to |order|
      invariant out == Tallied(rows, order[..i])
    {
      assert order[..i + 1][..i] == order[..i];
      var st := order[i];
      assert (if st in n then n[st] else 0) == CountState(rows, st);
      if st in n && n[st] > 0 {
        out := out + [StateCount(st, n[st])];
      }
    }
    assert order[..|order|] == order;
  }

  function Total(counts: seq<StateCount>): nat {
    if counts == [] then 0 else Total(counts[..|counts| - 1]) + counts[|counts| - 1].n
  }

  function Listed(rows: seq<Row>, states: seq<string>): nat {
    if rows == [] then 0
    else Listed(rows[..|rows| - 1], states) + if rows[|rows| - 1].state in states then 1 else 0
  }

  lemma {:induction false} TallySums(rows: seq<Row>, states: seq<string>)
    requires Distinct(states)
    ensures Total(Tallied(rows, states)) == Listed(rows, states)
  {
    if states == [] {
      NothingListed(rows);
    } else {
      var n := |states| - 1;
      TallySums(rows, states[..n]);
      ListedOneMore(rows, states);
      var t := Tallied(rows, states);
      if CountState(rows, states[n]) > 0 {
        assert t[..|t| - 1] == Tallied(rows, states[..n]);
      } else {
        assert t == Tallied(rows, states[..n]);
      }
    }
  }

  lemma {:induction false} NothingListed(rows: seq<Row>)
    ensures Listed(rows, []) == 0
  {
    if rows != [] { NothingListed(rows[..|rows| - 1]); }
  }

  lemma {:induction false} ListedOneMore(rows: seq<Row>, states: seq<string>)
    requires states != [] && Distinct(states)
    ensures var n := |states| - 1;
            Listed(rows, states) == Listed(rows, states[..n]) + CountState(rows, states[n])
  {
    if rows != [] {
      ListedOneMore(rows[..|rows| - 1], states);
      assert states == states[..|states| - 1] + [states[|states| - 1]];
    }
  }

  /** The tally adds up to the rows in one of its states. Environments that are gone are in none. */
  lemma {:induction false} TallyCoversListedStates(rows: seq<Row>)
    ensures Total(Tallied(rows, STATES)) == Listed(rows, STATES)
    ensures Total(Tallied(rows, STATES)) == |rows| <==>
            forall i :: 0 <= i < |rows| ==> rows[i].state in {"down", "degraded", "building", "asleep", "unknown", "up"}
    ensures "gone" !in STATES
  {
    TallySums(rows, STATES);
    AllListedIff(rows, STATES);
  }

  lemma {:induction false} AllListedIff(rows: seq<Row>, states: seq<string>)
    ensures Listed(rows, states) <= |rows|
    ensures Listed(rows, states) == |rows| <==> forall i :: 0 <= i < |rows| ==> rows[i].state in states
  {
    if rows != [] { AllListedIff(rows[..|rows| - 1], states); }
  }

  // ------------------------------------------------------------------ the merge

  function Troubles(results: seq<Result>): seq<(string, string)> {
    if results == [] then []
    else
      var r := results[|results| - 1];
      Troubles(results[..|results| - 1]) + if r.answer.Failed? then [(r.cluster, r.answer.why)] else []
  }

  function NoView(): View { View(0, 0, 0, true, [], [], [], []) }

  /** One more cluster's answer, added to what the earlier ones came to. */
  function Added(escape: string -> string, out: View, cluster: string, v: View): View {
    View(out.customers + v.customers, out.environments + v.environments, out.up + v.up,
         out.workloadVisible && v.workloadVisible,
         out.attention + Stamped(escape, cluster, v.attention),
         out.all + Stamped(escape, cluster, v.all),
         out.expiring + Stamped(escape, cluster, v.expiring),
         out.quotas + StampedQuotas(escape, cluster, v.quotas))
  }

  function Summed(escape: string -> string, results: seq<Result>): View {
    if results == [] then NoView()
    else
      var r := results[|results| - 1];
      var before := Summed(escape, results[..|results| - 1]);
      if r.answer.Failed? then before else Added(escape, before, r.cluster, r.answer.value)
  }

  predicate BySeverity(a: Row, b: Row) { a.severity < b.severity }

  predicate ByCustomer(a: Row, b: Row) {
    if a.customer != b.customer then StringLess(a.customer, b.customer) else StringLess(a.name, b.name)
  }

  predicate ByCluster(a: Quota, b: Quota) {
    if a.cluster != b.cluster then StringLess(a.cluster, b.cluster) else StringLess(a.customer, b.customer)
  }

  lemma PairOrder(a1: string, a2: string, b1: string, b2: string, c1: string, c2: string)
    ensures var less := (x1: string, x2: string, y1: string, y2: string) =>
              if x1 != y1 then StringLess(x1, y1) else StringLess(x2, y2);
            && (less(a1, a2, b1, b2) ==> !less(b1, b2, a1, a2))
            && (less(a1, a2, c1, c2) ==> less(a1, a2, b1, b2) || less(b1, b2, c1, c2))
  {
    StringLessTotal(a1, b1);
    StringLessTotal(b1, c1);
    StringLessTotal(a2, b2);
    if StringLess(a1, c1) { StringLessBetween(a1, b1, c1); }
    if StringLess(a2, c2) { StringLessBetween(a2, b2, c2); }
    StringLessTotal(a1, c1);
  }

  lemma RowOrders()
    ensures WeakOrder(BySeverity) && WeakOrder(ByCustomer) && WeakOrder(ByCluster)
  {
    forall a, b | ByCustomer(a, b) ensures !ByCustomer(b, a) {
      PairOrder(a.customer, a.name, b.customer, b.name, "", "");
    }
    forall a, b, c | ByCustomer(a, c) ensures ByCustomer(a, b) || ByCustomer(b, c) {
      PairOrder(a.customer, a.name, b.customer, b.name, c.customer, c.name);
    }
    forall a, b | ByCluster(a, b) ensures !ByCluster(b, a) {
      PairOrder(a.cluster, a.customer, b.cluster, b.customer, "", "");
    }
    forall a, b, c | ByCluster(a, c) ensures ByCluster(a, b) || ByCluster(b, c) {
      PairOrder(a.cluster, a.customer, b.cluster, b.customer, c.cluster, c.customer);
    }
  }

  /** The least severity first, which is the most alarming. */
  ghost predicate SeverityAscends(rows: seq<Row>) {
    forall i, j :: 0 <= i < j < |rows| ==> rows[i].severity <= rows[j].severity
  }

  /** By customer, and one customer's rows by name. */
  ghost predicate CustomersAscend(rows: seq<Row>) {
    forall i, j :: 0 <= i < j < |rows| ==>
      !StringLess(rows[j].customer, rows[i].customer)
      && (rows[i].customer == rows[j].customer ==> !StringLess(rows[j].name, rows[i].name))
  }

  /** By cluster, and one cluster's quotas by customer. */
  ghost predicate ClustersAscend(quotas: seq<Quota>) {
    forall i, j :: 0 <= i < j < |quotas| ==>
      !StringLess(quotas[j].cluster, quotas[i].cluster)
      && (quotas[i].cluster == quotas[j].cluster ==> !StringLess(quotas[j].customer, quotas[i].customer))
  }

  /** The rows of one severity, in order. */
  function OfSeverity(rows: seq<Row>, n: int): seq<Row> {
    if rows == [] then []
    else OfSeverity(rows[..|rows| - 1], n) + if rows[|rows| - 1].severity == n then [rows[|rows| - 1]] else []
  }

  lemma {:induction false} TiesAreOfSeverity(rows: seq<Row>, n: int)
    ensures OfSeverity(rows, n) == Ties(rows, Row("", "", "", "", "", n), BySeverity)
  {
    if rows != [] { TiesAreOfSeverity(rows[..|rows| - 1], n); }
  }

  method SortAttention(rows: seq<Row>) returns (out: seq<Row>)
    ensures multiset(out) == multiset(rows) && SeverityAscends(out)
    ensures forall n :: OfSeverity(out, n) == OfSeverity(rows, n)
  {
    RowOrders();
    out := SortStable(rows, BySeverity);
    forall n ensures OfSeverity(out, n) == OfSeverity(rows, n) {
      TiesAreOfSeverity(out, n);
      TiesAreOfSeverity(rows, n);
    }
  }

  method SortRows(rows: seq<Row>) returns (out: seq<Row>)
    ensures multiset(out) == multiset(rows) && CustomersAscend(out)
  {
    RowOrders();
    out := SortBy(rows, ByCustomer);
    forall i, j | 0 <= i < j < |out| ensures !StringLess(out[j].customer, out[i].customer) {
      assert !ByCustomer(out[j], out[i]);
      StringLessTotal(out[i].customer, out[j].customer);
    }
    assert forall i, j :: 0 <= i < j < |out| ==> !ByCustomer(out[j], out[i]);
  }

  method SortQuotas(quotas: seq<Quota>) returns (out: seq<Quota>)
    ensures multiset(out) == multiset(quotas) && ClustersAscend(out)
  {
    RowOrders();
    out := SortBy(quotas, ByCluster);
    forall i, j | 0 <= i < j < |out| ensures !StringLess(out[j].cluster, out[i].cluster) {
      assert !ByCluster(out[j], out[i]);
      StringLessTotal(out[i].cluster, out[j].cluster);
    }
    assert forall i, j :: 0 <= i < j < |out| ==> !ByCluster(out[j], out[i]);
  }

  /** The merged overview of all the results. */
  method MergeDashboards(escape: string -> string, results: seq<Result>) returns (out: Merged)
    ensures out.troubles == Troubles(results)
    ensures var sum := Summed(escape, results);
            && out.view == sum.(attention := out.view.attention, all := out.view.all, quotas := out.view.quotas)
            && multiset(out.view.attention) == multiset(sum.attention) && SeverityAscends(out.view.attention)
            && (forall n :: OfSeverity(out.view.attention, n) == OfSeverity(sum.attention, n))
            && multiset(out.view.all) == multiset(sum.all) && CustomersAscend(out.view.all)
            && multiset(out.view.quotas) == multiset(sum.quotas) && ClustersAscend(out.view.quotas)
            && out.tally == Tallied(sum.all, STATES)
  {
    var troubles: seq<(string, string)> := [];
    var v := NoView();
    for i := 0 to |results|
      invariant v == Summed(escape, results[..i]) && troubles == Troubles(results[..i])
    {
      assert results[..i + 1][..i] == results[..i];
      match results[i].answer
      case Failed(why) => troubles := troubles + [(results[i].cluster, why)];
      case Answered(w) => v := Added(escape, v, results[i].cluster, w);
    }
    assert results[..|results|] == results;
    var tally := Tally(v.all);
    var attention := SortAttention(v.attention);
    var all := SortRows(v.all);
    var quotas := SortQuotas(v.quotas);
    out := Merged(v.(attention := attention, all := all, quotas := quotas), troubles, tally);
  }

  // ------------------------------------------------------------------ nobody is lost

  function AnsweredCount(results: seq<Result>): nat {
    if results == [] then 0
    else AnsweredCount(results[..|results| - 1]) + if results[|results| - 1].answer.Answered? then 1 else 0
  }

  function CustomersOf(r: Result): int { if r.answer.Answered? then r.answer.value.customers else 0 }
  function EnvironmentsOf(r: Result): int { if r.answer.Answered? then r.answer.value.environments else 0 }
  function UpOf(r: Result): int { if r.answer.Answered? then r.answer.value.up else 0 }

  function Sum(f: Result -> int, results: seq<Result>): int {
    if results == [] then 0 else Sum(f, results[..|results| - 1]) + f(results[|results| - 1])
  }

  /** Every cluster is counted in the totals or named as a trouble, never both and never neither. */
  lemma {:induction false} NoClusterIsLost(results: seq<Result>)
    ensures AnsweredCount(results) + |Troubles(results)| == |results|
    ensures forall i :: 0 <= i < |results| && results[i].answer.Failed? ==>
              (results[i].cluster, results[i].answer.why) in Troubles(results)
    ensures forall t :: t in Troubles(results) ==> FailedIn(results, t.0, t.1)
  {
    if results != [] {
      var n := |results| - 1;
      NoClusterIsLost(results[..n]);
      forall t | t in Troubles(results) ensures FailedIn(results, t.0, t.1) {
        if t in Troubles(results[..n]) {
        } else {
          assert results[n] == ClusterResult(t.0, Failed(t.1));
        }
      }
    }
  }

  ghost predicate FailedIn(results: seq<Result>, cluster: string, why: string) {
    exists i :: 0 <= i < |results| && results[i] == ClusterResult(cluster, Failed(why))
  }

  /** The totals are the sums over the clusters that answered, and one whose workloads cannot be
      read makes the whole count unreadable. */
  lemma {:induction false} TotalsAreSums(escape: string -> string, results: seq<Result>)
    ensures var v := Summed(escape, results);
            && v.customers == Sum(CustomersOf, results)
            && v.environments == Sum(EnvironmentsOf, results)
            && v.up == Sum(UpOf, results)
            && (v.workloadVisible <==> forall i :: 0 <= i < |results| && results[i].answer.Answered? ==>
                  results[i].answer.value.workloadVisible)
  {
    if results != [] { TotalsAreSums(escape, results[..|results| - 1]); }
  }

  /** The rows of a list that carry a cluster's name; `of` says which one a row carries. */
  function RowsOf<T>(rows: seq<T>, of: T -> string, cluster: string): seq<T> {
    if rows == [] then []
    else RowsOf(rows[..|rows| - 1], of, cluster) + if of(rows[|rows| - 1]) == cluster then [rows[|rows| - 1]] else []
  }

  lemma {:induction false} RowsOfConcat<T>(a: seq<T>, b: seq<T>, of: T -> string, cluster: string)
    ensures RowsOf(a + b, of, cluster) == RowsOf(a, of, cluster) + RowsOf(b, of, cluster)
    decreases |b|
  {
    if b == [] {
      assert a + b == a;
    } else {
      assert (a + b)[..|a + b| - 1] == a + b[..|b| - 1];
      RowsOfConcat(a, b[..|b| - 1], of, cluster);
    }
  }

  ghost predicate AllOf<T>(rows: seq<T>, of: T -> string, cluster: string) { forall i :: 0 <= i < |rows| ==> of(rows[i]) == cluster }

  lemma {:induction false} RowsOfStamped<T>(rows: seq<T>, of: T -> string, cluster: string, other: string)
    requires AllOf(rows, of, cluster)
    ensures RowsOf(rows, of, other) == if other == cluster then rows else []
  {
    if rows != [] { RowsOfStamped(rows[..|rows| - 1], of, cluster, other); }
  }

  /** What one result adds to a list: its rows stamped, or nothing when it failed. */
  function RowsFromOne<T>(r: Result, stamp: (string, View) -> seq<T>): seq<T> {
    if r.answer.Failed? then [] else stamp(r.cluster, r.answer.value)
  }

  /** One list of rows of all the clusters that answered, stamped, in the order of the results. */
  function RowsFrom<T>(results: seq<Result>, stamp: (string, View) -> seq<T>): seq<T> {
    if results == [] then []
    else RowsFrom(results[..|results| - 1], stamp) + RowsFromOne(results[|results| - 1], stamp)
  }

  ghost predicate Stamps<T>(stamp: (string, View) -> seq<T>, of: T -> string) {
    forall cluster, v :: AllOf(stamp(cluster, v), of, cluster)
  }

  /** Every row of an answering cluster appears once, in order, stamped with that cluster and no other;
      a cluster that did not answer has no rows. */
  lemma {:induction false} RowsKeepTheirCluster<T>(
    results: seq<Result>, stamp: (string, View) -> seq<T>, of: T -> string, i: nat)
    requires i < |results| && Stamps(stamp, of)
    requires forall j, k :: 0 <= j < k < |results| ==> results[j].cluster != results[k].cluster
    ensures RowsOf(RowsFrom(results, stamp), of, results[i].cluster) == RowsFromOne(results[i], stamp)
  {
    var n := |results| - 1;
    var before, last := RowsFrom(results[..n], stamp), RowsFromOne(results[n], stamp);
    if i < n {
      RowsKeepTheirCluster(results[..n], stamp, of, i);
    } else {
      NoRowsYet(results[..n], stamp, of, results[n].cluster);
    }
    assert AllOf(last, of, results[n].cluster);
    RowsOfConcat(before, last, of, results[i].cluster);
    RowsOfStamped(last, of, results[n].cluster, results[i].cluster);
  }

  lemma {:induction false} NoRowsYet<T>(results: seq<Result>, stamp: (string, View) -> seq<T>, of: T -> string, cluster: string)
    requires Stamps(stamp, of) && forall j :: 0 <= j < |results| ==> results[j].cluster != cluster
    ensures RowsOf(RowsFrom(results, stamp), of, cluster) == []
  {
    if results != [] {
      var n := |results| - 1;
      var last := RowsFromOne(results[n], stamp);
      NoRowsYet(results[..n], stamp, of, cluster);
      assert AllOf(last, of, results[n].cluster);
      RowsOfConcat(RowsFrom(results[..n], stamp), last, of, cluster);
      RowsOfStamped(last, of, results[n].cluster, cluster);
    }
  }

  function AllRows(escape: string -> string): (string, View) -> seq<Row> { (c, v: View) => Stamped(escape, c, v.all) }
  function AttentionRows(escape: string -> string): (string, View) -> seq<Row> { (c, v: View) => Stamped(escape, c, v.attention) }
  function ExpiringRows(escape: string -> string): (string, View) -> seq<Row> { (c, v: View) => Stamped(escape, c, v.expiring) }
  function QuotaRows(escape: string -> string): (string, View) -> seq<Quota> { (c, v: View) => StampedQuotas(escape, c, v.quotas) }

  function RowCluster(r: Row): string { r.cluster }
  function QuotaCluster(q: Quota): string { q.cluster }

  /** The four lists of the merged view are such lists, and their stamps say whose a row is. */
  lemma {:induction false} ListsOfTheSum(escape: string -> string, results: seq<Result>)
    ensures var v := Summed(escape, results);
            && v.all == RowsFrom(results, AllRows(escape))
            && v.attention == RowsFrom(results, AttentionRows(escape))
            && v.expiring == RowsFrom(results, ExpiringRows(escape))
            && v.quotas == RowsFrom(results, QuotaRows(escape))
    ensures Stamps(AllRows(escape), RowCluster) && Stamps(AttentionRows(escape), RowCluster)
    ensures Stamps(ExpiringRows(escape), RowCluster) && Stamps(QuotaRows(escape), QuotaCluster)
  {
    if results != [] { ListsOfTheSum(escape, results[..|results| - 1]); }
  }

  /** So each list of the merged view, the quotas included, gives every cluster exactly its own rows. */
  lemma EveryListKeepsItsCluster(escape: string -> string, results: seq<Result>, i: nat)
    requires i < |results|
    requires forall j, k :: 0 <= j < k < |results| ==> results[j].cluster != results[k].cluster
    ensures var v, c := Summed(escape, results), results[i].cluster;
            && RowsOf(v.all, RowCluster, c) == RowsFromOne(results[i], AllRows(escape))
            && RowsOf(v.attention, RowCluster, c) == RowsFromOne(results[i], AttentionRows(escape))
            && RowsOf(v.expiring, RowCluster, c) == RowsFromOne(results[i], ExpiringRows(escape))
            && RowsOf(v.quotas, QuotaCluster, c) == RowsFromOne(results[i], QuotaRows(escape))
  {
    ListsOfTheSum(escape, results);
    RowsKeepTheirCluster(results, AllRows(escape), RowCluster, i);
    RowsKeepTheirCluster(results, AttentionRows(escape), RowCluster, i);
    RowsKeepTheirCluster(results, ExpiringRows(escape), RowCluster, i);
    RowsKeepTheirCluster(results, QuotaRows(escape), QuotaCluster, i);
  }
}
