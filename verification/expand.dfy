/**
 * `handleGroupExpand`: each `(origin, source, metric)` triplet of a query
 * becomes a sorted group of triplets, with `group:` references replaced by
 * the names their stored group expands to.
 * Line numbers in this module refer to pkg/server/library_group.go.
 */
module Expand {
  import opened Options
  import opened Strings
  import opened Http
  import opened Library
  import opened Ordering

  datatype Triplet = Triplet(origin: string, source: string, metric: string)

  /** `Library.ExpandGroup(name, kind)` over one library and catalog snapshot. */
  type Expander = (string, GroupType) -> seq<string>

  predicate IsGroupRef(s: string) {
    HasPrefix(s, GroupPrefix)
  }

  function RefName(s: string): string {
    TrimPrefix(s, GroupPrefix)
  }

  /** The source group a triplet names, expanded. */
  function SourceNames(e: Triplet, expand: Expander): seq<string> {
    expand(RefName(e.source), SourceGroupType)
  }

  /** The metric group a triplet names, expanded. */
  function MetricNames(e: Triplet, expand: Expander): seq<string> {
    expand(RefName(e.metric), MetricGroupType)
  }

  /** One triplet per source name, the metric fixed. */
  function WithSources(origin: string, sources: seq<string>, metric: string): (r: seq<Triplet>)
    ensures |r| == |sources|
    ensures forall i :: 0 <= i < |sources| ==> r[i] == Triplet(origin, sources[i], metric)
    decreases |sources|
  {
    if |sources| == 0 then []
    else WithSources(origin, sources[..|sources| - 1], metric) + [Triplet(origin, sources[|sources| - 1], metric)]
  }

  /** One triplet per metric name, the source fixed. */
  function WithMetrics(origin: string, source: string, metrics: seq<string>): (r: seq<Triplet>)
    ensures |r| == |metrics|
    ensures forall j :: 0 <= j < |metrics| ==> r[j] == Triplet(origin, source, metrics[j])
    decreases |metrics|
  {
    if |metrics| == 0 then []
    else WithMetrics(origin, source, metrics[..|metrics| - 1]) + [Triplet(origin, source, metrics[|metrics| - 1])]
  }

  /** Where row `i`, column `j` of a table with rows of length `width` sits once the rows are laid end to end. */
  function Cell(i: int, width: int, j: int): int {
    i * width + j
  }

  /** Every source paired with every metric, the source varying slower. */
  function CrossProduct(origin: string, sources: seq<string>, metrics: seq<string>): seq<Triplet>
    decreases |sources|
  {
    if |sources| == 0 then []
    else CrossProduct(origin, sources[..|sources| - 1], metrics) + WithMetrics(origin, sources[|sources| - 1], metrics)
  }

  /** The cross product has one triplet per pair. */
  lemma {:induction false} CrossProductLength(origin: string, sources: seq<string>, metrics: seq<string>)
    ensures |CrossProduct(origin, sources, metrics)| == |sources| * |metrics|
    decreases |sources|
  {
    if |sources| > 0 {
      var n := |sources| - 1;
      CrossProductLength(origin, sources[..n], metrics);
      RowStep(n, |metrics|, 0);
    }
  }

  /** The cross product holds only triplets built from the two lists. */
  lemma {:induction false} CrossProductParts(origin: string, sources: seq<string>, metrics: seq<string>)
    ensures forall t :: t in CrossProduct(origin, sources, metrics) ==>
      t.origin == origin && t.source in sources && t.metric in metrics
    decreases |sources|
  {
    if |sources| > 0 {
      var n := |sources| - 1;
      CrossProductParts(origin, sources[..n], metrics);
      forall t | t in CrossProduct(origin, sources, metrics)
        ensures t.origin == origin && t.source in sources && t.metric in metrics
      {
        if t in CrossProduct(origin, sources[..n], metrics) {
          assert t.source in sources[..n];
        } else {
          var j :| 0 <= j < |metrics| && WithMetrics(origin, sources[n], metrics)[j] == t;
        }
      }
    }
  }

  /** The first cell of row `n + 1` follows the last cell of row `n`. */
  lemma RowStep(n: nat, m: nat, j: nat)
    ensures Cell(n, m, j) == n * m + j
    ensures (n + 1) * m == n * m + m
  {
  }

  /** A cell of an earlier row lies before row `n`. */
  lemma {:induction false} CellBeforeRow(i: nat, n: nat, m: nat, j: nat)
    requires i < n && j < m
    ensures Cell(i, m, j) < n * m
    decreases n
  {
    RowStep(n - 1, m, 0);
    if i < n - 1 {
      CellBeforeRow(i, n - 1, m, j);
    }
  }

  /** Position `Cell(i, |metrics|, j)` of the cross product pairs `sources[i]` with `metrics[j]`. */
  lemma {:induction false} CrossProductAt(origin: string, sources: seq<string>, metrics: seq<string>, i: int, j: int)
    requires 0 <= i < |sources| && 0 <= j < |metrics|
    ensures Cell(i, |metrics|, j) < |sources| * |metrics| == |CrossProduct(origin, sources, metrics)|
    ensures CrossProduct(origin, sources, metrics)[Cell(i, |metrics|, j)] == Triplet(origin, sources[i], metrics[j])
    decreases |sources|
  {
    var n := |sources| - 1;
    var m := |metrics|;
    var prefix := CrossProduct(origin, sources[..n], metrics);
    var row := WithMetrics(origin, sources[n], metrics);
    CrossProductLength(origin, sources[..n], metrics);
    CrossProductLength(origin, sources, metrics);
    assert CrossProduct(origin, sources, metrics) == prefix + row;
    if i < n {
      CellBeforeRow(i, n, m, j);
      CrossProductAt(origin, sources[..n], metrics, i, j);
      assert sources[..n][i] == sources[i];
    } else {
      RowStep(n, m, j);
    }
  }

  lemma CrossProductIndices(origin: string, sources: seq<string>, metrics: seq<string>)
    ensures |CrossProduct(origin, sources, metrics)| == |sources| * |metrics|
    ensures forall i, j :: 0 <= i < |sources| && 0 <= j < |metrics| ==>
      Cell(i, |metrics|, j) < |sources| * |metrics| &&
      CrossProduct(origin, sources, metrics)[Cell(i, |metrics|, j)] == Triplet(origin, sources[i], metrics[j])
  {
    CrossProductLength(origin, sources, metrics);
    forall i, j | 0 <= i < |sources| && 0 <= j < |metrics| {
      CrossProductAt(origin, sources, metrics, i, j);
    }
  }

  /** Every pair of a listed source and a listed metric occurs in the cross product. */
  lemma CrossProductHas(origin: string, sources: seq<string>, metrics: seq<string>, i: int, j: int)
    requires 0 <= i < |sources| && 0 <= j < |metrics|
    ensures Triplet(origin, sources[i], metrics[j]) in CrossProduct(origin, sources, metrics)
  {
    CrossProductAt(origin, sources, metrics, i, j);
  }

  /** A triplet is in the cross product exactly when its parts come from the two lists. */
  lemma CrossProductMembers(origin: string, sources: seq<string>, metrics: seq<string>, t: Triplet)
    ensures t in CrossProduct(origin, sources, metrics) <==>
      t.origin == origin && t.source in sources && t.metric in metrics
  {
    CrossProductParts(origin, sources, metrics);
    if t.origin == origin && t.source in sources && t.metric in metrics {
      var i :| 0 <= i < |sources| && sources[i] == t.source;
      var j :| 0 <= j < |metrics| && metrics[j] == t.metric;
      CrossProductHas(origin, sources, metrics, i, j);
    }
  }

  /**
   * The group one triplet expands to, before sorting, with each referenced
   * group expanded once.
   */
  function Unsorted(e: Triplet, expand: Expander): seq<Triplet> {
    if IsGroupRef(e.source) then
      if IsGroupRef(e.metric) then CrossProduct(e.origin, SourceNames(e, expand), MetricNames(e, expand))
      else WithSources(e.origin, SourceNames(e, expand), e.metric)
    else if IsGroupRef(e.metric) then WithMetrics(e.origin, e.source, MetricNames(e, expand))
    else [e]
  }

  /** The four cases of expanding one triplet, stated position by position. */
  lemma UnsortedCases(e: Triplet, expand: Expander)
    ensures !IsGroupRef(e.source) && !IsGroupRef(e.metric) ==> Unsorted(e, expand) == [e]
    ensures IsGroupRef(e.source) && !IsGroupRef(e.metric) ==>
      var r, s := Unsorted(e, expand), SourceNames(e, expand);
      |r| == |s| && forall i :: 0 <= i < |s| ==> r[i] == Triplet(e.origin, s[i], e.metric)
    ensures !IsGroupRef(e.source) && IsGroupRef(e.metric) ==>
      var r, m := Unsorted(e, expand), MetricNames(e, expand);
      |r| == |m| && forall j :: 0 <= j < |m| ==> r[j] == Triplet(e.origin, e.source, m[j])
    ensures IsGroupRef(e.source) && IsGroupRef(e.metric) ==>
      var r, s, m := Unsorted(e, expand), SourceNames(e, expand), MetricNames(e, expand);
      |r| == |s| * |m| &&
      (forall i, j :: 0 <= i < |s| && 0 <= j < |m| ==>
        Cell(i, |m|, j) < |r| && r[Cell(i, |m|, j)] == Triplet(e.origin, s[i], m[j])) &&
      (forall t :: t in r <==> t.origin == e.origin && t.source in s && t.metric in m)
  {
    if IsGroupRef(e.source) && IsGroupRef(e.metric) {
      var s, m := SourceNames(e, expand), MetricNames(e, expand);
      CrossProductIndices(e.origin, s, m);
      forall t ensures t in CrossProduct(e.origin, s, m) <==> t.origin == e.origin && t.source in s && t.metric in m {
        CrossProductMembers(e.origin, s, m, t);
      }
    }
  }

  /** The group a triplet expands to, sorted under `less` as `sort.Sort(item)` does. */
  function ExpandedGroup(e: Triplet, expand: Expander, less: (Triplet, Triplet) -> bool): seq<Triplet> {
    Sort(less, Unsorted(e, expand))
  }

  /**
   * The sorted group is a permutation of the unsorted one, sorted when `less`
   * is a strict total order, and every member keeps the input's origin.
   */
  lemma ExpandedGroupFacts(e: Triplet, expand: Expander, less: (Triplet, Triplet) -> bool)
    ensures multiset(ExpandedGroup(e, expand, less)) == multiset(Unsorted(e, expand))
    ensures StrictTotalOrder(less) ==> Sorted(less, ExpandedGroup(e, expand, less))
    ensures forall t :: t in ExpandedGroup(e, expand, less) ==> t.origin == e.origin
    ensures !IsGroupRef(e.source) && !IsGroupRef(e.metric) ==> ExpandedGroup(e, expand, less) == [e]
    ensures IsGroupRef(e.source) && IsGroupRef(e.metric) ==>
      |ExpandedGroup(e, expand, less)| == |SourceNames(e, expand)| * |MetricNames(e, expand)|
  {
    var u := Unsorted(e, expand);
    CrossProductLength(e.origin, SourceNames(e, expand), MetricNames(e, expand));
    CrossProductParts(e.origin, SourceNames(e, expand), MetricNames(e, expand));
    var r := Sort(less, u);
    assert forall t :: t in r ==> t in multiset(u);
  }

  /** The innermost loop: one triplet per metric name appended to `item`. */
  method AppendRow(item: seq<Triplet>, origin: string, source: string, metrics: seq<string>) returns (r: seq<Triplet>)
    ensures r == item + WithMetrics(origin, source, metrics)
  {
    r := item;
    var j := 0;
    while j < |metrics|
      invariant 0 <= j <= |metrics|
      invariant r == item + WithMetrics(origin, source, metrics[..j])
    {
      assert metrics[..j + 1][..j] == metrics[..j];
      r := r + [Triplet(origin, source, metrics[j])];
      j := j + 1;
    }
    assert metrics[..j] == metrics;
  }

  /**
   * The loop over source names (lines 194-208). In the both-references case
   * it calls `expand` for the metric group again for every source name, as
   * the handler does; `expand` being a pure function, every call yields
   * `MetricNames(e, expand)`, so the rows form one cross product.
   */
  method SourceLoop(e: Triplet, sources: seq<string>, expand: Expander) returns (item: seq<Triplet>)
    ensures IsGroupRef(e.metric) ==> item == CrossProduct(e.origin, sources, MetricNames(e, expand))
    ensures !IsGroupRef(e.metric) ==> item == WithSources(e.origin, sources, e.metric)
  {
    item := [];
    var i := 0;
    while i < |sources|
      invariant 0 <= i <= |sources|
      invariant IsGroupRef(e.metric) ==> item == CrossProduct(e.origin, sources[..i], MetricNames(e, expand))
      invariant !IsGroupRef(e.metric) ==> item == WithSources(e.origin, sources[..i], e.metric)
    {
      assert sources[..i + 1][..i] == sources[..i];
      if IsGroupRef(e.metric) {
        var metrics := expand(RefName(e.metric), MetricGroupType);
        item := AppendRow(item, e.origin, sources[i], metrics);
      } else {
        item := item + [Triplet(e.origin, sources[i], e.metric)];
      }
      i := i + 1;
    }
    assert sources[..i] == sources;
  }

  /** Lines 191-220: build one triplet's group, then `sort.Sort(item)`. */
  method ExpandEntry(e: Triplet, expand: Expander, less: (Triplet, Triplet) -> bool) returns (item: seq<Triplet>)
    ensures item == ExpandedGroup(e, expand, less)
  {
    if IsGroupRef(e.source) {
      var sources := expand(RefName(e.source), SourceGroupType);
      item := SourceLoop(e, sources, expand);
    } else if IsGroupRef(e.metric) {
      var metrics := expand(RefName(e.metric), MetricGroupType);
      item := AppendRow([], e.origin, e.source, metrics);
    } else {
      item := [e];
    }
    assert item == Unsorted(e, expand);
    item := Sort(less, item);
  }

  /** The body of an expand request, once `json.Unmarshal` has run. */
  datatype ExpandBody = Refused(message: Message) | Expanded(groups: seq<seq<Triplet>>)

  datatype ExpandResponse = ExpandResponse(status: int, body: ExpandBody)

  /**
   * `handleGroupExpand`. `query` is the decoded body, `None` when it does not
   * decode. The output keeps one group per input triplet, in input order.
   */
  method HandleGroupExpand(httpMethod: string, query: Option<seq<Triplet>>, expand: Expander, less: (Triplet, Triplet) -> bool)
    returns (r: ExpandResponse)
    ensures httpMethod != "POST" ==> r == ExpandResponse(StatusMethodNotAllowed, Refused(MethodNotAllowed))
    ensures httpMethod == "POST" && query.None? ==> r == ExpandResponse(StatusBadRequest, Refused(ResourceInvalid))
    ensures httpMethod == "POST" && query.Some? ==>
      r.status == StatusOK && r.body.Expanded? && |r.body.groups| == |query.value| &&
      forall k :: 0 <= k < |query.value| ==> r.body.groups[k] == ExpandedGroup(query.value[k], expand, less)
  {
    if httpMethod != "POST" {
      return ExpandResponse(StatusMethodNotAllowed, Refused(MethodNotAllowed));
    }
    if query.None? {
      return ExpandResponse(StatusBadRequest, Refused(ResourceInvalid));
    }
    var entries := query.value;
    var response: seq<seq<Triplet>> := [];
    var k := 0;
    while k < |entries|
      invariant 0 <= k <= |entries|
      invariant |response| == k
      invariant forall n :: 0 <= n < k ==> response[n] == ExpandedGroup(entries[n], expand, less)
    {
      var item := ExpandEntry(entries[k], expand, less);
      assert item == ExpandedGroup(entries[k], expand, less);
      response := response + [item];
      assert response[k] == item;
      k := k + 1;
    }
    r := ExpandResponse(StatusOK, Expanded(response));
  }

  /**
   * Lexicographic order on `(origin, source, metric)`, the order the
   * expected expansions in the integration tests are listed in.
   */
  predicate TripletLess(x: Triplet, y: Triplet) {
    || StringLess(x.origin, y.origin)
    || (x.origin == y.origin && StringLess(x.source, y.source))
    || (x.origin == y.origin && x.source == y.source && StringLess(x.metric, y.metric))
  }

  lemma TripletLessIsStrictTotal()
    ensures StrictTotalOrder(TripletLess)
  {
    StringLessIsStrictTotal();
  }

  /** Three triplets that differ only in their metric are sorted when their metrics are. */
  lemma SortedByMetric(o: string, src: string, m0: string, m1: string, m2: string)
    requires StringLess(m0, m1) && StringLess(m1, m2)
    ensures Sorted(TripletLess, [Triplet(o, src, m0), Triplet(o, src, m1), Triplet(o, src, m2)])
  {
    StringLessTransitive(m0, m1, m2);
    StringLessIrreflexive(o);
    StringLessIrreflexive(src);
    StringLessAsymmetric(m0, m1);
    StringLessAsymmetric(m1, m2);
    StringLessAsymmetric(m0, m2);
  }

  /** Two triplets that differ only in their source are sorted when their sources are. */
  lemma SortedBySource(o: string, s0: string, s1: string, m: string)
    requires StringLess(s0, s1)
    ensures Sorted(TripletLess, [Triplet(o, s0, m), Triplet(o, s1, m)])
  {
    StringLessIrreflexive(o);
    StringLessAsymmetric(s0, s1);
  }

  /** The metric-group test's triplet, before sorting. */
  lemma MetricGroupTestUnsorted(expand: Expander)
    requires expand("group1-updated", MetricGroupType) == ["database1/test", "database2/test", "database3/test"]
    ensures Unsorted(Triplet("test1", "source1", "group:group1-updated"), expand) ==
      [Triplet("test1", "source1", "database1/test"),
       Triplet("test1", "source1", "database2/test"),
       Triplet("test1", "source1", "database3/test")]
  {
    var e := Triplet("test1", "source1", "group:group1-updated");
    assert !IsGroupRef(e.source) by { assert e.source[0] != GroupPrefix[0]; }
    assert IsGroupRef(e.metric) by { assert e.metric[..|GroupPrefix|] == GroupPrefix; }
    assert RefName(e.metric) == "group1-updated";
    assert Unsorted(e, expand) == WithMetrics(e.origin, e.source, MetricNames(e, expand));
  }

  /**
   * The metric-group test: `["test1", "source1", "group:group1-updated"]`,
   * whose group expands to three metrics, yields those three triplets in
   * order.
   */
  lemma MetricGroupTestExpansion(expand: Expander)
    requires expand("group1-updated", MetricGroupType) == ["database1/test", "database2/test", "database3/test"]
    ensures ExpandedGroup(Triplet("test1", "source1", "group:group1-updated"), expand, TripletLess) ==
      [Triplet("test1", "source1", "database1/test"),
       Triplet("test1", "source1", "database2/test"),
       Triplet("test1", "source1", "database3/test")]
  {
    var e := Triplet("test1", "source1", "group:group1-updated");
    var want := [Triplet("test1", "source1", "database1/test"),
                 Triplet("test1", "source1", "database2/test"),
                 Triplet("test1", "source1", "database3/test")];
    MetricGroupTestUnsorted(expand);
    assert Sorted(TripletLess, want) by {
      assert StringLess("database1/test", "database2/test");
      assert StringLess("database2/test", "database3/test");
      assert StringLess("database1/test", "database3/test");
      SortedByMetric("test1", "source1", "database1/test", "database2/test", "database3/test");
    }
    TripletLessIsStrictTotal();
    SortIsUnique(TripletLess, Unsorted(e, expand), want);
  }

  /**
   * The source-group test: `["test1", "group:group1-updated", "database1/test"]`,
   * whose group expands to two sources, yields one triplet per source.
   */
  lemma SourceGroupTestExpansion(expand: Expander)
    requires expand("group1-updated", SourceGroupType) == ["source1", "source2"]
    ensures ExpandedGroup(Triplet("test1", "group:group1-updated", "database1/test"), expand, TripletLess) ==
      [Triplet("test1", "source1", "database1/test"),
       Triplet("test1", "source2", "database1/test")]
  {
    var e := Triplet("test1", "group:group1-updated", "database1/test");
    var want := [Triplet("test1", "source1", "database1/test"),
                 Triplet("test1", "source2", "database1/test")];
    assert Unsorted(e, expand) == want by {
      assert IsGroupRef(e.source) by { assert e.source[..|GroupPrefix|] == GroupPrefix; }
      assert !IsGroupRef(e.metric) by { assert e.metric[0] != GroupPrefix[0]; }
      assert RefName(e.source) == "group1-updated";
      assert Unsorted(e, expand) == WithSources(e.origin, SourceNames(e, expand), e.metric);
    }
    assert Sorted(TripletLess, want) by {
      assert StringLess("source1", "source2");
      SortedBySource("test1", "source1", "source2", "database1/test");
    }
    TripletLessIsStrictTotal();
    SortIsUnique(TripletLess, Unsorted(e, expand), want);
  }
}
