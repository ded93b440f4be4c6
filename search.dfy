/**
  The join and filter of handleSearch: every parameter record is paired with
  every dataset descriptor, configs as the outer loop and the dataset as the
  inner one, and a pair yields a row when the query admits it and its
  identifiers match.
 */
module Search {
  import opened Wrappers
  import opened JsText
  import opened JsNumber
  import opened Records
  import opened Resolve

  /**
    The query test for one pair: an empty query admits everything, a numeric
    query (`!isNaN(query)`) admits the parameter whose `var` equals
    `parseInt(query)`, and any other query admits the descriptors whose name
    contains it, both lower-cased.
   */
  predicate QueryMatches(query: string, variable: int, name: string) {
    if query == "" then true
    else if IsNumeric(query) then ParseInt(query) == Some(variable)
    else Contains(ToLower(name), ToLower(query))
  }

  /** The `result` of one inner iteration: the processed row when the query admits the pair, else null. */
  function PairResult(c: Param, d: Descriptor, query: string): Option<Row> {
    if QueryMatches(query, c.variable, d.name) then ProcessConfigData(c, d) else None
  }

  /** The body of the inner loop, for any query: the `result` it computes for a pair. */
  function QueryStep(query: string): (Param, Descriptor) -> Option<Row> {
    (c: Param, d: Descriptor) => PairResult(c, d, query)
  }

  /** What `if (result) filteredResults.push(result)` appends. */
  function Emit(r: Option<Row>): seq<Row> {
    if r.Some? then [r.value] else []
  }

  /** The rows an inner `forEach` over the dataset pushes for one parameter record, in dataset order. */
  function ScanDataset(c: Param, ds: seq<Descriptor>, step: (Param, Descriptor) -> Option<Row>): seq<Row>
    decreases |ds|
  {
    if ds == [] then []
    else ScanDataset(c, ds[..|ds| - 1], step) + Emit(step(c, ds[|ds| - 1]))
  }

  /** The rows the two nested `forEach` loops push: one inner scan per parameter record, in upload order. */
  function NestedScan(cs: seq<Param>, ds: seq<Descriptor>, step: (Param, Descriptor) -> Option<Row>): seq<Row>
    decreases |cs|
  {
    if cs == [] then []
    else NestedScan(cs[..|cs| - 1], ds, step) + ScanDataset(cs[|cs| - 1], ds, step)
  }

  /** The `filteredResults` of handleSearch for the given query. */
  function Search(cs: seq<Param>, ds: seq<Descriptor>, query: string): seq<Row> {
    NestedScan(cs, ds, QueryStep(query))
  }

  /**
    The body of the inner loop of handleSearch: the `result` for one pair,
    by the three query branches, is that pair's PairResult.
   */
  method PairRow(configData: Param, descriptor: Descriptor, query: string) returns (result: Option<Row>)
    ensures result == QueryStep(query)(configData, descriptor)
  {
    result := None;
    if query == "" {
      result := ProcessConfigData(configData, descriptor);
    } else if IsNumeric(query) {
      if ParseInt(query) == Some(configData.variable) {
        result := ProcessConfigData(configData, descriptor);
      }
    } else {
      if Contains(ToLower(descriptor.name), ToLower(query)) {
        result := ProcessConfigData(configData, descriptor);
      }
    }
  }

  /**
    The inner `forEach` of handleSearch for one parameter record: the rows it
    pushes onto `filteredResults` are that record's ScanDataset, and `z`
    grows by their number.
   */
  method ScanRows(configData: Param, dataset: seq<Descriptor>, query: string, filteredResults: seq<Row>, z: nat)
    returns (rows: seq<Row>, count: nat)
    ensures rows == filteredResults + ScanDataset(configData, dataset, QueryStep(query))
    ensures count == z + |ScanDataset(configData, dataset, QueryStep(query))|
  {
    ghost var step := QueryStep(query);
    rows, count := filteredResults, z;
    var j := 0;
    while j < |dataset|
      invariant 0 <= j <= |dataset|
      invariant rows == filteredResults + ScanDataset(configData, dataset[..j], step)
      invariant count == z + |ScanDataset(configData, dataset[..j], step)|
    {
      var descriptor := dataset[j];
      var result := PairRow(configData, descriptor, query);
      ScanStep(configData, dataset, j, step);
      if result.Some? {
        count := count + 1;
        rows := rows + [result.value];
      }
      j := j + 1;
    }
    assert dataset[..|dataset|] == dataset;
  }

  /**
    handleSearch's nested scan, with its counter `z`: the rows are those of
    Search and `z` counts them.
   */
  method SearchRows(configs: seq<Param>, dataset: seq<Descriptor>, query: string)
    returns (filteredResults: seq<Row>, z: nat)
    ensures filteredResults == Search(configs, dataset, query)
    ensures z == |filteredResults|
  {
    z := 0;
    filteredResults := [];
    var i := 0;
    while i < |configs|
      invariant 0 <= i <= |configs|
      invariant filteredResults == NestedScan(configs[..i], dataset, QueryStep(query))
      invariant z == |filteredResults|
    {
      var configData := configs[i];
      filteredResults, z := ScanRows(configData, dataset, query, filteredResults, z);
      NestedStep(configs, dataset, i, QueryStep(query));
      i := i + 1;
    }
    assert configs[..|configs|] == configs;
  }

  /** One more descriptor of the inner loop appends that pair's result. */
  lemma ScanStep(c: Param, ds: seq<Descriptor>, j: nat, step: (Param, Descriptor) -> Option<Row>)
    requires j < |ds|
    ensures ScanDataset(c, ds[..j + 1], step) == ScanDataset(c, ds[..j], step) + Emit(step(c, ds[j]))
  {
    assert ds[..j + 1][..j] == ds[..j] && ds[..j + 1][j] == ds[j];
  }

  /** One more parameter record of the outer loop appends that record's scan. */
  lemma NestedStep(cs: seq<Param>, ds: seq<Descriptor>, i: nat, step: (Param, Descriptor) -> Option<Row>)
    requires i < |cs|
    ensures NestedScan(cs[..i + 1], ds, step) == NestedScan(cs[..i], ds, step) + ScanDataset(cs[i], ds, step)
  {
    assert cs[..i + 1][..i] == cs[..i] && cs[..i + 1][i] == cs[i];
  }

  // ---------------------------------------------------------------------
  // Order: rows are grouped by parameter record in upload order, and within
  // one record by descriptor in dataset order.

  /** Scanning a concatenated dataset is scanning each part in turn. */
  lemma {:induction false} ScanAppend(c: Param, a: seq<Descriptor>, b: seq<Descriptor>, step: (Param, Descriptor) -> Option<Row>)
    ensures ScanDataset(c, a + b, step) == ScanDataset(c, a, step) + ScanDataset(c, b, step)
    decreases |b|
  {
    if b == [] {
      assert a + b == a;
    } else {
      var b', last := b[..|b| - 1], b[|b| - 1];
      assert (a + b)[..|a + b| - 1] == a + b' && (a + b)[|a + b| - 1] == last;
      ScanAppend(c, a, b', step);
      var front, back, tail := ScanDataset(c, a, step), ScanDataset(c, b', step), Emit(step(c, last));
      assert ScanDataset(c, a + b, step) == front + back + tail;
      assert ScanDataset(c, b, step) == back + tail;
      assert front + back + tail == front + (back + tail);
    }
  }

  /** Scanning a concatenated config list is scanning each part in turn. */
  lemma {:induction false} NestedAppend(a: seq<Param>, b: seq<Param>, ds: seq<Descriptor>, step: (Param, Descriptor) -> Option<Row>)
    ensures NestedScan(a + b, ds, step) == NestedScan(a, ds, step) + NestedScan(b, ds, step)
    decreases |b|
  {
    if b == [] {
      assert a + b == a;
    } else {
      var b', last := b[..|b| - 1], b[|b| - 1];
      assert (a + b)[..|a + b| - 1] == a + b' && (a + b)[|a + b| - 1] == last;
      NestedAppend(a, b', ds, step);
      var front, back, tail := NestedScan(a, ds, step), NestedScan(b', ds, step), ScanDataset(last, ds, step);
      assert NestedScan(a + b, ds, step) == front + back + tail;
      assert NestedScan(b, ds, step) == back + tail;
      assert front + back + tail == front + (back + tail);
    }
  }

  /** The rows of config i stand after those of every earlier config and before those of every later one. */
  lemma SearchGroupsByConfig(cs: seq<Param>, ds: seq<Descriptor>, query: string, i: nat)
    requires i < |cs|
    ensures Search(cs, ds, query)
         == Search(cs[..i], ds, query) + ScanDataset(cs[i], ds, QueryStep(query)) + Search(cs[i + 1..], ds, query)
  {
    var step := QueryStep(query);
    assert cs == cs[..i] + [cs[i]] + cs[i + 1..];
    NestedAppend(cs[..i] + [cs[i]], cs[i + 1..], ds, step);
    NestedAppend(cs[..i], [cs[i]], ds, step);
    assert [cs[i]][..0] == [];
  }

  /** Within one config, the row of descriptor j stands between those of earlier and later descriptors. */
  lemma ScanGroupsByDescriptor(c: Param, ds: seq<Descriptor>, query: string, j: nat)
    requires j < |ds|
    ensures ScanDataset(c, ds, QueryStep(query))
         == ScanDataset(c, ds[..j], QueryStep(query)) + Emit(PairResult(c, ds[j], query))
            + ScanDataset(c, ds[j + 1..], QueryStep(query))
  {
    var step := QueryStep(query);
    assert ds == ds[..j] + [ds[j]] + ds[j + 1..];
    ScanAppend(c, ds[..j] + [ds[j]], ds[j + 1..], step);
    ScanAppend(c, ds[..j], [ds[j]], step);
    assert [ds[j]][..0] == [];
  }

  // ---------------------------------------------------------------------
  // Membership: which rows a search returns.

  /** A pair yields a row exactly when its identifiers match and the query admits it. */
  lemma PairResultIff(c: Param, d: Descriptor, query: string, r: Row)
    ensures PairResult(c, d, query) == Some(r)
        <==> c.variable == d.variableId && QueryMatches(query, c.variable, d.name) && r == MakeRow(c, d)
  {
  }

  lemma {:induction false} ScanMembership(c: Param, ds: seq<Descriptor>, step: (Param, Descriptor) -> Option<Row>, r: Row)
    ensures r in ScanDataset(c, ds, step) <==> exists j :: 0 <= j < |ds| && step(c, ds[j]) == Some(r)
    decreases |ds|
  {
    if ds != [] {
      var n := |ds| - 1;
      ScanMembership(c, ds[..n], step, r);
      if r in ScanDataset(c, ds[..n], step) {
        var j :| 0 <= j < n && step(c, ds[..n][j]) == Some(r);
        assert ds[..n][j] == ds[j];
      }
      if exists j :: 0 <= j < |ds| && step(c, ds[j]) == Some(r) {
        var j :| 0 <= j < |ds| && step(c, ds[j]) == Some(r);
        if j < n {
          assert ds[..n][j] == ds[j];
        }
      }
    }
  }

  lemma NestedMembership(cs: seq<Param>, ds: seq<Descriptor>, step: (Param, Descriptor) -> Option<Row>, r: Row)
    ensures r in NestedScan(cs, ds, step)
        <==> exists i, j :: 0 <= i < |cs| && 0 <= j < |ds| && step(cs[i], ds[j]) == Some(r)
  {
    if r in NestedScan(cs, ds, step) {
      NestedSound(cs, ds, step, r);
    }
    if exists i, j :: 0 <= i < |cs| && 0 <= j < |ds| && step(cs[i], ds[j]) == Some(r) {
      var i, j :| 0 <= i < |cs| && 0 <= j < |ds| && step(cs[i], ds[j]) == Some(r);
      NestedComplete(cs, ds, step, r, i, j);
    }
  }

  /** Every row of the nested scan comes from some pair. */
  lemma {:induction false} NestedSound(cs: seq<Param>, ds: seq<Descriptor>, step: (Param, Descriptor) -> Option<Row>, r: Row)
    requires r in NestedScan(cs, ds, step)
    ensures exists i, j :: 0 <= i < |cs| && 0 <= j < |ds| && step(cs[i], ds[j]) == Some(r)
    decreases |cs|
  {
    var n := |cs| - 1;
    var front := cs[..n];
    assert NestedScan(cs, ds, step) == NestedScan(front, ds, step) + ScanDataset(cs[n], ds, step);
    if r in NestedScan(front, ds, step) {
      NestedSound(front, ds, step, r);
      var i, j :| 0 <= i < |front| && 0 <= j < |ds| && step(front[i], ds[j]) == Some(r);
      assert front[i] == cs[i];
      assert step(cs[i], ds[j]) == Some(r);
    } else {
      ScanMembership(cs[n], ds, step, r);
      var j :| 0 <= j < |ds| && step(cs[n], ds[j]) == Some(r);
    }
  }

  /** The row of every pair that yields one is in the nested scan. */
  lemma {:induction false} NestedComplete(cs: seq<Param>, ds: seq<Descriptor>, step: (Param, Descriptor) -> Option<Row>, r: Row, i: nat, j: nat)
    requires i < |cs| && j < |ds| && step(cs[i], ds[j]) == Some(r)
    ensures r in NestedScan(cs, ds, step)
    decreases |cs|
  {
    var n := |cs| - 1;
    var front := cs[..n];
    assert NestedScan(cs, ds, step) == NestedScan(front, ds, step) + ScanDataset(cs[n], ds, step);
    if i < n {
      assert front[i] == cs[i];
      NestedComplete(front, ds, step, r, i, j);
    } else {
      ScanMembership(cs[n], ds, step, r);
    }
  }

  /** A row is in the result exactly when some (config, descriptor) pair yields it. */
  lemma SearchMembership(cs: seq<Param>, ds: seq<Descriptor>, query: string, r: Row)
    ensures r in Search(cs, ds, query)
        <==> exists i, j :: 0 <= i < |cs| && 0 <= j < |ds| && PairResult(cs[i], ds[j], query) == Some(r)
  {
    NestedMembership(cs, ds, QueryStep(query), r);
  }

  /** With the empty query, a row is returned exactly when it is the row of some pair with matching identifiers. */
  lemma EmptyQueryIsJoin(cs: seq<Param>, ds: seq<Descriptor>, r: Row)
    ensures r in Search(cs, ds, "")
        <==> exists i, j :: 0 <= i < |cs| && 0 <= j < |ds| && cs[i].variable == ds[j].variableId && r == MakeRow(cs[i], ds[j])
  {
    SearchMembership(cs, ds, "", r);
    if exists i, j :: 0 <= i < |cs| && 0 <= j < |ds| && cs[i].variable == ds[j].variableId && r == MakeRow(cs[i], ds[j]) {
      var i, j :| 0 <= i < |cs| && 0 <= j < |ds| && cs[i].variable == ds[j].variableId && r == MakeRow(cs[i], ds[j]);
      assert PairResult(cs[i], ds[j], "") == Some(r);
    }
  }

  // ---------------------------------------------------------------------
  // Count: one row per admitted pair.

  /** The index pairs (i, j) whose config and descriptor yield a row. */
  ghost function KeptPairs(cs: seq<Param>, ds: seq<Descriptor>, step: (Param, Descriptor) -> Option<Row>): set<(int, int)> {
    set i, j | 0 <= i < |cs| && 0 <= j < |ds| && step(cs[i], ds[j]).Some? :: (i, j)
  }

  /** The index pairs of config position i, standing for `c`, that yield a row. */
  ghost function KeptInRow(i: int, c: Param, ds: seq<Descriptor>, step: (Param, Descriptor) -> Option<Row>): set<(int, int)> {
    set j | 0 <= j < |ds| && step(c, ds[j]).Some? :: (i, j)
  }

  lemma {:induction false} ScanCount(i: int, c: Param, ds: seq<Descriptor>, step: (Param, Descriptor) -> Option<Row>)
    ensures |ScanDataset(c, ds, step)| == |KeptInRow(i, c, ds, step)|
    decreases |ds|
  {
    if ds == [] {
      assert KeptInRow(i, c, ds, step) == {};
    } else {
      var n := |ds| - 1;
      ScanCount(i, c, ds[..n], step);
      var before := KeptInRow(i, c, ds[..n], step);
      var last: set<(int, int)> := if step(c, ds[n]).Some? then {(i, n)} else {};
      assert KeptInRow(i, c, ds, step) == before + last by {
        forall p | p in KeptInRow(i, c, ds, step) ensures p in before + last {
          var j := p.1;
          if j < n {
            assert ds[..n][j] == ds[j];
          }
        }
        forall p | p in before ensures p in KeptInRow(i, c, ds, step) {
          assert ds[..n][p.1] == ds[p.1];
        }
      }
      assert (i, n) !in before;
    }
  }

  /** The kept pairs of a config list are those of its front and those of its last config. */
  lemma KeptPairsSplit(cs: seq<Param>, ds: seq<Descriptor>, step: (Param, Descriptor) -> Option<Row>)
    requires cs != []
    ensures KeptPairs(cs, ds, step) == KeptPairs(cs[..|cs| - 1], ds, step) + KeptInRow(|cs| - 1, cs[|cs| - 1], ds, step)
    ensures KeptPairs(cs[..|cs| - 1], ds, step) * KeptInRow(|cs| - 1, cs[|cs| - 1], ds, step) == {}
  {
    var n := |cs| - 1;
    var front := cs[..n];
    var before := KeptPairs(front, ds, step);
    var row := KeptInRow(n, cs[n], ds, step);
    forall p | p in KeptPairs(cs, ds, step) ensures p in before + row {
      if p.0 < n {
        assert front[p.0] == cs[p.0];
      }
    }
    forall p | p in before ensures p in KeptPairs(cs, ds, step) {
      assert front[p.0] == cs[p.0];
    }
    forall p | p in before ensures p !in row {
    }
  }

  lemma {:induction false} NestedCount(cs: seq<Param>, ds: seq<Descriptor>, step: (Param, Descriptor) -> Option<Row>)
    ensures |NestedScan(cs, ds, step)| == |KeptPairs(cs, ds, step)|
    decreases |cs|
  {
    if cs == [] {
      assert KeptPairs(cs, ds, step) == {};
    } else {
      var n := |cs| - 1;
      NestedCount(cs[..n], ds, step);
      ScanCount(n, cs[n], ds, step);
      KeptPairsSplit(cs, ds, step);
    }
  }

  /** A search returns exactly one row per (config, descriptor) pair that yields one. */
  lemma SearchCount(cs: seq<Param>, ds: seq<Descriptor>, query: string)
    ensures |Search(cs, ds, query)|
         == |set i, j | 0 <= i < |cs| && 0 <= j < |ds| && PairResult(cs[i], ds[j], query).Some? :: (i, j)|
  {
    NestedCount(cs, ds, QueryStep(query));
    assert KeptPairs(cs, ds, QueryStep(query))
        == set i, j | 0 <= i < |cs| && 0 <= j < |ds| && PairResult(cs[i], ds[j], query).Some? :: (i, j);
  }

  /** With the empty query, the result has one row per pair whose identifiers match. */
  lemma EmptyQueryCount(cs: seq<Param>, ds: seq<Descriptor>)
    ensures |Search(cs, ds, "")|
         == |set i, j | 0 <= i < |cs| && 0 <= j < |ds| && cs[i].variable == ds[j].variableId :: (i, j)|
  {
    NestedCount(cs, ds, QueryStep(""));
    assert KeptPairs(cs, ds, QueryStep(""))
        == set i, j | 0 <= i < |cs| && 0 <= j < |ds| && cs[i].variable == ds[j].variableId :: (i, j);
  }

  // ---------------------------------------------------------------------
  // Filtering: every query keeps a subsequence of the empty query's rows.

  /** Does the query admit the row's `var` and `name`? */
  function Admits(query: string): Row -> bool {
    (r: Row) => QueryMatches(query, r.variable, r.name)
  }

  /** The rows of `rows` that `keep` accepts, in order. */
  function FilterRows(rows: seq<Row>, keep: Row -> bool): seq<Row>
    decreases |rows|
  {
    if rows == [] then []
    else
      var last := rows[|rows| - 1];
      FilterRows(rows[..|rows| - 1], keep) + (if keep(last) then [last] else [])
  }

  lemma {:induction false} FilterAppend(a: seq<Row>, b: seq<Row>, keep: Row -> bool)
    ensures FilterRows(a + b, keep) == FilterRows(a, keep) + FilterRows(b, keep)
    decreases |b|
  {
    if b == [] {
      assert a + b == a;
    } else {
      var b' := b[..|b| - 1];
      assert (a + b)[..|a + b| - 1] == a + b';
      FilterAppend(a, b', keep);
    }
  }

  /** A row survives the filter exactly when it is in the input and accepted. */
  lemma {:induction false} FilterMembership(rows: seq<Row>, keep: Row -> bool, r: Row)
    ensures r in FilterRows(rows, keep) <==> r in rows && keep(r)
    decreases |rows|
  {
    if rows != [] {
      var n := |rows| - 1;
      FilterMembership(rows[..n], keep, r);
      assert rows == rows[..n] + [rows[n]];
    }
  }

  /** Two tests that accept the same rows filter alike. */
  lemma {:induction false} FilterAgrees(rows: seq<Row>, keep1: Row -> bool, keep2: Row -> bool)
    requires forall r :: r in rows ==> keep1(r) == keep2(r)
    ensures FilterRows(rows, keep1) == FilterRows(rows, keep2)
    decreases |rows|
  {
    if rows != [] {
      var n := |rows| - 1;
      assert rows[n] in rows;
      forall r | r in rows[..n] ensures r in rows {
      }
      FilterAgrees(rows[..n], keep1, keep2);
    }
  }

  /** A step that refines another by a row test yields the other's rows, filtered by that test. */
  lemma {:induction false} ScanRefines(c: Param, ds: seq<Descriptor>, all: (Param, Descriptor) -> Option<Row>,
                                       some: (Param, Descriptor) -> Option<Row>, keep: Row -> bool)
    requires forall d :: some(c, d) == (if all(c, d).Some? && keep(all(c, d).value) then all(c, d) else None)
    ensures ScanDataset(c, ds, some) == FilterRows(ScanDataset(c, ds, all), keep)
    decreases |ds|
  {
    if ds != [] {
      var n := |ds| - 1;
      ScanRefines(c, ds[..n], all, some, keep);
      var last := Emit(all(c, ds[n]));
      FilterAppend(ScanDataset(c, ds[..n], all), last, keep);
      if last != [] {
        assert last[..0] == [];
      }
    }
  }

  lemma {:induction false} NestedRefines(cs: seq<Param>, ds: seq<Descriptor>, all: (Param, Descriptor) -> Option<Row>,
                                         some: (Param, Descriptor) -> Option<Row>, keep: Row -> bool)
    requires forall c, d :: some(c, d) == (if all(c, d).Some? && keep(all(c, d).value) then all(c, d) else None)
    ensures NestedScan(cs, ds, some) == FilterRows(NestedScan(cs, ds, all), keep)
    decreases |cs|
  {
    if cs != [] {
      var n := |cs| - 1;
      NestedRefines(cs[..n], ds, all, some, keep);
      ScanRefines(cs[n], ds, all, some, keep);
      FilterAppend(NestedScan(cs[..n], ds, all), ScanDataset(cs[n], ds, all), keep);
    }
  }

  /** For one pair, a query's result is the empty query's result when the query admits that row. */
  lemma PairRefines(c: Param, d: Descriptor, query: string)
    ensures QueryStep(query)(c, d)
         == (if QueryStep("")(c, d).Some? && Admits(query)(QueryStep("")(c, d).value) then QueryStep("")(c, d) else None)
  {
  }

  /** Every query's result is the empty query's result with the rows the query does not admit taken out. */
  lemma SearchIsFilter(cs: seq<Param>, ds: seq<Descriptor>, query: string)
    ensures Search(cs, ds, query) == FilterRows(Search(cs, ds, ""), Admits(query))
  {
    forall c, d ensures QueryStep(query)(c, d)
        == (if QueryStep("")(c, d).Some? && Admits(query)(QueryStep("")(c, d).value) then QueryStep("")(c, d) else None) {
      PairRefines(c, d, query);
    }
    NestedRefines(cs, ds, QueryStep(""), QueryStep(query), Admits(query));
  }

  /** The elements of `rows` whose flag in `keep` is set, in order. */
  function Select(rows: seq<Row>, keep: seq<bool>): seq<Row>
    requires |keep| == |rows|
    decreases |rows|
  {
    if rows == [] then []
    else Select(rows[..|rows| - 1], keep[..|rows| - 1]) + (if keep[|rows| - 1] then [rows[|rows| - 1]] else [])
  }

  /** `sub` is obtained from `rows` by deleting elements, keeping the order of the others. */
  ghost predicate IsSubsequence(sub: seq<Row>, rows: seq<Row>) {
    exists keep: seq<bool> :: |keep| == |rows| && Select(rows, keep) == sub
  }

  lemma {:induction false} FilterSelects(rows: seq<Row>, keep: Row -> bool)
    ensures Select(rows, seq(|rows|, k requires 0 <= k < |rows| => keep(rows[k]))) == FilterRows(rows, keep)
    decreases |rows|
  {
    if rows != [] {
      var n := |rows| - 1;
      var flags := seq(|rows|, k requires 0 <= k < |rows| => keep(rows[k]));
      FilterSelects(rows[..n], keep);
      assert flags[..n] == seq(n, k requires 0 <= k < n => keep(rows[..n][k]));
    }
  }

  /** Every query returns a subsequence of what the empty query returns. */
  lemma SearchIsSubsequenceOfAll(cs: seq<Param>, ds: seq<Descriptor>, query: string)
    ensures IsSubsequence(Search(cs, ds, query), Search(cs, ds, ""))
  {
    var all := Search(cs, ds, "");
    SearchIsFilter(cs, ds, query);
    FilterSelects(all, Admits(query));
    var flags := seq(|all|, k requires 0 <= k < |all| => Admits(query)(all[k]));
    assert Select(all, flags) == Search(cs, ds, query);
  }

  /** With a numeric query, every row's `var` is `parseInt(query)`. */
  lemma NumericQueryRows(cs: seq<Param>, ds: seq<Descriptor>, query: string)
    requires query != "" && IsNumeric(query)
    ensures forall r :: r in Search(cs, ds, query) ==> ParseInt(query) == Some(r.variable)
  {
    SearchIsFilter(cs, ds, query);
    forall r | r in Search(cs, ds, query) ensures ParseInt(query) == Some(r.variable) {
      FilterMembership(Search(cs, ds, ""), Admits(query), r);
    }
  }

  /** With a non-empty, non-numeric query, every row's name contains the query, ignoring case. */
  lemma NameQueryRows(cs: seq<Param>, ds: seq<Descriptor>, query: string)
    requires query != "" && !IsNumeric(query)
    ensures forall r :: r in Search(cs, ds, query) ==> Contains(ToLower(r.name), ToLower(query))
  {
    SearchIsFilter(cs, ds, query);
    forall r | r in Search(cs, ds, query) ensures Contains(ToLower(r.name), ToLower(query)) {
      FilterMembership(Search(cs, ds, ""), Admits(query), r);
    }
  }

  /** Searching for a variable's ID as typed returns exactly the rows of that variable. */
  lemma IdQueryRows(cs: seq<Param>, ds: seq<Descriptor>, v: int, r: Row)
    ensures r in Search(cs, ds, IntToString(v)) <==> r in Search(cs, ds, "") && r.variable == v
  {
    IntToStringIsNumeric(v);
    SearchIsFilter(cs, ds, IntToString(v));
    FilterMembership(Search(cs, ds, ""), Admits(IntToString(v)), r);
  }

  /** Name queries that differ only in letter case return the same rows. */
  lemma NameQueryIgnoresCase(cs: seq<Param>, ds: seq<Descriptor>, q1: string, q2: string)
    requires q1 != "" && q2 != "" && !IsNumeric(q1) && !IsNumeric(q2)
    requires ToLower(q1) == ToLower(q2)
    ensures Search(cs, ds, q1) == Search(cs, ds, q2)
  {
    SearchIsFilter(cs, ds, q1);
    SearchIsFilter(cs, ds, q2);
    FilterAgrees(Search(cs, ds, ""), Admits(q1), Admits(q2));
  }

  /** A search over one config and one descriptor is that pair's result. */
  lemma SearchSinglePair(c: Param, d: Descriptor, query: string)
    ensures Search([c], [d], query) == Emit(PairResult(c, d, query))
  {
    var step := QueryStep(query);
    assert [c][..0] == [] && [d][..0] == [];
    assert ScanDataset(c, [d], step) == Emit(step(c, d));
    assert NestedScan([c], [d], step) == ScanDataset(c, [d], step);
  }

  /** The worked scenario, empty query: the fan-speed parameter yields its one resolved row. */
  lemma FanSpeedSearchAll()
    ensures Search([Param(7, Scalar(0), StrVal("1"), "rw")],
                   [Descriptor(7, "Fan Speed", Lookup(map["0" := "Low", "1" := "High"]))], "")
         == [Row(7, "Fan Speed", "[0]", "High (1)", "rw")]
  {
    var c := Param(7, Scalar(0), StrVal("1"), "rw");
    var d := Descriptor(7, "Fan Speed", Lookup(map["0" := "Low", "1" := "High"]));
    FanSpeedRow();
    SearchSinglePair(c, d, "");
  }

  /** A search for another variable's ID finds nothing in a one-pair search. */
  lemma OtherIdFindsNothing(c: Param, d: Descriptor, v: int)
    requires v != c.variable
    ensures Search([c], [d], IntToString(v)) == []
  {
    IntToStringIsNumeric(v);
    assert !QueryMatches(IntToString(v), c.variable, d.name);
    SearchSinglePair(c, d, IntToString(v));
  }

  /** The worked scenario, query "99": no row, since 99 is not the parameter's `var`. */
  lemma FanSpeedSearchOtherId()
    ensures Search([Param(7, Scalar(0), StrVal("1"), "rw")],
                   [Descriptor(7, "Fan Speed", Lookup(map["0" := "Low", "1" := "High"]))], "99")
         == []
  {
    assert DigitChar(9) == '9';
    assert NatToString(9) == "9";
    assert NatToString(99) == "99";
    assert IntToString(99) == "99";
    OtherIdFindsNothing(Param(7, Scalar(0), StrVal("1"), "rw"),
                        Descriptor(7, "Fan Speed", Lookup(map["0" := "Low", "1" := "High"])), 99);
  }
}
