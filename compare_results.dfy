/** The regression comparison between two result files (compare_results.py):
    each file's records are indexed by suite and name, and every key of
    either run is classified in sorted order. Reading the files is left out:
    a file is given as its parsed content, `None` when it does not exist. */
module CompareResults {
  import opened Wrappers
  import opened Text
  import opened Values

  /** `(str(suite), str(name))` */
  type Key = (string, string)

  type Index = map<Key, Dict>

  // ---------------------------------------------------------------------
  // load_results
  // ---------------------------------------------------------------------

  /** The key of a record, `""` standing in for a missing field. */
  function KeyOf(entry: Dict): Key {
    (PyStr(LookupOr(entry, "suite", VStr(""))), PyStr(LookupOr(entry, "name", VStr(""))))
  }

  /** The index of the first `|items|` entries, or the error for the first
      entry that is not a mapping. */
  function IndexOf(path: string, items: seq<Value>): Result<Index>
    decreases |items|
  {
    if items == [] then Ok(map[])
    else
      var n := |items| - 1;
      var before := IndexOf(path, items[..n]);
      if before.Err? then before
      else if !items[n].VDict? then Err("Invalid entry in " + path)
      else Ok(before.value[KeyOf(items[n].entries) := items[n].entries])
  }

  /** What `load_results` returns for the file at `path`. */
  function LoadedResults(path: string, payload: Option<Value>): Result<Index> {
    if payload.None? then Err("Results file not found: " + path)
    else if !payload.value.VList? then Err("Unexpected results format in " + path)
    else IndexOf(path, payload.value.items)
  }

  /** `load_results`, given the file's parsed content. */
  method LoadResults(path: string, payload: Option<Value>) returns (r: Result<Index>)
    ensures r == LoadedResults(path, payload)
  {
    if payload.None? {
      return Err("Results file not found: " + path);
    }
    if !payload.value.VList? {
      return Err("Unexpected results format in " + path);
    }
    var items := payload.value.items;
    var index: Index := map[];
    var i := 0;
    while i < |items|
      invariant 0 <= i <= |items|
      invariant IndexOf(path, items[..i]) == Ok(index)
    {
      assert items[..i + 1][..i] == items[..i];
      var item := items[i];
      if !item.VDict? {
        assert IndexOf(path, items[..i + 1]).Err?;
        IndexOfFirstError(path, items, i + 1);
        return Err("Invalid entry in " + path);
      }
      index := index[KeyOf(item.entries) := item.entries];
      i := i + 1;
    }
    assert items[..i] == items;
    r := Ok(index);
  }

  lemma {:induction false} IndexOfFirstError(path: string, items: seq<Value>, j: nat)
    requires j <= |items| && IndexOf(path, items[..j]).Err?
    ensures IndexOf(path, items) == IndexOf(path, items[..j])
    decreases |items| - j
  {
    if j < |items| {
      var n := |items| - 1;
      assert items[..n][..j] == items[..j];
      if j < n {
        IndexOfFirstError(path, items[..n], j);
      } else {
        assert items[..j] == items[..n];
      }
    } else {
      assert items[..j] == items;
    }
  }

  /** Loading fails exactly when some entry is not a mapping. */
  lemma {:induction false} IndexOfRejects(path: string, items: seq<Value>)
    ensures IndexOf(path, items).Err? <==> exists i :: 0 <= i < |items| && !items[i].VDict?
    decreases |items|
  {
    if items != [] {
      var n := |items| - 1;
      var prefix := items[..n];
      IndexOfRejects(path, prefix);
      assert IndexOf(path, items).Err? <==> IndexOf(path, prefix).Err? || !items[n].VDict?;
      assert (exists i :: 0 <= i < n && !prefix[i].VDict?) <==> (exists i :: 0 <= i < n && !items[i].VDict?) by {
        assert forall i :: 0 <= i < n ==> prefix[i] == items[i];
      }
    }
  }

  /** Every record is indexed under its key, and a key holds the last record
      that has it: a later record overwrites an earlier one. */
  lemma {:induction false} IndexHoldsLastRecord(path: string, items: seq<Value>, k: Key)
    requires IndexOf(path, items).Ok?
    ensures var index := IndexOf(path, items).value;
            && (k in index <==> exists i :: 0 <= i < |items| && items[i].VDict? && KeyOf(items[i].entries) == k)
            && (k in index ==> exists i :: && 0 <= i < |items| && items[i] == VDict(index[k])
                                           && KeyOf(index[k]) == k
                                           && forall j :: i < j < |items| && items[j].VDict? ==> KeyOf(items[j].entries) != k)
    decreases |items|
  {
    if items != [] {
      var n := |items| - 1;
      var before := IndexOf(path, items[..n]);
      assert before.Ok?;
      IndexHoldsLastRecord(path, items[..n], k);
      assert forall i :: 0 <= i < n ==> items[..n][i] == items[i];
      var index := IndexOf(path, items).value;
      var last := items[n].entries;
      if KeyOf(last) == k {
        assert index[k] == last;
      } else if k in index {
        assert index[k] == before.value[k];
        var i :| && 0 <= i < n && items[..n][i] == VDict(before.value[k])
                 && KeyOf(before.value[k]) == k
                 && forall j :: i < j < n && items[..n][j].VDict? ==> KeyOf(items[..n][j].entries) != k;
        assert forall j :: i < j < |items| && items[j].VDict? ==> KeyOf(items[j].entries) != k by {
          forall j | i < j < |items| && items[j].VDict? ensures KeyOf(items[j].entries) != k {
            if j < n {
              assert items[..n][j] == items[j];
            }
          }
        }
      }
    }
  }

  // ---------------------------------------------------------------------
  // Key order
  // ---------------------------------------------------------------------

  /** Python's `<` on strings: by code point, a proper prefix first. */
  predicate StrLess(a: string, b: string)
    decreases |a|
  {
    b != [] && (a == [] || a[0] < b[0] || (a[0] == b[0] && StrLess(a[1..], b[1..])))
  }

  /** Python's `<` on pairs of strings. */
  predicate KeyLess(x: Key, y: Key) {
    StrLess(x.0, y.0) || (x.0 == y.0 && StrLess(x.1, y.1))
  }

  lemma {:induction false} StrLessIrreflexive(a: string)
    ensures !StrLess(a, a)
    decreases |a|
  {
    if a != [] {
      StrLessIrreflexive(a[1..]);
    }
  }

  lemma {:induction false} StrLessTransitive(a: string, b: string, c: string)
    requires StrLess(a, b) && StrLess(b, c)
    ensures StrLess(a, c)
    decreases |a|
  {
    if a != [] && a[0] == b[0] && b[0] == c[0] {
      StrLessTransitive(a[1..], b[1..], c[1..]);
    }
  }

  lemma {:induction false} StrLessTotal(a: string, b: string)
    requires a != b
    ensures StrLess(a, b) || StrLess(b, a)
    decreases |a|
  {
    if a != [] && b != [] && a[0] == b[0] {
      assert a == [a[0]] + a[1..] && b == [b[0]] + b[1..];
      StrLessTotal(a[1..], b[1..]);
    }
  }

  lemma {:induction false} StrLessAsymmetric(a: string, b: string)
    requires StrLess(a, b)
    ensures !StrLess(b, a)
  {
    if StrLess(b, a) {
      StrLessTransitive(a, b, a);
      StrLessIrreflexive(a);
    }
  }

  /** `KeyLess` is a strict total order. */
  lemma KeyOrder(x: Key, y: Key, z: Key)
    ensures !KeyLess(x, x)
    ensures KeyLess(x, y) && KeyLess(y, z) ==> KeyLess(x, z)
    ensures x != y ==> KeyLess(x, y) || KeyLess(y, x)
  {
    StrLessIrreflexive(x.0);
    StrLessIrreflexive(x.1);
    if KeyLess(x, y) && KeyLess(y, z) {
      if StrLess(x.0, y.0) && StrLess(y.0, z.0) {
        StrLessTransitive(x.0, y.0, z.0);
      } else if x.1 != [] || y.1 != [] || z.1 != [] {
        if StrLess(x.1, y.1) && StrLess(y.1, z.1) {
          StrLessTransitive(x.1, y.1, z.1);
        }
      }
    }
    if x != y {
      if x.0 != y.0 {
        StrLessTotal(x.0, y.0);
      } else {
        StrLessTotal(x.1, y.1);
      }
    }
  }

  /** A non-empty set of keys has a least element. */
  lemma {:induction false} LeastKeyExists(s: set<Key>)
    requires s != {}
    ensures exists m :: m in s && forall k :: k in s ==> !KeyLess(k, m)
    decreases |s|
  {
    var x :| x in s;
    var rest := s - {x};
    if rest == {} {
      assert s == {x};
      KeyOrder(x, x, x);
    } else {
      LeastKeyExists(rest);
      var m :| m in rest && forall k :: k in rest ==> !KeyLess(k, m);
      if KeyLess(x, m) {
        forall k | k in s ensures !KeyLess(k, x) {
          KeyOrder(k, x, m);
        }
      } else {
        assert forall k :: k in s ==> !KeyLess(k, m);
      }
    }
  }

  // ---------------------------------------------------------------------
  // compare
  // ---------------------------------------------------------------------

  /** What `compare` reports for one key. */
  datatype Verdict =
    | Added          // only in the patched run
    | Missing        // only in the baseline
    | BothPassed     // `passed` in both runs
    | StatusChanged  // the status differs
    | StillFailing   // the same status, other than `passed`

  predicate IsRegression(v: Verdict) {
    v.Missing? || v.StatusChanged? || v.StillFailing?
  }

  /** `entry.get("status")`: a missing status and a `null` one are both `None`. */
  function Status(entry: Dict): Value {
    LookupOr(entry, "status", VNone)
  }

  const PassedStatus: Value := VStr("passed")

  /** The branch `compare` takes for a key of either run. */
  function Classify(baseline: Index, patched: Index, k: Key): (v: Verdict)
    requires k in baseline || k in patched
    ensures v == Added <==> k !in baseline
    ensures v == Missing <==> k in baseline && k !in patched
    ensures v == BothPassed <==>
              k in baseline && k in patched && Status(baseline[k]) == Status(patched[k]) == PassedStatus
    ensures v == StatusChanged <==> k in baseline && k in patched && Status(baseline[k]) != Status(patched[k])
    ensures v == StillFailing <==>
              k in baseline && k in patched && Status(baseline[k]) == Status(patched[k]) != PassedStatus
  {
    if k !in baseline then Added
    else if k !in patched then Missing
    else if Status(baseline[k]) == PassedStatus && Status(patched[k]) == PassedStatus then BothPassed
    else if Status(baseline[k]) != Status(patched[k]) then StatusChanged
    else StillFailing
  }

  /** A `null` status and a missing one are the same status: a key with one
      of each is still failing, not a changed status. */
  lemma NullStatusIsMissingStatus(k: Key)
    ensures var baseline := map[k := [("status", VNone)]];
            var patched := map[k := []];
            Classify(baseline, patched, k) == StillFailing
  {
  }

  /** `float(v)`: numbers and strings spelling an integer convert. */
  predicate FloatConvertible(v: Value) {
    v.VInt? || v.VBool? || (v.VStr? && ParseInt(v.s).Some?)
  }

  /** `float(entry.get("duration_s", 0.0))` does not raise. */
  predicate DurationConverts(entry: Dict) {
    var d := Lookup(entry, "duration_s");
    d.None? || FloatConvertible(d.value)
  }

  /** A key whose processing raises: an added record, or either record of
      a key in both runs, with a duration `float` rejects. */
  predicate ConversionFails(baseline: Index, patched: Index, k: Key) {
    || (k !in baseline && k in patched && !DurationConverts(patched[k]))
    || (k in baseline && k in patched && (!DurationConverts(baseline[k]) || !DurationConverts(patched[k])))
  }

  function AllKeys(baseline: Index, patched: Index): set<Key> {
    baseline.Keys + patched.Keys
  }

  /** `k` is counted as a regression. */
  predicate IsRegressionKey(baseline: Index, patched: Index, k: Key) {
    k in baseline && IsRegression(Classify(baseline, patched, k))
  }

  /** The keys that count as regressions. */
  function RegressionKeys(baseline: Index, patched: Index): set<Key> {
    set k | k in baseline.Keys && IsRegressionKey(baseline, patched, k)
  }

  /** The number of regressions among `keys`, counted one by one. */
  function RegressionCount(baseline: Index, patched: Index, keys: seq<Key>): nat
    decreases |keys|
  {
    if keys == [] then 0
    else
      var n := |keys| - 1;
      RegressionCount(baseline, patched, keys[..n]) + if IsRegressionKey(baseline, patched, keys[n]) then 1 else 0
  }

  /** Counted over keys that are all different, the count is the size of
      the set of regression keys among them. */
  lemma {:induction false} RegressionCountIsSize(baseline: Index, patched: Index, keys: seq<Key>)
    requires forall i, j :: 0 <= i < j < |keys| ==> keys[i] != keys[j]
    ensures RegressionCount(baseline, patched, keys)
         == |set k | k in keys && IsRegressionKey(baseline, patched, k)|
    decreases |keys|
  {
    if keys != [] {
      var n := |keys| - 1;
      RegressionCountIsSize(baseline, patched, keys[..n]);
      var before := set k | k in keys[..n] && IsRegressionKey(baseline, patched, k);
      var after := set k | k in keys && IsRegressionKey(baseline, patched, k);
      assert keys == keys[..n] + [keys[n]];
      assert keys[n] !in keys[..n];
      if IsRegressionKey(baseline, patched, keys[n]) {
        assert after == before + {keys[n]};
      } else {
        assert after == before;
      }
    }
  }

  /** The report of a comparison: every key with its verdict, in order, and
      the number of regressions. */
  datatype Comparison = Comparison(report: seq<(Key, Verdict)>, regressions: nat)

  /** The keys of a report, in report order. */
  function Visited(report: seq<(Key, Verdict)>): (keys: seq<Key>)
    ensures |keys| == |report| && forall i :: 0 <= i < |report| ==> keys[i] == report[i].0
  {
    seq(|report|, i requires 0 <= i < |report| => report[i].0)
  }

  predicate StrictlySorted(keys: seq<Key>) {
    forall i, j :: 0 <= i < j < |keys| ==> KeyLess(keys[i], keys[j])
  }

  /** `sorted(keys)`: the keys of a set in increasing order, each once. */
  method SortKeys(s: set<Key>) returns (keys: seq<Key>)
    ensures StrictlySorted(keys)
    ensures forall k :: k in keys <==> k in s
    ensures |keys| == |s|
  {
    var remaining := s;
    keys := [];
    while remaining != {}
      invariant remaining <= s
      invariant forall k :: k in s <==> k in keys || k in remaining
      invariant forall k :: k in keys ==> k !in remaining
      invariant StrictlySorted(keys)
      invariant forall i, k :: 0 <= i < |keys| && k in remaining ==> KeyLess(keys[i], k)
      invariant |keys| + |remaining| == |s|
      decreases |remaining|
    {
      LeastKeyExists(remaining);
      var key :| key in remaining && forall k :: k in remaining ==> !KeyLess(k, key);
      forall k | k in remaining && k != key ensures KeyLess(key, k) {
        KeyOrder(key, k, key);
      }
      keys := keys + [key];
      remaining := remaining - {key};
    }
  }

  /** No key of `keys` makes the comparison raise. */
  predicate NoneFails(baseline: Index, patched: Index, keys: seq<Key>)
    decreases |keys|
  {
    keys == [] || (NoneFails(baseline, patched, keys[..|keys| - 1])
                   && !ConversionFails(baseline, patched, keys[|keys| - 1]))
  }

  lemma {:induction false} NoneFailsMeans(baseline: Index, patched: Index, keys: seq<Key>)
    ensures NoneFails(baseline, patched, keys) <==> forall j :: 0 <= j < |keys| ==> !ConversionFails(baseline, patched, keys[j])
    decreases |keys|
  {
    if keys != [] {
      var n := |keys| - 1;
      NoneFailsMeans(baseline, patched, keys[..n]);
      assert forall j :: 0 <= j < n ==> keys[..n][j] == keys[j];
    }
  }

  /** The loop of `compare` over keys in the order given: the number of
      regressions, or the error of the first key whose duration `float`
      rejects. */
  method CountRegressions(baseline: Index, patched: Index, keys: seq<Key>) returns (r: Result<nat>)
    requires forall j :: 0 <= j < |keys| ==> keys[j] in baseline || keys[j] in patched
    ensures r.Err? <==> !NoneFails(baseline, patched, keys)
    ensures r.Ok? ==> r.value == RegressionCount(baseline, patched, keys)
  {
    var regressions := 0;
    var i := 0;
    while i < |keys|
      invariant 0 <= i <= |keys|
      invariant NoneFails(baseline, patched, keys[..i])
      invariant regressions == RegressionCount(baseline, patched, keys[..i])
    {
      var key := keys[i];
      assert keys[..i + 1][..i] == keys[..i];
      if ConversionFails(baseline, patched, key) {
        NoneFailsPrefix(baseline, patched, keys, i + 1);
        return Err("could not convert duration_s to float");
      }
      if IsRegression(Classify(baseline, patched, key)) && key in baseline {
        regressions := regressions + 1;
      }
      i := i + 1;
    }
    assert keys[..i] == keys;
    r := Ok(regressions);
  }

  lemma {:induction false} NoneFailsPrefix(baseline: Index, patched: Index, keys: seq<Key>, j: nat)
    requires j <= |keys| && !NoneFails(baseline, patched, keys[..j])
    ensures !NoneFails(baseline, patched, keys)
    decreases |keys| - j
  {
    if j < |keys| {
      var n := |keys| - 1;
      assert keys[..n][..j] == keys[..j];
      if j < n {
        NoneFailsPrefix(baseline, patched, keys[..n], j);
      } else {
        assert keys[..j] == keys[..n];
      }
    } else {
      assert keys[..j] == keys;
    }
  }

  /** `compare`: visits the sorted union of both indexes once, classifies
      each key and counts the regressions. */
  method Compare(baseline: Index, patched: Index) returns (r: Result<Comparison>)
    ensures r.Err? <==> exists k :: k in AllKeys(baseline, patched) && ConversionFails(baseline, patched, k)
    ensures r.Ok? ==>
              var report := r.value.report;
              && StrictlySorted(Visited(report))
              && (forall k :: k in AllKeys(baseline, patched) <==> k in Visited(report))
              && (forall i :: 0 <= i < |report| ==>
                    report[i].0 in AllKeys(baseline, patched)
                    && report[i].1 == Classify(baseline, patched, report[i].0))
              && r.value.regressions == |RegressionKeys(baseline, patched)|
  {
    var keys := SortKeys(AllKeys(baseline, patched));
    assert forall j :: 0 <= j < |keys| ==> keys[j] in baseline || keys[j] in patched by {
      forall j | 0 <= j < |keys| ensures keys[j] in baseline || keys[j] in patched {
        assert keys[j] in keys;
      }
    }
    NoneFailsMeans(baseline, patched, keys);
    var regressions := CountRegressions(baseline, patched, keys);
    if regressions.Err? {
      var j :| 0 <= j < |keys| && ConversionFails(baseline, patched, keys[j]);
      assert keys[j] in keys;
      return Err(regressions.error);
    }
    var report := seq(|keys|, j requires 0 <= j < |keys| => (keys[j], Classify(baseline, patched, keys[j])));
    assert Visited(report) == keys;
    CompareCount(baseline, patched, keys);
    r := Ok(Comparison(report, regressions.value));
  }

  /** Over the sorted union of keys, the count is the number of regression keys. */
  lemma CompareCount(baseline: Index, patched: Index, keys: seq<Key>)
    requires StrictlySorted(keys)
    requires forall k :: k in keys <==> k in AllKeys(baseline, patched)
    ensures RegressionCount(baseline, patched, keys) == |RegressionKeys(baseline, patched)|
  {
    forall i, j | 0 <= i < j < |keys| ensures keys[i] != keys[j] {
      KeyOrder(keys[i], keys[j], keys[j]);
    }
    RegressionCountIsSize(baseline, patched, keys);
    assert (set k | k in keys && IsRegressionKey(baseline, patched, k)) == RegressionKeys(baseline, patched);
  }

  /** A key only in the patched run is never a regression; a key only in
      the baseline is one. */
  lemma OneSidedKeys(baseline: Index, patched: Index, k: Key)
    requires k in baseline || k in patched
    ensures k !in baseline ==> !IsRegression(Classify(baseline, patched, k)) && k !in RegressionKeys(baseline, patched)
    ensures k in baseline && k !in patched ==> k in RegressionKeys(baseline, patched)
  {
  }

  /** A key in both runs is a regression exactly when the two statuses are
      not both `passed`, whatever the durations. */
  lemma SharedKeyRegression(baseline: Index, patched: Index, k: Key)
    requires k in baseline && k in patched
    ensures k in RegressionKeys(baseline, patched)
        <==> !(Status(baseline[k]) == PassedStatus && Status(patched[k]) == PassedStatus)
  {
  }

  /** There are never more regressions than baseline keys. */
  lemma RegressionsBounded(baseline: Index, patched: Index)
    ensures |RegressionKeys(baseline, patched)| <= |baseline|
  {
    assert RegressionKeys(baseline, patched) <= baseline.Keys;
    SubsetCardinality(RegressionKeys(baseline, patched), baseline.Keys);
  }

  lemma {:induction false} SubsetCardinality(a: set<Key>, b: set<Key>)
    requires a <= b
    ensures |a| <= |b|
    decreases |b|
  {
    if a != {} {
      var x :| x in a;
      SubsetCardinality(a - {x}, b - {x});
    }
  }

  /** `main`: the exit status once both files are loaded and compared. */
  method CompareMain(baselinePath: string, baselinePayload: Option<Value>,
                     patchedPath: string, patchedPayload: Option<Value>)
    returns (r: Result<int>)
    ensures r.Ok? <==> LoadedResults(baselinePath, baselinePayload).Ok?
                       && LoadedResults(patchedPath, patchedPayload).Ok?
                       && !exists k :: k in AllKeys(LoadedResults(baselinePath, baselinePayload).value,
                                                     LoadedResults(patchedPath, patchedPayload).value)
                                      && ConversionFails(LoadedResults(baselinePath, baselinePayload).value,
                                                         LoadedResults(patchedPath, patchedPayload).value, k)
    ensures r.Ok? ==> r.value == 0
  {
    var baseline :- LoadResults(baselinePath, baselinePayload);
    var patched :- LoadResults(patchedPath, patchedPayload);
    var comparison :- Compare(baseline, patched);
    r := Ok(0);
  }
}
