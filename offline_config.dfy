/** Rewrites manage.py applies to a downloaded model's JSON files before an
    offline calibration run: hub references in config.json are pointed at the
    local directory, and a list-form added_tokens.json becomes a mapping.
    File reads and writes are left out: a file that is missing or does not
    parse is `None`, and the result says what would be written, if anything. */
module OfflineConfig {
  import opened Wrappers
  import opened Text
  import opened Values

  const SentinelKeys: seq<string> := ["base_model_name_or_path", "_name_or_path"]
  const HubModel: string := "meta-llama/Meta-Llama-3-8B-Instruct"

  /** A sentinel value that names a hub repository rather than a local
      directory: a non-blank string mentioning `meta-llama` or `/`, or
      starting with `hf://`. */
  predicate PointsAtHub(v: Value) {
    && v.VStr?
    && Strip(v.s) != []
    && (Contains(v.s, "meta-llama") || StartsWith(v.s, "hf://") || Contains(v.s, "/"))
  }

  /** The sentinel `key` of `data` is present and names a hub repository. */
  predicate HitsHub(data: Dict, key: string) {
    Lookup(data, key).Some? && PointsAtHub(Lookup(data, key).value)
  }

  /** An `auto_map` value that the rewrite touches. */
  predicate MentionsMetaLlama(v: Value) {
    v.VStr? && Contains(v.s, "meta-llama")
  }

  function RewriteAutoMapValue(v: Value): Value {
    if MentionsMetaLlama(v) then VStr(ReplaceAll(v.s, HubModel, ".")) else v
  }

  /** The sentinel keys after the first loop, and whether any was rewritten. */
  function RewriteSentinels(data: Dict, keys: seq<string>): (Dict, bool)
    decreases keys
  {
    if keys == [] then (data, false)
    else
      var hit := HitsHub(data, keys[0]);
      var next := if hit then Update(data, keys[0], VStr(".")) else data;
      var (rest, changed) := RewriteSentinels(next, keys[1..]);
      (rest, hit || changed)
  }

  /** The `auto_map` entries after the second loop. */
  function RewriteAutoMap(entries: Dict): (r: Dict)
    ensures |r| == |entries|
    ensures forall i :: 0 <= i < |r| ==> r[i] == (entries[i].0, RewriteAutoMapValue(entries[i].1))
  {
    seq(|entries|, i requires 0 <= i < |entries| => (entries[i].0, RewriteAutoMapValue(entries[i].1)))
  }

  predicate AutoMapChanges(entries: Dict) {
    exists i :: 0 <= i < |entries| && MentionsMetaLlama(entries[i].1)
  }

  /** What `_sanitize_config_for_offline` does with a parsed config.json:
      `Ok(Some(d))` when it writes `d` back, `Ok(None)` when it writes
      nothing, `Err` when the document is not an object (`data.get` raises). */
  function SanitizedConfig(data: Value): Result<Option<Value>> {
    if !data.VDict? then Err("AttributeError: object has no attribute 'get'")
    else
      var (d1, c1) := RewriteSentinels(data.entries, SentinelKeys);
      var auto := Lookup(d1, "auto_map");
      var (d2, c2) :=
        if auto.Some? && auto.value.VDict? then
          (Update(d1, "auto_map", VDict(RewriteAutoMap(auto.value.entries))), AutoMapChanges(auto.value.entries))
        else (d1, false);
      if c1 || c2 then Ok(Some(VDict(d2))) else Ok(None)
  }

  /** `_sanitize_config_for_offline`, given config.json as parsed (`None`
      when it is missing or is not valid JSON). */
  method SanitizeConfigForOffline(config: Option<Value>) returns (r: Result<Option<Value>>)
    ensures config.None? ==> r == Ok(None)
    ensures config.Some? ==> r == SanitizedConfig(config.value)
  {
    if config.None? {
      return Ok(None);
    }
    var data := config.value;
    if !data.VDict? {
      return Err("AttributeError: object has no attribute 'get'");
    }
    var entries := data.entries;
    var changed := false;
    var k := 0;
    while k < |SentinelKeys|
      invariant 0 <= k <= |SentinelKeys|
      invariant var (d, c) := RewriteSentinels(entries, SentinelKeys[k..]);
                (d, changed || c) == RewriteSentinels(data.entries, SentinelKeys)
    {
      var key := SentinelKeys[k];
      assert SentinelKeys[k..][0] == key && SentinelKeys[k..][1..] == SentinelKeys[k + 1..];
      var val := Lookup(entries, key);
      if val.Some? && val.value.VStr? && Strip(val.value.s) != [] {
        var s := val.value.s;
        if Contains(s, "meta-llama") || StartsWith(s, "hf://") || Contains(s, "/") {
          entries := Update(entries, key, VStr("."));
          changed := true;
        }
      }
      k := k + 1;
    }
    assert SentinelKeys[k..] == [];

    var autoMap := Lookup(entries, "auto_map");
    if autoMap.Some? && autoMap.value.VDict? {
      var items := autoMap.value.entries;
      var rewritten := items;
      ghost var touched := false;
      var i := 0;
      while i < |items|
        invariant 0 <= i <= |items| && |rewritten| == |items|
        invariant forall j :: 0 <= j < i ==> rewritten[j] == (items[j].0, RewriteAutoMapValue(items[j].1))
        invariant forall j :: i <= j < |items| ==> rewritten[j] == items[j]
        invariant touched <==> exists j :: 0 <= j < i && MentionsMetaLlama(items[j].1)
        invariant changed == (RewriteSentinels(data.entries, SentinelKeys).1 || touched)
      {
        var (mapKey, mapVal) := items[i];
        if mapVal.VStr? && Contains(mapVal.s, "meta-llama") {
          rewritten := rewritten[i := (mapKey, VStr(ReplaceAll(mapVal.s, HubModel, ".")))];
          changed := true;
          touched := true;
        }
        i := i + 1;
      }
      assert rewritten == RewriteAutoMap(items);
      entries := Update(entries, "auto_map", VDict(rewritten));
    }

    if changed {
      r := Ok(Some(VDict(entries)));
    } else {
      r := Ok(None);
    }
  }

  /** One step of the sentinel loop, as a lookup table. */
  lemma SentinelStepLookup(data: Dict, key: string, k: string)
    ensures var next := if HitsHub(data, key) then Update(data, key, VStr(".")) else data;
            Lookup(next, k) == if k == key && HitsHub(data, key) then Some(VStr(".")) else Lookup(data, k)
  {
    LookupUpdate(data, key, VStr("."), k);
  }

  lemma {:induction false} RewriteSentinelsLookup(data: Dict, keys: seq<string>, k: string)
    requires forall i, j :: 0 <= i < j < |keys| ==> keys[i] != keys[j]
    ensures Lookup(RewriteSentinels(data, keys).0, k)
         == if k in keys && HitsHub(data, k)
            then Some(VStr(".")) else Lookup(data, k)
    decreases keys
  {
    if keys != [] {
      var next := if HitsHub(data, keys[0]) then Update(data, keys[0], VStr(".")) else data;
      RewriteSentinelsLookup(next, keys[1..], k);
      SentinelStepLookup(data, keys[0], k);
      if k in keys[1..] {
        var i :| 0 <= i < |keys[1..]| && keys[1..][i] == k;
        assert keys[i + 1] == k;
      }
      assert k in keys <==> k == keys[0] || k in keys[1..];
    }
  }

  lemma {:induction false} RewriteSentinelsKeys(data: Dict, keys: seq<string>)
    ensures Keys(RewriteSentinels(data, keys).0) == Keys(data)
    decreases keys
  {
    if keys != [] {
      var next := if HitsHub(data, keys[0]) then Update(data, keys[0], VStr(".")) else data;
      RewriteSentinelsKeys(next, keys[1..]);
    }
  }

  lemma {:induction false} RewriteSentinelsChanged(data: Dict, keys: seq<string>)
    requires forall i, j :: 0 <= i < j < |keys| ==> keys[i] != keys[j]
    ensures RewriteSentinels(data, keys).1
        <==> exists i :: 0 <= i < |keys| && HitsHub(data, keys[i])
    decreases keys
  {
    if keys != [] {
      var next := if HitsHub(data, keys[0]) then Update(data, keys[0], VStr(".")) else data;
      RewriteSentinelsChanged(next, keys[1..]);
      forall i | 0 <= i < |keys[1..]| ensures Lookup(next, keys[1..][i]) == Lookup(data, keys[1..][i]) {
        assert keys[1..][i] == keys[i + 1];
        SentinelStepLookup(data, keys[0], keys[i + 1]);
      }
      if exists i :: 0 <= i < |keys| && HitsHub(data, keys[i]) {
        var i :| 0 <= i < |keys| && HitsHub(data, keys[i]);
        if i > 0 {
          assert keys[1..][i - 1] == keys[i];
        }
      }
    }
  }

  /** `"."`, the value a rewritten sentinel gets, names no hub repository. */
  lemma DotIsLocal()
    ensures !PointsAtHub(VStr("."))
  {
    ContainsChar(".", '/');
    if Contains(".", "meta-llama") {
      ContainsFitsIn(".", "meta-llama");
    }
  }

  /** A sentinel key becomes `"."` exactly when its value names a hub
      repository; otherwise it keeps its value. */
  lemma SanitizeRewritesSentinels(data: Dict, k: string)
    requires k in SentinelKeys
    requires SanitizedConfig(VDict(data)).Ok? && SanitizedConfig(VDict(data)).value.Some?
    ensures var out := SanitizedConfig(VDict(data)).value.value;
            out.VDict? && Lookup(out.entries, k) ==
              if HitsHub(data, k) then Some(VStr("."))
              else Lookup(data, k)
  {
    var (d1, c1) := RewriteSentinels(data, SentinelKeys);
    RewriteSentinelsLookup(data, SentinelKeys, k);
    var auto := Lookup(d1, "auto_map");
    if auto.Some? && auto.value.VDict? {
      LookupUpdate(d1, "auto_map", VDict(RewriteAutoMap(auto.value.entries)), k);
    }
  }

  /** No key is added or removed, and every key other than the two sentinels
      and `auto_map` keeps its value. */
  lemma SanitizeKeepsOtherKeys(data: Dict, k: string)
    requires k !in SentinelKeys && k != "auto_map"
    requires SanitizedConfig(VDict(data)).Ok? && SanitizedConfig(VDict(data)).value.Some?
    ensures var out := SanitizedConfig(VDict(data)).value.value;
            && out.VDict?
            && Keys(out.entries) == Keys(data)
            && Lookup(out.entries, k) == Lookup(data, k)
  {
    var (d1, c1) := RewriteSentinels(data, SentinelKeys);
    RewriteSentinelsLookup(data, SentinelKeys, k);
    RewriteSentinelsLookup(data, SentinelKeys, "auto_map");
    RewriteSentinelsKeys(data, SentinelKeys);
    var auto := Lookup(d1, "auto_map");
    if auto.Some? && auto.value.VDict? {
      LookupUpdate(d1, "auto_map", VDict(RewriteAutoMap(auto.value.entries)), k);
    }
  }

  /** Inside an `auto_map` object, each string mentioning `meta-llama` has
      the hub model id replaced by `"."`; nothing else changes. */
  lemma SanitizeRewritesAutoMap(data: Dict)
    requires SanitizedConfig(VDict(data)).Ok? && SanitizedConfig(VDict(data)).value.Some?
    ensures var out := SanitizedConfig(VDict(data)).value.value;
            var before := Lookup(data, "auto_map");
            && out.VDict?
            && Lookup(out.entries, "auto_map") ==
                 if before.Some? && before.value.VDict? then Some(VDict(RewriteAutoMap(before.value.entries)))
                 else before
  {
    var (d1, c1) := RewriteSentinels(data, SentinelKeys);
    RewriteSentinelsLookup(data, SentinelKeys, "auto_map");
    var auto := Lookup(d1, "auto_map");
    if auto.Some? && auto.value.VDict? {
      LookupUpdate(d1, "auto_map", VDict(RewriteAutoMap(auto.value.entries)), "auto_map");
    }
  }

  /** The file is written exactly when a sentinel names a hub repository or
      an `auto_map` string mentions `meta-llama`. */
  lemma SanitizeWritesIffChanged(data: Dict)
    ensures var auto := Lookup(data, "auto_map");
            SanitizedConfig(VDict(data)).Ok?
            && (SanitizedConfig(VDict(data)).value.Some? <==>
                  (exists i :: 0 <= i < |SentinelKeys| && HitsHub(data, SentinelKeys[i]))
                  || (auto.Some? && auto.value.VDict? && AutoMapChanges(auto.value.entries)))
  {
    RewriteSentinelsLookup(data, SentinelKeys, "auto_map");
    RewriteSentinelsChanged(data, SentinelKeys);
  }

  /** A second run over the rewritten file leaves both sentinel keys as
      the first run left them. */
  lemma SanitizeSecondRunKeepsSentinels(data: Dict, k: string)
    requires k in SentinelKeys
    requires SanitizedConfig(VDict(data)).Ok? && SanitizedConfig(VDict(data)).value.Some?
    ensures var once := SanitizedConfig(VDict(data)).value.value;
            && once.VDict?
            && !HitsHub(once.entries, k)
            && SanitizedConfig(once).Ok?
            && (SanitizedConfig(once).value.Some? ==>
                  SanitizedConfig(once).value.value.VDict?
                  && Lookup(SanitizedConfig(once).value.value.entries, k) == Lookup(once.entries, k))
  {
    SanitizeRewritesSentinels(data, k);
    DotIsLocal();
    var once := SanitizedConfig(VDict(data)).value.value;
    if SanitizedConfig(once).value.Some? {
      SanitizeRewritesSentinels(once.entries, k);
    }
  }

  // ---------------------------------------------------------------------
  // _normalize_tokenizer_artifacts: list-form added_tokens.json
  // ---------------------------------------------------------------------

  /** `{token: idx for idx, token in enumerate(raw) if isinstance(token, str)}`:
      each string token maps to the position of its last occurrence;
      non-strings are skipped but still take up a position. */
  function AddedTokenIndex(raw: seq<Value>): (m: map<string, nat>)
    ensures forall t :: t in m <==> VStr(t) in raw
    ensures forall t :: t in m ==> m[t] < |raw| && raw[m[t]] == VStr(t)
    ensures forall t, j :: t in m && m[t] < j < |raw| ==> raw[j] != VStr(t)
    decreases |raw|
  {
    if raw == [] then map[]
    else
      var init := raw[..|raw| - 1];
      var m := AddedTokenIndex(init);
      var last := raw[|raw| - 1];
      assert raw == init + [last];
      if last.VStr? then m[last.s := |raw| - 1] else m
  }

  /** The mapping written back to added_tokens.json, when its content is a
      list; any other content is left alone. */
  function NormalizedAddedTokens(parsed: Option<Value>): (r: Option<map<string, nat>>)
    ensures r.Some? <==> parsed.Some? && parsed.value.VList?
  {
    if parsed.Some? && parsed.value.VList? then Some(AddedTokenIndex(parsed.value.items)) else None
  }
}
