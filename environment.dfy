/** Environment handling of manage.py: the offline defaults written into an
    environment dictionary, and `KEY=VALUE` overrides layered over a base
    environment. Process environments are `map<string, string>`. */
module Environment {
  import opened Wrappers
  import opened Text

  type Env = map<string, string>

  /** A dictionary of environment variables that the code updates in place
      (the `env` dict handed to `_apply_offline_defaults`, or `os.environ`). */
  class Environ {
    var vars: Env

    constructor (initial: Env)
      ensures vars == initial
    {
      vars := initial;
    }

    function Get(key: string): (r: Option<string>)
      reads this
      ensures r.Some? <==> key in vars
      ensures r.Some? ==> r.value == vars[key]
    {
      if key in vars then Some(vars[key]) else None
    }

    /** `env[key] = value` */
    method Set(key: string, value: string)
      modifies this
      ensures vars == old(vars)[key := value]
    {
      vars := vars[key := value];
    }

    /** `env.setdefault(key, value)`: returns the value now under `key`. */
    method SetDefault(key: string, value: string) returns (current: string)
      modifies this
      ensures vars == WithDefault(old(vars), key, value)
      ensures current == vars[key]
    {
      if key !in vars {
        vars := vars[key := value];
      }
      current := vars[key];
    }
  }

  /** The dictionary after `env.setdefault(key, value)`. */
  function WithDefault(env: Env, key: string, value: string): Env {
    if key in env then env else env[key := value]
  }

  /** `setdefault` applied to each pair in turn. */
  function WithDefaults(env: Env, defaults: seq<(string, string)>): Env
    decreases defaults
  {
    if defaults == [] then env
    else WithDefaults(WithDefault(env, defaults[0].0, defaults[0].1), defaults[1..])
  }

  // ---------------------------------------------------------------------
  // Paths. `Path.home()` is a parameter; normalisation done by `str(Path)`
  // (collapsing `//` and `.` segments) is not modelled.
  // ---------------------------------------------------------------------

  /** `Path(path).expanduser()` for `~` and `~/...`. */
  function ExpandUser(path: string, home: string): string {
    if path == "~" then home
    else if StartsWith(path, "~/") then home + path[1..]
    else path
  }

  /** `Path(dir) / name`; an empty directory is the current one. */
  function JoinPath(dir: string, name: string): string {
    if dir == "" || dir == "." then name
    else if dir[|dir| - 1] == '/' then dir + name
    else dir + "/" + name
  }

  function DefaultModelscopeCache(home: string): string {
    JoinPath(JoinPath(home, ".cache"), "modelscope")
  }

  function DefaultHfHome(home: string): string {
    JoinPath(JoinPath(home, ".cache"), "hf")
  }

  // ---------------------------------------------------------------------
  // _apply_offline_defaults
  // ---------------------------------------------------------------------

  /** OFFLINE_ENV_DEFAULTS, in declaration order. */
  const OfflineEnvDefaults: seq<(string, string)> := [
    ("VLLM_USE_MODELSCOPE", "True"),
    ("HF_HUB_OFFLINE", "1"),
    ("HF_DATASETS_OFFLINE", "1"),
    ("TRANSFORMERS_OFFLINE", "1"),
    ("TRANSFORMERS_NO_ADVISORY_WARNINGS", "1")
  ]

  /** A cache directory given in the environment counts only when it is a
      non-empty string. */
  predicate HasCacheValue(env: Env) {
    "MODELSCOPE_CACHE" in env && env["MODELSCOPE_CACHE"] != ""
  }

  /** The ModelScope cache variables after the offline defaults. */
  function WithModelscopeCache(env: Env, cacheDir: Option<string>, home: string): Env {
    if HasCacheValue(env) then
      var cache := ExpandUser(env["MODELSCOPE_CACHE"], home);
      WithDefault(env["MODELSCOPE_CACHE" := cache], "MODELSCOPE_HOME", cache)
    else
      var cache := ExpandUser(cacheDir.GetOr(DefaultModelscopeCache(home)), home);
      env["MODELSCOPE_CACHE" := cache]["MODELSCOPE_HOME" := cache]
  }

  /** The Hugging Face cache variables after the offline defaults: the two
      caches default to sub-directories of HF_HOME as it stands then. */
  function WithHfCaches(env: Env, home: string): Env {
    var withHome := WithDefault(env, "HF_HOME", ExpandUser(DefaultHfHome(home), home));
    var hfHome := withHome["HF_HOME"];
    WithDefault(WithDefault(withHome, "TRANSFORMERS_CACHE", JoinPath(hfHome, "transformers")),
                "HF_DATASETS_CACHE", JoinPath(hfHome, "datasets"))
  }

  /** The dictionary `_apply_offline_defaults(env, cache_dir=cacheDir)`
      leaves behind. */
  function OfflineDefaults(env: Env, cacheDir: Option<string>, home: string): Env {
    WithHfCaches(WithModelscopeCache(WithDefaults(env, OfflineEnvDefaults), cacheDir, home), home)
  }

  /** `_apply_offline_defaults`, updating the dictionary in place. */
  method ApplyOfflineDefaults(env: Environ, cacheDir: Option<string>, home: string)
    modifies env
    ensures env.vars == OfflineDefaults(old(env.vars), cacheDir, home)
  {
    ghost var start := env.vars;
    var i := 0;
    while i < |OfflineEnvDefaults|
      invariant 0 <= i <= |OfflineEnvDefaults|
      invariant WithDefaults(env.vars, OfflineEnvDefaults[i..]) == WithDefaults(start, OfflineEnvDefaults)
    {
      var (key, value) := OfflineEnvDefaults[i];
      assert OfflineEnvDefaults[i..][1..] == OfflineEnvDefaults[i + 1..];
      var _ := env.SetDefault(key, value);
      i := i + 1;
    }
    assert OfflineEnvDefaults[i..] == [];
    ghost var afterDefaults := env.vars;

    var cacheValue := env.Get("MODELSCOPE_CACHE");
    if cacheValue.Some? && cacheValue.value != "" {
      var cache := ExpandUser(cacheValue.value, home);
      env.Set("MODELSCOPE_CACHE", cache);
      var _ := env.SetDefault("MODELSCOPE_HOME", cache);
    } else {
      var cache := ExpandUser(cacheDir.GetOr(DefaultModelscopeCache(home)), home);
      env.Set("MODELSCOPE_CACHE", cache);
      env.Set("MODELSCOPE_HOME", cache);
    }
    assert env.vars == WithModelscopeCache(afterDefaults, cacheDir, home);

    var hfHome := env.SetDefault("HF_HOME", ExpandUser(DefaultHfHome(home), home));
    var _ := env.SetDefault("TRANSFORMERS_CACHE", JoinPath(hfHome, "transformers"));
    var _ := env.SetDefault("HF_DATASETS_CACHE", JoinPath(hfHome, "datasets"));
  }

  /** `setdefault` never changes a value that is already present. */
  lemma {:induction false} WithDefaultsKeeps(env: Env, defaults: seq<(string, string)>, k: string)
    requires k in env
    ensures k in WithDefaults(env, defaults) && WithDefaults(env, defaults)[k] == env[k]
    decreases defaults
  {
    if defaults != [] {
      WithDefaultsKeeps(WithDefault(env, defaults[0].0, defaults[0].1), defaults[1..], k);
    }
  }

  /** A key none of the pairs names is present afterwards only if it was
      before. */
  lemma {:induction false} WithDefaultsUnlisted(env: Env, defaults: seq<(string, string)>, k: string)
    requires forall i :: 0 <= i < |defaults| ==> defaults[i].0 != k
    ensures k in WithDefaults(env, defaults) <==> k in env
    decreases defaults
  {
    if defaults != [] {
      WithDefaultsUnlisted(WithDefault(env, defaults[0].0, defaults[0].1), defaults[1..], k);
    }
  }

  /** An absent key gets the value of the first pair that names it. */
  lemma {:induction false} WithDefaultsFills(env: Env, defaults: seq<(string, string)>, i: nat)
    requires i < |defaults| && defaults[i].0 !in env
    requires forall j :: 0 <= j < i ==> defaults[j].0 != defaults[i].0
    ensures defaults[i].0 in WithDefaults(env, defaults)
    ensures WithDefaults(env, defaults)[defaults[i].0] == defaults[i].1
    decreases defaults
  {
    var next := WithDefault(env, defaults[0].0, defaults[0].1);
    if i == 0 {
      WithDefaultsKeeps(next, defaults[1..], defaults[0].0);
    } else {
      WithDefaultsFills(next, defaults[1..], i - 1);
    }
  }

  lemma {:induction false} NoDefaultsToAdd(env: Env, defaults: seq<(string, string)>)
    requires forall i :: 0 <= i < |defaults| ==> defaults[i].0 in env
    ensures WithDefaults(env, defaults) == env
    decreases defaults
  {
    if defaults != [] {
      NoDefaultsToAdd(env, defaults[1..]);
    }
  }

  lemma OfflineKeysDistinct(i: nat, j: nat)
    requires j < i < |OfflineEnvDefaults|
    ensures OfflineEnvDefaults[j].0 != OfflineEnvDefaults[i].0
  {
  }

  /** The ModelScope step touches only the two ModelScope variables. */
  lemma ModelscopeCacheOthers(env: Env, cacheDir: Option<string>, home: string, k: string)
    requires k != "MODELSCOPE_CACHE" && k != "MODELSCOPE_HOME"
    ensures var m := WithModelscopeCache(env, cacheDir, home);
            (k in m <==> k in env) && (k in env ==> m[k] == env[k])
  {
  }

  /** The Hugging Face step keeps every present value and adds only its
      three variables. */
  lemma HfCachesOthers(env: Env, home: string, k: string)
    ensures var r := WithHfCaches(env, home);
            && (k in env ==> k in r && r[k] == env[k])
            && (k != "HF_HOME" && k != "TRANSFORMERS_CACHE" && k != "HF_DATASETS_CACHE" ==>
                  (k in r <==> k in env))
  {
  }

  /** After `_apply_offline_defaults` each key of OFFLINE_ENV_DEFAULTS is
      present, with the value it already had or else its default. */
  lemma OfflineDefaultsSetsOfflineKeys(env: Env, cacheDir: Option<string>, home: string, i: nat)
    requires i < |OfflineEnvDefaults|
    ensures var (k, v) := OfflineEnvDefaults[i];
            var r := OfflineDefaults(env, cacheDir, home);
            k in r && r[k] == (if k in env then env[k] else v)
  {
    var (k, v) := OfflineEnvDefaults[i];
    var d := WithDefaults(env, OfflineEnvDefaults);
    if k in env {
      WithDefaultsKeeps(env, OfflineEnvDefaults, k);
    } else {
      forall j | 0 <= j < i ensures OfflineEnvDefaults[j].0 != k {
        OfflineKeysDistinct(i, j);
      }
      WithDefaultsFills(env, OfflineEnvDefaults, i);
    }
    assert k in d && d[k] == (if k in env then env[k] else v);
    var m := WithModelscopeCache(d, cacheDir, home);
    ModelscopeCacheOthers(d, cacheDir, home, k);
    HfCachesOthers(m, home, k);
  }

  /** MODELSCOPE_CACHE is always set. When the incoming value was missing or
      empty, MODELSCOPE_HOME is forced to the same directory; otherwise the
      cache is the expanded incoming value and MODELSCOPE_HOME is only filled
      in when absent. */
  lemma OfflineDefaultsModelscopeCache(env: Env, cacheDir: Option<string>, home: string)
    ensures var r := OfflineDefaults(env, cacheDir, home);
            && "MODELSCOPE_CACHE" in r && "MODELSCOPE_HOME" in r
            && (!HasCacheValue(env) ==>
                  r["MODELSCOPE_CACHE"] == r["MODELSCOPE_HOME"]
                  == ExpandUser(cacheDir.GetOr(DefaultModelscopeCache(home)), home))
            && (HasCacheValue(env) ==>
                  && r["MODELSCOPE_CACHE"] == ExpandUser(env["MODELSCOPE_CACHE"], home)
                  && r["MODELSCOPE_HOME"] == (if "MODELSCOPE_HOME" in env then env["MODELSCOPE_HOME"]
                                              else r["MODELSCOPE_CACHE"]))
  {
    var d := WithDefaults(env, OfflineEnvDefaults);
    WithDefaultsUnlisted(env, OfflineEnvDefaults, "MODELSCOPE_CACHE");
    WithDefaultsUnlisted(env, OfflineEnvDefaults, "MODELSCOPE_HOME");
    if "MODELSCOPE_CACHE" in env {
      WithDefaultsKeeps(env, OfflineEnvDefaults, "MODELSCOPE_CACHE");
    }
    if "MODELSCOPE_HOME" in env {
      WithDefaultsKeeps(env, OfflineEnvDefaults, "MODELSCOPE_HOME");
    }
    assert HasCacheValue(d) == HasCacheValue(env);
    var m := WithModelscopeCache(d, cacheDir, home);
    HfCachesOthers(m, home, "MODELSCOPE_CACHE");
    HfCachesOthers(m, home, "MODELSCOPE_HOME");
  }

  /** HF_HOME keeps a value it had and defaults to `~/.cache/hf`;
      TRANSFORMERS_CACHE and HF_DATASETS_CACHE keep values they had and
      otherwise sit under that HF_HOME. */
  lemma OfflineDefaultsHfCaches(env: Env, cacheDir: Option<string>, home: string)
    ensures var r := OfflineDefaults(env, cacheDir, home);
            var hfHome := if "HF_HOME" in env then env["HF_HOME"] else ExpandUser(DefaultHfHome(home), home);
            && "HF_HOME" in r && r["HF_HOME"] == hfHome
            && "TRANSFORMERS_CACHE" in r && "HF_DATASETS_CACHE" in r
            && r["TRANSFORMERS_CACHE"] == (if "TRANSFORMERS_CACHE" in env then env["TRANSFORMERS_CACHE"]
                                           else JoinPath(hfHome, "transformers"))
            && r["HF_DATASETS_CACHE"] == (if "HF_DATASETS_CACHE" in env then env["HF_DATASETS_CACHE"]
                                          else JoinPath(hfHome, "datasets"))
  {
    var d := WithDefaults(env, OfflineEnvDefaults);
    var m := WithModelscopeCache(d, cacheDir, home);
    HfVariableCarried(env, cacheDir, home, "HF_HOME");
    HfVariableCarried(env, cacheDir, home, "TRANSFORMERS_CACHE");
    HfVariableCarried(env, cacheDir, home, "HF_DATASETS_CACHE");
  }

  /** A Hugging Face variable reaches the last step as it was given. */
  lemma HfVariableCarried(env: Env, cacheDir: Option<string>, home: string, k: string)
    requires k == "HF_HOME" || k == "TRANSFORMERS_CACHE" || k == "HF_DATASETS_CACHE"
    ensures var m := WithModelscopeCache(WithDefaults(env, OfflineEnvDefaults), cacheDir, home);
            (k in m <==> k in env) && (k in env ==> m[k] == env[k])
  {
    var d := WithDefaults(env, OfflineEnvDefaults);
    WithDefaultsUnlisted(env, OfflineEnvDefaults, k);
    if k in env {
      WithDefaultsKeeps(env, OfflineEnvDefaults, k);
    }
    ModelscopeCacheOthers(d, cacheDir, home, k);
  }

  /** Nothing is removed, and apart from the two ModelScope variables no value
      that was present changes. */
  lemma OfflineDefaultsKeepsOtherValues(env: Env, cacheDir: Option<string>, home: string, k: string)
    requires k in env
    ensures var r := OfflineDefaults(env, cacheDir, home);
            k in r && (k != "MODELSCOPE_CACHE" && k != "MODELSCOPE_HOME" ==> r[k] == env[k])
  {
    var d := WithDefaults(env, OfflineEnvDefaults);
    WithDefaultsKeeps(env, OfflineEnvDefaults, k);
    var m := WithModelscopeCache(d, cacheDir, home);
    if k != "MODELSCOPE_CACHE" && k != "MODELSCOPE_HOME" {
      ModelscopeCacheOthers(d, cacheDir, home, k);
    }
    assert k in m;
    HfCachesOthers(m, home, k);
  }

  /** With an absolute home directory, applying the defaults a second time
      changes nothing. */
  lemma OfflineDefaultsIdempotent(env: Env, cacheDir: Option<string>, home: string)
    requires home != [] && home[0] == '/'
    ensures OfflineDefaults(OfflineDefaults(env, cacheDir, home), cacheDir, home)
         == OfflineDefaults(env, cacheDir, home)
  {
    OfflineDefaultsSettles(env, cacheDir, home);
    SettledEnvIsFixed(OfflineDefaults(env, cacheDir, home), cacheDir, home);
  }

  /** The defaults leave an environment that meets the requirements of
      SettledEnvIsFixed. */
  lemma OfflineDefaultsSettles(env: Env, cacheDir: Option<string>, home: string)
    requires home != [] && home[0] == '/'
    ensures var once := OfflineDefaults(env, cacheDir, home);
            && (forall i :: 0 <= i < |OfflineEnvDefaults| ==> OfflineEnvDefaults[i].0 in once)
            && "MODELSCOPE_CACHE" in once && "MODELSCOPE_HOME" in once
            && ExpandUser(once["MODELSCOPE_CACHE"], home) == once["MODELSCOPE_CACHE"]
            && (!HasCacheValue(once) ==>
                 once["MODELSCOPE_CACHE"] == once["MODELSCOPE_HOME"]
                 == ExpandUser(cacheDir.GetOr(DefaultModelscopeCache(home)), home))
            && "HF_HOME" in once && "TRANSFORMERS_CACHE" in once && "HF_DATASETS_CACHE" in once
  {
    var once := OfflineDefaults(env, cacheDir, home);
    forall i | 0 <= i < |OfflineEnvDefaults|
      ensures OfflineEnvDefaults[i].0 in once
    {
      OfflineDefaultsSetsOfflineKeys(env, cacheDir, home, i);
    }
    OfflineDefaultsModelscopeCache(env, cacheDir, home);
    if HasCacheValue(env) {
      ExpandUserIdempotent(env["MODELSCOPE_CACHE"], home);
      ExpandUserNonEmpty(env["MODELSCOPE_CACHE"], home);
    } else {
      ExpandUserIdempotent(cacheDir.GetOr(DefaultModelscopeCache(home)), home);
    }
    OfflineDefaultsHfCaches(env, cacheDir, home);
  }

  /** An environment that already holds every variable the defaults would
      set, with a settled ModelScope cache, is left as it is. */
  lemma SettledEnvIsFixed(env: Env, cacheDir: Option<string>, home: string)
    requires forall i :: 0 <= i < |OfflineEnvDefaults| ==> OfflineEnvDefaults[i].0 in env
    requires "MODELSCOPE_CACHE" in env && "MODELSCOPE_HOME" in env
    requires ExpandUser(env["MODELSCOPE_CACHE"], home) == env["MODELSCOPE_CACHE"]
    requires !HasCacheValue(env) ==>
               env["MODELSCOPE_CACHE"] == env["MODELSCOPE_HOME"]
               == ExpandUser(cacheDir.GetOr(DefaultModelscopeCache(home)), home)
    requires "HF_HOME" in env && "TRANSFORMERS_CACHE" in env && "HF_DATASETS_CACHE" in env
    ensures OfflineDefaults(env, cacheDir, home) == env
  {
    NoDefaultsToAdd(env, OfflineEnvDefaults);
    ModelscopeCacheSettled(env, cacheDir, home);
    HfCachesSettled(env, home);
  }

  lemma ModelscopeCacheSettled(env: Env, cacheDir: Option<string>, home: string)
    requires "MODELSCOPE_CACHE" in env && "MODELSCOPE_HOME" in env
    requires ExpandUser(env["MODELSCOPE_CACHE"], home) == env["MODELSCOPE_CACHE"]
    requires !HasCacheValue(env) ==>
               env["MODELSCOPE_CACHE"] == env["MODELSCOPE_HOME"]
               == ExpandUser(cacheDir.GetOr(DefaultModelscopeCache(home)), home)
    ensures WithModelscopeCache(env, cacheDir, home) == env
  {
  }

  lemma HfCachesSettled(env: Env, home: string)
    requires "HF_HOME" in env && "TRANSFORMERS_CACHE" in env && "HF_DATASETS_CACHE" in env
    ensures WithHfCaches(env, home) == env
  {
  }

  lemma ExpandUserNonEmpty(path: string, home: string)
    requires path != [] && home != []
    ensures ExpandUser(path, home) != []
  {
  }

  lemma ExpandUserIdempotent(path: string, home: string)
    requires home != [] && home[0] == '/'
    ensures ExpandUser(ExpandUser(path, home), home) == ExpandUser(path, home)
  {
    var e := ExpandUser(path, home);
    if path == "~" || StartsWith(path, "~/") {
      assert e[0] == '/';
    }
  }

  // ---------------------------------------------------------------------
  // apply_env
  // ---------------------------------------------------------------------

  /** One `KEY=VALUE` override: split at the first `=`, so the value may
      itself contain `=`; no `=` at all, or nothing before it, is refused. */
  function ParseOverride(item: string): (r: Result<(string, string)>)
    ensures r.Ok? <==> ('=' in item && item[0] != '=')
    ensures r.Ok? ==> r.value.0 != [] && '=' !in r.value.0 && item == r.value.0 + "=" + r.value.1
  {
    if '=' !in item then Err("Invalid env override '" + item + "', expected KEY=VALUE")
    else
      var (key, value) := SplitAtFirst(item, '=');
      if key == [] then Err("Invalid env override '" + item + "', missing key")
      else Ok((key, value))
  }

  /** Overrides applied in order onto `env`. */
  function WithOverrides(env: Env, overrides: seq<string>): Result<Env>
    decreases overrides
  {
    if overrides == [] then Ok(env)
    else match ParseOverride(overrides[0])
      case Err(e) => Err(e)
      case Ok((key, value)) => WithOverrides(env[key := value], overrides[1..])
  }

  /** What `apply_env(base, overrides)` returns, with `ambient` standing for
      `os.environ`. */
  function EnvWithOverrides(ambient: Env, base: Env, overrides: seq<string>): Result<Env> {
    WithOverrides(ambient + base, overrides)
  }

  /** `apply_env` */
  method ApplyEnv(ambient: Env, base: Env, overrides: seq<string>) returns (r: Result<Env>)
    ensures r == EnvWithOverrides(ambient, base, overrides)
  {
    var env := ambient + base;
    var i := 0;
    while i < |overrides|
      invariant 0 <= i <= |overrides|
      invariant WithOverrides(env, overrides[i..]) == EnvWithOverrides(ambient, base, overrides)
    {
      var item := overrides[i];
      assert overrides[i..][0] == item && overrides[i..][1..] == overrides[i + 1..];
      if '=' !in item {
        return Err("Invalid env override '" + item + "', expected KEY=VALUE");
      }
      var (key, value) := SplitAtFirst(item, '=');
      if key == [] {
        return Err("Invalid env override '" + item + "', missing key");
      }
      env := env[key := value];
      i := i + 1;
    }
    assert overrides[i..] == [];
    r := Ok(env);
  }

  /** The value the last well-formed override for `k` assigns, if any. */
  function LastOverride(overrides: seq<string>, k: string): Option<string> {
    if overrides == [] then None
    else
      var later := LastOverride(overrides[1..], k);
      if later.Some? then later
      else match ParseOverride(overrides[0])
        case Ok((key, value)) => if key == k then Some(value) else None
        case Err(_) => None
  }

  function Get(env: Env, k: string): Option<string> {
    if k in env then Some(env[k]) else None
  }

  /** The overrides are refused exactly when one of them is malformed. */
  lemma {:induction false} ApplyEnvRejectsMalformed(ambient: Env, base: Env, overrides: seq<string>)
    ensures EnvWithOverrides(ambient, base, overrides).Err?
        <==> exists i :: 0 <= i < |overrides| && ParseOverride(overrides[i]).Err?
  {
    OverridesRejectMalformed(ambient + base, overrides);
  }

  lemma {:induction false} OverridesRejectMalformed(env: Env, overrides: seq<string>)
    ensures WithOverrides(env, overrides).Err?
        <==> exists i :: 0 <= i < |overrides| && ParseOverride(overrides[i]).Err?
    decreases overrides
  {
    if overrides != [] {
      match ParseOverride(overrides[0])
      case Err(_) =>
      case Ok((key, value)) =>
        OverridesRejectMalformed(env[key := value], overrides[1..]);
        if exists i :: 0 <= i < |overrides| && ParseOverride(overrides[i]).Err? {
          var i :| 0 <= i < |overrides| && ParseOverride(overrides[i]).Err?;
          assert overrides[1..][i - 1] == overrides[i];
        }
    }
  }

  lemma {:induction false} OverridesPrecedence(env: Env, overrides: seq<string>, k: string)
    requires WithOverrides(env, overrides).Ok?
    ensures Get(WithOverrides(env, overrides).value, k)
         == if LastOverride(overrides, k).Some? then LastOverride(overrides, k) else Get(env, k)
    decreases overrides
  {
    if overrides != [] {
      var (key, value) := ParseOverride(overrides[0]).value;
      OverridesPrecedence(env[key := value], overrides[1..], k);
    }
  }

  /** Later overrides beat earlier ones, any override beats `base`, and `base`
      beats the ambient environment. */
  lemma ApplyEnvPrecedence(ambient: Env, base: Env, overrides: seq<string>, k: string)
    requires EnvWithOverrides(ambient, base, overrides).Ok?
    ensures var env := EnvWithOverrides(ambient, base, overrides).value;
            Get(env, k) == if LastOverride(overrides, k).Some? then LastOverride(overrides, k)
                           else if k in base then Some(base[k])
                           else Get(ambient, k)
  {
    OverridesPrecedence(ambient + base, overrides, k);
  }

  /** Formatting a pair as `KEY=VALUE` and parsing it gives the pair back,
      whatever `=` the value contains. */
  lemma ParseOverrideRoundTrip(key: string, value: string)
    requires key != [] && '=' !in key
    ensures ParseOverride(key + "=" + value) == Ok((key, value))
  {
    SplitAtFirstOfJoin(key, '=', value);
  }
}
