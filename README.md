# Helper CLIs of the vLLM extras tree, modelled in Dafny

This project models the logic of three helper command-line tools of the
`extras/` tree:

- `extras/tools/modelscope/manage.py`, the ModelScope helper. It turns a model
  id into a file-system-safe key and Podman volume names. It fills an
  environment dictionary with offline defaults and layers `KEY=VALUE`
  overrides over it. Its generated calibration runner scans its command line
  for its own flags. Before an offline run it rewrites hub references in a
  model's `config.json` and turns a list-form `added_tokens.json` into a
  mapping.
- `extras/testing/run_tests.py`, the curated test runner. It chooses the
  suites of a profile, turns each command's outcome into a result record,
  and derives the failure count and the exit code.
- `extras/testing/compare_results.py`, the regression comparison. It indexes
  two result files by suite and name and counts regressions over the sorted
  union of their keys.

Modules, one per source component:

| file | module | models |
|---|---|---|
| `wrappers.dfy` | `Wrappers` | `Option` and `Result`; `Err` stands for a raised exception |
| `text.dfy` | `Text` | the Python `str` operations used (`strip`, `split`, `replace`, `in`, `int`, `str`) |
| `values.dfy` | `Values` | parsed YAML and JSON documents, Python truthiness, `dict.get`, `list(...)`, `str(...)` |
| `model_key.dfy` | `ModelKey` | `_normalize_model_id`, `_safe_model_key`, `_volume_name` |
| `cache_root.dfy` | `CacheRoot` | the root guard of `_clean_cache_root` (see Findings) |
| `environment.dfy` | `Environment` | `_apply_offline_defaults`, `apply_env`; the `env` dictionary as a class updated in place |
| `runner_args.dfy` | `RunnerArgs` | `_extract_custom_args` of the generated runner, writing `os.environ` |
| `offline_config.dfy` | `OfflineConfig` | `_sanitize_config_for_offline`, the list-to-mapping step of `_normalize_tokenizer_artifacts` |
| `run_tests.dfy` | `RunTests` | `_tail`, `collect_suites`, `run_suite`, `summarise`, the exit code of `main` |
| `compare_results.dfy` | `CompareResults` | `load_results`, `compare`, `main` |

The methods follow the loops of the Python code. Each method is proved
equal to a specification function, or states its result outright. The
lemmas then state the properties of those functions.

External effects are inputs:

- A file's parsed content is a `Value`, or `None` when the file is missing
  or does not parse.
- `os.environ` is the map `ambient`.
- `Path.home()` is the string `home`.
- Running a command is the oracle `outcome: nat -> Outcome`. It gives the
  exit code and output of the n-th command started in the run, a timeout,
  or another exception raised while starting it. The oracle is not
  restricted: it may report a timeout for an entry without `timeout`,
  which Python never does (`subprocess.run` with no timeout never raises
  `TimeoutExpired`); such a record reads "after Nones".

## Model

| member | source | states |
|---|---|---|
| `Text.Strip` | extras/tools/modelscope/manage.py:96-97 | the stripped id starts and ends with a non-whitespace character, and an already stripped string is unchanged |
| `Text.StripKeepsMiddle` | extras/tools/modelscope/manage.py:96-97 | the stripped id is a slice of the id with only whitespace before and after it |
| `Text.ReplaceAll` | extras/tools/modelscope/manage.py:462 | `replace` leaves a string without the pattern unchanged, and each non-overlapping occurrence changes the length by the difference of the two lengths |
| `Text.ReplaceAllAtFirst` | extras/tools/modelscope/manage.py:462 | the first occurrence of the pattern becomes the replacement, the text before it is kept, and replacing goes on after it; with the unchanged-when-absent clause of `ReplaceAll` this fixes every result |
| `Text.ParseIntAccepts` | extras/testing/run_tests.py:112 | `int()` accepts exactly a stripped string that is a digit or a sign and a digit, followed by digits only; the sign decides the sign of the result, plain digits read as the number they spell, and any accepted literal (signed, padded or with leading zeros) reads as the number its digits after the sign spell, negated for `-` |
| `Text.SplitAtFirst` | extras/tools/modelscope/manage.py:237 | `split("=", 1)`: the key holds no `=` and key, `=` and value put back together give the item |
| `Text.ParseIntOfDecimal` | extras/testing/run_tests.py:112 | `int(str(i)) == i`, the conversion applied to a `timeout` entry |
| `ModelKey.NormalizeModelId` | extras/tools/modelscope/manage.py:96-97 | the normalised id is a slice of the id with only whitespace around it, and has no surrounding whitespace itself |
| `ModelKey.SafeModelKey` | extras/tools/modelscope/manage.py:100-103 | the key has the length of the stripped id; each character is kept when alphanumeric or `-`, `_`, `.` and becomes `_` otherwise |
| `ModelKey.SafeModelKeyIdempotent` | extras/tools/modelscope/manage.py:100-103 | the key of a key is the key itself |
| `ModelKey.SafeModelKeyOfNormalized` | extras/tools/modelscope/manage.py:100-103 | normalising the id first does not change its key |
| `ModelKey.SafeModelKeyOfTrimmed` | extras/tools/modelscope/manage.py:100-103 | for an id with nothing to strip, the key replaces each unsafe character in place |
| `ModelKey.KeyIgnoresUnsafeCharacters` | extras/tools/modelscope/manage.py:100-103 | two trimmed ids of one length that differ only where both hold unsafe characters share a key |
| `ModelKey.DistinctIdsCanShareKey` | extras/tools/modelscope/manage.py:100-103 | the distinct ids `org/model` and `org:model` share a key, so keys are not injective |
| `ModelKey.VolumeName` | extras/tools/modelscope/manage.py:149-151 | the volume name is the prefix followed by characters that are all safe, one per character of the stripped id |
| `ModelKey.VolumeNamesShareKey` | extras/tools/modelscope/manage.py:149-151 | the model and KV volumes of one id differ only in their `model-` and `kv-` prefixes |
| `ModelKey.ModelAndKvVolumesDistinct` | extras/tools/modelscope/manage.py:26-27 | no model volume name equals a KV volume name, whatever the two ids |
| `CacheRoot.GuardNeverFires` | extras/tools/modelscope/manage.py:144-145 | the guard as written, a `Path` compared with a `str`, never refuses |
| `CacheRoot.RootPassesGuardAsWritten` | extras/tools/modelscope/manage.py:144-145 | the root directory `/` gets past the guard as written |
| `CacheRoot.CorrectedGuardRefusesAnchors` | extras/tools/modelscope/manage.py:144-145 | the corrected guard refuses exactly a path with no components below its anchor |
| `CacheRoot.CleanCacheRoot` | extras/tools/modelscope/manage.py:141-146 | an existing path is refused iff it is an anchor and is removed otherwise; a missing path is left alone |
| `CacheRoot.RootIsNeverRemoved` | extras/tools/modelscope/manage.py:141-146 | `/` is refused and a directory directly under it is removed |
| `Environment.Environ.Set` | extras/tools/modelscope/manage.py:48 | `env[key] = value` changes that key alone |
| `Environment.Environ.SetDefault` | extras/tools/modelscope/manage.py:42 | `env.setdefault` adds an absent key only and returns the value now under the key |
| `Environment.ApplyOfflineDefaults` | extras/tools/modelscope/manage.py:38-58 | the dictionary after the call is the specification `OfflineDefaults` of the one before |
| `Environment.OfflineDefaultsSetsOfflineKeys` | extras/tools/modelscope/manage.py:29-42 | every key of `OFFLINE_ENV_DEFAULTS` is present afterwards, with its earlier value if it had one and its default otherwise |
| `Environment.OfflineDefaultsModelscopeCache` | extras/tools/modelscope/manage.py:44-54 | `MODELSCOPE_CACHE` is always set; with no or an empty incoming value `MODELSCOPE_HOME` is forced equal to it, otherwise `MODELSCOPE_HOME` keeps a value it had |
| `Environment.OfflineDefaultsHfCaches` | extras/tools/modelscope/manage.py:56-58 | `HF_HOME`, `TRANSFORMERS_CACHE` and `HF_DATASETS_CACHE` keep values they had; the two caches otherwise sit under `HF_HOME` |
| `Environment.OfflineDefaultsKeepsOtherValues` | extras/tools/modelscope/manage.py:38-58 | no key is removed, and only the two ModelScope variables can change an existing value |
| `Environment.OfflineDefaultsIdempotent` | extras/tools/modelscope/manage.py:38-58 | with an absolute home directory, applying the defaults twice is the same as once |
| `Environment.ParseOverride` | extras/tools/modelscope/manage.py:235-239 | an override is accepted iff it has an `=` that is not its first character; the key is non-empty and free of `=` |
| `Environment.ParseOverrideRoundTrip` | extras/tools/modelscope/manage.py:235-240 | `KEY=VALUE` parses back to the pair, whatever `=` the value contains |
| `Environment.ApplyEnv` | extras/tools/modelscope/manage.py:231-241 | the loop returns the specification `EnvWithOverrides` of ambient environment, base and overrides |
| `Environment.ApplyEnvRejectsMalformed` | extras/tools/modelscope/manage.py:234-239 | the call fails iff some override is malformed |
| `Environment.ApplyEnvPrecedence` | extras/tools/modelscope/manage.py:232-240 | a key takes the last override that names it, else its `base` value, else the ambient value |
| `RunnerArgs.ExtractCustomArgs` | extras/tools/modelscope/manage.py:667-694 | the returned list and the new `os.environ` are those of the specification scan `Extract` |
| `RunnerArgs.PassThroughIsSubsequence` | extras/tools/modelscope/manage.py:676-694 | the tokens handed on are an order-preserving subsequence of the input |
| `RunnerArgs.PassThroughHoldsNoFlags` | extras/tools/modelscope/manage.py:680-691 | `--kv-only` is never handed on; a value flag is handed on only as the last token |
| `RunnerArgs.TrailingValueFlagPassesThrough` | extras/tools/modelscope/manage.py:680-683 | a value flag with no token after it is handed on and sets nothing |
| `RunnerArgs.KvOnlyWithoutValue` | extras/tools/modelscope/manage.py:684-691 | `--kv-only` before a `-` token or at the end sets `true` and takes no value |
| `RunnerArgs.KvCalibrateCommandLine` | extras/tools/modelscope/manage.py:1026-1040 | the `kv-calibrate` command line sets the five variables in order and hands on only what the extra arguments leave |
| `OfflineConfig.SanitizeConfigForOffline` | extras/tools/modelscope/manage.py:440-469 | the loops compute the specification `SanitizedConfig`; a missing or unparsable file is left alone |
| `OfflineConfig.SanitizeRewritesSentinels` | extras/tools/modelscope/manage.py:449-456 | a sentinel key becomes `"."` iff its value is a non-blank string naming a hub repository, and keeps its value otherwise |
| `OfflineConfig.SanitizeKeepsOtherKeys` | extras/tools/modelscope/manage.py:449-463 | no key is added or removed, and keys other than the sentinels and `auto_map` keep their values |
| `OfflineConfig.SanitizeRewritesAutoMap` | extras/tools/modelscope/manage.py:458-463 | each `auto_map` string mentioning `meta-llama` has the hub model id replaced; nothing else in it changes |
| `OfflineConfig.SanitizeWritesIffChanged` | extras/tools/modelscope/manage.py:449-469 | the file is written iff a sentinel names a hub repository or an `auto_map` string mentions `meta-llama` |
| `OfflineConfig.DotIsLocal` | extras/tools/modelscope/manage.py:454-455 | the replacement `"."` names no hub repository |
| `OfflineConfig.SanitizeSecondRunKeepsSentinels` | extras/tools/modelscope/manage.py:449-456 | a second run leaves both sentinel keys as the first run left them |
| `OfflineConfig.AddedTokenIndex` | extras/tools/modelscope/manage.py:414-417 | exactly the string tokens are keys, each mapped to the index of its last occurrence; non-strings still take up an index |
| `OfflineConfig.NormalizedAddedTokens` | extras/tools/modelscope/manage.py:407-421 | a mapping is written iff the file holds a list |
| `RunTests.Tail` | extras/testing/run_tests.py:73-76 | the tail is a suffix of the text of at most 4000 characters; a text within the limit is kept whole and a longer one is cut to exactly 4000 |
| `RunTests.TailIdempotent` | extras/testing/run_tests.py:73-76 | cutting an already cut output changes nothing |
| `RunTests.CollectSuites` | extras/testing/run_tests.py:37-53 | a successful selection is never empty |
| `RunTests.CollectSuitesPrecedence` | extras/testing/run_tests.py:48-52 | the first non-empty source wins: `--suite`, then the profile's suites, then `default_suites`, then every declared suite; nothing left is an error |
| `RunTests.UndeclaredProfileContributesNothing` | extras/testing/run_tests.py:38-47 | a missing profile, or one whose payload is not a mapping, contributes no suites |
| `RunTests.EntryError` | extras/testing/run_tests.py:93-112 | an entry is rejected iff it is not a mapping, its `cmd` is not a string, its `workdir` is neither absent, `None` nor a string, its `env` is truthy and not a mapping, or its `timeout` does not convert |
| `RunTests.CommandRecord` | extras/testing/run_tests.py:92-137 | a record is built iff the entry is accepted and its command does not raise; an accepted entry whose command raises ends the suite with the exception's message |
| `RunTests.CommandRecordFields` | extras/testing/run_tests.py:96-136 | status `passed` iff exit code 0, `failed` for other exit codes, `timeout` with no exit code for a timeout; an unnamed command is named `suite-index`; output is cut by the tail |
| `RunTests.TimeoutMessage` | extras/testing/run_tests.py:119-125 | a timeout record's message names the `timeout` entry |
| `RunTests.CommandRecords` | extras/testing/run_tests.py:92-137 | a successful suite has exactly one record per command |
| `RunTests.CommandRecordsAccept` | extras/testing/run_tests.py:92-117 | the commands give records iff every entry is accepted and no command raises |
| `RunTests.CommandRecordsInOrder` | extras/testing/run_tests.py:92-137 | the k-th record is the record of the k-th entry and outcome |
| `RunTests.CommandRecordsFirstError` | extras/testing/run_tests.py:92-117 | the first rejected entry or raising command decides the suite's error |
| `RunTests.RunSuite` | extras/testing/run_tests.py:86-139 | the loop returns the specification `SuiteRecords` |
| `RunTests.RunSuiteRecordPerCommand` | extras/testing/run_tests.py:86-139 | a suite fails iff `commands` is not a sequence, an entry is malformed or a command raises; otherwise it has one record per command, in order |
| `RunTests.Failing` | extras/testing/run_tests.py:162-171 | the failing list holds only records whose status is not `passed` |
| `RunTests.FailingListsEveryFailure` | extras/testing/run_tests.py:162-171 | every record whose status is not `passed` is in the failing list |
| `RunTests.FailingCount` | extras/testing/run_tests.py:162 | the failure count is the number of positions whose record did not pass |
| `RunTests.NoFailuresIffAllPassed` | extras/testing/run_tests.py:162-164 | the failure count is 0 iff every record passed |
| `RunTests.Summarise` | extras/testing/run_tests.py:160-171 | the total is the record count; the failures are the records that did not pass, counted by position; no failure iff all passed |
| `RunTests.MatrixRecordsFirstError` | extras/testing/run_tests.py:195-199 | the first suite that fails stops the run with its error |
| `RunTests.RunMatrix` | extras/testing/run_tests.py:183-204 | the loop over suites returns the specification `MatrixRun` |
| `RunTests.ExitCodeRule` | extras/testing/run_tests.py:203-204 | the exit code is 0 iff every record passed iff no failure is reported, and 1 otherwise |
| `CompareResults.LoadResults` | extras/testing/compare_results.py:14-27 | the loop returns the specification `LoadedResults`; a missing file or a non-list payload is an error |
| `CompareResults.IndexOfRejects` | extras/testing/compare_results.py:21-23 | loading fails iff some entry is not a mapping |
| `CompareResults.IndexOfFirstError` | extras/testing/compare_results.py:21-23 | the first entry that is not a mapping decides the error |
| `CompareResults.IndexHoldsLastRecord` | extras/testing/compare_results.py:20-27 | a key is indexed iff some record has it, and holds the last record with that key |
| `CompareResults.KeyOrder` | extras/testing/compare_results.py:41 | Python's order on `(suite, name)` pairs is a strict total order |
| `CompareResults.SortKeys` | extras/testing/compare_results.py:41 | `sorted` yields every key of the union exactly once, in strictly increasing order |
| `CompareResults.CountRegressions` | extras/testing/compare_results.py:42-83 | the loop counts the regression keys, or fails on the first duration `float` rejects |
| `CompareResults.RegressionCountIsSize` | extras/testing/compare_results.py:42-83 | over distinct keys the count is the number of regression keys among them |
| `CompareResults.CompareCount` | extras/testing/compare_results.py:41-83 | over the sorted union the count is the number of regression keys |
| `CompareResults.Compare` | extras/testing/compare_results.py:37-88 | every key of the union is visited once, in sorted order, with its verdict, and the count is the number of regression keys |
| `CompareResults.Classify` | extras/testing/compare_results.py:48-83 | a key is added iff it is only in the patched run, missing iff only in the baseline, both-passed iff both statuses are `passed`, a status change iff the statuses differ, and still failing iff they agree on something other than `passed` |
| `CompareResults.NullStatusIsMissingStatus` | extras/testing/compare_results.py:56-83 | a `null` status and a missing one are the same status, so such a pair is still failing, not a status change |
| `CompareResults.OneSidedKeys` | extras/testing/compare_results.py:48-54 | a key only in the patched run is never a regression; a key only in the baseline always is |
| `CompareResults.SharedKeyRegression` | extras/testing/compare_results.py:56-83 | a key in both runs is a regression iff the two statuses are not both `passed` |
| `CompareResults.RegressionsBounded` | extras/testing/compare_results.py:41-83 | there are never more regressions than baseline keys |
| `CompareResults.CompareMain` | extras/testing/compare_results.py:106-112 | `main` succeeds iff both files load and compare, and then returns 0 whatever the count |

## Findings

| source | as written | input that shows it | evidently intended | confidence | as-written member | corrected member |
|---|---|---|---|---|---|---|
| extras/tools/modelscope/manage.py:144 | `cache_root == cache_root.anchor` compares a `Path` with a `str`, which are never equal | `cache_root = Path("/")`: the guard passes and `shutil.rmtree("/")` is reached | refuse to remove a path that is its own anchor | not executed | `CacheRoot.RootPassesGuardAsWritten` | `CacheRoot.CleanCacheRoot` |

## Left out

- Subprocess calls are left out: podman, git, pip, `snapshot_download`, `run_command`, `run_subprocess`, `shlex`. A command's result is the `outcome` input.
- File-system work is left out: walking a snapshot, synthesising files, metadata files, removing trees, writing result files. Parsed files are inputs.
- YAML and JSON parsing are left out. Mappings are key-value lists with distinct keys, as a parser produces them.
- The runner's monkey-patches of `huggingface_hub`, `transformers` and `datasets` are left out, because they wrap foreign libraries.
- The `tokenizer_file` step of `_normalize_tokenizer_artifacts` is left out, because it depends on whether `tokenizer.json` exists on disk.
- Timestamps, `duration_s`, `describe`, the "faster/slower" message and every `print` are left out, because they are clocks, floats and console output.
- `resolve_output_path`, `write_results` and the argparse wiring are left out, because they are CLI and file-system plumbing.
- The GPU and environment smoke scripts are left out, because they only import libraries and print.
- ModelKey.SafeModelKey: only ASCII letters and digits count as alphanumeric. Python's `isalnum` also keeps non-ASCII letters and digits.
- Environment.ApplyOfflineDefaults: `str(Path(...))` is not normalised (no collapsing of `//` or `.` segments), and `expanduser` is modelled for `~` and `~/...` only.
- RunTests.EntryError: `Value` has no floats, so an entry with a float `timeout` (which `int()` truncates) cannot be written down; `int()` of a string with `_` separators is treated as an error.
- Floats: `Value` has no float case, so float `timeout` entries and float `duration_s` values cannot be expressed.
- Text.ParseInt: only ASCII digits are read; Python's `int` also accepts `_` between digits and non-ASCII decimal digits.
- OfflineConfig.AddedTokenIndex: the result is a map, so the key order `json.dumps` writes (first occurrence of each token) is not modelled.
- Values.Repr: a string is always put in single quotes without escaping; Python switches to double quotes for a string holding `'` and escapes control characters.
- RunTests.RunSuite: entries are checked and commands consulted one index at a time, as in Python, but the side effects of the commands that ran before a rejected entry or a raising command are not modelled.
- CompareResults.Compare: `float()` is modelled for integers, booleans and strings spelling an integer. A string spelling a non-integer float is treated as an error. Statuses are compared structurally, so `1 == True` is not modelled, and two mapping statuses with the same entries in a different order count as different, where Python's dict `==` ignores order.
