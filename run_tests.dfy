/** The curated test runner (run_tests.py): which suites a profile runs,
    how each command's outcome becomes a result record, and the summary and
    exit code. Running a command is left to an oracle `outcome`, which gives
    the result of the n-th command started in the whole run. */
module RunTests {
  import opened Wrappers
  import opened Text
  import opened Values

  /** Captured output is cut to its last `MaxOutputChars` characters. */
  const MaxOutputChars: nat := 4000

  /** `_tail`: the tail is a suffix of the text and never longer than the
      limit; a text within the limit is kept whole, a longer one is cut to
      exactly the limit. */
  function Tail(text: string): (r: string)
    ensures |r| <= MaxOutputChars && |r| <= |text|
    ensures r == text[|text| - |r|..]
    ensures |text| <= MaxOutputChars ==> r == text
    ensures |text| > MaxOutputChars ==> |r| == MaxOutputChars
  {
    if |text| <= MaxOutputChars then text else text[|text| - MaxOutputChars..]
  }

  /** Cutting an already cut output changes nothing. */
  lemma TailIdempotent(text: string)
    ensures Tail(Tail(text)) == Tail(text)
  {
  }

  // ---------------------------------------------------------------------
  // collect_suites
  // ---------------------------------------------------------------------

  /** Python's `a or b`. */
  function Or(a: Value, b: Value): Value {
    if Truthy(a) then a else b
  }

  /** The profile's `suites` entry: `[]` unless `profiles` is a mapping with
      the profile in it and the profile's payload is itself a mapping. */
  function ProfileOrder(matrix: Dict, profile: string): Value {
    var declared := LookupOr(matrix, "profiles", VDict([]));
    if declared.VDict? && HasKey(declared.entries, profile) then
      var payload := Lookup(declared.entries, profile).value;
      if payload.VDict? then LookupOr(payload.entries, "suites", VList([])) else VList([])
    else VList([])
  }

  function StrList(names: seq<string>): (r: seq<Value>)
    ensures |r| == |names| && forall k :: 0 <= k < |r| ==> r[k] == VStr(names[k])
  {
    seq(|names|, k requires 0 <= k < |names| => VStr(names[k]))
  }

  /** `collect_suites`; `suites` holds the `--suite` arguments, empty when
      none were given. */
  function CollectSuites(matrix: Dict, profile: string, suites: seq<string>): (r: Result<seq<Value>>)
    ensures r.Ok? ==> r.value != []
  {
    var chosen := Or(VList(StrList(suites)), Or(ProfileOrder(matrix, profile),
                    Or(LookupOr(matrix, "default_suites", VList([])), VList([]))));
    var selected :- ListOf(chosen);
    if selected != [] then Ok(selected)
    else
      var declaredSuites := Or(LookupOr(matrix, "suites", VNone), VDict([]));
      if !declaredSuites.VDict? then Err("AttributeError: object has no attribute 'keys'")
      else
        var keys := ListOf(declaredSuites).value;
        if keys == [] then Err("No suites selected to run") else Ok(keys)
  }

  /** The first non-empty source decides: the `--suite` arguments, then the
      profile's `suites`, then `default_suites`, then every declared suite. */
  lemma CollectSuitesPrecedence(matrix: Dict, profile: string, suites: seq<string>)
    ensures suites != [] ==> CollectSuites(matrix, profile, suites) == Ok(StrList(suites))
    ensures suites == [] && Truthy(ProfileOrder(matrix, profile)) ==>
              CollectSuites(matrix, profile, suites) == ListOf(ProfileOrder(matrix, profile))
    ensures suites == [] && !Truthy(ProfileOrder(matrix, profile))
            && Truthy(LookupOr(matrix, "default_suites", VList([]))) ==>
              CollectSuites(matrix, profile, suites) == ListOf(LookupOr(matrix, "default_suites", VList([])))
    ensures suites == [] && !Truthy(ProfileOrder(matrix, profile))
            && !Truthy(LookupOr(matrix, "default_suites", VList([])))
            && Lookup(matrix, "suites").Some? && Lookup(matrix, "suites").value.VDict? ==>
              CollectSuites(matrix, profile, suites) ==
                (var all := Lookup(matrix, "suites").value.entries;
                 if all == [] then Err("No suites selected to run") else Ok(StrList(Keys(all))))
  {
    var all := LookupOr(matrix, "suites", VNone);
    if all.VDict? {
      assert ListOf(all).value == StrList(Keys(all.entries));
    }
  }

  /** A profile that is not declared, or whose payload is not a mapping,
      contributes no suites. */
  lemma UndeclaredProfileContributesNothing(matrix: Dict, profile: string)
    requires var declared := LookupOr(matrix, "profiles", VDict([]));
             !declared.VDict? || !HasKey(declared.entries, profile)
             || !Lookup(declared.entries, profile).value.VDict?
    ensures ProfileOrder(matrix, profile) == VList([])
  {
  }

  // ---------------------------------------------------------------------
  // run_suite
  // ---------------------------------------------------------------------

  /** What running one command gave: its exit code and output, a timeout, or
      any other exception (a missing working directory, say), which `run_suite`
      does not catch and which ends the run with its message. */
  datatype Outcome =
    | Completed(returncode: int, stdout: string, stderr: string)
    | TimedOut
    | Raised(message: string)

  datatype Status = Passed | Failed | Timeout

  function StatusName(s: Status): string {
    match s
    case Passed => "passed"
    case Failed => "failed"
    case Timeout => "timeout"
  }

  /** One result record; the timestamp and the duration are left out. */
  datatype Record = Record(
    profile: string,
    suite: string,
    name: Value,
    command: string,
    status: Status,
    returncode: Option<int>,
    stdout: string,
    stderr: string)

  /** `int(v)` for the `timeout` entry. */
  function IntOf(v: Value): Result<int> {
    match v
    case VInt(i) => Ok(i)
    case VBool(b) => Ok(if b then 1 else 0)
    case VStr(s) =>
      var n := ParseInt(s);
      if n.Some? then Ok(n.value) else Err("ValueError: invalid literal for int() with base 10")
    case _ => Err("TypeError: int() argument must be a string or a number")
  }

  function TimeoutText(timeout: Option<int>): string {
    if timeout.Some? then IntToDecimal(timeout.value) else "None"
  }

  function SuiteError(suiteName: string, what: string): string {
    "Suite '" + suiteName + "' " + what
  }

  /** An entry `run_suite` accepts: a mapping with a string `cmd`, a
      `workdir` that is absent, `None` or a string, an `env` that is falsy or
      a mapping, and a `timeout` that is absent, `None` or convertible by `int`. */
  predicate ValidEntry(item: Value) {
    && item.VDict?
    && LookupOr(item.entries, "cmd", VNone).VStr?
    && (var w := LookupOr(item.entries, "workdir", VNone); w.VNone? || w.VStr?)
    && Or(LookupOr(item.entries, "env", VNone), VDict([])).VDict?
    && (var t := LookupOr(item.entries, "timeout", VNone); t.VNone? || IntOf(t).Ok?)
  }

  /** `item.get("name") or f"{suite_name}-{index}"` */
  function EntryName(suiteName: string, index: nat, entries: Dict): Value {
    Or(LookupOr(entries, "name", VNone), VStr(suiteName + "-" + NatToDecimal(index)))
  }

  /** The message `run_suite` exits with for a malformed entry, checked in
      the order the source checks them; `None` for an entry it accepts. */
  function EntryError(suiteName: string, index: nat, item: Value): (e: Option<string>)
    ensures e.None? <==> ValidEntry(item)
  {
    if !item.VDict? then Some(SuiteError(suiteName, "command #" + NatToDecimal(index) + " must be a mapping"))
    else
      var entries := item.entries;
      var name := PyStr(EntryName(suiteName, index, entries));
      var workdir := LookupOr(entries, "workdir", VNone);
      var timeout := LookupOr(entries, "timeout", VNone);
      if !LookupOr(entries, "cmd", VNone).VStr? then Some(SuiteError(suiteName, "command '" + name + "' missing 'cmd'"))
      else if !workdir.VNone? && !workdir.VStr? then Some(SuiteError(suiteName, "command '" + name + "' has invalid workdir"))
      else if !Or(LookupOr(entries, "env", VNone), VDict([])).VDict? then
        Some(SuiteError(suiteName, "command '" + name + "' env must be a mapping"))
      else if !timeout.VNone? && IntOf(timeout).Err? then Some(IntOf(timeout).error)
      else None
  }

  /** An entry is accepted and its command ends without raising. */
  predicate Runs(item: Value, outcome: Outcome) {
    ValidEntry(item) && !outcome.Raised?
  }

  /** The record of an accepted entry, given how its command ended. */
  function NewRecord(suiteName: string, profile: string, index: nat, entries: Dict, outcome: Outcome): Record
    requires ValidEntry(VDict(entries)) && !outcome.Raised?
  {
    var name := EntryName(suiteName, index, entries);
    var command := LookupOr(entries, "cmd", VNone).s;
    var rawTimeout := LookupOr(entries, "timeout", VNone);
    var timeout := if rawTimeout.VNone? then None else Some(IntOf(rawTimeout).value);
    if outcome.TimedOut? then
      Record(profile, suiteName, name, command, Timeout, None, "",
             "Command timed out after " + TimeoutText(timeout) + "s")
    else
      var rc := outcome.returncode;
      Record(profile, suiteName, name, command, if rc == 0 then Passed else Failed, Some(rc),
             Tail(outcome.stdout), Tail(outcome.stderr))
  }

  /** The record for command `index` of the suite, or the error that stops
      the run: the entry is malformed, or running its command raised. */
  function CommandRecord(suiteName: string, profile: string, index: nat, item: Value, outcome: Outcome)
    : (r: Result<Record>)
    ensures r.Ok? <==> Runs(item, outcome)
    ensures ValidEntry(item) && outcome.Raised? ==> r == Err(outcome.message)
  {
    var e := EntryError(suiteName, index, item);
    if e.Some? then Err(e.value)
    else if outcome.Raised? then Err(outcome.message)
    else Ok(NewRecord(suiteName, profile, index, item.entries, outcome))
  }

  /** A record carries the command and its name, `suite-index` when the
      entry has no truthy name; its status is `passed` exactly for exit code
      0, `failed` for any other exit code and `timeout`, with no exit code,
      for a timeout; completed output is cut by `Tail`. */
  lemma CommandRecordFields(suiteName: string, profile: string, index: nat, item: Value, outcome: Outcome)
    requires ValidEntry(item) && !outcome.Raised?
    ensures var r := CommandRecord(suiteName, profile, index, item, outcome).value;
            var name := LookupOr(item.entries, "name", VNone);
            && r.profile == profile && r.suite == suiteName
            && r.command == LookupOr(item.entries, "cmd", VNone).s
            && r.name == (if Truthy(name) then name else VStr(suiteName + "-" + NatToDecimal(index)))
            && (r.status == Passed <==> outcome.Completed? && outcome.returncode == 0)
            && (r.status == Failed <==> outcome.Completed? && outcome.returncode != 0)
            && (r.status == Timeout <==> outcome.TimedOut?)
            && (r.returncode.None? <==> outcome.TimedOut?)
            && (outcome.Completed? ==>
                  r.returncode == Some(outcome.returncode) && r.stdout == Tail(outcome.stdout) && r.stderr == Tail(outcome.stderr))
            && (outcome.TimedOut? ==> r.stdout == [] && StartsWith(r.stderr, "Command timed out after "))
  {
    var r := CommandRecord(suiteName, profile, index, item, outcome).value;
    if outcome.TimedOut? {
      assert r.stderr[..|"Command timed out after "|] == "Command timed out after ";
    }
  }

  /** With an integer `timeout` entry, the timeout message names it exactly
      as `str` prints it. (Python never times out a command without one;
      the `outcome` oracle is not restricted so, and the message then reads
      "None".) */
  lemma TimeoutMessage(suiteName: string, profile: string, index: nat, item: Value, seconds: int)
    requires ValidEntry(item) && LookupOr(item.entries, "timeout", VNone) == VInt(seconds)
    ensures CommandRecord(suiteName, profile, index, item, TimedOut).value.stderr
         == "Command timed out after " + IntToDecimal(seconds) + "s"
  {
  }

  /** One more command of the loop: the first error wins, and a record is
      appended only while there is none. */
  function AppendRecord(prefix: Result<seq<Record>>, last: Result<Record>): (r: Result<seq<Record>>)
    ensures r.Ok? <==> prefix.Ok? && last.Ok?
    ensures r.Ok? ==> r.value == prefix.value + [last.value]
    ensures prefix.Err? ==> r == prefix
    ensures prefix.Ok? && last.Err? ==> r == Err(last.error)
  {
    if prefix.Err? then prefix
    else if last.Err? then Err(last.error)
    else Ok(prefix.value + [last.value])
  }

  /** The records of the first `count` commands, or the error of the first
      of them that is malformed or raises; command `k` gets `outcome(start + k)`. */
  function CommandRecords(suiteName: string, profile: string, items: seq<Value>, count: nat,
                          outcome: nat -> Outcome, start: nat): (r: Result<seq<Record>>)
    requires count <= |items|
    ensures r.Ok? ==> |r.value| == count
  {
    if count == 0 then Ok([])
    else
      AppendRecord(CommandRecords(suiteName, profile, items, count - 1, outcome, start),
                   CommandRecord(suiteName, profile, count - 1, items[count - 1], outcome(start + count - 1)))
  }

  /** What `run_suite` returns for a suite's configuration. */
  function SuiteRecords(suiteName: string, suiteCfg: Dict, profile: string, outcome: nat -> Outcome, start: nat)
    : Result<seq<Record>>
  {
    var commands := LookupOr(suiteCfg, "commands", VNone);
    if !IsSequence(commands) then Err(SuiteError(suiteName, "must contain a sequence of commands"))
    else
      var items := ListOf(commands).value;
      CommandRecords(suiteName, profile, items, |items|, outcome, start)
  }

  /** `run_suite`: one record per command, in order. `start` is the number
      of commands the run has started before this suite. */
  method RunSuite(suiteName: string, suiteCfg: Dict, profile: string, outcome: nat -> Outcome, start: nat)
    returns (r: Result<seq<Record>>)
    ensures r == SuiteRecords(suiteName, suiteCfg, profile, outcome, start)
  {
    var commands := LookupOr(suiteCfg, "commands", VNone);
    if !IsSequence(commands) {
      return Err(SuiteError(suiteName, "must contain a sequence of commands"));
    }
    var items := ListOf(commands).value;
    var results: seq<Record> := [];
    var index := 0;
    while index < |items|
      invariant 0 <= index <= |items|
      invariant CommandRecords(suiteName, profile, items, index, outcome, start) == Ok(results)
    {
      var record := CommandRecord(suiteName, profile, index, items[index], outcome(start + index));
      if record.Err? {
        CommandRecordsFirstError(suiteName, profile, items, outcome, start, index + 1, |items|);
        return Err(record.error);
      }
      results := results + [record.value];
      index := index + 1;
    }
    r := Ok(results);
  }

  /** The first `count` commands all yield records exactly when each of
      their entries is accepted and none of them raises. */
  lemma {:induction false} CommandRecordsAccept(suiteName: string, profile: string, items: seq<Value>, count: nat,
                                                outcome: nat -> Outcome, start: nat)
    requires count <= |items|
    ensures CommandRecords(suiteName, profile, items, count, outcome, start).Ok?
        <==> forall k :: 0 <= k < count ==> Runs(items[k], outcome(start + k))
  {
    if CommandRecords(suiteName, profile, items, count, outcome, start).Ok? {
      forall k | 0 <= k < count ensures Runs(items[k], outcome(start + k)) {
        CommandRecordsInOrder(suiteName, profile, items, count, outcome, start, k);
      }
    } else if count > 0 {
      var last := CommandRecord(suiteName, profile, count - 1, items[count - 1], outcome(start + count - 1));
      if last.Ok? {
        CommandRecordsAccept(suiteName, profile, items, count - 1, outcome, start);
      }
    }
  }

  /** The k-th record is the record of the k-th entry and the k-th outcome. */
  lemma {:induction false} CommandRecordsInOrder(suiteName: string, profile: string, items: seq<Value>, count: nat,
                                                 outcome: nat -> Outcome, start: nat, k: nat)
    requires count <= |items| && k < count
    requires CommandRecords(suiteName, profile, items, count, outcome, start).Ok?
    ensures CommandRecord(suiteName, profile, k, items[k], outcome(start + k))
         == Ok(CommandRecords(suiteName, profile, items, count, outcome, start).value[k])
  {
    if k < count - 1 {
      CommandRecordsInOrder(suiteName, profile, items, count - 1, outcome, start, k);
    }
  }

  /** Once a command is rejected, the commands after it do not matter: the
      first error is the suite's error. */
  lemma {:induction false} CommandRecordsFirstError(suiteName: string, profile: string, items: seq<Value>,
                                                    outcome: nat -> Outcome, start: nat, j: nat, count: nat)
    requires j <= count <= |items|
    requires CommandRecords(suiteName, profile, items, j, outcome, start).Err?
    ensures CommandRecords(suiteName, profile, items, count, outcome, start)
         == CommandRecords(suiteName, profile, items, j, outcome, start)
    decreases count
  {
    if j < count {
      CommandRecordsFirstError(suiteName, profile, items, outcome, start, j, count - 1);
    }
  }

  /** A suite yields exactly one record per command, the k-th from the k-th
      entry and outcome; it fails when `commands` is not a sequence, any
      entry is malformed or any command raises. */
  lemma RunSuiteRecordPerCommand(suiteName: string, suiteCfg: Dict, profile: string, outcome: nat -> Outcome, start: nat)
    ensures var commands := LookupOr(suiteCfg, "commands", VNone);
            var r := SuiteRecords(suiteName, suiteCfg, profile, outcome, start);
            && (r.Ok? <==> IsSequence(commands) && forall k :: 0 <= k < |ListOf(commands).value| ==>
                  Runs(ListOf(commands).value[k], outcome(start + k)))
            && (r.Ok? ==> |r.value| == |ListOf(commands).value| && forall k :: 0 <= k < |r.value| ==>
                  CommandRecord(suiteName, profile, k, ListOf(commands).value[k], outcome(start + k)) == Ok(r.value[k]))
  {
    var commands := LookupOr(suiteCfg, "commands", VNone);
    if IsSequence(commands) {
      var items := ListOf(commands).value;
      CommandRecordsAccept(suiteName, profile, items, |items|, outcome, start);
      var r := SuiteRecords(suiteName, suiteCfg, profile, outcome, start);
      if r.Ok? {
        forall k | 0 <= k < |r.value|
          ensures CommandRecord(suiteName, profile, k, items[k], outcome(start + k)) == Ok(r.value[k])
        {
          CommandRecordsInOrder(suiteName, profile, items, |items|, outcome, start, k);
        }
      }
    }
  }

  // ---------------------------------------------------------------------
  // summarise and main
  // ---------------------------------------------------------------------

  /** The records `summarise` lists: those whose status is not `passed`, in order. */
  function Failing(records: seq<Record>): (r: seq<Record>)
    ensures |r| <= |records|
    ensures forall k :: 0 <= k < |r| ==> r[k].status != Passed && r[k] in records
    decreases |records|
  {
    if records == [] then []
    else
      var rest := Failing(records[..|records| - 1]);
      var last := records[|records| - 1];
      if last.status == Passed then rest else rest + [last]
  }

  /** The positions of the records that did not pass. */
  function FailingPositions(records: seq<Record>): set<int> {
    set k | 0 <= k < |records| && records[k].status != Passed
  }

  /** `failures` counts exactly the records that did not pass. */
  lemma {:induction false} FailingCount(records: seq<Record>)
    ensures |Failing(records)| == |FailingPositions(records)|
    decreases |records|
  {
    if records != [] {
      var n := |records| - 1;
      FailingCount(records[..n]);
      FailingPositionsStep(records);
    }
  }

  /** The last record adds its position exactly when it did not pass. */
  lemma FailingPositionsStep(records: seq<Record>)
    requires records != []
    ensures var n := |records| - 1;
            && n !in FailingPositions(records[..n])
            && FailingPositions(records)
               == FailingPositions(records[..n]) + (if records[n].status == Passed then {} else {n})
  {
    var n := |records| - 1;
    forall k | 0 <= k < n ensures records[..n][k] == records[k] { }
  }

  predicate AllPassed(records: seq<Record>) {
    forall k :: 0 <= k < |records| ==> records[k].status == Passed
  }

  /** No record is listed as failing exactly when every record passed. */
  lemma {:induction false} NoFailuresIffAllPassed(records: seq<Record>)
    ensures Failing(records) == [] <==> AllPassed(records)
    decreases |records|
  {
    if records != [] {
      var n := |records| - 1;
      NoFailuresIffAllPassed(records[..n]);
      assert forall k :: 0 <= k < n ==> records[..n][k] == records[k];
    }
  }

  /** Every record that did not pass is listed. */
  lemma {:induction false} FailingListsEveryFailure(records: seq<Record>, k: nat)
    requires k < |records| && records[k].status != Passed
    ensures records[k] in Failing(records)
    decreases |records|
  {
    var n := |records| - 1;
    if k < n {
      assert records[..n][k] == records[k];
      FailingListsEveryFailure(records[..n], k);
    }
  }

  /** `summarise`: the record count, the failure count and the failing
      records it prints. */
  method Summarise(records: seq<Record>) returns (total: nat, failures: nat, failing: seq<Record>)
    ensures total == |records|
    ensures failing == Failing(records) && failures == |failing|
    ensures failures == |FailingPositions(records)|
    ensures failures == 0 <==> AllPassed(records)
  {
    total := |records|;
    failing := [];
    var i := 0;
    while i < |records|
      invariant 0 <= i <= |records|
      invariant failing == Failing(records[..i])
    {
      assert records[..i + 1][..i] == records[..i];
      if records[i].status != Passed {
        failing := failing + [records[i]];
      }
      i := i + 1;
    }
    assert records[..i] == records;
    failures := |failing|;
    FailingCount(records);
    NoFailuresIffAllPassed(records);
  }

  /** The outcome of `main` once the matrix is loaded: all records, the
      summary counts and the exit code. */
  datatype Run = Run(records: seq<Record>, total: nat, failures: nat, exitCode: int)

  /** The configuration of a selected suite, when it is a mapping. */
  function SuiteConfig(suitesCfg: Dict, suite: Value): Option<Dict> {
    var cfg := if suite.VStr? then Lookup(suitesCfg, suite.s) else None;
    if cfg.Some? && cfg.value.VDict? then Some(cfg.value.entries) else None
  }

  /** One more suite of `main`'s loop: the first error wins, and the suite's
      records follow those of the suites before it. */
  function AppendSuite(suitesCfg: Dict, profile: string, before: Result<seq<Record>>, suite: Value,
                       outcome: nat -> Outcome): Result<seq<Record>>
  {
    var cfg := SuiteConfig(suitesCfg, suite);
    if before.Err? then before
    else if cfg.None? then Err("Suite '" + PyStr(suite) + "' missing configuration")
    else
      var records := SuiteRecords(suite.s, cfg.value, profile, outcome, |before.value|);
      if records.Err? then records else Ok(before.value + records.value)
  }

  /** The records of the selected suites, one suite after another. */
  function MatrixRecords(suitesCfg: Dict, profile: string, selected: seq<Value>, outcome: nat -> Outcome)
    : Result<seq<Record>>
    decreases |selected|
  {
    if selected == [] then Ok([])
    else
      var n := |selected| - 1;
      AppendSuite(suitesCfg, profile, MatrixRecords(suitesCfg, profile, selected[..n], outcome), selected[n], outcome)
  }

  /** The first `i + 1` suites are the first `i` and suite `i`. */
  lemma MatrixRecordsStepAt(suitesCfg: Dict, profile: string, selected: seq<Value>, outcome: nat -> Outcome, i: nat)
    requires i < |selected|
    ensures MatrixRecords(suitesCfg, profile, selected[..i + 1], outcome)
         == AppendSuite(suitesCfg, profile, MatrixRecords(suitesCfg, profile, selected[..i], outcome),
                        selected[i], outcome)
  {
    var longer := selected[..i + 1];
    assert |longer| - 1 == i && longer[..i] == selected[..i] && longer[i] == selected[i];
  }

  /** The first suite that fails stops the run, with its error. */
  lemma {:induction false} MatrixRecordsFirstError(suitesCfg: Dict, profile: string, selected: seq<Value>,
                                                   outcome: nat -> Outcome, j: nat)
    requires j <= |selected| && MatrixRecords(suitesCfg, profile, selected[..j], outcome).Err?
    ensures MatrixRecords(suitesCfg, profile, selected, outcome)
         == MatrixRecords(suitesCfg, profile, selected[..j], outcome)
    decreases |selected| - j
  {
    if j < |selected| {
      MatrixRecordsStepAt(suitesCfg, profile, selected, outcome, j);
      MatrixRecordsFirstError(suitesCfg, profile, selected, outcome, j + 1);
    } else {
      assert selected[..j] == selected;
    }
  }

  function Summary(records: seq<Record>): Run {
    Run(records, |records|, |Failing(records)|, if AllPassed(records) then 0 else 1)
  }

  /** What `main` computes once the matrix is parsed, before writing the
      results file. */
  function MatrixRun(matrix: Dict, profile: string, suites: seq<string>, outcome: nat -> Outcome): Result<Run> {
    var suitesCfg := LookupOr(matrix, "suites", VNone);
    if !suitesCfg.VDict? then Err("Matrix missing 'suites' mapping")
    else
      var selected :- CollectSuites(matrix, profile, suites);
      var records :- MatrixRecords(suitesCfg.entries, profile, selected, outcome);
      Ok(Summary(records))
  }

  /** The exit code is 0 exactly when every record passed, which is exactly
      when `summarise` reports no failures; otherwise it is 1. */
  lemma ExitCodeRule(matrix: Dict, profile: string, suites: seq<string>, outcome: nat -> Outcome)
    requires MatrixRun(matrix, profile, suites, outcome).Ok?
    ensures var run := MatrixRun(matrix, profile, suites, outcome).value;
            && run.total == |run.records|
            && (run.exitCode == 0 <==> AllPassed(run.records))
            && (run.exitCode == 0 <==> run.failures == 0)
            && (run.exitCode == 0 || run.exitCode == 1)
  {
    NoFailuresIffAllPassed(MatrixRun(matrix, profile, suites, outcome).value.records);
  }

  /** `main` after the matrix is parsed; `suites` holds the `--suite`
      arguments. */
  method RunMatrix(matrix: Dict, profile: string, suites: seq<string>, outcome: nat -> Outcome)
    returns (r: Result<Run>)
    ensures r == MatrixRun(matrix, profile, suites, outcome)
  {
    var suitesCfg := LookupOr(matrix, "suites", VNone);
    if !suitesCfg.VDict? {
      return Err("Matrix missing 'suites' mapping");
    }
    var selected :- CollectSuites(matrix, profile, suites);
    var results: seq<Record> := [];
    var i := 0;
    while i < |selected|
      invariant 0 <= i <= |selected|
      invariant MatrixRecords(suitesCfg.entries, profile, selected[..i], outcome) == Ok(results)
    {
      MatrixRecordsStepAt(suitesCfg.entries, profile, selected, outcome, i);
      var suite := selected[i];
      var cfg := SuiteConfig(suitesCfg.entries, suite);
      if cfg.None? {
        assert MatrixRecords(suitesCfg.entries, profile, selected[..i + 1], outcome)
            == Err("Suite '" + PyStr(suite) + "' missing configuration");
        MatrixRecordsFirstError(suitesCfg.entries, profile, selected, outcome, i + 1);
        return Err("Suite '" + PyStr(suite) + "' missing configuration");
      }
      var records := RunSuite(suite.s, cfg.value, profile, outcome, |results|);
      if records.Err? {
        assert MatrixRecords(suitesCfg.entries, profile, selected[..i + 1], outcome) == records;
        MatrixRecordsFirstError(suitesCfg.entries, profile, selected, outcome, i + 1);
        return Err(records.error);
      }
      results := results + records.value;
      i := i + 1;
    }
    assert selected[..i] == selected;
    var total, failures, failing := Summarise(results);
    var exitCode := if failures == 0 then 0 else 1;
    r := Ok(Run(results, total, failures, exitCode));
  }
}
