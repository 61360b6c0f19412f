/** The argument scanner of the generated calibration runner script
    (`_extract_custom_args` inside the runner source that manage.py writes):
    it removes its own flags from the command line and turns them into
    environment variables for the wrapped script. */
module RunnerArgs {
  import opened Wrappers
  import opened Text
  import opened Environment

  /** The flags that take the next token as their value, and the variable
      each one sets. */
  function ValueFlagVar(flag: string): Option<string> {
    if flag == "--model" then Some("MODEL_DIR")
    else if flag == "--output" then Some("KV_CALIB_OUTPUT")
    else if flag == "--seq-len" then Some("KV_CALIB_SEQ_LEN")
    else if flag == "--calib-data" then Some("CALIB_DATA_PATH")
    else None
  }

  predicate IsValueFlag(arg: string) {
    ValueFlagVar(arg).Some?
  }

  /** The flag whose value is optional, and the variable it sets. */
  const KvOnlyFlag: string := "--kv-only"
  const KvOnlyVar: string := "KV_CALIB_KV_ONLY"

  /** What a scan produces: the tokens handed on to the wrapped script, and
      the environment assignments, in the order they are made. */
  datatype Scan = Scan(passThrough: seq<string>, assignments: seq<(string, string)>)

  /** The scan of `argv`, token by token from the front. */
  function Extract(argv: seq<string>): Scan
    decreases |argv|
  {
    if argv == [] then Scan([], [])
    else if IsValueFlag(argv[0]) && |argv| > 1 then
      var rest := Extract(argv[2..]);
      Scan(rest.passThrough, [(ValueFlagVar(argv[0]).value, argv[1])] + rest.assignments)
    else if argv[0] == KvOnlyFlag then
      if |argv| > 1 && !StartsWith(argv[1], "-") then
        var rest := Extract(argv[2..]);
        Scan(rest.passThrough, [(KvOnlyVar, argv[1])] + rest.assignments)
      else
        var rest := Extract(argv[1..]);
        Scan(rest.passThrough, [(KvOnlyVar, "true")] + rest.assignments)
    else
      var rest := Extract(argv[1..]);
      Scan([argv[0]] + rest.passThrough, rest.assignments)
  }

  /** The environment after the assignments, made in order. */
  function Assign(env: Env, assignments: seq<(string, string)>): Env
    decreases assignments
  {
    if assignments == [] then env
    else Assign(env[assignments[0].0 := assignments[0].1], assignments[1..])
  }

  /** `_extract_custom_args`, writing into `os.environ`. */
  method ExtractCustomArgs(argv: seq<string>, environ: Environ) returns (result: seq<string>)
    modifies environ
    ensures result == Extract(argv).passThrough
    ensures environ.vars == Assign(old(environ.vars), Extract(argv).assignments)
  {
    result := [];
    var i := 0;
    while i < |argv|
      invariant 0 <= i <= |argv|
      invariant Extract(argv).passThrough == result + Extract(argv[i..]).passThrough
      invariant Assign(environ.vars, Extract(argv[i..]).assignments)
             == Assign(old(environ.vars), Extract(argv).assignments)
      decreases |argv| - i
    {
      var arg := argv[i];
      assert argv[i..][0] == arg;
      assert argv[i..][1..] == argv[i + 1..];
      if IsValueFlag(arg) && i + 1 < |argv| {
        assert argv[i..][2..] == argv[i + 2..];
        environ.Set(ValueFlagVar(arg).value, argv[i + 1]);
        i := i + 2;
        continue;
      }
      if arg == KvOnlyFlag {
        var value := "true";
        if i + 1 < |argv| && !StartsWith(argv[i + 1], "-") {
          assert argv[i..][2..] == argv[i + 2..];
          value := argv[i + 1];
          i := i + 1;
        }
        environ.Set(KvOnlyVar, value);
        i := i + 1;
        continue;
      }
      result := result + [arg];
      i := i + 1;
    }
    assert argv[i..] == [];
  }

  /** `sub` is `s` with some tokens left out and the rest in order. */
  predicate IsSubsequence(sub: seq<string>, s: seq<string>)
    decreases |s|
  {
    sub == [] || (s != [] && ((sub[0] == s[0] && IsSubsequence(sub[1..], s[1..])) || IsSubsequence(sub, s[1..])))
  }

  lemma {:induction false} SubsequenceSkip(sub: seq<string>, s: seq<string>, k: nat)
    requires k <= |s| && IsSubsequence(sub, s[k..])
    ensures IsSubsequence(sub, s)
    decreases k
  {
    if k > 0 {
      assert s[k - 1..][1..] == s[k..];
      SubsequenceSkip(sub, s, k - 1);
    }
  }

  /** The tokens handed on keep their order and come from the input. */
  lemma {:induction false} PassThroughIsSubsequence(argv: seq<string>)
    ensures IsSubsequence(Extract(argv).passThrough, argv)
    decreases |argv|
  {
    if argv != [] {
      if IsValueFlag(argv[0]) && |argv| > 1 {
        PassThroughIsSubsequence(argv[2..]);
        SubsequenceSkip(Extract(argv).passThrough, argv, 2);
      } else if argv[0] == KvOnlyFlag {
        if |argv| > 1 && !StartsWith(argv[1], "-") {
          PassThroughIsSubsequence(argv[2..]);
          SubsequenceSkip(Extract(argv).passThrough, argv, 2);
        } else {
          PassThroughIsSubsequence(argv[1..]);
          SubsequenceSkip(Extract(argv).passThrough, argv, 1);
        }
      } else {
        PassThroughIsSubsequence(argv[1..]);
        var p := Extract(argv).passThrough;
        assert p[0] == argv[0] && p[1..] == Extract(argv[1..]).passThrough;
      }
    }
  }

  /** `--kv-only` never reaches the wrapped script, and a value flag reaches
      it only when it is the very last token, with no value to take. */
  lemma {:induction false} PassThroughHoldsNoFlags(argv: seq<string>)
    ensures KvOnlyFlag !in Extract(argv).passThrough
    ensures forall i :: 0 <= i < |Extract(argv).passThrough| && IsValueFlag(Extract(argv).passThrough[i]) ==>
              i == |Extract(argv).passThrough| - 1 && argv[|argv| - 1] == Extract(argv).passThrough[i]
    decreases |argv|
  {
    if argv != [] {
      if IsValueFlag(argv[0]) && |argv| > 1 {
        PassThroughHoldsNoFlags(argv[2..]);
        assert argv[2..] != [] ==> argv[2..][|argv[2..]| - 1] == argv[|argv| - 1];
      } else if argv[0] == KvOnlyFlag {
        if |argv| > 1 && !StartsWith(argv[1], "-") {
          PassThroughHoldsNoFlags(argv[2..]);
          assert argv[2..] != [] ==> argv[2..][|argv[2..]| - 1] == argv[|argv| - 1];
        } else {
          PassThroughHoldsNoFlags(argv[1..]);
          assert argv[1..] != [] ==> argv[1..][|argv[1..]| - 1] == argv[|argv| - 1];
        }
      } else {
        PassThroughHoldsNoFlags(argv[1..]);
        var rest := Extract(argv[1..]).passThrough;
        var p := Extract(argv).passThrough;
        assert p == [argv[0]] + rest;
        if IsValueFlag(argv[0]) {
          assert |argv| == 1 && rest == [];
        }
        forall i | 0 < i < |p| && IsValueFlag(p[i])
          ensures i == |p| - 1 && argv[|argv| - 1] == p[i]
        {
          assert p[i] == rest[i - 1];
          assert argv[1..][|argv[1..]| - 1] == argv[|argv| - 1];
        }
      }
    }
  }

  /** The command line `kv-calibrate` builds: all five flags are consumed,
      in order, and only the extra quantisation arguments are scanned further. */
  lemma KvCalibrateCommandLine(model: string, output: string, seqLen: string, calib: string, extra: seq<string>)
    ensures var scan := Extract(["--model", model, "--output", output, "--kv-only", "true",
                                 "--seq-len", seqLen, "--calib-data", calib] + extra);
            && scan.passThrough == Extract(extra).passThrough
            && scan.assignments == [("MODEL_DIR", model), ("KV_CALIB_OUTPUT", output),
                                    (KvOnlyVar, "true"), ("KV_CALIB_SEQ_LEN", seqLen),
                                    ("CALIB_DATA_PATH", calib)] + Extract(extra).assignments
  {
    var a0 := ["--model", model, "--output", output, "--kv-only", "true",
               "--seq-len", seqLen, "--calib-data", calib] + extra;
    var a1, a2, a3, a4 := a0[2..], a0[4..], a0[6..], a0[8..];
    assert a0[2..] == a1 && a1[2..] == a2 && a2[2..] == a3 && a3[2..] == a4 && a4[2..] == extra;
    assert a0[0] == "--model" && a0[1] == model;
    assert a1[0] == "--output" && a1[1] == output;
    assert "true"[..1][0] == 't';
    assert a2[0] == KvOnlyFlag && a2[1] == "true" && !StartsWith("true", "-");
    assert a3[0] == "--seq-len" && a3[1] == seqLen;
    assert a4[0] == "--calib-data" && a4[1] == calib;
    assert Extract(a4) == Scan(Extract(extra).passThrough, [("CALIB_DATA_PATH", calib)] + Extract(extra).assignments);
    assert Extract(a3).passThrough == Extract(extra).passThrough;
    assert Extract(a2).passThrough == Extract(extra).passThrough;
    assert Extract(a1).passThrough == Extract(extra).passThrough;
  }

  /** A value flag as the last token is handed on unchanged and sets nothing. */
  lemma TrailingValueFlagPassesThrough(flag: string)
    requires IsValueFlag(flag)
    ensures Extract([flag]) == Scan([flag], [])
  {
  }

  /** `--kv-only` followed by another flag, or by nothing, stands for `true`
      and leaves the next token to be scanned on its own. */
  lemma KvOnlyWithoutValue(rest: seq<string>)
    requires rest == [] || StartsWith(rest[0], "-")
    ensures Extract([KvOnlyFlag] + rest)
         == Scan(Extract(rest).passThrough, [(KvOnlyVar, "true")] + Extract(rest).assignments)
  {
    assert ([KvOnlyFlag] + rest)[1..] == rest;
  }
}
