/** The few `str` operations of Python the helpers rely on, over `seq<char>`. */
module Text {
  import opened Wrappers

  /** `c.isspace()`: the characters Python counts as whitespace. */
  predicate IsSpace(c: char) {
    || c == ' ' || c == '\t' || c == '\n' || c == '\r' || c == '\U{B}' || c == '\U{C}'
    || ('\U{1C}' <= c <= '\U{1F}') || c == '\U{85}' || c == '\U{A0}' || c == '\U{1680}'
    || ('\U{2000}' <= c <= '\U{200A}') || c == '\U{2028}' || c == '\U{2029}'
    || c == '\U{202F}' || c == '\U{205F}' || c == '\U{3000}'
  }

  /** `c.isalnum()` restricted to ASCII letters and digits. */
  predicate IsAsciiAlnum(c: char) {
    ('a' <= c <= 'z') || ('A' <= c <= 'Z') || ('0' <= c <= '9')
  }

  predicate IsDigit(c: char) {
    '0' <= c <= '9'
  }

  /** `s.lstrip()` */
  function DropLeadingSpace(s: string): (r: string)
    ensures |r| <= |s| && r == s[|s| - |r|..]
    ensures forall k :: 0 <= k < |s| - |r| ==> IsSpace(s[k])
    ensures r == [] || !IsSpace(r[0])
  {
    if s != [] && IsSpace(s[0]) then DropLeadingSpace(s[1..]) else s
  }

  /** `s.rstrip()` */
  function DropTrailingSpace(s: string): (r: string)
    ensures |r| <= |s| && r == s[..|r|]
    ensures forall k :: |r| <= k < |s| ==> IsSpace(s[k])
    ensures r == [] || !IsSpace(r[|r| - 1])
  {
    if s != [] && IsSpace(s[|s| - 1]) then DropTrailingSpace(s[..|s| - 1]) else s
  }

  /** Everything of `s` before position `i` and from position `j` on is
      whitespace. */
  predicate OnlySpaceOutside(s: string, i: int, j: int) {
    && 0 <= i <= j <= |s|
    && (forall k :: 0 <= k < i ==> IsSpace(s[k]))
    && (forall k :: j <= k < |s| ==> IsSpace(s[k]))
  }

  /** `s.strip()`: the result starts and ends with a non-space character (or
      is empty), and a string that already does is its own strip;
      `StripKeepsMiddle` shows only surrounding whitespace is dropped. */
  function Strip(s: string): (r: string)
    ensures |r| <= |s|
    ensures r == [] || (!IsSpace(r[0]) && !IsSpace(r[|r| - 1]))
    ensures (s == [] || (!IsSpace(s[0]) && !IsSpace(s[|s| - 1]))) ==> r == s
  {
    StrippedEnds(s);
    DropTrailingSpace(DropLeadingSpace(s))
  }

  /** `s.strip()` keeps a slice of `s` and drops only whitespace around it. */
  lemma StripKeepsMiddle(s: string)
    ensures exists i, j :: OnlySpaceOutside(s, i, j) && Strip(s) == s[i..j]
  {
    var left := DropLeadingSpace(s);
    var r := Strip(s);
    assert r == DropTrailingSpace(left);
    var i := |s| - |left|;
    var j := i + |r|;
    assert left == s[i..];
    assert r == s[i..j];
    forall k | j <= k < |s| ensures IsSpace(s[k]) {
      assert IsSpace(left[k - i]);
    }
    assert OnlySpaceOutside(s, i, j);
  }

  /** The strip of a string ends in non-space characters, and a string that
      already does is left alone. */
  lemma StrippedEnds(s: string)
    ensures var r := DropTrailingSpace(DropLeadingSpace(s));
            r == [] || (!IsSpace(r[0]) && !IsSpace(r[|r| - 1]))
    ensures (s == [] || (!IsSpace(s[0]) && !IsSpace(s[|s| - 1]))) ==>
              DropTrailingSpace(DropLeadingSpace(s)) == s
  {
    var left := DropLeadingSpace(s);
    var r := DropTrailingSpace(left);
    if r != [] {
      assert r[0] == left[0];
    }
  }

  /** `s.startswith(p)` */
  predicate StartsWith(s: string, p: string) {
    |p| <= |s| && s[..|p|] == p
  }

  /** `p in s` for strings */
  predicate Contains(s: string, p: string)
    decreases |s|
  {
    StartsWith(s, p) || (s != [] && Contains(s[1..], p))
  }

  /** A pattern is only found in a string at least as long as itself. */
  lemma {:induction false} ContainsFitsIn(s: string, p: string)
    requires Contains(s, p)
    ensures |p| <= |s|
    decreases |s|
  {
    if !StartsWith(s, p) {
      ContainsFitsIn(s[1..], p);
    }
  }

  /** A one-character pattern is found exactly when the character occurs. */
  lemma {:induction false} ContainsChar(s: string, c: char)
    ensures Contains(s, [c]) <==> c in s
    decreases |s|
  {
    if s != [] {
      assert StartsWith(s, [c]) <==> s[0] == c;
      ContainsChar(s[1..], c);
      assert s == [s[0]] + s[1..];
    }
  }

  /** `s.count(pat)`: occurrences counted left to right, never overlapping;
      none exactly when the pattern is not found. */
  function Occurrences(s: string, pat: string): (n: nat)
    requires pat != []
    ensures n == 0 <==> !Contains(s, pat)
    ensures n * |pat| <= |s|
    decreases |s|
  {
    if |s| < |pat| then
      assert !Contains(s, pat) by {
        if Contains(s, pat) { ContainsFitsIn(s, pat); }
      }
      0
    else if StartsWith(s, pat) then 1 + Occurrences(s[|pat|..], pat)
    else Occurrences(s[1..], pat)
  }

  /** `s.replace(pat, rep)`: occurrences are replaced left to right and
      never overlap, so each one found by `Occurrences` changes the length
      by `|rep| - |pat|`. */
  function ReplaceAll(s: string, pat: string, rep: string): (r: string)
    requires pat != []
    ensures !Contains(s, pat) ==> r == s
    ensures |r| == |s| + Occurrences(s, pat) * (|rep| - |pat|)
    decreases |s|
  {
    if |s| < |pat| then s
    else if StartsWith(s, pat) then
      var m := Occurrences(s[|pat|..], pat);
      assert (1 + m) * (|rep| - |pat|) == (|rep| - |pat|) + m * (|rep| - |pat|);
      rep + ReplaceAll(s[|pat|..], pat, rep)
    else
      assert [s[0]] + s[1..] == s;
      [s[0]] + ReplaceAll(s[1..], pat, rep)
  }

  /** A string that starts with the pattern has it replaced there. */
  lemma ReplaceAllAtStart(v: string, pat: string, rep: string)
    requires pat != []
    ensures ReplaceAll(pat + v, pat, rep) == rep + ReplaceAll(v, pat, rep)
  {
    var s := pat + v;
    assert s[..|pat|] == pat;
    assert s[|pat|..] == v;
  }

  /** A string long enough for the pattern but not starting with it keeps
      its first character. */
  lemma ReplaceAllSkipsFirst(s: string, pat: string, rep: string)
    requires pat != [] && |pat| <= |s| && !StartsWith(s, pat)
    ensures ReplaceAll(s, pat, rep) == [s[0]] + ReplaceAll(s[1..], pat, rep)
  {
  }

  /** When the pattern right after a non-empty `u` is its first
      occurrence, the string does not start with it. */
  lemma FirstOccurrenceNotAtHead(u: string, v: string, pat: string)
    requires pat != [] && u != [] && !Contains(u + pat[..|pat|-1], pat)
    ensures |pat| <= |u + pat + v| && !StartsWith(u + pat + v, pat)
  {
    var w := u + pat[..|pat|-1];
    assert !StartsWith(w, pat);
    assert (u + pat + v)[..|pat|] == w[..|pat|];
  }

  /** ... and the pattern right after `u[1..]` is still its first
      occurrence. */
  lemma FirstOccurrenceInTail(u: string, pat: string)
    requires pat != [] && u != [] && !Contains(u + pat[..|pat|-1], pat)
    ensures !Contains(u[1..] + pat[..|pat|-1], pat)
  {
    var w := u + pat[..|pat|-1];
    assert !Contains(w[1..], pat);
    assert w[1..] == u[1..] + pat[..|pat|-1];
  }

  /** One step before the first occurrence: the head of `u` is kept. */
  lemma ReplaceAllBeforeFirst(u: string, v: string, pat: string, rep: string)
    requires pat != [] && u != [] && !Contains(u + pat[..|pat|-1], pat)
    ensures ReplaceAll(u + pat + v, pat, rep) == [u[0]] + ReplaceAll(u[1..] + pat + v, pat, rep)
    ensures !Contains(u[1..] + pat[..|pat|-1], pat)
  {
    FirstOccurrenceNotAtHead(u, v, pat);
    FirstOccurrenceInTail(u, pat);
    ReplaceAllSkipsFirst(u + pat + v, pat, rep);
    assert (u + pat + v)[1..] == u[1..] + pat + v;
  }

  /** Putting the head of `u` back in front. */
  lemma ConsAppend(u: string, x: string, y: string)
    requires u != []
    ensures [u[0]] + (u[1..] + x + y) == u + x + y
  {
  }

  /** The first occurrence of the pattern becomes `rep`, the text before it
      is kept, and the replacing goes on after it. `u + pat[..|pat|-1]`
      holding no occurrence says that `pat` right after `u` is the first
      one. With the unchanged-when-absent clause of `ReplaceAll` this fixes
      the whole result. */
  lemma {:induction false} ReplaceAllAtFirst(u: string, v: string, pat: string, rep: string)
    requires pat != [] && !Contains(u + pat[..|pat|-1], pat)
    ensures ReplaceAll(u + pat + v, pat, rep) == u + rep + ReplaceAll(v, pat, rep)
    decreases |u|
  {
    var tail := ReplaceAll(v, pat, rep);
    if u == [] {
      assert u + pat + v == pat + v;
      ReplaceAllAtStart(v, pat, rep);
    } else {
      ReplaceAllBeforeFirst(u, v, pat, rep);
      ReplaceAllAtFirst(u[1..], v, pat, rep);
      ConsAppend(u, rep, tail);
    }
  }

  /** `s.split(sep, 1)` when `sep in s`, and `None` when it is not. */
  function SplitAtFirst(s: string, sep: char): (r: (string, string))
    requires sep in s
    ensures sep !in r.0 && s == r.0 + [sep] + r.1
  {
    if s[0] == sep then ([], s[1..])
    else
      var rest := SplitAtFirst(s[1..], sep);
      ([s[0]] + rest.0, rest.1)
  }

  /** Splitting a joined pair at its separator gives the pair back, as long
      as the first part does not contain the separator. */
  lemma {:induction false} SplitAtFirstOfJoin(key: string, sep: char, value: string)
    requires sep !in key
    ensures sep in key + [sep] + value
    ensures SplitAtFirst(key + [sep] + value, sep) == (key, value)
  {
    var s := key + [sep] + value;
    assert s[|key|] == sep;
    if key == [] {
      assert s[1..] == value;
    } else {
      assert s[0] == key[0] != sep;
      assert s[1..] == key[1..] + [sep] + value;
      SplitAtFirstOfJoin(key[1..], sep, value);
      assert [key[0]] + key[1..] == key;
    }
  }

  /** `str(n)` for a natural number. */
  function NatToDecimal(n: nat): (r: string)
    ensures r != [] && forall k :: 0 <= k < |r| ==> IsDigit(r[k])
  {
    var d := ['0' + (n % 10) as char];
    if n < 10 then d else NatToDecimal(n / 10) + d
  }

  /** `str(i)` for an integer. */
  function IntToDecimal(i: int): (r: string)
    ensures r != [] && (r[0] == '-' <==> i < 0)
  {
    if i < 0 then "-" + NatToDecimal(-i) else NatToDecimal(i)
  }

  predicate AllDigits(s: string) {
    forall k :: 0 <= k < |s| ==> IsDigit(s[k])
  }

  /** The number a string of decimal digits spells. */
  function DigitsValue(s: string): nat
    requires AllDigits(s)
    decreases |s|
  {
    if s == [] then 0
    else
      var last := s[|s| - 1];
      assert IsDigit(last);
      DigitsValue(s[..|s| - 1]) * 10 + (last as int - '0' as int)
  }

  /** A decimal integer literal: a digit or a sign followed by a digit,
      then only digits. */
  predicate IsIntLiteral(t: string) {
    && t != []
    && (IsDigit(t[0]) || ((t[0] == '-' || t[0] == '+') && |t| > 1))
    && forall k :: 1 <= k < |t| ==> IsDigit(t[k])
  }

  /** What remains of a literal once an optional leading sign is dropped. */
  function Unsigned(t: string): (d: string)
    ensures |d| <= |t|
  {
    if t != [] && (t[0] == '-' || t[0] == '+') then t[1..] else t
  }

  /** A string is a literal exactly when dropping its sign leaves a
      non-empty run of digits. */
  lemma UnsignedDigits(t: string)
    ensures IsIntLiteral(t) <==> Unsigned(t) != [] && AllDigits(Unsigned(t))
  {
    var d := Unsigned(t);
    if t != [] && (t[0] == '-' || t[0] == '+') {
      assert forall k :: 0 <= k < |d| ==> d[k] == t[k + 1];
      if d != [] && AllDigits(d) {
        forall k | 1 <= k < |t| ensures IsDigit(t[k]) {
          assert t[k] == d[k - 1];
        }
      }
    }
  }

  /** `int(s)` for a string: surrounding whitespace, an optional sign and at
      least one decimal digit; `None` where Python raises `ValueError`. */
  function ParseInt(s: string): Option<int> {
    var t := Strip(s);
    var digits := Unsigned(t);
    if digits != [] && AllDigits(digits) then
      var n: int := DigitsValue(digits);
      Some(if t[0] == '-' then -n else n)
    else None
  }

  /** `int` accepts exactly the strings that are a literal once stripped; a
      negative result comes from a leading `-`, a plain run of digits reads
      as the number it spells, and a literal reads as its digits after the
      sign, negated for `-`. */
  lemma ParseIntAccepts(s: string)
    ensures ParseInt(s).Some? <==> IsIntLiteral(Strip(s))
    ensures ParseInt(s).Some? ==> (ParseInt(s).value < 0 ==> Strip(s)[0] == '-')
    ensures ParseInt(s).Some? && Strip(s)[0] != '-' ==> ParseInt(s).value >= 0
    ensures Strip(s) != [] && AllDigits(Strip(s)) ==> ParseInt(s) == Some(DigitsValue(Strip(s)))
    ensures IsIntLiteral(Strip(s)) ==>
              var n: int := DigitsValue(Unsigned(Strip(s)));
              ParseInt(s) == Some(if Strip(s)[0] == '-' then -n else n)
  {
    UnsignedDigits(Strip(s));
  }

  lemma {:induction false} DigitsOfDecimal(n: nat)
    ensures AllDigits(NatToDecimal(n)) && DigitsValue(NatToDecimal(n)) == n
    decreases n
  {
    var r := NatToDecimal(n);
    if n >= 10 {
      DigitsOfDecimal(n / 10);
      assert r[..|r| - 1] == NatToDecimal(n / 10);
    }
  }

  lemma DecimalIsStripped(i: int)
    ensures Strip(IntToDecimal(i)) == IntToDecimal(i)
  {
    var r := IntToDecimal(i);
    var last := r[|r| - 1];
    assert IsDigit(last);
    assert !IsSpace(last);
    assert !IsSpace(r[0]) by {
      if i >= 0 {
        assert IsDigit(r[0]);
      }
    }
  }

  /** `int(str(i)) == i` */
  lemma ParseIntOfDecimal(i: int)
    ensures ParseInt(IntToDecimal(i)) == Some(i)
  {
    var r := IntToDecimal(i);
    DecimalIsStripped(i);
    DigitsOfDecimal(if i < 0 then -i else i);
    if i < 0 {
      assert r[1..] == NatToDecimal(-i);
    } else {
      assert IsDigit(r[0]);
    }
  }
}
