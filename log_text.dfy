/**
 * The text handling that `_parse_file` in script/pytagtime.py does on each log
 * line with Python 2's `re` module and `int()`:
 *  - `re.sub(r'\s*\[.*?\]\s*$', '', line)` removes a trailing annotation;
 *  - `re.split(r'\s+', line)` cuts the rest into fields;
 *  - `int(fields[0])` reads the timestamp.
 */
module LogText {
  import opened Wrappers

  /**
   * Python 2's `\s` on byte strings: space, and tab, newline, vertical tab,
   * form feed and carriage return (the contiguous codes 9 to 13).
   */
  predicate IsSpace(c: char) {
    c == ' ' || '\t' <= c <= '\r'
  }

  /** Every character of s[lo..hi] is whitespace. */
  predicate SpaceBetween(s: string, lo: int, hi: int)
    requires 0 <= lo <= hi <= |s|
  {
    forall m :: lo <= m < hi ==> IsSpace(s[m])
  }

  predicate NoSpace(s: string) {
    forall i :: 0 <= i < |s| ==> !IsSpace(s[i])
  }

  // ---------------------------------------------------------------------------
  // The annotation pattern `\s*\[.*?\]\s*$`
  // ---------------------------------------------------------------------------

  /** No newline in s[lo..hi]: the text `.*?` can match there. */
  predicate NoNewline(s: string, lo: int, hi: int)
    requires 0 <= lo <= hi <= |s|
  {
    forall m :: lo <= m < hi ==> s[m] != '\n'
  }

  /**
   * The annotation pattern matches s[i..] as a whole: whitespace, `[`, any text
   * without a newline (`.` does not match one), `]`, whitespace.  The greedy
   * trailing `\s*` always reaches the true end of the line before `$` is tried,
   * so every match of the pattern is a suffix of this shape.
   */
  ghost predicate AnnotationFrom(s: string, i: int) {
    exists a, b :: 0 <= i <= a < b < |s| && SpaceBetween(s, i, a) && s[a] == '[' && s[b] == ']'
      && NoNewline(s, a + 1, b) && SpaceBetween(s, b + 1, |s|)
  }

  /** Index of the last non-whitespace character of `s`, or -1 when there is none. */
  function LastNonSpace(s: string): (k: int)
    ensures -1 <= k < |s|
    ensures SpaceBetween(s, k + 1, |s|)
    ensures k >= 0 ==> !IsSpace(s[k])
  {
    LastNonSpaceBelow(s, |s|)
  }

  function LastNonSpaceBelow(s: string, hi: nat): (k: int)
    requires hi <= |s|
    ensures -1 <= k < hi
    ensures SpaceBetween(s, k + 1, hi)
    ensures k >= 0 ==> !IsSpace(s[k])
  {
    if hi == 0 then -1
    else if IsSpace(s[hi - 1]) then LastNonSpaceBelow(s, hi - 1)
    else hi - 1
  }

  /** Where the text line holding position `k` starts: 0, or just after the last newline before `k`. */
  function LineStart(s: string, k: nat): (p: nat)
    requires k <= |s|
    ensures p <= k
    ensures forall m :: p <= m < k ==> s[m] != '\n'
    ensures p > 0 ==> s[p - 1] == '\n'
  {
    if k == 0 then 0 else if s[k - 1] == '\n' then k else LineStart(s, k - 1)
  }

  /** The first index in [lo, hi) holding `[`, or `hi` when there is none. */
  function FirstOpen(s: string, lo: nat, hi: nat): (j: nat)
    requires lo <= hi <= |s|
    ensures lo <= j <= hi
    ensures j < hi ==> s[j] == '['
    ensures forall m :: lo <= m < j ==> s[m] != '['
    decreases hi - lo
  {
    if lo == hi then hi else if s[lo] == '[' then lo else FirstOpen(s, lo + 1, hi)
  }

  /** The start of the run of whitespace that ends just before position `j`. */
  function SpaceRunStart(s: string, j: nat): (i: nat)
    requires j <= |s|
    ensures i <= j
    ensures SpaceBetween(s, i, j)
    ensures i > 0 ==> !IsSpace(s[i - 1])
  {
    if j > 0 && IsSpace(s[j - 1]) then SpaceRunStart(s, j - 1) else j
  }

  /**
   * Where the substitution cuts the line: the start of the annotation the
   * pattern matches, or |s| when it matches nothing.  The closing `]` must be
   * the last non-whitespace character; the opening `[` is the first one after
   * the last newline before it; the match then extends back over the
   * whitespace in front of that `[`.
   */
  function AnnotationStart(s: string): (i: nat)
    ensures i <= |s|
  {
    var k := LastNonSpace(s);
    if k < 0 || s[k] != ']' then |s|
    else
      var j := FirstOpen(s, LineStart(s, k), k);
      if j == k then |s| else SpaceRunStart(s, j)
  }

  /** `re.sub(r'\s*\[.*?\]\s*$', '', line)`. */
  function StripAnnotation(line: string): (r: string)
    ensures r <= line
  {
    line[..AnnotationStart(line)]
  }

  /** A `]` followed only by whitespace is the last non-whitespace character. */
  lemma ClosingIsLastNonSpace(s: string, b: nat)
    requires b < |s| && !IsSpace(s[b]) && SpaceBetween(s, b + 1, |s|)
    ensures LastNonSpace(s) == b
  {
  }

  /** The suffix from the cut is matched by the pattern. */
  lemma AnnotationStartMatches(s: string)
    requires AnnotationStart(s) < |s|
    ensures AnnotationFrom(s, AnnotationStart(s))
  {
    var k := LastNonSpace(s);
    var j := FirstOpen(s, LineStart(s, k), k);
    assert SpaceBetween(s, AnnotationStart(s), j) && s[j] == '[' && s[k] == ']'
      && NoNewline(s, j + 1, k) && SpaceBetween(s, k + 1, |s|);
  }

  /** A match starting at `i` means the cut is at `i` or before it. */
  lemma AnnotationStartLeftmost(s: string, i: int)
    requires AnnotationFrom(s, i)
    ensures AnnotationStart(s) <= i
  {
    var a, b :| 0 <= i <= a < b < |s| && SpaceBetween(s, i, a) && s[a] == '[' && s[b] == ']'
      && NoNewline(s, a + 1, b) && SpaceBetween(s, b + 1, |s|);
    ClosingIsLastNonSpace(s, b);
    var p := LineStart(s, b);
    var j := FirstOpen(s, p, b);
    assert j <= a;
  }

  /**
   * The cut is the leftmost place where the pattern matches: the text from the
   * cut is an annotation, and no longer suffix is one.  So the substitution
   * removes exactly the longest annotation-shaped suffix, and nothing when there
   * is none.
   */
  lemma StripAnnotationIsLeftmostMatch(line: string)
    ensures var r := StripAnnotation(line);
      && (|r| < |line| ==> AnnotationFrom(line, |r|))
      && (forall i :: 0 <= i < |r| ==> !AnnotationFrom(line, i))
  {
    if AnnotationStart(line) < |line| {
      AnnotationStartMatches(line);
    }
    forall i | 0 <= i < AnnotationStart(line)
      ensures !AnnotationFrom(line, i)
    {
      if AnnotationFrom(line, i) {
        AnnotationStartLeftmost(line, i);
      }
    }
  }

  // ---------------------------------------------------------------------------
  // `re.split(r'\s+', s)`
  // ---------------------------------------------------------------------------

  /** The first whitespace position at or after `from`, or |s|. */
  function NextSpace(s: string, from: nat): (i: nat)
    requires from <= |s|
    ensures from <= i <= |s|
    ensures i < |s| ==> IsSpace(s[i])
    ensures forall m :: from <= m < i ==> !IsSpace(s[m])
    decreases |s| - from
  {
    if from == |s| || IsSpace(s[from]) then from else NextSpace(s, from + 1)
  }

  /** The first non-whitespace position at or after `from`, or |s|. */
  function SkipSpace(s: string, from: nat): (j: nat)
    requires from <= |s|
    ensures from <= j <= |s|
    ensures j < |s| ==> !IsSpace(s[j])
    ensures forall m :: from <= m < j ==> IsSpace(s[m])
    decreases |s| - from
  {
    if from == |s| || !IsSpace(s[from]) then from else SkipSpace(s, from + 1)
  }

  /**
   * `re.split(r'\s+', s)`: the pieces between maximal runs of whitespace.  A
   * leading run gives a leading empty field and a trailing run a trailing one.
   */
  function SplitWs(s: string): (fields: seq<string>)
    ensures |fields| >= 1
    ensures forall k :: 0 <= k < |fields| ==> NoSpace(fields[k])
    ensures forall k :: 0 < k < |fields| - 1 ==> fields[k] != ""
  {
    SplitFromShape(s, 0);
    SplitFrom(s, 0)
  }

  /** The split of s[from..]: the field up to the next whitespace run, then the split after that run. */
  function SplitFrom(s: string, from: nat): seq<string>
    requires from <= |s|
    decreases |s| - from
  {
    var i := NextSpace(s, from);
    if i == |s| then [s[from..]] else [s[from..i]] + SplitFrom(s, SkipSpace(s, i + 1))
  }

  /** Every split has a field; no field holds whitespace; only the first and the last can be empty. */
  lemma {:induction false} SplitFromShape(s: string, from: nat)
    requires from <= |s|
    ensures var fields := SplitFrom(s, from);
      && |fields| >= 1
      && (forall k :: 0 <= k < |fields| ==> NoSpace(fields[k]))
      && (forall k :: 0 < k < |fields| - 1 ==> fields[k] != "")
    decreases |s| - from
  {
    var i := NextSpace(s, from);
    NoSpaceSlice(s, from, i);
    if i < |s| {
      var j := SkipSpace(s, i + 1);
      SplitFromShape(s, j);
      SplitFromInnerField(s, j);
    }
  }

  /** A stretch without whitespace is a whitespace-free field. */
  lemma NoSpaceSlice(s: string, lo: nat, hi: nat)
    requires lo <= hi <= |s| && forall m :: lo <= m < hi ==> !IsSpace(s[m])
    ensures NoSpace(s[lo..hi])
  {
    assert forall m :: 0 <= m < hi - lo ==> s[lo..hi][m] == s[lo + m];
  }

  /** A split that starts after a whitespace run has a non-empty first field unless it is the only field. */
  lemma SplitFromInnerField(s: string, j: nat)
    requires j <= |s| && (j < |s| ==> !IsSpace(s[j]))
    ensures var rest := SplitFrom(s, j); |rest| > 1 ==> rest[0] != ""
  {
    if j < |s| {
      assert NextSpace(s, j) > j;
    }
  }

  /** Every character of `s` is whitespace. */
  predicate AllSpace(s: string) {
    forall i :: 0 <= i < |s| ==> IsSpace(s[i])
  }

  /**
   * Fields joined by runs of whitespace (`seps[k]` between fields `k` and
   * `k + 1`): the inverse of SplitWs on well-formed field lists.
   */
  function Join(fields: seq<string>, seps: seq<string>): string
    requires |fields| >= 1 && |seps| == |fields| - 1
  {
    if |fields| == 1 then fields[0] else fields[0] + seps[0] + Join(fields[1..], seps[1..])
  }

  lemma {:induction false} JoinStart(fields: seq<string>, seps: seq<string>)
    requires |fields| >= 1 && |seps| == |fields| - 1
    ensures fields[0] <= Join(fields, seps)
  {
  }

  /**
   * Splitting undoes joining for any list of whitespace-free fields whose inner
   * fields are non-empty (only the first and last field may be empty), whatever
   * non-empty runs of whitespace separate them (`\r\n`, several spaces, tabs).
   */
  lemma SplitJoin(fields: seq<string>, seps: seq<string>)
    requires |fields| >= 1 && |seps| == |fields| - 1
    requires forall k :: 0 <= k < |seps| ==> seps[k] != "" && AllSpace(seps[k])
    requires forall k :: 0 <= k < |fields| ==> NoSpace(fields[k])
    requires forall k :: 0 < k < |fields| - 1 ==> fields[k] != ""
    ensures SplitWs(Join(fields, seps)) == fields
  {
    var s := Join(fields, seps);
    assert s[0..] == s;
    JoinableOf(fields, seps);
    SplitJoinFrom(s, 0, fields, seps);
  }

  /** The conditions of SplitJoin, taken one field at a time. */
  predicate Joinable(fields: seq<string>, seps: seq<string>) {
    && |fields| >= 1 && |seps| == |fields| - 1 && NoSpace(fields[0])
    && (|fields| > 1 ==>
          && seps[0] != "" && AllSpace(seps[0])
          && (fields[1] == "" ==> |fields| == 2)
          && Joinable(fields[1..], seps[1..]))
  }

  lemma {:induction false} JoinableOf(fields: seq<string>, seps: seq<string>)
    requires |fields| >= 1 && |seps| == |fields| - 1
    requires forall k :: 0 <= k < |seps| ==> seps[k] != "" && AllSpace(seps[k])
    requires forall k :: 0 <= k < |fields| ==> NoSpace(fields[k])
    requires forall k :: 0 < k < |fields| - 1 ==> fields[k] != ""
    ensures Joinable(fields, seps)
  {
    if |fields| > 1 {
      var rest, more := fields[1..], seps[1..];
      assert forall k :: 0 <= k < |more| ==> more[k] == seps[k + 1];
      assert forall k :: 0 <= k < |rest| ==> rest[k] == fields[k + 1];
      JoinableOf(rest, more);
    }
  }

  /** The same, for a joined text that starts at position `p` of a longer string. */
  lemma {:induction false} SplitJoinFrom(s: string, p: nat, fields: seq<string>, seps: seq<string>)
    requires Joinable(fields, seps)
    requires p <= |s| && s[p..] == Join(fields, seps)
    ensures SplitFrom(s, p) == fields
    decreases |fields|
  {
    if |fields| == 1 {
      LastField(s, p, fields[0]);
      assert fields == [fields[0]];
    } else {
      var j := JoinStep(s, p, fields, seps);
      SplitJoinFrom(s, j, fields[1..], seps[1..]);
      assert fields == [fields[0]] + fields[1..];
    }
  }

  /** The first field of a joined text is split off, and the split goes on where the next field starts. */
  lemma JoinStep(s: string, p: nat, fields: seq<string>, seps: seq<string>) returns (j: nat)
    requires Joinable(fields, seps) && |fields| > 1
    requires p <= |s| && s[p..] == Join(fields, seps)
    ensures j <= |s| && s[j..] == Join(fields[1..], seps[1..]) && Joinable(fields[1..], seps[1..])
    ensures SplitFrom(s, p) == [fields[0]] + SplitFrom(s, j)
  {
    var f, rest := fields[0], fields[1..];
    var tail := Join(rest, seps[1..]);
    JoinStart(rest, seps[1..]);
    assert tail == "" || !IsSpace(tail[0]) by {
      if tail != "" && rest[0] != "" {
        assert tail[0] == rest[0][0];
        assert NoSpace(rest[0]);
      }
    }
    j := SeparatorAt(s, p, f, seps[0], tail);
    SplitFromStep(s, p, p + |f|, j);
  }

  /** A whitespace-free text that runs to the end is the last field. */
  lemma LastField(s: string, p: nat, f: string)
    requires p <= |s| && s[p..] == f && NoSpace(f)
    ensures SplitFrom(s, p) == [f]
  {
    assert forall m :: p <= m < |s| ==> s[m] == f[m - p];
    assert NextSpace(s, p) == |s|;
  }

  /**
   * Where a field, a whitespace run and a text not starting with whitespace
   * follow position `p`, the field ends at the first whitespace and the next
   * field starts right after the run.
   */
  lemma SeparatorAt(s: string, p: nat, f: string, sep: string, tail: string) returns (j: nat)
    requires p <= |s| && s[p..] == f + sep + tail
    requires NoSpace(f) && sep != "" && AllSpace(sep) && (tail == "" || !IsSpace(tail[0]))
    ensures j == p + |f| + |sep| <= |s| && s[j..] == tail && s[p..p + |f|] == f
    ensures p + |f| < |s| && NextSpace(s, p) == p + |f| && SkipSpace(s, p + |f| + 1) == j
  {
    j := p + |f| + |sep|;
    assert forall m :: 0 <= m < |f| ==> s[p + m] == f[m];
    assert forall m :: 0 <= m < |sep| ==> s[p + |f| + m] == sep[m];
    assert s[p + |f|] == sep[0];
    assert s[j..] == tail;
    assert j < |s| ==> s[j] == tail[0];
    assert s[p..p + |f|] == f;
  }

  /** One step of the split, with the positions of the next whitespace run given. */
  lemma SplitFromStep(s: string, from: nat, i: nat, j: nat)
    requires from <= i < |s| && NextSpace(s, from) == i && SkipSpace(s, i + 1) == j
    ensures SplitFrom(s, from) == [s[from..i]] + SplitFrom(s, j)
  {
  }

  /**
   * The last field is empty exactly when the string is empty or ends in
   * whitespace; in that case there is a field before it whenever the string is
   * not empty.
   */
  lemma SplitWsLastField(s: string)
    ensures var fields := SplitWs(s);
      && (fields[|fields| - 1] == "" <==> (s == [] || IsSpace(s[|s| - 1])))
      && (s != [] && IsSpace(s[|s| - 1]) ==> |fields| >= 2)
  {
    SplitFromLastField(s, 0);
  }

  lemma {:induction false} SplitFromLastField(s: string, from: nat)
    requires from <= |s|
    ensures var fields := SplitFrom(s, from);
      && (fields[|fields| - 1] == "" <==> (from == |s| || IsSpace(s[|s| - 1])))
      && (from < |s| && IsSpace(s[|s| - 1]) ==> |fields| >= 2)
    decreases |s| - from
  {
    var i := NextSpace(s, from);
    if i == |s| {
      assert from < |s| ==> !IsSpace(s[|s| - 1]) && |s[from..]| > 0;
    } else {
      var j := SkipSpace(s, i + 1);
      SplitFromLastField(s, j);
      assert j == |s| ==> IsSpace(s[|s| - 1]);
    }
  }

  // ---------------------------------------------------------------------------
  // `int(field)` on a whitespace-free field
  // ---------------------------------------------------------------------------

  predicate IsDigit(c: char) {
    '0' <= c <= '9'
  }

  predicate AllDigits(s: string) {
    forall i :: 0 <= i < |s| ==> IsDigit(s[i])
  }

  /** The value of a string of decimal digits, most significant first. */
  function DigitsValue(s: string): nat
    requires AllDigits(s)
  {
    if s == [] then 0 else DigitsValue(s[..|s| - 1]) * 10 + (s[|s| - 1] as int - '0' as int)
  }

  /** What Python 2's `int()` accepts in a whitespace-free field: an optional sign, then one or more ASCII digits. */
  predicate IntLiteral(s: string) {
    || (|s| > 0 && AllDigits(s))
    || (|s| > 1 && (s[0] == '+' || s[0] == '-') && AllDigits(s[1..]))
  }

  /**
   * Python 2's `int(s)` for a field without whitespace: an optional sign and at
   * least one decimal digit; anything else raises ValueError (None here).
   */
  function ParseInt(s: string): (r: Option<int>)
    ensures r.Some? <==> IntLiteral(s)
  {
    if |s| > 0 && (s[0] == '+' || s[0] == '-') then
      if |s| > 1 && AllDigits(s[1..]) then
        var v: int := DigitsValue(s[1..]);
        Some(if s[0] == '-' then -v else v)
      else None
    else if |s| > 0 && AllDigits(s) then Some(DigitsValue(s))
    else None
  }

  /** The shortest decimal digits of `n`. */
  function Decimal(n: nat): (d: string)
    ensures |d| >= 1 && AllDigits(d)
  {
    var c := ['0' + (n % 10) as char];
    if n < 10 then c else Decimal(n / 10) + c
  }

  /** How `str(n)` writes an integer. */
  function ShowInt(n: int): string {
    if n < 0 then "-" + Decimal(-n) else Decimal(n)
  }

  lemma {:induction false} DigitsValueDecimal(n: nat)
    ensures DigitsValue(Decimal(n)) == n
  {
    var d := Decimal(n);
    if n >= 10 {
      DigitsValueDecimal(n / 10);
      assert d[..|d| - 1] == Decimal(n / 10);
    }
  }

  /** Reading back what `str` wrote gives the same integer. */
  lemma ParseShowInt(n: int)
    ensures ParseInt(ShowInt(n)) == Some(n)
  {
    if n < 0 {
      DigitsValueDecimal(-n);
      assert ShowInt(n)[1..] == Decimal(-n);
    } else {
      DigitsValueDecimal(n);
    }
  }

  /** `k` zero digits. */
  function Zeros(k: nat): (z: string)
    ensures |z| == k && AllDigits(z)
  {
    if k == 0 then "" else Zeros(k - 1) + "0"
  }

  /** Leading zeros do not change the value of a digit string. */
  lemma {:induction false} DigitsValueZeros(k: nat, d: string)
    requires AllDigits(d)
    ensures DigitsValue(Zeros(k) + d) == DigitsValue(d)
    decreases |d|, k
  {
    var z := Zeros(k);
    if d != [] {
      assert (z + d)[..|z + d| - 1] == z + d[..|d| - 1];
      DigitsValueZeros(k, d[..|d| - 1]);
    } else if k > 0 {
      assert z + d == Zeros(k - 1) + "0";
      assert (Zeros(k - 1) + "0")[..k - 1] == Zeros(k - 1) + [];
      DigitsValueZeros(k - 1, []);
    } else {
      assert z + d == [];
    }
  }

  /**
   * Every form `int()` reads, not only the one `str` writes: an optional `+`
   * or `-`, any number of leading zeros, then the decimal digits of `n`.
   */
  lemma ParseIntForms(sign: string, k: nat, n: nat)
    requires sign == "" || sign == "+" || sign == "-"
    ensures ParseInt(sign + Zeros(k) + Decimal(n)) == Some(if sign == "-" then -(n as int) else n)
  {
    DigitsValueZeros(k, Decimal(n));
    DigitsValueDecimal(n);
    SignThenDigits(sign, Zeros(k), Decimal(n));
  }

  lemma SignThenDigits(sign: string, z: string, d: string)
    requires sign == "" || sign == "+" || sign == "-"
    requires d != [] && AllDigits(z) && AllDigits(d)
    ensures ParseInt(sign + z + d) == Some(if sign == "-" then -(DigitsValue(z + d) as int) else DigitsValue(z + d))
  {
    if sign == "" {
      assert sign + z + d == z + d;
      UnsignedDigits(z + d);
    } else {
      assert sign + z + d == [sign[0]] + (z + d);
      SignedDigits(sign[0], z + d);
    }
  }

  lemma UnsignedDigits(digits: string)
    requires digits != [] && AllDigits(digits)
    ensures ParseInt(digits) == Some(DigitsValue(digits))
  {
    assert IsDigit(digits[0]);
  }

  lemma SignedDigits(sign: char, digits: string)
    requires sign == '+' || sign == '-'
    requires digits != [] && AllDigits(digits)
    ensures ParseInt([sign] + digits) == Some(if sign == '-' then -(DigitsValue(digits) as int) else DigitsValue(digits))
  {
    assert ([sign] + digits)[1..] == digits;
  }
}
