/** The Python string built-ins the loader relies on, on `string` (a sequence of Unicode scalar values). */
module PyText {
  import opened Base

  /** The characters for which Python's `str.isspace()` holds; `rstrip()`, `strip()` and `int()` trim these. */
  predicate IsSpace(c: char) {
    || c == ' ' || ('\t' <= c <= '\r') || ('\U{1c}' <= c <= '\U{1f}')
    || c == '\U{85}' || c == '\U{a0}' || c == '\U{1680}' || ('\U{2000}' <= c <= '\U{200a}')
    || c == '\U{2028}' || c == '\U{2029}' || c == '\U{202f}' || c == '\U{205f}' || c == '\U{3000}'
  }

  /** `s.rstrip()`: the longest prefix of `s` that does not end in whitespace. */
  function RStrip(s: string): (r: string)
    ensures |r| <= |s| && r == s[..|r|]
    ensures forall i :: |r| <= i < |s| ==> IsSpace(s[i])
    ensures r == [] || !IsSpace(r[|r| - 1])
    decreases |s|
  {
    if |s| > 0 && IsSpace(s[|s| - 1]) then RStrip(s[..|s| - 1]) else s
  }

  /** `s.lstrip()`: the longest suffix of `s` that does not start with whitespace. */
  function LStrip(s: string): (r: string)
    ensures |r| <= |s| && r == s[|s| - |r|..]
    ensures forall i :: 0 <= i < |s| - |r| ==> IsSpace(s[i])
    ensures r == [] || !IsSpace(r[0])
    decreases |s|
  {
    if |s| > 0 && IsSpace(s[0]) then LStrip(s[1..]) else s
  }

  function Strip(s: string): string {
    LStrip(RStrip(s))
  }

  predicate IsDigit(c: char) {
    '0' <= c <= '9'
  }

  /** Python's decimal literal body: digits, with single underscores between two digits. */
  predicate IsDigitRun(b: string) {
    && |b| > 0 && IsDigit(b[0]) && IsDigit(b[|b| - 1])
    && (forall i :: 0 <= i < |b| ==> IsDigit(b[i]) || b[i] == '_')
    && (forall i :: 0 <= i < |b| - 1 && b[i] == '_' ==> IsDigit(b[i + 1]))
  }

  function DigitValue(c: char): nat
    requires IsDigit(c)
  {
    (c as int) - ('0' as int)
  }

  /** The number the digits of `b` spell, underscores skipped. */
  function DigitsValue(b: string): nat
    decreases |b|
  {
    if b == [] then 0
    else if IsDigit(b[|b| - 1]) then 10 * DigitsValue(b[..|b| - 1]) + DigitValue(b[|b| - 1])
    else DigitsValue(b[..|b| - 1])
  }

  /** What `int()` accepts once the whitespace is stripped: an optional sign and a digit run. */
  predicate IsIntLiteral(t: string) {
    IsDigitRun(t) || (|t| > 0 && (t[0] == '+' || t[0] == '-') && IsDigitRun(t[1..]))
  }

  function LiteralValue(t: string): int
    requires IsIntLiteral(t)
  {
    if IsDigitRun(t) then DigitsValue(t)
    else if t[0] == '-' then -(DigitsValue(t[1..]) as int)
    else DigitsValue(t[1..])
  }

  /** `int(s)` in base 10; None where Python raises ValueError. */
  function ParseInt(s: string): Option<int> {
    var t := Strip(s);
    if IsIntLiteral(t) then Some(LiteralValue(t)) else None
  }

  function DigitChar(d: nat): (c: char)
    requires d < 10
    ensures IsDigit(c) && DigitValue(c) == d
  {
    ('0' as int + d) as char
  }

  /** `str(n)` for a natural number. */
  function NatToString(n: nat): (r: string)
    ensures |r| > 0 && forall i :: 0 <= i < |r| ==> IsDigit(r[i])
    decreases n
  {
    if n < 10 then [DigitChar(n)] else NatToString(n / 10) + [DigitChar(n % 10)]
  }

  /** `str(n)` for an integer. */
  function IntToString(n: int): string {
    if n < 0 then "-" + NatToString(-n) else NatToString(n)
  }

  lemma {:induction false} DigitsValueOfNatToString(n: nat)
    ensures DigitsValue(NatToString(n)) == n
    decreases n
  {
    var r := NatToString(n);
    if n >= 10 {
      DigitsValueOfNatToString(n / 10);
      assert r[..|r| - 1] == NatToString(n / 10);
    }
  }

  lemma StripOfNoSpace(s: string)
    requires s == [] || (!IsSpace(s[0]) && !IsSpace(s[|s| - 1]))
    ensures Strip(s) == s
  {
    assert RStrip(s) == s;
  }

  /** `str(n)` neither starts nor ends with whitespace. */
  lemma IntToStringEdges(n: int)
    ensures var s := IntToString(n); |s| > 0 && !IsSpace(s[0]) && !IsSpace(s[|s| - 1])
  {
    var m: nat := if n < 0 then -n else n;
    var d := NatToString(m);
    var s := IntToString(n);
    assert s[|s| - 1] == d[|d| - 1];
  }

  /** `int(str(n)) == n`: parsing undoes printing. */
  lemma ParseIntOfIntToString(n: int)
    ensures ParseInt(IntToString(n)) == Some(n)
  {
    var m: nat := if n < 0 then -n else n;
    var d := NatToString(m);
    DigitsValueOfNatToString(m);
    assert IsDigitRun(d) by {
      assert IsDigit(d[0]) && IsDigit(d[|d| - 1]);
    }
    var s := IntToString(n);
    assert s[|s| - 1] == d[|d| - 1];
    assert !IsSpace(s[0]) && !IsSpace(s[|s| - 1]);
    StripOfNoSpace(s);
    if n < 0 {
      assert s[0] == '-' && s[1..] == d;
      assert !IsDigitRun(s);
    } else {
      assert s == d;
    }
    assert IsIntLiteral(s) && LiteralValue(s) == n;
  }

  function Spaces(k: nat): (r: string)
    ensures |r| == k && forall i :: 0 <= i < k ==> r[i] == ' '
  {
    seq(k, _ => ' ')
  }

  /** `lstrip()` removes exactly the padding in front of a text that does not start with whitespace. */
  lemma {:induction false} LStripPadding(k: nat, t: string)
    requires t == [] || !IsSpace(t[0])
    ensures LStrip(Spaces(k) + t) == t
    decreases k
  {
    var s := Spaces(k) + t;
    if k == 0 {
      assert s == t;
    } else {
      assert s[0] == ' ' && s[1..] == Spaces(k - 1) + t;
      LStripPadding(k - 1, t);
    }
  }

  /** `rstrip()` removes exactly the padding behind a text that does not end in whitespace. */
  lemma {:induction false} RStripPadding(t: string, k: nat)
    requires t == [] || !IsSpace(t[|t| - 1])
    ensures RStrip(t + Spaces(k)) == t
    decreases k
  {
    if k > 0 {
      assert (t + Spaces(k))[..|t| + k - 1] == t + Spaces(k - 1);
      RStripPadding(t, k - 1);
    }
  }

  /** `int()` reads a number padded with spaces on either side, as fixed-width fields hold them. */
  lemma ParseIntOfPadded(k: nat, n: int, j: nat)
    ensures ParseInt(Spaces(k) + IntToString(n) + Spaces(j)) == Some(n)
  {
    var t := IntToString(n);
    IntToStringEdges(n);
    var u := Spaces(k) + t;
    assert u[|u| - 1] == t[|t| - 1];
    RStripPadding(u, j);
    LStripPadding(k, t);
    StripOfNoSpace(t);
    ParseIntOfIntToString(n);
  }

  /** The characters a text `int()` accepts can be made of. */
  predicate IntChar(c: char) {
    IsSpace(c) || IsDigit(c) || c == '+' || c == '-' || c == '_'
  }

  /** A text `int()` accepts holds only whitespace, signs, digits and underscores, and at least one digit. */
  lemma ParseIntAlphabet(s: string)
    requires ParseInt(s).Some?
    ensures forall i :: 0 <= i < |s| ==> IntChar(s[i])
    ensures exists i :: 0 <= i < |s| && IsDigit(s[i])
  {
    var r, t := RStrip(s), Strip(s);
    LiteralAlphabet(t);
    StripSlice(s);
    SliceChars(s, |r| - |t|, |r|);
  }

  /** Text made of whitespace around a slice of accepted characters with a digit among them is made of
      accepted characters and holds a digit. */
  lemma SliceChars(s: string, a: nat, b: nat)
    requires a <= b <= |s| && forall j :: 0 <= j < b - a ==> IntChar(s[a..b][j])
    requires exists j :: 0 <= j < b - a && IsDigit(s[a..b][j])
    requires forall i :: 0 <= i < |s| && !(a <= i < b) ==> IsSpace(s[i])
    ensures forall i :: 0 <= i < |s| ==> IntChar(s[i])
    ensures exists i :: 0 <= i < |s| && IsDigit(s[i])
  {
    forall i | 0 <= i < |s| ensures IntChar(s[i]) {
      if a <= i < b {
        assert s[i] == s[a..b][i - a];
      }
    }
    var j :| 0 <= j < b - a && IsDigit(s[a..b][j]);
    assert s[a..b][j] == s[a + j];
  }

  /** `strip()` keeps one slice of the text in place and removes only whitespace around it. */
  lemma StripSlice(s: string)
    ensures var r, t := RStrip(s), Strip(s);
      && |t| <= |r| <= |s| && t == s[|r| - |t|..|r|]
      && forall i :: 0 <= i < |s| && !(|r| - |t| <= i < |r|) ==> IsSpace(s[i])
  {
    var r := RStrip(s);
    var t := LStrip(r);
    var a := |r| - |t|;
    assert t == r[a..] && r == s[..|r|];
    assert r[a..] == s[a..|r|];
    forall i | 0 <= i < a ensures IsSpace(s[i]) {
      assert s[i] == r[i];
    }
  }

  lemma LiteralAlphabet(t: string)
    requires IsIntLiteral(t)
    ensures forall j :: 0 <= j < |t| ==> IntChar(t[j])
    ensures exists j :: 0 <= j < |t| && IsDigit(t[j])
  {
    if IsDigitRun(t) {
      assert IsDigit(t[0]);
    } else {
      var b := t[1..];
      assert IsDigitRun(b);
      forall j | 1 <= j < |t| ensures IntChar(t[j]) {
        assert t[j] == b[j - 1];
      }
      assert t[1] == b[0];
    }
  }

  /** `line[i:j]`: Python slicing with its clamping and negative-index rules. */
  function ClampIndex(i: int, n: nat): (k: nat)
    ensures k <= n
    ensures 0 <= i ==> k == if i < n then i else n
  {
    if i < 0 then (if i + n < 0 then 0 else i + n) else if i > n then n else i
  }

  function Min(a: int, b: int): int {
    if a < b then a else b
  }

  function PySlice(s: string, i: int, j: int): (r: string)
    ensures |r| <= |s|
    ensures 0 <= i <= j ==> r == s[Min(i, |s|)..Min(j, |s|)]
  {
    var lo, hi := ClampIndex(i, |s|), ClampIndex(j, |s|);
    if lo < hi then s[lo..hi] else []
  }

  /** The index of the last `c` in `s`, or -1. */
  function LastIndex(s: string, c: char): (i: int)
    ensures -1 <= i < |s|
    ensures i >= 0 ==> s[i] == c
    ensures forall j :: i < j < |s| ==> s[j] != c
    decreases |s|
  {
    if |s| == 0 then -1 else if s[|s| - 1] == c then |s| - 1 else LastIndex(s[..|s| - 1], c)
  }

  /** `s.rsplit(c, 1)` unpacked into two names: None where it yields one part. */
  function RSplitOnce(s: string, c: char): (r: Option<(string, string)>)
    ensures r.None? <==> c !in s
    ensures r.Some? ==> r.value.0 + [c] + r.value.1 == s && c !in r.value.1
  {
    var i := LastIndex(s, c);
    if i < 0 then None
    else
      assert s[..i] + [c] + s[i + 1..] == s;
      Some((s[..i], s[i + 1..]))
  }

  /** The split is the only one whose right part has no `c`. */
  lemma {:induction false} RSplitOnceUnique(key: string, c: char, rest: string)
    requires c !in rest
    ensures RSplitOnce(key + [c] + rest, c) == Some((key, rest))
  {
    var s := key + [c] + rest;
    var i := LastIndex(s, c);
    assert s[|key|] == c;
    assert forall j :: |key| < j < |s| ==> s[j] == rest[j - |key| - 1];
    assert i == |key|;
    assert s[..i] == key && s[i + 1..] == rest;
  }

  predicate EndsWith(s: string, suffix: string) {
    |suffix| <= |s| && s[|s| - |suffix|..] == suffix
  }

  function Join(parts: seq<string>, sep: char): string
    requires |parts| > 0
    decreases |parts|
  {
    if |parts| == 1 then parts[0] else Join(parts[..|parts| - 1], sep) + [sep] + parts[|parts| - 1]
  }

  /** `s.split(sep)`: the pieces between separators. */
  function Split(s: string, sep: char): seq<string>
    decreases |s|
  {
    var i := LastIndex(s, sep);
    if i < 0 then [s] else Split(s[..i], sep) + [s[i + 1..]]
  }

  /** There is at least one piece, and no piece holds the separator. */
  lemma {:induction false} SplitPieces(s: string, sep: char)
    ensures |Split(s, sep)| > 0
    ensures forall k :: 0 <= k < |Split(s, sep)| ==> sep !in Split(s, sep)[k]
    decreases |s|
  {
    var i := LastIndex(s, sep);
    if i >= 0 {
      var init, last := Split(s[..i], sep), s[i + 1..];
      SplitPieces(s[..i], sep);
      assert sep !in last by {
        forall j | 0 <= j < |last| ensures last[j] != sep {
          assert last[j] == s[i + 1 + j];
        }
      }
      var parts := init + [last];
      assert forall k :: 0 <= k < |init| ==> parts[k] == init[k];
    } else {
      assert sep !in s;
    }
  }

  /** The pieces joined with the separator give `s` back. */
  lemma {:induction false} SplitJoin(s: string, sep: char)
    ensures |Split(s, sep)| > 0 && Join(Split(s, sep), sep) == s
    decreases |s|
  {
    var i := LastIndex(s, sep);
    if i >= 0 {
      var init, last := Split(s[..i], sep), s[i + 1..];
      SplitJoin(s[..i], sep);
      var parts := init + [last];
      assert parts[..|parts| - 1] == init && parts[|parts| - 1] == last;
      assert Join(parts, sep) == s[..i] + [sep] + last;
      assert s[..i] + [sep] + s[i + 1..] == s;
    }
  }

  /** `split` undoes `join` when no piece holds the separator. */
  lemma {:induction false} SplitOfJoin(parts: seq<string>, sep: char)
    requires |parts| > 0 && forall k :: 0 <= k < |parts| ==> sep !in parts[k]
    ensures Split(Join(parts, sep), sep) == parts
    decreases |parts|
  {
    if |parts| > 1 {
      var init := parts[..|parts| - 1];
      var last := parts[|parts| - 1];
      SplitOfJoin(init, sep);
      var s := Join(parts, sep);
      var j := Join(init, sep);
      assert s == j + [sep] + last;
      RSplitOnceUnique(j, sep, last);
      assert LastIndex(s, sep) == |j| && s[..|j|] == j && s[|j| + 1..] == last;
      assert Split(s, sep) == Split(j, sep) + [last];
      assert parts == init + [last];
    } else {
      assert LastIndex(parts[0], sep) < 0;
    }
  }

  /** The field with the spaces after a delimiter dropped (the csv module's `skipinitialspace`). */
  function SkipInitialSpaces(s: string): (r: string)
    ensures |r| <= |s| && r == s[|s| - |r|..]
    ensures forall i :: 0 <= i < |s| - |r| ==> s[i] == ' '
    ensures r == [] || r[0] != ' '
    decreases |s|
  {
    if |s| > 0 && s[0] == ' ' then SkipInitialSpaces(s[1..]) else s
  }

  /** Python's `<=` on strings: code-point lexicographic order. */
  predicate LexLeq(a: string, b: string)
    decreases |a|
  {
    |a| == 0 || (|b| > 0 && (a[0] < b[0] || (a[0] == b[0] && LexLeq(a[1..], b[1..]))))
  }

  lemma {:induction false} LexLeqTotal(a: string, b: string)
    ensures LexLeq(a, b) || LexLeq(b, a)
    decreases |a|
  {
    if |a| > 0 && |b| > 0 && a[0] == b[0] {
      LexLeqTotal(a[1..], b[1..]);
    }
  }

  lemma {:induction false} LexLeqAntisymmetric(a: string, b: string)
    requires LexLeq(a, b) && LexLeq(b, a)
    ensures a == b
    decreases |a|
  {
    if |a| > 0 {
      LexLeqAntisymmetric(a[1..], b[1..]);
      assert a == [a[0]] + a[1..] && b == [b[0]] + b[1..];
    }
  }

  lemma {:induction false} LexLeqTransitive(a: string, b: string, c: string)
    requires LexLeq(a, b) && LexLeq(b, c)
    ensures LexLeq(a, c)
    decreases |a|
  {
    if |a| > 0 && a[0] == b[0] && b[0] == c[0] {
      LexLeqTransitive(a[1..], b[1..], c[1..]);
    }
  }
}
