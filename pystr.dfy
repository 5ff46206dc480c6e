/** The optional value used across the model (Python's `None` versus a value). */
module Wrappers {
  datatype Option<+T> = None | Some(value: T)
}

/**
 * The Python `str` operations the checker relies on, written out with
 * CPython's semantics: the `strip` family (over CPython's Unicode white-space
 * set), `startswith`, `find`, slicing with negative bounds, `split` on a
 * one-character separator, `replace` of one character by nothing,
 * `expandtabs`, `", ".join` and `str(int)`.
 */
module PyStr {

  /** `c.isspace()`: the characters CPython treats as white space. */
  predicate IsSpace(c: char) {
    c == ' ' || ('\t' <= c <= '\r') || ('\U{1C}' <= c <= '\U{1F}') || c == '\U{85}' || c == '\U{A0}'
    || c == '\U{1680}' || ('\U{2000}' <= c <= '\U{200A}') || c == '\U{2028}' || c == '\U{2029}'
    || c == '\U{202F}' || c == '\U{205F}' || c == '\U{3000}'
  }

  predicate AllSpace(s: string) {
    forall i :: 0 <= i < |s| ==> IsSpace(s[i])
  }

  /** `s.lstrip()`: drops the leading white space and nothing else. */
  function LStrip(s: string): (r: string)
    ensures |r| <= |s|
  {
    if s != [] && IsSpace(s[0]) then LStrip(s[1..]) else s
  }

  /** What `LStrip` leaves: a suffix of the input that does not start with white
      space, after a run of white space. */
  lemma {:induction false} LStripShape(s: string)
    ensures |LStrip(s)| <= |s| && LStrip(s) == s[|s| - |LStrip(s)|..]
    ensures LStrip(s) == [] || !IsSpace(LStrip(s)[0])
    ensures forall i :: 0 <= i < |s| - |LStrip(s)| ==> IsSpace(s[i])
  {
    if s != [] && IsSpace(s[0]) {
      LStripShape(s[1..]);
    }
  }

  /** `s.rstrip()`: drops the trailing white space and nothing else. */
  function RStrip(s: string): (r: string)
    ensures |r| <= |s|
  {
    if s != [] && IsSpace(s[|s| - 1]) then RStrip(s[..|s| - 1]) else s
  }

  /** What `RStrip` leaves: a prefix of the input that does not end with white
      space, before a run of white space. */
  lemma {:induction false} RStripShape(s: string)
    ensures |RStrip(s)| <= |s| && RStrip(s) == s[..|RStrip(s)|]
    ensures RStrip(s) == [] || !IsSpace(RStrip(s)[|RStrip(s)| - 1])
    ensures forall i :: |RStrip(s)| <= i < |s| ==> IsSpace(s[i])
  {
    if s != [] && IsSpace(s[|s| - 1]) {
      RStripShape(s[..|s| - 1]);
    }
  }

  /** `s.strip()`: white space dropped at both ends. */
  function Strip(s: string): string {
    LStrip(RStrip(s))
  }

  /** What `Strip` leaves: a slice of the input that neither starts nor ends with
      white space, and that is empty exactly when the input is all white space. */
  lemma StripIsTrimmedSlice(s: string)
    ensures var r := Strip(s);
      |r| <= |s| &&
      (r == [] <==> AllSpace(s)) &&
      (r != [] ==> !IsSpace(r[0]) && !IsSpace(r[|r| - 1])) &&
      var a := |RStrip(s)| - |r|; r == s[a..a + |r|]
  {
    var t := RStrip(s);
    var r := LStrip(t);
    RStripShape(s);
    LStripShape(t);
    var a := |t| - |r|;
    assert r == s[a..a + |r|];
    assert r != [] ==> r[|r| - 1] == t[|t| - 1];
    forall i | 0 <= i < |s| && r == [] ensures IsSpace(s[i]) {
      assert i < |t| ==> i < |t| - |r|;
    }
  }

  /** Stripping a string that neither starts nor ends with white space changes
      nothing. */
  lemma StripTrimmed(s: string)
    requires s == [] || (!IsSpace(s[0]) && !IsSpace(s[|s| - 1]))
    ensures Strip(s) == s
  {
    if s != [] {
      assert RStrip(s) == s;
    }
  }

  /** Stripping white space from a string that has none changes nothing. */
  lemma StripNoSpace(s: string)
    requires forall i :: 0 <= i < |s| ==> !IsSpace(s[i])
    ensures Strip(s) == s
  {
    if s != [] {
      StripTrimmed(s);
    }
  }

  /** A leading white-space character goes with the rest of the leading run. */
  lemma StripLeadingSpace(s: string)
    requires |s| > 1 && IsSpace(s[0]) && !IsSpace(s[|s| - 1])
    ensures Strip(s) == Strip(s[1..])
  {
    assert RStrip(s) == s;
    assert RStrip(s[1..]) == s[1..];
  }

  /** `len(s.rstrip()) - len(s.strip())`, the indentation measure of the checker, is
      the number of leading white-space characters of a line that has some other
      character, and 0 for a line made only of white space. */
  lemma {:induction false} RStripMinusStrip(s: string)
    ensures |RStrip(s)| - |Strip(s)| == if AllSpace(s) then 0 else |s| - |LStrip(s)|
  {
    var t := RStrip(s);
    RStripShape(s);
    LStripShape(s);
    LStripShape(t);
    var lead := |s| - |LStrip(s)|;
    var tlead := |t| - |LStrip(t)|;
    if AllSpace(s) {
      RStripAllSpace(s);
    } else {
      var j :| 0 <= j < |s| && !IsSpace(s[j]);
      assert j < |t|;
      assert lead <= j;
      assert lead < |s| && !IsSpace(s[lead]);
      assert lead < |t|;
      assert t[lead] == s[lead];
      assert tlead < |t| ==> t[tlead] == s[tlead];
    }
  }

  lemma {:induction false} RStripAllSpace(s: string)
    requires AllSpace(s)
    ensures RStrip(s) == []
  {
    if s != [] {
      RStripAllSpace(s[..|s| - 1]);
    }
  }

  predicate StartsWith(s: string, prefix: string) {
    |prefix| <= |s| && s[..|prefix|] == prefix
  }

  predicate OccursAt(s: string, pat: string, i: int) {
    0 <= i && i + |pat| <= |s| && s[i..i + |pat|] == pat
  }

  /** `s.find(pat, start)`: the least index from `start` on where `pat` occurs, or -1. */
  function Find(s: string, pat: string, start: nat): (r: int)
    ensures r == -1 || (start <= r && OccursAt(s, pat, r))
    ensures forall i :: start <= i && (r == -1 || i < r) ==> !OccursAt(s, pat, i)
    decreases |s| - start
  {
    if start + |pat| > |s| then -1
    else if s[start..start + |pat|] == pat then start
    else Find(s, pat, start + 1)
  }

  /** A pattern with a character that does not occur in `s` is not found. */
  lemma {:induction false} FindAbsent(s: string, pat: string, k: nat, start: nat)
    requires k < |pat| && pat[k] !in s
    ensures Find(s, pat, start) == -1
    decreases |s| - start
  {
    if start + |pat| <= |s| {
      assert s[start + k] in s;
      assert s[start..start + |pat|][k] == s[start + k];
      FindAbsent(s, pat, k, start + 1);
    }
  }

  /** When the first character of `pat` does not occur between `start` and an
      occurrence at `i`, `find` returns `i`. */
  lemma {:induction false} FindFirst(s: string, pat: string, start: nat, i: nat)
    requires |pat| > 0 && start <= i && OccursAt(s, pat, i)
    requires forall j :: start <= j < i ==> s[j] != pat[0]
    ensures Find(s, pat, start) == i
    decreases i - start
  {
    if start < i {
      assert s[start..start + |pat|][0] == s[start];
      FindFirst(s, pat, start + 1, i);
    }
  }

  /** Python's normalisation of a slice bound: a negative bound counts from the end,
      and both ends are clamped to the string. */
  function SliceBound(i: int, len: nat): (b: nat)
    ensures b <= len
    ensures 0 <= i <= len ==> b == i
    ensures i < 0 && 0 <= len + i ==> b == len + i
  {
    if i < 0 then (if i + len < 0 then 0 else i + len)
    else if i > len then len
    else i
  }

  /** `s[a:b]` with Python's bounds: empty when the normalised bounds cross. */
  function Slice(s: string, a: int, b: int): (r: string)
    ensures |r| <= |s|
    ensures 0 <= a <= b <= |s| ==> r == s[a..b]
  {
    var lo, hi := SliceBound(a, |s|), SliceBound(b, |s|);
    if lo < hi then s[lo..hi] else []
  }

  /** `xs[k]` where Python lets a negative `k` count from the end. */
  function At<T>(xs: seq<T>, k: int): T
    requires -|xs| <= k < |xs|
  {
    if k < 0 then xs[|xs| + k] else xs[k]
  }

  /** `s.split(sep)` for a one-character separator: the pieces between separators. */
  function Split(s: string, sep: char): (parts: seq<string>)
    ensures |parts| >= 1
    decreases |s|
  {
    var i := Find(s, [sep], 0);
    if i == -1 then [s]
    else [s[..i]] + Split(s[i + 1..], sep)
  }

  /** A character's first occurrence: it is not found before it, and not at all
      when `find` gives -1. */
  lemma FindChar(s: string, c: char)
    ensures var i := Find(s, [c], 0);
      (i == -1 ==> c !in s) && (i != -1 ==> i < |s| && s[i] == c && c !in s[..i])
  {
    var i := Find(s, [c], 0);
    var stop := if i == -1 then |s| else i;
    forall k | 0 <= k < stop
      ensures s[k] != c
    {
      assert !OccursAt(s, [c], k);
      assert s[k..k + 1] == [s[k]];
    }
    if i != -1 {
      assert s[i..i + 1] == [c];
    }
  }

  /** No piece of a split holds the separator. */
  lemma {:induction false} SplitPartsLackSeparator(s: string, sep: char)
    ensures forall p <- Split(s, sep) :: sep !in p
    decreases |s|
  {
    var i := Find(s, [sep], 0);
    FindChar(s, sep);
    if i != -1 {
      var later := Split(s[i + 1..], sep);
      SplitPartsLackSeparator(s[i + 1..], sep);
      assert Split(s, sep) == [s[..i]] + later;
      forall p | p in Split(s, sep)
        ensures sep !in p
      {
        if p != s[..i] {
          assert p in later;
        }
      }
    } else {
      assert Split(s, sep) == [s];
    }
  }

  /** `sep.join(parts)`. */
  function Join(parts: seq<string>, sep: string): string {
    if |parts| == 0 then ""
    else if |parts| == 1 then parts[0]
    else parts[0] + sep + Join(parts[1..], sep)
  }

  /** Splitting on a character and joining with the same character gives the input
      back: `split` loses nothing. */
  lemma {:induction false} JoinSplit(s: string, sep: char)
    ensures Join(Split(s, sep), [sep]) == s
    decreases |s|
  {
    var i := Find(s, [sep], 0);
    if i != -1 {
      var rest := s[i + 1..];
      var parts, later := Split(s, sep), Split(rest, sep);
      assert parts == [s[..i]] + later;
      assert parts[1..] == later && |parts| >= 2;
      assert Join(parts, [sep]) == s[..i] + [sep] + Join(later, [sep]);
      JoinSplit(rest, sep);
      assert s[i..i + 1] == [sep];
      assert s == s[..i] + [sep] + rest;
    }
  }

  function Count(s: string, c: char): nat {
    if s == [] then 0 else (if s[0] == c then 1 else 0) + Count(s[1..], c)
  }

  lemma CountAppend(a: string, b: string, c: char)
    ensures Count(a + b, c) == Count(a, c) + Count(b, c)
  {
    if a != [] {
      assert (a + b)[0] == a[0];
      assert (a + b)[1..] == a[1..] + b;
      CountAppend(a[1..], b, c);
    } else {
      assert a + b == b;
    }
  }

  /** `s.split(sep)` yields one more piece than there are separators. */
  lemma {:induction false} SplitCount(s: string, sep: char)
    ensures |Split(s, sep)| == Count(s, sep) + 1
    decreases |s|
  {
    var i := Find(s, [sep], 0);
    FindChar(s, sep);
    if i == -1 {
      NoOccurrenceCount(s, sep);
    } else {
      SplitCount(s[i + 1..], sep);
      CountAfterFirst(s, sep, i);
    }
  }

  /** Counting from the first occurrence of a character on. */
  lemma CountAfterFirst(s: string, c: char, i: nat)
    requires i < |s| && s[i] == c && c !in s[..i]
    ensures Count(s, c) == 1 + Count(s[i + 1..], c)
  {
    var rest := s[i + 1..];
    assert s == s[..i] + ([c] + rest);
    CountAppend(s[..i], [c] + rest, c);
    CountAppend([c], rest, c);
    NoOccurrenceCount(s[..i], c);
  }

  lemma NoOccurrenceCount(s: string, c: char)
    requires c !in s
    ensures Count(s, c) == 0
  {
    if s != [] {
      assert s[0] != c;
      NoOccurrenceCount(s[1..], c);
    }
  }

  /** `s.replace(c, "")` for one character `c`. */
  function RemoveAll(s: string, c: char): (r: string)
    ensures c !in r
    ensures |r| == |s| - Count(s, c)
    ensures forall x :: x in r ==> x in s
  {
    if s == [] then [] else (if s[0] == c then [] else [s[0]]) + RemoveAll(s[1..], c)
  }

  /** Removing a character that does not occur changes nothing. */
  lemma {:induction false} RemoveAbsent(s: string, c: char)
    requires c !in s
    ensures RemoveAll(s, c) == s
  {
    if s != [] {
      RemoveAbsent(s[1..], c);
    }
  }

  function Spaces(n: nat): (r: string)
    ensures |r| == n && forall i :: 0 <= i < n ==> r[i] == ' '
  {
    if n == 0 then [] else [' '] + Spaces(n - 1)
  }

  /** The output `expandtabs(tabsize)` writes for one character at column `col`:
      a tab becomes the spaces that reach the next multiple of `tabsize` (it
      disappears when `tabsize` is 0), any other character is copied. */
  function ExpandChar(c: char, tabsize: nat, col: nat): (r: string)
    ensures '\t' !in r
    ensures c != '\t' ==> r == [c]
  {
    if c == '\t' then Spaces(if tabsize > 0 then tabsize - col % tabsize else 0) else [c]
  }

  /** The column after writing `c` at column `col`: it restarts after '\n' and '\r'. */
  function NextColumn(c: char, tabsize: nat, col: nat): (next: nat)
    ensures c != '\n' && c != '\r' ==> next == col + |ExpandChar(c, tabsize, col)|
  {
    if c == '\n' || c == '\r' then 0 else col + |ExpandChar(c, tabsize, col)|
  }

  /** `expandtabs(tabsize)` continuing at output column `col`. */
  function ExpandTabsFrom(s: string, tabsize: nat, col: nat): (r: string)
    ensures '\t' !in r
    decreases |s|
  {
    if s == [] then []
    else ExpandChar(s[0], tabsize, col) + ExpandTabsFrom(s[1..], tabsize, NextColumn(s[0], tabsize, col))
  }

  function ExpandTabs(s: string, tabsize: nat): string {
    ExpandTabsFrom(s, tabsize, 0)
  }

  /** With a tab size of 1 every tab becomes exactly one space and nothing else
      changes. */
  lemma {:induction false} ExpandTabsOne(s: string, col: nat)
    ensures var r := ExpandTabsFrom(s, 1, col);
      |r| == |s| && forall i :: 0 <= i < |s| ==> r[i] == if s[i] == '\t' then ' ' else s[i]
    decreases |s|
  {
    if s != [] {
      ExpandTabsOne(s[1..], NextColumn(s[0], 1, col));
      assert |ExpandChar(s[0], 1, col)| == 1;
    }
  }

  /** Tab expansion of a string without line breaks can be done piecewise: the
      second piece continues at the column where the first one ended. */
  lemma {:induction false} ExpandTabsAppend(s: string, t: string, tabsize: nat, col: nat)
    requires '\n' !in s && '\r' !in s
    ensures ExpandTabsFrom(s + t, tabsize, col)
         == ExpandTabsFrom(s, tabsize, col) + ExpandTabsFrom(t, tabsize, col + |ExpandTabsFrom(s, tabsize, col)|)
    decreases |s|
  {
    if s != [] {
      assert (s + t)[0] == s[0];
      assert (s + t)[1..] == s[1..] + t;
      var piece := ExpandChar(s[0], tabsize, col);
      var next := NextColumn(s[0], tabsize, col);
      ExpandTabsAppend(s[1..], t, tabsize, next);
      assert ExpandTabsFrom(s, tabsize, col) == piece + ExpandTabsFrom(s[1..], tabsize, next);
      assert ExpandTabsFrom(s + t, tabsize, col) == piece + ExpandTabsFrom(s[1..] + t, tabsize, next);
    } else {
      assert s + t == t;
    }
  }

  /** With a tab size of 4, a tab appended to a line without line breaks moves
      the output to the next multiple of 4, by one to four spaces. */
  lemma TabReachesNextStop(s: string)
    requires '\n' !in s && '\r' !in s
    ensures var before, after := |ExpandTabs(s, 4)|, |ExpandTabs(s + "\t", 4)|;
      after % 4 == 0 && before < after <= before + 4
  {
    ExpandTabsAppend(s, "\t", 4, 0);
    var e := ExpandTabs(s, 4);
    assert ExpandTabsFrom("\t", 4, |e|) == ExpandChar('\t', 4, |e|) + ExpandTabsFrom([], 4, NextColumn('\t', 4, |e|));
  }

  /** The decimal digit for `d`. */
  function DigitChar(d: nat): char
    requires d < 10
  {
    ('0' as int + d) as char
  }

  predicate IsDigit(c: char) {
    '0' <= c <= '9'
  }

  /** `str(n)` for a natural number. */
  function NatToString(n: nat): (r: string)
    ensures |r| >= 1 && forall i :: 0 <= i < |r| ==> IsDigit(r[i])
  {
    (if n < 10 then [] else NatToString(n / 10)) + [DigitChar(n % 10)]
  }

  /** `str(i)` for any integer. */
  function IntToString(i: int): string {
    if i < 0 then "-" + NatToString(-i) else NatToString(i)
  }

  /** The number a string of decimal digits denotes. */
  function ParseNat(s: string): nat
    requires forall i :: 0 <= i < |s| ==> IsDigit(s[i])
  {
    if s == [] then 0
    else
      assert IsDigit(s[|s| - 1]);
      ParseNat(s[..|s| - 1]) * 10 + (s[|s| - 1] as int - '0' as int)
  }

  /** Reading back the decimal rendering gives the number. */
  lemma {:induction false} ParseNatToString(n: nat)
    ensures ParseNat(NatToString(n)) == n
  {
    var d := n % 10;
    DigitValue(d);
    if n < 10 {
      assert NatToString(n) == [DigitChar(d)];
      assert [DigitChar(d)][..0] == [];
    } else {
      var q := n / 10;
      ParseNatToString(q);
      var r := NatToString(q) + [DigitChar(d)];
      assert NatToString(n) == r;
      assert r[..|r| - 1] == NatToString(q);
      assert ParseNat(r) == q * 10 + d;
    }
  }

  /** The value of a decimal digit character. */
  lemma DigitValue(d: nat)
    requires d < 10
    ensures DigitChar(d) as int - '0' as int == d
  {
  }

  /** Distinct numbers render differently. */
  lemma NatToStringInjective(m: nat, n: nat)
    requires NatToString(m) == NatToString(n)
    ensures m == n
  {
    ParseNatToString(m);
    ParseNatToString(n);
  }
}
