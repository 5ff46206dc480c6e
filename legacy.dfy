/**
 * The legacy shared helpers of the `Moulinette` class, used by the older
 * C handler: separator escaping for the banner's regular expression, the
 * header check that reports all failing banner lines in one message, the
 * column check and the line normaliser (tab stops every 4 columns).
 *
 * These helpers print one line per violation, "[MAJOR] <path>: <text>"; here
 * each returns the lines it prints, in order.
 */
module Legacy {
  import opened PyStr
  import opened Banner
  import Rules
  import Engine
  import Types

  /** `global_norm["indent_space"]`, which the normaliser uses as its tab size. */
  const IndentSpace: nat := 4

  /** `global_norm["max_columns"]`. */
  const MaxColumns: nat := 80

  /** A printed violation line. */
  function Printed(filepath: string, text: string): string {
    "[MAJOR] " + filepath + ": " + text
  }

  // ------------------------------------------------------------ escaping

  /** `e` is `s` with a backslash put before each of its characters. */
  predicate EscapedForm(e: string, s: string) {
    |e| == 2 * |s| && forall k :: 0 <= k < |s| ==> e[2 * k] == '\\' && e[2 * k + 1] == s[k]
  }

  /** `escape_separator`: a backslash before every character. */
  method EscapeSeparator(separator: string) returns (escaped: string)
    ensures EscapedForm(escaped, separator)
  {
    escaped := "";
    for i := 0 to |separator|
      invariant EscapedForm(escaped, separator[..i])
    {
      escaped := escaped + ['\\', separator[i]];
    }
    assert separator[..|separator|] == separator;
  }

  /** Every second character, starting with the second: what an escaped pattern
      stands for literally. */
  function Unescape(e: string): (s: string)
    decreases |e|
  {
    if |e| < 2 then [] else [e[1]] + Unescape(e[2..])
  }

  /** Escaping loses nothing: the escaped text stands for the separator itself. */
  lemma {:induction false} UnescapeEscaped(e: string, s: string)
    requires EscapedForm(e, s)
    ensures Unescape(e) == s
    decreases |s|
  {
    if s != [] {
      assert EscapedForm(e[2..], s[1..]) by {
        forall k | 0 <= k < |s| - 1
          ensures e[2..][2 * k] == '\\' && e[2..][2 * k + 1] == s[1..][k]
        {
          assert e[2 * (k + 1)] == '\\' && e[2 * (k + 1) + 1] == s[k + 1];
        }
      }
      UnescapeEscaped(e[2..], s[1..]);
      assert e[1] == s[0];
    }
  }

  /** The escaped form of a separator is unique. */
  lemma EscapedFormUnique(e1: string, e2: string, s: string)
    requires EscapedForm(e1, s) && EscapedForm(e2, s)
    ensures e1 == e2
  {
    forall i | 0 <= i < |e1|
      ensures e1[i] == e2[i]
    {
      var k := i / 2;
      if i == 2 * k {
        assert e1[2 * k] == '\\' && e2[2 * k] == '\\';
      } else {
        assert i == 2 * k + 1 && e1[2 * k + 1] == s[k] && e2[2 * k + 1] == s[k];
      }
    }
  }

  /** `re.match("^" + escaped + " EPITECH PROJECT, \d\d\d\d$", line)`, where
      each escaped pair of the pattern matches its character literally, as
      Python's `re` reads a backslash before a character that is not a letter
      or digit (the "**" separator its callers pass). */
  predicate ProjectPatternMatches(line: string, escaped: string) {
    ProjectLineOk(line, Unescape(escaped))
  }

  // -------------------------------------------------------------- header

  const MissingHeader: string := "G1, missing header"

  /** `str(p)` for each position. */
  function Numbers(xs: seq<nat>): (r: seq<string>)
    ensures |r| == |xs|
    ensures forall k :: 0 <= k < |xs| ==> r[k] == NatToString(xs[k])
  {
    if xs == [] then [] else Numbers(xs[..|xs| - 1]) + [NatToString(xs[|xs| - 1])]
  }

  /** The six tests of `check_header` on a file of six lines or more, each
      adding its position to the wrong lines when it fails. The positions are
      kept as numbers and written out in decimal when printed. */
  method WrongLines(lines: seq<string>, d: Delimiters) returns (wrong: seq<nat>)
    requires |lines| >= 6
    ensures wrong == Failures(lines, d)
  {
    wrong := [];
    if lines[0] != d.start {
      wrong := wrong + [1];
    }
    assert wrong == FailuresUpTo(lines, d, 1);
    var escaped := EscapeSeparator(d.mid);
    UnescapeEscaped(escaped, d.mid);
    if !ProjectPatternMatches(lines[1], escaped) {
      wrong := wrong + [2];
    }
    assert wrong == FailuresUpTo(lines, d, 2);
    if |RStrip(lines[2])| < |lines[2]| || !StartsWith(lines[2], d.mid) {
      wrong := wrong + [3];
    }
    assert wrong == FailuresUpTo(lines, d, 3);
    if lines[3] != d.mid + " File description:" {
      wrong := wrong + [4];
    }
    assert wrong == FailuresUpTo(lines, d, 4);
    if |RStrip(lines[4])| < |lines[4]| || !StartsWith(lines[4], d.mid) {
      wrong := wrong + [5];
    }
    assert wrong == FailuresUpTo(lines, d, 5);
    if lines[5] != d.end {
      wrong := wrong + [6];
    }
    assert wrong == FailuresUpTo(lines, d, 6);
    AllSixTests(lines, d);
  }

  /** `check_header`: a file shorter than six lines, or one failing at all six
      banner positions, prints "missing header"; one failing at one to five
      positions prints a single "wrong header" line listing them in ascending
      order, joined by ", "; a correct banner prints nothing. */
  method CheckHeader(filepath: string, lines: seq<string>, d: Delimiters) returns (printed: seq<string>)
    ensures |lines| < 6 ==> printed == [Printed(filepath, MissingHeader)]
    ensures |lines| >= 6 && |Failures(lines, d)| == 6 ==> printed == [Printed(filepath, MissingHeader)]
    ensures |lines| >= 6 && 0 < |Failures(lines, d)| < 6 ==>
      printed == [Printed(filepath, "G1, wrong header, lines " + Join(Numbers(Failures(lines, d)), ", "))]
    ensures |lines| >= 6 && Failures(lines, d) == [] ==> printed == []
  {
    if |lines| < 6 {
      return [Printed(filepath, MissingHeader)];
    }
    var wrong := WrongLines(lines, d);
    if |wrong| == 6 {
      printed := [Printed(filepath, MissingHeader)];
    } else if |wrong| > 0 {
      printed := [Printed(filepath, "G1, wrong header, lines " + Join(Numbers(wrong), ", "))];
    } else {
      printed := [];
    }
  }

  /** The six tests in turn find all the failures. */
  lemma AllSixTests(lines: seq<string>, d: Delimiters)
    requires |lines| >= 6
    ensures FailuresUpTo(lines, d, 6) == Failures(lines, d)
  {
    FailuresSplit(lines, d, 6);
    assert FailuresFrom(lines, d, 7) == [];
  }

  /** A single-digit position prints as its digit. */
  lemma SmallNumber(p: nat)
    requires p < 10
    ensures NatToString(p) == [DigitChar(p)]
  {
    assert p % 10 == p;
    assert NatToString(p) == [] + [DigitChar(p % 10)];
  }

  /** `text` lists the one-digit numbers `xs`: each digit in turn, every three
      characters, separated by ", ". */
  predicate Listing(text: string, xs: seq<nat>) {
    |xs| >= 1 && |text| == 3 * |xs| - 2
    && (forall k :: 0 <= k < |xs| ==> xs[k] < 10 && text[3 * k] == DigitChar(xs[k]))
    && (forall k :: 0 <= k < |xs| - 1 ==> text[3 * k + 1] == ',' && text[3 * k + 2] == ' ')
  }

  /** One more digit in front of a listing. */
  lemma ListingCons(xs: seq<nat>, rest: string)
    requires |xs| >= 2 && xs[0] < 10 && Listing(rest, xs[1..])
    ensures Listing([DigitChar(xs[0])] + ", " + rest, xs)
  {
    var text := [DigitChar(xs[0])] + ", " + rest;
    forall k | 0 <= k < |xs|
      ensures xs[k] < 10 && text[3 * k] == DigitChar(xs[k])
    {
      if k > 0 {
        assert xs[k] == xs[1..][k - 1];
        assert text[3 * k] == rest[3 * (k - 1)];
      }
    }
    forall k | 0 <= k < |xs| - 1
      ensures text[3 * k + 1] == ',' && text[3 * k + 2] == ' '
    {
      if k > 0 {
        assert text[3 * k + 1] == rest[3 * (k - 1) + 1];
        assert text[3 * k + 2] == rest[3 * (k - 1) + 2];
      }
    }
  }

  /** Joining the decimal forms of one-digit numbers with ", " lists them. */
  lemma {:induction false} ListingShape(xs: seq<nat>)
    requires |xs| >= 1 && forall k :: 0 <= k < |xs| ==> xs[k] < 10
    ensures Listing(Join(Numbers(xs), ", "), xs)
    decreases |xs|
  {
    var parts := Numbers(xs);
    SmallNumber(xs[0]);
    if |xs| > 1 {
      ListingShape(xs[1..]);
      assert parts[1..] == Numbers(xs[1..]);
      assert Join(parts, ", ") == [DigitChar(xs[0])] + ", " + Join(parts[1..], ", ");
      ListingCons(xs, Join(parts[1..], ", "));
    }
  }

  /** The "wrong header" listing names the failing positions, one digit each,
      separated by ", ", in ascending order: it names position `p` exactly when
      the banner test for `p` fails. */
  lemma WrongHeaderListing(lines: seq<string>, d: Delimiters)
    requires |lines| >= 6 && Failures(lines, d) != []
    ensures Listing(Join(Numbers(Failures(lines, d)), ", "), Failures(lines, d))
    ensures StrictlyIncreasing(Failures(lines, d))
    ensures forall p :: 1 <= p <= 6 ==> (p in Failures(lines, d) <==> !PositionOk(lines, d, p))
  {
    FailuresFromShape(lines, d, 1);
    FailuresFromMembers(lines, d, 1);
    ListingShape(Failures(lines, d));
  }

  /** Lines 3 and 5 failing print "wrong header, lines 3, 5". */
  lemma ExampleListing()
    ensures Join(Numbers([3, 5]), ", ") == "3, 5"
  {
    assert Numbers([3, 5]) == Numbers([3]) + [NatToString(5)];
    assert [3, 5][..1] == [3];
    SmallNumber(3);
    SmallNumber(5);
  }

  // ------------------------------------------------------------- columns

  /** The printed column violation: the width counts the newline, and the line
      number is 1-based. */
  function ColumnReport(filepath: string, width: nat, lineNb: nat): string {
    Printed(filepath, "F3, too long line (" + NatToString(width) + " columns, line " + NatToString(lineNb) + ")")
  }

  /** Printed line `k` reports message `k`'s line number and that line's width
      (the newline included). */
  predicate ReportsFor(printed: seq<string>, ms: seq<Types.NormMessage>, filepath: string, lines: seq<string>) {
    |printed| == |ms|
    && forall k :: 0 <= k < |ms| ==>
      1 <= ms[k].line <= |lines| && printed[k] == ColumnReport(filepath, |lines[ms[k].line - 1]| + 1, ms[k].line)
  }

  /** The lines `check_columns` prints for `lines`, line by line. */
  function ColumnReports(filepath: string, lines: seq<string>): seq<string> {
    if lines == [] then []
    else
      var n := |lines|;
      ColumnReports(filepath, lines[..n - 1])
      + (if |lines[n - 1]| + 1 > MaxColumns then [ColumnReport(filepath, |lines[n - 1]| + 1, n)] else [])
  }

  /** The printed lines correspond one to one, in order, to the messages of the
      current checker's width rule. */
  lemma {:induction false} ColumnReportsMatchRule(filepath: string, lines: seq<string>)
    ensures ReportsFor(ColumnReports(filepath, lines), Rules.RuleMessages(Rules.Columns, filepath, lines), filepath, lines)
    decreases |lines|
  {
    if lines != [] {
      var n := |lines|;
      var init := lines[..n - 1];
      var last := lines[n - 1];
      assert init + [last] == lines;
      var printed, ms := ColumnReports(filepath, init), Rules.RuleMessages(Rules.Columns, filepath, init);
      assert ColumnReports(filepath, lines)
          == printed + (if |last| + 1 > MaxColumns then [ColumnReport(filepath, |last| + 1, n)] else []);
      assert Rules.RuleMessages(Rules.Columns, filepath, lines)
          == ms + (if Rules.Violates(Rules.Columns, last) then [Rules.RuleMessage(Rules.Columns, filepath, n, last)] else []);
      ColumnReportsMatchRule(filepath, init);
      ReportsForExtend(printed, ms, filepath, init, last);
    }
  }

  /** The correspondence survives one more line. */
  lemma ReportsForExtend(printed: seq<string>, ms: seq<Types.NormMessage>, filepath: string, init: seq<string>, line: string)
    requires ReportsFor(printed, ms, filepath, init)
    ensures var lines := init + [line]; var n := |lines|;
      ReportsFor(printed + (if |line| + 1 > MaxColumns then [ColumnReport(filepath, |line| + 1, n)] else []),
                 ms + (if Rules.Violates(Rules.Columns, line) then [Rules.RuleMessage(Rules.Columns, filepath, n, line)] else []),
                 filepath, lines)
  {
    var lines := init + [line];
    forall k | 0 <= k < |ms|
      ensures lines[ms[k].line - 1] == init[ms[k].line - 1]
    {
    }
  }

  /** `check_columns`: one printed line per line wider than the limit, in order,
      with that line's width and number. */
  method CheckColumns(filepath: string, lines: seq<string>) returns (printed: seq<string>)
    ensures printed == ColumnReports(filepath, lines)
  {
    printed := [];
    var lineNb := 1;
    for i := 0 to |lines|
      invariant lineNb == i + 1
      invariant printed == ColumnReports(filepath, lines[..i])
    {
      var lineLen := |lines[i]| + 1;
      assert lines[..i + 1][..i] == lines[..i];
      if lineLen > MaxColumns {
        printed := printed + [ColumnReport(filepath, lineLen, lineNb)];
      }
      lineNb := lineNb + 1;
    }
    assert lines[..|lines|] == lines;
  }

  // --------------------------------------------------------- normalising

  /** One line as `lines_to_list` keeps it: newlines removed, then tabs expanded
      to stops every `IndentSpace` columns. */
  function LegacyLine(raw: string): (line: string)
    ensures '\n' !in line && '\t' !in line
  {
    NoNewlineAfterExpand(RemoveAll(raw, '\n'), IndentSpace, 0);
    ExpandTabs(RemoveAll(raw, '\n'), IndentSpace)
  }

  /** Tab expansion writes no newline into a text without one. */
  lemma {:induction false} NoNewlineAfterExpand(s: string, tabsize: nat, col: nat)
    requires '\n' !in s
    ensures '\n' !in ExpandTabsFrom(s, tabsize, col)
    decreases |s|
  {
    if s != [] {
      assert s[0] != '\n';
      NoNewlineAfterExpand(s[1..], tabsize, NextColumn(s[0], tabsize, col));
    }
  }

  /** The loop of `lines_to_list` over the lines read. */
  method LinesToList(rawLines: seq<string>) returns (lines: seq<string>)
    ensures |lines| == |rawLines|
    ensures forall k :: 0 <= k < |rawLines| ==> lines[k] == LegacyLine(rawLines[k])
  {
    lines := [];
    for i := 0 to |rawLines|
      invariant |lines| == i
      invariant forall k :: 0 <= k < i ==> lines[k] == LegacyLine(rawLines[k])
    {
      lines := lines + [LegacyLine(rawLines[i])];
    }
  }

  /** A text without tabs or line breaks is left as it is by tab expansion. */
  lemma {:induction false} ExpandTabsPlain(s: string, tabsize: nat, col: nat)
    requires '\t' !in s && '\n' !in s && '\r' !in s
    ensures ExpandTabsFrom(s, tabsize, col) == s
    decreases |s|
  {
    if s != [] {
      assert s[0] != '\t';
      ExpandTabsPlain(s[1..], tabsize, NextColumn(s[0], tabsize, col));
      assert s == [s[0]] + s[1..];
    }
  }

  /** A tab in a normalised line becomes the spaces that reach the next multiple
      of 4: what precedes it is kept, and one to four spaces follow. */
  lemma TabPadding(s: string, t: string)
    requires '\n' !in s && '\r' !in s && '\n' !in t
    ensures var pre := ExpandTabs(s, IndentSpace); var line := LegacyLine(s + "\t" + t);
      exists w :: |pre| < w <= |pre| + 4 && w % 4 == 0 && w <= |line|
        && line[..|pre|] == pre && (forall i :: |pre| <= i < w ==> line[i] == ' ')
  {
    var n, rest := TabLine(s, t);
    PaddedLine(ExpandTabs(s, 4), n, rest);
  }

  /** The legacy line of `s`, a tab and `t`: `s` expanded, the tab's spaces, the rest. */
  lemma TabLine(s: string, t: string) returns (n: nat, rest: string)
    requires '\n' !in s && '\r' !in s && '\n' !in t
    ensures 1 <= n <= 4 && (|ExpandTabs(s, 4)| + n) % 4 == 0
    ensures LegacyLine(s + "\t" + t) == ExpandTabs(s, 4) + (Spaces(n) + rest)
  {
    var pre := ExpandTabs(s, 4);
    assert s + "\t" + t == s + ("\t" + t);
    LegacyLineAppend(s, "\t" + t);
    n := TabAt(t, |pre|);
    rest := ExpandTabsFrom(t, 4, |pre| + n);
  }

  /** Expanding `s` then `u` continues after the expansion of `s`. */
  lemma LegacyLineAppend(s: string, u: string)
    requires '\n' !in s && '\r' !in s && '\n' !in u
    ensures LegacyLine(s + u) == ExpandTabs(s, 4) + ExpandTabsFrom(u, 4, |ExpandTabs(s, 4)|)
  {
    ExpandAppendWithoutNewline(s, u, IndentSpace);
  }

  /** The same, for any tab size. */
  lemma ExpandAppendWithoutNewline(s: string, u: string, tabsize: nat)
    requires '\n' !in s && '\r' !in s && '\n' !in u
    ensures ExpandTabs(RemoveAll(s + u, '\n'), tabsize)
         == ExpandTabs(s, tabsize) + ExpandTabsFrom(u, tabsize, |ExpandTabs(s, tabsize)|)
  {
    var w := s + u;
    RemoveAbsent(w, '\n');
    ExpandTabsAppend(s, u, tabsize, 0);
    var e := ExpandTabsFrom(s, tabsize, 0);
    assert ExpandTabs(w, tabsize) == e + ExpandTabsFrom(u, tabsize, 0 + |e|);
  }

  /** A tab written at column `col` becomes the spaces up to the next multiple of 4. */
  lemma TabAt(t: string, col: nat) returns (n: nat)
    ensures 1 <= n <= 4 && (col + n) % 4 == 0
    ensures ExpandTabsFrom("\t" + t, 4, col) == Spaces(n) + ExpandTabsFrom(t, 4, col + n)
  {
    n := 4 - col % 4;
    var u := "\t" + t;
    assert u[0] == '\t' && u[1..] == t;
  }

  /** Text followed by `n` spaces that end on a multiple of 4. */
  lemma PaddedLine(pre: string, n: nat, rest: string)
    requires 1 <= n <= 4 && (|pre| + n) % 4 == 0
    ensures var line := pre + (Spaces(n) + rest);
      exists w :: |pre| < w <= |pre| + 4 && w % 4 == 0 && w <= |line|
        && line[..|pre|] == pre && (forall i :: |pre| <= i < w ==> line[i] == ' ')
  {
    var line := pre + (Spaces(n) + rest);
    var w := |pre| + n;
    assert line[..|pre|] == pre;
    forall i | |pre| <= i < w
      ensures line[i] == ' '
    {
      assert line[i] == Spaces(n)[i - |pre|];
    }
  }

  /** Without tabs, the legacy normaliser and the current one (tab size 1) keep
      the same text. */
  lemma SameWithoutTabs(raw: string)
    requires '\t' !in raw && '\r' !in raw
    ensures LegacyLine(raw) == Engine.NormaliseLine(raw)
  {
    var s := RemoveAll(raw, '\n');
    ExpandTabsPlain(s, IndentSpace, 0);
    ExpandTabsPlain(s, Engine.TabSize, 0);
  }
}
