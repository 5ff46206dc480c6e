/**
 * The six-line file banner that both header checks compare the top of a file
 * against, for a comment style given by its start, middle and end delimiters:
 *
 *   <start>
 *   <mid> EPITECH PROJECT, <four digits>
 *   <mid><free text, no trailing white space>
 *   <mid> File description:
 *   <mid><free text, no trailing white space>
 *   <end>
 */
module Banner {
  import opened PyStr

  datatype Delimiters = Delimiters(start: string, mid: string, end: string)

  /** The C style, used for `.c` and `.h` files. */
  const CStyle := Delimiters("/*", "**", "*/")

  /** The Makefile style. */
  const MakefileStyle := Delimiters("##", "##", "##")

  /** `re.match("^" + escaped mid + " EPITECH PROJECT, \d\d\d\d$", line)`: the
      middle delimiter, the fixed words and four digits, then the end of the line
      (Python's `$` also accepts a final newline). */
  predicate ProjectLineOk(line: string, mid: string) {
    var words := mid + " EPITECH PROJECT, ";
    (|line| == |words| + 4 || (|line| == |words| + 5 && line[|line| - 1] == '\n'))
    && line[..|words|] == words
    && forall i :: |words| <= i < |words| + 4 ==> IsDigit(line[i])
  }

  /** A free-text banner line: it starts with the middle delimiter and
      `len(line.rstrip()) == len(line)`. */
  predicate FreeLineOk(line: string, mid: string) {
    |RStrip(line)| == |line| && StartsWith(line, mid)
  }

  /** The test for banner position `pos` (1-based) of a file with at least six lines. */
  predicate PositionOk(lines: seq<string>, d: Delimiters, pos: nat)
    requires 1 <= pos <= 6 && |lines| >= 6
  {
    match pos
    case 1 => lines[0] == d.start
    case 2 => ProjectLineOk(lines[1], d.mid)
    case 3 => FreeLineOk(lines[2], d.mid)
    case 4 => lines[3] == d.mid + " File description:"
    case 5 => FreeLineOk(lines[4], d.mid)
    case _ => lines[5] == d.end
  }

  predicate StrictlyIncreasing(xs: seq<nat>) {
    forall i, j :: 0 <= i < j < |xs| ==> xs[i] < xs[j]
  }

  /** The failing positions among `from`..6, in ascending order. */
  function FailuresFrom(lines: seq<string>, d: Delimiters, from: nat): seq<nat>
    requires 1 <= from <= 7 && |lines| >= 6
    decreases 7 - from
  {
    if from == 7 then []
    else (if PositionOk(lines, d, from) then [] else [from]) + FailuresFrom(lines, d, from + 1)
  }

  /** At most one failure per position, each within `from`..6. */
  lemma {:induction false} FailuresFromBounds(lines: seq<string>, d: Delimiters, from: nat)
    requires 1 <= from <= 7 && |lines| >= 6
    ensures |FailuresFrom(lines, d, from)| <= 7 - from
    ensures forall k :: 0 <= k < |FailuresFrom(lines, d, from)| ==> from <= FailuresFrom(lines, d, from)[k] <= 6
    decreases 7 - from
  {
    if from < 7 {
      FailuresFromBounds(lines, d, from + 1);
      assert FailuresFrom(lines, d, from) == Failed(lines, d, from) + FailuresFrom(lines, d, from + 1);
    }
  }

  /** The failures from `from` on are ascending positions within `from`..6. */
  lemma {:induction false} FailuresFromShape(lines: seq<string>, d: Delimiters, from: nat)
    requires 1 <= from <= 7 && |lines| >= 6
    ensures |FailuresFrom(lines, d, from)| <= 7 - from
    ensures forall k :: 0 <= k < |FailuresFrom(lines, d, from)| ==> from <= FailuresFrom(lines, d, from)[k] <= 6
    ensures StrictlyIncreasing(FailuresFrom(lines, d, from))
    decreases 7 - from
  {
    FailuresFromBounds(lines, d, from);
    if from < 7 {
      var head, rest := Failed(lines, d, from), FailuresFrom(lines, d, from + 1);
      FailuresFromShape(lines, d, from + 1);
      assert FailuresFrom(lines, d, from) == head + rest;
      assert forall k :: 0 <= k < |rest| ==> from < rest[k];
    }
  }

  /** Position `p` heads the failures from `p` on exactly when its test fails. */
  lemma FailuresFromHead(lines: seq<string>, d: Delimiters, p: nat)
    requires 1 <= p <= 6 && |lines| >= 6
    ensures p in FailuresFrom(lines, d, p) <==> !PositionOk(lines, d, p)
  {
    var head, rest := Failed(lines, d, p), FailuresFrom(lines, d, p + 1);
    assert FailuresFrom(lines, d, p) == head + rest;
    FailuresFromBounds(lines, d, p + 1);
    assert p !in rest;
  }

  /** A position from `from` on is listed exactly when its test fails. */
  lemma {:induction false} FailuresFromMember(lines: seq<string>, d: Delimiters, from: nat, p: nat)
    requires 1 <= from <= p <= 6 && |lines| >= 6
    ensures p in FailuresFrom(lines, d, from) <==> !PositionOk(lines, d, p)
    decreases 7 - from
  {
    if from < p {
      var head, rest := Failed(lines, d, from), FailuresFrom(lines, d, from + 1);
      FailuresFromMember(lines, d, from + 1, p);
      assert FailuresFrom(lines, d, from) == head + rest;
      assert p !in head;
    } else {
      FailuresFromHead(lines, d, p);
    }
  }

  /** Every position from `from` on is listed exactly when its test fails. */
  lemma FailuresFromMembers(lines: seq<string>, d: Delimiters, from: nat)
    requires 1 <= from <= 7 && |lines| >= 6
    ensures forall p :: from <= p <= 6 ==> (p in FailuresFrom(lines, d, from) <==> !PositionOk(lines, d, p))
  {
    forall p | from <= p <= 6
      ensures p in FailuresFrom(lines, d, from) <==> !PositionOk(lines, d, p)
    {
      FailuresFromMember(lines, d, from, p);
    }
  }

  /** The failing banner positions, ascending. */
  function Failures(lines: seq<string>, d: Delimiters): seq<nat>
    requires |lines| >= 6
  {
    FailuresFrom(lines, d, 1)
  }

  /** The contribution of one position to the failure list. */
  function Failed(lines: seq<string>, d: Delimiters, pos: nat): (r: seq<nat>)
    requires 1 <= pos <= 6 && |lines| >= 6
    ensures r == [] <==> PositionOk(lines, d, pos)
    ensures forall k :: 0 <= k < |r| ==> r[k] == pos
  {
    if PositionOk(lines, d, pos) then [] else [pos]
  }

  /** One position, then the rest, after the positions already listed. */
  lemma FailuresFromStep(listed: seq<nat>, lines: seq<string>, d: Delimiters, from: nat)
    requires 1 <= from <= 6 && |lines| >= 6
    ensures listed + FailuresFrom(lines, d, from) == listed + Failed(lines, d, from) + FailuresFrom(lines, d, from + 1)
  {
  }

  /** The failing positions among 1..`n`, ascending: the list the tests build
      one position at a time. */
  function FailuresUpTo(lines: seq<string>, d: Delimiters, n: nat): seq<nat>
    requires n <= 6 && |lines| >= 6
  {
    if n == 0 then [] else FailuresUpTo(lines, d, n - 1) + Failed(lines, d, n)
  }

  /** The positions up to `n` followed by those after it are all the failures. */
  lemma {:induction false} FailuresSplit(lines: seq<string>, d: Delimiters, n: nat)
    requires n <= 6 && |lines| >= 6
    ensures FailuresUpTo(lines, d, n) + FailuresFrom(lines, d, n + 1) == Failures(lines, d)
  {
    if n > 0 {
      FailuresSplit(lines, d, n - 1);
      FailuresFromStep(FailuresUpTo(lines, d, n - 1), lines, d, n);
    }
  }

  /** Six failures means every position failed. */
  lemma {:induction false} SixFailuresMeansAll(lines: seq<string>, d: Delimiters)
    requires |lines| >= 6 && |Failures(lines, d)| == 6
    ensures forall p :: 1 <= p <= 6 ==> !PositionOk(lines, d, p)
    ensures Failures(lines, d) == [1, 2, 3, 4, 5, 6]
  {
    var r := Failures(lines, d);
    FailuresFromShape(lines, d, 1);
    SixAscendingIsAll(r);
    forall p | 1 <= p <= 6 ensures !PositionOk(lines, d, p) {
      FailuresFromMember(lines, d, 1, p);
      assert p in r;
    }
  }

  /** Six strictly increasing values in 1..6 are 1, 2, ..., 6. */
  lemma SixAscendingIsAll(r: seq<nat>)
    requires |r| == 6
    requires forall i :: 0 <= i < 6 ==> 1 <= r[i] <= 6
    requires StrictlyIncreasing(r)
    ensures r == [1, 2, 3, 4, 5, 6]
  {
    forall k | 0 <= k < 6 ensures r[k] == k + 1 {
      AscendingInRange(r, k);
    }
  }

  /** A strictly increasing sequence of six values in 1..6 is 1, 2, ..., 6. */
  lemma {:induction false} AscendingInRange(r: seq<nat>, k: nat)
    requires |r| == 6 && k < 6
    requires forall i :: 0 <= i < 6 ==> 1 <= r[i] <= 6
    requires StrictlyIncreasing(r)
    ensures r[k] == k + 1
  {
    forall i | 0 <= i < 5 ensures r[i] + 1 <= r[i + 1] { }
    assert r[0] >= 1 && r[1] >= 2 && r[2] >= 3 && r[3] >= 4 && r[4] >= 5 && r[5] >= 6;
    assert r[5] <= 6 && r[4] <= 5 && r[3] <= 4 && r[2] <= 3 && r[1] <= 2 && r[0] <= 1;
  }

  /** A free-text line is accepted with nothing after the delimiter and refused
      with a trailing space: "**" passes, "** " does not. */
  lemma FreeLineTrailingSpace()
    ensures FreeLineOk("**", "**")
    ensures !FreeLineOk("** ", "**")
  {
    assert RStrip("**") == "**";
    assert IsSpace("** "[2]);
    assert |RStrip("** ")| < 3;
  }

  /** The project line of the banner with a year. */
  lemma ExampleProjectLine()
    ensures ProjectLineOk("** EPITECH PROJECT, 2024", "**")
  {
    var line := "** EPITECH PROJECT, 2024";
    var words := "**" + " EPITECH PROJECT, ";
    assert |words| == 20 && |line| == 24;
    assert line[..20] == words;
    assert forall i :: 20 <= i < 24 ==> IsDigit(line[i]);
  }

  /** The positions that hold in both example banners below. */
  lemma ExampleCommonPositions(lines: seq<string>)
    requires |lines| == 6 && lines[0] == "/*" && lines[1] == "** EPITECH PROJECT, 2024"
    requires lines[3] == "** File description:" && lines[4] == "** checker" && lines[5] == "*/"
    ensures PositionOk(lines, CStyle, 1) && PositionOk(lines, CStyle, 2) && PositionOk(lines, CStyle, 4)
    ensures PositionOk(lines, CStyle, 5) && PositionOk(lines, CStyle, 6)
  {
    ExampleProjectLine();
    assert RStrip("** checker") == "** checker";
    assert StartsWith("** checker", "**");
  }

  /** A complete C banner has no failing position. */
  lemma ExampleBannerAccepted()
    ensures Failures(["/*", "** EPITECH PROJECT, 2024", "**", "** File description:", "** checker", "*/"], CStyle) == []
  {
    var good := ["/*", "** EPITECH PROJECT, 2024", "**", "** File description:", "** checker", "*/"];
    ExampleCommonPositions(good);
    FreeLineTrailingSpace();
    assert PositionOk(good, CStyle, 3);
    assert FailuresFrom(good, CStyle, 6) == [];
    assert FailuresFrom(good, CStyle, 5) == [];
    assert FailuresFrom(good, CStyle, 4) == [];
    assert FailuresFrom(good, CStyle, 3) == [];
    assert FailuresFrom(good, CStyle, 2) == [];
  }

  /** The same banner with a trailing space on its third line fails there only. */
  lemma ExampleBannerTrailingSpace()
    ensures Failures(["/*", "** EPITECH PROJECT, 2024", "** ", "** File description:", "** checker", "*/"], CStyle) == [3]
  {
    var bad := ["/*", "** EPITECH PROJECT, 2024", "** ", "** File description:", "** checker", "*/"];
    ExampleCommonPositions(bad);
    FreeLineTrailingSpace();
    assert !PositionOk(bad, CStyle, 3);
    assert FailuresFrom(bad, CStyle, 6) == [];
    assert FailuresFrom(bad, CStyle, 5) == [];
    assert FailuresFrom(bad, CStyle, 4) == [];
    assert FailuresFrom(bad, CStyle, 3) == [3];
    assert FailuresFrom(bad, CStyle, 2) == [3];
  }
}
