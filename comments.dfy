/**
 * The comment rule both C checkers share: in a line, only the first
 * occurrence of each of the three comment markers (slash-slash, slash-star,
 * star-slash) is looked at, and it counts as a comment unless some double
 * quote lies before it and some double quote lies after it (then it is taken
 * to be inside a string literal).
 */
module CommentRule {
  import opened PyStr

  /** The markers, in the order they are examined. */
  const Markers: seq<string> := ["//", "/*", "*/"]

  /** `[j for j, s in enumerate(line) if s == '"']`: the positions of the double
      quotes, ascending. */
  function QuotePositions(line: string): (r: seq<nat>)
    ensures forall k :: 0 <= k < |r| ==> r[k] < |line| && line[r[k]] == '"'
    ensures forall j :: 0 <= j < |line| && line[j] == '"' ==> j in r
    decreases |line|
  {
    if line == [] then []
    else QuotePositions(line[..|line| - 1]) + (if line[|line| - 1] == '"' then [|line| - 1] else [])
  }

  predicate QuoteBefore(line: string, pos: int) {
    exists j :: 0 <= j < |line| && j < pos && line[j] == '"'
  }

  predicate QuoteAfter(line: string, pos: int) {
    exists j :: 0 <= j < |line| && pos < j && line[j] == '"'
  }

  /** The marker at `pos` is taken to be string content. */
  predicate QuotedAt(line: string, pos: int) {
    QuoteBefore(line, pos) && QuoteAfter(line, pos)
  }

  /** The first occurrence of `marker` exists and is not string content. */
  predicate Flagged(line: string, marker: string) {
    var p := Find(line, marker, 0);
    p != -1 && !QuotedAt(line, p)
  }

  /** How many of the given markers are flagged in `line`. */
  function FlaggedAmong(line: string, markers: seq<string>): (n: nat)
    ensures n <= |markers|
  {
    if markers == [] then 0
    else FlaggedAmong(line, markers[..|markers| - 1]) + (if Flagged(line, markers[|markers| - 1]) then 1 else 0)
  }

  /** How many comment messages a line draws: at most one per marker, so at most 3. */
  function FlaggedCount(line: string): (n: nat)
    ensures n <= 3
  {
    FlaggedAmong(line, Markers)
  }

  function Indicator(b: bool): nat {
    if b then 1 else 0
  }

  /** The count, marker by marker. */
  lemma FlaggedCountByMarker(line: string)
    ensures FlaggedCount(line)
         == Indicator(Flagged(line, "//")) + Indicator(Flagged(line, "/*")) + Indicator(Flagged(line, "*/"))
  {
    var m2, m1 := Markers[..2], Markers[..2][..1];
    assert m2 == ["//", "/*"] && m1 == ["//"] && m1[..0] == [];
    assert FlaggedAmong(line, m1) == Indicator(Flagged(line, "//"));
    assert FlaggedAmong(line, m2) == FlaggedAmong(line, m1) + Indicator(Flagged(line, "/*"));
    assert FlaggedAmong(line, Markers) == FlaggedAmong(line, m2) + Indicator(Flagged(line, "*/"));
  }

  /** The inner loop over the quote positions: is there a quote before `pos`, is
      there one after it. */
  method QuotesAround(dquotes: seq<nat>, pos: int) returns (lower: bool, higher: bool)
    ensures lower <==> exists k :: 0 <= k < |dquotes| && dquotes[k] < pos
    ensures higher <==> exists k :: 0 <= k < |dquotes| && dquotes[k] > pos
  {
    lower, higher := false, false;
    for k := 0 to |dquotes|
      invariant lower <==> exists i :: 0 <= i < k && dquotes[i] < pos
      invariant higher <==> exists i :: 0 <= i < k && dquotes[i] > pos
    {
      if dquotes[k] < pos {
        lower := true;
      }
      if dquotes[k] > pos {
        higher := true;
      }
    }
  }

  /** Scanning the quote positions answers the quote test on the line itself. */
  lemma QuotePositionsAround(line: string, pos: int)
    ensures var q := QuotePositions(line);
      ((exists k :: 0 <= k < |q| && q[k] < pos) <==> QuoteBefore(line, pos)) &&
      ((exists k :: 0 <= k < |q| && q[k] > pos) <==> QuoteAfter(line, pos))
  {
    var q := QuotePositions(line);
    if QuoteBefore(line, pos) {
      var j :| 0 <= j < |line| && j < pos && line[j] == '"';
      assert j in q;
    }
    if QuoteAfter(line, pos) {
      var j :| 0 <= j < |line| && pos < j && line[j] == '"';
      assert j in q;
    }
  }

  /** A comment after code is flagged once. */
  lemma ExampleTrailingComment()
    ensures FlaggedCount("x = 1; // done") == 1
  {
    var a := "x = 1; // done";
    assert OccursAt(a, "//", 7);
    assert !QuoteBefore(a, 7);
    FindAbsent(a, "/*", 1, 0);
    FindAbsent(a, "*/", 0, 0);
    FindFirst(a, "//", 0, 7);
    FlaggedCountByMarker(a);
  }

  /** A marker between two quotes is not flagged. */
  lemma ExampleQuotedMarker()
    ensures FlaggedCount("printf(\"// x\");") == 0
  {
    var b := "printf(\"// x\");";
    assert OccursAt(b, "//", 8);
    assert b[0] == 'p' && b[1] == 'r' && b[2] == 'i' && b[3] == 'n' && b[4] == 't' && b[5] == 'f' && b[6] == '(';
    assert b[7] == '"' && b[12] == '"';
    FindAbsent(b, "/*", 1, 0);
    FindAbsent(b, "*/", 0, 0);
    FindFirst(b, "//", 0, 8);
    assert QuotedAt(b, 8);
    FlaggedCountByMarker(b);
  }

  /** Only the first occurrence of a marker counts: a quoted "//" hides a real
      comment later on the same line. */
  lemma ExampleFirstOccurrenceOnly()
    ensures FlaggedCount("s = \"//\"; // note") == 0
  {
    var a := "s = \"//\"; // note";
    assert OccursAt(a, "//", 5);
    assert a[4] == '"' && a[7] == '"';
    FindAbsent(a, "/*", 1, 0);
    FindAbsent(a, "*/", 0, 0);
    FindFirst(a, "//", 0, 5);
    assert QuotedAt(a, 5);
    FlaggedCountByMarker(a);
  }
}
