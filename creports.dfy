/**
 * What the older C handler reports, as functions of the file's lines: the
 * comment reports of the splitter, and for each function the arity, the
 * declaration-zone, keyword, length and spacing reports, then the
 * function-count report. Severity 1 is Minor and severity 2 is Major.
 *
 * Reading a body line that is a number (the extra number a "{" line adds to an
 * open function) makes the handler fail: the reports are then the ones made
 * before the failure, and `AllComplete` is false.
 */
module CReports {
  import opened PyStr
  import opened CDeclarations
  import opened CSplit
  import Types
  import CommentRule

  /** One call of the report function: message, file, line and severity. */
  datatype Violation = Violation(message: string, filepath: string, line: int, severity: Types.Severity)

  const MaxParams: nat := 4
  const MaxFuncLines: nat := 20
  const MaxFuncs: nat := 5

  /** A message: its rule code, a comma, a space and the text. */
  function Msg(code: string, text: string): string {
    code + ", " + text
  }

  const CommentText: string := Msg("F6", "comment")
  const MultipleText: string := Msg("L5", "multiple declarations on the same line")
  const VoidText: string := Msg("F5", "a function with no parameters should take (void)")
  const OnlyOneBreakText: string := Msg("L6", "only one line break should be found after the variable declarations")
  const SeparateText: string :=
    Msg("L6", "a line break should separate the variable declarations from the remainder of the function")
  const BeginningText: string := Msg("L5", "variables should be declared at the beginning of the scope of the function")
  const SpacingText: string := Msg("G2", "wrong function spacing")

  /** The keywords looked for, each followed directly by "(", in this order. */
  const CKeywords: seq<string> := ["if", "while", "for", "return", "switch", "do"]

  function TooManyParamsText(n: nat): string {
    Msg("F5", "function takes too many parameters (" + NatToString(n) + ")")
  }

  function MissingSpaceText(keyword: string): string {
    Msg("L3", "missing space after '" + keyword + "'")
  }

  function TooLongText(n: nat): string {
    Msg("F4", "too long function (" + NatToString(n) + " lines)")
  }

  function TooManyFunctionsText(n: nat): string {
    Msg("O3", "too many functions (" + NatToString(n) + ">5)")
  }

  function Minor(filepath: string, line: int, message: string): Violation {
    Violation(message, filepath, line, Types.Minor)
  }

  function Major(filepath: string, line: int, message: string): Violation {
    Violation(message, filepath, line, Types.Major)
  }

  /** The reports of a sequence of steps, step after step. */
  function Flatten(groups: seq<seq<Violation>>): seq<Violation>
    decreases |groups|
  {
    if groups == [] then [] else Flatten(groups[..|groups| - 1]) + groups[|groups| - 1]
  }

  /** A report of the whole run is a report of one of its steps, and back. */
  lemma {:induction false} FlattenMembers(groups: seq<seq<Violation>>)
    ensures forall v :: v in Flatten(groups) <==> exists k :: 0 <= k < |groups| && v in groups[k]
    decreases |groups|
  {
    if groups != [] {
      var init := groups[..|groups| - 1];
      FlattenMembers(init);
      forall v | v in Flatten(groups)
        ensures exists k :: 0 <= k < |groups| && v in groups[k]
      {
        if v in Flatten(init) {
          var k :| 0 <= k < |init| && v in init[k];
          assert v in groups[k];
        }
      }
      forall v, k | 0 <= k < |groups| && v in groups[k]
        ensures v in Flatten(groups)
      {
        if k < |init| {
          assert v in init[k];
        }
      }
    }
  }

  // ---------------------------------------------------------------- comments

  /** The comment reports of line `lineNb` for the given markers. */
  function CommentReportsAmong(filepath: string, lineNb: int, line: string, markers: seq<string>): seq<Violation>
    decreases |markers|
  {
    if markers == [] then []
    else
      var prev := CommentReportsAmong(filepath, lineNb, line, markers[..|markers| - 1]);
      prev + (if CommentRule.Flagged(line, markers[|markers| - 1]) then [Minor(filepath, lineNb, CommentText)] else [])
  }

  /** The comment reports of a line: one "F6, comment" per flagged marker. */
  lemma {:induction false} CommentReportsAmongShape(filepath: string, lineNb: int, line: string, markers: seq<string>)
    ensures var r := CommentReportsAmong(filepath, lineNb, line, markers);
      |r| == CommentRule.FlaggedAmong(line, markers)
      && forall v :: v in r ==> v == Minor(filepath, lineNb, CommentText)
    decreases |markers|
  {
    if markers != [] {
      CommentReportsAmongShape(filepath, lineNb, line, markers[..|markers| - 1]);
    }
  }

  /** The splitter's comment reports, line by line: every line after line 6,
      inside a function or not, is examined. */
  function CommentGroups(filepath: string, lines: seq<string>): (g: seq<seq<Violation>>)
    ensures |g| == |lines|
    decreases |lines|
  {
    if lines == [] then []
    else
      var prev := CommentGroups(filepath, lines[..|lines| - 1]);
      prev + [if |lines| > 6 then CommentReportsAmong(filepath, |lines|, lines[|lines| - 1], CommentRule.Markers) else []]
  }

  function CommentReports(filepath: string, lines: seq<string>): seq<Violation> {
    Flatten(CommentGroups(filepath, lines))
  }

  /** Line `n` draws one "F6, comment" per flagged marker when it comes after
      line 6, and none otherwise. */
  lemma {:induction false} CommentLine(filepath: string, lines: seq<string>, n: int)
    requires 1 <= n <= |lines|
    ensures var g := CommentGroups(filepath, lines)[n - 1];
      |g| == (if n > 6 then CommentRule.FlaggedCount(lines[n - 1]) else 0)
      && forall v :: v in g ==> v == Minor(filepath, n, CommentText)
    decreases |lines|
  {
    var init := lines[..|lines| - 1];
    if n < |lines| {
      CommentLine(filepath, init, n);
      assert CommentGroups(filepath, lines)[n - 1] == CommentGroups(filepath, init)[n - 1];
    } else {
      CommentReportsAmongShape(filepath, n, lines[n - 1], CommentRule.Markers);
    }
  }

  // -------------------------------------------------------- declaration zone

  /** Every line, once stripped, is a declaration. */
  predicate AllDecl(body: seq<string>)
    decreases |body|
  {
    body == [] || (AllDecl(body[..|body| - 1]) && IsDeclaration(Strip(body[|body| - 1])))
  }

  /** The lines of a run of declarations are declarations. */
  lemma {:induction false} AllDeclAt(body: seq<string>, k: int)
    requires AllDecl(body) && 0 <= k < |body|
    ensures IsDeclaration(Strip(body[k]))
    decreases |body|
  {
    if k < |body| - 1 {
      AllDeclAt(body[..|body| - 1], k);
    }
  }

  /** The classifier's report for a stripped line. */
  function DeclReports(filepath: string, lineNb: int, line: string): seq<Violation> {
    if MultipleOnly(line) then [Minor(filepath, lineNb, MultipleText)] else []
  }

  /** The keyword reports of a stripped line, keyword by keyword. */
  function KeywordReportsAmong(filepath: string, lineNb: int, line: string, keywords: seq<string>): seq<Violation>
    decreases |keywords|
  {
    if keywords == [] then []
    else
      var prev := KeywordReportsAmong(filepath, lineNb, line, keywords[..|keywords| - 1]);
      var kw := keywords[|keywords| - 1];
      prev + (if Find(line, kw + "(", 0) != -1 then [Minor(filepath, lineNb, MissingSpaceText(kw))] else [])
  }

  /** The keyword reports are exactly one "missing space" per keyword that the
      search finds followed by "(". */
  lemma {:induction false} KeywordReportsAmongShape(filepath: string, lineNb: int, line: string, keywords: seq<string>)
    ensures var r := KeywordReportsAmong(filepath, lineNb, line, keywords);
      (forall v :: v in r ==>
         exists kw :: kw in keywords && v == Minor(filepath, lineNb, MissingSpaceText(kw)) && Find(line, kw + "(", 0) != -1)
      && (forall kw :: kw in keywords && Find(line, kw + "(", 0) != -1 ==> Minor(filepath, lineNb, MissingSpaceText(kw)) in r)
    decreases |keywords|
  {
    if keywords != [] {
      var init := keywords[..|keywords| - 1];
      var last := keywords[|keywords| - 1];
      KeywordReportsAmongShape(filepath, lineNb, line, init);
      var prev := KeywordReportsAmong(filepath, lineNb, line, init);
      forall v | v in KeywordReportsAmong(filepath, lineNb, line, keywords)
        ensures exists kw :: kw in keywords && v == Minor(filepath, lineNb, MissingSpaceText(kw)) && Find(line, kw + "(", 0) != -1
      {
        if v in prev {
          var kw :| kw in init && v == Minor(filepath, lineNb, MissingSpaceText(kw)) && Find(line, kw + "(", 0) != -1;
          assert kw in keywords;
        } else {
          assert last in keywords;
        }
      }
      forall kw | kw in init
        ensures kw in keywords
      {
      }
    }
  }

  /** A keyword is reported exactly when it occurs directly followed by "(",
      anywhere in the line (so "do" is also reported inside "undo("). */
  lemma KeywordRule(filepath: string, lineNb: int, line: string, keywords: seq<string>, w: string)
    requires w in keywords
    ensures Minor(filepath, lineNb, MissingSpaceText(w)) in KeywordReportsAmong(filepath, lineNb, line, keywords)
        <==> exists p :: OccursAt(line, w + "(", p)
  {
    KeywordReportsAmongShape(filepath, lineNb, line, keywords);
    FindFound(line, w + "(");
    var r := KeywordReportsAmong(filepath, lineNb, line, keywords);
    if Minor(filepath, lineNb, MissingSpaceText(w)) in r {
      var kw :| kw in keywords && Minor(filepath, lineNb, MissingSpaceText(w)) == Minor(filepath, lineNb, MissingSpaceText(kw))
        && Find(line, kw + "(", 0) != -1;
      MissingSpaceTextInjective(w, kw);
    }
  }

  /** A pattern occurs somewhere exactly when searching from the start finds it. */
  lemma FindFound(s: string, pat: string)
    ensures Find(s, pat, 0) != -1 <==> exists p :: OccursAt(s, pat, p)
  {
    if exists p :: OccursAt(s, pat, p) {
      var p :| OccursAt(s, pat, p);
      assert p >= 0;
    }
  }

  /** Different keywords give different messages. */
  lemma MissingSpaceTextInjective(a: string, b: string)
    ensures MissingSpaceText(a) == MissingSpaceText(b) ==> a == b
  {
    var prefix := "L3" + ", " + "missing space after '";
    assert MissingSpaceText(a) == prefix + (a + "'");
    assert MissingSpaceText(b) == prefix + (b + "'");
    InfixInjective(prefix, a, b, "'");
  }

  /** The middle of a concatenation is determined by the whole and its ends. */
  lemma InfixInjective(p: string, a: string, b: string, q: string)
    ensures p + (a + q) == p + (b + q) ==> a == b
  {
    if p + (a + q) == p + (b + q) {
      assert (p + (a + q))[|p|..] == a + q;
      assert (p + (b + q))[|p|..] == b + q;
      assert a == (a + q)[..|a|] && b == (b + q)[..|b|];
    }
  }

  /** The reports of one stripped body line. `first` says it is the first body
      line, which seeds the zone flag; otherwise `flagBefore` is the flag.
      `keywords` is the keyword list (`CKeywords` in the handler). */
  function LineReports(filepath: string, lineNb: int, line: string, first: bool, flagBefore: bool, keywords: seq<string>)
    : seq<Violation>
  {
    var decl := IsDeclaration(line);
    var flag := if first then decl else flagBefore;
    DeclReports(filepath, lineNb, line)
    + (if |line| == 0 && !flag then [Minor(filepath, lineNb, OnlyOneBreakText)] else [])
    + (if !decl && |line| > 0 && flag then [Minor(filepath, lineNb, SeparateText)] else [])
    + (if decl && !flag then [Minor(filepath, lineNb, BeginningText)] else [])
    + KeywordReportsAmong(filepath, lineNb, line, keywords)
  }

  /** The reports of the body lines of the function whose opening line number is
      `funcLine`, line by line; line `i` of the body (from 1) is file line
      `funcLine + i + 1`. */
  function BodyGroups(filepath: string, funcLine: int, body: seq<string>, keywords: seq<string>): (g: seq<seq<Violation>>)
    ensures |g| == |body|
    decreases |body|
  {
    if body == [] then []
    else
      var init := body[..|body| - 1];
      BodyGroups(filepath, funcLine, init, keywords)
        + [LineReports(filepath, funcLine + |body| + 1, Strip(body[|body| - 1]), |body| == 1, AllDecl(init), keywords)]
  }

  /** Body line `k` (from 0) is reported on with the zone flag equal to "every
      earlier body line is a declaration": once the flag is false it stays
      false. */
  lemma {:induction false} BodyGroupAt(filepath: string, funcLine: int, body: seq<string>, keywords: seq<string>, k: int)
    requires 0 <= k < |body|
    ensures BodyGroups(filepath, funcLine, body, keywords)[k]
         == LineReports(filepath, funcLine + k + 2, Strip(body[k]), k == 0, AllDecl(body[..k]), keywords)
    decreases |body|
  {
    var init := body[..|body| - 1];
    BodyGroupsSnoc(filepath, funcLine, body, keywords);
    if k < |body| - 1 {
      BodyGroupAt(filepath, funcLine, init, keywords, k);
      assert init[..k] == body[..k] && init[k] == body[k];
    } else {
      assert init == body[..k];
    }
  }

  /** The groups of a non-empty body: those of all lines but the last, then the
      last line's reports. */
  lemma BodyGroupsSnoc(filepath: string, funcLine: int, body: seq<string>, keywords: seq<string>)
    requires |body| > 0
    ensures var init := body[..|body| - 1];
      var g := BodyGroups(filepath, funcLine, body, keywords);
      g[..|init|] == BodyGroups(filepath, funcLine, init, keywords)
      && g[|init|] == LineReports(filepath, funcLine + |body| + 1, Strip(body[|body| - 1]), |body| == 1, AllDecl(init), keywords)
  {
  }

  /** The message texts of the zone and classifier reports are distinct, and none
      has the keyword reports' code. */
  lemma ZoneTextsDiffer(keyword: string)
    ensures MissingSpaceText(keyword) != BeginningText && MissingSpaceText(keyword) != SeparateText
    ensures MissingSpaceText(keyword) != OnlyOneBreakText
    ensures MultipleText != BeginningText && MultipleText != SeparateText && MultipleText != OnlyOneBreakText
  {
    assert MissingSpaceText(keyword)[..2] == "L3";
    assert BeginningText[..2] == "L5" && SeparateText[..2] == "L6" && OnlyOneBreakText[..2] == "L6";
  }

  /** The zone rules on one line, with `flag` the zone flag the line is read with. */
  lemma LineZone(filepath: string, n: int, line: string, first: bool, flagBefore: bool, keywords: seq<string>)
    ensures var r := LineReports(filepath, n, line, first, flagBefore, keywords);
      var decl := IsDeclaration(line);
      var flag := if first then decl else flagBefore;
      (Minor(filepath, n, BeginningText) in r <==> decl && !flag)
      && (Minor(filepath, n, SeparateText) in r <==> !decl && line != [] && flag)
      && (Minor(filepath, n, OnlyOneBreakText) in r <==> line == [] && !flag)
  {
    var kr := KeywordReportsAmong(filepath, n, line, keywords);
    KeywordReportsAmongShape(filepath, n, line, keywords);
    forall text | text in {BeginningText, SeparateText, OnlyOneBreakText}
      ensures Minor(filepath, n, text) !in kr
    {
      if Minor(filepath, n, text) in kr {
        var kw :| kw in keywords && Minor(filepath, n, text) == Minor(filepath, n, MissingSpaceText(kw))
          && Find(line, kw + "(", 0) != -1;
        ZoneTextsDiffer(kw);
      }
    }
    ZoneTextsDiffer("");
  }

  /** The zone rules, message by message, for the reports `g` of body line `i`
      (report line `n`, stripped text `line`), where `prior` says whether every
      earlier body line is a declaration:
      - "declared at the beginning" exactly for a declaration after some line
        that is not one (never on the first line);
      - "a line break should separate" exactly for a non-blank line that is not a
        declaration and follows an unbroken run of declarations;
      - "only one line break" exactly for a blank line that is the first line or
        comes after the zone has ended, so the blank line that ends the zone is
        the only one allowed. */
  predicate ZoneMessages(filepath: string, n: int, g: seq<Violation>, line: string, first: bool, prior: bool) {
    (Minor(filepath, n, BeginningText) in g <==> !first && IsDeclaration(line) && !prior)
    && (Minor(filepath, n, SeparateText) in g <==> !first && line != [] && !IsDeclaration(line) && prior)
    && (Minor(filepath, n, OnlyOneBreakText) in g <==> line == [] && (first || !prior))
  }

  /** The zone rules on the reports of one body line. */
  lemma ZoneLine(filepath: string, n: int, line: string, first: bool, prior: bool, keywords: seq<string>,
    r: seq<Violation>)
    requires r == LineReports(filepath, n, line, first, prior, keywords)
    ensures ZoneMessages(filepath, n, r, line, first, prior)
  {
    var decl := IsDeclaration(line);
    LineZone(filepath, n, line, first, prior, keywords);
    if line == [] {
      NeedsSemicolon(line);
    }
    var b, s, o := Minor(filepath, n, BeginningText) in r, Minor(filepath, n, SeparateText) in r,
      Minor(filepath, n, OnlyOneBreakText) in r;
    if first {
      assert !b && !s && (o <==> line == []);
    } else {
      assert (b <==> decl && !prior) && (s <==> line != [] && !decl && prior) && (o <==> line == [] && !prior);
    }
  }

  /** The zone rules hold on every body line `k` (from 0). */
  lemma ZoneRules(filepath: string, funcLine: int, body: seq<string>, keywords: seq<string>, k: int)
    requires 0 <= k < |body|
    ensures ZoneMessages(filepath, funcLine + k + 2, BodyGroups(filepath, funcLine, body, keywords)[k],
      Strip(body[k]), k == 0, AllDecl(body[..k]))
  {
    var g := BodyGroups(filepath, funcLine, body, keywords)[k];
    BodyGroupAt(filepath, funcLine, body, keywords, k);
    ZoneLine(filepath, funcLine + k + 2, Strip(body[k]), k == 0, AllDecl(body[..k]), keywords, g);
  }

  /** "a line break should separate" is reported on at most one body line. */
  lemma SeparateAtMostOnce(filepath: string, funcLine: int, body: seq<string>, keywords: seq<string>, i: int, j: int)
    requires 0 <= i < j < |body|
    requires Minor(filepath, funcLine + i + 2, SeparateText) in BodyGroups(filepath, funcLine, body, keywords)[i]
    ensures Minor(filepath, funcLine + j + 2, SeparateText) !in BodyGroups(filepath, funcLine, body, keywords)[j]
  {
    ZoneRules(filepath, funcLine, body, keywords, i);
    ZoneRules(filepath, funcLine, body, keywords, j);
    if AllDecl(body[..j]) {
      AllDeclAt(body[..j], i);
    }
  }

  // ------------------------------------------------- arity, length, spacing

  /** The text between the first "(" and the first ")", with the slicing rules of
      the source language (a missing ")" cuts off the last character). */
  function ParamText(decl: string): string {
    Slice(decl, Find(decl, "(", 0) + 1, Find(decl, ")", 0))
  }

  function ArityReports(filepath: string, funcLine: int, decl: string): seq<Violation> {
    var params := ParamText(decl);
    var count := |Split(params, ',')|;
    if |params| == 0 then [Major(filepath, funcLine, VoidText)]
    else if count > MaxParams then [Major(filepath, funcLine, TooManyParamsText(count))]
    else []
  }

  /** Empty parameter text draws the "(void)" report; otherwise four commas or
      more (more than four comma-separated parts) draw "too many parameters" with
      the number of parts; otherwise nothing. */
  lemma ArityRules(filepath: string, funcLine: int, decl: string)
    ensures var params := ParamText(decl);
      var r := ArityReports(filepath, funcLine, decl);
      (params == [] ==> r == [Major(filepath, funcLine, VoidText)])
      && (params != [] && Count(params, ',') >= MaxParams ==>
            r == [Major(filepath, funcLine, TooManyParamsText(Count(params, ',') + 1))])
      && (params != [] && Count(params, ',') < MaxParams ==> r == [])
  {
    SplitCount(ParamText(decl), ',');
  }

  function LengthReports(filepath: string, funcLine: int, size: nat): seq<Violation> {
    if size > MaxFuncLines then [Major(filepath, funcLine, TooLongText(size))] else []
  }

  /** The spacing check: the lines with indices `end - 1` and `end` both empty,
      where `end` is `funcLine + size + 3`. */
  function SpacingReports(filepath: string, lines: seq<string>, funcLine: int, size: nat): seq<Violation> {
    var end := funcLine + size + 3;
    if 0 < end && end + 1 <= |lines| && |lines[end - 1]| == 0 && |lines[end]| == 0
    then [Minor(filepath, end, SpacingText)]
    else []
  }

  /** For a function without inner numbers the spacing check looks at the two
      lines just after its closing brace: it reports exactly when both exist and
      are empty. */
  lemma SpacingAfterClosingBrace(filepath: string, lines: seq<string>, f: seq<Cell>)
    requires Delimited(f, lines) && !HasInnerNum(f)
    ensures var c := f[0].n + |f|;
      c < |lines| && StartsWith(lines[c], "}")
      && (SpacingReports(filepath, lines, f[0].n, |f| - 1) != []
          <==> c + 2 < |lines| && lines[c + 1] == [] && lines[c + 2] == [])
  {
    FlatFunction(f, lines);
  }

  // ------------------------------------------------------- whole functions

  /** The lines of the leading run of line cells. */
  function LeadingTexts(cells: seq<Cell>): (r: seq<string>)
    ensures |r| <= |cells|
    ensures forall k :: 0 <= k < |r| ==> cells[k] == Text(r[k])
    ensures |r| < |cells| ==> cells[|r|].Num?
  {
    if cells == [] || cells[0].Num? then []
    else [cells[0].s] + LeadingTexts(cells[1..])
  }

  /** A run of line cells ended by a number or by the end is the leading run. */
  lemma {:induction false} LeadingTextsOf(cells: seq<Cell>, texts: seq<string>)
    requires |texts| <= |cells|
    requires forall k :: 0 <= k < |texts| ==> cells[k] == Text(texts[k])
    requires |texts| < |cells| ==> cells[|texts|].Num?
    ensures LeadingTexts(cells) == texts
    decreases |texts|
  {
    if texts != [] {
      LeadingTextsOf(cells[1..], texts[1..]);
    }
  }

  /** A function's number and the file it came from. */
  predicate Headed(f: seq<Cell>, lines: seq<string>) {
    |f| >= 1 && f[0].Num? && 0 <= f[0].n < |lines|
  }

  /** The function's body is read to its end: no cell after the first is a number. */
  predicate Completes(f: seq<Cell>) {
    |f| >= 1 && |LeadingTexts(f[1..])| == |f| - 1
  }

  predicate AllComplete(funcs: seq<seq<Cell>>) {
    forall k :: 0 <= k < |funcs| ==> Completes(funcs[k])
  }

  /** The prototype line: the line above the opening brace, or the file's last
      line when the brace is the first line. */
  function DeclLine(lines: seq<string>, funcLine: int): string
    requires 0 <= funcLine < |lines|
  {
    At(lines, funcLine - 1)
  }

  /** What checking one function reports. The body is read line by line; a
      number among the cells stops the run. Length and spacing are checked only
      after the whole body. */
  function FunctionReports(filepath: string, lines: seq<string>, f: seq<Cell>, keywords: seq<string>): seq<Violation>
    requires Headed(f, lines)
  {
    var funcLine := f[0].n;
    var size := |f| - 1;
    var body := LeadingTexts(f[1..]);
    var head := ArityReports(filepath, funcLine, DeclLine(lines, funcLine))
      + Flatten(BodyGroups(filepath, funcLine, body, keywords));
    if !Completes(f) then head
    else head + (LengthReports(filepath, funcLine, size) + SpacingReports(filepath, lines, funcLine, size))
  }

  /** The functions checked in order, up to the first that does not complete. */
  function FunctionsReports(filepath: string, lines: seq<string>, funcs: seq<seq<Cell>>, keywords: seq<string>): seq<Violation>
    requires forall k :: 0 <= k < |funcs| ==> Headed(funcs[k], lines)
    decreases |funcs|
  {
    if funcs == [] then []
    else
      var init := funcs[..|funcs| - 1];
      var prev := FunctionsReports(filepath, lines, init, keywords);
      if !AllComplete(init) then prev
      else prev + FunctionReports(filepath, lines, funcs[|funcs| - 1], keywords)
  }

  /** Every function the splitter returns has its number and the line above. */
  lemma SplitFunctionsHeaded(lines: seq<string>)
    ensures forall k :: 0 <= k < |Splitting(lines).funcs| ==> Headed(Splitting(lines).funcs[k], lines)
  {
    FunctionsDelimited(lines);
  }

  /** The function checks, then "too many functions" at line 0 when there are
      more than five and every function completed. */
  function CFunctionsReports(filepath: string, lines: seq<string>): seq<Violation> {
    var funcs := Splitting(lines).funcs;
    SplitFunctionsHeaded(lines);
    FunctionsReports(filepath, lines, funcs, CKeywords)
      + (if AllComplete(funcs) && |funcs| > MaxFuncs then [Major(filepath, 0, TooManyFunctionsText(|funcs|))] else [])
  }

  /** A function completes exactly when no cell after its first is a number. */
  lemma CompletesNoInnerNum(f: seq<Cell>)
    requires |f| >= 1
    ensures Completes(f) <==> !HasInnerNum(f)
  {
    var r := LeadingTexts(f[1..]);
    if |r| < |f| - 1 {
      assert f[1..][|r|] == f[|r| + 1];
    } else {
      forall j | 1 <= j < |f|
        ensures f[j].Text?
      {
        assert f[1..][j - 1] == f[j];
      }
    }
  }

  /** The check runs to its end exactly when no returned function has a "{" line
      in its body. */
  lemma CFunctionsComplete(lines: seq<string>)
    ensures var funcs := Splitting(lines).funcs;
      AllComplete(funcs) <==> forall k :: 0 <= k < |funcs| ==> |funcs[k]| >= 1 && "{" !in TextsOf(funcs[k][1..])
  {
    var funcs := Splitting(lines).funcs;
    FunctionsDelimited(lines);
    forall k | 0 <= k < |funcs|
      ensures Completes(funcs[k]) <==> "{" !in TextsOf(funcs[k][1..])
    {
      CompletesNoInnerNum(funcs[k]);
    }
  }

  /** "too many functions" is reported exactly when every function completed
      and there are more than five. */
  lemma TooManyFunctions(filepath: string, lines: seq<string>)
    ensures var funcs := Splitting(lines).funcs;
      (Major(filepath, 0, TooManyFunctionsText(|funcs|)) in CFunctionsReports(filepath, lines)
       <==> AllComplete(funcs) && |funcs| > MaxFuncs)
  {
    var funcs := Splitting(lines).funcs;
    SplitFunctionsHeaded(lines);
    var m := Major(filepath, 0, TooManyFunctionsText(|funcs|));
    var reports := FunctionsReports(filepath, lines, funcs, CKeywords);
    var count := if AllComplete(funcs) && |funcs| > MaxFuncs then [m] else [];
    assert CFunctionsReports(filepath, lines) == reports + count;
    FunctionsNotCount(filepath, lines, funcs, CKeywords);
    CountTextCode(|funcs|);
  }

  /** The function-count report carries its own code. */
  lemma CountTextCode(n: nat)
    ensures StartsWith(TooManyFunctionsText(n), "O3")
  {
    assert TooManyFunctionsText(n)[..2] == "O3";
  }

  /** No report in `r` carries the function-count report's code. */
  predicate NoCountReport(r: seq<Violation>) {
    forall v :: v in r ==> !StartsWith(v.message, "O3")
  }

  /** A message starts with its own code. */
  lemma MsgCode(code: string, text: string)
    requires |code| == 2 && code != "O3"
    ensures !StartsWith(Msg(code, text), "O3")
  {
    assert Msg(code, text)[..2] == code;
  }

  /** No function report has the function-count report's code. */
  lemma {:induction false} FunctionsNotCount(filepath: string, lines: seq<string>, funcs: seq<seq<Cell>>, keywords: seq<string>)
    requires forall k :: 0 <= k < |funcs| ==> Headed(funcs[k], lines)
    ensures NoCountReport(FunctionsReports(filepath, lines, funcs, keywords))
    decreases |funcs|
  {
    if funcs != [] {
      FunctionsNotCount(filepath, lines, funcs[..|funcs| - 1], keywords);
      FunctionNotCount(filepath, lines, funcs[|funcs| - 1], keywords);
    }
  }

  lemma FunctionNotCount(filepath: string, lines: seq<string>, f: seq<Cell>, keywords: seq<string>)
    requires Headed(f, lines)
    ensures NoCountReport(FunctionReports(filepath, lines, f, keywords))
  {
    var funcLine := f[0].n;
    var size := |f| - 1;
    var arity := ArityReports(filepath, funcLine, DeclLine(lines, funcLine));
    var bodyReports := Flatten(BodyGroups(filepath, funcLine, LeadingTexts(f[1..]), keywords));
    var length := LengthReports(filepath, funcLine, size);
    var spacing := SpacingReports(filepath, lines, funcLine, size);
    ArityNotCount(filepath, funcLine, DeclLine(lines, funcLine));
    BodyNotCount(filepath, funcLine, LeadingTexts(f[1..]), keywords);
    NoCountAppend(arity, bodyReports);
    MsgCode("F4", "too long function (" + NatToString(size) + " lines)");
    MsgCode("G2", "wrong function spacing");
    NoCountAppend(length, spacing);
    NoCountAppend(arity + bodyReports, length + spacing);
  }

  lemma NoCountAppend(a: seq<Violation>, b: seq<Violation>)
    requires NoCountReport(a) && NoCountReport(b)
    ensures NoCountReport(a + b)
  {
  }

  lemma {:induction false} BodyNotCount(filepath: string, funcLine: int, body: seq<string>, keywords: seq<string>)
    ensures NoCountReport(Flatten(BodyGroups(filepath, funcLine, body, keywords)))
    decreases |body|
  {
    if body != [] {
      var g := BodyGroups(filepath, funcLine, body, keywords);
      var n := |body| - 1;
      var init := body[..n];
      BodyGroupsSnoc(filepath, funcLine, body, keywords);
      BodyNotCount(filepath, funcLine, init, keywords);
      LineNotCount(filepath, funcLine + |body| + 1, Strip(body[n]), |body| == 1, AllDecl(init), keywords, g[n]);
      NoCountAppend(Flatten(g[..n]), g[n]);
    }
  }

  lemma ArityNotCount(filepath: string, funcLine: int, decl: string)
    ensures NoCountReport(ArityReports(filepath, funcLine, decl))
  {
    MsgCode("F5", "a function with no parameters should take (void)");
    MsgCode("F5", "function takes too many parameters (" + NatToString(|Split(ParamText(decl), ',')|) + ")");
  }

  lemma LineNotCount(filepath: string, n: int, line: string, first: bool, prior: bool, keywords: seq<string>,
                     r: seq<Violation>)
    requires r == LineReports(filepath, n, line, first, prior, keywords)
    ensures NoCountReport(r)
  {
    KeywordsNotCount(filepath, n, line, keywords);
    MsgCode("L5", "multiple declarations on the same line");
    MsgCode("L5", "variables should be declared at the beginning of the scope of the function");
    MsgCode("L6", "a line break should separate the variable declarations from the remainder of the function");
    MsgCode("L6", "only one line break should be found after the variable declarations");
  }

  lemma {:induction false} KeywordsNotCount(filepath: string, n: int, line: string, keywords: seq<string>)
    ensures NoCountReport(KeywordReportsAmong(filepath, n, line, keywords))
    decreases |keywords|
  {
    if keywords != [] {
      var kw := keywords[|keywords| - 1];
      KeywordsNotCount(filepath, n, line, keywords[..|keywords| - 1]);
      MsgCode("L3", "missing space after '" + kw + "'");
    }
  }
}
