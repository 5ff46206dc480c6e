/**
 * The older C handler as the object it is: every check appends reports
 * through the checker object's report function, and each method's new state is
 * the old one followed by the reports its specification function describes.
 */
module CAddon {
  import opened PyStr
  import opened CSplit
  import opened CDeclarations
  import opened CReports
  import CommentRule
  import Types

  /** The part of the checker object the handler calls: its report function,
      which records one report per call. */
  class Reporter {
    var reported: seq<Violation>

    constructor()
      ensures reported == []
    {
      reported := [];
    }

    method AddNormViolation(message: string, filepath: string, line: int, severity: Types.Severity)
      modifies this
      ensures reported == old(reported) + [Violation(message, filepath, line, severity)]
    {
      reported := reported + [Violation(message, filepath, line, severity)];
    }
  }

  /** The reports of the steps before `g`, then those of `g`. */
  lemma FlattenSnoc(groups: seq<seq<Violation>>, g: seq<Violation>)
    ensures Flatten(groups + [g]) == Flatten(groups) + g
  {
    assert (groups + [g])[..|groups|] == groups;
  }

  /** One more body line: its reports follow those of the lines before it, and
      the zone flag it leaves is "every body line so far is a declaration". */
  lemma BodyStep(filepath: string, funcLine: int, body: seq<string>, s: string, keywords: seq<string>,
                 lineNb: int, first: bool, flag: bool)
    requires lineNb == funcLine + |body| + 2 && first == (|body| == 0)
    requires !first ==> flag == AllDecl(body)
    ensures Flatten(BodyGroups(filepath, funcLine, body + [s], keywords))
         == Flatten(BodyGroups(filepath, funcLine, body, keywords)) + LineReports(filepath, lineNb, Strip(s), first, flag, keywords)
    ensures AllDecl(body + [s]) == ((if first then IsDeclaration(Strip(s)) else flag) && IsDeclaration(Strip(s)))
  {
    var longer := body + [s];
    assert longer[..|body|] == body;
    FlattenSnoc(BodyGroups(filepath, funcLine, body, keywords),
      LineReports(filepath, lineNb, Strip(s), first, AllDecl(body), keywords));
  }

  lemma AppendAssoc5(o: seq<Violation>, d: seq<Violation>, a: seq<Violation>, b: seq<Violation>,
                     c: seq<Violation>, k: seq<Violation>)
    ensures o + d + a + b + c + k == o + (d + a + b + c + k)
  {
  }

  /** One more line for the splitter: its state takes one step, and the
      line's comment reports (after line 6) follow those of the lines before. */
  lemma SplitCommentStep(filepath: string, lines: seq<string>, i: int)
    requires 0 <= i < |lines|
    ensures Splitting(lines[..i + 1]) == SplitStep(Splitting(lines[..i]), lines[i], i + 1)
    ensures CommentReports(filepath, lines[..i + 1])
         == CommentReports(filepath, lines[..i])
            + (if i + 1 > 6 then CommentReportsAmong(filepath, i + 1, lines[i], CommentRule.Markers) else [])
  {
    assert lines[..i + 1][..i] == lines[..i];
    FlattenSnoc(CommentGroups(filepath, lines[..i]),
      if i + 1 > 6 then CommentReportsAmong(filepath, i + 1, lines[i], CommentRule.Markers) else []);
  }

  /** One more marker for the comment check. */
  lemma CommentMarkerStep(filepath: string, lineNb: int, line: string, markers: seq<string>, k: int)
    requires 0 <= k < |markers|
    ensures CommentReportsAmong(filepath, lineNb, line, markers[..k + 1])
         == CommentReportsAmong(filepath, lineNb, line, markers[..k])
            + (if CommentRule.Flagged(line, markers[k]) then [Minor(filepath, lineNb, CommentText)] else [])
  {
    assert markers[..k + 1][..k] == markers[..k];
  }

  /** Once a function fails to complete, the later ones are never checked. */
  lemma {:induction false} FunctionsReportsStop(filepath: string, lines: seq<string>, funcs: seq<seq<Cell>>, keywords: seq<string>, k: int)
    requires forall j :: 0 <= j < |funcs| ==> Headed(funcs[j], lines)
    requires 0 <= k < |funcs| && !Completes(funcs[k])
    ensures FunctionsReports(filepath, lines, funcs, keywords) == FunctionsReports(filepath, lines, funcs[..k + 1], keywords)
    decreases |funcs|
  {
    if k + 1 < |funcs| {
      var init := funcs[..|funcs| - 1];
      FunctionsReportsStop(filepath, lines, init, keywords, k);
      assert init[..k + 1] == funcs[..k + 1];
      assert !AllComplete(init) by {
        assert !Completes(init[k]);
      }
    } else {
      assert funcs[..k + 1] == funcs;
    }
  }

  lemma AppendAssoc(a: seq<Violation>, b: seq<Violation>, c: seq<Violation>)
    ensures a + b + c == a + (b + c)
  {
  }

  /** Checking one more function, when all before it completed, adds its reports. */
  lemma FunctionsReportsSnoc(filepath: string, lines: seq<string>, funcs: seq<seq<Cell>>, keywords: seq<string>, k: int)
    requires forall j :: 0 <= j < |funcs| ==> Headed(funcs[j], lines)
    requires 0 <= k < |funcs| && AllComplete(funcs[..k])
    ensures FunctionsReports(filepath, lines, funcs[..k + 1], keywords)
         == FunctionsReports(filepath, lines, funcs[..k], keywords) + FunctionReports(filepath, lines, funcs[k], keywords)
    ensures Completes(funcs[k]) ==> AllComplete(funcs[..k + 1])
  {
    assert funcs[..k + 1][..k] == funcs[..k];
    if Completes(funcs[k]) {
      forall j | 0 <= j < k + 1
        ensures Completes(funcs[j])
      {
        if j < k {
          assert funcs[..k][j] == funcs[j];
        }
      }
    }
  }

  /** The function checks, then the function-count report only when every
      function completed and there are more than five. */
  lemma CFunctionsReportsParts(filepath: string, lines: seq<string>)
    ensures var funcs := Splitting(lines).funcs;
      (forall j :: 0 <= j < |funcs| ==> Headed(funcs[j], lines))
      && CFunctionsReports(filepath, lines)
         == FunctionsReports(filepath, lines, funcs, CKeywords)
            + (if AllComplete(funcs) && |funcs| > MaxFuncs then [Major(filepath, 0, TooManyFunctionsText(|funcs|))] else [])
  {
    SplitFunctionsHeaded(lines);
  }

  /** What checking a function that completes reports, part by part. */
  lemma FunctionReportsComplete(filepath: string, lines: seq<string>, f: seq<Cell>, keywords: seq<string>,
                                arity: seq<Violation>, bodyReports: seq<Violation>, tail: seq<Violation>)
    requires Headed(f, lines) && Completes(f)
    requires arity == ArityReports(filepath, f[0].n, At(lines, f[0].n - 1))
    requires bodyReports == Flatten(BodyGroups(filepath, f[0].n, LeadingTexts(f[1..]), keywords))
    requires tail == LengthReports(filepath, f[0].n, |f| - 1) + SpacingReports(filepath, lines, f[0].n, |f| - 1)
    ensures FunctionReports(filepath, lines, f, keywords) == arity + bodyReports + tail
  {
  }

  /** What checking a function that stops reports, part by part. */
  lemma FunctionReportsStopped(filepath: string, lines: seq<string>, f: seq<Cell>, keywords: seq<string>,
                               arity: seq<Violation>, bodyReports: seq<Violation>)
    requires Headed(f, lines) && !Completes(f)
    requires arity == ArityReports(filepath, f[0].n, At(lines, f[0].n - 1))
    requires bodyReports == Flatten(BodyGroups(filepath, f[0].n, LeadingTexts(f[1..]), keywords))
    ensures FunctionReports(filepath, lines, f, keywords) == arity + bodyReports
  {
  }

  class MoulinetteAddon {
    const moulinette: Reporter
    const verbose: bool

    constructor(moulinette: Reporter, verbose: bool)
      ensures this.moulinette == moulinette && this.verbose == verbose
    {
      this.moulinette := moulinette;
      this.verbose := verbose;
    }

    /** The comment check of one line: the first occurrence of each marker is
        reported unless double quotes lie on both sides of it. */
    method ReportComments(filepath: string, lineNb: int, line: string)
      modifies moulinette
      ensures moulinette.reported
           == old(moulinette.reported) + CommentReportsAmong(filepath, lineNb, line, CommentRule.Markers)
    {
      var markers := CommentRule.Markers;
      var dquotes := CommentRule.QuotePositions(line);
      for k := 0 to |markers|
        invariant moulinette.reported
               == old(moulinette.reported) + CommentReportsAmong(filepath, lineNb, line, markers[..k])
      {
        CommentMarkerStep(filepath, lineNb, line, markers, k);
        ghost var flagged := CommentRule.Flagged(line, markers[k]);
        var comment := Find(line, markers[k], 0);
        if comment != -1 {
          var lower, higher := CommentRule.QuotesAround(dquotes, comment);
          CommentRule.QuotePositionsAround(line, comment);
          assert flagged == !(lower && higher);
          if !(lower && higher) {
            moulinette.AddNormViolation(CommentText, filepath, lineNb, Types.Minor);
          }
        }
      }
      assert markers[..|markers|] == markers;
    }

    /** Cuts the file into functions, reporting comments on every line after
        line 6 on the way. */
    method SplitFunctions(filepath: string, lines: seq<string>) returns (funcs: seq<seq<Cell>>)
      modifies moulinette
      ensures funcs == Splitting(lines).funcs
      ensures moulinette.reported == old(moulinette.reported) + CommentReports(filepath, lines)
    {
      var lineNb := 1;
      funcs := [];
      var cFunc: seq<Cell> := [];
      var isFunc := false;
      for i := 0 to |lines|
        invariant lineNb == i + 1
        invariant Splitting(lines[..i]) == SplitState(funcs, cFunc, isFunc)
        invariant moulinette.reported == old(moulinette.reported) + CommentReports(filepath, lines[..i])
      {
        var line := lines[i];
        ghost var before := SplitState(funcs, cFunc, isFunc);
        ghost var reportedBefore := CommentReports(filepath, lines[..i]);
        SplitCommentStep(filepath, lines, i);
        if StartsWith(line, "}") && isFunc {
          isFunc := false;
          funcs := funcs + [cFunc];
          cFunc := [];
        }
        if isFunc {
          cFunc := cFunc + [Text(line)];
        }
        if line == "{" {
          cFunc := cFunc + [Num(lineNb - 1)];
          isFunc := true;
        }
        assert SplitState(funcs, cFunc, isFunc) == SplitStep(before, line, lineNb);
        if lineNb > 6 {
          ReportComments(filepath, lineNb, line);
          AppendAssoc(old(moulinette.reported), reportedBefore,
            CommentReportsAmong(filepath, lineNb, line, CommentRule.Markers));
        }
        lineNb := lineNb + 1;
      }
      assert lines[..|lines|] == lines;
    }

    /** The declaration classifier: a several-declarator match that no
        single-declarator pattern accepts is reported and counts as a
        declaration; a single-declarator match counts silently. */
    method IsVariableDecl(filepath: string, lineNb: int, line: string) returns (r: bool)
      modifies moulinette
      ensures r == IsDeclaration(line)
      ensures moulinette.reported == old(moulinette.reported) + DeclReports(filepath, lineNb, line)
    {
      var wA := MatchesAssign(line, false);
      var woA := MatchesPlain(line, false);
      var wMA := MatchesAssign(line, true);
      var woMA := MatchesPlain(line, true);
      if (wMA || woMA) && !(wA || woA) {
        moulinette.AddNormViolation(MultipleText, filepath, lineNb, Types.Minor);
        return true;
      }
      if wA || woA {
        return true;
      }
      return false;
    }

    /** One body line, stripped: the classifier, then the zone rules read with
        the flag (seeded by the first line, cleared by the first line that is
        not a declaration), then the keywords. Returns the new flag. */
    method CheckBodyLine(filepath: string, lineNb: int, line: string, first: bool, flagBefore: bool, keywords: seq<string>)
      returns (flag: bool)
      modifies moulinette
      ensures flag == ((if first then IsDeclaration(line) else flagBefore) && IsDeclaration(line))
      ensures moulinette.reported
           == old(moulinette.reported) + LineReports(filepath, lineNb, line, first, flagBefore, keywords)
    {
      flag := flagBefore;
      var isVarDecl := IsVariableDecl(filepath, lineNb, line);
      if first {
        flag := isVarDecl;
      }
      ghost var zone := flag;
      ghost var d := DeclReports(filepath, lineNb, line);
      ghost var a := if |line| == 0 && !zone then [Minor(filepath, lineNb, OnlyOneBreakText)] else [];
      ghost var b := if !isVarDecl && |line| > 0 && zone then [Minor(filepath, lineNb, SeparateText)] else [];
      ghost var c := if isVarDecl && !zone then [Minor(filepath, lineNb, BeginningText)] else [];
      ghost var r0 := moulinette.reported;
      if |line| == 0 && !flag {
        moulinette.AddNormViolation(OnlyOneBreakText, filepath, lineNb, Types.Minor);
      }
      ghost var r1 := moulinette.reported;
      assert r1 == r0 + a;
      if !isVarDecl {
        if |line| > 0 && flag {
          moulinette.AddNormViolation(SeparateText, filepath, lineNb, Types.Minor);
        }
        flag := false;
      }
      ghost var r2 := moulinette.reported;
      assert r2 == r1 + b;
      if isVarDecl && !flag {
        moulinette.AddNormViolation(BeginningText, filepath, lineNb, Types.Minor);
      }
      assert moulinette.reported == r2 + c;
      ghost var k := KeywordReportsAmong(filepath, lineNb, line, keywords);
      CheckKeywords(filepath, lineNb, line, keywords);
      AppendAssoc5(old(moulinette.reported), d, a, b, c, k);
    }

    /** The keyword check of one stripped body line. */
    method CheckKeywords(filepath: string, lineNb: int, line: string, keywords: seq<string>)
      modifies moulinette
      ensures moulinette.reported
           == old(moulinette.reported) + KeywordReportsAmong(filepath, lineNb, line, keywords)
    {
      for k := 0 to |keywords|
        invariant moulinette.reported
               == old(moulinette.reported) + KeywordReportsAmong(filepath, lineNb, line, keywords[..k])
      {
        assert keywords[..k + 1][..k] == keywords[..k];
        var kp := Find(line, keywords[k] + "(", 0);
        if kp != -1 {
          moulinette.AddNormViolation(MissingSpaceText(keywords[k]), filepath, lineNb, Types.Minor);
        }
      }
      assert keywords[..|keywords|] == keywords;
    }

    /** The parameter check: the text between the first "(" and the first ")"
        of the prototype line is empty, or has more than four comma-separated
        parts. */
    method CheckArity(filepath: string, funcLine: int, funcDecl: string)
      modifies moulinette
      ensures moulinette.reported == old(moulinette.reported) + ArityReports(filepath, funcLine, funcDecl)
    {
      var declParams := Slice(funcDecl, Find(funcDecl, "(", 0) + 1, Find(funcDecl, ")", 0));
      var paramCount := |Split(declParams, ',')|;
      if |declParams| == 0 {
        moulinette.AddNormViolation(VoidText, filepath, funcLine, Types.Major);
      } else if paramCount > MaxParams {
        moulinette.AddNormViolation(TooManyParamsText(paramCount), filepath, funcLine, Types.Major);
      }
    }

    /** The body loop over the cells after the function's number, line by line
        with the declaration-zone flag. A number among the cells stops it
        (`completed` is false), after the lines before it were checked. */
    method CheckBody(filepath: string, funcLine: int, cells: seq<Cell>, keywords: seq<string>)
      returns (completed: bool)
      modifies moulinette
      ensures completed == (|LeadingTexts(cells)| == |cells|)
      ensures moulinette.reported
           == old(moulinette.reported) + Flatten(BodyGroups(filepath, funcLine, LeadingTexts(cells), keywords))
    {
      var variableDecl := false;
      ghost var body: seq<string> := [];
      ghost var start := moulinette.reported;
      var i := 1;
      while i <= |cells|
        invariant 1 <= i <= |cells| + 1 && |body| == i - 1
        invariant forall k :: 0 <= k < |body| ==> cells[k] == Text(body[k])
        invariant i > 1 ==> variableDecl == AllDecl(body)
        invariant moulinette.reported == start + Flatten(BodyGroups(filepath, funcLine, body, keywords))
      {
        if cells[i - 1].Num? {
          LeadingTextsOf(cells, body);
          return false;
        }
        var s := cells[i - 1].s;
        var line := Strip(s);
        var lineNb := funcLine + i + 1;
        ghost var before := Flatten(BodyGroups(filepath, funcLine, body, keywords));
        ghost var flagBefore := variableDecl;
        variableDecl := CheckBodyLine(filepath, lineNb, line, i == 1, variableDecl, keywords);
        BodyStep(filepath, funcLine, body, s, keywords, lineNb, i == 1, flagBefore);
        AppendAssoc(start, before, LineReports(filepath, lineNb, line, i == 1, flagBefore, keywords));
        ghost var longer := body + [s];
        forall k | 0 <= k < |longer|
          ensures cells[k] == Text(longer[k])
        {
          if k < |body| {
            assert longer[k] == body[k];
          }
        }
        body := longer;
        i := i + 1;
      }
      LeadingTextsOf(cells, body);
      return true;
    }

    /** Checks one function: the parameter count, the body, then (when the body
        was read to its end) length and spacing. */
    method CheckFunction(filepath: string, lines: seq<string>, f: seq<Cell>, keywords: seq<string>) returns (completed: bool)
      requires Headed(f, lines)
      modifies moulinette
      ensures completed == Completes(f)
      ensures moulinette.reported == old(moulinette.reported) + FunctionReports(filepath, lines, f, keywords)
    {
      var funcSize := |f| - 1;
      var funcLine := f[0].n;
      ghost var start := moulinette.reported;
      ghost var arity := ArityReports(filepath, funcLine, At(lines, funcLine - 1));
      ghost var bodyReports := Flatten(BodyGroups(filepath, funcLine, LeadingTexts(f[1..]), keywords));
      ghost var tail := LengthReports(filepath, funcLine, funcSize) + SpacingReports(filepath, lines, funcLine, funcSize);
      CheckArity(filepath, funcLine, At(lines, funcLine - 1));
      completed := CheckBody(filepath, funcLine, f[1..], keywords);
      AppendAssoc(start, arity, bodyReports);
      if !completed {
        FunctionReportsStopped(filepath, lines, f, keywords, arity, bodyReports);
        return;
      }
      FunctionReportsComplete(filepath, lines, f, keywords, arity, bodyReports, tail);
      CheckSize(filepath, lines, funcLine, funcSize);
      AppendAssoc(start, arity + bodyReports, tail);
    }

    /** The length check, then the spacing check on the two lines after the
        closing brace. */
    method CheckSize(filepath: string, lines: seq<string>, funcLine: int, funcSize: nat)
      requires 0 <= funcLine
      modifies moulinette
      ensures moulinette.reported == old(moulinette.reported)
        + (LengthReports(filepath, funcLine, funcSize) + SpacingReports(filepath, lines, funcLine, funcSize))
    {
      if funcSize > MaxFuncLines {
        moulinette.AddNormViolation(TooLongText(funcSize), filepath, funcLine, Types.Major);
      }
      var funcLineEnd := funcLine + funcSize + 3;
      if funcLineEnd + 1 <= |lines| {
        if |lines[funcLineEnd - 1]| == 0 && |lines[funcLineEnd]| == 0 {
          moulinette.AddNormViolation(SpacingText, filepath, funcLineEnd, Types.Minor);
        }
      }
      AppendAssoc(old(moulinette.reported), LengthReports(filepath, funcLine, funcSize),
        SpacingReports(filepath, lines, funcLine, funcSize));
    }

    /** The handler's function checks over the whole file: split, check each
        function in turn, then the function count. `completed` is false when a
        function stopped the run. */
    method CFunctions(filepath: string, lines: seq<string>) returns (completed: bool)
      modifies moulinette
      ensures completed == AllComplete(Splitting(lines).funcs)
      ensures moulinette.reported
           == old(moulinette.reported) + CommentReports(filepath, lines) + CFunctionsReports(filepath, lines)
    {
      var funcs := SplitFunctions(filepath, lines);
      CFunctionsReportsParts(filepath, lines);
      ghost var start := moulinette.reported;
      completed := CheckFunctions(filepath, lines, funcs, CKeywords);
      if !completed {
        return;
      }
      var funcNb := |funcs|;
      if funcNb > MaxFuncs {
        moulinette.AddNormViolation(TooManyFunctionsText(funcNb), filepath, 0, Types.Major);
        AppendAssoc(start, FunctionsReports(filepath, lines, funcs, CKeywords),
          [Major(filepath, 0, TooManyFunctionsText(funcNb))]);
      }
    }

    /** Checks the functions in order, stopping after the first one that does
        not complete; the reports are those of every function up to it. */
    method CheckFunctions(filepath: string, lines: seq<string>, funcs: seq<seq<Cell>>, keywords: seq<string>)
      returns (completed: bool)
      requires forall j :: 0 <= j < |funcs| ==> Headed(funcs[j], lines)
      modifies moulinette
      ensures completed == AllComplete(funcs)
      ensures moulinette.reported == old(moulinette.reported) + FunctionsReports(filepath, lines, funcs, keywords)
    {
      for k := 0 to |funcs|
        invariant AllComplete(funcs[..k])
        invariant moulinette.reported == old(moulinette.reported) + FunctionsReports(filepath, lines, funcs[..k], keywords)
      {
        ghost var prev := FunctionsReports(filepath, lines, funcs[..k], keywords);
        var c := CheckFunction(filepath, lines, funcs[k], keywords);
        FunctionsReportsSnoc(filepath, lines, funcs, keywords, k);
        AppendAssoc(old(moulinette.reported), prev, FunctionReports(filepath, lines, funcs[k], keywords));
        if !c {
          FunctionsReportsStop(filepath, lines, funcs, keywords, k);
          return false;
        }
      }
      assert funcs[..|funcs|] == funcs;
      return true;
    }
  }
}
