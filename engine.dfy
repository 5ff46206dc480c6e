/**
 * The checking engine: a source file object holding its lines and the
 * messages its checks append. One class stands for the checker's class
 * family; the kind of file decides the banner delimiters, which checks exist
 * and what `CheckFile` runs:
 *
 *   Source       header and width only, with the C banner
 *   MakefileKind header and width only, with the Makefile banner
 *   Header       (`.h`) adds the file-name, indentation and trailing-space rules
 *   CSource      (`.c`) also extracts the functions first, checks their count
 *                and runs the per-function rules
 */
module Engine {
  import opened Wrappers
  import opened PyStr
  import opened Types
  import opened Banner
  import opened Prototype
  import opened Extraction
  import opened CommentRule
  import opened Rules
  import opened Report

  datatype FileKind = Source | MakefileKind | Header | CSource
  {
    /** The kinds that have the C-specific checks. */
    predicate HasCChecks() {
      this == Header || this == CSource
    }

    function Delims(): Delimiters {
      if this == MakefileKind then MakefileStyle else CStyle
    }
  }

  /** The tab size lines are loaded with: each tab becomes one space. */
  const TabSize: nat := 1

  /** Line loading: the newlines removed, then the tabs expanded. */
  function NormaliseLine(raw: string): (line: string)
    ensures '\n' !in line && '\t' !in line
    ensures |line| == |raw| - Count(raw, '\n')
  {
    var s := RemoveAll(raw, '\n');
    ExpandTabsOne(s, 0);
    ExpandTabs(s, TabSize)
  }

  function NormaliseLines(raw: seq<string>): (lines: seq<string>)
    ensures |lines| == |raw| && forall k :: 0 <= k < |raw| ==> lines[k] == NormaliseLine(raw[k])
  {
    seq(|raw|, k requires 0 <= k < |raw| => NormaliseLine(raw[k]))
  }

  /** The checks every kind runs: the banner and the column width. */
  function CommonMessages(kind: FileKind, filename: string, lines: seq<string>): seq<NormMessage> {
    HeaderMessages(filename, lines, kind.Delims()) + RuleMessages(Columns, filename, lines)
  }

  /** The checks `.h` and `.c` files add: the file name, indentation and
      trailing white space. */
  function CCheckMessages(filename: string, stem: string, lines: seq<string>): seq<NormMessage> {
    FilenameMessages(filename, stem) + RuleMessages(Indentation, filename, lines)
      + RuleMessages(TrailingWhitespace, filename, lines)
  }

  /** The checks on the extracted functions of a `.c` file: their number, then
      each function in order. */
  function FunctionsMessages(filename: string, fs: seq<Function>): seq<NormMessage> {
    CountMessages(filename, |fs|) + AllFunctionMessages(filename, fs)
  }

  /** Every message the checks of a file of the given kind produce, in order. */
  function FileMessages(kind: FileKind, filename: string, stem: string, lines: seq<string>): seq<NormMessage> {
    var common := CommonMessages(kind, filename, lines);
    if !kind.HasCChecks() then common
    else
      var cchecks := common + CCheckMessages(filename, stem, lines);
      if kind == Header then cchecks
      else cchecks + FunctionsMessages(filename, ExtractFunctions(lines).functions)
  }

  /** `next()` on the iterator over the line indices, whose next index is
      `cursor`: the index and the new cursor, or exhaustion. */
  method Advance(count: nat, cursor: nat) returns (i: nat, next: nat, exhausted: bool)
    ensures exhausted <==> cursor >= count
    ensures !exhausted ==> i == cursor && next == cursor + 1
  {
    exhausted := cursor >= count;
    i, next := cursor, cursor + 1;
  }

  class SourceFile {
    const filename: string
    const stem: string
    const kind: FileKind
    const rawLines: seq<string>
    const lines: seq<string>
    var messages: seq<NormMessage>
    var functions: seq<Function>

    /** The file's name, the name without directory and extension, its kind and
        its lines as read. */
    constructor(filename: string, stem: string, kind: FileKind, rawLines: seq<string>)
      ensures this.filename == filename && this.stem == stem && this.kind == kind
      ensures this.rawLines == rawLines && lines == NormaliseLines(rawLines)
      ensures messages == [] && functions == []
    {
      this.filename := filename;
      this.stem := stem;
      this.kind := kind;
      this.rawLines := rawLines;
      this.lines := NormaliseLines(rawLines);
      messages := [];
      functions := [];
    }

    method AppendMessage(line: int, message: string, severity: Severity)
      modifies this
      ensures messages == old(messages) + [NormMessage(filename, line, message, severity)]
      ensures functions == old(functions)
    {
      messages := messages + [NormMessage(filename, line, message, severity)];
    }

    /** `print_messages`: sorts the messages by line when asked (a stable sort),
        then returns the text of those that are printed. */
    method PrintMessages(includeOk: bool, sortByLine: bool) returns (printed: seq<string>)
      modifies this
      ensures messages == if sortByLine then SortByLine(old(messages)) else old(messages)
      ensures printed == Printed(messages, includeOk)
      ensures functions == old(functions)
    {
      if sortByLine {
        messages := SortByLine(messages);
      }
      printed := [];
      for i := 0 to |messages|
        invariant printed == Printed(messages[..i], includeOk)
      {
        var message := messages[i];
        assert messages[..i + 1][..i] == messages[..i];
        if !message.IsOk() || includeOk {
          printed := printed + [message.ToString()];
        }
      }
      assert messages[..|messages|] == messages;
    }

    /** `norm_ok`: whether no message reports a violation. */
    method NormOk() returns (ok: bool)
      ensures ok <==> AllOk(messages)
    {
      for i := 0 to |messages|
        invariant AllOk(messages[..i])
      {
        if !messages[i].IsOk() {
          return false;
        }
        assert messages[..i + 1] == messages[..i] + [messages[i]];
      }
      assert messages[..|messages|] == messages;
      return true;
    }

    /** `check_header`. */
    method CheckHeader()
      modifies this
      ensures messages == old(messages) + HeaderMessages(filename, lines, kind.Delims())
      ensures functions == old(functions)
    {
      var d := kind.Delims();
      if |lines| < 6 {
        AppendMessage(0, "G1, missing header", Major);
        return;
      }
      var invalid := FailingPositions(lines, d);
      if |invalid| >= 6 {
        AppendMessage(0, "G1, missing header", Major);
      } else {
        AppendInvalidHeader(invalid);
      }
    }

    /** The loop of `check_header` over the failing positions: one "invalid header"
        per position, in order. */
    method AppendInvalidHeader(invalid: seq<nat>)
      modifies this
      ensures messages == old(messages) + InvalidHeader(filename, invalid)
      ensures functions == old(functions)
    {
      for k := 0 to |invalid|
        invariant messages == old(messages) + InvalidHeader(filename, invalid[..k])
        invariant functions == old(functions)
      {
        assert invalid[..k + 1][..k] == invalid[..k];
        assert InvalidHeader(filename, invalid[..k + 1])
            == InvalidHeader(filename, invalid[..k]) + [NormMessage(filename, invalid[k], "G1, invalid header", Major)];
        AppendMessage(invalid[k], "G1, invalid header", Major);
      }
      assert invalid[..|invalid|] == invalid;
    }

    /** `check_columns`. */
    method CheckColumns()
      modifies this
      ensures messages == old(messages) + RuleMessages(Columns, filename, lines)
      ensures functions == old(functions)
    {
      var lineNb := 1;
      for i := 0 to |lines|
        invariant lineNb == i + 1
        invariant messages == old(messages) + RuleMessages(Columns, filename, lines[..i])
        invariant functions == old(functions)
      {
        RuleMessagesStep(Columns, filename, lines, i);
        var line := lines[i];
        var lineLen := |line| + 1;
        if lineLen > MaxColumns {
          AppendMessage(lineNb, "F3, too long line (" + NatToString(lineLen) + " columns)", Major);
        }
        lineNb := lineNb + 1;
      }
      assert lines[..|lines|] == lines;
    }

    /** `check_filename`, on the file's stem. */
    method CheckFilename()
      requires kind.HasCChecks()
      modifies this
      ensures messages == old(messages) + FilenameMessages(filename, stem)
      ensures functions == old(functions)
    {
      if !SnakeCase(stem) {
        AppendMessage(0, "O4, file name does not respect snake case convention", Major);
      }
    }

    /** `check_indent`. */
    method CheckIndent()
      requires kind.HasCChecks()
      modifies this
      ensures messages == old(messages) + RuleMessages(Indentation, filename, lines)
      ensures functions == old(functions)
    {
      var lineNb := 1;
      for i := 0 to |lines|
        invariant lineNb == i + 1
        invariant messages == old(messages) + RuleMessages(Indentation, filename, lines[..i])
        invariant functions == old(functions)
      {
        RuleMessagesStep(Indentation, filename, lines, i);
        var line := lines[i];
        var lineIndent := Indent(line);
        assert Violates(Indentation, line) <==> lineIndent % IndentSize != 0;
        if lineIndent % IndentSize != 0 {
          AppendMessage(lineNb, "L2, invalid indentation", Minor);
        }
        lineNb := lineNb + 1;
      }
      assert lines[..|lines|] == lines;
    }

    /** `check_trailing_whitespace`. */
    method CheckTrailingWhitespace()
      requires kind.HasCChecks()
      modifies this
      ensures messages == old(messages) + RuleMessages(TrailingWhitespace, filename, lines)
      ensures functions == old(functions)
    {
      var lineNb := 1;
      for i := 0 to |lines|
        invariant lineNb == i + 1
        invariant messages == old(messages) + RuleMessages(TrailingWhitespace, filename, lines[..i])
        invariant functions == old(functions)
      {
        RuleMessagesStep(TrailingWhitespace, filename, lines, i);
        var line := lines[i];
        if |RStrip(line)| < |line| {
          AppendMessage(lineNb, "L2, trailing whitespace", Minor);
        }
        lineNb := lineNb + 1;
      }
      assert lines[..|lines|] == lines;
    }

    /** `extract_functions`: one pass over the line indices; the code reading a
        function advances the same iterator, and asking the exhausted iterator
        for a line ends the pass with `complete == false`. The functions found
        before that point are kept. `ExtractFunctions(lines)` is `Scan(lines, 0)`. */
    method ExtractFunctions() returns (complete: bool)
      requires kind.HasCChecks()
      modifies this
      ensures functions == Scan(lines, 0).functions && complete == Scan(lines, 0).complete
      ensures messages == old(messages)
    {
      var ls := lines;
      functions := [];
      var cursor := 0;
      while cursor < |ls|
        invariant cursor <= |ls|
        invariant functions + Scan(ls, cursor).functions == Scan(ls, 0).functions
        invariant Scan(ls, cursor).complete == Scan(ls, 0).complete
        invariant messages == old(messages)
        decreases |ls| - cursor
      {
        var step := ReadFunctionAt(ls, cursor);
        match step
        case NoPrototype =>
          ScanNoPrototype(ls, cursor);
          cursor := cursor + 1;
        case Truncated =>
          ScanTruncated(ls, cursor);
          return false;
        case Found(f, resume) =>
          ScanFound(functions, ls, cursor);
          functions := functions + [f];
          cursor := resume;
      }
      return true;
    }

    /** `check_function`: the name, arity and length rules, then, for each body
        line stripped of surrounding white space, the comment and keyword rules. */
    method CheckFunction(f: Function)
      requires kind.HasCChecks()
      modifies this
      ensures messages == old(messages) + FunctionMessages(filename, f)
      ensures functions == old(functions)
    {
      CheckSignature(f);
      CheckBody(f.firstLine, f.body);
      FunctionMessagesAfter(old(messages), filename, f);
    }

    /** The first part of `check_function`: the rules on the name, the
        parameters and the number of body lines, all reported at the prototype
        line. */
    method CheckSignature(f: Function)
      modifies this
      ensures messages == old(messages) + NameMessages(filename, f)
        + ArityMessages(filename, f.protoLine, f.Args()) + LengthMessages(filename, f)
      ensures functions == old(functions)
    {
      CheckName(f);
      var args := f.Args();
      CheckArity(f.protoLine, args);
      CheckLength(f);
    }

    /** The snake-case rule on the extracted name. */
    method CheckName(f: Function)
      modifies this
      ensures messages == old(messages) + NameMessages(filename, f)
      ensures functions == old(functions)
    {
      if !SnakeCase(f.Name()) {
        AppendMessage(f.protoLine, "F2, function name does not respect snake case convention", Major);
      }
    }

    /** The arity rule on the extracted parameters. */
    method CheckArity(protoLine: nat, args: Option<seq<string>>)
      modifies this
      ensures messages == old(messages) + ArityMessages(filename, protoLine, args)
      ensures functions == old(functions)
    {
      var argsCount := if args.None? then 0 else |args.value|;
      if args.None? {
        AppendMessage(protoLine, "F5, a function with no parameters should take (void)", Major);
      } else if argsCount > MaxFuncArgs {
        AppendMessage(protoLine,
          "F5, function takes too many parameters (" + NatToString(argsCount) + "/" + NatToString(MaxFuncArgs) + ")", Major);
      }
    }

    /** The length rule on the number of body lines. */
    method CheckLength(f: Function)
      modifies this
      ensures messages == old(messages) + LengthMessages(filename, f)
      ensures functions == old(functions)
    {
      var linesCount := |f.body|;
      if linesCount > MaxFuncLines {
        AppendMessage(f.protoLine,
          "F4, too long function (" + NatToString(linesCount) + "/" + NatToString(MaxFuncLines) + " lines)", Major);
      }
    }

    /** The loop of `check_function` over the body lines, the first one being
        line `first`. */
    method CheckBody(first: int, body: seq<string>)
      modifies this
      ensures messages == old(messages) + BodyMessages(filename, first, body, |body|)
      ensures functions == old(functions)
    {
      ghost var start := messages;
      for i := 0 to |body|
        invariant messages == start + BodyMessages(filename, first, body, i)
        invariant functions == old(functions)
      {
        BodyMessagesStep(start, filename, first, body, i);
        CheckLine(first + i, body[i]);
      }
    }

    /** The two rules on one body line, both on the stripped line. */
    method CheckLine(lineNb: int, rawLine: string)
      modifies this
      ensures messages == old(messages) + LineMessages(filename, lineNb, rawLine)
      ensures functions == old(functions)
    {
      var line := Strip(rawLine);
      ghost var start := messages;
      CheckComments(lineNb, line);
      CheckKeywords(lineNb, line);
      Regroup3(start, CommentMessagesAmong(filename, lineNb, line, Markers), KeywordMessagesAmong(filename, lineNb, line, Keywords));
    }

    /** The comment rule on one stripped body line: the first occurrence of each
        marker, compared with the positions of the double quotes. */
    method CheckComments(lineNb: int, line: string)
      modifies this
      ensures messages == old(messages) + CommentMessagesAmong(filename, lineNb, line, Markers)
      ensures functions == old(functions)
    {
      var comments := seq(|Markers|, k requires 0 <= k < |Markers| => Find(line, Markers[k], 0));
      var dquotes := QuotePositions(line);
      for k := 0 to |comments|
        invariant messages == old(messages) + CommentMessagesAmong(filename, lineNb, line, Markers[..k])
        invariant functions == old(functions)
      {
        var comment := comments[k];
        assert Markers[..k + 1][..k] == Markers[..k];
        if comment == -1 {
          continue;
        }
        var lower, higher := QuotesAround(dquotes, comment);
        QuotePositionsAround(line, comment);
        if !(lower && higher) {
          AppendMessage(lineNb, "F6, comment inside function", Minor);
        }
      }
      assert Markers[..|Markers|] == Markers;
    }

    /** The keyword rule on one stripped body line: every keyword directly
        followed by a trail anywhere in the line. */
    method CheckKeywords(lineNb: int, line: string)
      modifies this
      ensures messages == old(messages) + KeywordMessagesAmong(filename, lineNb, line, Keywords)
      ensures functions == old(functions)
    {
      for w := 0 to |Keywords|
        invariant messages == old(messages) + KeywordMessagesAmong(filename, lineNb, line, Keywords[..w])
        invariant functions == old(functions)
      {
        var keyword := Keywords[w];
        KeywordMessagesStep(old(messages), filename, lineNb, line, w);
        ghost var before := messages;
        for t := 0 to |Trails|
          invariant messages == before + TrailMessages(filename, lineNb, line, keyword, Trails[..t])
          invariant functions == old(functions)
        {
          TrailMessagesStep(before, filename, lineNb, line, keyword, t);
          var kp := Find(line, keyword + Trails[t], 0);
          if kp != -1 {
            AppendMessage(lineNb, "L3, missing space after '" + keyword + "'", Minor);
          }
        }
        assert Trails[..|Trails|] == Trails;
      }
      assert Keywords[..|Keywords|] == Keywords;
    }

    /** `check_file` for the file's kind. A `.c` file extracts its functions
        first; when that ends on the exhausted iterator nothing is reported
        (`completed == false`). */
    method CheckFile() returns (completed: bool)
      modifies this
      ensures completed <==> kind != CSource || Scan(lines, 0).complete
      ensures completed ==> messages == old(messages) + FileMessages(kind, filename, stem, lines)
      ensures !completed ==> messages == old(messages)
      ensures kind == CSource ==> functions == Scan(lines, 0).functions
      ensures kind != CSource ==> functions == old(functions)
    {
      if kind == CSource {
        var complete := ExtractFunctions();
        if !complete {
          return false;
        }
      }
      ghost var start := messages;
      CheckCommon();
      if kind.HasCChecks() {
        ghost var common := messages;
        CheckCDefs();
        Regroup3(start, CommonMessages(kind, filename, lines), CCheckMessages(filename, stem, lines));
        if kind == CSource {
          CheckFunctions();
          Regroup3(start, CommonMessages(kind, filename, lines) + CCheckMessages(filename, stem, lines),
                   FunctionsMessages(filename, functions));
        }
      }
      return true;
    }

    /** The part of `check_file` shared by every kind. */
    method CheckCommon()
      modifies this
      ensures messages == old(messages) + CommonMessages(kind, filename, lines)
      ensures functions == old(functions)
    {
      CheckHeader();
      CheckColumns();
    }

    /** The checks `HFile` and `CFile` add after the shared part. */
    method CheckCDefs()
      requires kind.HasCChecks()
      modifies this
      ensures messages == old(messages) + CCheckMessages(filename, stem, lines)
      ensures functions == old(functions)
    {
      ghost var start := messages;
      CheckFilename();
      CheckIndent();
      CheckTrailingWhitespace();
      Regroup(start, FilenameMessages(filename, stem), RuleMessages(Indentation, filename, lines),
              RuleMessages(TrailingWhitespace, filename, lines));
    }

    /** The function-count limit, then `check_function` on each extracted function. */
    method CheckFunctions()
      requires kind.HasCChecks()
      modifies this
      ensures messages == old(messages) + FunctionsMessages(filename, functions)
      ensures functions == old(functions)
    {
      ghost var start := messages;
      CheckFunctionCount();
      CheckEachFunction();
      Regroup3(start, CountMessages(filename, |functions|), AllFunctionMessages(filename, functions));
    }

    /** More than `MaxFuncs` functions draws one O3 at line 0. */
    method CheckFunctionCount()
      modifies this
      ensures messages == old(messages) + CountMessages(filename, |functions|)
      ensures functions == old(functions)
    {
      var funcsNb := |functions|;
      if funcsNb > MaxFuncs {
        AppendMessage(0, "O3, too many functions (" + NatToString(funcsNb) + "/" + NatToString(MaxFuncs) + ")", Major);
      }
    }

    /** `for function in self.functions: self.check_function(function)`. */
    method CheckEachFunction()
      requires kind.HasCChecks()
      modifies this
      ensures messages == old(messages) + AllFunctionMessages(filename, functions)
      ensures functions == old(functions)
    {
      var fs := functions;
      for k := 0 to |fs|
        invariant messages == old(messages) + AllFunctionMessages(filename, fs[..k])
        invariant functions == fs
      {
        AllFunctionMessagesStep(old(messages), filename, fs, k);
        CheckFunction(fs[k]);
      }
      assert fs[..|fs|] == fs;
    }
  }

  /** The reading done at line index `i` by the loop of `extract_functions`,
      with `next()` on the shared iterator modelled by `Advance`: a one-line
      prototype skips the brace line, a continued prototype collects lines up
      to the one starting with `{`, and then the body runs to the next line
      starting with `}`. An exhausted iterator gives `Truncated`. */
  method ReadFunctionAt(lines: seq<string>, i: nat) returns (step: Step)
    requires i < |lines|
    ensures step == FunctionAt(lines, i)
  {
    var line := lines[i];
    var lineNb := i + 1;
    var cursor := i + 1;
    var j, exhausted;
    if IsSinglePrototype(line) {
      j, cursor, exhausted := Advance(|lines|, cursor);
      if exhausted {
        return Truncated;
      }
      step := ReadBodyStep(lines, line, lineNb, lineNb + 2, cursor);
    } else if IsContinuedPrototype(line) {
      j, cursor, exhausted := Advance(|lines|, cursor);
      if exhausted {
        assert NextStarting(lines, i + 1, '{') == None;
        return Truncated;
      }
      var prototype, open := ReadContinuation(lines, j, line);
      if open.None? {
        return Truncated;
      }
      step := ReadBodyStep(lines, prototype, lineNb, open.value + 2, open.value + 1);
    } else {
      step := NoPrototype;
    }
  }

  /** The body loop: lines from index `b` are collected until one starts with `}`. */
  method ReadBodyStep(lines: seq<string>, prototype: string, protoLine: nat, firstLine: nat, b: nat)
    returns (step: Step)
    requires b <= |lines|
    ensures step == BodyFrom(lines, prototype, protoLine, firstLine, b)
  {
    var j, next, exhausted := Advance(|lines|, b);
    if exhausted {
      assert NextStarting(lines, b, '}') == None;
      return Truncated;
    }
    var body, close := ReadBody(lines, j);
    BodyFromRead(lines, prototype, protoLine, firstLine, b, body, close);
    if close.None? {
      return Truncated;
    }
    step := Found(Function(prototype, protoLine, firstLine, body), close.value + 1);
  }

  method FailingPositions(lines: seq<string>, d: Delimiters) returns (invalid: seq<nat>)
    requires |lines| >= 6
    ensures invalid == Failures(lines, d)
  {
    invalid := [];
    if lines[0] != d.start {
      invalid := invalid + [1];
    }
    assert invalid == FailuresUpTo(lines, d, 1);
    if !ProjectLineOk(lines[1], d.mid) {
      invalid := invalid + [2];
    }
    assert invalid == FailuresUpTo(lines, d, 2);
    if |RStrip(lines[2])| < |lines[2]| || !StartsWith(lines[2], d.mid) {
      invalid := invalid + [3];
    }
    assert invalid == FailuresUpTo(lines, d, 3);
    if lines[3] != d.mid + " File description:" {
      invalid := invalid + [4];
    }
    assert invalid == FailuresUpTo(lines, d, 4);
    if |RStrip(lines[4])| < |lines[4]| || !StartsWith(lines[4], d.mid) {
      invalid := invalid + [5];
    }
    assert invalid == FailuresUpTo(lines, d, 5);
    if lines[5] != d.end {
      invalid := invalid + [6];
    }
    assert invalid == FailuresUpTo(lines, d, 6);
    FailuresSplit(lines, d, 6);
    assert FailuresFrom(lines, d, 7) == [];
  }

  /** The continuation loop: from index `from`, each line up to one starting
      with `{` is appended to the prototype, after a space and stripped; `None`
      when the iterator runs out first. */
  method ReadContinuation(lines: seq<string>, from: nat, prototype: string) returns (full: string, open: Option<nat>)
    requires from < |lines|
    ensures open == NextStarting(lines, from, '{')
    ensures open.Some? ==> full == prototype + Continuation(lines[from..open.value])
  {
    var i := from;
    full := prototype;
    while !StartsWith(lines[i], "{")
      invariant from <= i < |lines|
      invariant full == prototype + Continuation(lines[from..i])
      invariant NextStarting(lines, from, '{') == NextStarting(lines, i, '{')
      decreases |lines| - i
    {
      ContinuationStep(lines, from, i, prototype);
      NextStartingSkip(lines, i, '{');
      full := full + " " + Strip(lines[i]);
      var next, cursor, exhausted := Advance(|lines|, i + 1);
      if exhausted {
        return full, None;
      }
      i := next;
    }
    return full, Some(i);
  }

  /** The body loop: from index `b`, the lines up to the next one starting with
      `}`; `None` when the iterator runs out first. */
  method ReadBody(lines: seq<string>, b: nat) returns (body: seq<string>, close: Option<nat>)
    requires b < |lines|
    ensures close == NextStarting(lines, b, '}')
    ensures close.Some? ==> body == lines[b..close.value]
  {
    var i := b;
    body := [];
    while !StartsWith(lines[i], "}")
      invariant b <= i < |lines|
      invariant body == lines[b..i]
      invariant NextStarting(lines, b, '}') == NextStarting(lines, i, '}')
      decreases |lines| - i
    {
      NextStartingSkip(lines, i, '}');
      body := body + [lines[i]];
      var next, cursor, exhausted := Advance(|lines|, i + 1);
      if exhausted {
        return body, None;
      }
      i := next;
    }
    return body, Some(i);
  }
}
