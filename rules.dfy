/**
 * What each check of the C checker reports, as a function of the file's
 * lines: the header banner, the three line-by-line rules (width, indentation,
 * trailing white space), the file-name rule, the per-function rules and the
 * function-count limit. The methods of `Engine.SourceFile` are proved to
 * append exactly these messages.
 */
module Rules {
  import opened Wrappers
  import opened PyStr
  import opened Types
  import opened Banner
  import opened Prototype
  import opened Extraction
  import opened CommentRule

  const IndentSize: nat := 4
  const MaxColumns: nat := 80
  const MaxFuncs: nat := 5
  const MaxFuncLines: nat := 20
  const MaxFuncArgs: nat := 4

  /** The line numbers the messages are reported at, in order. */
  function LinesOf(ms: seq<NormMessage>): (r: seq<int>)
    ensures |r| == |ms| && forall k :: 0 <= k < |ms| ==> r[k] == ms[k].line
  {
    if ms == [] then [] else LinesOf(ms[..|ms| - 1]) + [ms[|ms| - 1].line]
  }

  // ---------------------------------------------------------------- header

  function MissingHeader(filename: string): NormMessage {
    NormMessage(filename, 0, "G1, missing header", Major)
  }

  /** One "invalid header" message per failing position, in the given order. */
  function InvalidHeader(filename: string, positions: seq<nat>): (r: seq<NormMessage>)
    ensures |r| == |positions|
    ensures forall k :: 0 <= k < |r| ==> r[k] == NormMessage(filename, positions[k], "G1, invalid header", Major)
  {
    if positions == [] then []
    else InvalidHeader(filename, positions[..|positions| - 1])
         + [NormMessage(filename, positions[|positions| - 1], "G1, invalid header", Major)]
  }

  /** `check_header`: a file shorter than six lines, or one failing at every
      banner position, draws one "missing header"; otherwise each failing
      position draws an "invalid header" at that line. */
  function HeaderMessages(filename: string, lines: seq<string>, d: Delimiters): seq<NormMessage> {
    if |lines| < 6 then [MissingHeader(filename)]
    else
      var invalid := Failures(lines, d);
      if |invalid| >= 6 then [MissingHeader(filename)] else InvalidHeader(filename, invalid)
  }

  /** The failures from `from` on are all of `from`..6 exactly when every one of
      those positions fails. */
  lemma {:induction false} AllFailFrom(lines: seq<string>, d: Delimiters, from: nat)
    requires 1 <= from <= 7 && |lines| >= 6
    ensures |FailuresFrom(lines, d, from)| == 7 - from <==> forall p :: from <= p <= 6 ==> !PositionOk(lines, d, p)
    decreases 7 - from
  {
    if from < 7 {
      AllFailFrom(lines, d, from + 1);
    }
  }

  /** The header check reports "missing header" alone exactly when the file is
      shorter than six lines or fails at all six positions. */
  lemma HeaderMissingCollapse(filename: string, lines: seq<string>, d: Delimiters)
    ensures HeaderMessages(filename, lines, d) == [MissingHeader(filename)]
        <==> |lines| < 6 || forall p :: 1 <= p <= 6 ==> !PositionOk(lines, d, p)
  {
    if |lines| >= 6 {
      AllFailFrom(lines, d, 1);
      var invalid := Failures(lines, d);
      if |invalid| < 6 && invalid != [] {
        assert InvalidHeader(filename, invalid)[0] != MissingHeader(filename);
      }
    }
  }

  /** The "invalid header" messages are reported at exactly the given
      positions, in their order. */
  lemma {:induction false} InvalidHeaderLines(filename: string, positions: seq<nat>)
    ensures LinesOf(InvalidHeader(filename, positions)) == positions
  {
    var r := InvalidHeader(filename, positions);
    assert forall k :: 0 <= k < |r| ==> LinesOf(r)[k] == positions[k];
  }

  /** Otherwise the header check reports one "invalid header" per failing
      position, at that position: the failures are ascending, within 1..6, and
      hold every failing position and no other. */
  lemma HeaderInvalidPositions(filename: string, lines: seq<string>, d: Delimiters)
    requires |lines| >= 6 && exists p :: 1 <= p <= 6 && PositionOk(lines, d, p)
    ensures HeaderMessages(filename, lines, d) == InvalidHeader(filename, Failures(lines, d))
    ensures LinesOf(HeaderMessages(filename, lines, d)) == Failures(lines, d)
    ensures forall p :: 1 <= p <= 6 ==> (p in LinesOf(HeaderMessages(filename, lines, d)) <==> !PositionOk(lines, d, p))
  {
    FailuresFromMembers(lines, d, 1);
    FewFailures(lines, d);
    var invalid := Failures(lines, d);
    assert HeaderMessages(filename, lines, d) == InvalidHeader(filename, invalid);
    InvalidHeaderLines(filename, invalid);
  }

  lemma FewFailures(lines: seq<string>, d: Delimiters)
    requires |lines| >= 6 && exists p :: 1 <= p <= 6 && PositionOk(lines, d, p)
    ensures |Failures(lines, d)| < 6
  {
    var p :| 1 <= p <= 6 && PositionOk(lines, d, p);
    AllFailFrom(lines, d, 1);
  }

  // ------------------------------------------------------ line-by-line rules

  /** The three rules that look at one line at a time. */
  datatype LineRule = Columns | Indentation | TrailingWhitespace

  /** `len(line.rstrip()) - len(line.strip())`: the indentation measure. */
  function Indent(line: string): int {
    |RStrip(line)| - |Strip(line)|
  }

  /** Whether `rule` reports the line. */
  predicate Violates(rule: LineRule, line: string) {
    match rule
    case Columns => |line| + 1 > MaxColumns
    case Indentation => Indent(line) % IndentSize != 0
    case TrailingWhitespace => |RStrip(line)| < |line|
  }

  /** The message `rule` reports for a line it flags. */
  function RuleMessage(rule: LineRule, filename: string, lineNb: int, line: string): NormMessage {
    match rule
    case Columns =>
      NormMessage(filename, lineNb, "F3, too long line (" + NatToString(|line| + 1) + " columns)", Major)
    case Indentation => NormMessage(filename, lineNb, "L2, invalid indentation", Minor)
    case TrailingWhitespace => NormMessage(filename, lineNb, "L2, trailing whitespace", Minor)
  }

  /** The messages of `rule` over the lines, numbered from 1. */
  function RuleMessages(rule: LineRule, filename: string, lines: seq<string>): seq<NormMessage> {
    if lines == [] then []
    else
      var n := |lines|;
      RuleMessages(rule, filename, lines[..n - 1])
      + (if Violates(rule, lines[n - 1]) then [RuleMessage(rule, filename, n, lines[n - 1])] else [])
  }

  /** At most one message per line, each on a line of the file, in strictly
      ascending line order. */
  lemma {:induction false} RuleMessagesShape(rule: LineRule, filename: string, lines: seq<string>)
    ensures |RuleMessages(rule, filename, lines)| <= |lines|
    ensures forall k :: 0 <= k < |RuleMessages(rule, filename, lines)| ==>
      1 <= RuleMessages(rule, filename, lines)[k].line <= |lines|
    ensures forall i, j :: 0 <= i < j < |RuleMessages(rule, filename, lines)| ==>
      RuleMessages(rule, filename, lines)[i].line < RuleMessages(rule, filename, lines)[j].line
    decreases |lines|
  {
    if lines != [] {
      RuleMessagesShape(rule, filename, lines[..|lines| - 1]);
    }
  }

  /** One more line adds that line's message, numbered by its position. */
  lemma RuleMessagesStep(rule: LineRule, filename: string, lines: seq<string>, i: nat)
    requires i < |lines|
    ensures RuleMessages(rule, filename, lines[..i + 1])
      == RuleMessages(rule, filename, lines[..i])
       + (if Violates(rule, lines[i]) then [RuleMessage(rule, filename, i + 1, lines[i])] else [])
  {
    assert lines[..i + 1][..i] == lines[..i];
  }

  /** Each message of `rule` is the rule's message for a line the rule flags. */
  lemma {:induction false} RuleMessagesSound(rule: LineRule, filename: string, lines: seq<string>, k: nat)
    requires k < |RuleMessages(rule, filename, lines)|
    ensures var msg := RuleMessages(rule, filename, lines)[k];
      1 <= msg.line <= |lines| && Violates(rule, lines[msg.line - 1])
      && msg == RuleMessage(rule, filename, msg.line, lines[msg.line - 1])
    decreases |lines|
  {
    var m := |lines|;
    var init := lines[..m - 1];
    var head := RuleMessages(rule, filename, init);
    RuleMessagesShape(rule, filename, init);
    if k < |head| {
      RuleMessagesSound(rule, filename, init, k);
      assert init[head[k].line - 1] == lines[head[k].line - 1];
    }
  }

  /** Some message is reported at line `n`. */
  predicate HasLine(ms: seq<NormMessage>, n: int) {
    exists k :: 0 <= k < |ms| && ms[k].line == n
  }

  lemma HasLineAppend(a: seq<NormMessage>, b: seq<NormMessage>, n: int)
    ensures HasLine(a + b, n) <==> HasLine(a, n) || HasLine(b, n)
  {
    if HasLine(a + b, n) {
      var k :| 0 <= k < |a + b| && (a + b)[k].line == n;
      if k >= |a| {
        assert b[k - |a|].line == n;
      }
    }
    if HasLine(a, n) {
      var k :| 0 <= k < |a| && a[k].line == n;
      assert (a + b)[k].line == n;
    }
    if HasLine(b, n) {
      var k :| 0 <= k < |b| && b[k].line == n;
      assert (a + b)[|a| + k].line == n;
    }
  }

  /** A line draws a message of `rule` exactly when the rule flags it. */
  lemma {:induction false} RuleMessagesLines(rule: LineRule, filename: string, lines: seq<string>, n: nat)
    requires 1 <= n <= |lines|
    ensures HasLine(RuleMessages(rule, filename, lines), n) <==> Violates(rule, lines[n - 1])
    decreases |lines|
  {
    var m := |lines|;
    var init := lines[..m - 1];
    var head := RuleMessages(rule, filename, init);
    var tail := if Violates(rule, lines[m - 1]) then [RuleMessage(rule, filename, m, lines[m - 1])] else [];
    assert RuleMessages(rule, filename, lines) == head + tail;
    HasLineAppend(head, tail, n);
    if n < m {
      RuleMessagesLines(rule, filename, init, n);
      assert init[n - 1] == lines[n - 1];
      assert !HasLine(tail, n);
    } else {
      RuleMessagesShape(rule, filename, init);
      assert !HasLine(head, n);
      if tail != [] {
        assert tail[0].line == n;
      }
    }
  }

  /** The width limit counts the stripped newline: a 79-character line is
      accepted and an 80-character line is reported as 81 columns wide. */
  lemma ColumnBoundary(filename: string, line: string)
    ensures |line| == 79 ==> RuleMessages(Columns, filename, [line]) == []
    ensures |line| == 80 ==> (
      RuleMessages(Columns, filename, [line]) == [NormMessage(filename, 1, "F3, too long line (81 columns)", Major)])
  {
    assert [line][..0] == [];
    assert NatToString(81) == "81" by {
      assert NatToString(8) == "8";
      assert DigitChar(1) == '1';
    }
    assert "F3, too long line (" + "81" + " columns)" == "F3, too long line (81 columns)";
  }

  /** For a line with some visible character, the indentation measure is the
      number of leading white-space characters. */
  lemma IndentIsLeadingSpace(line: string)
    requires !AllSpace(line)
    ensures Indent(line) == |line| - |LStrip(line)|
  {
    RStripMinusStrip(line);
  }

  /** A line of white space only is never reported for its indentation, and is
      reported for trailing white space unless it is empty. */
  lemma BlankLineRules(line: string)
    requires AllSpace(line)
    ensures !Violates(Indentation, line)
    ensures Violates(TrailingWhitespace, line) <==> line != []
  {
    RStripMinusStrip(line);
    RStripAllSpace(line);
  }

  // ------------------------------------------------------------- file name

  /** `check_filename` on the file's stem. */
  function FilenameMessages(filename: string, stem: string): seq<NormMessage> {
    if SnakeCase(stem) then []
    else [NormMessage(filename, 0, "O4, file name does not respect snake case convention", Major)]
  }

  // ---------------------------------------------------------- per function

  /** The name rule. */
  function NameMessages(filename: string, f: Function): seq<NormMessage> {
    if SnakeCase(f.Name()) then []
    else [NormMessage(filename, f.protoLine, "F2, function name does not respect snake case convention", Major)]
  }

  /** The arity rule: an empty parameter text asks for `(void)`; a list longer
      than the limit is too many parameters. */
  function ArityMessages(filename: string, protoLine: int, args: Option<seq<string>>): (r: seq<NormMessage>)
    ensures |r| <= 1
    ensures r == [] <==> args.Some? && |args.value| <= MaxFuncArgs
  {
    if args.None? then
      [NormMessage(filename, protoLine, "F5, a function with no parameters should take (void)", Major)]
    else if |args.value| > MaxFuncArgs then
      [NormMessage(filename, protoLine,
        "F5, function takes too many parameters (" + NatToString(|args.value|) + "/" + NatToString(MaxFuncArgs) + ")", Major)]
    else []
  }

  /** The length rule. */
  function LengthMessages(filename: string, f: Function): seq<NormMessage> {
    if |f.body| > MaxFuncLines then
      [NormMessage(filename, f.protoLine,
        "F4, too long function (" + NatToString(|f.body|) + "/" + NatToString(MaxFuncLines) + " lines)", Major)]
    else []
  }

  function CommentMessage(filename: string, lineNb: int): NormMessage {
    NormMessage(filename, lineNb, "F6, comment inside function", Minor)
  }

  /** One comment message per flagged marker among `markers`, in their order. */
  function CommentMessagesAmong(filename: string, lineNb: int, line: string, markers: seq<string>): seq<NormMessage> {
    if markers == [] then []
    else CommentMessagesAmong(filename, lineNb, line, markers[..|markers| - 1])
         + (if Flagged(line, markers[|markers| - 1]) then [CommentMessage(filename, lineNb)] else [])
  }

  /** One comment message per flagged marker, all alike. */
  lemma {:induction false} CommentMessagesShape(filename: string, lineNb: int, line: string, markers: seq<string>)
    ensures |CommentMessagesAmong(filename, lineNb, line, markers)| == FlaggedAmong(line, markers)
    ensures forall k :: 0 <= k < |CommentMessagesAmong(filename, lineNb, line, markers)| ==>
      CommentMessagesAmong(filename, lineNb, line, markers)[k] == CommentMessage(filename, lineNb)
  {
    if markers != [] {
      CommentMessagesShape(filename, lineNb, line, markers[..|markers| - 1]);
    }
  }

  /** The keywords that must be followed by a space, and the characters that
      must not follow them directly. */
  const Keywords: seq<string> := ["if", "for", "while", "return", "switch", "do"]
  const Trails: seq<string> := ["(", "{"]

  function KeywordMessage(filename: string, lineNb: int, keyword: string): NormMessage {
    NormMessage(filename, lineNb, "L3, missing space after '" + keyword + "'", Minor)
  }

  /** For one keyword: a message per trail it is directly followed by somewhere
      in the line. */
  function TrailMessages(filename: string, lineNb: int, line: string, keyword: string, trails: seq<string>): seq<NormMessage> {
    if trails == [] then []
    else TrailMessages(filename, lineNb, line, keyword, trails[..|trails| - 1])
         + (if Find(line, keyword + trails[|trails| - 1], 0) != -1 then [KeywordMessage(filename, lineNb, keyword)] else [])
  }

  /** At most one message per trail, each naming the keyword. */
  lemma {:induction false} TrailMessagesShape(filename: string, lineNb: int, line: string, keyword: string, trails: seq<string>)
    ensures |TrailMessages(filename, lineNb, line, keyword, trails)| <= |trails|
    ensures forall k :: 0 <= k < |TrailMessages(filename, lineNb, line, keyword, trails)| ==>
      TrailMessages(filename, lineNb, line, keyword, trails)[k] == KeywordMessage(filename, lineNb, keyword)
  {
    if trails != [] {
      TrailMessagesShape(filename, lineNb, line, keyword, trails[..|trails| - 1]);
    }
  }

  function KeywordMessagesAmong(filename: string, lineNb: int, line: string, keywords: seq<string>): seq<NormMessage> {
    if keywords == [] then []
    else KeywordMessagesAmong(filename, lineNb, line, keywords[..|keywords| - 1])
         + TrailMessages(filename, lineNb, line, keywords[|keywords| - 1], Trails)
  }

  /** At most two messages per keyword, each naming one of the keywords. */
  lemma {:induction false} KeywordMessagesShape(filename: string, lineNb: int, line: string, keywords: seq<string>)
    ensures |KeywordMessagesAmong(filename, lineNb, line, keywords)| <= 2 * |keywords|
    ensures forall k :: 0 <= k < |KeywordMessagesAmong(filename, lineNb, line, keywords)| ==>
      exists w :: w in keywords && KeywordMessagesAmong(filename, lineNb, line, keywords)[k] == KeywordMessage(filename, lineNb, w)
    ensures forall k :: 0 <= k < |KeywordMessagesAmong(filename, lineNb, line, keywords)| ==>
      KeywordMessagesAmong(filename, lineNb, line, keywords)[k].line == lineNb
  {
    if keywords != [] {
      var init := keywords[..|keywords| - 1];
      var w := keywords[|keywords| - 1];
      KeywordMessagesShape(filename, lineNb, line, init);
      TrailMessagesShape(filename, lineNb, line, w, Trails);
      var a := KeywordMessagesAmong(filename, lineNb, line, init);
      var r := KeywordMessagesAmong(filename, lineNb, line, keywords);
      forall k | 0 <= k < |r|
        ensures exists w' :: w' in keywords && r[k] == KeywordMessage(filename, lineNb, w')
      {
        if k < |a| {
          var w' :| w' in init && a[k] == KeywordMessage(filename, lineNb, w');
          assert w' in keywords;
        } else {
          assert w in keywords;
        }
      }
    }
  }

  /** One more trail adds that trail's test. */
  lemma TrailMessagesStep(prefix: seq<NormMessage>, filename: string, lineNb: int, line: string, keyword: string, t: nat)
    requires t < |Trails|
    ensures prefix + TrailMessages(filename, lineNb, line, keyword, Trails[..t + 1])
      == prefix + TrailMessages(filename, lineNb, line, keyword, Trails[..t])
       + (if Find(line, keyword + Trails[t], 0) != -1 then [KeywordMessage(filename, lineNb, keyword)] else [])
  {
    assert Trails[..t + 1][..t] == Trails[..t];
  }

  /** One more keyword adds that keyword's trail tests. */
  lemma KeywordMessagesStep(prefix: seq<NormMessage>, filename: string, lineNb: int, line: string, w: nat)
    requires w < |Keywords|
    ensures prefix + KeywordMessagesAmong(filename, lineNb, line, Keywords[..w + 1])
      == prefix + KeywordMessagesAmong(filename, lineNb, line, Keywords[..w])
       + TrailMessages(filename, lineNb, line, Keywords[w], Trails)
  {
    assert Keywords[..w + 1][..w] == Keywords[..w];
  }

  /** What one body line draws: comment messages, then keyword messages, both
      on the stripped line. */
  function LineMessages(filename: string, lineNb: int, line: string): seq<NormMessage> {
    var s := Strip(line);
    CommentMessagesAmong(filename, lineNb, s, Markers) + KeywordMessagesAmong(filename, lineNb, s, Keywords)
  }

  /** A body line draws at most 3 comment messages and at most 12 keyword
      messages. */
  lemma LineMessageBounds(filename: string, lineNb: int, line: string)
    ensures var s := Strip(line);
      |CommentMessagesAmong(filename, lineNb, s, Markers)| <= 3
      && |KeywordMessagesAmong(filename, lineNb, s, Keywords)| <= 12
  {
    var s := Strip(line);
    CommentMessagesShape(filename, lineNb, s, Markers);
    KeywordMessagesShape(filename, lineNb, s, Keywords);
  }

  /** The messages of the first `n` body lines, the first one being line `first`. */
  function BodyMessages(filename: string, first: int, body: seq<string>, n: nat): seq<NormMessage>
    requires n <= |body|
  {
    if n == 0 then []
    else BodyMessages(filename, first, body, n - 1) + LineMessages(filename, first + n - 1, body[n - 1])
  }

  /** Every message of the first `n` body lines is on one of those lines. */
  lemma {:induction false} BodyMessagesLines(filename: string, first: int, body: seq<string>, n: nat)
    requires n <= |body|
    ensures forall k :: 0 <= k < |BodyMessages(filename, first, body, n)| ==>
      first <= BodyMessages(filename, first, body, n)[k].line < first + n
  {
    if n > 0 {
      BodyMessagesLines(filename, first, body, n - 1);
      var s := Strip(body[n - 1]);
      CommentMessagesShape(filename, first + n - 1, s, Markers);
      KeywordMessagesShape(filename, first + n - 1, s, Keywords);
    }
  }

  /** Regrouping appended message lists. */
  lemma Regroup(a: seq<NormMessage>, b: seq<NormMessage>, c: seq<NormMessage>, d: seq<NormMessage>)
    ensures a + (b + (c + d)) == a + b + c + d
  {
  }

  lemma Regroup3(a: seq<NormMessage>, b: seq<NormMessage>, c: seq<NormMessage>)
    ensures a + (b + c) == a + b + c
  {
  }

  lemma Regroup5(a: seq<NormMessage>, b: seq<NormMessage>, c: seq<NormMessage>, d: seq<NormMessage>, e: seq<NormMessage>)
    ensures a + (b + c + d + e) == a + b + c + d + e
  {
  }

  /** One more body line adds that line's messages. */
  lemma BodyMessagesStep(prefix: seq<NormMessage>, filename: string, first: int, body: seq<string>, i: nat)
    requires i < |body|
    ensures prefix + BodyMessages(filename, first, body, i + 1)
         == prefix + BodyMessages(filename, first, body, i) + LineMessages(filename, first + i, body[i])
  {
    Regroup3(prefix, BodyMessages(filename, first, body, i), LineMessages(filename, first + i, body[i]));
  }

  /** `check_function`: name, arity, length, then the body lines. */
  function FunctionMessages(filename: string, f: Function): seq<NormMessage> {
    NameMessages(filename, f) + ArityMessages(filename, f.protoLine, f.Args())
    + LengthMessages(filename, f) + BodyMessages(filename, f.firstLine, f.body, |f.body|)
  }

  /** The messages of all the functions, in order. */
  function AllFunctionMessages(filename: string, fs: seq<Function>): seq<NormMessage> {
    if fs == [] then [] else AllFunctionMessages(filename, fs[..|fs| - 1]) + FunctionMessages(filename, fs[|fs| - 1])
  }

  /** The messages of a function, after those already reported. */
  lemma FunctionMessagesAfter(prefix: seq<NormMessage>, filename: string, f: Function)
    ensures prefix + FunctionMessages(filename, f)
         == prefix + NameMessages(filename, f) + ArityMessages(filename, f.protoLine, f.Args())
          + LengthMessages(filename, f) + BodyMessages(filename, f.firstLine, f.body, |f.body|)
  {
    Regroup5(prefix, NameMessages(filename, f), ArityMessages(filename, f.protoLine, f.Args()),
      LengthMessages(filename, f), BodyMessages(filename, f.firstLine, f.body, |f.body|));
  }

  /** The messages of all functions grow by the last one's. */
  lemma AllFunctionMessagesLast(filename: string, fs: seq<Function>, k: nat)
    requires k < |fs|
    ensures AllFunctionMessages(filename, fs[..k + 1])
         == AllFunctionMessages(filename, fs[..k]) + FunctionMessages(filename, fs[k])
  {
    var longer := fs[..k + 1];
    assert longer[..|longer| - 1] == fs[..k];
  }

  /** One more function adds its messages. */
  lemma AllFunctionMessagesStep(prefix: seq<NormMessage>, filename: string, fs: seq<Function>, k: nat)
    requires k < |fs|
    ensures prefix + AllFunctionMessages(filename, fs[..k + 1])
         == prefix + AllFunctionMessages(filename, fs[..k]) + FunctionMessages(filename, fs[k])
  {
    AllFunctionMessagesLast(filename, fs, k);
    Regroup3(prefix, AllFunctionMessages(filename, fs[..k]), FunctionMessages(filename, fs[k]));
  }

  /** The function-count rule. */
  function CountMessages(filename: string, count: nat): (r: seq<NormMessage>)
    ensures |r| <= 1
    ensures r != [] <==> count > MaxFuncs
    ensures r != [] ==> r[0].line == 0 && r[0].severity == Major
  {
    if count > MaxFuncs then
      [NormMessage(filename, 0, "O3, too many functions (" + NatToString(count) + "/" + NatToString(MaxFuncs) + ")", Major)]
    else []
  }

  /** An empty parameter text gives the `(void)` message and nothing about the
      count; `void` and a short list give neither. */
  lemma ArityCases(filename: string, protoLine: int, args: Option<seq<string>>)
    ensures args.None? ==> (|ArityMessages(filename, protoLine, args)| == 1
      && ArityMessages(filename, protoLine, args)[0].message == "F5, a function with no parameters should take (void)")
    ensures args == Some([]) ==> ArityMessages(filename, protoLine, args) == []
  {
  }
}
