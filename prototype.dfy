/**
 * Reading a C function prototype: the two anchored patterns that recognise a
 * prototype on one line or the first line of one continued over several, the
 * snake-case test, and the extraction of the function name and of its
 * parameter list.
 */
module Prototype {
  import opened Wrappers
  import opened PyStr

  /** The character class `[a-zA-Z0-9_*]` of the prototype patterns. */
  predicate IsProtoChar(c: char) {
    'a' <= c <= 'z' || 'A' <= c <= 'Z' || '0' <= c <= '9' || c == '_' || c == '*'
  }

  predicate AllProto(s: string) {
    forall i :: 0 <= i < |s| ==> IsProtoChar(s[i])
  }

  /** The end of the longest run of class characters starting at `from`. */
  function ProtoRunEnd(s: string, from: nat): (r: nat)
    requires from <= |s|
    ensures from <= r <= |s|
    ensures forall i :: from <= i < r ==> IsProtoChar(s[i])
    ensures r < |s| ==> !IsProtoChar(s[r])
    decreases |s| - from
  {
    if from == |s| || !IsProtoChar(s[from]) then from else ProtoRunEnd(s, from + 1)
  }

  /** What the tail of a pattern, `<close>$`, accepts after the opening
      parenthesis: `.*` (anything but a newline), then `close`, then the end of
      the string or a final newline. */
  predicate EndsBeforeDollar(t: string, close: char) {
    (|t| >= 1 && t[|t| - 1] == close && '\n' !in t[..|t| - 1])
    || (|t| >= 2 && t[|t| - 2] == close && t[|t| - 1] == '\n' && '\n' !in t[..|t| - 2])
  }

  /** The anchored pattern `^([a-zA-Z0-9_*]*) ([a-zA-Z0-9_*]*)\((.*)<close>$`, read
      from left to right: as neither a space nor `(` is a class character, each
      group is the longest class run at its place. */
  predicate MatchesPrototype(line: string, close: char) {
    var k := ProtoRunEnd(line, 0);
    k < |line| && line[k] == ' ' &&
    var m := ProtoRunEnd(line, k + 1);
    m < |line| && line[m] == '(' && EndsBeforeDollar(line[m + 1..], close)
  }

  /** The same pattern as a description of the strings it matches: two class runs
      around one space, then `(`, then the accepted tail. */
  predicate PrototypeShape(line: string, close: char) {
    exists k, m :: 0 <= k < m < |line| && AllProto(line[..k]) && line[k] == ' '
      && AllProto(line[k + 1..m]) && line[m] == '(' && EndsBeforeDollar(line[m + 1..], close)
  }

  /** `AllProto` of a slice, index by index. */
  lemma AllProtoSlice(s: string, a: nat, b: nat)
    requires a <= b <= |s|
    ensures AllProto(s[a..b]) <==> forall i :: a <= i < b ==> IsProtoChar(s[i])
  {
    if forall i :: a <= i < b ==> IsProtoChar(s[i]) {
      forall j | 0 <= j < b - a ensures IsProtoChar(s[a..b][j]) {
        assert s[a..b][j] == s[a + j];
      }
    }
    if AllProto(s[a..b]) {
      forall i | a <= i < b ensures IsProtoChar(s[i]) {
        assert s[a..b][i - a] == s[i];
      }
    }
  }

  /** The scan stops at the first character outside the class. */
  lemma ProtoRunEndAt(s: string, from: nat, k: nat)
    requires from <= k < |s| && !IsProtoChar(s[k])
    requires forall i :: from <= i < k ==> IsProtoChar(s[i])
    ensures ProtoRunEnd(s, from) == k
  {
  }

  /** The scan and the description accept the same lines. */
  lemma MatchesPrototypeIff(line: string, close: char)
    ensures MatchesPrototype(line, close) <==> PrototypeShape(line, close)
  {
    if MatchesPrototype(line, close) {
      MatchesPrototypeHasShape(line, close);
    }
    if PrototypeShape(line, close) {
      var k, m :| 0 <= k < m < |line| && AllProto(line[..k]) && line[k] == ' '
        && AllProto(line[k + 1..m]) && line[m] == '(' && EndsBeforeDollar(line[m + 1..], close);
      ShapeIsMatched(line, close, k, m);
    }
  }

  lemma MatchesPrototypeHasShape(line: string, close: char)
    requires MatchesPrototype(line, close)
    ensures PrototypeShape(line, close)
  {
    var k := ProtoRunEnd(line, 0);
    var m := ProtoRunEnd(line, k + 1);
    AllProtoSlice(line, 0, k);
    AllProtoSlice(line, k + 1, m);
    assert line[..k] == line[0..k];
  }

  lemma ShapeIsMatched(line: string, close: char, k: nat, m: nat)
    requires 0 <= k < m < |line| && AllProto(line[..k]) && line[k] == ' '
    requires AllProto(line[k + 1..m]) && line[m] == '(' && EndsBeforeDollar(line[m + 1..], close)
    ensures MatchesPrototype(line, close)
  {
    assert line[..k] == line[0..k];
    AllProtoSlice(line, 0, k);
    ProtoRunEndAt(line, 0, k);
    AllProtoSlice(line, k + 1, m);
    ProtoRunEndAt(line, k + 1, m);
  }

  /** A prototype on one line: `type name(params)`. */
  predicate IsSinglePrototype(line: string) {
    MatchesPrototype(line, ')')
  }

  /** The first line of a prototype whose parameters go on: `type name(params,`. */
  predicate IsContinuedPrototype(line: string) {
    MatchesPrototype(line, ',')
  }

  /** No line is both. */
  lemma PrototypeKindsDisjoint(line: string)
    ensures !(IsSinglePrototype(line) && IsContinuedPrototype(line))
  {
  }

  /** The name group of a line the pattern matches. */
  function NameGroup(line: string): string
    requires MatchesPrototype(line, ')') || MatchesPrototype(line, ',')
  {
    var k := ProtoRunEnd(line, 0);
    line[k + 1..ProtoRunEnd(line, k + 1)]
  }

  /** `re.match("^([a-z0-9_]*)$", name)`: lower-case letters, digits and
      underscores only, allowing the final newline `$` accepts. */
  predicate SnakeCase(name: string) {
    var body := if |name| > 0 && name[|name| - 1] == '\n' then name[..|name| - 1] else name;
    forall i :: 0 <= i < |body| ==> 'a' <= body[i] <= 'z' || '0' <= body[i] <= '9' || body[i] == '_'
  }

  /** `extract_prototype_name`: the text after the first space up to the next
      `(`, without its stars, stripped. */
  function ExtractPrototypeName(prototype: string): (name: string)
    ensures '*' !in name
    ensures |name| <= |prototype|
  {
    var start := Find(prototype, " ", 0) + 1;
    var end := Find(prototype, "(", start);
    var r := Strip(RemoveAll(Slice(prototype, start, end), '*'));
    StripIsTrimmedSlice(RemoveAll(Slice(prototype, start, end), '*'));
    r
  }

  /** For a prototype whose first line the pattern matches (further lines may be
      appended), the extracted name is the name group without its stars. */
  lemma ExtractedNameIsGroup(line: string, rest: string)
    requires MatchesPrototype(line, ')') || MatchesPrototype(line, ',')
    ensures ExtractPrototypeName(line + rest) == RemoveAll(NameGroup(line), '*')
  {
    var p := line + rest;
    var k := ProtoRunEnd(line, 0);
    var m := ProtoRunEnd(line, k + 1);
    NameBounds(line, rest, k, m);
    var g := RemoveAll(line[k + 1..m], '*');
    NoSpaceInGroup(line[k + 1..m], g);
    StripNoSpace(g);
  }

  /** In a matched line the first space closes the type and the next `(` closes
      the name. */
  lemma NameBounds(line: string, rest: string, k: nat, m: nat)
    requires k == ProtoRunEnd(line, 0) && k < |line| && line[k] == ' '
    requires m == ProtoRunEnd(line, k + 1) && m < |line| && line[m] == '('
    ensures Find(line + rest, " ", 0) == k && Find(line + rest, "(", k + 1) == m
    ensures Slice(line + rest, k + 1, m) == line[k + 1..m]
  {
    var p := line + rest;
    assert OccursAt(p, " ", k) by { assert p[k..k + 1] == [line[k]]; }
    FindFirst(p, " ", 0, k);
    assert OccursAt(p, "(", m) by { assert p[m..m + 1] == [line[m]]; }
    FindFirst(p, "(", k + 1, m);
  }

  lemma NoSpaceInGroup(group: string, g: string)
    requires AllProto(group) && g == RemoveAll(group, '*')
    ensures forall i :: 0 <= i < |g| ==> !IsSpace(g[i])
  {
    forall i | 0 <= i < |g| ensures !IsSpace(g[i]) {
      assert g[i] in group;
    }
  }

  /** The text between the first `(` and the next `)` (the rest of the string
      less its last character when there is none), stripped. */
  function ArgText(prototype: string): string {
    var start := Find(prototype, "(", 0) + 1;
    var end := Find(prototype, ")", start);
    Strip(Slice(prototype, start, end))
  }

  function StripEach(parts: seq<string>): (r: seq<string>)
    ensures |r| == |parts|
    ensures forall i :: 0 <= i < |r| ==> r[i] == Strip(parts[i])
  {
    if parts == [] then [] else [Strip(parts[0])] + StripEach(parts[1..])
  }

  /** `extract_prototype_args`: `None` for an empty parameter text, the empty list
      for `void`, otherwise the comma-separated parts, each stripped. */
  function ExtractPrototypeArgs(prototype: string): Option<seq<string>> {
    var argw := ArgText(prototype);
    if |argw| == 0 then None
    else if argw == "void" then Some([])
    else Some(StripEach(Split(argw, ',')))
  }

  /** The three outcomes: `None` exactly for an empty parameter text, the empty
      list exactly for `void`, and otherwise one stripped part per comma-separated
      piece, one more than the number of commas. */
  lemma ExtractedArgs(prototype: string)
    ensures ExtractPrototypeArgs(prototype).None? <==> ArgText(prototype) == ""
    ensures ExtractPrototypeArgs(prototype) == Some([]) <==> ArgText(prototype) == "void"
    ensures ArgText(prototype) != "" && ArgText(prototype) != "void" ==>
      ExtractPrototypeArgs(prototype).Some?
      && |ExtractPrototypeArgs(prototype).value| == Count(ArgText(prototype), ',') + 1
      && forall i :: 0 <= i < |ExtractPrototypeArgs(prototype).value| ==>
           ExtractPrototypeArgs(prototype).value[i] == Strip(Split(ArgText(prototype), ',')[i])
  {
    SplitCount(ArgText(prototype), ',');
  }

  /** The number of parameters the arity rule compares with its limit. */
  function ArgsCount(args: Option<seq<string>>): nat {
    if args.None? then 0 else |args.value|
  }

  /** A one-line prototype with two parameters is recognised, and its name read. */
  lemma ExamplePrototypeName(p: string)
    requires p == "int add(int a, int b)"
    ensures IsSinglePrototype(p)
    ensures ExtractPrototypeName(p) == "add"
  {
    ExampleRecognised(p);
    ExtractedNameIsGroup(p, "");
    assert p + "" == p;
    RemoveAbsent("add", '*');
  }

  lemma ExampleRecognised(p: string)
    requires p == "int add(int a, int b)"
    ensures IsSinglePrototype(p) && NameGroup(p) == "add"
  {
    ProtoRunEndAt(p, 0, 3);
    ProtoRunEndAt(p, 4, 7);
    assert p[8..] == "int a, int b)";
    assert EndsBeforeDollar(p[8..], ')');
    assert p[4..7] == "add";
  }

  /** Its parameter text, and the two stripped parameters. */
  lemma ExamplePrototypeArgs(p: string)
    requires p == "int add(int a, int b)"
    ensures ExtractPrototypeArgs(p) == Some(["int a", "int b"])
  {
    ExampleArgText(p);
    ExampleStrips();
    ExampleSplit();
    var argw := ArgText(p);
    assert argw != "void" && |argw| != 0;
    var parts := Split(argw, ',');
    assert StripEach(parts) == [Strip(parts[0]), Strip(parts[1])];
  }

  lemma ExampleArgText(p: string)
    requires p == "int add(int a, int b)"
    ensures ArgText(p) == "int a, int b"
  {
    assert OccursAt(p, "(", 7);
    FindFirst(p, "(", 0, 7);
    assert OccursAt(p, ")", 20);
    FindFirst(p, ")", 8, 20);
    assert Slice(p, 8, 20) == "int a, int b";
    ExampleStrips();
  }

  lemma ExampleStrips()
    ensures Strip("int a, int b") == "int a, int b"
    ensures Strip("int a") == "int a"
    ensures Strip(" int b") == "int b"
  {
    StripTrimmed("int a, int b");
    StripTrimmed("int a");
    StripLeadingSpace(" int b");
    assert " int b"[1..] == "int b";
    StripTrimmed("int b");
  }

  lemma ExampleSplit()
    ensures Split("int a, int b", ',') == ["int a", " int b"]
  {
    var s := "int a, int b";
    assert OccursAt(s, [','], 5);
    FindFirst(s, [','], 0, 5);
    assert s[..5] == "int a";
    assert s[6..] == " int b";
    assert ',' !in " int b";
    FindAbsent(" int b", [','], 0, 0);
  }
}
