/**
 * The function extractor of the C checker, as a function of the file's lines.
 * It is a single forward pass over the line numbers; the pass and the code
 * that reads each function share one iterator, so a function's lines are
 * consumed by that code and the pass resumes after the closing brace. Asking
 * the exhausted iterator for another line raises an exception that nothing
 * catches; this is the `complete == false` outcome.
 */
module Extraction {
  import opened Wrappers
  import opened PyStr
  import opened Prototype

  /** One extracted function: its prototype text (continuation lines appended),
      the 1-based line of the prototype and of the first body line, and the body
      lines. Its name and parameters are read from the prototype. */
  datatype Function = Function(prototype: string, protoLine: nat, firstLine: nat, body: seq<string>)
  {
    function Name(): string {
      ExtractPrototypeName(prototype)
    }

    function Args(): Option<seq<string>> {
      ExtractPrototypeArgs(prototype)
    }
  }

  /** The functions appended so far, and whether the pass ran to the end of the
      lines (`false`: the iterator was exhausted inside a function). */
  datatype Extraction = Extraction(functions: seq<Function>, complete: bool)

  /** The least index from `from` on whose line starts with `c`. */
  function NextStarting(lines: seq<string>, from: nat, c: char): (r: Option<nat>)
    requires from <= |lines|
    ensures r.Some? ==> from <= r.value < |lines| && StartsWith(lines[r.value], [c])
    ensures forall k :: from <= k < (if r.Some? then r.value else |lines|) ==> !StartsWith(lines[k], [c])
    decreases |lines| - from
  {
    if from == |lines| then None
    else if StartsWith(lines[from], [c]) then Some(from)
    else NextStarting(lines, from + 1, c)
  }

  /** What the continuation lines add to a prototype: a space and the stripped
      line, for each line. */
  function Continuation(lines: seq<string>): string {
    if lines == [] then "" else Continuation(lines[..|lines| - 1]) + " " + Strip(lines[|lines| - 1])
  }

  /** A line not starting with `c` is passed over. */
  lemma NextStartingSkip(lines: seq<string>, i: nat, c: char)
    requires i < |lines| && !StartsWith(lines[i], [c])
    ensures NextStarting(lines, i, c) == NextStarting(lines, i + 1, c)
  {
  }

  /** One more continuation line adds a space and that line, stripped, to the
      prototype read so far. */
  lemma ContinuationStep(lines: seq<string>, from: nat, i: nat, prototype: string)
    requires from <= i < |lines|
    ensures prototype + Continuation(lines[from..i + 1])
         == prototype + Continuation(lines[from..i]) + " " + Strip(lines[i])
  {
    var longer := lines[from..i + 1];
    assert longer[..|longer| - 1] == lines[from..i] && longer[|longer| - 1] == lines[i];
    var before, stripped := Continuation(lines[from..i]), Strip(lines[i]);
    assert Continuation(longer) == before + " " + stripped;
    assert prototype + (before + " " + stripped) == prototype + before + " " + stripped;
  }

  /** What happens at one line of the pass: no prototype there, a function that
      runs past the last line, or a function and the index the pass resumes at. */
  datatype Step = NoPrototype | Truncated | Found(f: Function, resume: nat)

  /** The body starting at index `b`, up to the next line starting with `}`. */
  function BodyFrom(lines: seq<string>, prototype: string, protoLine: nat, firstLine: nat, b: nat): (r: Step)
    requires b <= |lines|
    ensures r.Found? ==> b < r.resume <= |lines|
    ensures r.Found? ==> r.f.prototype == prototype && r.f.protoLine == protoLine && r.f.firstLine == firstLine
    ensures r.Found? ==> r.f.body == lines[b..r.resume - 1]
    ensures r.Found? ==> StartsWith(lines[r.resume - 1], "}")
    ensures r.Found? ==> forall k :: 0 <= k < |r.f.body| ==> !StartsWith(r.f.body[k], "}")
  {
    var close := NextStarting(lines, b, '}');
    if close.None? then Truncated
    else
      var j := close.value;
      Found(Function(prototype, protoLine, firstLine, lines[b..j]), j + 1)
  }

  /** The pass at index `i`. A one-line prototype skips one line (the opening
      brace) and the body starts on the line after it; a continued prototype
      takes every line up to one starting with `{`, and the body starts on the
      line after that one. */
  function FunctionAt(lines: seq<string>, i: nat): (r: Step)
    requires i < |lines|
    ensures r.Found? ==> i < r.resume <= |lines|
  {
    var line := lines[i];
    if IsSinglePrototype(line) then
      if i + 2 > |lines| then Truncated
      else BodyFrom(lines, line, i + 1, i + 3, i + 2)
    else if IsContinuedPrototype(line) then
      match NextStarting(lines, i + 1, '{')
      case None => Truncated
      case Some(q) => BodyFrom(lines, line + Continuation(lines[i + 1..q]), i + 1, q + 2, q + 1)
    else NoPrototype
  }

  /** The 0-based index of the line holding a function's closing brace. */
  function CloseIndex(f: Function): int {
    f.firstLine - 1 + |f.body|
  }

  /** Where an extracted function sits in the lines: its body is the slice of
      the lines that starts at the first body line, at least two lines after the
      prototype line; no body line starts with `}`, the line after the body
      does; its prototype begins with the line of the prototype, which the
      pattern matches. */
  predicate WellFormed(lines: seq<string>, f: Function) {
    1 <= f.protoLine && f.protoLine + 1 <= f.firstLine - 1
    && 0 <= CloseIndex(f) < |lines|
    && f.body == lines[f.firstLine - 1..CloseIndex(f)]
    && (forall k :: 0 <= k < |f.body| ==> !StartsWith(f.body[k], "}"))
    && StartsWith(lines[CloseIndex(f)], "}")
    && StartsWith(f.prototype, lines[f.protoLine - 1])
    && (IsSinglePrototype(lines[f.protoLine - 1]) || IsContinuedPrototype(lines[f.protoLine - 1]))
    && (IsSinglePrototype(lines[f.protoLine - 1]) ==> f.firstLine == f.protoLine + 2 && f.prototype == lines[f.protoLine - 1])
  }

  /** The function found at `i` is well formed, its prototype is line `i + 1`, and the pass resumes
      on the line after its closing brace. */
  lemma FoundIsWellPlaced(lines: seq<string>, i: nat)
    requires i < |lines| && FunctionAt(lines, i).Found?
    ensures var s := FunctionAt(lines, i);
      WellFormed(lines, s.f) && s.f.protoLine == i + 1 && s.resume == CloseIndex(s.f) + 1
  {
    if IsSinglePrototype(lines[i]) {
      FoundSingle(lines, i);
    } else {
      FoundContinued(lines, i);
    }
  }

  lemma FoundSingle(lines: seq<string>, i: nat)
    requires i < |lines| && IsSinglePrototype(lines[i]) && FunctionAt(lines, i).Found?
    ensures var s := FunctionAt(lines, i);
      WellFormed(lines, s.f) && s.f.protoLine == i + 1 && s.resume == CloseIndex(s.f) + 1
  {
    var s := BodyFrom(lines, lines[i], i + 1, i + 3, i + 2);
    assert FunctionAt(lines, i) == s;
    assert StartsWith(lines[i], lines[i]);
  }

  lemma FoundContinued(lines: seq<string>, i: nat)
    requires i < |lines| && !IsSinglePrototype(lines[i]) && FunctionAt(lines, i).Found?
    ensures var s := FunctionAt(lines, i);
      WellFormed(lines, s.f) && s.f.protoLine == i + 1 && s.resume == CloseIndex(s.f) + 1
  {
    var line := lines[i];
    assert IsContinuedPrototype(line);
    var q := NextStarting(lines, i + 1, '{').value;
    var p := line + Continuation(lines[i + 1..q]);
    var s := BodyFrom(lines, p, i + 1, q + 2, q + 1);
    assert FunctionAt(lines, i) == s;
    assert p[..|line|] == line;
  }

  /** The pass from index `i` to the end. */
  function Scan(lines: seq<string>, i: nat): Extraction
    requires i <= |lines|
    decreases |lines| - i
  {
    if i == |lines| then Extraction([], true)
    else match FunctionAt(lines, i)
      case NoPrototype => Scan(lines, i + 1)
      case Truncated => Extraction([], false)
      case Found(f, resume) =>
        var rest := Scan(lines, resume);
        Extraction([f] + rest.functions, rest.complete)
  }

  /** Every function of `fs` is well formed, with its prototype after index `i`. */
  predicate AllWellFormedAfter(lines: seq<string>, fs: seq<Function>, i: nat) {
    forall k :: 0 <= k < |fs| ==> WellFormed(lines, fs[k]) && i < fs[k].protoLine
  }

  /** Each function closes before the next one's prototype line. */
  predicate InOrder(fs: seq<Function>) {
    forall k :: 0 <= k < |fs| - 1 ==> CloseIndex(fs[k]) < fs[k + 1].protoLine - 1
  }

  /** Every function extracted from index `i` on is well formed, with its
      prototype at or after line `i + 1`. */
  lemma {:induction false} ScanWellPlaced(lines: seq<string>, i: nat)
    requires i <= |lines|
    ensures AllWellFormedAfter(lines, Scan(lines, i).functions, i)
    decreases |lines| - i
  {
    if i < |lines| {
      match FunctionAt(lines, i)
      case NoPrototype =>
        ScanWellPlaced(lines, i + 1);
      case Truncated =>
      case Found(f, resume) =>
        FoundIsWellPlaced(lines, i);
        ScanWellPlaced(lines, resume);
        var rest := Scan(lines, resume).functions;
        assert Scan(lines, i).functions == [f] + rest;
    }
  }

  /** The extracted functions come in line order with disjoint extents. */
  lemma {:induction false} ScanOrdered(lines: seq<string>, i: nat)
    requires i <= |lines|
    ensures InOrder(Scan(lines, i).functions)
    decreases |lines| - i
  {
    if i < |lines| {
      match FunctionAt(lines, i)
      case NoPrototype =>
        ScanOrdered(lines, i + 1);
      case Truncated =>
      case Found(f, resume) =>
        FoundIsWellPlaced(lines, i);
        ScanOrdered(lines, resume);
        ScanWellPlaced(lines, resume);
        var rest := Scan(lines, resume).functions;
        assert Scan(lines, i).functions == [f] + rest;
        InOrderCons(f, rest, resume);
    }
  }

  /** A function closing before `resume`, followed by functions in order whose
      prototypes lie after `resume`, gives functions in order. */
  lemma InOrderCons(f: Function, rest: seq<Function>, resume: nat)
    requires CloseIndex(f) < resume && InOrder(rest)
    requires forall k :: 0 <= k < |rest| ==> resume < rest[k].protoLine
    ensures InOrder([f] + rest)
  {
    var fs := [f] + rest;
    forall k | 0 <= k < |fs| - 1 ensures CloseIndex(fs[k]) < fs[k + 1].protoLine - 1 {
      if k == 0 {
        assert resume < rest[0].protoLine;
      } else {
        assert fs[k] == rest[k - 1] && fs[k + 1] == rest[k];
      }
    }
  }

  /** Index `k` lies outside every function of `fs`, from its prototype line
      to its closing brace. */
  predicate Outside(fs: seq<Function>, k: int) {
    forall j :: 0 <= j < |fs| ==> !(fs[j].protoLine - 1 <= k <= CloseIndex(fs[j]))
  }

  /** The pass from `i` stops at index `t`: the function there runs past the
      last line, every function recorded closes before it, and every index
      from `i` up to it outside those functions holds no prototype. */
  predicate StopsAt(lines: seq<string>, i: nat, fs: seq<Function>, t: nat) {
    i <= t < |lines|
    && FunctionAt(lines, t).Truncated?
    && (forall j :: 0 <= j < |fs| ==> CloseIndex(fs[j]) < t)
    && forall k :: i <= k < t && Outside(fs, k) ==> FunctionAt(lines, k).NoPrototype?
  }

  /** A function covering `i` to `resume - 1` in front of others: the indices
      from `resume` on outside the whole list are outside the others. */
  lemma OutsideCons(f: Function, rest: seq<Function>, k: int)
    ensures Outside([f] + rest, k) <==> !(f.protoLine - 1 <= k <= CloseIndex(f)) && Outside(rest, k)
  {
    var fs := [f] + rest;
    assert fs[0] == f;
    assert forall j :: 0 <= j < |rest| ==> fs[j + 1] == rest[j];
    if !(f.protoLine - 1 <= k <= CloseIndex(f)) && Outside(rest, k) {
      forall j | 0 <= j < |fs| ensures !(fs[j].protoLine - 1 <= k <= CloseIndex(fs[j])) {
        if j > 0 {
          assert fs[j] == rest[j - 1];
        }
      }
    }
  }

  /** A complete pass passes over no prototype: every index from `i` on that
      lies outside the extracted functions holds none. */
  lemma {:induction false} ScanMissesNothing(lines: seq<string>, i: nat)
    requires i <= |lines|
    ensures Scan(lines, i).complete ==>
      forall k :: i <= k < |lines| && Outside(Scan(lines, i).functions, k) ==> FunctionAt(lines, k).NoPrototype?
    decreases |lines| - i
  {
    if i < |lines| {
      match FunctionAt(lines, i)
      case NoPrototype =>
        ScanMissesNothing(lines, i + 1);
      case Truncated =>
      case Found(f, resume) =>
        FoundIsWellPlaced(lines, i);
        ScanMissesNothing(lines, resume);
        var rest := Scan(lines, resume).functions;
        assert Scan(lines, i).functions == [f] + rest;
        forall k | i <= k < |lines| && Outside([f] + rest, k)
          ensures Scan(lines, resume).complete ==> FunctionAt(lines, k).NoPrototype?
        {
          OutsideCons(f, rest, k);
        }
    }
  }

  /** An incomplete pass stops at the first index outside the extracted
      functions whose function runs past the last line; every earlier such
      index holds no prototype. */
  lemma {:induction false} ScanStopsAtTruncation(lines: seq<string>, i: nat)
    requires i <= |lines|
    ensures !Scan(lines, i).complete ==> exists t: nat :: StopsAt(lines, i, Scan(lines, i).functions, t)
    decreases |lines| - i
  {
    if i < |lines| {
      match FunctionAt(lines, i)
      case NoPrototype =>
        ScanStopsAtTruncation(lines, i + 1);
        if !Scan(lines, i).complete {
          var t: nat :| StopsAt(lines, i + 1, Scan(lines, i + 1).functions, t);
          StopsAtSkip(lines, i, Scan(lines, i).functions, t);
        }
      case Truncated =>
        assert StopsAt(lines, i, [], i);
      case Found(f, resume) =>
        FoundIsWellPlaced(lines, i);
        ScanStopsAtTruncation(lines, resume);
        var rest := Scan(lines, resume).functions;
        assert Scan(lines, i).functions == [f] + rest;
        if !Scan(lines, i).complete {
          var t: nat :| StopsAt(lines, resume, rest, t);
          StopsAtCons(lines, i, f, rest, resume, t);
        }
    }
  }

  /** An index without a prototype in front of a stop keeps the stop. */
  lemma StopsAtSkip(lines: seq<string>, i: nat, fs: seq<Function>, t: nat)
    requires i < |lines| && FunctionAt(lines, i).NoPrototype? && StopsAt(lines, i + 1, fs, t)
    ensures StopsAt(lines, i, fs, t)
  {
  }

  /** A function from `i` to `resume - 1` in front of a stop keeps the stop. */
  lemma StopsAtCons(lines: seq<string>, i: nat, f: Function, rest: seq<Function>, resume: nat, t: nat)
    requires f.protoLine - 1 == i < resume && CloseIndex(f) == resume - 1 && StopsAt(lines, resume, rest, t)
    ensures StopsAt(lines, i, [f] + rest, t)
  {
    forall k | i <= k < t && Outside([f] + rest, k)
      ensures FunctionAt(lines, k).NoPrototype?
    {
      OutsideCons(f, rest, k);
    }
    assert forall j :: 0 <= j < |rest| ==> ([f] + rest)[j + 1] == rest[j];
  }

  /** The pass at a line with no prototype moves on to the next line. */
  lemma ScanNoPrototype(lines: seq<string>, i: nat)
    requires i < |lines| && FunctionAt(lines, i).NoPrototype?
    ensures Scan(lines, i) == Scan(lines, i + 1)
  {
  }

  /** The pass at a function that runs past the last line stops there. */
  lemma ScanTruncated(lines: seq<string>, i: nat)
    requires i < |lines| && FunctionAt(lines, i).Truncated?
    ensures Scan(lines, i) == Extraction([], false)
  {
  }

  /** The pass at a found function records it, after the functions already
      recorded, and resumes after its closing brace. */
  lemma ScanFound(recorded: seq<Function>, lines: seq<string>, i: nat)
    requires i < |lines| && FunctionAt(lines, i).Found?
    ensures FunctionAt(lines, i).resume <= |lines|
    ensures recorded + Scan(lines, i).functions
         == recorded + [FunctionAt(lines, i).f] + Scan(lines, FunctionAt(lines, i).resume).functions
    ensures Scan(lines, i).complete == Scan(lines, FunctionAt(lines, i).resume).complete
  {
    var step := FunctionAt(lines, i);
    var rest := Scan(lines, step.resume);
    assert Scan(lines, i).functions == [step.f] + rest.functions;
  }

  /** The body read from index `b`: truncated exactly when no line from `b` on
      starts with `}`. */
  lemma BodyFromRead(lines: seq<string>, prototype: string, protoLine: nat, firstLine: nat, b: nat,
                     body: seq<string>, close: Option<nat>)
    requires b <= |lines| && close == NextStarting(lines, b, '}')
    requires close.Some? ==> body == lines[b..close.value]
    ensures BodyFrom(lines, prototype, protoLine, firstLine, b)
         == if close.None? then Truncated else Found(Function(prototype, protoLine, firstLine, body), close.value + 1)
  {
  }

  /** `extract_functions`: the pass over the whole file. */
  function ExtractFunctions(lines: seq<string>): Extraction {
    Scan(lines, 0)
  }

  /** A one-line prototype, its brace and a one-line body give one function
      whose body is that line. */
  lemma ExampleExtraction(lines: seq<string>)
    requires lines == ["int add(int a, int b)", "{", "    return a + b;", "}"]
    ensures ExtractFunctions(lines) == Extraction([Function(lines[0], 1, 3, ["    return a + b;"])], true)
  {
    ExamplePrototypeName(lines[0]);
    ExampleAddStep(lines);
    var f := Function(lines[0], 1, 3, ["    return a + b;"]);
    assert Scan(lines, 4) == Extraction([], true);
    assert Scan(lines, 0) == Extraction([f] + [], true);
  }

  /** The name and parameters of that function. */
  lemma ExampleExtractedSignature(f: Function)
    requires f.prototype == "int add(int a, int b)"
    ensures f.Name() == "add" && f.Args() == Some(["int a", "int b"])
  {
    ExamplePrototypeName(f.prototype);
    ExamplePrototypeArgs(f.prototype);
  }

  lemma ExampleAddStep(lines: seq<string>)
    requires lines == ["int add(int a, int b)", "{", "    return a + b;", "}"]
    requires IsSinglePrototype(lines[0])
    ensures FunctionAt(lines, 0) == Found(Function(lines[0], 1, 3, ["    return a + b;"]), 4)
  {
    assert lines[2][..1] != "}" by { assert lines[2][..1][0] == ' '; }
    assert StartsWith(lines[3], "}");
    assert NextStarting(lines, 2, '}') == Some(3);
    assert lines[2..3] == ["    return a + b;"];
  }

  /** A body whose closing brace never comes: the pass does not complete and the
      function is not recorded. */
  lemma ExampleTruncated(lines: seq<string>)
    requires lines == ["int f(void)", "{", "    return 0;"]
    ensures ExtractFunctions(lines) == Extraction([], false)
  {
    var p := lines[0];
    ProtoRunEndAt(p, 0, 3);
    ProtoRunEndAt(p, 4, 5);
    assert p[6..] == "void)";
    assert IsSinglePrototype(p);
    assert lines[2][..1] != "}" by { assert lines[2][..1][0] == ' '; }
    assert NextStarting(lines, 2, '}') == None;
  }
}
