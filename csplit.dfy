/**
 * How the older C handler cuts a file into functions. A function opens at a
 * line that is exactly "{" and closes at the next line that starts with "}";
 * neither brace line is kept. Each function is a list whose first element is
 * the number `line_nb - 1` of the opening line (which is the 1-based number of
 * the prototype line above it) followed by the lines in between.
 *
 * A "{" line inside an open function is kept as a line and then also opens
 * again: it appends one more number to the same list. The list therefore
 * mixes numbers and lines, which `Cell` records.
 */
module CSplit {
  import opened PyStr

  /** An element of a function list: a line number or a line. */
  datatype Cell = Num(n: int) | Text(s: string)

  /** The splitter's variables after some lines: the finished functions, the
      function being read and whether one is open (`is_func`). */
  datatype SplitState = SplitState(funcs: seq<seq<Cell>>, current: seq<Cell>, inFunc: bool)

  /** The splitter's handling of line number `lineNb`. */
  function SplitStep(st: SplitState, line: string, lineNb: int): SplitState {
    var closes := StartsWith(line, "}") && st.inFunc;
    var funcs := if closes then st.funcs + [st.current] else st.funcs;
    var current := if closes then [] else st.current;
    var inFunc := if closes then false else st.inFunc;
    var kept := if inFunc then current + [Text(line)] else current;
    if line == "{" then SplitState(funcs, kept + [Num(lineNb - 1)], true)
    else SplitState(funcs, kept, inFunc)
  }

  /** The splitter's variables after all of `lines`, numbered from 1. */
  function Splitting(lines: seq<string>): SplitState
    decreases |lines|
  {
    if lines == [] then SplitState([], [], false)
    else SplitStep(Splitting(lines[..|lines| - 1]), lines[|lines| - 1], |lines|)
  }

  /** The lines among `cells`, in order. */
  function TextsOf(cells: seq<Cell>): seq<string>
    decreases |cells|
  {
    if cells == [] then []
    else TextsOf(cells[..|cells| - 1]) + (if cells[|cells| - 1].Text? then [cells[|cells| - 1].s] else [])
  }

  /** Some cell after the first is a number. */
  predicate HasInnerNum(cells: seq<Cell>) {
    exists j :: 1 <= j < |cells| && cells[j].Num?
  }

  /** No line strictly between `o` and `c` starts with "}". */
  predicate NoCloserBetween(lines: seq<string>, o: int, c: int)
    requires 0 <= o < c <= |lines|
  {
    forall k :: o < k < c ==> !StartsWith(lines[k], "}")
  }

  /** A finished function of `lines`: it opened at the "{" line with index `o`
      (its first cell), its lines are exactly those between that line and the
      first later line that starts with "}", and it holds an inner number
      exactly when one of those lines is "{". */
  predicate Delimited(f: seq<Cell>, lines: seq<string>) {
    |f| >= 1 && f[0].Num? && 0 <= f[0].n &&
    var o := f[0].n;
    var texts := TextsOf(f[1..]);
    var c := o + 1 + |texts|;
    c < |lines|
    && lines[o] == "{"
    && StartsWith(lines[c], "}")
    && lines[o + 1..c] == texts
    && NoCloserBetween(lines, o, c)
    && (HasInnerNum(f) <==> "{" in texts)
  }

  /** The function being read after all of `lines`: it opened at the "{" line
      with index `o` and has kept every line since. */
  predicate OpenIn(f: seq<Cell>, lines: seq<string>) {
    |f| >= 1 && f[0].Num? && 0 <= f[0].n &&
    var o := f[0].n;
    var texts := TextsOf(f[1..]);
    o < |lines|
    && o + 1 + |texts| == |lines|
    && lines[o] == "{"
    && lines[o + 1..] == texts
    && NoCloserBetween(lines, o, |lines|)
    && (HasInnerNum(f) <==> "{" in texts)
  }

  /** What holds of the splitter's variables after `lines`. */
  predicate Consistent(st: SplitState, lines: seq<string>) {
    (forall k :: 0 <= k < |st.funcs| ==> Delimited(st.funcs[k], lines))
    && (st.inFunc ==> OpenIn(st.current, lines))
    && (!st.inFunc ==> st.current == [])
  }

  /** A function finished in a prefix stays finished, with the same lines. */
  lemma DelimitedExtend(f: seq<Cell>, lines: seq<string>, line: string)
    requires Delimited(f, lines)
    ensures Delimited(f, lines + [line])
  {
    var o := f[0].n;
    var c := o + 1 + |TextsOf(f[1..])|;
    var ext := lines + [line];
    assert ext[o + 1..c] == lines[o + 1..c];
    assert ext[o] == lines[o] && ext[c] == lines[c];
    assert forall k :: o < k < c ==> ext[k] == lines[k];
  }

  /** One more cell: a line adds itself to the lines, a number adds nothing. */
  lemma TextsOfSnoc(cells: seq<Cell>, x: Cell)
    ensures TextsOf(cells + [x]) == TextsOf(cells) + (if x.Text? then [x.s] else [])
  {
    assert (cells + [x])[..|cells|] == cells;
  }

  /** An open function that reaches a line starting with "}" is finished. */
  lemma CloseDelimited(f: seq<Cell>, lines: seq<string>, line: string)
    requires OpenIn(f, lines) && StartsWith(line, "}")
    ensures Delimited(f, lines + [line])
  {
    var o := f[0].n;
    var ext := lines + [line];
    var c := |lines|;
    assert ext[o + 1..c] == lines[o + 1..];
    assert ext[o] == lines[o] && ext[c] == line;
    assert forall k :: o < k < c ==> ext[k] == lines[k];
  }

  /** Keeping one more line: the lines grow by it, the inner numbers stay. */
  lemma KeepLineCells(f: seq<Cell>, line: string)
    requires |f| >= 1
    ensures (f + [Text(line)])[1..] == f[1..] + [Text(line)]
    ensures TextsOf((f + [Text(line)])[1..]) == TextsOf(f[1..]) + [line]
    ensures HasInnerNum(f + [Text(line)]) <==> HasInnerNum(f)
  {
    var g := f + [Text(line)];
    assert g[1..] == f[1..] + [Text(line)];
    TextsOfSnoc(f[1..], Text(line));
    if HasInnerNum(g) {
      var j :| 1 <= j < |g| && g[j].Num?;
      assert j < |f| && f[j].Num?;
    }
    if HasInnerNum(f) {
      var j :| 1 <= j < |f| && f[j].Num?;
      assert g[j].Num?;
    }
  }

  /** An open function keeps a line that neither starts with "}" nor is "{". */
  lemma KeepOpen(f: seq<Cell>, lines: seq<string>, line: string)
    requires OpenIn(f, lines) && !StartsWith(line, "}") && line != "{"
    ensures OpenIn(f + [Text(line)], lines + [line])
  {
    var o := f[0].n;
    var ext := lines + [line];
    KeepLineCells(f, line);
    assert ext[o + 1..] == lines[o + 1..] + [line];
    assert forall k :: o < k < |lines| ==> ext[k] == lines[k];
  }

  /** A "{" line inside an open function is kept as a line and adds its number. */
  lemma KeepBrace(f: seq<Cell>, lines: seq<string>, line: string)
    requires OpenIn(f, lines) && line == "{"
    ensures OpenIn(f + [Text(line)] + [Num(|lines|)], lines + [line])
  {
    var o := f[0].n;
    var ext := lines + [line];
    var g := f + [Text(line)];
    KeepLineCells(f, line);
    var h := g + [Num(|lines|)];
    assert h[1..] == g[1..] + [Num(|lines|)];
    TextsOfSnoc(g[1..], Num(|lines|));
    assert h[|g|].Num?;
    assert HasInnerNum(h);
    assert TextsOf(h[1..]) == TextsOf(f[1..]) + [line];
    assert ext[o + 1..] == lines[o + 1..] + [line];
    NotCloser(line);
    assert NoCloserBetween(ext, o, |ext|) by {
      assert forall k :: o < k < |lines| ==> ext[k] == lines[k];
    }
  }

  /** A function opened at a "{" line. */
  lemma Open(lines: seq<string>, line: string)
    requires line == "{"
    ensures OpenIn([Num(|lines|)], lines + [line])
  {
    var ext := lines + [line];
    assert ext[|lines|] == "{";
    assert [Num(|lines|)][1..] == [];
    assert ext[|lines| + 1..] == [];
  }

  /** The splitter's variables stay consistent line after line. */
  lemma {:induction false} SplittingConsistent(lines: seq<string>)
    ensures Consistent(Splitting(lines), lines)
    decreases |lines|
  {
    if lines != [] {
      var init, line := lines[..|lines| - 1], lines[|lines| - 1];
      assert init + [line] == lines;
      var st := Splitting(init);
      SplittingConsistent(init);
      forall k | 0 <= k < |st.funcs|
        ensures Delimited(st.funcs[k], lines)
      {
        DelimitedExtend(st.funcs[k], init, line);
      }
      var next := SplitStep(st, line, |lines|);
      if StartsWith(line, "}") && st.inFunc {
        CloseDelimited(st.current, init, line);
        assert line[..1][0] == '}';
        assert next.funcs == st.funcs + [st.current];
        assert !next.inFunc && next.current == [];
      } else if st.inFunc {
        if line == "{" {
          KeepBrace(st.current, init, line);
        } else {
          KeepOpen(st.current, init, line);
        }
        assert next.funcs == st.funcs;
      } else {
        assert next.funcs == st.funcs;
        if line == "{" {
          Open(init, line);
          assert next.current == [Num(|init|)];
        }
      }
    }
  }

  /** Every function the splitter returns opened at a "{" line, holds exactly
      the lines up to the next line starting with "}", and holds an inner number
      exactly when one of those lines is "{". */
  lemma FunctionsDelimited(lines: seq<string>)
    ensures forall k :: 0 <= k < |Splitting(lines).funcs| ==> Delimited(Splitting(lines).funcs[k], lines)
  {
    SplittingConsistent(lines);
  }

  /** Index `o` lies in the extent of `f`: at or after its "{" line and before
      the line that closes it. */
  predicate InSpan(f: seq<Cell>, o: int) {
    |f| >= 1 && f[0].Num? && f[0].n <= o < f[0].n + 1 + |TextsOf(f[1..])|
  }

  /** Index `o` lies in the extent of one of `funcs`. */
  predicate InSomeSpan(funcs: seq<seq<Cell>>, o: int) {
    exists k :: 0 <= k < |funcs| && InSpan(funcs[k], o)
  }

  /** Index `o` lies in a finished function or at or after the start of the
      open one. */
  predicate BraceCovered(st: SplitState, o: int) {
    InSomeSpan(st.funcs, o)
    || (st.inFunc && |st.current| >= 1 && st.current[0].Num? && st.current[0].n <= o)
  }

  /** Every "{" line read so far lies in a finished function or in the open
      one. */
  predicate BracesCovered(st: SplitState, lines: seq<string>) {
    forall o :: 0 <= o < |lines| && lines[o] == "{" ==> BraceCovered(st, o)
  }

  /** The open function, when there is one, reaches the last line read; with
      none open, nothing is being read. */
  predicate OpenToEnd(st: SplitState, n: int) {
    (st.inFunc ==> |st.current| >= 1 && st.current[0].Num? && st.current[0].n + 1 + |TextsOf(st.current[1..])| == n)
    && (!st.inFunc ==> st.current == [])
  }

  lemma OpenAtEnd(lines: seq<string>)
    ensures OpenToEnd(Splitting(lines), |lines|)
  {
    SplittingConsistent(lines);
  }

  /** An index covered before line `n` stays covered after it. */
  lemma StepKeepsCovered(st: SplitState, line: string, n: int, o: int)
    requires BraceCovered(st, o) && OpenToEnd(st, n - 1) && o < n - 1
    ensures BraceCovered(SplitStep(st, line, n), o)
  {
    var next := SplitStep(st, line, n);
    assert forall k :: 0 <= k < |st.funcs| ==> next.funcs[k] == st.funcs[k];
    if exists k :: 0 <= k < |st.funcs| && InSpan(st.funcs[k], o) {
      var k :| 0 <= k < |st.funcs| && InSpan(st.funcs[k], o);
      assert InSpan(next.funcs[k], o);
    } else if StartsWith(line, "}") && st.inFunc {
      assert next.funcs[|st.funcs|] == st.current;
      assert InSpan(next.funcs[|st.funcs|], o);
    } else {
      assert next.inFunc && next.current[0] == st.current[0];
    }
  }

  /** A "{" line is covered once it is read. */
  lemma StepCoversBrace(st: SplitState, n: int)
    requires OpenToEnd(st, n - 1)
    ensures BraceCovered(SplitStep(st, "{", n), n - 1)
  {
    NotCloser("{");
    var next := SplitStep(st, "{", n);
    if st.inFunc {
      assert next.inFunc && next.current[0] == st.current[0];
    } else {
      assert next.current == [Num(n - 1)];
    }
  }

  /** No "{" line escapes the splitter: each one opens a function or falls
      inside the open one. */
  lemma {:induction false} SplittingCovers(lines: seq<string>)
    ensures BracesCovered(Splitting(lines), lines)
    decreases |lines|
  {
    if lines != [] {
      var init, line := lines[..|lines| - 1], lines[|lines| - 1];
      assert init + [line] == lines;
      var st := Splitting(init);
      SplittingCovers(init);
      OpenAtEnd(init);
      forall o | 0 <= o < |lines| && lines[o] == "{"
        ensures BraceCovered(SplitStep(st, line, |lines|), o)
      {
        if o < |init| {
          assert init[o] == "{";
          StepKeepsCovered(st, line, |lines|, o);
        } else {
          StepCoversBrace(st, |lines|);
        }
      }
    }
  }

  /** Every "{" line that some later line starting with "}" follows lies in the
      extent of a returned function. */
  lemma FunctionsCover(lines: seq<string>)
    ensures forall o, c :: 0 <= o < c < |lines| && lines[o] == "{" && StartsWith(lines[c], "}") ==>
      InSomeSpan(Splitting(lines).funcs, o)
  {
    var st := Splitting(lines);
    SplittingCovers(lines);
    OpenIsOpen(lines);
    forall o, c | 0 <= o < c < |lines| && lines[o] == "{" && StartsWith(lines[c], "}")
      ensures InSomeSpan(Splitting(lines).funcs, o)
    {
      assert BraceCovered(st, o);
      if st.inFunc {
        OpenAfterCloser(st.current, lines, c);
      }
    }
  }

  lemma OpenIsOpen(lines: seq<string>)
    ensures Splitting(lines).inFunc ==> OpenIn(Splitting(lines).current, lines)
  {
    SplittingConsistent(lines);
  }

  /** The function still open at the end opened after every line that starts
      with "}". */
  lemma OpenAfterCloser(f: seq<Cell>, lines: seq<string>, c: int)
    requires OpenIn(f, lines) && 0 <= c < |lines| && StartsWith(lines[c], "}")
    ensures c <= f[0].n
  {
    var o := f[0].n;
    assert NoCloserBetween(lines, o, |lines|);
  }

  /** Lines that do not start with "}" finish no function: a function still open
      at the end of the file is not returned. */
  lemma {:induction false} UnclosedNotReturned(lines: seq<string>, tail: seq<string>)
    requires forall k :: 0 <= k < |tail| ==> !StartsWith(tail[k], "}")
    ensures Splitting(lines + tail).funcs == Splitting(lines).funcs
    decreases |tail|
  {
    if tail == [] {
      assert lines + tail == lines;
    } else {
      var all := lines + tail;
      var init := tail[..|tail| - 1];
      assert all[..|all| - 1] == lines + init;
      assert all[|all| - 1] == tail[|tail| - 1];
      UnclosedNotReturned(lines, init);
    }
  }

  /** A function without an inner number is its opening line number followed by
      the lines strictly between its two brace lines. */
  lemma {:induction false} FlatFunction(f: seq<Cell>, lines: seq<string>)
    requires Delimited(f, lines) && !HasInnerNum(f)
    ensures var o := f[0].n;
      o + |f| < |lines| && StartsWith(lines[o + |f|], "}")
      && forall j :: 1 <= j < |f| ==> f[j] == Text(lines[o + j])
  {
    var o := f[0].n;
    AllTexts(f[1..]);
    forall j | 1 <= j < |f|
      ensures f[j] == Text(lines[o + j])
    {
      assert f[1..][j - 1] == f[j];
      assert lines[o + 1..o + 1 + |TextsOf(f[1..])|][j - 1] == lines[o + j];
    }
  }

  /** Cells that are all lines are their own lines. */
  lemma {:induction false} AllTexts(cells: seq<Cell>)
    requires forall j :: 0 <= j < |cells| ==> cells[j].Text?
    ensures |TextsOf(cells)| == |cells|
    ensures forall j :: 0 <= j < |cells| ==> TextsOf(cells)[j] == cells[j].s
    decreases |cells|
  {
    if cells != [] {
      AllTexts(cells[..|cells| - 1]);
    }
  }

  /** A line whose first character is not "}" does not close a function. */
  lemma NotCloser(s: string)
    requires |s| > 0 && s[0] != '}'
    ensures !StartsWith(s, "}")
  {
    assert s[..1][0] == s[0];
  }

  /** A file with one function: the prototype, the braces around two lines, then
      an unclosed one. */
  lemma ExampleSplit()
    ensures Splitting(["int f(void)", "{", "a;", "b;", "}", "{", "c;"]).funcs
         == [[Num(1), Text("a;"), Text("b;")]]
  {
    var l1, l2, l3 := ["int f(void)"], ["int f(void)", "{"], ["int f(void)", "{", "a;"];
    var l4 := l3 + ["b;"];
    var l5 := l4 + ["}"];
    var l6 := l5 + ["{"];
    var l7 := l6 + ["c;"];
    assert l7 == ["int f(void)", "{", "a;", "b;", "}", "{", "c;"];
    assert l1[..0] == [] && l2[..1] == l1 && l3[..2] == l2;
    assert l4[..3] == l3 && l5[..4] == l4 && l6[..5] == l5 && l7[..6] == l6;
    NotCloser("int f(void)");
    NotCloser("a;");
    NotCloser("b;");
    NotCloser("{");
    NotCloser("c;");
    assert StartsWith("}", "}");
    assert Splitting(l1) == SplitState([], [], false);
    assert Splitting(l2) == SplitState([], [Num(1)], true);
    assert Splitting(l3) == SplitState([], [Num(1), Text("a;")], true);
    assert Splitting(l4) == SplitState([], [Num(1), Text("a;"), Text("b;")], true);
    assert Splitting(l5) == SplitState([[Num(1), Text("a;"), Text("b;")]], [], false);
    assert Splitting(l6).funcs == Splitting(l5).funcs;
  }
}
