/**
 * Reporting the collected messages: the stable sort by line number that
 * precedes printing, the selection of what is printed, and the verdict of
 * whether a file respects the norm.
 */
module Report {
  import opened Types

  predicate SortedByLine(ms: seq<NormMessage>) {
    forall i, j :: 0 <= i < j < |ms| ==> ms[i].line <= ms[j].line
  }

  /** The messages reported at `line`, in their order. */
  function OnLine(ms: seq<NormMessage>, line: int): (r: seq<NormMessage>)
    ensures |r| <= |ms|
  {
    if ms == [] then []
    else OnLine(ms[..|ms| - 1], line) + (if ms[|ms| - 1].line == line then [ms[|ms| - 1]] else [])
  }

  /** The messages of a line are exactly the messages on that line. */
  lemma {:induction false} OnLineMembers(ms: seq<NormMessage>, line: int)
    ensures forall m :: m in OnLine(ms, line) <==> m in ms && m.line == line
  {
    if ms != [] {
      var init := ms[..|ms| - 1];
      OnLineMembers(init, line);
      assert ms == init + [ms[|ms| - 1]];
    }
  }

  lemma {:induction false} OnLineAppend(a: seq<NormMessage>, b: seq<NormMessage>, line: int)
    ensures OnLine(a + b, line) == OnLine(a, line) + OnLine(b, line)
    decreases |b|
  {
    if b != [] {
      var b' := b[..|b| - 1];
      assert (a + b)[..|a + b| - 1] == a + b';
      OnLineAppend(a, b', line);
    } else {
      assert a + b == a;
    }
  }

  /** `m` placed after every message whose line is not greater than its own. */
  function InsertByLine(sorted: seq<NormMessage>, m: NormMessage): (r: seq<NormMessage>)
    ensures |r| == |sorted| + 1
  {
    if sorted == [] || sorted[|sorted| - 1].line <= m.line then sorted + [m]
    else InsertByLine(sorted[..|sorted| - 1], m) + [sorted[|sorted| - 1]]
  }

  /** Inserting adds `m` and loses nothing. */
  lemma {:induction false} InsertIsPermutation(sorted: seq<NormMessage>, m: NormMessage)
    ensures multiset(InsertByLine(sorted, m)) == multiset(sorted) + multiset{m}
    decreases |sorted|
  {
    if !(sorted == [] || sorted[|sorted| - 1].line <= m.line) {
      var last := sorted[|sorted| - 1];
      var init := sorted[..|sorted| - 1];
      assert sorted == init + [last];
      InsertIsPermutation(init, m);
    }
  }

  lemma {:induction false} InsertKeepsSorted(sorted: seq<NormMessage>, m: NormMessage)
    requires SortedByLine(sorted)
    ensures SortedByLine(InsertByLine(sorted, m))
    decreases |sorted|
  {
    if !(sorted == [] || sorted[|sorted| - 1].line <= m.line) {
      var last := sorted[|sorted| - 1];
      var init := sorted[..|sorted| - 1];
      InsertKeepsSorted(init, m);
      InsertIsPermutation(init, m);
      var r := InsertByLine(init, m);
      forall k | 0 <= k < |r| ensures r[k].line <= last.line {
        if r[k] != m {
          assert r[k] in multiset(r);
          assert r[k] in init;
          var j :| 0 <= j < |init| && init[j] == r[k];
        }
      }
    }
  }

  /** Inserting `m` appends it to its own line and leaves every other line's
      messages in their order. */
  lemma {:induction false} InsertOnLine(sorted: seq<NormMessage>, m: NormMessage, line: int)
    ensures OnLine(InsertByLine(sorted, m), line) == OnLine(sorted, line) + (if m.line == line then [m] else [])
    decreases |sorted|
  {
    OnLineSingle(m, line);
    if sorted == [] || sorted[|sorted| - 1].line <= m.line {
      OnLineAppend(sorted, [m], line);
    } else {
      var last := sorted[|sorted| - 1];
      var init := sorted[..|sorted| - 1];
      assert sorted == init + [last];
      assert InsertByLine(sorted, m) == InsertByLine(init, m) + [last];
      InsertOnLine(init, m, line);
      OnLineAppend(InsertByLine(init, m), [last], line);
      OnLineAppend(init, [last], line);
      OnLineSingle(last, line);
      // `last` lies on a later line than `m`, so at most one of them is on `line`.
      if m.line == line {
        assert OnLine(sorted, line) == OnLine(init, line);
        assert OnLine(InsertByLine(sorted, m), line) == OnLine(init, line) + [m];
      } else {
        assert OnLine(InsertByLine(sorted, m), line) == OnLine(init, line) + OnLine([last], line);
      }
    }
  }

  /** A single message is on a line or not. */
  lemma OnLineSingle(x: NormMessage, line: int)
    ensures OnLine([x], line) == if x.line == line then [x] else []
  {
    assert [x][..0] == [];
  }

  /** `messages.sort(key=lambda x: x.line)`: Python's sort is stable. */
  function SortByLine(ms: seq<NormMessage>): (r: seq<NormMessage>)
    ensures |r| == |ms|
  {
    if ms == [] then []
    else InsertByLine(SortByLine(ms[..|ms| - 1]), ms[|ms| - 1])
  }

  /** The sort is a permutation of the messages. */
  lemma {:induction false} SortIsPermutation(ms: seq<NormMessage>)
    ensures multiset(SortByLine(ms)) == multiset(ms)
  {
    if ms != [] {
      SortIsPermutation(ms[..|ms| - 1]);
      InsertIsPermutation(SortByLine(ms[..|ms| - 1]), ms[|ms| - 1]);
      assert ms == ms[..|ms| - 1] + [ms[|ms| - 1]];
    }
  }

  /** The sorted messages are in line order. */
  lemma {:induction false} SortIsSorted(ms: seq<NormMessage>)
    ensures SortedByLine(SortByLine(ms))
  {
    if ms != [] {
      SortIsSorted(ms[..|ms| - 1]);
      InsertKeepsSorted(SortByLine(ms[..|ms| - 1]), ms[|ms| - 1]);
    }
  }

  /** The sort is stable: the messages of each line keep their order. */
  lemma {:induction false} SortIsStable(ms: seq<NormMessage>, line: int)
    ensures OnLine(SortByLine(ms), line) == OnLine(ms, line)
  {
    if ms != [] {
      SortIsStable(ms[..|ms| - 1], line);
      InsertOnLine(SortByLine(ms[..|ms| - 1]), ms[|ms| - 1], line);
    }
  }

  /** The text printed for the messages, in order: every message that is not ok,
      and the ok ones too when asked for. */
  function Printed(ms: seq<NormMessage>, includeOk: bool): (r: seq<string>)
    ensures |r| <= |ms|
    ensures includeOk ==> |r| == |ms|
  {
    if ms == [] then []
    else
      var m := ms[|ms| - 1];
      Printed(ms[..|ms| - 1], includeOk) + (if !m.IsOk() || includeOk then [m.ToString()] else [])
  }

  /** `norm_ok`: no message is a violation. */
  predicate AllOk(ms: seq<NormMessage>) {
    forall k :: 0 <= k < |ms| ==> ms[k].IsOk()
  }

  /** Unless ok messages are asked for, nothing is printed exactly when every
      message is ok. */
  lemma {:induction false} PrintsNothingIffAllOk(ms: seq<NormMessage>)
    ensures Printed(ms, false) == [] <==> AllOk(ms)
  {
    if ms != [] {
      var init := ms[..|ms| - 1];
      PrintsNothingIffAllOk(init);
      assert AllOk(ms) <==> AllOk(init) && ms[|ms| - 1].IsOk() by {
        assert forall k :: 0 <= k < |init| ==> init[k] == ms[k];
      }
    }
  }
}
