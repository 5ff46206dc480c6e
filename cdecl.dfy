/**
 * The older C handler's declaration classifier. A line is tried against four
 * patterns anchored at its start:
 *
 *   TYPE NAMES = VALUE;     TYPE NAMES;      (single declarator)
 *   TYPE NAMES' = VALUE;    TYPE NAMES';     (several declarators)
 *
 * where TYPE is any run of letters, digits, '_', '*' and spaces, NAMES any run
 * of those characters and '[', ']', '-', '+', NAMES' the same with ','
 * added, and VALUE any run
 * of characters other than a newline. A single space separates TYPE and NAMES.
 * Text after the ';' is allowed. A match means "some way of cutting the line
 * fits", which is how a backtracking matcher answers.
 */
module CDeclarations {

  /** A character of the type part. */
  predicate TypeChar(c: char) {
    ('a' <= c <= 'z') || ('A' <= c <= 'Z') || ('0' <= c <= '9') || c == '_' || c == '*' || c == ' '
  }

  /** A character of the declarator part; `multi` also admits ','. */
  predicate NameChar(c: char, multi: bool) {
    TypeChar(c) || c == '[' || c == ']' || c == '-' || c == '+' || (multi && c == ',')
  }

  predicate TypeText(s: string) {
    forall k :: 0 <= k < |s| ==> TypeChar(s[k])
  }

  predicate NamesText(s: string, multi: bool) {
    forall k :: 0 <= k < |s| ==> NameChar(s[k], multi)
  }

  predicate NoNewline(s: string) {
    forall k :: 0 <= k < |s| ==> s[k] != '\n'
  }

  /** The line starts with `TYPE NAMES;`: a space at `i` ends the type part and a
      ';' at `j` ends the declarators. */
  predicate PlainAt(line: string, multi: bool, i: int, j: int) {
    0 <= i < j < |line| && line[i] == ' ' && line[j] == ';'
    && TypeText(line[..i]) && NamesText(line[i + 1..j], multi)
  }

  /** The line starts with `TYPE NAMES = VALUE;`: a space at `i`, " = " at `j` and
      a ';' at `k`. */
  predicate AssignAt(line: string, multi: bool, i: int, j: int, k: int) {
    0 <= i < j && j + 3 <= k < |line| && line[i] == ' ' && line[j..j + 3] == " = " && line[k] == ';'
    && TypeText(line[..i]) && NamesText(line[i + 1..j], multi) && NoNewline(line[j + 3..k])
  }

  predicate MatchesPlain(line: string, multi: bool) {
    exists i, j :: 0 <= i < j < |line| && PlainAt(line, multi, i, j)
  }

  predicate MatchesAssign(line: string, multi: bool) {
    exists i, j, k :: 0 <= i < j && j < k < |line| && AssignAt(line, multi, i, j, k)
  }

  /** One of the two single-declarator patterns matches. */
  predicate SingleMatch(line: string) {
    MatchesAssign(line, false) || MatchesPlain(line, false)
  }

  /** One of the two several-declarator patterns matches. */
  predicate MultiMatch(line: string) {
    MatchesAssign(line, true) || MatchesPlain(line, true)
  }

  /** The line draws "L5, multiple declarations on the same line". */
  predicate MultipleOnly(line: string) {
    MultiMatch(line) && !SingleMatch(line)
  }

  /** The classifier's answer. */
  predicate IsDeclaration(line: string) {
    MultipleOnly(line) || SingleMatch(line)
  }

  /** Every single-declarator match is a several-declarator match, so the answer
      is the several-declarator test alone. */
  lemma DeclarationIsMultiMatch(line: string)
    ensures IsDeclaration(line) <==> MultiMatch(line)
  {
    if MatchesPlain(line, false) {
      var i, j :| 0 <= i < j < |line| && PlainAt(line, false, i, j);
      assert PlainAt(line, true, i, j);
    }
    if MatchesAssign(line, false) {
      var i, j, k :| 0 <= i < j && j < k < |line| && AssignAt(line, false, i, j, k);
      assert AssignAt(line, true, i, j, k);
    }
  }

  /** Without a ',' both kinds of pattern agree, so "multiple declarations" needs
      a ','. */
  lemma MultipleNeedsComma(line: string)
    requires ',' !in line
    ensures !MultipleOnly(line)
  {
    if MatchesPlain(line, true) {
      var i, j :| 0 <= i < j < |line| && PlainAt(line, true, i, j);
      NamesWithoutComma(line, i + 1, j);
      assert PlainAt(line, false, i, j);
    }
    if MatchesAssign(line, true) {
      var i, j, k :| 0 <= i < j && j < k < |line| && AssignAt(line, true, i, j, k);
      NamesWithoutComma(line, i + 1, j);
      assert AssignAt(line, false, i, j, k);
    }
  }

  /** A declarator part without ',' fits the single-declarator class too. */
  lemma NamesWithoutComma(line: string, a: int, b: int)
    requires 0 <= a <= b <= |line| && ',' !in line && NamesText(line[a..b], true)
    ensures NamesText(line[a..b], false)
  {
    forall x | 0 <= x < b - a
      ensures NameChar(line[a..b][x], false)
    {
      assert line[a..b][x] == line[a + x];
      assert line[a + x] in line;
    }
  }

  /** A line without ';' is never a declaration; in particular a blank line is not. */
  lemma NeedsSemicolon(line: string)
    requires ';' !in line
    ensures !IsDeclaration(line)
  {
    forall i, j | 0 <= i < j < |line|
      ensures !PlainAt(line, true, i, j)
    {
      assert line[j] in line;
    }
    forall i, j, k | 0 <= i < j && j < k < |line|
      ensures !AssignAt(line, true, i, j, k)
    {
      assert line[k] in line;
    }
    DeclarationIsMultiMatch(line);
  }

  /** "int x;" is a single declaration. */
  lemma ExampleSingle()
    ensures SingleMatch("int x;") && !MultipleOnly("int x;")
  {
    var s := "int x;";
    assert s[..3] == "int" && s[4..5] == "x";
    assert PlainAt(s, false, 3, 5);
  }

  /** "int x, y;" is a declaration that draws "multiple declarations". */
  lemma ExampleMultiple()
    ensures MultipleOnly("int x, y;") && IsDeclaration("int x, y;")
  {
    var s := "int x, y;";
    assert s[..3] == "int" && s[4..8] == "x, y";
    assert PlainAt(s, true, 3, 8);
    assert !MatchesPlain(s, false) by {
      forall i, j | 0 <= i < j < |s| && s[i] == ' ' && s[j] == ';'
        ensures !PlainAt(s, false, i, j)
      {
        assert j == 8;
        assert i == 3 || i == 6;
        if i == 3 {
          assert s[i + 1..j][1] == ',';
        } else {
          assert s[..i][5] == ',';
        }
      }
    }
    assert !MatchesAssign(s, false) by {
      assert '=' !in s;
      forall i, j, k | 0 <= i < j && j < k < |s|
        ensures !AssignAt(s, false, i, j, k)
      {
        if j + 3 <= k {
          assert s[j..j + 3][1] == s[j + 1] && s[j + 1] in s;
        }
      }
    }
  }

  /** A return statement has the shape of a declaration: nothing excludes it. */
  lemma ExampleReturn()
    ensures IsDeclaration("return 0;")
  {
    var s := "return 0;";
    assert s[..6] == "return" && s[7..8] == "0";
    assert PlainAt(s, false, 6, 8);
  }

  /** An assignment to an existing variable is not a declaration. */
  lemma ExampleAssignment()
    ensures !IsDeclaration("x = 5;")
  {
    var s := "x = 5;";
    assert !MatchesPlain(s, true) by {
      forall i, j | 0 <= i < j < |s| && s[i] == ' ' && s[j] == ';'
        ensures !PlainAt(s, true, i, j)
      {
        assert j == 5;
        assert i == 1 || i == 3;
        if i == 1 {
          assert s[i + 1..j][0] == '=';
        } else {
          assert s[..i][2] == '=';
        }
      }
    }
    assert !MatchesAssign(s, true) by {
      forall i, j, k | 0 <= i < j && j < k < |s| && s[i] == ' '
        ensures !AssignAt(s, true, i, j, k)
      {
        assert i == 1 || i == 3;
        if j + 3 <= k {
          assert s[j..j + 3][1] == s[j + 1];
        }
      }
    }
    DeclarationIsMultiMatch(s);
  }
}
