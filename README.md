# moulinorme in Dafny

A Dafny model of the C-style norm checker *moulinorme*. The checker takes a
source file as a list of text lines and produces norm violations: a banner
header of six fixed lines, a column limit of 80, indentation in multiples of
four, no trailing white space, snake-case file and function names, at most four
parameters and twenty body lines per function, at most five functions per file,
no comment inside a function body, a space after control keywords, and, in the
older C handler, the declaration zone at the head of each function body.

The model follows the Python code file by file:

- `moulinorme/types.py` becomes module `Types`: the closed `Severity`
  enumeration, `NormMessage`, its run-time argument checks, `is_ok` and the
  plain rendering.
- `moulinorme/source.py` is the current engine. Its class hierarchy (`SourceFile`,
  `Makefile`, `CFileDefs`, `HFile`, `CFile`) becomes one class,
  `Engine.SourceFile`, with a `kind` field. Each `check_*` method appends to
  the `messages` field and is proved to append exactly the messages of a
  reference function (module `Rules`). The properties the engine promises are
  lemmas about those functions. The pure parts have modules of their own:
  - `Banner`: the six header tests;
  - `Prototype`: the prototype patterns and the name and argument extraction;
  - `Extraction`: the reference pass of `extract_functions`;
  - `CommentRule`: the quote-aware comment rule;
  - `Report`: the stable sort by line, printing and `norm_ok`.
- `addons/c.py`, the older C handler, becomes class
  `CAddon.MoulinetteAddon`. It reports through `CAddon.Reporter`, whose
  `reported` sequence stands for the checker object's report function. Its
  reference functions and lemmas are split across three modules:
  - `CSplit`: the brace splitter;
  - `CDeclarations`: the four-pattern declaration classifier;
  - `CReports`: the declaration-zone state machine and the threshold rules.
- `moulinorme.py`, the legacy helpers, becomes module `Legacy`:
  - `escape_separator`;
  - the header check with its single "wrong header, lines …" report;
  - the column check;
  - the line normaliser with tab stops of 4.
- `PyStr` gives the Python string built-ins the code relies on, with Python's
  semantics: `strip` and its variants, `find`, slicing with negative bounds,
  `split`, `replace`, `expandtabs` and `str(int)`.

The regular expressions of the source are written as hand-coded predicates over
the same character classes, with the same anchoring and the same
backtracking outcome. The legacy header pattern built with `escape_separator`
is read as the literal separator (see "## Left out").

## Behaviours worth knowing

- The declaration classifier (addons/c.py:76-88) has no exception for
  `return`: "return 0;" matches the single-declarator pattern, so it is
  classified as a declaration (`CDeclarations.ExampleReturn`).
- The free banner lines must have no trailing white space
  (moulinorme/source.py:98-102), so a free line "** " fails position 3
  (`Banner.ExampleBannerTrailingSpace`).

## Model

| member | source | states |
|---|---|---|
| Types.Severity.Name | moulinorme/types.py:43-64 | every display name ("Ok", "Info", "Minor", "Major") has at least two characters |
| Types.Instantiate | moulinorme/types.py:34-64 | instantiating the base severity class raises, and only it does; each subclass gives the severity whose display name is the class's own |
| Types.NamesDistinguish | moulinorme/types.py:46-64 | two severities whose display names agree on their first two characters are the same severity |
| Types.RenderDeterminesSeverity | moulinorme/types.py:88-89 | two messages with the same plain rendering have the same severity |
| Types.RenderEndsWithLineAndMessage | moulinorme/types.py:88-89 | the plain rendering ends with ":" then the line number in decimal, ": " and the message |
| Types.NewNormMessage | moulinorme/types.py:67-80 | construction succeeds exactly when filename and message are strings, line an integer and severity a severity, and then stores the four arguments unchanged; otherwise the first ill-typed argument, in the order filename, line, message, severity, raises its own TypeError text |
| Legacy.EscapeSeparator | moulinorme.py:34-38 | the result is twice as long as the separator, with a backslash before each of its characters |
| Legacy.UnescapeEscaped | moulinorme.py:34-47 | reading every second character of an escaped separator gives the separator back, so for a separator without letters or digits (such as "**") the escaped pattern matches it literally |
| Legacy.EscapedFormUnique | moulinorme.py:34-38 | the escaped form of a separator is unique |
| Legacy.Numbers | moulinorme.py:46-60 | one decimal string per position, in order |
| Legacy.WrongLines | moulinorme.py:44-56 | on six lines or more, the wrong-line list is exactly the failing banner positions among 1..6, in test order |
| Legacy.AllSixTests | moulinorme.py:45-56 | running the six tests in turn finds every failing position |
| Legacy.CheckHeader | moulinorme.py:40-60 | fewer than six lines, or six failures, print one "missing header"; one to five failures print one "wrong header, lines …" line listing them joined by ", "; no failure prints nothing |
| Legacy.SmallNumber | moulinorme.py:46-56 | a banner position (below 10) prints as its single digit |
| Legacy.ListingCons | moulinorme.py:60 | putting a digit and ", " in front of a listing lists one more position |
| Legacy.ListingShape | moulinorme.py:60 | joining one-digit positions with ", " writes each digit every three characters, separated by ", " |
| Legacy.WrongHeaderListing | moulinorme.py:44-60 | the "wrong header" listing names positions in strictly ascending order, and names position p exactly when the test for p fails |
| Legacy.ExampleListing | moulinorme.py:60 | failures at lines 3 and 5 are listed as "3, 5" |
| Legacy.ColumnReportsMatchRule | moulinorme.py:62-68 | the printed column reports correspond one to one, in order, to the current engine's F3 messages, with the same line numbers and widths |
| Legacy.ReportsForExtend | moulinorme.py:64-68 | that correspondence survives one more line |
| Legacy.CheckColumns | moulinorme.py:62-68 | one printed line per line whose length plus one exceeds 80, in order, giving that width and the 1-based line number |
| Legacy.LegacyLine | moulinorme.py:74 | a normalised line holds no newline and no tab |
| Legacy.NoNewlineAfterExpand | moulinorme.py:74 | tab expansion adds no newline |
| Legacy.LinesToList | moulinorme.py:70-75 | one normalised line per line read, in order |
| Legacy.ExpandTabsPlain | moulinorme.py:74 | a text without tabs or line breaks is unchanged by tab expansion |
| Legacy.TabPadding | moulinorme.py:74 | a tab becomes one to four spaces ending on a multiple of 4, and the text before it is kept |
| Legacy.TabLine | moulinorme.py:74 | the line with a tab is the expanded prefix, 1 to 4 spaces reaching a multiple of 4, then the rest |
| Legacy.LegacyLineAppend | moulinorme.py:74 | normalising a concatenation expands the second part from the column where the first one ends |
| Legacy.ExpandAppendWithoutNewline | moulinorme.py:74 | the same for any tab size |
| Legacy.TabAt | moulinorme.py:74 | a tab at column c becomes 4 - c % 4 spaces |
| Legacy.PaddedLine | moulinorme.py:74 | the padding spaces run up to the next multiple of 4 |
| Legacy.SameWithoutTabs | moulinorme.py:74 | without tabs, the legacy normaliser and the current one (tab size 1) produce the same line |
| PyStr.LStrip | moulinorme/source.py:158 | `lstrip` never lengthens its input |
| PyStr.LStripShape | moulinorme/source.py:158 | `lstrip` leaves a suffix that does not start with white space, and every character it drops is white space |
| PyStr.RStrip | moulinorme/source.py:158-169 | `rstrip` never lengthens its input |
| PyStr.RStripShape | moulinorme/source.py:158-169 | `rstrip` leaves a prefix that does not end with white space, and every character it drops is white space |
| PyStr.StripIsTrimmedSlice | moulinorme/source.py:262 | `strip` leaves a slice that neither starts nor ends with white space, empty exactly when the input is all white space |
| PyStr.StripTrimmed | moulinorme/source.py:262 | stripping text that neither starts nor ends with white space changes nothing |
| PyStr.StripNoSpace | moulinorme/source.py:262 | stripping text without white space changes nothing |
| PyStr.StripLeadingSpace | moulinorme/source.py:262 | a leading white-space character is dropped with the rest of the leading run |
| PyStr.RStripMinusStrip | moulinorme/source.py:158 | `len(rstrip) - len(strip)` is the number of leading white-space characters of a line that has another character, and 0 for a blank line |
| PyStr.RStripAllSpace | moulinorme/source.py:169 | `rstrip` of an all-white-space line is empty |
| PyStr.Find | moulinorme/source.py:264-279 | `find` gives the least index from the start where the pattern occurs, or -1 when it occurs nowhere from there |
| PyStr.FindAbsent | moulinorme/source.py:264-279 | a pattern with a character absent from the text is not found |
| PyStr.FindFirst | moulinorme/source.py:185-186 | when the pattern's first character does not occur before an occurrence, `find` returns that occurrence |
| PyStr.SliceBound | moulinorme/source.py:180-187 | a slice bound within range is kept, and a negative one counts from the end |
| PyStr.Slice | moulinorme/source.py:180-187 | a slice within bounds is the Dafny subsequence, and a slice never lengthens its input |
| PyStr.Split | moulinorme/source.py:196 | `split` gives at least one piece |
| PyStr.FindChar | moulinorme/source.py:196 | a character's first occurrence is where `find` stops, and -1 means the character is absent |
| PyStr.SplitPartsLackSeparator | moulinorme/source.py:196 | no piece of a split holds the separator |
| PyStr.JoinSplit | moulinorme/source.py:196 | joining the pieces with the separator gives the input back |
| PyStr.CountAppend | moulinorme/source.py:196 | occurrences add up over a concatenation |
| PyStr.SplitCount | moulinorme/source.py:195-199 | a split has one more piece than the text has separators, which is the argument count |
| PyStr.CountAfterFirst | moulinorme/source.py:196 | counting from the first occurrence on counts it once |
| PyStr.NoOccurrenceCount | moulinorme/source.py:196 | an absent character is counted 0 times |
| PyStr.RemoveAll | moulinorme/source.py:180 | `replace(c, "")` removes every occurrence of c and nothing else |
| PyStr.RemoveAbsent | moulinorme/source.py:54 | removing an absent character changes nothing |
| PyStr.Spaces | moulinorme/source.py:54 | n spaces |
| PyStr.ExpandChar | moulinorme/source.py:54 | tab expansion writes no tab, and keeps any other character |
| PyStr.NextColumn | moulinorme/source.py:54 | the output column advances by what was written, except after a line break |
| PyStr.ExpandTabsFrom | moulinorme/source.py:54 | the expanded text holds no tab |
| PyStr.ExpandTabsOne | moulinorme/source.py:54 | with tab size 1 each tab becomes exactly one space and nothing else changes |
| PyStr.ExpandTabsAppend | moulinorme/source.py:54 | a text without line breaks can be expanded piecewise, the second piece continuing at the column where the first ended |
| PyStr.TabReachesNextStop | moulinorme.py:74 | with tab size 4 a tab moves the output one to four columns on, to a multiple of 4 |
| PyStr.NatToString | moulinorme/source.py:120 | `str(n)` is a non-empty run of decimal digits |
| PyStr.ParseNatToString | moulinorme/source.py:120 | reading the decimal rendering back gives the number |
| PyStr.DigitValue | moulinorme/source.py:120 | a digit character stands for its value |
| PyStr.NatToStringInjective | moulinorme/source.py:120 | distinct numbers render differently |
| Banner.FailuresFromBounds | moulinorme/source.py:93-105 | at most one failure per banner position, each within the positions examined |
| Banner.FailuresFromShape | moulinorme/source.py:93-105 | the failing positions are listed in strictly ascending order, within 1..6 |
| Banner.FailuresFromHead | moulinorme/source.py:93-105 | a position heads its part of the list exactly when its test fails |
| Banner.FailuresFromMember | moulinorme/source.py:93-105 | a position is listed exactly when its test fails |
| Banner.FailuresFromMembers | moulinorme/source.py:93-105 | every position 1..6 is listed exactly when its test fails |
| Banner.Failed | moulinorme/source.py:94-105 | a position contributes nothing when its test passes and only itself when it fails |
| Banner.FailuresSplit | moulinorme/source.py:93-105 | the list built up to a position followed by the positions after it is the whole list |
| Banner.SixFailuresMeansAll | moulinorme/source.py:107-108 | six failures mean every one of the six tests failed, positions 1 to 6 |
| Banner.SixAscendingIsAll | moulinorme/source.py:107-108 | six strictly ascending positions within 1..6 are exactly 1..6 |
| Banner.AscendingInRange | moulinorme/source.py:107-108 | the k-th of six strictly ascending positions within 1..6 is k + 1 |
| Banner.FreeLineTrailingSpace | moulinorme/source.py:98-102 | a free banner line "**" passes and "** " (trailing space) fails |
| Banner.ExampleProjectLine | moulinorme/source.py:96 | "** EPITECH PROJECT, 2024" passes the project-line pattern |
| Banner.ExampleCommonPositions | moulinorme/source.py:94-105 | a well-formed six-line C banner passes positions 1, 2, 4, 5 and 6 |
| Banner.ExampleBannerAccepted | moulinorme/source.py:93-105 | a complete C banner has no failing position |
| Banner.ExampleBannerTrailingSpace | moulinorme/source.py:98 | the same banner with "** " as its third line fails at position 3 only |
| CommentRule.QuotePositions | moulinorme/source.py:265 | exactly the positions of the double quotes of the line |
| CommentRule.FlaggedAmong | moulinorme/source.py:264-275 | at most one flagged occurrence per marker |
| CommentRule.FlaggedCount | moulinorme/source.py:264-275 | a line draws at most three comment messages |
| CommentRule.FlaggedCountByMarker | moulinorme/source.py:264-275 | the count is one per marker ("//", "/*", "*/") whose first occurrence is not between quotes |
| CommentRule.QuotesAround | moulinorme/source.py:268-272 | `lower` holds exactly when some quote lies before the marker, `higher` exactly when some quote lies after it |
| CommentRule.QuotePositionsAround | moulinorme/source.py:265-272 | scanning the quote positions answers "is there a quote before / after" on the line itself |
| CommentRule.ExampleTrailingComment | moulinorme/source.py:264-275 | "x = 1; // done" draws one comment message |
| CommentRule.ExampleQuotedMarker | moulinorme/source.py:264-275 | a "//" between two quotes draws none |
| CommentRule.ExampleFirstOccurrenceOnly | moulinorme/source.py:264 | only the first occurrence counts: a quoted "//" hides a later real comment |
| Prototype.ProtoRunEnd | moulinorme/source.py:210-220 | the scan ends at the first character outside `[a-zA-Z0-9_*]` |
| Prototype.AllProtoSlice | moulinorme/source.py:210-220 | a slice is in the class exactly when each of its characters is |
| Prototype.ProtoRunEndAt | moulinorme/source.py:210-220 | the scan stops at the first character outside the class |
| Prototype.MatchesPrototypeIff | moulinorme/source.py:210-220 | the greedy scan accepts exactly the lines of the form: class run, one space, class run, "(", anything, the closing character at the end |
| Prototype.MatchesPrototypeHasShape | moulinorme/source.py:210-220 | a line the scan accepts has that form |
| Prototype.ShapeIsMatched | moulinorme/source.py:210-220 | a line of that form is accepted |
| Prototype.PrototypeKindsDisjoint | moulinorme/source.py:210-220 | no line is both a one-line and a continued prototype |
| Prototype.ExtractPrototypeName | moulinorme/source.py:174-180 | the name holds no '*' and is no longer than the prototype |
| Prototype.ExtractedNameIsGroup | moulinorme/source.py:174-180 | for a recognised prototype the extracted name is the pattern's name group with '*' removed |
| Prototype.NameBounds | moulinorme/source.py:177-178 | in a recognised line the first space and the next "(" delimit the name group |
| Prototype.NoSpaceInGroup | moulinorme/source.py:180 | the name group holds no white space, so the final `strip` keeps it whole |
| Prototype.StripEach | moulinorme/source.py:196-197 | one stripped part per piece, in order |
| Prototype.ExtractedArgs | moulinorme/source.py:182-199 | `None` exactly for an empty parameter text, the empty list exactly for "void", otherwise one stripped part per comma-separated piece, one more than the commas |
| Prototype.ExamplePrototypeName | moulinorme/source.py:174-180 | "int add(int a, int b)" is a one-line prototype named "add" |
| Prototype.ExampleRecognised | moulinorme/source.py:210 | its name group is "add" |
| Prototype.ExamplePrototypeArgs | moulinorme/source.py:182-199 | its arguments are "int a" and "int b" |
| Prototype.ExampleArgText | moulinorme/source.py:185-187 | its parameter text is "int a, int b" |
| Prototype.ExampleStrips | moulinorme/source.py:187-197 | stripping keeps inner spaces and drops outer ones |
| Prototype.ExampleSplit | moulinorme/source.py:196 | "int a, int b" splits into "int a" and " int b" |
| Extraction.NextStarting | moulinorme/source.py:224-242 | the least index from the start whose line begins with the character, or none when no later line does |
| Extraction.BodyFrom | moulinorme/source.py:240-244 | a found body is the lines from its first line up to, not including, the next line beginning with "}", none of which begins with "}", and the pass resumes after that line |
| Extraction.FunctionAt | moulinorme/source.py:205-244 | a function found at a line resumes the pass after it |
| Extraction.FoundIsWellPlaced | moulinorme/source.py:205-244 | a function found at index i has its prototype on line i + 1, is well formed (body is the slice up to the next "}" line, no body line begins with "}", a one-line prototype's body starts at line i + 3) and the pass resumes after its closing brace |
| Extraction.FoundSingle | moulinorme/source.py:210-244 | the same for a one-line prototype |
| Extraction.FoundContinued | moulinorme/source.py:220-244 | the same for a continued prototype, whose body starts two lines after the line beginning with "{" |
| Extraction.ScanWellPlaced | moulinorme/source.py:201-244 | every extracted function is well formed, with its prototype after the index the pass started from |
| Extraction.ScanOrdered | moulinorme/source.py:201-244 | the extracted functions come in line order and each closes before the next one's prototype |
| Extraction.ScanMissesNothing | moulinorme/source.py:201-244 | when the pass completes, every index outside the extracted functions (prototype line to closing brace) holds no prototype, so no function is skipped |
| Extraction.ScanStopsAtTruncation | moulinorme/source.py:201-244 | when the pass does not complete, it stops at an index after every extracted function where the function runs past the last line (the uncaught StopIteration), and every earlier index outside the extracted functions holds no prototype |
| Extraction.InOrderCons | moulinorme/source.py:201-244 | a function closing before the rest begins, followed by ordered functions, keeps the order |
| Extraction.ExampleExtraction | moulinorme/source.py:201-244 | a one-line prototype, its brace, one body line and "}" give one function with prototype line 1, first body line 3, and a complete pass |
| Extraction.ExampleExtractedSignature | moulinorme/source.py:237-238 | that function is named "add" with arguments "int a" and "int b" |
| Extraction.ExampleAddStep | moulinorme/source.py:210-244 | the step at line 1 finds it and resumes after the closing brace |
| Extraction.ExampleTruncated | moulinorme/source.py:240-242 | a body whose closing brace never comes ends the pass incomplete, with no function |
| Rules.LinesOf | moulinorme/source.py:56-62 | the line numbers of the messages, in order |
| Rules.InvalidHeader | moulinorme/source.py:110-111 | one Major "G1, invalid header" per failing position, at that position, in order |
| Rules.AllFailFrom | moulinorme/source.py:93-107 | the failures from a position on are all of the remaining positions exactly when each of those tests fails |
| Rules.HeaderMissingCollapse | moulinorme/source.py:89-108 | the header check reports a single Major "G1, missing header" at line 0 exactly when the file has fewer than six lines or all six positions fail |
| Rules.InvalidHeaderLines | moulinorme/source.py:110-111 | the "invalid header" messages are at exactly the given positions |
| Rules.HeaderInvalidPositions | moulinorme/source.py:93-111 | otherwise one "invalid header" per failing position, in ascending order, and position p is reported exactly when its test fails |
| Rules.FewFailures | moulinorme/source.py:107 | when some position passes there are fewer than six failures |
| Rules.RuleMessagesShape | moulinorme/source.py:153-172 | a per-line rule (indentation, trailing white space, and the column check at lines 116-122) reports at most one message per line, each on a line of the file, in strictly ascending line order |
| Rules.RuleMessagesSound | moulinorme/source.py:153-172 | each message is the rule's message for a line the rule flags |
| Rules.HasLineAppend | moulinorme/source.py:56-62 | a line is reported in a concatenation exactly when it is reported in one part |
| Rules.RuleMessagesLines | moulinorme/source.py:153-172 | line n draws a message of the rule exactly when the rule flags line n |
| Rules.ColumnBoundary | moulinorme/source.py:116-122 | a 79-character line is accepted and an 80-character line is reported as "F3, too long line (81 columns)" at its line |
| Rules.IndentIsLeadingSpace | moulinorme/source.py:158 | for a line with a visible character the indentation is its leading white space |
| Rules.BlankLineRules | moulinorme/source.py:156-172 | a white-space-only line never gets the indentation message, and gets "trailing whitespace" exactly when it is not empty |
| Rules.ArityMessages | moulinorme/source.py:250-254 | at most one F5 message, and none exactly when the arguments are a list of at most four |
| Rules.CommentMessagesShape | moulinorme/source.py:264-275 | one Minor F6 per flagged marker, all alike |
| Rules.TrailMessagesShape | moulinorme/source.py:278-281 | at most one L3 per trail, each naming the keyword |
| Rules.KeywordMessagesShape | moulinorme/source.py:277-281 | at most two L3 messages per keyword, each naming one of the keywords, all on the body line |
| Rules.LineMessageBounds | moulinorme/source.py:262-281 | a body line draws at most 3 comment messages and at most 12 keyword messages |
| Rules.BodyMessagesLines | moulinorme/source.py:260-262 | every message of the first n body lines is on one of those lines, counted from the first body line |
| Rules.CountMessages | moulinorme/source.py:302-304 | at most one O3 message, present exactly when there are more than five functions, Major at line 0 |
| Rules.ArityCases | moulinorme/source.py:250-254 | an empty parameter text gives exactly the "(void)" message, and "void" gives none |
| Engine.NormaliseLine | moulinorme/source.py:54 | a loaded line holds no newline and no tab, and is as long as the raw line less its newlines (a tab becomes one space) |
| Engine.NormaliseLines | moulinorme/source.py:50-54 | one loaded line per raw line, each the normalised raw line |
| Engine.Advance | moulinorme/source.py:204-218 | `next()` on the index iterator is exhausted exactly when the cursor reached the line count, and otherwise yields the cursor and moves it on by one |
| Engine.SourceFile.constructor | moulinorme/source.py:33-54 | a new checker holds the file's name, stem, kind and raw lines, the normalised lines, and no messages |
| Engine.SourceFile.AppendMessage | moulinorme/source.py:56-62 | exactly one message, carrying the file name, is added at the end |
| Engine.SourceFile.PrintMessages | moulinorme/source.py:64-75 | the messages are stably sorted by line when asked, and the printed lines are those of the messages that are violations, or all of them when asked |
| Engine.SourceFile.NormOk | moulinorme/source.py:77-84 | true exactly when no message is a violation |
| Engine.SourceFile.CheckHeader | moulinorme/source.py:86-111 | appends exactly the header messages of the file's banner delimiters |
| Engine.SourceFile.AppendInvalidHeader | moulinorme/source.py:110-111 | appends one "G1, invalid header" per failing position, in order |
| Engine.FailingPositions | moulinorme/source.py:93-105 | the 1-based positions whose banner test fails, in ascending order |
| Engine.SourceFile.CheckColumns | moulinorme/source.py:113-122 | appends exactly the column messages of the lines |
| Engine.SourceFile.CheckFilename | moulinorme/source.py:149-151 | appends the O4 message exactly when the stem is not snake case |
| Engine.SourceFile.CheckIndent | moulinorme/source.py:153-162 | appends exactly the indentation messages of the lines |
| Engine.SourceFile.CheckTrailingWhitespace | moulinorme/source.py:164-172 | appends exactly the trailing-white-space messages of the lines |
| Engine.SourceFile.ExtractFunctions | moulinorme/source.py:201-244 | the functions are those of the reference scan of the lines, and the pass completes exactly when the scan never runs past the last line |
| Engine.ReadFunctionAt | moulinorme/source.py:207-235 | the reading at one line index is the reference scan's step there |
| Engine.ReadContinuation | moulinorme/source.py:223-226 | stops at the next line starting with "{", and the prototype is the first line joined to the stripped continuation lines |
| Engine.ReadBody | moulinorme/source.py:240-242 | stops at the next line starting with "}", and the body is the lines in between |
| Engine.ReadBodyStep | moulinorme/source.py:236-244 | the function read from a body start is the reference scan's |
| Engine.SourceFile.CheckFunction | moulinorme/source.py:246-281 | appends exactly the function's messages |
| Engine.SourceFile.CheckSignature | moulinorme/source.py:246-258 | appends the name, arity and length messages |
| Engine.SourceFile.CheckName | moulinorme/source.py:247-248 | appends F2 exactly when the name is not snake case |
| Engine.SourceFile.CheckArity | moulinorme/source.py:250-254 | appends the arity message of the parameters |
| Engine.SourceFile.CheckLength | moulinorme/source.py:256-258 | appends F4 exactly when the body has more than 20 lines |
| Engine.SourceFile.CheckBody | moulinorme/source.py:260-281 | appends the messages of every body line, numbered from the first body line |
| Engine.SourceFile.CheckLine | moulinorme/source.py:261-281 | appends the comment and keyword messages of the stripped line |
| Engine.SourceFile.CheckComments | moulinorme/source.py:264-275 | appends one F6 per comment marker found outside a pair of quotes |
| Engine.SourceFile.CheckKeywords | moulinorme/source.py:277-281 | appends one L3 per keyword and trail found |
| Engine.SourceFile.CheckFile | moulinorme/source.py:283-307 | when the extraction completes, appends exactly the messages of the file's kind; a `.c` file whose extraction runs past the end adds nothing; a `.c` file is left holding the extracted functions (the partial list when the extraction stops early), and the other kinds keep their functions unchanged |
| Engine.SourceFile.CheckCommon | moulinorme/source.py:124-128 | appends the header then the column messages |
| Engine.SourceFile.CheckCDefs | moulinorme/source.py:288-300 | appends the file-name, indentation and trailing-white-space messages |
| Engine.SourceFile.CheckFunctions | moulinorme/source.py:302-307 | appends the count message, then the messages of every function |
| Engine.SourceFile.CheckFunctionCount | moulinorme/source.py:302-304 | appends O3 exactly when there are more than five functions |
| Engine.SourceFile.CheckEachFunction | moulinorme/source.py:306-307 | appends the messages of every function, in order |
| Report.OnLineMembers | moulinorme/source.py:67-68 | the messages the sort keeps together for one line are exactly the messages on that line |
| Report.OnLineAppend | moulinorme/source.py:67-68 | the messages of a line in a concatenation are those of each part, in order |
| Report.InsertByLine | moulinorme/source.py:67-68 | one insertion step of the sort adds exactly one element |
| Report.InsertIsPermutation | moulinorme/source.py:67-68 | an insertion adds the message and loses nothing |
| Report.InsertKeepsSorted | moulinorme/source.py:67-68 | inserting into messages in line order keeps them in line order |
| Report.InsertOnLine | moulinorme/source.py:67-68 | an insertion appends the message to its own line and keeps every line's order |
| Report.SortByLine | moulinorme/source.py:67-68 | the sort keeps the number of messages |
| Report.SortIsPermutation | moulinorme/source.py:67-68 | the sorted messages are a permutation of the messages |
| Report.SortIsSorted | moulinorme/source.py:67-68 | the sorted messages are in non-decreasing line order |
| Report.SortIsStable | moulinorme/source.py:67-68 | the sort is stable: the messages of each line keep their relative order |
| Report.Printed | moulinorme/source.py:70-75 | at most one printed line per message, and one per message when ok messages are included |
| Report.PrintsNothingIffAllOk | moulinorme/source.py:70-84 | without ok messages nothing is printed exactly when `norm_ok` holds |
| CDeclarations.DeclarationIsMultiMatch | addons/c.py:76-88 | the classifier answers yes exactly when a several-declarator pattern matches |
| CDeclarations.MultipleNeedsComma | addons/c.py:77-84 | a line without "," never draws "L5, multiple declarations" |
| CDeclarations.NeedsSemicolon | addons/c.py:77-88 | a line without ";" (a blank line in particular) is not a declaration |
| CDeclarations.ExampleSingle | addons/c.py:76-88 | "int x;" is a single declaration |
| CDeclarations.ExampleMultiple | addons/c.py:76-88 | "int x, y;" is a declaration that draws "multiple declarations" |
| CDeclarations.ExampleReturn | addons/c.py:76-88 | "return 0;" is classified as a declaration |
| CDeclarations.ExampleAssignment | addons/c.py:76-88 | "x = 5;" is not a declaration |
| CSplit.DelimitedExtend | addons/c.py:47-55 | a function already finished stays finished, with the same lines, when more lines follow |
| CSplit.CloseDelimited | addons/c.py:48-51 | an open function that reaches a line starting with "}" is finished with exactly the lines since its "{" |
| CSplit.KeepLineCells | addons/c.py:52 | keeping a line grows the function's lines by it and leaves its numbers alone |
| CSplit.KeepOpen | addons/c.py:52 | an open function keeps a line that neither closes it nor is "{" |
| CSplit.KeepBrace | addons/c.py:52-55 | a "{" inside an open function is kept as a line and adds the number of the line above |
| CSplit.Open | addons/c.py:53-55 | a "{" line opens a function numbered by the line above |
| CSplit.SplittingConsistent | addons/c.py:41-55 | after every line, each finished function is delimited by a "{" and the next line starting with "}", and the open one holds every line since its "{" |
| CSplit.FunctionsDelimited | addons/c.py:41-74 | every returned function opened at a "{" line and holds exactly the lines up to the next line starting with "}" |
| CSplit.SplittingCovers | addons/c.py:47-55 | after every line, each "{" line read so far lies in the extent of a finished function or at or after the "{" of the open one |
| CSplit.StepKeepsCovered | addons/c.py:47-55 | a "{" line covered before a line is read stays covered after it, the open function becoming finished when the line starts with "}" |
| CSplit.StepCoversBrace | addons/c.py:52-55 | a "{" line is covered as soon as it is read: it opens a function or lies inside the open one |
| CSplit.FunctionsCover | addons/c.py:41-74 | every "{" line followed later by a line starting with "}" lies in the extent of a returned function, so no closed function is skipped |
| CSplit.OpenAfterCloser | addons/c.py:47-55 | the function still open at the end opened after every line that starts with "}" |
| CSplit.UnclosedNotReturned | addons/c.py:47-74 | lines none of which starts with "}" add no function: a function left open is not returned |
| CSplit.FlatFunction | addons/c.py:47-55 | a function without a nested "{" is its opening number followed by the lines between the braces |
| CSplit.AllTexts | addons/c.py:52 | cells that are all lines are their own lines |
| CSplit.ExampleSplit | addons/c.py:41-74 | a prototype, "{", two lines, "}" then an unclosed "{" give one function, numbered 1, with the two lines |
| CReports.FlattenMembers | addons/c.py:47-72 | a report of the whole run is a report of one of its steps, and back |
| CReports.CommentReportsAmongShape | addons/c.py:58-70 | a line draws one "F6, comment" per flagged marker and nothing else |
| CReports.CommentGroups | addons/c.py:57-72 | one group of comment reports per line |
| CReports.CommentLine | addons/c.py:57-70 | line n draws one "F6, comment" per flagged marker when n is above 6, and none otherwise, inside a function or not |
| CReports.AllDeclAt | addons/c.py:107-117 | every line of a run of declarations is a declaration |
| CReports.KeywordReportsAmongShape | addons/c.py:124-127 | every keyword report is "missing space after" a keyword found directly followed by "(" |
| CReports.KeywordRule | addons/c.py:124-127 | a keyword is reported exactly when it occurs directly followed by "(" |
| CReports.FindFound | addons/c.py:125 | a search from the start finds a pattern exactly when it occurs |
| CReports.MissingSpaceTextInjective | addons/c.py:127 | different keywords give different messages |
| CReports.BodyGroups | addons/c.py:105-127 | one group of reports per body line |
| CReports.BodyGroupAt | addons/c.py:105-121 | body line k is reported at file line funcLine + k + 2, with the zone flag equal to "every earlier body line is a declaration" |
| CReports.ZoneTextsDiffer | addons/c.py:83-127 | the zone, classifier and keyword messages are distinct |
| CReports.LineZone | addons/c.py:107-121 | on one line: "declared at the beginning" exactly for a declaration read with a false flag, "a line break should separate" exactly for a non-blank non-declaration read with a true flag, "only one line break" exactly for a blank line read with a false flag |
| CReports.ZoneLine | addons/c.py:105-121 | the zone rules on one line in terms of whether it is the first line and whether every earlier line is a declaration |
| CReports.ZoneRules | addons/c.py:105-121 | the zone rules hold on every body line of a function |
| CReports.SeparateAtMostOnce | addons/c.py:115-118 | "a line break should separate" is reported on at most one body line |
| CReports.ArityRules | addons/c.py:97-103 | an empty parameter text draws the "(void)" report; four commas or more draw "too many parameters" with the number of parts; otherwise nothing |
| CReports.SpacingAfterClosingBrace | addons/c.py:132-135 | for a function without a nested "{", "G2, wrong function spacing" is reported exactly when the two lines after its closing brace both exist and are empty |
| CReports.LeadingTexts | addons/c.py:105-108 | the lines read before the first number among the cells |
| CReports.LeadingTextsOf | addons/c.py:105-108 | a run of lines ended by a number or by the end is the leading run |
| CReports.SplitFunctionsHeaded | addons/c.py:91-96 | every returned function starts with its number, which names a line of the file |
| CReports.CompletesNoInnerNum | addons/c.py:105-108 | a function's check runs to its end exactly when no cell after its number is a number |
| CReports.CFunctionsComplete | addons/c.py:90-139 | the whole check runs to its end exactly when no returned function has a "{" line in its body |
| CReports.TooManyFunctions | addons/c.py:137-139 | "O3, too many functions" is reported exactly when every function completed and there are more than five |
| CReports.FunctionsNotCount | addons/c.py:92-135 | no per-function report has the function-count report's code |
| CReports.FunctionNotCount | addons/c.py:97-135 | no report of one function has the function-count report's code |
| CReports.BodyNotCount | addons/c.py:105-127 | no body report has the function-count report's code |
| CReports.ArityNotCount | addons/c.py:97-103 | no arity report has the function-count report's code |
| CReports.LineNotCount | addons/c.py:106-127 | no report of a body line has the function-count report's code |
| CReports.KeywordsNotCount | addons/c.py:124-127 | no keyword report has the function-count report's code |
| CAddon.Reporter.constructor | addons/c.py:37-39 | the report function's record starts empty |
| CAddon.Reporter.AddNormViolation | addons/c.py:70 | one call of the report function records exactly one report |
| CAddon.FunctionsReportsStop | addons/c.py:92-108 | once a function fails to complete, no later function is checked |
| CAddon.MoulinetteAddon.constructor | addons/c.py:37-39 | the handler keeps the checker object and the verbose flag |
| CAddon.MoulinetteAddon.ReportComments | addons/c.py:58-70 | reports exactly the comment reports of the line |
| CAddon.MoulinetteAddon.SplitFunctions | addons/c.py:41-74 | returns the functions of the reference splitting, and reports exactly the comment reports of every line |
| CAddon.MoulinetteAddon.IsVariableDecl | addons/c.py:76-88 | answers the classifier's verdict, and reports "multiple declarations" exactly when only the several-declarator patterns match |
| CAddon.MoulinetteAddon.CheckBodyLine | addons/c.py:106-127 | reports exactly the line's reports and returns the zone flag after it |
| CAddon.MoulinetteAddon.CheckKeywords | addons/c.py:123-127 | reports exactly the keyword reports of the line |
| CAddon.MoulinetteAddon.CheckArity | addons/c.py:97-103 | reports exactly the parameter reports of the prototype line |
| CAddon.MoulinetteAddon.CheckBody | addons/c.py:105-127 | completes exactly when every cell is a line, and reports exactly the reports of the lines read |
| CAddon.MoulinetteAddon.CheckFunction | addons/c.py:92-135 | completes exactly when the function completes, and reports exactly its reports |
| CAddon.MoulinetteAddon.CheckSize | addons/c.py:129-135 | reports exactly the length and spacing reports |
| CAddon.MoulinetteAddon.CFunctions | addons/c.py:90-139 | completes exactly when every returned function completes, and reports exactly the reference reports of the file (comments, then the function checks, then the count) |
| CAddon.MoulinetteAddon.CheckFunctions | addons/c.py:92-135 | completes exactly when every function completes, and reports exactly the reference reports of the functions |

## Left out

- File reading, `print` and colour output (`colorized`, the terminal styles): lines come in as a `seq<string>`, and what would be printed comes out as a sequence of strings.
- Path handling: `expanduser().resolve()` and `splitext` are not modelled. The file name is a string, and `check_filename` is given the stem.
- `moulinorme/__main__.py`, the command-line block of `moulinorme.py`, dynamic addon loading, `addons/h.py`, `setup.py` and `moulinorme/__init__.py` are not part of this model.
- The regular-expression engine is replaced by one predicate per pattern. `\d` is taken as the ASCII digits 0-9, whereas Python's `re` also accepts other Unicode decimal digits.
- `add_norm_violation` is called on the checker object the C handler receives (addons/c.py:39, 70), but `moulinorme.py`'s `Moulinette` does not define it. It is modelled as an append of (message, file, line, severity) to `CAddon.Reporter.reported`, with severity 1 as Minor and 2 as Major.
- `check_indent`, called on that same object from `addons/c.py`, is not defined on `Moulinette` either, and `process_file` (addons/c.py:141-158), which calls it, is left out with it.
- The handler's `verbose` flag is stored but never read. The `dquotes` list built at addons/c.py:123 is never used and is not modelled.
- Exceptions are modelled as outcomes:
  - A StopIteration out of `extract_functions` ends the pass with `complete == false`. The functions recorded before it are kept. `CheckFile` then adds no message, because a `.c` file extracts its functions before any check runs.
  - The AttributeError that `c_functions` raises on a number among a function's lines (after a nested "{" line) gives `completed == false`. The reports made before it are kept.
  - Instantiating the base `Severity` gives `None`.
  - A `NormMessage` built with an argument of the wrong type gives `Raised` with the TypeError text. Python's `bool` counts as an `int` there, which the `Value` type does not distinguish.
- Types.Severity.Name: its own contract only bounds the length of the name. The exact display names are stated by `Types.Instantiate`.
- Legacy.UnescapeEscaped: `Legacy.ProjectPatternMatches` reads each backslash pair of the escaped separator as its character. Python's `re` does that only for characters other than letters and digits (`\d` or `\s` are classes, `\q` is an error). This holds for the "**" separator that the default argument (moulinorme.py:40) and every caller (addons/c.py:147) pass, but the model does not capture separators that contain letters or digits.
