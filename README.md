# noblanks: a Dafny model of the blank-line gap detector

noblanks is a Go analysis pass. It reports a blank line between two adjacent
top-level statements of a function body or a function literal (closure).
This project models its detection logic and proves properties of that model.

- **Source index** (`source_index.dfy`, module `SourceIndex`). A file is its
  raw bytes plus a token file that maps each 1-based line to the byte offset
  where the line starts. A line's text runs from that offset to the first
  line feed or carriage return, or to the end of the content. A line is blank
  when it holds only spaces and tabs. `hasBlankLine` walks an inclusive range
  of lines. It skips each line it cannot read: the start is NoPos, the file
  read fails, or the offset is at or past the end of the content. It answers
  false at the first readable line that is not blank.
- **Report** (`report.dfy`, module `Report`). A diagnostic holds a path, a
  line, a column and a function name. Its text is
  `<path>:<line>:<column>: blank lines inside function body (<name>)`, with
  the numbers written the way Go's `%d` writes them.
- **Gap detector** (`gap_detector.dfy`, module `GapDetector`). `checkBody`
  looks at each pair `(stmts[i], stmts[i+1])`. It skips the pair when:
  - the two positions are in different files;
  - the file is outside the base directory;
  - the second statement starts at most one line after the first ends;
  - there is no token file.
  Otherwise it reports at the second statement when `hasBlankLine` holds for
  the lines in between. `checkFile` skips a file outside the base directory.
  It then gives checkBody each function declaration or function literal that
  has a non-empty body. A declaration passes its identifier; a literal passes
  `"anonymous"`. Reports go to a `Pass` object that appends them to a
  sequence, in the role of `pass.Reportf`.
- **Scenarios** (`scenarios.dfy`). Concrete file contents run through the
  specification functions.

Each loop of the source is a method: `IsBlank`, `HasBlankLine` with its
inner line-extraction loop, `CheckBody` and `CheckFile`. Each is proved
against a specification function: `Blank`, `AllBlankOrUnreadable`,
`BodyReports` and `FileReports`. The lemmas state what the source promises
about those functions.

`hasBlankLine` returns false at the first readable non-blank line
(analyzer.go:139-141). So a gap is reported only when every interior line is
blank or unreadable. `CommentBesideBlankNoReport` shows a comment line beside
a blank line giving no report. checkFile skips only nil or empty bodies
(analyzer.go:75-77). A one-statement body runs the pair loop (analyzer.go:97)
zero times, so it gives no report (`BodyReportsBound`).

## Model

| member | source | states |
|---|---|---|
| SourceIndex.IsBlank | analyzer.go:154-161 | true iff every byte is a space or a tab; the empty line is blank, and any other byte (CR, non-ASCII whitespace, text) makes it non-blank |
| SourceIndex.LineEnd | analyzer.go:134-137 | the scan stops at the first LF or CR at or after the line start, or at the end of the content: no byte before it is a line break, and it is a line break or the end |
| SourceIndex.LineText | analyzer.go:134-138 | the extracted line is a contiguous slice of the content that starts at the line-start offset, holds no LF or CR, and is followed by a line break or the end of the content |
| SourceIndex.ReadLine | analyzer.go:125-138 | a line is readable iff its start is not NoPos, the file's content can be read, and the offset is before the end of the content; a readable line's text is the slice up to the next line break |
| SourceIndex.HasBlankLine | analyzer.go:123-144 | true iff every line of [startLine, endLine] is blank or unreadable; one readable non-blank line makes it false, and an empty range gives true |
| Report.Digits | analyzer.go:118 | the `%d` rendering of a natural number is a non-empty string of decimal digits with no leading zero |
| Report.DigitsRoundTrip | analyzer.go:118 | reading the decimal digits back gives the number |
| Report.DecimalRoundTrip | analyzer.go:118 | the signed `%d` rendering of a line or column reads back as that number |
| Report.Message | analyzer.go:118 | the report text starts with the path and a colon and ends with "blank lines inside function body (<funcName>)" |
| Report.MessageFormat | analyzer.go:118 | the report text is `<path>:<line>:<column>: blank lines inside function body (<funcName>)`, and the two numbers in it read back as the diagnostic's line and column |
| GapDetector.IsInBaseDir | analyzer.go:92 | a file is in the base directory iff its path is the base directory's path followed by anything (a raw string prefix) |
| GapDetector.BodyReportsBound | analyzer.go:96-120 | none for a body of fewer than two statements, at most len-1 reports in all |
| GapDetector.BodyReportsSound | analyzer.go:97-119 | every report comes from a pair (i, i+1) in one file, inside the base directory, at least two lines apart, with a token file, and with every line between blank or unreadable; it names the second statement's line and column, the relative path and the function name; the reports after it are exactly those of the pairs after j, so each pair gives at most one report and reports keep pair order |
| GapDetector.BodyReportsComplete | analyzer.go:97-119 | every pair that meets all those conditions is reported, at the second statement |
| GapDetector.NoGapNoReports | analyzer.go:102-114 | a pair in different files, outside the base directory, on the same or consecutive lines, or without a token file, never yields a report |
| GapDetector.NonBlankLineSuppresses | analyzer.go:139-141 | one readable non-blank line between two statements keeps the pair from being reported |
| GapDetector.Pass.Reportf | analyzer.go:118 | a report is appended after the earlier ones |
| GapDetector.CheckBody | analyzer.go:95-121 | appends exactly the reports of BodyReports for the body, in pair order, and changes nothing else |
| GapDetector.BodyToCheck | analyzer.go:61-77 | a function declaration gives its identifier (the empty string when it has none), a function literal gives "anonymous"; any other node, and a nil or empty body, is not checked |
| GapDetector.NodeReportsName | analyzer.go:63-78 | the reports of a node all carry that node's own name: "anonymous" for a closure, the identifier for a named declaration |
| GapDetector.FileReportsFromNodes | analyzer.go:60-80 | every report of a file comes from one of the nodes the walk visits |
| GapDetector.CheckFile | analyzer.go:52-81 | appends nothing for a file outside the base directory, and otherwise the reports of each visited node in turn |
| Scenarios.OneBlankLineOneReport | analyzer.go:108-118 | `a()`, one blank line, `b()` gives one report at `b()` |
| Scenarios.TwoBlankLinesOneReport | analyzer.go:123-144 | two blank lines still give one report: the rule flags a gap, not its size |
| Scenarios.ConsecutiveLinesNoReport | analyzer.go:108-110 | statements on consecutive lines give no report, whatever the file holds |
| Scenarios.CommentBesideBlankNoReport | analyzer.go:139-141 | a comment line next to a blank line gives no report |
| Scenarios.CarriageReturnEndsLine | analyzer.go:135 | in a CRLF file the empty line ends at its CR, is blank, and the gap is reported |
| Scenarios.UnreadableFileReports | analyzer.go:130-133 | when the file cannot be read, the gap is reported |
| Scenarios.DifferentFilesNoReport | analyzer.go:102-104 | statements in two different files are not compared |
| Scenarios.ReportText | analyzer.go:118 | the report for line 3, column 2 of `run` reads "f.go:3:2: blank lines inside function body (run)" |
| Scenarios.SiblingDirectoryPasses | analyzer.go:92 | "/src/app2/main.go" passes the test for base directory "/src/app", because there is no separator check |

## Left out

- `run`, `getBaseDir` and `makeRel` (analyzer.go:19-50) are driver wiring. They use `os.Getwd`, `filepath.Rel` and `filepath.Dir`. The relative path is a function-typed input (`Env.makeRel`), and the base directory is an input string.
- `readFileContent` (analyzer.go:146-152) is a file-system read. The model replaces it with a map from file name to bytes (`Disk`); a name with no entry is a failed read. The source re-reads the file for each line; the model assumes every read returns the same bytes.
- `filepath.Abs` in `isInBaseDir` (analyzer.go:84-91) depends on the working directory. `IsInBaseDir` is the prefix test on paths already made absolute. The model does not include the error result of `Abs`.
- The `ast.Inspect` tree walk, `analysis.Pass` and `token.FileSet` are library code. A file is the list of nodes the walk visits, in order. A statement is its pair of resolved positions. `fset.File(pos)` is a lookup by file name that can fail. `//line` directives, which can change resolved positions, are not modelled.
- `token.File.LineStart` panics for a line outside the file, and for a line inside it never returns NoPos, so the NoPos test at analyzer.go:126 cannot fire. A line with no `lineStart` entry stands for the out-of-range case. Without `//line` directives the panic cannot happen, because checkBody only asks for lines strictly between two statements of one file. With them it can: `fset.Position` (analyzer.go:100-101) adjusts line numbers and `LineStart` does not. The model then skips the line instead of crashing.
- `pass.Reportf` becomes an append of a structured diagnostic. Its `token.NoPos` position is constant, so it is not stored.
- The result of `strings.TrimPrefix` at analyzer.go:117 is thrown away, so the model has no such call. The path is reported as `makeRel` returns it.
- Go's `int` is 64 bits wide. Line numbers, and `line+1` and `line-1`, do not come near that limit, so the model uses unbounded integers.
- cmd/noblanks/main.go is the command-line entry point. It only calls `singlechecker.Main`.
