/** Concrete bodies run through the specification functions: the examples
    the rule is meant to flag or leave alone, a comment line beside a blank
    line, CRLF line endings, an unreadable file and the report text. */
module Scenarios {

  import opened Options
  import opened SourceIndex
  import opened Report
  import opened GapDetector

  const Path: string := "/src/app/f.go"

  /** Two statements `a()` on line `first` and `b()` on line `second`. */
  function TwoCalls(first: int, second: int): seq<Stmt> {
    [ Stmt(Position(Path, first, 2), Position(Path, first, 5)),
      Stmt(Position(Path, second, 2), Position(Path, second, 5)) ]
  }

  function EnvFor(lineStart: map<int, nat>, disk: Disk): Env {
    Env(map[Path := TokenFile(Path, lineStart)], disk, "/src/app", (f: string, b: string) => "f.go")
  }

  /** "a()\n\nb()\n": one blank line between the calls gives one report, at
      the second call. */
  lemma OneBlankLineOneReport()
    ensures BodyReports(EnvFor(map[1 := 0, 2 := 4, 3 := 5], map[Path := [0x61, 0x28, 0x29, 0x0A, 0x0A, 0x62, 0x28, 0x29, 0x0A]]),
                        TwoCalls(1, 3), "run", 0)
         == [Diagnostic("f.go", 3, 2, "run")]
  {
  }

  /** "a()\n\n\nb()\n": two blank lines still give a single report; the rule
      flags the presence of a gap, not its size. */
  lemma TwoBlankLinesOneReport()
    ensures BodyReports(EnvFor(map[1 := 0, 2 := 4, 3 := 5, 4 := 6], map[Path := [0x61, 0x28, 0x29, 0x0A, 0x0A, 0x0A, 0x62, 0x28, 0x29, 0x0A]]),
                        TwoCalls(1, 4), "run", 0)
         == [Diagnostic("f.go", 4, 2, "run")]
  {
  }

  /** Statements on consecutive lines are never compared against the text. */
  lemma ConsecutiveLinesNoReport(lineStart: map<int, nat>, disk: Disk)
    ensures BodyReports(EnvFor(lineStart, disk), TwoCalls(1, 2), "run", 0) == []
  {
  }

  /** "a()\n//\n\nb()\n": the comment line is not blank, so the blank line
      beside it is not reported either. */
  lemma CommentBesideBlankNoReport()
    ensures BodyReports(EnvFor(map[1 := 0, 2 := 4, 3 := 7, 4 := 8], map[Path := [0x61, 0x28, 0x29, 0x0A, 0x2F, 0x2F, 0x0A, 0x0A, 0x62, 0x28, 0x29, 0x0A]]),
                        TwoCalls(1, 4), "run", 0)
         == []
  {
    var env := EnvFor(map[1 := 0, 2 := 4, 3 := 7, 4 := 8], map[Path := [0x61, 0x28, 0x29, 0x0A, 0x2F, 0x2F, 0x0A, 0x0A, 0x62, 0x28, 0x29, 0x0A]]);
    var stmts := TwoCalls(1, 4);
    var content := env.disk[Path];
    assert LineEnd(content, 6) == 6;
    assert LineText(content, 4) == [0x2F, 0x2F];
    var comment := ReadLine(env.fset[Path], env.disk, 2);
    assert comment == Some([0x2F, 0x2F]);
    assert comment.value[0] == 0x2F;
    assert !Blank(comment.value);
    NonBlankLineSuppresses(env, stmts[0], stmts[1], 2);
  }

  /** "a()\r\n\r\nb()": a line ends at the carriage return, so the empty line
      of a CRLF file is blank and the gap is reported. */
  lemma CarriageReturnEndsLine()
    ensures BodyReports(EnvFor(map[1 := 0, 2 := 5, 3 := 7], map[Path := [0x61, 0x28, 0x29, 0x0D, 0x0A, 0x0D, 0x0A, 0x62, 0x28, 0x29]]),
                        TwoCalls(1, 3), "run", 0)
         == [Diagnostic("f.go", 3, 2, "run")]
  {
  }

  /** When the file cannot be read, no interior line can be shown non-blank,
      and the gap is reported. */
  lemma UnreadableFileReports()
    ensures BodyReports(EnvFor(map[1 := 0, 2 := 4, 3 := 9], map[]), TwoCalls(1, 3), "run", 0)
         == [Diagnostic("f.go", 3, 2, "run")]
  {
  }

  /** Statements on either side of a file boundary are not compared. */
  lemma DifferentFilesNoReport(lineStart: map<int, nat>, disk: Disk)
    ensures BodyReports(EnvFor(lineStart, disk),
                        [Stmt(Position(Path, 1, 2), Position(Path, 1, 5)),
                         Stmt(Position("/src/app/g.go", 9, 2), Position("/src/app/g.go", 9, 5))],
                        "run", 0)
         == []
  {
  }

  /** The report for a gap before line 3, column 2 of function run reads
      "f.go:3:2: " followed by the fixed words and "(run)". */
  lemma ReportText()
    ensures var m := Message(Diagnostic("f.go", 3, 2, "run"));
      && m[..10] == "f.go:3:2: "
      && m[10..] == BlankLinesText + "run" + ")"
  {
  }

  /** The base-directory test is on raw strings: a sibling directory whose
      name extends the base directory's name passes it. */
  lemma SiblingDirectoryPasses()
    ensures IsInBaseDir("/src/app2/main.go", "/src/app")
  {
  }
}
