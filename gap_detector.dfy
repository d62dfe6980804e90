/** The gap detector: the pairwise scan of one function body (checkBody),
    the choice of bodies and names in a file (checkFile) and the base
    directory test (isInBaseDir). Reports go to a Pass object that collects
    them in order. */
module GapDetector {

  import opened Options
  import opened SourceIndex
  import opened Report

  /** A resolved source position: file name, 1-based line and column. */
  datatype Position = Position(filename: string, line: int, column: int)

  /** A statement, seen only through where it starts and where it ends. */
  datatype Stmt = Stmt(pos: Position, end: Position)

  /** The token files of the analysis, by name; fset.File(pos) is a lookup
      of the position's file name, None standing for a nil handle. */
  type FileSet = map<string, TokenFile>

  /** What a scan consults besides the body: the file set, the bytes each
      file read returns, the base directory, and the relative-path function
      the driver supplies (makeRel), taken as given. */
  datatype Env = Env(fset: FileSet, disk: Disk, baseDir: string, makeRel: (string, string) -> string)

  /** isInBaseDir on already absolute paths: a raw string-prefix test, with
      no check for a path separator after the prefix. */
  function IsInBaseDir(filename: string, baseDir: string): (r: bool)
    ensures r <==> exists rest :: filename == baseDir + rest
  {
    var r := |filename| >= |baseDir| && filename[..|baseDir|] == baseDir;
    assert r ==> filename == baseDir + filename[|baseDir|..];
    r
  }

  /** The conditions under which the pair (s1, s2) is reported: both
      positions in one file, that file inside the base directory, at least
      one line strictly between the end of s1 and the start of s2, a token
      file for the end of s1, and every line in between blank or unreadable. */
  predicate Reportable(env: Env, s1: Stmt, s2: Stmt) {
    var p1, p2 := s1.end, s2.pos;
    && p1.filename == p2.filename
    && IsInBaseDir(p1.filename, env.baseDir)
    && p2.line - p1.line > 1
    && match Lookup(env.fset, p1.filename)
       case None => false
       case Some(file) => AllBlankOrUnreadable(file, env.disk, p1.line + 1, p2.line - 1)
  }

  /** The diagnostic for a gap before s2: anchored at s2's start, under the
      relative path of s2's file. The TrimPrefix call whose result the source
      drops leaves that path as it is. */
  function ReportAt(env: Env, s2: Stmt, funcName: string): (d: Diagnostic) {
    Diagnostic(env.makeRel(s2.pos.filename, env.baseDir), s2.pos.line, s2.pos.column, funcName)
  }

  /** The reports of the pairs (stmts[j], stmts[j + 1]) for i <= j, in order. */
  function BodyReports(env: Env, stmts: seq<Stmt>, funcName: string, i: nat): (ds: seq<Diagnostic>)
    decreases |stmts| - i
  {
    if i + 1 >= |stmts| then []
    else
      (if Reportable(env, stmts[i], stmts[i + 1]) then [ReportAt(env, stmts[i + 1], funcName)] else [])
      + BodyReports(env, stmts, funcName, i + 1)
  }

  /** At most one report per adjacent pair: none for fewer than two
      statements, at most |stmts| - 1 - i from pair i on. */
  lemma {:induction false} BodyReportsBound(env: Env, stmts: seq<Stmt>, funcName: string, i: nat)
    ensures i + 1 >= |stmts| ==> BodyReports(env, stmts, funcName, i) == []
    ensures i + 1 < |stmts| ==> |BodyReports(env, stmts, funcName, i)| <= |stmts| - 1 - i
    decreases |stmts| - i
  {
    if i + 1 < |stmts| {
      BodyReportsBound(env, stmts, funcName, i + 1);
    }
  }

  /** Every report comes from one adjacent pair that meets all the
      conditions, and names the second statement's line and column. The
      reports after it are exactly those of the later pairs, so each pair
      gives at most one report and reports keep the order of their pairs. */
  lemma {:induction false} BodyReportsSound(env: Env, stmts: seq<Stmt>, funcName: string, i: nat, k: nat)
    returns (j: nat)
    requires k < |BodyReports(env, stmts, funcName, i)|
    ensures i <= j && j + 1 < |stmts|
    ensures var p1, p2 := stmts[j].end, stmts[j + 1].pos;
      && p1.filename == p2.filename
      && IsInBaseDir(p1.filename, env.baseDir)
      && p2.line - p1.line >= 2
      && p1.filename in env.fset
      && AllBlankOrUnreadable(env.fset[p1.filename], env.disk, p1.line + 1, p2.line - 1)
    ensures BodyReports(env, stmts, funcName, i)[k]
         == Diagnostic(env.makeRel(stmts[j + 1].pos.filename, env.baseDir),
                       stmts[j + 1].pos.line, stmts[j + 1].pos.column, funcName)
    ensures BodyReports(env, stmts, funcName, i)[k + 1..] == BodyReports(env, stmts, funcName, j + 1)
    decreases |stmts| - i
  {
    if Reportable(env, stmts[i], stmts[i + 1]) {
      if k == 0 {
        j := i;
      } else {
        j := BodyReportsSound(env, stmts, funcName, i + 1, k - 1);
      }
    } else {
      j := BodyReportsSound(env, stmts, funcName, i + 1, k);
    }
  }

  /** Every adjacent pair that meets all the conditions is reported. */
  lemma {:induction false} BodyReportsComplete(env: Env, stmts: seq<Stmt>, funcName: string, i: nat, j: nat)
    requires i <= j && j + 1 < |stmts|
    requires var p1, p2 := stmts[j].end, stmts[j + 1].pos;
      && p1.filename == p2.filename
      && IsInBaseDir(p1.filename, env.baseDir)
      && p2.line - p1.line >= 2
      && p1.filename in env.fset
      && AllBlankOrUnreadable(env.fset[p1.filename], env.disk, p1.line + 1, p2.line - 1)
    ensures Diagnostic(env.makeRel(stmts[j + 1].pos.filename, env.baseDir),
                       stmts[j + 1].pos.line, stmts[j + 1].pos.column, funcName)
            in BodyReports(env, stmts, funcName, i)
    decreases j - i
  {
    if i < j {
      BodyReportsComplete(env, stmts, funcName, i + 1, j);
    }
  }

  /** A pair in different files, outside the base directory, on the same or
      consecutive lines, or without a token file, is never reported; so a
      body in which every pair is like that yields nothing. */
  lemma {:induction false} NoGapNoReports(env: Env, stmts: seq<Stmt>, funcName: string, i: nat)
    requires forall j :: i <= j < |stmts| - 1 ==>
      var p1, p2 := stmts[j].end, stmts[j + 1].pos;
      || p1.filename != p2.filename
      || !IsInBaseDir(p1.filename, env.baseDir)
      || p2.line - p1.line <= 1
      || p1.filename !in env.fset
    ensures BodyReports(env, stmts, funcName, i) == []
    decreases |stmts| - i
  {
    if i + 1 < |stmts| {
      NoGapNoReports(env, stmts, funcName, i + 1);
    }
  }

  /** A non-blank readable line strictly between two statements keeps the
      pair from being reported, however many blank lines lie beside it. */
  lemma NonBlankLineSuppresses(env: Env, s1: Stmt, s2: Stmt, line: int)
    requires s1.end.filename in env.fset
    requires s1.end.line < line < s2.pos.line
    requires var r := ReadLine(env.fset[s1.end.filename], env.disk, line); r.Some? && !Blank(r.value)
    ensures !Reportable(env, s1, s2)
  {
    assert !BlankOrUnreadable(env.fset[s1.end.filename], env.disk, line);
  }

  /** The collector behind pass.Reportf: every report is appended in order. */
  class Pass {
    var diagnostics: seq<Diagnostic>

    constructor ()
      ensures diagnostics == []
    {
      diagnostics := [];
    }

    method Reportf(d: Diagnostic)
      modifies this
      ensures diagnostics == old(diagnostics) + [d]
    {
      diagnostics := diagnostics + [d];
    }
  }

  /** checkBody: visits each adjacent pair of statements once, skips the
      pairs that cannot hold a gap, and reports the rest when every line
      between them is blank or unreadable. */
  method CheckBody(pass: Pass, env: Env, body: seq<Stmt>, funcName: string)
    modifies pass
    ensures pass.diagnostics == old(pass.diagnostics) + BodyReports(env, body, funcName, 0)
  {
    var i := 0;
    while i < |body| - 1
      invariant i <= |body|
      invariant old(pass.diagnostics) + BodyReports(env, body, funcName, 0)
             == pass.diagnostics + BodyReports(env, body, funcName, i)
      decreases |body| - i
    {
      var pos1 := body[i].end;
      var pos2 := body[i + 1].pos;
      if pos1.filename != pos2.filename {
        i := i + 1;
        continue;
      }
      if !IsInBaseDir(pos1.filename, env.baseDir) {
        i := i + 1;
        continue;
      }
      if pos2.line - pos1.line <= 1 {
        i := i + 1;
        continue;
      }
      var file := Lookup(env.fset, pos1.filename);
      if file.None? {
        i := i + 1;
        continue;
      }
      var blank := HasBlankLine(file.value, env.disk, pos1.line + 1, pos2.line - 1);
      if blank {
        var relPath := env.makeRel(pos2.filename, env.baseDir);
        pass.Reportf(Diagnostic(relPath, pos2.line, pos2.column, funcName));
      }
      i := i + 1;
    }
  }

  /** The syntax nodes the walk distinguishes. A declaration may lack a name
      or a body; any other node kind is OtherNode. */
  datatype Node =
    | FuncDecl(name: Option<string>, body: Option<seq<Stmt>>)
    | FuncLit(body: Option<seq<Stmt>>)
    | OtherNode

  /** A parsed file: the name its package clause resolves to, and the nodes
      in the order the tree walk visits them, closures nested in a body
      included as nodes of their own. */
  datatype AstFile = AstFile(filename: string, nodes: seq<Node>)

  /** The body and the name checkFile hands to checkBody for a node, or None
      when the node is not a function, or its body is nil or empty. A named
      declaration gives its identifier (the empty string when it has none), a
      function literal gives "anonymous". */
  function BodyToCheck(n: Node): (r: Option<(seq<Stmt>, string)>)
    ensures r.Some? <==> (n.FuncDecl? || n.FuncLit?) && n.body.Some? && |n.body.value| > 0
    ensures r.Some? ==> r.value.0 == n.body.value
    ensures r.Some? && n.FuncLit? ==> r.value.1 == "anonymous"
    ensures r.Some? && n.FuncDecl? && n.name.Some? ==> r.value.1 == n.name.value
    ensures r.Some? && n.FuncDecl? && n.name.None? ==> r.value.1 == ""
  {
    match n
    case OtherNode => None
    case FuncDecl(name, body) =>
      if body.None? || |body.value| == 0 then None
      else Some((body.value, if name.Some? then name.value else ""))
    case FuncLit(body) =>
      if body.None? || |body.value| == 0 then None
      else Some((body.value, "anonymous"))
  }

  function NodeReports(env: Env, n: Node): (ds: seq<Diagnostic>) {
    match BodyToCheck(n)
    case None => []
    case Some((body, funcName)) => BodyReports(env, body, funcName, 0)
  }

  /** The reports of the nodes nodes[i..], in visiting order. */
  function NodesReports(env: Env, nodes: seq<Node>, i: nat): (ds: seq<Diagnostic>)
    requires i <= |nodes|
    decreases |nodes| - i
  {
    if i == |nodes| then [] else NodeReports(env, nodes[i]) + NodesReports(env, nodes, i + 1)
  }

  /** The reports of a file: none when the file lies outside the base
      directory, otherwise those of each node in turn. */
  function FileReports(env: Env, f: AstFile): (ds: seq<Diagnostic>) {
    if !IsInBaseDir(f.filename, env.baseDir) then [] else NodesReports(env, f.nodes, 0)
  }

  /** A body is reported under its own node's name: a closure's reports say
      "anonymous" even when it sits inside a named function, and a named
      declaration's reports carry its identifier. */
  lemma {:induction false} NodeReportsName(env: Env, n: Node, k: nat)
    requires k < |NodeReports(env, n)|
    ensures n.FuncLit? ==> NodeReports(env, n)[k].funcName == "anonymous"
    ensures n.FuncDecl? && n.name.Some? ==> NodeReports(env, n)[k].funcName == n.name.value
    ensures n.FuncDecl? || n.FuncLit?
  {
    var body := BodyToCheck(n).value.0;
    var name := BodyToCheck(n).value.1;
    var _ := BodyReportsSound(env, body, name, 0, k);
  }

  /** Each report of a file comes from one of its nodes. */
  lemma {:induction false} FileReportsFromNodes(env: Env, nodes: seq<Node>, i: nat, k: nat)
    returns (j: nat, m: nat)
    requires i <= |nodes|
    requires k < |NodesReports(env, nodes, i)|
    ensures i <= j < |nodes|
    ensures m < |NodeReports(env, nodes[j])|
    ensures NodesReports(env, nodes, i)[k] == NodeReports(env, nodes[j])[m]
    decreases |nodes| - i
  {
    var here := NodeReports(env, nodes[i]);
    if k < |here| {
      j, m := i, k;
    } else {
      j, m := FileReportsFromNodes(env, nodes, i + 1, k - |here|);
    }
  }

  /** checkFile: skips a file outside the base directory, then hands each
      function body the walk meets, with its name, to checkBody. */
  method CheckFile(pass: Pass, env: Env, f: AstFile)
    modifies pass
    ensures pass.diagnostics == old(pass.diagnostics) + FileReports(env, f)
  {
    if !IsInBaseDir(f.filename, env.baseDir) {
      return;
    }
    var i := 0;
    while i < |f.nodes|
      invariant i <= |f.nodes|
      invariant old(pass.diagnostics) + NodesReports(env, f.nodes, 0)
             == pass.diagnostics + NodesReports(env, f.nodes, i)
      decreases |f.nodes| - i
    {
      var target := BodyToCheck(f.nodes[i]);
      if target.Some? {
        CheckBody(pass, env, target.value.0, target.value.1);
      }
      i := i + 1;
    }
  }
}
