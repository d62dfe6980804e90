/** Options: the absent-or-present value used for unresolved line starts,
    missing file handles and failed file reads. */
module Options {

  datatype Option<+T> = None | Some(value: T)

  /** The entry of `k` in `m`, or None when there is none. */
  function Lookup<K, V>(m: map<K, V>, k: K): (r: Option<V>)
    ensures r.Some? <==> k in m
    ensures r.Some? ==> r.value == m[k]
  {
    if k in m then Some(m[k]) else None
  }
}

/** The source index: raw file bytes, the line-start table of a token file,
    extraction of one line's text, and the blank-line predicate. */
module SourceIndex {

  import opened Options

  newtype byte = b: int | 0 <= b < 256

  const Space: byte := 0x20
  const Tab: byte := 0x09
  const LineFeed: byte := 0x0A
  const CarriageReturn: byte := 0x0D

  /** A line is blank when every byte is a space or a horizontal tab; the
      empty line is blank, and every other byte (a carriage return, a
      non-ASCII whitespace byte, any text) makes it non-blank. */
  predicate Blank(line: seq<byte>) {
    forall i :: 0 <= i < |line| ==> line[i] == Space || line[i] == Tab
  }

  /** isBlank: a scan over the bytes that stops at the first byte that is
      neither a space nor a tab. */
  method IsBlank(line: seq<byte>) returns (b: bool)
    ensures b <==> Blank(line)
  {
    for i := 0 to |line|
      invariant forall k :: 0 <= k < i ==> line[k] == Space || line[k] == Tab
    {
      if line[i] != Space && line[i] != Tab {
        return false;
      }
    }
    return true;
  }

  predicate IsLineBreak(b: byte) {
    b == LineFeed || b == CarriageReturn
  }

  /** The offset just past the text of the line that starts at `offset`: the
      first line feed or carriage return at or after `offset`, or the end of
      the content when there is none. */
  function LineEnd(content: seq<byte>, offset: nat): (e: nat)
    requires offset <= |content|
    ensures offset <= e <= |content|
    ensures forall k :: offset <= k < e ==> !IsLineBreak(content[k])
    ensures e == |content| || IsLineBreak(content[e])
    decreases |content| - offset
  {
    if offset == |content| || IsLineBreak(content[offset]) then offset
    else LineEnd(content, offset + 1)
  }

  /** The line end is the only offset with the three properties above. */
  lemma LineEndIsFirstBreak(content: seq<byte>, offset: nat, e: nat)
    requires offset <= e <= |content|
    requires forall k :: offset <= k < e ==> !IsLineBreak(content[k])
    requires e == |content| || IsLineBreak(content[e])
    ensures e == LineEnd(content, offset)
  {
  }

  /** The text of the line that starts at `offset`: a contiguous slice of
      the content that begins at `offset`, holds no line break, and is
      followed by a line break or by the end of the content. */
  function LineText(content: seq<byte>, offset: nat): (t: seq<byte>)
    requires offset <= |content|
    ensures offset + |t| <= |content| && content[offset..offset + |t|] == t
    ensures forall i :: 0 <= i < |t| ==> !IsLineBreak(t[i])
    ensures offset + |t| == |content| || IsLineBreak(content[offset + |t|])
  {
    content[offset..LineEnd(content, offset)]
  }

  /** The part of a token file the detector consults: its name and the byte
      offset at which each 1-based line starts. A line with no entry has the
      start position NoPos. */
  datatype TokenFile = TokenFile(name: string, lineStart: map<int, nat>)

  /** The bytes a read of each file name returns (readFileContent); a name
      with no entry is a file whose read fails. */
  type Disk = map<string, seq<byte>>

  /** The text of line `line` of `file`, or None when the line cannot be
      read: its start is NoPos, the file's content cannot be read, or the
      start offset is at or past the end of the content. */
  function ReadLine(file: TokenFile, disk: Disk, line: int): (r: Option<seq<byte>>)
    ensures r.Some? <==>
      line in file.lineStart && file.name in disk && file.lineStart[line] < |disk[file.name]|
    ensures r.Some? ==>
      var content, offset := disk[file.name], file.lineStart[line];
      && offset + |r.value| <= |content|
      && content[offset..offset + |r.value|] == r.value
      && (forall i :: 0 <= i < |r.value| ==> !IsLineBreak(r.value[i]))
      && (offset + |r.value| == |content| || IsLineBreak(content[offset + |r.value|]))
  {
    if line !in file.lineStart then None
    else
      match Lookup(disk, file.name)
      case None => None
      case Some(content) =>
        var offset := file.lineStart[line];
        if offset >= |content| then None else Some(LineText(content, offset))
  }

  /** A line that cannot be read does not count against a gap. */
  predicate BlankOrUnreadable(file: TokenFile, disk: Disk, line: int) {
    match ReadLine(file, disk, line)
    case None => true
    case Some(text) => Blank(text)
  }

  /** Every line of the inclusive range [startLine, endLine] is blank or
      unreadable; an empty range satisfies it. */
  predicate AllBlankOrUnreadable(file: TokenFile, disk: Disk, startLine: int, endLine: int) {
    forall line :: startLine <= line <= endLine ==> BlankOrUnreadable(file, disk, line)
  }

  /** hasBlankLine: walks the lines of [startLine, endLine], skips the ones
      it cannot read, extracts each other line's text up to the next line
      break, and answers false at the first non-blank one. */
  method HasBlankLine(file: TokenFile, disk: Disk, startLine: int, endLine: int) returns (b: bool)
    ensures b <==> AllBlankOrUnreadable(file, disk, startLine, endLine)
    ensures !b ==> exists line :: startLine <= line <= endLine && ReadLine(file, disk, line).Some?
  {
    var line := startLine;
    while line <= endLine
      invariant startLine <= line
      invariant forall l :: startLine <= l < line ==> BlankOrUnreadable(file, disk, l)
      decreases endLine - line
    {
      if line !in file.lineStart {
        line := line + 1;
        continue;
      }
      var offset := file.lineStart[line];
      var read := Lookup(disk, file.name);  // readFileContent
      if read.None? || offset >= |read.value| {
        line := line + 1;
        continue;
      }
      var content := read.value;
      var end := offset;
      while end < |content| && content[end] != LineFeed && content[end] != CarriageReturn
        invariant offset <= end <= |content|
        invariant forall k :: offset <= k < end ==> !IsLineBreak(content[k])
        decreases |content| - end
      {
        end := end + 1;
      }
      LineEndIsFirstBreak(content, offset, end);
      var lineContent := content[offset..end];
      var blank := IsBlank(lineContent);
      if !blank {
        assert !BlankOrUnreadable(file, disk, line);
        return false;
      }
      line := line + 1;
    }
    return true;
  }
}
