/** A small option type, used for lookups and for the iterator-style `next`. */
module Options {
  datatype Option<+T> = None | Some(value: T)
}

/**
  Position-tagged characters and the expansion of source lines into the
  character stream that both the scanner and the Cursor read.
 */
module Chars {

  /** One source character with its 1-based line number and its 1-based
      column (`row_num` in the source). */
  datatype Char = Char(lineNum: nat, rowNum: nat, c: char)

  // Character classes used by the scanner (ASCII range checks).

  predicate IsWhitespace(c: char) {
    c == '\t' || c == '\n' || c == '\r' || c == ' '
  }

  predicate IsAsciiAlphabetic(c: char) {
    ('A' <= c <= 'Z') || ('a' <= c <= 'z')
  }

  predicate IsAsciiDigit(c: char) {
    '0' <= c <= '9'
  }

  predicate IsAsciiAlphanumeric(c: char) {
    IsAsciiAlphabetic(c) || IsAsciiDigit(c)
  }

  /** The characters that continue an identifier. */
  predicate IsWordChar(c: char) {
    IsAsciiAlphanumeric(c) || c == '_'
  }

  /** The characters a line comment runs over. */
  predicate NotNewline(c: char) {
    c != '\n'
  }

  /** The character that line `lineNum` (1-based) contributes at 0-based
      offset `j`: its own character, or the synthetic terminator after it. */
  function CharAt(lineNum: nat, line: string, j: nat): Char
    requires j <= |line|
  {
    Char(lineNum, j + 1, if j < |line| then line[j] else '\n')
  }

  /** One line with its characters enumerated from column 1 and a '\n' pushed
      at the end. */
  function ExpandLine(lineNum: nat, line: string): (r: seq<Char>)
    ensures |r| == |line| + 1
    ensures forall j :: 0 <= j < |line| ==> r[j] == Char(lineNum, j + 1, line[j])
    ensures r[|line|] == Char(lineNum, |line| + 1, '\n')
  {
    seq(|line| + 1, j requires 0 <= j <= |line| => CharAt(lineNum, line, j))
  }

  /** The lines, numbered from `before + 1` on, each expanded, in order. */
  function ExpandFrom(lines: seq<string>, before: nat): (r: seq<Char>)
    ensures |r| == TotalLength(lines)
    decreases |lines|
  {
    if lines == [] then []
    else ExpandLine(before + 1, lines[0]) + ExpandFrom(lines[1..], before + 1)
  }

  /** The number of characters the lines expand to: each line's length plus
      its terminator. */
  function TotalLength(lines: seq<string>): nat
    decreases |lines|
  {
    if lines == [] then 0 else |lines[0]| + 1 + TotalLength(lines[1..])
  }

  /** The stream index at which line `i` (0-based) starts. */
  function Offset(lines: seq<string>, i: nat): nat
    requires i <= |lines|
  {
    TotalLength(lines[..i])
  }

  /** The character stream of a source split into lines. */
  function CharsIter(lines: seq<string>): (s: seq<Char>)
    ensures |s| == TotalLength(lines)
    ensures lines == [] <==> s == []
  {
    ExpandFrom(lines, 0)
  }

  lemma {:induction false} OffsetStep(lines: seq<string>, i: nat)
    requires 0 < i <= |lines|
    ensures Offset(lines, i) == |lines[0]| + 1 + Offset(lines[1..], i - 1)
  {
    assert lines[..i][1..] == lines[1..][..i - 1];
  }

  lemma {:induction false} OffsetBound(lines: seq<string>, i: nat)
    requires i < |lines|
    ensures Offset(lines, i) + |lines[i]| + 1 <= TotalLength(lines)
    decreases i
  {
    if i > 0 {
      OffsetStep(lines, i);
      OffsetBound(lines[1..], i - 1);
    }
  }

  lemma {:induction false} ExpandFromAt(lines: seq<string>, before: nat, i: nat, j: nat)
    requires i < |lines| && j <= |lines[i]|
    ensures Offset(lines, i) + j < |ExpandFrom(lines, before)|
    ensures ExpandFrom(lines, before)[Offset(lines, i) + j] == CharAt(before + i + 1, lines[i], j)
    decreases i
  {
    OffsetBound(lines, i);
    if i > 0 {
      OffsetStep(lines, i);
      ExpandFromAt(lines[1..], before + 1, i - 1, j);
    }
  }

  /** Line `i` (0-based) starts at `Offset(lines, i)` and contributes, at
      column `j + 1`, its own character or, after the last one, '\n', all
      tagged with line number `i + 1`. */
  lemma CharsIterAt(lines: seq<string>, i: nat, j: nat)
    requires i < |lines| && j <= |lines[i]|
    ensures Offset(lines, i) + j < |CharsIter(lines)|
    ensures CharsIter(lines)[Offset(lines, i) + j] == CharAt(i + 1, lines[i], j)
  {
    ExpandFromAt(lines, 0, i, j);
  }

  lemma {:induction false} LocateFrom(lines: seq<string>, k: nat) returns (i: nat, j: nat)
    requires k < TotalLength(lines)
    ensures i < |lines| && j <= |lines[i]| && k == Offset(lines, i) + j
    decreases |lines|
  {
    if k <= |lines[0]| {
      i, j := 0, k;
    } else {
      var i', j' := LocateFrom(lines[1..], k - |lines[0]| - 1);
      i, j := i' + 1, j';
      OffsetStep(lines, i);
    }
  }

  /** Every character of the stream is one that `CharsIterAt` describes: it
      comes from some line `i` at some offset `j`, so lines contribute nothing
      beyond their characters and their terminators. */
  lemma CharsIterLocate(lines: seq<string>, k: nat) returns (i: nat, j: nat)
    requires k < |CharsIter(lines)|
    ensures i < |lines| && j <= |lines[i]|
    ensures k == Offset(lines, i) + j
    ensures CharsIter(lines)[k] == CharAt(i + 1, lines[i], j)
  {
    i, j := LocateFrom(lines, k);
    CharsIterAt(lines, i, j);
  }

  /** Every character carries a line number in 1..|lines| and a column in
      1..n+1 for a line of length n; column n+1 holds the terminator '\n'. */
  lemma CharsIterPositions(lines: seq<string>, k: nat)
    requires k < |CharsIter(lines)|
    ensures var ch := CharsIter(lines)[k];
      && 1 <= ch.lineNum <= |lines|
      && 1 <= ch.rowNum <= |lines[ch.lineNum - 1]| + 1
      && (ch.rowNum == |lines[ch.lineNum - 1]| + 1 ==> ch.c == '\n')
      && (ch.rowNum <= |lines[ch.lineNum - 1]| ==> ch.c == lines[ch.lineNum - 1][ch.rowNum - 1])
  {
    var i, j := CharsIterLocate(lines, k);
  }

  /** The stream of a non-empty source ends with the last line's terminator. */
  lemma CharsIterEndsWithNewline(lines: seq<string>)
    requires lines != []
    ensures var s := CharsIter(lines);
      s != [] && s[|s| - 1] == Char(|lines|, |lines[|lines| - 1]| + 1, '\n')
  {
    var last := |lines| - 1;
    OffsetBound(lines, last);
    OffsetTotal(lines);
    CharsIterAt(lines, last, |lines[last]|);
  }

  lemma {:induction false} OffsetTotal(lines: seq<string>)
    requires lines != []
    ensures Offset(lines, |lines| - 1) + |lines[|lines| - 1]| + 1 == TotalLength(lines)
    decreases |lines|
  {
    if |lines| > 1 {
      OffsetStep(lines, |lines| - 1);
      OffsetTotal(lines[1..]);
    }
  }

  /** Position (line `l1`, column `r1`) comes strictly before (`l2`, `r2`). */
  predicate Precedes(l1: nat, r1: nat, l2: nat, r2: nat) {
    l1 < l2 || (l1 == l2 && r1 < r2)
  }

  lemma {:induction false} OffsetMonotone(lines: seq<string>, i: nat, i': nat)
    requires i < i' <= |lines|
    ensures Offset(lines, i) + |lines[i]| + 1 <= Offset(lines, i')
    decreases i
  {
    OffsetStep(lines, i');
    if i > 0 {
      OffsetStep(lines, i);
      OffsetMonotone(lines[1..], i - 1, i' - 1);
    }
  }

  /** The stream lists positions in strictly increasing order: lines in
      order, columns in order within a line. */
  lemma CharsIterOrdered(lines: seq<string>, k: nat, k': nat)
    requires k < k' < |CharsIter(lines)|
    ensures var s := CharsIter(lines);
      Precedes(s[k].lineNum, s[k].rowNum, s[k'].lineNum, s[k'].rowNum)
  {
    var i, j := CharsIterLocate(lines, k);
    var i', j' := CharsIterLocate(lines, k');
    if i' < i {
      OffsetMonotone(lines, i', i);
    } else if i < i' {
      OffsetMonotone(lines, i, i');
    }
  }
}
