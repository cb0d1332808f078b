// Drawing a QR code with half blocks (agent/internal/qr/qr.go).
//
// Encoding text as a QR code is not part of this model: a code is any square
// of modules, given row by row.
module Qr {
  const QUIET := 4
  const FULL: char := '\U{2588}'
  const UPPER: char := '\U{2580}'
  const LOWER: char := '\U{2584}'

  type Modules = seq<seq<bool>>

  predicate IsSquare(m: Modules) {
    forall y :: 0 <= y < |m| ==> |m[y]| == |m|
  }

  function SizeOf(m: Modules): nat {
    |m| + 2 * QUIET
  }

  /** Whether the module at (x, y), border included, is dark. */
  predicate Dark(m: Modules, x: nat, y: nat)
    requires IsSquare(m)
  {
    var size := SizeOf(m);
    x >= QUIET && y >= QUIET && x < size - QUIET && y < size - QUIET && m[y - QUIET][x - QUIET]
  }

  /** Whether it is drawn. */
  predicate Lit(m: Modules, invert: bool, x: nat, y: nat)
    requires IsSquare(m)
  {
    if y >= SizeOf(m) then false else Dark(m, x, y) == invert
  }

  method Render(m: Modules, invert: bool) returns (text: string)
    requires IsSquare(m)
    ensures var lines := Lines(text);
            && text == Terminated(lines) && |lines| == (|m| + 8 + 1) / 2
            && forall i :: 0 <= i < |lines| ==> |lines[i]| == |m| + 8
    ensures forall x, y :: 0 <= x < SizeOf(m) && 0 <= y < SizeOf(m) ==> (Sees(text, x, y) == invert) == Dark(m, x, y)
    ensures Scanned(text, invert) == m
    ensures SizeOf(m) % 2 == 1 ==> forall x :: 0 <= x < SizeOf(m) ==> !Sees(text, x, SizeOf(m))
  {
    hide Lit;
    hide Lines;
    hide Sees;
    hide AreRows;
    hide Scanned;
    NoRows(m, invert);
    var size := |m| + 2 * QUIET;
    var b := "";
    ghost var lines := [];
    var y := 0;
    while y < size
      invariant 0 <= y <= size + 1 && y == 2 * |lines|
      invariant b == Terminated(lines)
      invariant AreRows(lines, m, invert)
    {
      ghost var before := b;
      ghost var row := "";
      for x := 0 to size
        invariant |row| == x && b == before + row
        invariant forall i :: 0 <= i < x ==> row[i] == Glyph(Lit(m, invert, i, y), Lit(m, invert, i, y + 1))
      {
        var top, bottom := Lit(m, invert, x, y), Lit(m, invert, x, y + 1);
        if top && bottom {
          b := b + [FULL];
        } else if top {
          b := b + [UPPER];
        } else if bottom {
          b := b + [LOWER];
        } else {
          b := b + [' '];
        }
        row := row + [Glyph(top, bottom)];
      }
      b := b + ['\n'];
      TerminatedAppend(lines, row);
      OneMoreRow(lines, row, m, invert);
      lines := lines + [row];
      y := y + 2;
    }
    text := b;
    TextIsCode(m, invert, lines);
  }

  function Glyph(top: bool, bottom: bool): char {
    if top && bottom then FULL else if top then UPPER else if bottom then LOWER else ' '
  }

  ghost predicate IsRow(line: string, m: Modules, invert: bool, y: nat)
    requires IsSquare(m)
  {
    && |line| == SizeOf(m)
    && forall x :: 0 <= x < |line| ==> line[x] == Glyph(Lit(m, invert, x, y), Lit(m, invert, x, y + 1))
  }

  // What a reader of the text sees.

  function Terminated(lines: seq<string>): string {
    if lines == [] then "" else lines[0] + "\n" + Terminated(lines[1..])
  }

  /** The lines of a text; what comes after the last line break is no line. */
  function Lines(text: string): seq<string> {
    if text == "" then []
    else if text[0] == '\n' then [""] + Lines(text[1..])
    else
      var rest := Lines(text[1..]);
      if rest == [] then [] else [[text[0]] + rest[0]] + rest[1..]
  }

  /** Whether the half of a character cell at column x and half-row y is filled. */
  predicate Sees(text: string, x: nat, y: nat) {
    var lines := Lines(text);
    && y / 2 < |lines| && x < |lines[y / 2]|
    && var g := lines[y / 2][x]; g == '\U{2588}' || g == if y % 2 == 0 then '\U{2580}' else '\U{2584}'
  }

  lemma {:induction false} TerminatedAppend(lines: seq<string>, line: string)
    ensures Terminated(lines + [line]) == Terminated(lines) + line + "\n"
  {
    if lines != [] {
      TerminatedAppend(lines[1..], line);
      assert (lines + [line])[1..] == lines[1..] + [line];
    }
  }

  lemma {:induction false} FirstLine(line: string, rest: string)
    requires '\n' !in line
    ensures Lines(line + "\n" + rest) == [line] + Lines(rest)
  {
    var text := line + "\n" + rest;
    if line == "" {
      assert text[1..] == rest;
    } else {
      FirstLine(line[1..], rest);
      assert text[1..] == line[1..] + "\n" + rest && text[0] == line[0];
      assert line == [line[0]] + line[1..];
    }
  }

  lemma {:induction false} LinesTerminated(lines: seq<string>)
    requires forall i :: 0 <= i < |lines| ==> '\n' !in lines[i]
    ensures Lines(Terminated(lines)) == lines
  {
    if lines != [] {
      LinesTerminated(lines[1..]);
      FirstLine(lines[0], Terminated(lines[1..]));
    }
  }

  lemma RowHasNoBreak(line: string, m: Modules, invert: bool, y: nat)
    requires IsSquare(m) && IsRow(line, m, invert, y)
    ensures '\n' !in line
  {
  }

  ghost predicate AreRows(lines: seq<string>, m: Modules, invert: bool)
    requires IsSquare(m)
  {
    forall i :: 0 <= i < |lines| ==> IsRow(lines[i], m, invert, 2 * i)
  }

  lemma NoRows(m: Modules, invert: bool)
    requires IsSquare(m)
    ensures AreRows([], m, invert) && Terminated([]) == ""
  {
  }

  lemma OneMoreRow(lines: seq<string>, row: string, m: Modules, invert: bool)
    requires IsSquare(m) && AreRows(lines, m, invert) && IsRow(row, m, invert, 2 * |lines|)
    ensures AreRows(lines + [row], m, invert)
  {
    hide IsRow;
  }

  lemma CellIsSeen(m: Modules, invert: bool, text: string, x: nat, y: nat)
    requires IsSquare(m) && AreRows(Lines(text), m, invert) && x < SizeOf(m) && y < 2 * |Lines(text)|
    ensures Sees(text, x, y) == Lit(m, invert, x, y)
  {
    hide Lit;
    hide Lines;
    var i := y / 2;
    var line := Lines(text)[i];
    assert IsRow(line, m, invert, 2 * i);
    hide AreRows;
    assert line[x] == Glyph(Lit(m, invert, x, 2 * i), Lit(m, invert, x, 2 * i + 1));
    assert y == 2 * i || y == 2 * i + 1;
  }

  lemma RowsAreLines(m: Modules, invert: bool, lines: seq<string>)
    requires IsSquare(m) && AreRows(lines, m, invert)
    ensures Lines(Terminated(lines)) == lines
  {
    hide Lit;
    forall i | 0 <= i < |lines| ensures '\n' !in lines[i] {
      RowHasNoBreak(lines[i], m, invert, 2 * i);
    }
    hide AreRows;
    hide IsRow;
    LinesTerminated(lines);
  }

  lemma RowsAreSeen(m: Modules, invert: bool, lines: seq<string>)
    requires IsSquare(m) && AreRows(lines, m, invert)
    ensures Lines(Terminated(lines)) == lines
    ensures forall x, y :: 0 <= x < SizeOf(m) && 0 <= y < 2 * |lines| ==> Sees(Terminated(lines), x, y) == Lit(m, invert, x, y)
  {
    hide *;
    RowsAreLines(m, invert, lines);
    forall x: nat, y: nat | x < SizeOf(m) && y < 2 * |lines|
      ensures Sees(Terminated(lines), x, y) == Lit(m, invert, x, y)
    {
      CellIsSeen(m, invert, Terminated(lines), x, y);
    }
  }

  // A scanner that does not know the code reads it back.

  /** The modules that a scanner reads: the code is as wide as the first line, and has a border of four. */
  function Scanned(text: string, invert: bool): Modules {
    var lines := Lines(text);
    if lines == [] || |lines[0]| < 2 * QUIET then []
    else
      var n := |lines[0]| - 2 * QUIET;
      seq(n, (y: nat) => seq(n, (x: nat) => Sees(text, x + QUIET, y + QUIET) == invert))
  }

  lemma ScanReadsBack(m: Modules, invert: bool, text: string)
    requires IsSquare(m) && Lines(text) != [] && |Lines(text)[0]| == SizeOf(m)
    requires forall x, y :: 0 <= x < SizeOf(m) && 0 <= y < SizeOf(m) ==> (Sees(text, x, y) == invert) == Dark(m, x, y)
    ensures Scanned(text, invert) == m
  {
    assert forall y :: 0 <= y < |m| ==> Scanned(text, invert)[y] == m[y];
  }

  lemma WidthOfRows(lines: seq<string>, m: Modules, invert: bool)
    requires IsSquare(m) && AreRows(lines, m, invert)
    ensures forall i :: 0 <= i < |lines| ==> |lines[i]| == SizeOf(m)
  {
    hide Lit;
  }

  /** The rows, one after another, are the code for whoever looks at them. */
  lemma TextIsCode(m: Modules, invert: bool, lines: seq<string>)
    requires IsSquare(m) && AreRows(lines, m, invert) && |lines| == (SizeOf(m) + 1) / 2
    ensures var text := Terminated(lines);
            && Lines(text) == lines && (forall i :: 0 <= i < |lines| ==> |lines[i]| == SizeOf(m))
            && (forall x, y :: 0 <= x < SizeOf(m) && 0 <= y < SizeOf(m) ==> (Sees(text, x, y) == invert) == Dark(m, x, y))
            && Scanned(text, invert) == m
            && (SizeOf(m) % 2 == 1 ==> forall x :: 0 <= x < SizeOf(m) ==> !Sees(text, x, SizeOf(m)))
  {
    RowsAreSeen(m, invert, lines);
    WidthOfRows(lines, m, invert);
    hide AreRows;
    hide Lines;
    hide Sees;
    hide Dark;
    ScanReadsBack(m, invert, Terminated(lines));
    hide Scanned;
  }
}
