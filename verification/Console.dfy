/** The text buffer and cursor of the console (kernel/console.cpp). */
module Consoles {
  const ROWS: nat := 25
  const COLUMNS: nat := 80
  const NUL: char := '\0'

  // ---- what text looks like on the screen ----

  /** The lines of a text: what lies between its newlines. */
  function Lines(text: string): (r: seq<string>)
    ensures |r| > 0
  {
    if text == [] then [[]]
    else
      var n := |text| - 1;
      var before := Lines(text[..n]);
      if text[n] == '\n' then before + [[]]
      else before[..|before| - 1] + [before[|before| - 1] + [text[n]]]
  }

  /** Lines joined by newlines. */
  function Join(lines: seq<string>): string
    requires |lines| > 0
  {
    if |lines| == 1 then lines[0] else Join(lines[..|lines| - 1]) + ['\n'] + lines[|lines| - 1]
  }

  /** Lines loses nothing: it is the one way to cut the text at its newlines. */
  lemma {:induction false} LinesJoin(text: string)
    ensures Join(Lines(text)) == text
    ensures forall i :: 0 <= i < |Lines(text)| ==> '\n' !in Lines(text)[i]
  {
    if text != [] {
      var n := |text| - 1;
      LinesJoin(text[..n]);
      var before, after := Lines(text[..n]), Lines(text);
      assert text == text[..n] + [text[n]];
      if text[n] == '\n' {
        assert after[..|after| - 1] == before;
      } else {
        assert after[..|after| - 1] == before[..|before| - 1];
        LastLineGrows(before, text[n]);
      }
    }
  }

  lemma LastLineGrows(lines: seq<string>, c: char)
    requires |lines| > 0
    ensures Join(lines[..|lines| - 1] + [lines[|lines| - 1] + [c]]) == Join(lines) + [c]
  {
    var grown := lines[..|lines| - 1] + [lines[|lines| - 1] + [c]];
    assert grown[..|grown| - 1] == lines[..|lines| - 1];
  }

  /** The part of a line that is kept: its first 79 characters. */
  function Kept(line: string): string {
    if |line| <= COLUMNS - 1 then line else line[..COLUMNS - 1]
  }

  /** A buffer row: the kept characters, and zeros up to 81. */
  predicate Shows(row: string, line: string) {
    |row| == COLUMNS + 1 && forall j :: 0 <= j <= COLUMNS ==> row[j] == if j < |Kept(line)| then Kept(line)[j] else NUL
  }

  /** The line a row of the screen is for, if there are that many. */
  function LineAt(lines: seq<string>, i: nat): string
    requires i < ROWS
  {
    var first := if |lines| <= ROWS then 0 else |lines| - ROWS;
    if first + i < |lines| then lines[first + i] else []
  }

  /** The screen of a text: its last 25 lines, cut and padded, and the cursor at the end of the last one. */
  predicate Screen(rows: seq<string>, row: nat, column: nat, text: string) {
    var lines := Lines(text);
    && |rows| == ROWS && (forall i :: 0 <= i < ROWS ==> Shows(rows[i], LineAt(lines, i)))
    && row == (if |lines| <= ROWS then |lines| - 1 else ROWS - 1)
    && column == |Kept(lines[|lines| - 1])|
  }

  /**
   * What the screen shows, by row: row i is for line i, or, when there are more than 25, for the i-th of the last
   * 25; it has 81 characters, the first 79 of its line and zeros behind them; the cursor is at the end of the last
   * line.
   */
  lemma ScreenShows(rows: seq<string>, row: nat, column: nat, text: string, i: nat, j: nat)
    requires Screen(rows, row, column, text) && i < 25 && j < 81
    ensures |rows| == 25 && |rows[i]| == 81
    ensures var lines := Lines(text);
            var k := if |lines| > 25 then |lines| - 25 + i else i;
            rows[i][j] == if k < |lines| && j < |lines[k]| && j < 79 then lines[k][j] else '\0'
    ensures var last := Lines(text)[|Lines(text)| - 1];
            && row == (if |Lines(text)| > 25 then 24 else |Lines(text)| - 1)
            && column == if |last| < 79 then |last| else 79
  {
    hide Lines;
    assert Shows(rows[i], LineAt(Lines(text), i));
  }

  /** A text has one screen. */
  lemma ScreenIsUnique(text: string, rows: seq<string>, row: nat, column: nat, rows': seq<string>, row': nat,
          column': nat)
    requires Screen(rows, row, column, text) && Screen(rows', row', column', text)
    ensures rows == rows' && row == row' && column == column'
  {
    forall i | 0 <= i < ROWS ensures rows[i] == rows'[i] {
      assert Shows(rows[i], LineAt(Lines(text), i)) && Shows(rows'[i], LineAt(Lines(text), i));
    }
  }

  // ---- one character ----

  function ScrolledOrNot(rows: seq<string>, row: nat): seq<string>
    requires |rows| == ROWS
  {
    if row < ROWS - 1 then rows else rows[1..] + [seq(COLUMNS + 1, _ => NUL)]
  }

  lemma NewlineScreen(rows: seq<string>, row: nat, column: nat, text: string)
    requires Screen(rows, row, column, text)
    ensures Screen(ScrolledOrNot(rows, row), if row < ROWS - 1 then row + 1 else row, 0, text + ['\n'])
  {
    var text' := text + ['\n'];
    var lines, lines' := Lines(text), Lines(text');
    assert text'[..|text'| - 1] == text && lines' == lines + [[]];
    var rows' := ScrolledOrNot(rows, row);
    forall i | 0 <= i < ROWS ensures Shows(rows'[i], LineAt(lines', i)) {
      if row < ROWS - 1 {
        assert Shows(rows[i], LineAt(lines, i));
      } else if i < ROWS - 1 {
        assert Shows(rows[i + 1], LineAt(lines, i + 1));
        assert LineAt(lines', i) == LineAt(lines, i + 1);
      }
    }
  }

  /** A character that fits goes to the cursor, one that does not is dropped. */
  function Written(rows: seq<string>, row: nat, column: nat, c: char): seq<string>
    requires |rows| == ROWS && row < ROWS && |rows[row]| == COLUMNS + 1 && column <= COLUMNS - 1
  {
    if column < COLUMNS - 1 then rows[row := rows[row][column := c]] else rows
  }

  lemma CharScreen(rows: seq<string>, row: nat, column: nat, text: string, c: char)
    requires Screen(rows, row, column, text) && c != '\n'
    ensures row < ROWS && column <= COLUMNS - 1 && |rows[row]| == COLUMNS + 1
    ensures Screen(Written(rows, row, column, c), row, if column < COLUMNS - 1 then column + 1 else column, text + [c])
  {
    var text' := text + [c];
    var lines, lines' := Lines(text), Lines(text');
    assert text'[..|text'| - 1] == text;
    var last := lines[|lines| - 1];
    assert lines' == lines[..|lines| - 1] + [last + [c]];
    assert Shows(rows[row], LineAt(lines, row)) && LineAt(lines, row) == last;
    var rows' := Written(rows, row, column, c);
    RowGrows(rows[row], last, c);
    forall i | 0 <= i < ROWS ensures Shows(rows'[i], LineAt(lines', i)) {
      assert Shows(rows[i], LineAt(lines, i));
      LastLineAt(lines, last + [c], row, i);
    }
  }

  /** Replacing the last line changes the row of the cursor only. */
  lemma LastLineAt(lines: seq<string>, line: string, row: nat, i: nat)
    requires |lines| > 0 && i < ROWS && row == (if |lines| <= ROWS then |lines| - 1 else ROWS - 1)
    ensures LineAt(lines[..|lines| - 1] + [line], i) == if i == row then line else LineAt(lines, i)
  {
  }

  lemma RowGrows(row: string, line: string, c: char)
    requires Shows(row, line)
    ensures Shows(if |Kept(line)| < COLUMNS - 1 then row[|Kept(line)| := c] else row, line + [c])
  {
  }

  // ---- the console object ----

  class Console {
    const buffer: array2<char>
    var cursorRow: nat
    var cursorColumn: nat
    ghost var text: string     // everything put so far

    ghost function Row(i: nat): string
      requires i < buffer.Length0
      reads buffer
    {
      seq(buffer.Length1, j requires 0 <= j < buffer.Length1 reads buffer => buffer[i, j])
    }

    ghost function Rows(): seq<string>
      reads buffer
    {
      seq(buffer.Length0, i requires 0 <= i < buffer.Length0 reads buffer => Row(i))
    }

    /** The buffer is the screen of the text. */
    ghost predicate Valid()
      reads this, buffer
    {
      buffer.Length0 == ROWS && buffer.Length1 == COLUMNS + 1 && Screen(Rows(), cursorRow, cursorColumn, text)
    }

    constructor ()
      ensures Valid() && text == [] && fresh(buffer)
    {
      buffer := new char[ROWS, COLUMNS + 1]((_, _) => NUL);
      cursorRow, cursorColumn, text := 0, 0, [];
    }

    /** After any calls the buffer shows the concatenation of their texts, however it was split between them. */
    method PutString(s: string)
      requires Valid()
      modifies this, buffer
      ensures Valid() && text == old(text) + s
    {
      var i := 0;
      while i < |s|
        invariant Valid() && i <= |s| && text == old(text) + s[..i]
      {
        if s[i] == '\n' {
          Newline();
        } else {
          PutChar(s[i]);
        }
        assert s[..i + 1] == s[..i] + [s[i]];
        assert text == old(text) + s[..i + 1];
        i := i + 1;
      }
      assert s[..i] == s;
    }

    method PutChar(c: char)
      requires Valid() && c != '\n'
      modifies this, buffer
      ensures Valid() && text == old(text) + [c]
    {
      ghost var rows := Rows();
      CharScreen(rows, cursorRow, cursorColumn, text, c);
      ghost var target := Written(rows, cursorRow, cursorColumn, c);
      text := text + [c];
      if cursorColumn < COLUMNS - 1 {
        StoreChar(cursorRow, cursorColumn, c);
        cursorColumn := cursorColumn + 1;
      }
      assert Rows() == target;
    }

    method StoreChar(row: nat, column: nat, c: char)
      requires row < buffer.Length0 && column < buffer.Length1
      modifies buffer
      ensures Rows() == old(Rows())[row := old(Row(row))[column := c]]
    {
      buffer[row, column] := c;
      ghost var target := old(Rows())[row := old(Row(row))[column := c]];
      forall i | 0 <= i < buffer.Length0 ensures Row(i) == target[i] {
        assert target[i] == if i == row then old(Row(row))[column := c] else old(Row(i));
      }
    }

    method Newline()
      requires Valid()
      modifies this, buffer
      ensures Valid() && text == old(text) + ['\n']
    {
      ghost var rows := Rows();
      NewlineScreen(rows, cursorRow, cursorColumn, text);
      ghost var target := ScrolledOrNot(rows, cursorRow);
      text := text + ['\n'];
      cursorColumn := 0;
      if cursorRow < ROWS - 1 {
        cursorRow := cursorRow + 1;
      } else {
        Scroll();
      }
      assert Rows() == target;
    }

    /** Every row moves up one and the last is cleared. */
    method Scroll()
      requires buffer.Length0 == ROWS && buffer.Length1 == COLUMNS + 1
      modifies buffer
      ensures Rows() == old(Rows())[1..] + [seq(COLUMNS + 1, _ => NUL)]
    {
      for row := 0 to ROWS - 1
        invariant forall i, j :: 0 <= i < row && 0 <= j <= COLUMNS ==> buffer[i, j] == old(buffer[i + 1, j])
        invariant forall i, j :: row <= i < ROWS && 0 <= j <= COLUMNS ==> buffer[i, j] == old(buffer[i, j])
      {
        forall j | 0 <= j <= COLUMNS { buffer[row, j] := buffer[row + 1, j]; }
      }
      var last := ROWS - 1;
      forall j | 0 <= j <= COLUMNS { buffer[last, j] := NUL; }
      ghost var target := old(Rows())[1..] + [seq(COLUMNS + 1, _ => NUL)];
      forall i | 0 <= i < ROWS ensures Row(i) == target[i] {
        if i < ROWS - 1 { assert target[i] == old(Row(i + 1)); }
      }
    }
  }
}
