/** The shape of the tables that the renderer of Lexical trees lays out. */
module LexicalTable {
  import opened Lexical
  import opened LexicalPrint

  /** How often `c` occurs in a text. */
  function Count(s: string, c: char): nat {
    multiset(s)[c]
  }

  /** How often `c` occurs in what the first `n` tokens write, in a document, and in the first cells of a row. */
  function CountTokens(ts: seq<Token>, n: nat, c: char): nat
    requires n <= |ts|
  {
    if n == 0 then 0 else CountTokens(ts, n - 1, c) + Count(ts[n - 1].s, c)
  }

  function CountDoc(d: Doc, c: char): nat {
    match d
    case Nil => 0
    case One(t) => Count(t.s, c)
    case Many(ts) => CountTokens(ts, |ts|, c)
    case Cat(left, right) => CountDoc(left, c) + CountDoc(right, c)
  }

  function CountRow(row: seq<seq<Token>>, n: nat, c: char): nat
    requires n <= |row|
  {
    if n == 0 then 0 else CountRow(row, n - 1, c) + CountTokens(row[n - 1], |row[n - 1]|, c)
  }

  // ---------------------------------------------------------------- counting in the text and in the document

  /** Counting in the text is counting in each write. */
  lemma {:induction false} CountOfPrint(ts: seq<Token>, n: nat, c: char)
    requires n <= |ts|
    ensures Count(Print(ts, n), c) == CountTokens(ts, n, c)
  {
    if n > 0 {
      CountOfPrint(ts, n - 1, c);
      assert multiset(Print(ts, n)) == multiset(Print(ts, n - 1)) + multiset(ts[n - 1].s);
    }
  }

  lemma {:induction false} CountTokensPrefix(a: seq<Token>, b: seq<Token>, n: nat, c: char)
    requires n <= |a|
    ensures CountTokens(a + b, n, c) == CountTokens(a, n, c)
  {
    if n > 0 {
      CountTokensPrefix(a, b, n - 1, c);
    }
  }

  lemma {:induction false} CountTokensJoin(a: seq<Token>, b: seq<Token>, n: nat, c: char)
    requires n <= |b|
    ensures CountTokens(a + b, |a| + n, c) == CountTokens(a, |a|, c) + CountTokens(b, n, c)
  {
    if n == 0 {
      CountTokensPrefix(a, b, |a|, c);
    } else {
      CountTokensJoin(a, b, n - 1, c);
      assert (a + b)[|a| + n - 1] == b[n - 1];
    }
  }

  lemma {:induction false} CountOfDoc(d: Doc, c: char)
    ensures CountTokens(Flatten(d), |Flatten(d)|, c) == CountDoc(d, c)
  {
    match d
    case Nil =>
    case One(t) => assert CountTokens([t], 0, c) == 0;
    case Many(ts) =>
    case Cat(left, right) =>
      CountOfDoc(left, c);
      CountOfDoc(right, c);
      CountTokensJoin(Flatten(left), Flatten(right), |Flatten(right)|, c);
  }

  // ---------------------------------------------------------------- the pieces of a table

  /** How many bars or newlines the fixed pieces of a table hold. */
  lemma CountPieces(c: char)
    requires c == '|' || c == '\n'
    ensures Count("|", c) == Count(" |", c) == Count("  |", c) == Count("---|", c) == if c == '|' then 1 else 0
    ensures Count(" ", c) == 0
    ensures Count("\n", c) == if c == '|' then 0 else 1
  {
  }

  lemma {:induction false} CountColumns(row: seq<seq<Token>>, n: nat, c: char)
    requires c == '|' || c == '\n'
    ensures CountDoc(Columns(row, n), c)
         == CountRow(row, if n <= |row| then n else |row|, c) + if c == '|' then n else 0
  {
    if n > 0 {
      CountColumns(row, n - 1, c);
      CountColumn(row, n - 1, c);
    }
  }

  lemma CountColumn(row: seq<seq<Token>>, j: nat, c: char)
    requires c == '|' || c == '\n'
    ensures CountDoc(Column(row, j), c)
         == (if j < |row| then CountTokens(row[j], |row[j]|, c) else 0) + if c == '|' then 1 else 0
  {
    CountPieces(c);
    if j < |row| {
      var cell, bar := Many(row[j]), One(Token(Layout, " |"));
      assert CountDoc(Cat(cell, bar), c) == CountDoc(cell, c) + CountDoc(bar, c);
    }
  }

  lemma {:induction false} CountDashes(n: nat, c: char)
    requires c == '|' || c == '\n'
    ensures CountDoc(Dashes(n), c) == if c == '|' then n else 0
  {
    CountPieces(c);
    if n > 0 {
      CountDashes(n - 1, c);
    }
  }

  // ---------------------------------------------------------------- cells have no newlines

  lemma FlatHasNoNewline(s: string)
    ensures Count(Flat(s), '\n') == 0
  {
    assert '\n' !in Flat(s);
  }

  lemma {:induction false} CleanHasNoNewline(ts: seq<Token>, n: nat)
    requires n <= |ts|
    ensures CountTokens(Clean(ts), n, '\n') == 0
  {
    if n > 0 {
      CleanHasNoNewline(ts, n - 1);
      FlatHasNoNewline(ts[n - 1].s);
    }
  }

  ghost predicate OneLineCells(row: seq<seq<Token>>) {
    forall j :: 0 <= j < |row| ==> CountTokens(row[j], |row[j]|, '\n') == 0
  }

  lemma {:induction false} CellsHaveNoNewline(row: Node, n: nat)
    requires n <= |row.children|
    ensures OneLineCells(Cells(row, n))
  {
    if n > 0 {
      var cell := row.children[n - 1];
      CellsHaveNoNewline(row, n - 1);
      CellHasNoNewline(cell);
    }
  }

  lemma CellHasNoNewline(cell: Node)
    ensures CountTokens(CellOf(cell), |CellOf(cell)|, '\n') == 0
  {
    var ts := Flatten(Kids(cell, |cell.children|, 0, Nil));
    CleanHasNoNewline(ts, |ts|);
  }

  lemma {:induction false} RowHasNoNewline(row: seq<seq<Token>>, n: nat)
    requires OneLineCells(row) && n <= |row|
    ensures CountRow(row, n, '\n') == 0
  {
    if n > 0 {
      RowHasNoNewline(row, n - 1);
    }
  }

  ghost predicate OneLineRows(rows: seq<seq<seq<Token>>>) {
    forall i :: 0 <= i < |rows| ==> OneLineCells(rows[i])
  }

  lemma OneLineAppend(rows: seq<seq<seq<Token>>>, row: seq<seq<Token>>)
    requires OneLineRows(rows) && OneLineCells(row)
    ensures OneLineRows(rows + [row])
  {
  }

  lemma {:induction false} RowsHaveNoNewline(table: Node, n: nat)
    requires n <= |table.children|
    ensures OneLineRows(Rows(table, n))
  {
    if n > 0 {
      var row, before := table.children[n - 1], Rows(table, n - 1);
      RowsHaveNoNewline(table, n - 1);
      if row.kind == TableRow {
        CellsHaveNoNewline(row, |row.children|);
        OneLineAppend(before, Cells(row, |row.children|));
        assert Rows(table, n) == before + [Cells(row, |row.children|)];
      }
    }
  }

  // ---------------------------------------------------------------- line by line

  lemma CountOfWritten(d: Doc, c: char)
    ensures Count(Written(d), c) == CountDoc(d, c)
  {
    WrittenIsPrinted(d);
    CountOfPrint(Flatten(d), |Flatten(d)|, c);
    CountOfDoc(d, c);
  }

  /** The first `n` lines, each with a newline behind it. */
  function Joined(lines: seq<string>, n: nat): string
    requires n <= |lines|
  {
    if n == 0 then "" else Joined(lines, n - 1) + (lines[n - 1] + "\n")
  }

  /** One line of a table without its newline. */
  function TextOfLine(columns: Doc): string {
    "|" + Written(columns)
  }

  lemma LineWritten(columns: Doc)
    ensures Written(OneLine(columns)) == TextOfLine(columns) + "\n"
  {
    assert Written(Cat(columns, One(Newline))) == Written(columns) + "\n";
  }

  lemma CountLine(columns: Doc, c: char)
    requires c == '|' || c == '\n'
    ensures Count(TextOfLine(columns), c) == CountDoc(columns, c) + if c == '|' then 1 else 0
  {
    var text := Written(columns);
    CountOfWritten(columns, c);
    CountBehindBar(text, c);
  }

  lemma CountBehindBar(text: string, c: char)
    ensures Count("|" + text, c) == Count(text, c) + if c == '|' then 1 else 0
  {
    assert multiset("|" + text) == multiset("|") + multiset(text);
  }

  /** A line that holds no newline and the given number of bars. */
  predicate Holds(line: string, bars: nat) {
    Count(line, '\n') == 0 && Count(line, '|') == bars
  }

  /** The bars inside the cells of a row. */
  function BarsIn(row: seq<seq<Token>>): nat {
    CountRow(row, |row|, '|')
  }

  lemma SeparatorLine(cols: nat) returns (line: string)
    ensures Written(OneLine(Dashes(cols))) == line + "\n" && Holds(line, cols + 1)
  {
    LineWritten(Dashes(cols));
    CountLine(Dashes(cols), '|');
    CountLine(Dashes(cols), '\n');
    CountDashes(cols, '|');
    CountDashes(cols, '\n');
    line := TextOfLine(Dashes(cols));
  }

  lemma RowLine(row: seq<seq<Token>>, cols: nat) returns (line: string)
    requires OneLineCells(row) && |row| <= cols
    ensures Written(OneLine(Columns(row, cols))) == line + "\n" && Holds(line, cols + 1 + BarsIn(row))
  {
    LineWritten(Columns(row, cols));
    CountLine(Columns(row, cols), '|');
    CountLine(Columns(row, cols), '\n');
    CountColumns(row, cols, '|');
    CountColumns(row, cols, '\n');
    RowHasNoNewline(row, |row|);
    line := TextOfLine(Columns(row, cols));
  }

  lemma {:induction false} JoinedPrefix(lines: seq<string>, line: string, n: nat)
    requires n <= |lines|
    ensures Joined(lines + [line], n) == Joined(lines, n)
  {
    if n > 0 {
      JoinedPrefix(lines, line, n - 1);
    }
  }

  lemma JoinedAppend(lines: seq<string>, line: string)
    ensures Joined(lines + [line], |lines| + 1) == Joined(lines, |lines|) + (line + "\n")
  {
    JoinedPrefix(lines, line, |lines|);
  }

  /** The lines below the separator, for the first `n` rows. */
  lemma {:induction false} BodyLines(rows: seq<seq<seq<Token>>>, n: nat, cols: nat) returns (lines: seq<string>)
    requires 1 <= n <= |rows| && OneLineRows(rows) && forall i :: 0 <= i < |rows| ==> |rows[i]| <= cols
    ensures |lines| == n - 1 && Joined(lines, n - 1) == Written(Lines(rows, n, cols))
    ensures forall i :: 1 <= i < n ==> Holds(lines[i - 1], cols + 1 + BarsIn(rows[i]))
  {
    if n == 1 {
      lines := [];
    } else {
      var before := BodyLines(rows, n - 1, cols);
      var line := RowLine(rows[n - 1], cols);
      JoinedAppend(before, line);
      lines := before + [line];
      forall i | 1 <= i < n ensures Holds(lines[i - 1], cols + 1 + BarsIn(rows[i])) {
        if i < n - 1 {
          assert lines[i - 1] == before[i - 1];
        }
      }
    }
  }

  /** One line for each row with a separator after the first, and an empty line at the end. */
  ghost predicate Shaped(head: string, separator: string, body: seq<string>, rows: seq<seq<seq<Token>>>, cols: nat) {
    && rows != [] && |body| == |rows| - 1
    && Holds(head, cols + 1 + BarsIn(rows[0]))
    && Holds(separator, cols + 1)
    && forall i :: 1 <= i < |rows| ==> Holds(body[i - 1], cols + 1 + BarsIn(rows[i]))
  }

  lemma GridLines(rows: seq<seq<seq<Token>>>) returns (head: string, separator: string, body: seq<string>)
    requires rows != [] && OneLineRows(rows)
    ensures Shaped(head, separator, body, rows, MaxCols(rows, |rows|))
    ensures Written(Grid(rows)) == (head + "\n") + (separator + "\n") + (Joined(body, |body|) + "\n")
  {
    var cols := MaxCols(rows, |rows|);
    head := RowLine(rows[0], cols);
    separator := SeparatorLine(cols);
    body := BodyLines(rows, |rows|, cols);
    GridPrints(OneLine(Columns(rows[0], cols)), OneLine(Dashes(cols)), Lines(rows, |rows|, cols));
  }

  /**
   A table with rows is printed as one line for each row with a separator after the first, and an empty
   line. No line holds a newline, whatever the cells hold, and besides the bars inside its cells each has
   one bar more than the widest row has cells.
   */
  lemma TableShape(table: Node, depth: nat)
    requires table.kind == TableNode
    ensures
      var rows, ts := Rows(table, |table.children|), Flatten(Walk(table, depth));
      if rows == [] then ts == []
      else
        exists head, separator, body ::
          && Shaped(head, separator, body, rows, MaxCols(rows, |rows|))
          && Print(ts, |ts|) == (head + "\n") + (separator + "\n") + (Joined(body, |body|) + "\n")
  {
    var rows := Rows(table, |table.children|);
    RowsHaveNoNewline(table, |table.children|);
    assert Walk(table, depth) == Grid(rows);
    if rows != [] {
      WrittenIsPrinted(Grid(rows));
      var head, separator, body := GridLines(rows);
    }
  }
}
