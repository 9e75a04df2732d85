/** The text screen: a window of 25 rows of 80 cells that scrolls over an unbounded output. */
module Terminal {
  import opened Bytes

  const WIDTH: nat := 80
  const HEIGHT: nat := 25
  const CELLS: nat := 2000
  const INITIAL_COLOR: byte := 7   // light grey on black

  /** vga_entry. */
  function VgaEntry(c: byte, color: byte): nat {
    c as nat + 256 * color as nat
  }

  datatype Tty = Tty(cells: seq<nat>, row: nat, column: nat, color: byte) {
    predicate Ok() {
      |cells| == CELLS && row < HEIGHT && column < WIDTH
    }

    function At(y: nat, x: nat): nat
      requires Ok() && y < HEIGHT && x < WIDTH
    {
      cells[y * WIDTH + x]
    }
  }

  /** tty_scroll: the copying always moves by one row; the bottom `line` rows become blank. */
  function Scrolled(cells: seq<nat>, line: nat, blank: nat): (r: seq<nat>)
    requires |cells| == CELLS
    ensures |r| == CELLS
  {
    if line < 1 || line >= HEIGHT then cells
    else
      seq(CELLS, i requires 0 <= i < CELLS =>
        if (HEIGHT - line) * WIDTH <= i then blank
        else if (line - 1) * WIDTH <= i < (HEIGHT - 1) * WIDTH then cells[i + WIDTH]
        else cells[i])
  }

  /** Row by row: the bottom rows are blank, those above from the last but `line` on move up by one, the others stay. */
  lemma ScrolledRows(cells: seq<nat>, line: nat, blank: nat, y: nat, x: nat)
    requires |cells| == 2000 && 1 <= line < 25 && y < 25 && x < 80
    ensures Scrolled(cells, line, blank)[80 * y + x] ==
            if 25 - line <= y then blank else if line - 1 <= y then cells[80 * (y + 1) + x] else cells[80 * y + x]
  {
  }

  /** tty_new_line. */
  function NewLine(t: Tty): (t': Tty)
    requires t.Ok()
    ensures t'.Ok()
  {
    if t.row + 1 >= HEIGHT then
      t.(cells := Scrolled(t.cells, 1, VgaEntry(SPACE, t.color)), row := HEIGHT - 1, column := 0)
    else t.(row := t.row + 1, column := 0)
  }

  /** tty_putchar. */
  function PutChar(t: Tty, c: byte): (t': Tty)
    requires t.Ok()
    ensures t'.Ok()
  {
    if c == NEWLINE then NewLine(t)
    else
      var t1 := t.(cells := t.cells[t.row * WIDTH + t.column := VgaEntry(c, t.color)]);
      if t.column + 1 == WIDTH then NewLine(t1) else t1.(column := t.column + 1)
  }

  /** tty_init. */
  function Cleared(): (t: Tty)
    ensures t.Ok() && forall i :: 0 <= i < CELLS ==> t.cells[i] == VgaEntry(SPACE, INITIAL_COLOR)
  {
    Tty(seq(CELLS, i => VgaEntry(SPACE, INITIAL_COLOR)), 0, 0, INITIAL_COLOR)
  }

  // ---------- the unbounded layout ----------

  /** A character with the colour in force when it was put. */
  datatype Glyph = Glyph(c: byte, color: byte)

  /** A row of the layout and the colour in force when it was started. */
  datatype Row = Row(color: byte, glyphs: seq<Glyph>)

  /** The place of the first newline, the length of the text if it has none. */
  function LineEnd(text: seq<Glyph>): (n: nat)
    ensures n <= |text| && (n < |text| ==> text[n].c == NEWLINE) && forall i :: 0 <= i < n ==> text[i].c != NEWLINE
  {
    if text == [] || text[0].c == NEWLINE then 0 else 1 + LineEnd(text[1..])
  }

  /** The rows of a text: a newline ends a row, and so does the 80th character. */
  function Layout(text: seq<Glyph>, color: byte): (rows: seq<Row>)
    ensures |rows| > 0
    decreases |text|
  {
    var n := LineEnd(text);
    if n >= WIDTH then [Row(color, text[..WIDTH])] + Layout(text[WIDTH..], text[WIDTH - 1].color)
    else if n < |text| then [Row(color, text[..n])] + Layout(text[n + 1..], text[n].color)
    else [Row(color, text)]
  }

  /** What one more character does to the rows. */
  function Extended(rows: seq<Row>, g: Glyph): seq<Row>
    requires |rows| > 0
  {
    var k := |rows| - 1;
    if g.c == NEWLINE then rows + [Row(g.color, [])]
    else
      var rows1 := rows[k := rows[k].(glyphs := rows[k].glyphs + [g])];
      if |rows[k].glyphs| + 1 == WIDTH then rows1 + [Row(g.color, [])] else rows1
  }

  lemma LineEndSnoc(text: seq<Glyph>, g: Glyph)
    ensures LineEnd(text + [g]) ==
            if LineEnd(text) < |text| || g.c == NEWLINE then LineEnd(text) else |text| + 1
  {
    hide LineEnd;
    var t := text + [g];
    assert t[|text|] == g && forall k :: 0 <= k < |text| ==> t[k] == text[k];
  }

  /** The rows of a longer text: earlier rows never change. */
  lemma {:induction false} LayoutSnoc(text: seq<Glyph>, g: Glyph, color: byte)
    ensures Layout(text + [g], color) == Extended(Layout(text, color), g)
    ensures |Last(Layout(text, color)).glyphs| < WIDTH
    decreases |text|
  {
    hide LineEnd, Extended;
    var n := LineEnd(text);
    var t := text + [g];
    LineEndSnoc(text, g);
    if n >= WIDTH {
      assert t[..WIDTH] == text[..WIDTH] && t[WIDTH..] == text[WIDTH..] + [g];
      LayoutSnoc(text[WIDTH..], g, text[WIDTH - 1].color);
      ExtendedTail(Row(color, text[..WIDTH]), Layout(text[WIDTH..], text[WIDTH - 1].color), g);
    } else if n < |text| {
      assert t[..n] == text[..n] && t[n + 1..] == text[n + 1..] + [g];
      LayoutSnoc(text[n + 1..], g, text[n].color);
      ExtendedTail(Row(color, text[..n]), Layout(text[n + 1..], text[n].color), g);
    } else {
      LayoutSnocOneRow(text, g, color);
    }
  }

  /** No text is one empty row; a newline starts the next row, and so does the 80th character of a row. */
  lemma LayoutGrows(text: seq<Glyph>, g: Glyph, color: byte)
    ensures Layout([], color) == [Row(color, [])]
    ensures var (rows, k) := (Layout(text, color), |Layout(text, color)| - 1);
            var grown := rows[k := Row(rows[k].color, rows[k].glyphs + [g])];
            && |rows[k].glyphs| < 80
            && Layout(text + [g], color) ==
               if g.c == 10 then rows + [Row(g.color, [])]
               else if |rows[k].glyphs| == 79 then grown + [Row(g.color, [])]
               else grown
  {
    assert Layout([], color) == [Row(color, [])];
    hide Layout;
    LayoutSnoc(text, g, color);
  }

  lemma LayoutSnocOneRow(text: seq<Glyph>, g: Glyph, color: byte)
    requires LineEnd(text) == |text| < WIDTH
    ensures Layout(text + [g], color) == Extended([Row(color, text)], g)
  {
    var t := text + [g];
    LineEndSnoc(text, g);
    if g.c == NEWLINE {
      assert t[..|text|] == text && t[|text| + 1..] == [];
    } else if |text| + 1 == WIDTH {
      assert t[..WIDTH] == t && t[WIDTH..] == [];
    }
  }

  function Last(rows: seq<Row>): Row
    requires |rows| > 0
  {
    rows[|rows| - 1]
  }

  lemma ExtendedTail(first: Row, rows: seq<Row>, g: Glyph)
    requires |rows| > 0
    ensures Extended([first] + rows, g) == [first] + Extended(rows, g)
    ensures Last([first] + rows) == Last(rows)
  {
  }

  // ---------- the window ----------

  /** The first row on the screen. */
  function Base(rows: seq<Row>): nat {
    if |rows| > HEIGHT then |rows| - HEIGHT else 0
  }

  /**
   What cell x of row k of the layout looks like: its character; a blank behind the row's end, in the colour
   of the start of the row if the row came in by scrolling, in the initial colour on the first screen.
   */
  function CellOf(rows: seq<Row>, k: nat, x: nat): nat {
    if k < |rows| && x < |rows[k].glyphs| then VgaEntry(rows[k].glyphs[x].c, rows[k].glyphs[x].color)
    else VgaEntry(SPACE, if HEIGHT <= k < |rows| then rows[k].color else INITIAL_COLOR)
  }

  ghost predicate Window(t: Tty, rows: seq<Row>)
    requires t.Ok()
  {
    forall y, x :: 0 <= y < HEIGHT && 0 <= x < WIDTH ==> t.At(y, x) == CellOf(rows, Base(rows) + y, x)
  }

  /** The screen shows the last 25 rows of the layout, and the cursor is behind its last character. */
  ghost predicate Shows(t: Tty, rows: seq<Row>) {
    && t.Ok() && |rows| > 0
    && t.row == |rows| - 1 - Base(rows) && t.column == |Last(rows).glyphs|
    && Window(t, rows)
  }

  lemma SameWindow(t: Tty, t': Tty, rows: seq<Row>)
    requires t.Ok() && t'.Ok() && t'.cells == t.cells && Window(t, rows)
    ensures Window(t', rows)
  {
    forall y, x | 0 <= y < HEIGHT && 0 <= x < WIDTH ensures t'.At(y, x) == t.At(y, x) {
    }
  }

  lemma SetColorShows(t: Tty, rows: seq<Row>, color: byte)
    requires Shows(t, rows)
    ensures Shows(t.(color := color), rows)
  {
    SameWindow(t, t.(color := color), rows);
  }

  lemma NewLineShows(t: Tty, rows: seq<Row>)
    requires t.Ok() && |rows| > 0 && t.row == |rows| - 1 - Base(rows) && Window(t, rows)
    ensures Shows(NewLine(t), rows + [Row(t.color, [])])
  {
    var rows' := rows + [Row(t.color, [])];
    var t' := NewLine(t);
    forall y, x | 0 <= y < HEIGHT && 0 <= x < WIDTH ensures t'.At(y, x) == CellOf(rows', Base(rows') + y, x) {
      if |rows| < HEIGHT {
        assert t'.At(y, x) == t.At(y, x);
      } else if y + 1 < HEIGHT {
        assert t'.At(y, x) == t.At(y + 1, x);
      } else {
        assert t'.At(y, x) == VgaEntry(SPACE, t.color);
      }
    }
  }

  /** Writing a character behind the last row's end, with the cursor still on it. */
  lemma EntryShows(t: Tty, rows: seq<Row>, g: Glyph)
    requires Shows(t, rows) && |Last(rows).glyphs| < WIDTH
    ensures var k := |rows| - 1;
            Window(t.(cells := t.cells[t.row * WIDTH + t.column := VgaEntry(g.c, g.color)]),
                   rows[k := rows[k].(glyphs := rows[k].glyphs + [g])])
  {
    hide VgaEntry;
    var k := |rows| - 1;
    var t1 := t.(cells := t.cells[t.row * WIDTH + t.column := VgaEntry(g.c, g.color)]);
    var rows1 := rows[k := rows[k].(glyphs := rows[k].glyphs + [g])];
    forall y, x | 0 <= y < HEIGHT && 0 <= x < WIDTH ensures t1.At(y, x) == CellOf(rows1, Base(rows1) + y, x) {
      assert t.At(y, x) == CellOf(rows, Base(rows) + y, x);
      assert t1.At(y, x) == if y == t.row && x == t.column then VgaEntry(g.c, g.color) else t.At(y, x);
    }
  }

  lemma PutShows(t: Tty, rows: seq<Row>, c: byte)
    requires Shows(t, rows) && |Last(rows).glyphs| < WIDTH
    ensures Shows(PutChar(t, c), Extended(rows, Glyph(c, t.color)))
  {
    var g, k := Glyph(c, t.color), |rows| - 1;
    if c == NEWLINE {
      NewLineShows(t, rows);
    } else {
      var t1 := t.(cells := t.cells[t.row * WIDTH + t.column := VgaEntry(c, t.color)]);
      var rows1 := rows[k := rows[k].(glyphs := rows[k].glyphs + [g])];
      EntryShows(t, rows, g);
      hide Window, VgaEntry, CellOf, NewLine;
      if t.column + 1 == WIDTH {
        NewLineShows(t1, rows1);
      } else {
        SameWindow(t1, PutChar(t, c), rows1);
      }
    }
  }

  lemma ClearedShows()
    ensures Shows(Cleared(), Layout([], INITIAL_COLOR))
  {
  }

  // ---------- whole runs ----------

  datatype Op = Put(c: byte) | SetColor(color: byte)

  function Step(t: Tty, op: Op): (t': Tty)
    requires t.Ok()
    ensures t'.Ok()
  {
    match op
    case Put(c) => PutChar(t, c)
    case SetColor(color) => t.(color := color)
  }

  function Run(t: Tty, ops: seq<Op>): (t': Tty)
    requires t.Ok()
    ensures t'.Ok()
  {
    if ops == [] then t else Step(Run(t, ops[..|ops| - 1]), ops[|ops| - 1])
  }

  /** The text that was put, each character with the colour in force. */
  function TextOf(ops: seq<Op>): seq<Glyph> {
    if ops == [] then []
    else
      var before := ops[..|ops| - 1];
      match ops[|ops| - 1]
      case Put(c) => TextOf(before) + [Glyph(c, ColorOf(before))]
      case SetColor(_) => TextOf(before)
  }

  function ColorOf(ops: seq<Op>): byte {
    if ops == [] then INITIAL_COLOR
    else
      match ops[|ops| - 1]
      case Put(_) => ColorOf(ops[..|ops| - 1])
      case SetColor(color) => color
  }

  /** Whatever is put on the cleared screen, in whatever colours, it shows the last 25 rows of the text's layout. */
  lemma {:induction false} ScreenShowsLastRows(ops: seq<Op>)
    ensures Shows(Run(Cleared(), ops), Layout(TextOf(ops), 7))
    ensures Run(Cleared(), ops).color == ColorOf(ops)
  {
    if ops == [] {
      ClearedShows();
    } else {
      hide Shows, Layout, Extended, Cleared;
      var before := ops[..|ops| - 1];
      ScreenShowsLastRows(before);
      match ops[|ops| - 1]
      case Put(c) =>
        LayoutSnoc(TextOf(before), Glyph(c, ColorOf(before)), INITIAL_COLOR);
        assert Run(Cleared(), before).Ok();
        PutShows(Run(Cleared(), before), Layout(TextOf(before), INITIAL_COLOR), c);
      case SetColor(color) => 
        var t := Run(Cleared(), before);
        SetColorShows(t, Layout(TextOf(before), INITIAL_COLOR), color);
    }
  }

  /**
   The same, cell by cell: of 80 cells in each of 25 rows, one behind the other, the low byte is the character of the
   layout there and the high byte its colour. Behind the end of a row there are blanks, in light grey on black (7) on
   the first screen, else in the colour in force at the start of the row.
   */
  lemma ScreenCells(ops: seq<Op>, y: nat, x: nat)
    requires y < 25 && x < 80
    ensures var (t, rows) := (Run(Cleared(), ops), Layout(TextOf(ops), 7));
            var top := if |rows| > 25 then |rows| - 25 else 0;
            && |t.cells| == 2000 && t.row == |rows| - 1 - top && t.column == |rows[|rows| - 1].glyphs|
            && (if top + y < |rows| && x < |rows[top + y].glyphs|
                then t.cells[80 * y + x] % 256 == rows[top + y].glyphs[x].c as int
                     && t.cells[80 * y + x] / 256 == rows[top + y].glyphs[x].color as int
                else t.cells[80 * y + x] % 256 == 32
                     && t.cells[80 * y + x] / 256 == if 25 <= top + y < |rows| then rows[top + y].color as int else 7)
  {
    hide *;
    ScreenShowsLastRows(ops);
    ShownCell(Run(Cleared(), ops), Layout(TextOf(ops), 7), y, x);
  }

  lemma ShownCell(t: Tty, rows: seq<Row>, y: nat, x: nat)
    requires Shows(t, rows) && y < 25 && x < 80
    ensures var top := if |rows| > 25 then |rows| - 25 else 0;
            && |t.cells| == 2000 && t.row == |rows| - 1 - top && t.column == |rows[|rows| - 1].glyphs|
            && (if top + y < |rows| && x < |rows[top + y].glyphs|
                then t.cells[80 * y + x] % 256 == rows[top + y].glyphs[x].c as int
                     && t.cells[80 * y + x] / 256 == rows[top + y].glyphs[x].color as int
                else t.cells[80 * y + x] % 256 == 32
                     && t.cells[80 * y + x] / 256 == if 25 <= top + y < |rows| then rows[top + y].color as int else 7)
  {
    hide VgaEntry, CellOf;
    CellParts(rows, Base(rows) + y, x);
    assert t.At(y, x) == CellOf(rows, Base(rows) + y, x);
  }

  lemma CellParts(rows: seq<Row>, k: nat, x: nat)
    ensures if k < |rows| && x < |rows[k].glyphs|
            then CellOf(rows, k, x) % 256 == rows[k].glyphs[x].c as int && CellOf(rows, k, x) / 256 == rows[k].glyphs[x].color as int
            else CellOf(rows, k, x) % 256 == 32 && CellOf(rows, k, x) / 256 == if 25 <= k < |rows| then rows[k].color as int else 7
  {
  }

  // ---------- the driver ----------

  class Screen {
    const buffer: array<nat>
    var row: nat
    var column: nat
    var color: byte

    ghost predicate Valid()
      reads this
    {
      buffer.Length == CELLS && row < HEIGHT && column < WIDTH
    }

    ghost function State(): (t: Tty)
      requires Valid()
      reads this, buffer
      ensures t.Ok()
    {
      Tty(buffer[..], row, column, color)
    }

    /** tty_init, on a video memory that holds whatever it holds. */
    constructor (memory: array<nat>)
      requires memory.Length == CELLS
      modifies memory
      ensures Valid() && buffer == memory && State() == Cleared()
    {
      buffer, row, column, color := memory, 0, 0, INITIAL_COLOR;
      new;
      for y := 0 to HEIGHT
        invariant forall i :: 0 <= i < y * WIDTH ==> buffer[i] == VgaEntry(SPACE, INITIAL_COLOR)
        invariant buffer == memory && row == 0 && column == 0 && color == INITIAL_COLOR
      {
        for x := 0 to WIDTH
          invariant forall i :: 0 <= i < y * WIDTH + x ==> buffer[i] == VgaEntry(SPACE, INITIAL_COLOR)
          invariant buffer == memory && row == 0 && column == 0 && color == INITIAL_COLOR
        {
          buffer[y * WIDTH + x] := VgaEntry(SPACE, color);
        }
      }
      assert buffer[..] == Cleared().cells;
    }

    /** tty_setcolor. */
    method SetColor(newColor: byte)
      requires Valid()
      modifies this`color
      ensures Valid() && State() == old(State()).(color := newColor)
    {
      color := newColor;
    }

    /** tty_putentryat. */
    method PutEntryAt(c: byte, entryColor: byte, x: nat, y: nat)
      requires Valid() && x < WIDTH && y < HEIGHT
      modifies buffer
      ensures buffer[..] == old(buffer[..])[y * WIDTH + x := VgaEntry(c, entryColor)]
    {
      buffer[y * WIDTH + x] := VgaEntry(c, entryColor);
    }

    /** tty_scroll. */
    method Scroll(line: nat)
      requires Valid()
      modifies buffer
      ensures buffer[..] == Scrolled(old(buffer[..]), line, VgaEntry(SPACE, color))
    {
      if line < 1 || line >= HEIGHT {
        return;
      }
      ghost var was := buffer[..];
      var first, bottom := line * WIDTH, (HEIGHT - line) * WIDTH;
      assert first == 80 * line && bottom == CELLS - first;
      for loop := first to CELLS
        invariant forall i :: first - WIDTH <= i < loop - WIDTH ==> buffer[i] == was[i + WIDTH]
        invariant forall i :: 0 <= i < first - WIDTH ==> buffer[i] == was[i]
        invariant forall i :: loop - WIDTH <= i < CELLS ==> buffer[i] == was[i]
      {
        buffer[loop - WIDTH] := buffer[loop];
      }
      ghost var moved := buffer[..];
      for loop := bottom to CELLS
        invariant forall i :: bottom <= i < loop ==> buffer[i] == VgaEntry(SPACE, color)
        invariant forall i :: 0 <= i < bottom || loop <= i < CELLS ==> buffer[i] == moved[i]
      {
        buffer[loop] := VgaEntry(SPACE, color);
      }
      assert (line - 1) * WIDTH == first - WIDTH;
      assert buffer[..] == Scrolled(was, line, VgaEntry(SPACE, color));
    }

    /** tty_new_line. */
    method StartLine()
      requires Valid()
      modifies this`row, this`column, buffer
      ensures Valid() && State() == NewLine(old(State()))
    {
      column := 0;
      if row + 1 >= HEIGHT {
        row := HEIGHT - 1;
        Scroll(1);
      } else {
        row := row + 1;
      }
    }

    /** tty_putchar. */
    method Put(c: byte)
      requires Valid()
      modifies this`row, this`column, buffer
      ensures Valid() && State() == PutChar(old(State()), c)
    {
      if c == NEWLINE {
        StartLine();
      } else {
        PutEntryAt(c, color, column, row);
        if column + 1 == WIDTH {
          column := 0;
          StartLine();
        } else {
          column := column + 1;
        }
      }
    }

    /** tty_puts on the bytes before the terminator. */
    method Puts(str: seq<byte>)
      requires Valid()
      modifies this`row, this`column, buffer
      ensures Valid() && State() == Run(old(State()), Puttings(str))
    {
      for i := 0 to |str|
        invariant Valid() && State() == Run(old(State()), Puttings(str[..i]))
      {
        Put(str[i]);
        assert Puttings(str[..i + 1])[..i] == Puttings(str[..i]);
      }
      assert str[..|str|] == str;
    }
  }

  function Puttings(str: seq<byte>): (ops: seq<Op>)
    ensures |ops| == |str| && forall i :: 0 <= i < |ops| ==> ops[i] == Put(str[i])
  {
    seq(|str|, i requires 0 <= i < |str| => Put(str[i]))
  }
}
