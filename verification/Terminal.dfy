/** The terminal seen by the renderer: a scrollback, a screen of fixed height, a cursor and a pen. */
module Terminal {

  /** One unit of rendered text. `Reset` is the SGR reset plus hyperlink close that ends every
      rendered line; `Marker` is the zero-width cursor marker. */
  datatype Atom =
    | Glyph(g: char, w: nat)
    | Code(code: string)
    | Reset
    | Marker

  type Line = seq<Atom>

  /** The style in force, as the codes written since the last reset. */
  type Pen = seq<string>

  datatype Cell = Erased(pen: Pen) | Ink(g: char, pen: Pen) | Tail(pen: Pen)

  type Row = seq<Cell>

  datatype Cmd =
    | Text(line: Line)
    | Cr
    | CrLf
    | Up(n: nat)
    | Down(n: nat)
    | Column(n: nat)
    | EraseLine
    | EraseDisplay
    | Home
    | EraseScrollback
    | Sync(on: bool)
    | ShowCursor(on: bool)

  /** `rows` is the scrollback followed by the screen; the screen starts at row `top`. */
  datatype Screen = Screen(width: nat, height: nat, rows: seq<Row>, top: nat, row: nat, col: nat, pen: Pen)
  {
    predicate Valid() {
      && 1 <= height
      && |rows| == top + height
      && top <= row < top + height
      && col <= width
      && forall i :: 0 <= i < |rows| ==> |rows[i]| == width
    }
  }

  function ErasedCells(n: nat, pen: Pen): (r: Row)
    ensures |r| == n && forall i :: 0 <= i < n ==> r[i] == Erased(pen)
  {
    seq(n, i => Erased(pen))
  }

  function GlyphCells(g: char, w: nat, pen: Pen): (r: Row)
    ensures |r| == w
  {
    if w == 0 then [] else [Ink(g, pen)] + seq(w - 1, i => Tail(pen))
  }

  function LineFeed(s: Screen): (r: Screen)
    requires s.Valid()
    ensures r.Valid() && r.col == 0 && r.row == s.row + 1
    ensures r.width == s.width && r.height == s.height && r.pen == s.pen
  {
    if s.row + 1 < s.top + s.height then
      s.(row := s.row + 1, col := 0)
    else
      s.(rows := s.rows + [ErasedCells(s.width, s.pen)], top := s.top + 1, row := s.row + 1, col := 0)
  }

  /** Overwrite cells at the cursor and advance it past them. */
  function Splice(s: Screen, cells: Row, pen: Pen): (r: Screen)
    requires s.Valid() && s.col + |cells| <= s.width
    ensures r.Valid() && r.width == s.width && r.height == s.height
  {
    var before := s.rows[s.row];
    s.(rows := s.rows[s.row := before[..s.col] + cells + before[s.col + |cells|..]], col := s.col + |cells|, pen := pen)
  }

  /** Print one atom. A glyph that does not fit in the row wraps to the next one. */
  function Put(s: Screen, a: Atom): (r: Screen)
    requires s.Valid()
    ensures r.Valid() && r.width == s.width && r.height == s.height
  {
    match a
    case Glyph(g, w) =>
      if w > s.width then s
      else if s.col + w > s.width then Splice(LineFeed(s), GlyphCells(g, w, s.pen), s.pen)
      else Splice(s, GlyphCells(g, w, s.pen), s.pen)
    case Code(c) => s.(pen := s.pen + [c])
    case Reset => s.(pen := [])
    case Marker => s
  }

  function PutAll(s: Screen, line: Line): (r: Screen)
    requires s.Valid()
    ensures r.Valid() && r.width == s.width && r.height == s.height
    decreases line
  {
    if line == [] then s else PutAll(Put(s, line[0]), line[1..])
  }

  function AtLeastOne(n: nat): nat {
    if n == 0 then 1 else n
  }

  function Min(a: int, b: int): int {
    if a < b then a else b
  }

  function Max(a: int, b: int): int {
    if a < b then b else a
  }

  /** The terminal's reaction to one command. Vertical moves stop at the screen edges and treat a
      missing count as one; `EraseDisplay` clears the screen in place. */
  function Apply(s: Screen, c: Cmd): (r: Screen)
    requires s.Valid()
    ensures r.Valid() && r.width == s.width && r.height == s.height
  {
    match c
    case Text(line) => PutAll(s, line)
    case Cr => s.(col := 0)
    case CrLf => LineFeed(s)
    case Up(n) => s.(row := Max(s.top, s.row - AtLeastOne(n)))
    case Down(n) => s.(row := Min(s.top + s.height - 1, s.row + AtLeastOne(n)))
    case Column(n) => s.(col := if s.width == 0 then 0 else Min(AtLeastOne(n), s.width) - 1)
    case EraseLine => s.(rows := s.rows[s.row := ErasedCells(s.width, s.pen)])
    case EraseDisplay =>
      s.(rows := s.rows[..s.top] + seq(s.height, i => ErasedCells(s.width, s.pen)))
    case Home => s.(row := s.top, col := 0)
    case EraseScrollback => s.(rows := s.rows[s.top..], top := 0, row := s.row - s.top)
    case Sync(_) => s
    case ShowCursor(_) => s
  }

  function Run(s: Screen, cmds: seq<Cmd>): (r: Screen)
    requires s.Valid()
    ensures r.Valid() && r.width == s.width && r.height == s.height
    decreases cmds
  {
    if cmds == [] then s else Run(Apply(s, cmds[0]), cmds[1..])
  }

  lemma {:induction false} RunConcat(s: Screen, a: seq<Cmd>, b: seq<Cmd>)
    requires s.Valid()
    ensures Run(s, a + b) == Run(Run(s, a), b)
    decreases a
  {
    if a == [] {
      assert a + b == b;
    } else {
      assert (a + b)[0] == a[0] && (a + b)[1..] == a[1..] + b;
      RunConcat(Apply(s, a[0]), a[1..], b);
    }
  }

  lemma RunSnoc(s: Screen, a: seq<Cmd>, c: Cmd)
    requires s.Valid()
    ensures Run(s, a + [c]) == Apply(Run(s, a), c)
  {
    RunConcat(s, a, [c]);
    assert [c][1..] == [];
  }

  lemma Run0(s: Screen)
    requires s.Valid()
    ensures Run(s, []) == s
  {}

  lemma Run1(s: Screen, c: Cmd)
    requires s.Valid()
    ensures Run(s, [c]) == Apply(s, c)
  {
    assert [c][1..] == [];
  }

  // ----- modes of the terminal -----

  /** Whether output is held back after some commands: the last bracket of a synchronized part decides. */
  function HeldAfter(held: bool, cmds: seq<Cmd>): bool {
    if cmds == [] then held
    else
      var last := cmds[|cmds| - 1];
      if last.Sync? then last.on else HeldAfter(held, cmds[..|cmds| - 1])
  }

  /** Whether the cursor can be seen. */
  function CaretAfter(caret: bool, cmds: seq<Cmd>): bool {
    if cmds == [] then caret
    else
      var last := cmds[|cmds| - 1];
      if last.ShowCursor? then last.on else CaretAfter(caret, cmds[..|cmds| - 1])
  }

  lemma ModesSnoc(held: bool, caret: bool, cmds: seq<Cmd>, c: Cmd)
    ensures HeldAfter(held, cmds + [c]) == if c.Sync? then c.on else HeldAfter(held, cmds)
    ensures CaretAfter(caret, cmds + [c]) == if c.ShowCursor? then c.on else CaretAfter(caret, cmds)
    ensures HeldAfter(held, []) == held && CaretAfter(caret, []) == caret
  {
    assert (cmds + [c])[..|cmds + [c]| - 1] == cmds;
  }

  // ----- what a line looks like -----

  function Width(line: Line): nat {
    if line == [] then 0 else (if line[0].Glyph? then line[0].w else 0) + Width(line[1..])
  }

  function PenAfter(pen: Pen, line: Line): Pen
    decreases line
  {
    if line == [] then pen else PenAfter(PenStep(pen, line[0]), line[1..])
  }

  function PenStep(pen: Pen, a: Atom): Pen {
    match a
    case Code(c) => pen + [c]
    case Reset => []
    case _ => pen
  }

  /** A line that leaves the default style behind. */
  predicate Closed(line: Line) {
    PenAfter([], line) == []
  }

  function AtomCells(pen: Pen, a: Atom): Row {
    match a
    case Glyph(g, w) => GlyphCells(g, w, pen)
    case _ => []
  }

  function Cells(pen: Pen, line: Line): (r: Row)
    ensures |r| == Width(line)
    decreases line
  {
    if line == [] then []
    else
      AtomCells(pen, line[0]) + Cells(PenStep(pen, line[0]), line[1..])
  }

  /** The row a line gives when it is printed in the default style on an empty row. */
  function Painted(line: Line, width: nat): (r: Row)
    ensures Width(line) <= width ==> |r| == width
    ensures line == [] ==> r == ErasedCells(width, [])
  {
    if Width(line) <= width then Cells([], line) + ErasedCells(width - Width(line), [])
    else Cells([], line)
  }

  lemma SpliceNothing(s: Screen, pen: Pen)
    requires s.Valid()
    ensures Splice(s, [], pen) == s.(pen := pen)
  {
    var before := s.rows[s.row];
    assert before[..s.col] + [] + before[s.col..] == before;
  }

  lemma SpliceTwice(s: Screen, a: Row, p: Pen, b: Row, q: Pen)
    requires s.Valid() && s.col + |a| + |b| <= s.width
    ensures Splice(Splice(s, a, p), b, q) == Splice(s, a + b, q)
  {
    var before := s.rows[s.row];
    var mid := before[..s.col] + a + before[s.col + |a|..];
    assert mid[..s.col + |a|] + b + mid[s.col + |a| + |b|..] ==
           before[..s.col] + (a + b) + before[s.col + |a + b|..];
  }

  /** Printing a line that fits replaces exactly its own columns of the cursor row. */
  lemma {:induction false} PutAllFits(s: Screen, line: Line)
    requires s.Valid() && s.col + Width(line) <= s.width
    ensures PutAll(s, line) == Splice(s, Cells(s.pen, line), PenAfter(s.pen, line))
    decreases line
  {
    if line == [] {
      SpliceNothing(s, s.pen);
    } else {
      var head, pen := AtomCells(s.pen, line[0]), PenStep(s.pen, line[0]);
      SpliceNothing(s, pen);
      assert Put(s, line[0]) == Splice(s, head, pen);
      PutAllFits(Put(s, line[0]), line[1..]);
      SpliceTwice(s, head, pen, Cells(pen, line[1..]), PenAfter(pen, line[1..]));
    }
  }

  /** On an empty row, from its first column, in the default style. */
  lemma TextPaints(s: Screen, line: Line)
    requires s.Valid() && s.col == 0 && s.pen == [] && Width(line) <= s.width && Closed(line)
    requires s.rows[s.row] == ErasedCells(s.width, [])
    ensures Apply(s, Text(line)) ==
            s.(rows := s.rows[s.row := Painted(line, s.width)], col := Width(line))
  {
    hide PutAll, Cells, PenAfter, Width;
    PutAllFits(s, line);
    var cells := s.rows[s.row];
    assert cells[..0] + Cells([], line) + cells[Width(line)..] == Painted(line, s.width);
  }

  /** Every text in the buffer leaves the default style behind. */
  predicate ClosedTexts(cmds: seq<Cmd>) {
    forall c :: c in cmds && c.Text? ==> Closed(c.line)
  }

  lemma {:induction false} PutAllPen(s: Screen, line: Line)
    requires s.Valid()
    ensures PutAll(s, line).pen == PenAfter(s.pen, line)
    decreases line
  {
    if line != [] { PutAllPen(Put(s, line[0]), line[1..]); }
  }

  lemma {:induction false} PenStays(s: Screen, cmds: seq<Cmd>)
    requires s.Valid() && s.pen == [] && ClosedTexts(cmds)
    ensures Run(s, cmds).pen == []
    decreases cmds
  {
    if cmds != [] {
      if cmds[0].Text? { PutAllPen(s, cmds[0].line); }
      PenStays(Apply(s, cmds[0]), cmds[1..]);
    }
  }

  // ----- vertical moves -----

  /** The cursor move for a row distance; nothing is written for a distance of zero. */
  function MoveRows(delta: int): seq<Cmd> {
    if delta > 0 then [Down(delta)] else if delta < 0 then [Up(-delta)] else []
  }

  function Clamp(s: Screen, row: int): (r: nat)
    requires s.Valid()
    ensures s.top <= r < s.top + s.height
    ensures s.top <= row < s.top + s.height ==> r == row
  {
    Max(s.top, Min(s.top + s.height - 1, row))
  }

  lemma MoveLands(s: Screen, delta: int)
    requires s.Valid()
    ensures Run(s, MoveRows(delta)) == s.(row := Clamp(s, s.row + delta))
  {
    if delta > 0 {
      Run1(s, Down(delta));
    } else if delta < 0 {
      Run1(s, Up(-delta));
    }
  }

  lemma MoveTo(s: Screen, row: nat)
    requires s.Valid() && s.top <= row < s.top + s.height
    ensures s.(row := row).Valid() && Run(s, MoveRows(row - s.row)) == s.(row := row)
  {
    MoveLands(s, row - s.row);
  }

  // ----- what the buffer holds -----

  /** The line shown on row `i` of a rendering: rows past the end are empty. */
  function LineAt(lines: seq<Line>, i: nat): Line {
    if i < |lines| then lines[i] else []
  }

  /** Scrollback plus screen hold exactly `lines` followed by blank rows. */
  ghost predicate Shows(s: Screen, lines: seq<Line>) {
    && |lines| <= |s.rows|
    && forall i :: 0 <= i < |s.rows| ==> s.rows[i] == Painted(LineAt(lines, i), s.width)
  }

  predicate Fits(lines: seq<Line>, width: nat) {
    forall i :: 0 <= i < |lines| ==> Width(lines[i]) <= width
  }

  predicate AllClosed(lines: seq<Line>) {
    forall i :: 0 <= i < |lines| ==> Closed(lines[i])
  }
}
