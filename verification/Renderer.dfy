/** The differential renderer: what it remembers of the screen, and one render. */
module Renderer {
  import opened Options
  import opened Terminal
  import opened RenderPlan

  datatype CursorPos = CursorPos(row: nat, col: nat)

  /** The terminal as a device: it only executes command buffers, or is resized from outside. */
  class Device {
    var screen: Screen
    /** Output is held back until the synchronized part ends. */
    var held: bool
    /** The cursor can be seen. */
    var caret: bool

    constructor (width: nat, height: nat)
      requires 1 <= width && 1 <= height
      ensures screen == Screen(width, height, screen.rows, 0, 0, 0, [])
      ensures screen.Valid() && OnCleanScreen(screen) && !held && caret
    {
      screen := Screen(width, height, seq(height, i => ErasedCells(width, [])), 0, 0, 0, []);
      held, caret := false, true;
    }

    method Write(buffer: seq<Cmd>)
      requires screen.Valid()
      modifies this
      ensures screen == Run(old(screen), buffer)
      ensures held == HeldAfter(old(held), buffer) && caret == CaretAfter(old(caret), buffer)
      ensures screen.width == old(screen).width && screen.height == old(screen).height
    {
      screen, held, caret := Run(screen, buffer), HeldAfter(held, buffer), CaretAfter(caret, buffer);
    }

    /** A resize may reflow the contents in any way. */
    method Resize(reflowed: Screen)
      requires reflowed.Valid()
      modifies this`screen
      ensures screen == reflowed
    {
      screen := reflowed;
    }
  }

  // ----- the cursor marker -----

  function MarkerIndex(line: Line): (i: int)
    ensures -1 <= i < |line|
    ensures i == -1 ==> Marker !in line
    ensures i >= 0 ==> line[i] == Marker && Marker !in line[..i]
  {
    if line == [] then -1
    else if line[0] == Marker then 0
    else
      var i := MarkerIndex(line[1..]);
      if i == -1 then -1 else i + 1
  }

  function WithoutMarker(line: Line): Line {
    var i := MarkerIndex(line);
    if i == -1 then line else line[..i] + line[i + 1..]
  }

  /** The lowest row of `top..row` that carries a marker, or -1. */
  function MarkerRow(lines: seq<Line>, row: int, top: nat): (r: int)
    requires row < |lines|
    ensures r == -1 || top <= r <= row
    ensures r != -1 ==> Marker in lines[r]
    ensures forall k :: top <= k <= row && r < k ==> Marker !in lines[k]
    decreases row
  {
    if row < top then -1
    else if MarkerIndex(lines[row]) != -1 then row
    else MarkerRow(lines, row - 1, top)
  }

  function CursorRow(lines: seq<Line>, height: nat): (r: int)
    ensures r == -1 || Max(0, |lines| - height) <= r < |lines|
  {
    MarkerRow(lines, |lines| - 1, Max(0, |lines| - height))
  }

  function CursorOf(lines: seq<Line>, height: nat): Option<CursorPos> {
    var r := CursorRow(lines, height);
    if r == -1 then None else Some(CursorPos(r, Width(lines[r][..MarkerIndex(lines[r])])))
  }

  function Stripped(lines: seq<Line>, height: nat): (s: seq<Line>)
    ensures |s| == |lines|
  {
    var r := CursorRow(lines, height);
    if r == -1 then lines else lines[r := WithoutMarker(lines[r])]
  }

  method ExtractCursorPosition(lines: seq<Line>, height: nat) returns (pos: Option<CursorPos>, rest: seq<Line>)
    ensures pos == CursorOf(lines, height) && rest == Stripped(lines, height)
  {
    var viewportTop := Max(0, |lines| - height);
    var row := |lines| - 1;
    while row >= viewportTop
      invariant viewportTop - 1 <= row < |lines|
      invariant CursorRow(lines, height) == MarkerRow(lines, row, viewportTop)
    {
      var markerIndex := MarkerIndex(lines[row]);
      if markerIndex != -1 {
        return Some(CursorPos(row, Width(lines[row][..markerIndex]))), lines[row := WithoutMarker(lines[row])];
      }
      row := row - 1;
    }
    return None, lines;
  }

  // ----- where the marker is, in terms of the frame -----

  /** Row `r` is the lowest one of the last `height` rows that carries a marker. */
  predicate MarkedRow(frame: seq<Line>, height: nat, r: nat) {
    && Max(0, |frame| - height) <= r < |frame| && Marker in frame[r]
    && forall k :: r < k < |frame| ==> Marker !in frame[k]
  }

  predicate Unmarked(frame: seq<Line>, height: nat) {
    forall k :: Max(0, |frame| - height) <= k < |frame| ==> Marker !in frame[k]
  }

  /** The cursor stands in the column that printing what the line has before its first marker would bring it to from
      column 0, or in the last one. */
  ghost predicate CaretOn(s: Screen, line: Line) {
    forall i: nat, t: Screen ::
      i < |line| && line[i] == Marker && Marker !in line[..i] && t.Valid() && t.width == s.width && t.col == 0 ==>
        s.col == Min(PutAll(t, line[..i]).col, s.width - 1)
  }

  lemma UnmarkedHasNoCursor(frame: seq<Line>, height: nat)
    ensures Unmarked(frame, height) <==> CursorOf(frame, height).None?
  {
    var r := CursorRow(frame, height);
    if r != -1 { assert Marker in frame[r]; }
  }

  lemma MarkedRowIsCursor(frame: seq<Line>, height: nat, r: nat)
    requires MarkedRow(frame, height, r)
    ensures r < |frame| && Marker in frame[r] && MarkerIndex(frame[r]) >= 0
    ensures CursorOf(frame, height) == Some(CursorPos(r, Width(frame[r][..MarkerIndex(frame[r])])))
  {
    var c := CursorRow(frame, height);
    assert c != -1 && Marker in frame[c];
  }

  lemma CursorWithin(frame: seq<Line>, height: nat)
    ensures var pos := CursorOf(frame, height);
      pos.Some? ==> pos.value.row < |frame| && MarkedRow(frame, height, pos.value.row)
  {
  }

  lemma CaretAtMarker(s: Screen, line: Line)
    requires Width(line) <= s.width && Marker in line
    requires s.col == Min(Width(line[..MarkerIndex(line)]), s.width - 1)
    ensures CaretOn(s, line)
  {
    hide PutAll, Width, Cells;
    var j := MarkerIndex(line);
    forall i: nat, t: Screen |
      i < |line| && line[i] == Marker && Marker !in line[..i] && t.Valid() && t.width == s.width && t.col == 0
      ensures s.col == Min(PutAll(t, line[..i]).col, s.width - 1)
    {
      assert i == j;
      CellsConcat([], line[..i], line[i..]);
      assert line[..i] + line[i..] == line;
      PutAllFits(t, line[..i]);
    }
  }

  // ----- line resets -----

  function WithResets(lines: seq<Line>): (r: seq<Line>)
    ensures |r| == |lines|
  {
    seq(|lines|, i requires 0 <= i < |lines| => lines[i] + [Reset])
  }

  method ApplyLineResets(lines: seq<Line>) returns (r: seq<Line>)
    ensures r == WithResets(lines)
  {
    r := lines;
    for i := 0 to |lines|
      invariant |r| == |lines|
      invariant forall k :: 0 <= k < i ==> r[k] == lines[k] + [Reset]
      invariant forall k :: i <= k < |lines| ==> r[k] == lines[k]
    {
      r := r[i := lines[i] + [Reset]];
    }
  }

  /** Lines as the differ gets them: each ends in the default style and none is an empty string. */
  predicate Prepared(lines: seq<Line>) {
    AllClosed(lines) && forall i :: 0 <= i < |lines| ==> lines[i] != []
  }

  lemma {:induction false} CellsConcat(pen: Pen, a: Line, b: Line)
    ensures Cells(pen, a + b) == Cells(pen, a) + Cells(PenAfter(pen, a), b)
    ensures PenAfter(pen, a + b) == PenAfter(PenAfter(pen, a), b)
    ensures Width(a + b) == Width(a) + Width(b)
    decreases a
  {
    if a == [] {
      assert a + b == b;
    } else {
      assert (a + b)[1..] == a[1..] + b;
      CellsConcat(PenStep(pen, a[0]), a[1..], b);
    }
  }

  lemma ResetCloses(line: Line)
    ensures Closed(line + [Reset])
    ensures Width(line + [Reset]) == Width(line) && Cells([], line + [Reset]) == Cells([], line)
  {
    CellsConcat([], line, [Reset]);
    assert [Reset][1..] == [];
  }

  lemma {:induction false} MarkerDrops(pen: Pen, a: Line, b: Line)
    ensures Width(a + [Marker] + b) == Width(a + b) && Cells(pen, a + [Marker] + b) == Cells(pen, a + b)
    decreases a
  {
    if a == [] {
      assert (a + [Marker] + b)[1..] == a + b;
    } else {
      assert (a + [Marker] + b)[1..] == a[1..] + [Marker] + b && (a + b)[1..] == a[1..] + b;
      MarkerDrops(PenStep(pen, a[0]), a[1..], b);
    }
  }

  lemma MarkerInvisible(line: Line)
    ensures Width(WithoutMarker(line)) == Width(line)
    ensures Cells([], WithoutMarker(line)) == Cells([], line)
  {
    var i := MarkerIndex(line);
    if i != -1 {
      assert line == line[..i] + [Marker] + line[i + 1..];
      MarkerDrops([], line[..i], line[i + 1..]);
    }
  }

  /** A line without its marker, closed by the reset, looks like the line itself. */
  lemma ClosedLooksSame(line: Line, width: nat)
    ensures Painted(WithoutMarker(line) + [Reset], width) == Painted(line + [Reset], width)
  {
    ResetCloses(line);
    ResetCloses(WithoutMarker(line));
    MarkerInvisible(line);
  }

  /** The lines handed to the differ are closed, fit when the frame does, and look like the frame. */
  lemma PreparedLines(frame: seq<Line>, height: nat, width: nat)
    ensures var lines := WithResets(Stripped(frame, height));
      && |lines| == |frame|
      && Prepared(lines)
      && (Fits(frame, width) ==> Fits(lines, width))
      && forall i :: 0 <= i < |frame| ==> Painted(lines[i], width) == Painted(frame[i] + [Reset], width)
  {
    var rest := Stripped(frame, height);
    var lines := WithResets(rest);
    forall i | 0 <= i < |frame|
      ensures Closed(lines[i]) && Width(lines[i]) == Width(frame[i])
      ensures Painted(lines[i], width) == Painted(frame[i] + [Reset], width)
    {
      ResetCloses(rest[i]);
      MarkerInvisible(frame[i]);
      ClosedLooksSame(frame[i], width);
    }
  }

  lemma ShowsFrame(s: Screen, frame: seq<Line>, height: nat)
    requires Shows(s, WithResets(Stripped(frame, height)))
    ensures Shows(s, WithResets(frame))
  {
    PreparedLines(frame, height, s.width);
    var lines := WithResets(Stripped(frame, height));
    forall i | 0 <= i < |s.rows| ensures s.rows[i] == Painted(LineAt(WithResets(frame), i), s.width) {
      assert s.rows[i] == Painted(LineAt(lines, i), s.width);
    }
  }

  // ----- which lines changed -----

  /** The first row from `i` on at which the two renderings differ, or -1. */
  function FirstDiff(a: seq<Line>, b: seq<Line>, i: nat): (r: int)
    ensures r == -1 || i <= r < Max(|a|, |b|)
    ensures r == -1 ==> forall k: nat :: i <= k ==> LineAt(a, k) == LineAt(b, k)
    ensures r != -1 ==> LineAt(a, r) != LineAt(b, r) && forall k: nat :: i <= k < r ==> LineAt(a, k) == LineAt(b, k)
    decreases Max(|a|, |b|) - i
  {
    if i >= Max(|a|, |b|) then -1
    else if LineAt(a, i) != LineAt(b, i) then i
    else FirstDiff(a, b, i + 1)
  }

  function FirstChanged(prev: seq<Line>, lines: seq<Line>): int {
    var d := FirstDiff(prev, lines, 0);
    if |lines| > |prev| && d == -1 then |prev| else d
  }

  method ChangedRange(prev: seq<Line>, lines: seq<Line>) returns (first: int, last: int)
    ensures first == FirstChanged(prev, lines)
    ensures first == -1 ==> |lines| <= |prev| && forall i: nat :: LineAt(prev, i) == LineAt(lines, i)
    ensures first != -1 ==>
      && 0 <= first <= last < Max(|lines|, |prev|)
      && (forall i: nat :: i < first || last < i ==> LineAt(prev, i) == LineAt(lines, i))
      && if |lines| > |prev| then last == |lines| - 1 else LineAt(prev, last) != LineAt(lines, last)
  {
    first, last := -1, -1;
    var maxLines := Max(|lines|, |prev|);
    var i := 0;
    while i < maxLines
      invariant 0 <= i <= maxLines
      invariant first == -1 ==> last == -1 && FirstDiff(prev, lines, 0) == FirstDiff(prev, lines, i)
      invariant first == -1 ==> forall k: nat :: k < i ==> LineAt(prev, k) == LineAt(lines, k)
      invariant first != -1 ==> 0 <= first <= last < i && FirstDiff(prev, lines, 0) == first
      invariant first != -1 ==> LineAt(prev, last) != LineAt(lines, last)
      invariant forall k: nat :: k < i && (k < first || last < k) ==> LineAt(prev, k) == LineAt(lines, k)
    {
      var oldLine := LineAt(prev, i);
      var newLine := LineAt(lines, i);
      if oldLine != newLine {
        if first == -1 {
          first := i;
        }
        last := i;
      }
      i := i + 1;
    }
    if |lines| > |prev| {
      if first == -1 {
        first := |prev|;
      }
      last := |lines| - 1;
    }
  }

  /** When `doRender` gives up on a differential update of a known screen and redraws everything. */
  predicate FullRedraw(prev: seq<Line>, lines: seq<Line>, top: int, height: nat, clearShrunk: bool, maxLines: nat) {
    || (clearShrunk && |lines| < maxLines)
    || var first := FirstChanged(prev, lines);
       first != -1 &&
       if first >= |lines| then |prev| > |lines| && (Max(0, |lines| - 1) < top || |prev| - |lines| > height)
       else first < top
  }

  /** The viewport top after a render: a redraw puts it at the bottom of the content, a differential
      update never moves it up. */
  function NextTop(prev: seq<Line>, lines: seq<Line>, top: int, height: nat, clearShrunk: bool, maxLines: nat): int {
    var bottom := Max(0, |lines| - height);
    if prev != [] && !FullRedraw(prev, lines, top, height, clearShrunk, maxLines) then Max(top, bottom) else bottom
  }

  /** Everything is redrawn when a line above the viewport changed, when lines were only taken off the end and the end
      is now above the viewport or more went than the screen is high, and, if so set, when fewer lines are left than
      were ever drawn since the last clearing. */
  lemma RedrawsWhen(prev: seq<Line>, lines: seq<Line>, top: int, height: nat, clearShrunk: bool, maxLines: nat)
    requires Prepared(prev) && 0 <= top < |prev|
    ensures FullRedraw(prev, lines, top, height, clearShrunk, maxLines) <==>
      || (clearShrunk && |lines| < maxLines)
      || (exists i: nat :: i < top && i < |lines| && LineAt(prev, i) != LineAt(lines, i))
      || (|lines| < |prev| && lines == prev[..|lines|] && (Max(0, |lines| - 1) < top || |prev| - |lines| > height))
  {
    var first := FirstChanged(prev, lines);
    if |lines| < |prev| && lines == prev[..|lines|] {
      assert LineAt(prev, |lines|) != LineAt(lines, |lines|);
      forall i: nat | i < |lines| ensures LineAt(prev, i) == LineAt(lines, i) {}
    }
    if |prev| > |lines| && first >= |lines| { OnlyDeleted(prev, lines, first); }
  }

  method BuildFull(newLines: seq<Line>, clear: bool) returns (buffer: seq<Cmd>)
    ensures buffer == FullBuffer(newLines, clear)
  {
    buffer := [Sync(true)];
    if clear {
      buffer := buffer + [EraseDisplay, Home, EraseScrollback];
    }
    ghost var head := buffer;
    var i := 0;
    while i < |newLines|
      invariant 0 <= i <= |newLines|
      invariant buffer == head + WriteRows(newLines, 0, i, false)
    {
      ghost var before := buffer;
      if i > 0 {
        buffer := buffer + [CrLf];
      }
      buffer := buffer + [Text(newLines[i])];
      assert buffer == before + RowCmds(i > 0, false, newLines[i]);
      i := i + 1;
    }
    buffer := buffer + [Sync(false)];
  }

  /** The moves to the first row to write, and the viewport top after any scrolling they do. */
  method BuildApproach(cursorRow: int, top: int, height: nat, moveTargetRow: int, appendStart: bool)
    returns (buffer: seq<Cmd>, newTop: int)
    requires height >= 1
    ensures buffer == Approach(cursorRow, top, height, moveTargetRow, appendStart)
    ensures newTop == Max(top, moveTargetRow - height + 1)
  {
    buffer := [];
    var prevViewportTop, viewportTop, cursorAt := top, top, cursorRow;
    var prevViewportBottom := prevViewportTop + height - 1;
    if moveTargetRow > prevViewportBottom {
      var currentScreenRow := Max(0, Min(height - 1, cursorAt - prevViewportTop));
      var moveToBottom := height - 1 - currentScreenRow;
      if moveToBottom > 0 {
        buffer := buffer + [Down(moveToBottom)];
      }
      var scroll := moveTargetRow - prevViewportBottom;
      buffer := buffer + Feeds(scroll);
      prevViewportTop := prevViewportTop + scroll;
      viewportTop := viewportTop + scroll;
      cursorAt := moveTargetRow;
    }
    var lineDiff := (moveTargetRow - viewportTop) - (cursorAt - prevViewportTop);
    if lineDiff > 0 {
      buffer := buffer + [Down(lineDiff)];
    } else if lineDiff < 0 {
      buffer := buffer + [Up(-lineDiff)];
    }
    buffer := buffer + [if appendStart then CrLf else Cr];
    newTop := prevViewportTop;
  }

  /** The erasing of rows whose lines are gone, and the row the cursor ends on. */
  method BuildTrim(renderEnd: nat, newLen: nat, oldLen: nat) returns (buffer: seq<Cmd>, finalCursorRow: nat)
    requires renderEnd < newLen
    ensures buffer == Trim(renderEnd, newLen, oldLen)
    ensures finalCursorRow == if oldLen > newLen then newLen - 1 else renderEnd
  {
    buffer, finalCursorRow := [], renderEnd;
    if oldLen > newLen {
      if renderEnd < newLen - 1 {
        buffer := buffer + [Down(newLen - 1 - renderEnd)];
        finalCursorRow := newLen - 1;
      }
      ghost var moved := buffer;
      var extraLines := oldLen - newLen;
      var i := newLen;
      while i < oldLen
        invariant newLen <= i <= oldLen
        invariant buffer == moved + FeedErase(i - newLen)
      {
        buffer := buffer + [CrLf, EraseLine];
        i := i + 1;
      }
      buffer := buffer + [Up(extraLines)];
    }
  }

  lemma RowIs(feed: bool, line: Line)
    ensures RowCmds(feed, true, line) == (if feed then [CrLf] + [EraseLine] else [EraseLine]) + [Text(line)]
  {
  }

  /** The differential buffer, the row it ends on and the viewport top after its scrolling; or
      `tooWide` when a line to be written does not fit. */
  method BuildDiff(cursorRow: int, top: int, width: nat, height: nat, newLines: seq<Line>, oldLen: nat,
                   firstChanged: nat, renderEnd: nat, appendStart: bool)
    returns (buffer: seq<Cmd>, finalCursorRow: int, newTop: int, tooWide: bool)
    requires height >= 1 && firstChanged <= renderEnd < |newLines| && (appendStart ==> firstChanged > 0)
    ensures tooWide <==> exists i :: firstChanged <= i <= renderEnd && Width(newLines[i]) > width
    ensures !tooWide ==>
      && buffer == DiffBuffer(cursorRow, top, height, newLines, oldLen, firstChanged, renderEnd, appendStart)
      && finalCursorRow == (if oldLen > |newLines| then |newLines| - 1 else renderEnd)
      && newTop == Max(top, (if appendStart then firstChanged - 1 else firstChanged) - height + 1)
  {
    hide Approach, Trim, Width, RowCmds;
    tooWide, finalCursorRow := false, renderEnd;
    var approach, trim;
    approach, newTop := BuildApproach(
      cursorRow, top, height, if appendStart then firstChanged - 1 else firstChanged, appendStart);
    buffer := approach;
    var i := firstChanged;
    while i <= renderEnd
      invariant firstChanged <= i <= renderEnd + 1
      invariant buffer == approach + WriteRows(newLines, firstChanged, i, true)
      invariant forall k :: firstChanged <= k < i ==> Width(newLines[k]) <= width
    {
      var row := [EraseLine];
      if i > firstChanged {
        row := [CrLf] + row;
      }
      if Width(newLines[i]) > width {
        tooWide := true;
        return;
      }
      RowIs(i > firstChanged, newLines[i]);
      buffer := buffer + (row + [Text(newLines[i])]);
      i := i + 1;
    }
    trim, finalCursorRow := BuildTrim(renderEnd, |newLines|, oldLen);
    buffer := [Sync(true)] + (buffer + trim) + [Sync(false)];
  }

  method BuildEraseRows(extraLines: nat) returns (buffer: seq<Cmd>)
    ensures buffer == EraseRows(extraLines, extraLines)
  {
    buffer := [];
    var i := 0;
    while i < extraLines
      invariant 0 <= i <= extraLines
      invariant buffer == EraseRows(i, extraLines)
    {
      buffer := buffer + [Cr, EraseLine];
      if i < extraLines - 1 {
        buffer := buffer + [Down(1)];
      }
      i := i + 1;
    }
  }

  method BuildEraseHere(extraLines: nat, moveBack: nat) returns (buffer: seq<Cmd>)
    ensures buffer == EraseHere(extraLines, moveBack)
  {
    hide EraseRows;
    buffer := BuildEraseRows(extraLines);
    if moveBack > 0 {
      buffer := buffer + [Up(moveBack)];
    }
  }

  method BuildMoves(lineDiff: int) returns (buffer: seq<Cmd>)
    ensures buffer == MoveRows(lineDiff)
  {
    buffer := [];
    if lineDiff > 0 {
      buffer := buffer + [Down(lineDiff)];
    } else if lineDiff < 0 {
      buffer := buffer + [Up(-lineDiff)];
    }
  }

  method BuildShrink(cursorRow: int, newLen: nat, oldLen: nat) returns (buffer: seq<Cmd>)
    requires newLen < oldLen
    ensures buffer == ShrinkBuffer(cursorRow, newLen, oldLen)
  {
    hide EraseHere, MoveRows;
    var extraLines := oldLen - newLen;
    var clearStartOffset := if newLen == 0 then 0 else 1;
    buffer := BuildMoves(Max(0, newLen - 1) - cursorRow);
    buffer := buffer + [Cr];
    var down := BuildMoves(clearStartOffset);
    buffer := buffer + down;
    var erases := BuildEraseHere(extraLines, Max(0, extraLines - 1 + clearStartOffset));
    buffer := buffer + erases;
    buffer := [Sync(true)] + buffer + [Sync(false)];
  }

  predicate OnCleanScreen(s: Screen) {
    s.top == s.row == s.col == 0 && forall i :: 0 <= i < |s.rows| ==> s.rows[i] == ErasedCells(s.width, [])
  }

  /** What makes a differential update of rows `first..last` possible and sufficient. */
  ghost predicate Updatable(prev: seq<Line>, lines: seq<Line>, top: int, first: nat, last: nat, append: bool) {
    && top <= first
    && (append ==> top < first)
    && (forall i: nat :: i < first || last < i ==> LineAt(prev, i) == LineAt(lines, i))
    && (|lines| > |prev| ==> last == |lines| - 1)
  }

  lemma EmptyIsClean(s: Screen)
    requires Shows(s, []) && s.top == s.row == s.col == 0
    ensures OnCleanScreen(s)
  {
    forall i | 0 <= i < |s.rows| ensures s.rows[i] == ErasedCells(s.width, []) {
      assert LineAt([], i) == [];
    }
  }

  lemma SameLines(prev: seq<Line>, lines: seq<Line>)
    requires Prepared(prev) && |lines| <= |prev| && forall i: nat :: LineAt(prev, i) == LineAt(lines, i)
    ensures lines == prev
  {
    assert LineAt(prev, |lines|) == LineAt(lines, |lines|);
    forall i | 0 <= i < |lines| ensures lines[i] == prev[i] {
      assert LineAt(prev, i) == LineAt(lines, i);
    }
  }

  lemma OnlyDeleted(prev: seq<Line>, lines: seq<Line>, first: nat)
    requires |lines| <= first && |lines| <= |prev| && forall i: nat :: i < first ==> LineAt(prev, i) == LineAt(lines, i)
    ensures lines == prev[..|lines|]
  {
    forall i | 0 <= i < |lines| ensures lines[i] == prev[i] {
      assert LineAt(prev, i) == LineAt(lines, i);
    }
  }

  /** A screen that shows `lines`, with the cursor and viewport where the renderer believes them. */
  ghost predicate Settled(s: Screen, lines: seq<Line>, row: int, top: int) {
    && Shows(s, lines) && s.row == row && s.top == top
    && if lines == [] then s.top == s.row == s.col == 0 else s.top < |lines|
  }

  lemma MovesAre(delta: int)
    ensures MoveRows(delta) == if delta > 0 then [Down(delta)] else if delta < 0 then [Up(-delta)] else []
  {
  }

  lemma MovesKeepModes(held: bool, caret: bool, delta: int)
    ensures HeldAfter(held, MoveRows(delta)) == held && CaretAfter(caret, MoveRows(delta)) == caret
  {
    hide HeldAfter, CaretAfter;
    var moves := MoveRows(delta);
    ModesSnoc(held, caret, [], if delta > 0 then Down(delta) else Up(-delta));
    if moves != [] { assert [] + [moves[0]] == moves; }
  }

  lemma PlacementRuns(s: Screen, delta: int, col: nat, held: bool, caret: bool)
    requires s.Valid() && 1 <= s.width
    ensures var buffer := MoveRows(delta) + [Column(col + 1)];
      && Run(s, buffer) == s.(row := Clamp(s, s.row + delta), col := Min(col, s.width - 1))
      && HeldAfter(held, buffer) == held && CaretAfter(caret, buffer) == caret
  {
    hide Run, MoveRows, HeldAfter, CaretAfter, PutAll;
    MoveLands(s, delta);
    RunSnoc(s, MoveRows(delta), Column(col + 1));
    MovesKeepModes(held, caret, delta);
    ModesSnoc(held, caret, MoveRows(delta), Column(col + 1));
  }

  lemma ShowCursorRuns(s: Screen, on: bool, held: bool, caret: bool)
    requires s.Valid()
    ensures Run(s, [ShowCursor(on)]) == s
    ensures HeldAfter(held, [ShowCursor(on)]) == held && CaretAfter(caret, [ShowCursor(on)]) == on
  {
    Run1(s, ShowCursor(on));
    ModesSnoc(held, caret, [], ShowCursor(on));
    assert [] + [ShowCursor(on)] == [ShowCursor(on)];
  }

  class TUI {
    const terminal: Device
    var previousLines: seq<Line>
    var previousWidth: int
    var previousHeight: int
    var cursorRow: int
    var hardwareCursorRow: int
    var showHardwareCursor: bool
    var clearOnShrink: bool
    var maxLinesRendered: nat
    var previousViewportTop: int
    var fullRedrawCount: nat
    var stopped: bool

    constructor (terminal: Device)
      requires terminal.screen.Valid() && 1 <= terminal.screen.width
      requires OnCleanScreen(terminal.screen) && terminal.screen.pen == [] && !terminal.held
      ensures this.terminal == terminal
      ensures Valid() && Fresh() && !stopped
    {
      this.terminal := terminal;
      previousLines, previousWidth, previousHeight := [], 0, 0;
      cursorRow, hardwareCursorRow, maxLinesRendered, previousViewportTop := 0, 0, 0, 0;
      showHardwareCursor, clearOnShrink, fullRedrawCount, stopped := false, false, 0, false;
    }

    ghost predicate Sound()
      reads this, terminal
    {
      && terminal.screen.Valid() && 1 <= terminal.screen.width
      && terminal.screen.pen == [] && !terminal.held
      && Prepared(previousLines)
    }

    ghost predicate Valid()
      reads this, terminal
    {
      Sound() && |previousLines| <= maxLinesRendered
    }

    /** The most lines drawn since the screen was cleared, and the number of times everything was drawn. */
    twostate predicate Counted(lines: nat, cleared: bool, full: bool)
      reads this`maxLinesRendered, this`fullRedrawCount
    {
      && maxLinesRendered == (if cleared then lines else Max(old(maxLinesRendered), lines))
      && fullRedrawCount == old(fullRedrawCount) + if full then 1 else 0
    }

    /** Rendering neither resizes the terminal nor touches the settings. */
    twostate predicate Kept()
      reads this, terminal
    {
      && terminal.screen.width == old(terminal.screen).width && terminal.screen.height == old(terminal.screen).height
      && showHardwareCursor == old(showHardwareCursor) && clearOnShrink == old(clearOnShrink)
    }

    /** The screen is cleared and everything drawn again. */
    twostate predicate Redrawn(lines: seq<Line>, overlays: bool)
      reads this, terminal
    {
      || old(SizeChanged())
      || (old(previousLines) != [] &&
          FullRedraw(old(previousLines), lines, old(previousViewportTop), terminal.screen.height,
                     old(clearOnShrink) && !overlays, old(maxLinesRendered)))
    }

    /** Nothing rendered yet, on a clean screen. */
    ghost predicate Fresh()
      reads this, terminal
    {
      && previousWidth == previousHeight == 0
      && previousLines == [] && hardwareCursorRow == previousViewportTop == 0
      && OnCleanScreen(terminal.screen)
    }

    /** The next render sees another size, as after a resize or a forced render. */
    predicate SizeChanged()
      reads this, terminal
    {
      || (previousWidth != 0 && previousWidth != terminal.screen.width)
      || (previousHeight != 0 && previousHeight != terminal.screen.height)
    }

    /** The renderer's picture of the contents and viewport is right. */
    ghost predicate ContentsKnown()
      reads this, terminal
    {
      var s := terminal.screen;
      && previousWidth == s.width && previousHeight == s.height
      && Shows(s, previousLines)
      && previousViewportTop == s.top
      && (if previousLines == [] then s.top == s.row == s.col == 0 else s.top < |previousLines|)
    }

    /** ... and so is its idea of the cursor row. */
    ghost predicate Synced()
      reads this, terminal
    {
      ContentsKnown() && hardwareCursorRow == terminal.screen.row
    }

    ghost predicate Ready()
      reads this, terminal
    {
      Fresh() || SizeChanged() || Synced()
    }

    /** The cursor was sent to the marker and shown if it is to be seen, or stayed at the end of the content unseen. */
    ghost predicate CursorAimed(cursorPos: Option<CursorPos>, totalLines: nat)
      requires terminal.screen.Valid()
      reads this, terminal
    {
      if cursorPos.None? || totalLines == 0 then hardwareCursorRow == terminal.screen.row && !terminal.caret
      else
        && hardwareCursorRow == Min(cursorPos.value.row, totalLines - 1)
        && terminal.screen.row == Clamp(terminal.screen, hardwareCursorRow)
        && terminal.screen.col == Min(cursorPos.value.col, terminal.screen.width - 1)
        && terminal.caret == showHardwareCursor
    }

    /** On the lowest marked row of the last rows the cursor is aimed at the marker, in the column where the marker
        is, and shown if it is to be seen; without such a row it is not shown, and the renderer knows its row. */
    ghost predicate CaretPlaced(frame: seq<Line>)
      reads this, terminal
    {
      var s := terminal.screen;
      && (Unmarked(frame, s.height) ==> Synced() && !terminal.caret)
      && forall r: nat :: MarkedRow(frame, s.height, r) ==>
           && hardwareCursorRow == r && (Synced() <==> r >= s.top)
           && CaretOn(s, frame[r]) && terminal.caret == showHardwareCursor
    }

    lemma AimedIsKnown(cursorPos: Option<CursorPos>, n: nat)
      requires terminal.screen.Valid() && ContentsKnown() && |previousLines| == n
      requires CursorAimed(cursorPos, n) && (cursorPos.Some? ==> cursorPos.value.row < n)
      ensures Synced() <==> cursorPos.None? || cursorPos.value.row >= terminal.screen.top
    {
      hide Shows;
      ShowsWithin(terminal.screen, previousLines);
    }

    lemma AimedIsPlaced(frame: seq<Line>, cursorPos: Option<CursorPos>)
      requires terminal.screen.Valid() && ContentsKnown() && |previousLines| == |frame|
      requires cursorPos == CursorOf(frame, terminal.screen.height) && CursorAimed(cursorPos, |frame|)
      requires Fits(frame, terminal.screen.width)
      ensures CaretPlaced(frame) && (cursorPos.Some? ==> hardwareCursorRow == cursorPos.value.row)
      ensures Synced() <==> cursorPos.None? || cursorPos.value.row >= terminal.screen.top
    {
      hide CaretOn, CursorOf, MarkedRow, Unmarked, Shows, Width, ContentsKnown, Synced;
      var s := terminal.screen;
      UnmarkedHasNoCursor(frame, s.height);
      CursorWithin(frame, s.height);
      AimedIsKnown(cursorPos, |frame|);
      forall r: nat | MarkedRow(frame, s.height, r)
        ensures r < |frame| && cursorPos.Some? && cursorPos.value.row == r && CaretOn(s, frame[r])
      {
        MarkedRowIsCursor(frame, s.height, r);
        CaretAtMarker(s, frame[r]);
      }
    }

    /** `requestRender(true)`: forget everything, so that the next render starts over. */
    method ForceRender()
      requires Valid()
      modifies this
      ensures Valid() && SizeChanged() && stopped == old(stopped)
    {
      previousLines, previousWidth, previousHeight := [], -1, -1;
      cursorRow, hardwareCursorRow, maxLinesRendered, previousViewportTop := 0, 0, 0, 0;
    }

    /** The cursor lands where it was aimed at exactly when the target row is on the screen. */
    method PositionHardwareCursor(cursorPos: Option<CursorPos>, totalLines: nat)
      requires Sound()
      modifies this`hardwareCursorRow, terminal
      ensures Sound()
      ensures terminal.screen == old(terminal.screen).(row := terminal.screen.row, col := terminal.screen.col)
      ensures cursorPos.None? || totalLines == 0 ==>
        hardwareCursorRow == old(hardwareCursorRow) && terminal.screen == old(terminal.screen) && !terminal.caret
      ensures cursorPos.Some? && totalLines > 0 ==>
        && hardwareCursorRow == Min(cursorPos.value.row, totalLines - 1)
        && terminal.screen.col == Min(cursorPos.value.col, terminal.screen.width - 1)
        && terminal.caret == showHardwareCursor
        && terminal.screen.row ==
           Clamp(terminal.screen, old(terminal.screen.row) + hardwareCursorRow - old(hardwareCursorRow))
    {
      hide Run, Apply, HeldAfter, CaretAfter, MoveRows, Prepared;
      if cursorPos.None? || totalLines <= 0 {
        ShowCursorRuns(terminal.screen, false, terminal.held, terminal.caret);
        terminal.Write([ShowCursor(false)]);
        return;
      }
      var targetRow := Max(0, Min(cursorPos.value.row, totalLines - 1));
      var targetCol := Max(0, cursorPos.value.col);
      var rowDelta := targetRow - hardwareCursorRow;
      var buffer := [];
      if rowDelta > 0 {
        buffer := buffer + [Down(rowDelta)];
      } else if rowDelta < 0 {
        buffer := buffer + [Up(-rowDelta)];
      }
      MovesAre(rowDelta);
      assert buffer == MoveRows(rowDelta);
      buffer := buffer + [Column(targetCol + 1)];
      PlacementRuns(terminal.screen, rowDelta, targetCol, terminal.held, terminal.caret);
      terminal.Write(buffer);
      hardwareCursorRow := targetRow;
      ShowCursorRuns(terminal.screen, showHardwareCursor, terminal.held, terminal.caret);
      terminal.Write([ShowCursor(showHardwareCursor)]);
    }

    /** The bookkeeping after a buffer was written: the cursor is on `endRow`, the viewport starts at
        `newTop`; then the cursor goes to the marker. */
    method Remember(newLines: seq<Line>, endRow: int, newTop: int, cursorPos: Option<CursorPos>)
      requires Sound() && Prepared(newLines) && |newLines| <= maxLinesRendered
      modifies this, terminal
      ensures Valid() && stopped == old(stopped) && Kept()
      ensures maxLinesRendered == old(maxLinesRendered) && fullRedrawCount == old(fullRedrawCount)
      ensures terminal.screen == old(terminal.screen).(row := terminal.screen.row, col := terminal.screen.col)
      ensures Settled(old(terminal.screen), newLines, endRow, newTop) ==>
        ContentsKnown() && previousLines == newLines && CursorAimed(cursorPos, |newLines|)
    {
      cursorRow := Max(0, |newLines| - 1);
      hardwareCursorRow := endRow;
      previousViewportTop := newTop;
      PositionHardwareCursor(cursorPos, |newLines|);
      previousLines := newLines;
      previousWidth := terminal.screen.width;
      previousHeight := terminal.screen.height;
    }

    /** Write everything, after clearing when `clear` is set. */
    method FullRender(newLines: seq<Line>, clear: bool, cursorPos: Option<CursorPos>)
      requires Valid() && Prepared(newLines)
      modifies this, terminal
      ensures Kept() && Counted(|newLines|, clear, true)
      ensures Valid() && stopped == old(stopped)
      ensures Fits(newLines, terminal.screen.width) && (clear || OnCleanScreen(old(terminal.screen))) ==>
        && ContentsKnown() && previousLines == newLines
        && terminal.screen.top == Max(0, |newLines| - terminal.screen.height)
        && CursorAimed(cursorPos, |newLines|)
    {
      hide Run, Apply, PutAll, FullBuffer, Closed, Width, Painted, ClosedTexts;
      fullRedrawCount := fullRedrawCount + 1;
      ghost var s := terminal.screen;
      var height := terminal.screen.height;
      var buffer := BuildFull(newLines, clear);
      FullBufferClosed(newLines, clear);
      PenStays(s, buffer);
      if Fits(newLines, s.width) && (clear || OnCleanScreen(s)) {
        FullBufferShows(s, newLines, clear);
      }
      terminal.Write(buffer);
      maxLinesRendered := if clear then |newLines| else Max(maxLinesRendered, |newLines|);
      var bufferLength := Max(height, |newLines|);
      Remember(newLines, Max(0, |newLines| - 1), Max(0, bufferLength - height), cursorPos);
    }

    /** After the buffer of a differential update the screen is as `Remember` will have it. */
    lemma DiffSettles(newLines: seq<Line>, firstChanged: nat, lastChanged: nat, appendStart: bool)
      requires Valid() && Prepared(newLines) && Synced() && Fits(newLines, terminal.screen.width)
      requires firstChanged <= lastChanged && firstChanged < |newLines| && (appendStart ==> firstChanged > 0)
      requires Updatable(previousLines, newLines, previousViewportTop, firstChanged, lastChanged, appendStart)
      ensures var s, n := terminal.screen, |newLines|;
        var renderEnd := Min(lastChanged, n - 1);
        var endRow := if |previousLines| > n then n - 1 else renderEnd;
        var start := if appendStart then firstChanged - 1 else firstChanged;
        var top := Max(Max(previousViewportTop, start - s.height + 1), endRow - s.height + 1);
        var t := Run(s, DiffBuffer(hardwareCursorRow, previousViewportTop, s.height, newLines, |previousLines|,
                                   firstChanged, renderEnd, appendStart));
        Settled(t, newLines, endRow, top) && t.top == Max(s.top, n - s.height)
    {
      hide Run, DiffBuffer, Closed, Width, Painted, ClosedTexts, LineAt;
      DiffBufferShows(terminal.screen, previousLines, newLines, firstChanged, lastChanged, appendStart);
    }

    /** Write only the changed lines. A line wider than the screen stops the renderer before anything
        is written. */
    method DiffRender(newLines: seq<Line>, firstChanged: nat, lastChanged: nat, appendStart: bool,
                      cursorPos: Option<CursorPos>)
      returns (crashed: bool)
      requires Valid() && Prepared(newLines)
      requires firstChanged <= lastChanged && firstChanged < |newLines| && (appendStart ==> firstChanged > 0)
      modifies this, terminal
      ensures Kept() && Counted(if crashed then 0 else |newLines|, false, false)
      ensures Valid()
      ensures crashed ==> stopped && !Fits(newLines, terminal.screen.width) && terminal.screen == old(terminal.screen)
      ensures !crashed ==> stopped == old(stopped)
      ensures old(Synced()) && Fits(newLines, terminal.screen.width) &&
              Updatable(old(previousLines), newLines, old(previousViewportTop), firstChanged, lastChanged,
                        appendStart) ==>
        && ContentsKnown() && previousLines == newLines
        && terminal.screen.top == Max(old(terminal.screen).top, |newLines| - terminal.screen.height)
        && CursorAimed(cursorPos, |newLines|)
    {
      hide Run, Apply, PutAll, Closed, Width, Painted, ClosedTexts, LineAt, CursorAimed, Shows,
           Settled, Updatable, ContentsKnown, DiffBuffer;
      ghost var s := terminal.screen;
      var width, height := terminal.screen.width, terminal.screen.height;
      var renderEnd := Min(lastChanged, |newLines| - 1);
      var buffer, finalCursorRow, prevViewportTop, tooWide := BuildDiff(
        hardwareCursorRow, previousViewportTop, width, height, newLines, |previousLines|,
        firstChanged, renderEnd, appendStart);
      if tooWide {
        stopped := true;
        return true;
      }
      DiffBufferClosed(hardwareCursorRow, previousViewportTop, height, newLines, |previousLines|,
                       firstChanged, renderEnd, appendStart);
      PenStays(s, buffer);
      if Synced() && Fits(newLines, s.width) &&
         Updatable(previousLines, newLines, previousViewportTop, firstChanged, lastChanged, appendStart) {
        DiffSettles(newLines, firstChanged, lastChanged, appendStart);
      }
      terminal.Write(buffer);
      maxLinesRendered := Max(maxLinesRendered, |newLines|);
      Remember(newLines, finalCursorRow, Max(prevViewportTop, finalCursorRow - height + 1), cursorPos);
      return false;
    }

    /** Only trailing lines went away, and they are all on the screen: erase their rows. */
    method ShrinkRender(newLines: seq<Line>, cursorPos: Option<CursorPos>)
      requires Valid() && Prepared(newLines) && |newLines| < |previousLines|
      modifies this, terminal
      ensures Kept() && Counted(|newLines|, false, false)
      ensures Valid() && stopped == old(stopped)
      ensures old(Synced()) && old(terminal.screen).top <= Max(0, |newLines| - 1) &&
              newLines == old(previousLines)[..|newLines|] ==>
        && ContentsKnown() && previousLines == newLines
        && terminal.screen.top == old(terminal.screen).top
        && CursorAimed(cursorPos, |newLines|)
    {
      hide Run, Apply, PutAll, ShrinkBuffer, Closed, Width, Painted, ClosedTexts, LineAt;
      ghost var s := terminal.screen;
      var buffer := BuildShrink(hardwareCursorRow, |newLines|, |previousLines|);
      ShrinkBufferClosed(hardwareCursorRow, |newLines|, |previousLines|);
      PenStays(s, buffer);
      if Synced() && s.top <= Max(0, |newLines| - 1) && newLines == previousLines[..|newLines|] {
        ShrinkBufferShows(s, previousLines, newLines);
      }
      terminal.Write(buffer);
      Remember(newLines, Max(0, |newLines| - 1), previousViewportTop, cursorPos);
    }

    /** Only trailing lines went away: erase their rows, or redraw if the end is above the viewport or too many went. */
    method DropLines(newLines: seq<Line>, cursorPos: Option<CursorPos>)
      requires Valid() && Prepared(newLines) && |newLines| < |previousLines|
      requires FirstChanged(previousLines, newLines) >= |newLines|
      modifies this, terminal
      ensures Valid() && stopped == old(stopped)
      ensures Kept()
      ensures var redrawn := FullRedraw(old(previousLines), newLines, old(previousViewportTop), terminal.screen.height,
                                        false, 0);
        Counted(|newLines|, redrawn, redrawn)
      ensures old(Synced()) && Fits(newLines, terminal.screen.width) ==>
        && ContentsKnown() && previousLines == newLines
        && terminal.screen.top == NextTop(old(previousLines), newLines, old(previousViewportTop),
                                          terminal.screen.height, false, old(maxLinesRendered))
        && CursorAimed(cursorPos, |newLines|)
    {
      hide Run, Apply, PutAll, Closed, Width, Painted, FirstDiff, LineAt, ErasedCells, Fits, Prepared;
      var height := terminal.screen.height;
      var targetRow := Max(0, |newLines| - 1);
      var extraLines := |previousLines| - |newLines|;
      if targetRow < previousViewportTop || extraLines > height {
        FullRender(newLines, true, cursorPos);
        return;
      }
      OnlyDeleted(previousLines, newLines, FirstChanged(previousLines, newLines));
      ShrinkRender(newLines, cursorPos);
    }

    /** Nothing changed: only the cursor is placed. */
    method KeepLines(cursorPos: Option<CursorPos>)
      requires Valid()
      modifies this`hardwareCursorRow, terminal
      ensures Valid() && Kept()
      ensures old(Synced()) ==>
        && ContentsKnown() && terminal.screen.top == old(terminal.screen).top
        && CursorAimed(cursorPos, |previousLines|)
    {
      hide Painted, Prepared;
      PositionHardwareCursor(cursorPos, |previousLines|);
    }

    /** The differential part: nothing, erase, redraw or write the changed lines. */
    method UpdateLines(newLines: seq<Line>, cursorPos: Option<CursorPos>) returns (crashed: bool)
      requires Valid() && Prepared(newLines)
      modifies this, terminal
      ensures Valid()
      ensures Kept()
      ensures var redrawn := FullRedraw(old(previousLines), newLines, old(previousViewportTop), terminal.screen.height,
                                        false, 0);
        if crashed then Counted(0, false, false) else Counted(|newLines|, redrawn, redrawn)
      ensures crashed ==> stopped && !Fits(newLines, terminal.screen.width) && terminal.screen == old(terminal.screen)
      ensures !crashed ==> stopped == old(stopped)
      ensures old(Synced()) && old(previousLines) != [] && Fits(newLines, terminal.screen.width) ==>
        var height := terminal.screen.height;
        && !crashed
        && ContentsKnown() && previousLines == newLines
        && terminal.screen.top ==
           NextTop(old(previousLines), newLines, old(previousViewportTop), height, false, old(maxLinesRendered))
        && CursorAimed(cursorPos, |newLines|)
    {
      hide Run, Apply, PutAll, Closed, Width, Painted, FirstDiff, LineAt, ErasedCells, Fits, CursorAimed, Prepared;
      crashed := false;
      var height := terminal.screen.height;
      var firstChanged, lastChanged := ChangedRange(previousLines, newLines);
      var appendedLines := |newLines| > |previousLines|;
      var appendStart := appendedLines && firstChanged == |previousLines| && firstChanged > 0;
      if firstChanged == -1 {
        SameLines(previousLines, newLines);
        KeepLines(cursorPos);
        return;
      }
      if firstChanged >= |newLines| {
        DropLines(newLines, cursorPos);
        return;
      }
      if firstChanged < previousViewportTop {
        FullRender(newLines, true, cursorPos);
        return;
      }
      crashed := DiffRender(newLines, firstChanged, lastChanged, appendStart, cursorPos);
    }

    /** The body of `doRender` after the lines are prepared. */
    method RenderLines(newLines: seq<Line>, cursorPos: Option<CursorPos>, overlays: bool) returns (crashed: bool)
      requires Valid() && Prepared(newLines)
      requires cursorPos.Some? ==> cursorPos.value.row < |newLines|
      modifies this, terminal
      ensures Valid()
      ensures Kept()
      ensures var redrawn := Redrawn(newLines, overlays);
        if crashed then Counted(0, false, false)
        else Counted(|newLines|, redrawn, redrawn || old(previousLines) == [])
      ensures crashed ==> stopped && !Fits(newLines, terminal.screen.width) && terminal.screen == old(terminal.screen)
      ensures !crashed ==> stopped == old(stopped)
      ensures old(Ready()) && Fits(newLines, terminal.screen.width) ==>
        var height := terminal.screen.height;
        && !crashed
        && ContentsKnown() && previousLines == newLines
        && terminal.screen.top == (
             if old(SizeChanged()) then Max(0, |newLines| - height)
             else NextTop(old(previousLines), newLines, old(previousViewportTop), height,
                          old(clearOnShrink) && !overlays, old(maxLinesRendered)))
        && CursorAimed(cursorPos, |newLines|)
    {
      crashed := false;
      hide Run, Apply, PutAll, Closed, Width, Painted, FirstDiff;
      var width, height := terminal.screen.width, terminal.screen.height;
      var widthChanged := previousWidth != 0 && previousWidth != width;
      var heightChanged := previousHeight != 0 && previousHeight != height;
      if |previousLines| == 0 && !widthChanged && !heightChanged {
        if Synced() { EmptyIsClean(terminal.screen); }
        FullRender(newLines, false, cursorPos);
        return;
      }
      if widthChanged {
        FullRender(newLines, true, cursorPos);
        return;
      }
      if heightChanged {
        FullRender(newLines, true, cursorPos);
        return;
      }
      if clearOnShrink && |newLines| < maxLinesRendered && !overlays {
        FullRender(newLines, true, cursorPos);
        return;
      }
      crashed := UpdateLines(newLines, cursorPos);
    }

    /** One render of a frame. From any state it can be ready in, and for a frame that fits, the
        screen ends up showing exactly the frame; the viewport is where `NextTop` says; and the
        cursor row is known exactly when the marker's row is not above the viewport. */
    method DoRender(frame: seq<Line>, overlays: bool) returns (crashed: bool)
      requires Valid()
      modifies this, terminal
      ensures Valid()
      ensures Kept()
      ensures var lines := WithResets(Stripped(frame, terminal.screen.height));
        var redrawn := Redrawn(lines, overlays);
        if old(stopped) || crashed then Counted(0, false, false)
        else Counted(|frame|, redrawn, redrawn || old(previousLines) == [])
      ensures old(stopped) ==> !crashed && terminal.screen == old(terminal.screen)
      ensures crashed ==> stopped && !Fits(frame, terminal.screen.width) && terminal.screen == old(terminal.screen)
      ensures !crashed ==> stopped == old(stopped)
      ensures !old(stopped) && old(Ready()) && Fits(frame, terminal.screen.width) ==>
        var height := terminal.screen.height;
        var pos := CursorOf(frame, height);
        && !crashed
        && ContentsKnown() && previousLines == WithResets(Stripped(frame, height))
        && Shows(terminal.screen, WithResets(frame))
        && terminal.screen.top == (
             if old(SizeChanged()) then Max(0, |frame| - height)
             else NextTop(old(previousLines), WithResets(Stripped(frame, height)), old(previousViewportTop), height,
                          old(clearOnShrink) && !overlays, old(maxLinesRendered)))
        && (pos.Some? ==> hardwareCursorRow == pos.value.row)
        && (Synced() <==> pos.None? || pos.value.row >= terminal.screen.top)
        && CaretPlaced(frame)
    {
      hide FirstDiff, Width, CursorOf, Shows, Painted, CaretPlaced, CursorAimed, FullRedraw, Stripped, WithResets,
           Prepared, ContentsKnown, Synced, Fits;
      crashed := false;
      if stopped {
        return;
      }
      ghost var good := Ready() && Fits(frame, terminal.screen.width);
      var width, height := terminal.screen.width, terminal.screen.height;
      var cursorPos, newLines := ExtractCursorPosition(frame, height);
      CursorWithin(frame, height);
      newLines := ApplyLineResets(newLines);
      PreparedLines(frame, height, width);
      crashed := RenderLines(newLines, cursorPos, overlays);
      if good {
        KnownShows();
        ShowsFrame(terminal.screen, frame, height);
        AimedIsPlaced(frame, cursorPos);
      }
    }

    lemma KnownShows()
      requires ContentsKnown()
      ensures Shows(terminal.screen, previousLines)
    {
    }
  }
}
