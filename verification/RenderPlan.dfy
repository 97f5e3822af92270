/** The command buffers `doRender` builds, as functions of its inputs, and what each does to the screen. */
module RenderPlan {
  import opened Terminal

  // ----- writing all lines afresh -----

  function RowCmds(feed: bool, erase: bool, line: Line): seq<Cmd> {
    (if feed then [CrLf] else []) + (if erase then [EraseLine] else []) + [Text(line)]
  }

  /** Rows `first..n-1` written one below the other; `erase` clears each row before its text. */
  function WriteRows(lines: seq<Line>, first: nat, n: nat, erase: bool): seq<Cmd>
    requires n <= |lines|
    decreases n
  {
    if n <= first then []
    else WriteRows(lines, first, n - 1, erase) + RowCmds(n - 1 > first, erase, lines[n - 1])
  }

  const CLEAR_ALL := [EraseDisplay, Home, EraseScrollback]

  function FullBuffer(lines: seq<Line>, clear: bool): seq<Cmd> {
    Framed((if clear then CLEAR_ALL else []) + WriteRows(lines, 0, |lines|, false))
  }

  /** The rows from `first` on that the writer may print on without erasing them. */
  ghost predicate BlankFrom(s: Screen, first: nat) {
    forall i :: first <= i < |s.rows| ==> s.rows[i] == ErasedCells(s.width, [])
  }

  /** `t` is `s` after rows `first..n-1` were painted, scrolling blank rows in as needed. */
  ghost predicate RowsPainted(s: Screen, t: Screen, lines: seq<Line>, first: nat, n: nat)
    requires n <= |lines|
  {
    && t.Valid()
    && t.width == s.width && t.height == s.height && t.pen == []
    && t.top == Max(s.top, n - s.height)
    && forall i :: 0 <= i < |t.rows| ==>
         t.rows[i] == if first <= i < n then Painted(lines[i], s.width)
                      else if i < |s.rows| then s.rows[i]
                      else ErasedCells(s.width, [])
  }

  /** Synchronized-output brackets around a buffer. */
  function Framed(body: seq<Cmd>): seq<Cmd> {
    [Sync(true)] + body + [Sync(false)]
  }

  lemma FramedRuns(s: Screen, body: seq<Cmd>)
    requires s.Valid()
    ensures Run(s, Framed(body)) == Run(s, body)
  {
    Run1(s, Sync(true));
    Run1(Run(s, body), Sync(false));
    RunAll3(s, [Sync(true)], body, [Sync(false)]);
  }

  lemma CrLands(s: Screen)
    requires s.Valid()
    ensures Run(s, [Cr]) == s.(col := 0)
  {
    Run1(s, Cr);
  }

  lemma RunAll3(s: Screen, a: seq<Cmd>, b: seq<Cmd>, c: seq<Cmd>)
    requires s.Valid()
    ensures Run(s, a + b + c) == Run(Run(Run(s, a), b), c)
  {
    RunConcat(s, a, b);
    RunConcat(s, a + b, c);
  }

  lemma WriteOneRow(s: Screen, feed: bool, erase: bool, line: Line)
    requires s.Valid() && s.pen == [] && (feed || s.col == 0)
    requires Width(line) <= s.width && Closed(line)
    requires var s1 := if feed then LineFeed(s) else s; erase || s1.rows[s1.row] == ErasedCells(s.width, [])
    ensures var s1 := if feed then LineFeed(s) else s;
      Run(s, RowCmds(feed, erase, line)) ==
      s1.(rows := s1.rows[s1.row := Painted(line, s.width)], col := Width(line))
  {
    var s1 := if feed then LineFeed(s) else s;
    var s2 := if erase then s1.(rows := s1.rows[s1.row := ErasedCells(s.width, [])]) else s1;
    if feed { Run1(s, CrLf); }
    if erase { Run1(s1, EraseLine); }
    TextPaints(s2, line);
    Run1(s2, Text(line));
    RunAll3(s, if feed then [CrLf] else [], if erase then [EraseLine] else [], [Text(line)]);
    assert s2.rows[s2.row := Painted(line, s.width)] == s1.rows[s1.row := Painted(line, s.width)];
  }

  /** One more row: the cursor stands on it already, or a line feed brings it there. */
  lemma PaintStep(s: Screen, t: Screen, lines: seq<Line>, first: nat, n: nat, erase: bool)
    requires s.Valid() && s.row == first && s.col == 0 && s.pen == [] && first < n <= |lines|
    requires Width(lines[n - 1]) <= s.width && Closed(lines[n - 1]) && (erase || BlankFrom(s, first))
    requires if n - 1 > first then RowsPainted(s, t, lines, first, n - 1) && t.row == n - 2 else t == s
    ensures t.Valid()
    ensures var u := Run(t, RowCmds(n - 1 > first, erase, lines[n - 1]));
      RowsPainted(s, u, lines, first, n) && u.row == n - 1
  {
    hide Run, PutAll, Cells, Width, PenAfter, RowCmds, Closed, Painted, ErasedCells;
    WriteOneRow(t, n - 1 > first, erase, lines[n - 1]);
  }

  lemma {:induction false} WriteRowsPaints(s: Screen, lines: seq<Line>, first: nat, n: nat, erase: bool)
    requires s.Valid() && s.row == first && s.col == 0 && s.pen == []
    requires first < n <= |lines|
    requires Fits(lines, s.width) && AllClosed(lines)
    requires erase || BlankFrom(s, first)
    ensures RowsPainted(s, Run(s, WriteRows(lines, first, n, erase)), lines, first, n)
    ensures Run(s, WriteRows(lines, first, n, erase)).row == n - 1
    decreases n
  {
    hide Run, Apply, PutAll, Width, RowCmds, Closed, RowsPainted, BlankFrom;
    var before := WriteRows(lines, first, n - 1, erase);
    if n - 1 > first {
      WriteRowsPaints(s, lines, first, n - 1, erase);
    } else {
      Run0(s);
    }
    RunConcat(s, before, RowCmds(n - 1 > first, erase, lines[n - 1]));
    PaintStep(s, Run(s, before), lines, first, n, erase);
  }

  lemma ClearAllClears(s: Screen)
    requires s.Valid() && s.pen == []
    ensures var t := Run(s, CLEAR_ALL);
      t == Screen(s.width, s.height, t.rows, 0, 0, 0, []) && Shows(t, [])
  {
    var s1 := Apply(s, EraseDisplay);
    var s2 := Apply(s1, Home);
    var s3 := Apply(s2, EraseScrollback);
    assert CLEAR_ALL[1..] == [Home, EraseScrollback] && CLEAR_ALL[1..][1..] == [EraseScrollback];
    Run1(s2, EraseScrollback);
  }

  /** A full render on a cleared (or clean) screen shows the lines, ends on the last one, and leaves
      the viewport at the bottom of the content. */
  lemma FullBufferShows(s: Screen, lines: seq<Line>, clear: bool)
    requires s.Valid() && s.pen == []
    requires Fits(lines, s.width) && AllClosed(lines)
    requires clear || (BlankFrom(s, 0) && s.top == s.row == s.col == 0)
    ensures var t := Run(s, FullBuffer(lines, clear));
      && Shows(t, lines) && t.pen == []
      && t.top == Max(0, |lines| - s.height)
      && t.row == Max(0, |lines| - 1)
      && (lines == [] ==> t.col == 0)
  {
    hide Run, Apply, PutAll, Cells, Width, PenAfter;
    var wipe := if clear then CLEAR_ALL else [];
    var body := WriteRows(lines, 0, |lines|, false);
    FramedRuns(s, wipe + body);
    RunConcat(s, wipe, body);
    if clear { ClearAllClears(s); } else { Run0(s); }
    var s1 := Run(s, wipe);
    assert BlankFrom(s1, 0) by {
      forall i | 0 <= i < |s1.rows| ensures s1.rows[i] == ErasedCells(s1.width, []) {
        assert LineAt([], i) == [];
      }
    }
    if lines != [] { WriteRowsPaints(s1, lines, 0, |lines|, false); } else { Run0(s1); }
  }

  lemma {:induction false} WriteRowsClosed(lines: seq<Line>, first: nat, n: nat, erase: bool)
    requires n <= |lines| && AllClosed(lines)
    ensures ClosedTexts(WriteRows(lines, first, n, erase))
    decreases n
  {
    hide Closed;
    if n > first { WriteRowsClosed(lines, first, n - 1, erase); }
  }

  lemma FullBufferClosed(lines: seq<Line>, clear: bool)
    requires AllClosed(lines)
    ensures ClosedTexts(FullBuffer(lines, clear))
    ensures forall held :: !HeldAfter(held, FullBuffer(lines, clear))
  {
    WriteRowsClosed(lines, 0, |lines|, false);
  }

  // ----- only deleted lines -----

  /** The first `j` of `k` rows erased downwards from the cursor. */
  function EraseRows(j: nat, k: nat): seq<Cmd> {
    if j == 0 then []
    else EraseRows(j - 1, k) + [Cr, EraseLine] + (if j - 1 < k - 1 then [Down(1)] else [])
  }

  /** `t` is `s` with rows `from..to-1` blank. */
  ghost predicate RowsErased(s: Screen, t: Screen, from: nat, to: nat) {
    && t.Valid()
    && t.width == s.width && t.height == s.height && t.pen == [] && t.top == s.top
    && |t.rows| == |s.rows|
    && forall i :: 0 <= i < |t.rows| ==>
         t.rows[i] == if from <= i < to then ErasedCells(s.width, []) else s.rows[i]
  }

  lemma {:induction false} EraseRowsErases(s: Screen, j: nat, k: nat)
    requires s.Valid() && s.pen == [] && 1 <= j <= k && s.row + k <= s.top + s.height
    ensures var t := Run(s, EraseRows(j, k));
      RowsErased(s, t, s.row, s.row + j) && t.row == s.row + Min(j, k - 1) && t.col == 0
  {
    hide Run, Apply, ErasedCells;
    var before := EraseRows(j - 1, k);
    if j > 1 {
      EraseRowsErases(s, j - 1, k);
    } else {
      Run0(s);
    }
    var s0 := Run(s, before);
    RunConcat(s, before, [Cr, EraseLine]);
    EraseOne(s0);
    if j < k {
      var s1 := s0.(rows := s0.rows[s0.row := ErasedCells(s.width, [])], col := 0);
      DownOne(s1);
      RunConcat(s, before + [Cr, EraseLine], [Down(1)]);
      assert EraseRows(j, k) == before + [Cr, EraseLine] + [Down(1)];
    } else {
      assert EraseRows(j, k) == before + [Cr, EraseLine];
    }
  }

  lemma EraseOne(s: Screen)
    requires s.Valid() && s.pen == []
    ensures Run(s, [Cr, EraseLine]) == s.(rows := s.rows[s.row := ErasedCells(s.width, [])], col := 0)
  {
    Run1(s.(col := 0), EraseLine);
    assert [Cr, EraseLine][1..] == [EraseLine];
  }

  lemma DownOne(s: Screen)
    requires s.Valid() && s.row + 1 < s.top + s.height
    ensures Run(s, [Down(1)]) == s.(row := s.row + 1)
  {
    Run1(s, Down(1));
  }

  /** Erase `k` rows downwards from the cursor and stop on row `back` above the last of them. */
  function EraseHere(k: nat, back: nat): seq<Cmd> {
    EraseRows(k, k) + MoveRows(0 - back)
  }

  lemma EraseHereErases(s: Screen, k: nat, back: nat)
    requires s.Valid() && s.pen == [] && 1 <= k && s.row + k <= s.top + s.height
    requires s.top + back <= s.row + k - 1
    ensures var t := Run(s, EraseHere(k, back));
      RowsErased(s, t, s.row, s.row + k) && t.row == s.row + k - 1 - back && t.col == 0
  {
    hide Run, Apply, PutAll, MoveRows, EraseRows;
    EraseRowsErases(s, k, k);
    MoveTo(Run(s, EraseRows(k, k)), s.row + k - 1 - back);
    RunConcat(s, EraseRows(k, k), MoveRows(0 - back));
  }

  function ShrinkBuffer(cursorRow: int, newLen: nat, oldLen: nat): seq<Cmd>
    requires newLen < oldLen
  {
    var offset := if newLen == 0 then 0 else 1;
    var extra := oldLen - newLen;
    Framed(
      MoveRows(Max(0, newLen - 1) - cursorRow) + [Cr] + MoveRows(offset) + EraseHere(extra, extra - 1 + offset))
  }

  /** From any row of the screen to the first row past the new lines. */
  lemma ShrinkLands(s: Screen, n: nat)
    requires s.Valid() && s.top <= Max(0, n - 1) && n < s.top + s.height
    ensures var offset := if n == 0 then 0 else 1;
      s.(row := n, col := 0).Valid() &&
      Run(s, MoveRows(Max(0, n - 1) - s.row) + [Cr] + MoveRows(offset)) == s.(row := n, col := 0)
  {
    hide Run, Apply, PutAll, MoveRows;
    var target := Max(0, n - 1);
    MoveTo(s, target);
    CrLands(s.(row := target));
    MoveTo(s.(row := target, col := 0), n);
    RunAll3(s, MoveRows(target - s.row), [Cr], MoveRows(n - target));
  }

  lemma ShowsWithin(s: Screen, lines: seq<Line>)
    requires Shows(s, lines)
    ensures |lines| <= |s.rows|
  {
  }

  lemma ErasedShows(s: Screen, t: Screen, prev: seq<Line>, lines: seq<Line>)
    requires s.Valid() && Shows(s, prev) && RowsErased(s, t, |lines|, |prev|)
    requires |lines| < |prev| && forall i :: 0 <= i < |lines| ==> prev[i] == lines[i]
    ensures Shows(t, lines)
  {
    forall i | 0 <= i < |t.rows| ensures t.rows[i] == Painted(LineAt(lines, i), s.width) {
      assert s.rows[i] == Painted(LineAt(prev, i), s.width);
    }
  }

  lemma ShrinkBufferShows(s: Screen, prev: seq<Line>, lines: seq<Line>)
    requires s.Valid() && s.pen == [] && Shows(s, prev)
    requires |lines| < |prev| && Max(0, |lines| - 1) >= s.top
    requires forall i :: 0 <= i < |lines| ==> prev[i] == lines[i]
    ensures var t := Run(s, ShrinkBuffer(s.row, |lines|, |prev|));
      Shows(t, lines) && t.pen == [] && t.top == s.top && t.row == Max(0, |lines| - 1) && t.col == 0
  {
    hide Run, Apply, PutAll, MoveRows, EraseHere, Painted, Shows, RowsErased, ErasedCells, LineAt, Framed;
    var n, m := |lines|, |prev|;
    var offset := if n == 0 then 0 else 1;
    var moves := MoveRows(Max(0, n - 1) - s.row) + [Cr] + MoveRows(offset);
    var erases := EraseHere(m - n, m - n - 1 + offset);
    ShowsWithin(s, prev);
    ShrinkLands(s, n);
    EraseHereErases(s.(row := n, col := 0), m - n, m - n - 1 + offset);
    assert ShrinkBuffer(s.row, n, m) == Framed(moves + erases);
    FramedRuns(s, moves + erases);
    RunConcat(s, moves, erases);
    var u := s.(row := n, col := 0);
    SameRowsErased(s, u, Run(u, erases), n, m);
    ErasedShows(s, Run(u, erases), prev, lines);
  }

  /** Where the cursor stood does not matter. */
  lemma SameRowsErased(s: Screen, u: Screen, t: Screen, from: nat, to: nat)
    requires u == s.(row := u.row, col := u.col) && RowsErased(u, t, from, to)
    ensures RowsErased(s, t, from, to) && t.pen == [] && t.top == s.top
  {
  }

  // ----- the differential update -----

  function Feeds(k: nat): seq<Cmd> {
    if k == 0 then [] else Feeds(k - 1) + [CrLf]
  }

  /** Bring the cursor to `target`, scrolling when it lies below the screen, then to column 0 of the
      first row to write (the next one when lines are only appended). */
  function Approach(cursorRow: int, top: int, height: nat, target: int, append: bool): seq<Cmd>
    requires height >= 1
  {
    var bottom := top + height - 1;
    (if target > bottom then
       var screenRow := Max(0, Min(height - 1, cursorRow - top));
       MoveRows(height - 1 - screenRow) + Feeds(target - bottom)
     else
       MoveRows(target - cursorRow)) +
    [if append then CrLf else Cr]
  }

  /** `t` is `s` scrolled until its viewport starts at `top`, with blank rows below. */
  ghost predicate Scrolled(s: Screen, t: Screen, top: nat) {
    && t.Valid()
    && t.width == s.width && t.height == s.height && t.pen == [] && t.top == top && s.top <= top
    && forall i :: 0 <= i < |t.rows| ==>
         t.rows[i] == if i < |s.rows| then s.rows[i] else ErasedCells(s.width, [])
  }

  lemma {:induction false} FeedsScroll(s: Screen, k: nat)
    requires s.Valid() && s.pen == [] && s.row == s.top + s.height - 1
    ensures var t := Run(s, Feeds(k)); Scrolled(s, t, s.top + k) && t.row == s.row + k
  {
    if k > 0 {
      FeedsScroll(s, k - 1);
      RunSnoc(s, Feeds(k - 1), CrLf);
    }
  }

  /** To the last row of the screen and on, scrolling. */
  lemma FeedsLand(s: Screen, target: nat)
    requires s.Valid() && s.pen == [] && target >= s.top + s.height
    ensures var bottom := s.top + s.height - 1;
      var t := Run(s, MoveRows(bottom - s.row) + Feeds(target - bottom));
      Scrolled(s, t, target - s.height + 1) && t.row == target
  {
    hide Run, Apply, PutAll, MoveRows, Feeds, ErasedCells;
    var bottom := s.top + s.height - 1;
    MoveTo(s, bottom);
    var u := s.(row := bottom);
    FeedsScroll(u, target - bottom);
    RunConcat(s, MoveRows(bottom - s.row), Feeds(target - bottom));
  }

  /** The carriage return that ends the approach, or the line feed that may scroll once more. */
  lemma LastStep(s: Screen, t: Screen, append: bool)
    requires s.Valid() && s.pen == [] && Scrolled(s, t, t.top)
    ensures var u := Run(t, [if append then CrLf else Cr]);
      var first := if append then t.row + 1 else t.row;
      Scrolled(s, u, Max(t.top, first - s.height + 1)) && u.row == first && u.col == 0
  {
    hide Run, PutAll, ErasedCells;
    Run1(t, if append then CrLf else Cr);
  }

  lemma ApproachLands(s: Screen, target: nat, append: bool)
    requires s.Valid() && s.pen == [] && s.top <= target
    ensures var t := Run(s, Approach(s.row, s.top, s.height, target, append));
      var first := if append then target + 1 else target;
      Scrolled(s, t, Max(s.top, first - s.height + 1)) && t.row == first && t.col == 0
  {
    hide Run, Apply, PutAll, MoveRows, Feeds, ErasedCells;
    var bottom := s.top + s.height - 1;
    var last := if append then CrLf else Cr;
    var moves :=
      if target > bottom then MoveRows(bottom - s.row) + Feeds(target - bottom) else MoveRows(target - s.row);
    assert Approach(s.row, s.top, s.height, target, append) == moves + [last];
    if target > bottom { FeedsLand(s, target); } else { MoveTo(s, target); }
    RunConcat(s, moves, [last]);
    LastStep(s, Run(s, moves), append);
  }

  function FeedErase(k: nat): seq<Cmd> {
    if k == 0 then [] else FeedErase(k - 1) + [CrLf, EraseLine]
  }

  lemma {:induction false} FeedEraseErases(s: Screen, k: nat)
    requires s.Valid() && s.pen == [] && s.row + k < s.top + s.height
    ensures var t := Run(s, FeedErase(k));
      RowsErased(s, t, s.row + 1, s.row + 1 + k) && t.row == s.row + k
  {
    if k > 0 {
      FeedEraseErases(s, k - 1);
      var s1 := Run(s, FeedErase(k - 1));
      var s2 := Apply(s1, CrLf);
      Run1(s2, EraseLine);
      assert [CrLf, EraseLine][1..] == [EraseLine];
      RunConcat(s, FeedErase(k - 1), [CrLf, EraseLine]);
    }
  }

  /** Erase the `k` rows below the cursor and come back. */
  function EraseBelow(k: nat): seq<Cmd> {
    FeedErase(k) + MoveRows(0 - k)
  }

  lemma EraseBelowErases(s: Screen, k: nat)
    requires s.Valid() && s.pen == [] && s.row + k < s.top + s.height
    ensures var t := Run(s, EraseBelow(k));
      RowsErased(s, t, s.row + 1, s.row + 1 + k) && t.row == s.row
  {
    hide Run, Apply, PutAll, MoveRows, FeedErase;
    FeedEraseErases(s, k);
    MoveTo(Run(s, FeedErase(k)), s.row);
    RunConcat(s, FeedErase(k), MoveRows(0 - k));
  }

  /** After the changed lines: erase the rows of lines that no longer exist and come back. */
  function Trim(renderEnd: nat, newLen: nat, oldLen: nat): seq<Cmd>
    requires renderEnd < newLen
  {
    if oldLen <= newLen then [] else MoveRows(newLen - 1 - renderEnd) + EraseBelow(oldLen - newLen)
  }

  lemma TrimErases(s: Screen, newLen: nat, oldLen: nat)
    requires s.Valid() && s.pen == [] && s.row < newLen < oldLen <= |s.rows|
    ensures var t := Run(s, Trim(s.row, newLen, oldLen));
      RowsErased(s, t, newLen, oldLen) && t.row == newLen - 1
  {
    hide Run, Apply, PutAll, MoveRows, EraseBelow, RowsErased, ErasedCells;
    MoveTo(s, newLen - 1);
    var u := s.(row := newLen - 1);
    EraseBelowErases(u, oldLen - newLen);
    RunConcat(s, MoveRows(newLen - 1 - s.row), EraseBelow(oldLen - newLen));
    SameRowsErased(s, u, Run(u, EraseBelow(oldLen - newLen)), newLen, oldLen);
  }

  function DiffBuffer(cursorRow: int, top: int, height: nat, lines: seq<Line>, oldLen: nat,
                      first: nat, renderEnd: nat, append: bool): seq<Cmd>
    requires height >= 1 && renderEnd < |lines|
  {
    Framed(
      Approach(cursorRow, top, height, if append then first - 1 else first, append) +
      WriteRows(lines, first, renderEnd + 1, true) + Trim(renderEnd, |lines|, oldLen))
  }

  /** The rows after scrolling, painting the changed lines and erasing the deleted ones. */
  lemma UpdateShows(s: Screen, s2: Screen, s3: Screen, s4: Screen, prev: seq<Line>, lines: seq<Line>,
                    first: nat, last: nat)
    requires s.Valid() && Shows(s, prev) && first <= last && first < |lines|
    requires Scrolled(s, s2, s2.top)
    requires RowsPainted(s2, s3, lines, first, Min(last, |lines| - 1) + 1)
    requires if |prev| > |lines| then RowsErased(s3, s4, |lines|, |prev|) else s4 == s3
    requires forall i: nat :: i < first || last < i ==> LineAt(prev, i) == LineAt(lines, i)
    requires |lines| <= |s4.rows|
    ensures Shows(s4, lines)
  {
    forall i | 0 <= i < |s4.rows| ensures s4.rows[i] == Painted(LineAt(lines, i), s.width) {
      if i < |s.rows| { assert s.rows[i] == Painted(LineAt(prev, i), s.width); }
      assert i < first || last < i ==> LineAt(prev, i) == LineAt(lines, i);
    }
  }

  /** The differential update turns a screen showing the old lines into one showing the new lines. */
  lemma DiffBufferShows(s: Screen, prev: seq<Line>, lines: seq<Line>, first: nat, last: nat, append: bool)
    requires s.Valid() && s.pen == [] && Shows(s, prev)
    requires Fits(lines, s.width) && AllClosed(lines)
    requires s.top <= first <= last && first < |lines|
    requires append ==> s.top < first
    requires forall i: nat :: i < first || last < i ==> LineAt(prev, i) == LineAt(lines, i)
    requires |lines| > |prev| ==> last == |lines| - 1
    ensures
      var renderEnd := Min(last, |lines| - 1);
      var t := Run(s, DiffBuffer(s.row, s.top, s.height, lines, |prev|, first, renderEnd, append));
      && Shows(t, lines) && t.pen == []
      && t.top == Max(s.top, |lines| - s.height)
      && t.row == if |prev| > |lines| then |lines| - 1 else renderEnd
  {
    hide Run, Apply, PutAll, Cells, Width, PenAfter, MoveRows, WriteRows, Approach, Painted, Closed, Framed,
         Fits;
    var n, m := |lines|, |prev|;
    var renderEnd := Min(last, n - 1);
    var target := if append then first - 1 else first;
    var c2 := Approach(s.row, s.top, s.height, target, append);
    var c3 := WriteRows(lines, first, renderEnd + 1, true);
    var c4 := Trim(renderEnd, n, m);
    FramedRuns(s, c2 + c3 + c4);
    RunAll3(s, c2, c3, c4);
    ApproachLands(s, target, append);
    var s2 := Run(s, c2);
    WriteRowsPaints(s2, lines, first, renderEnd + 1, true);
    var s3 := Run(s2, c3);
    if m > n { TrimErases(s3, n, m); } else { Run0(s3); }
    UpdateShows(s, s2, s3, Run(s3, c4), prev, lines, first, last);
  }

  lemma {:induction false} FeedsClosed(k: nat)
    ensures ClosedTexts(Feeds(k)) && ClosedTexts(FeedErase(k))
  {
    if k > 0 { FeedsClosed(k - 1); }
  }

  lemma {:induction false} EraseRowsClosed(j: nat, k: nat)
    ensures ClosedTexts(EraseRows(j, k))
  {
    if j > 0 { EraseRowsClosed(j - 1, k); }
  }

  lemma ApproachClosed(cursorRow: int, top: int, height: nat, target: int, append: bool)
    requires height >= 1
    ensures ClosedTexts(Approach(cursorRow, top, height, target, append))
  {
    if target > top + height - 1 { FeedsClosed(target - (top + height - 1)); }
  }

  lemma TrimClosed(renderEnd: nat, newLen: nat, oldLen: nat)
    requires renderEnd < newLen
    ensures ClosedTexts(Trim(renderEnd, newLen, oldLen))
  {
    hide FeedErase, Closed;
    if oldLen > newLen { FeedsClosed(oldLen - newLen); }
  }

  lemma DiffBufferClosed(cursorRow: int, top: int, height: nat, lines: seq<Line>, oldLen: nat,
                         first: nat, renderEnd: nat, append: bool)
    requires height >= 1 && renderEnd < |lines| && AllClosed(lines)
    ensures ClosedTexts(DiffBuffer(cursorRow, top, height, lines, oldLen, first, renderEnd, append))
    ensures forall held :: !HeldAfter(held, DiffBuffer(cursorRow, top, height, lines, oldLen, first, renderEnd, append))
  {
    hide Closed, Approach, Trim, WriteRows;
    ApproachClosed(cursorRow, top, height, if append then first - 1 else first, append);
    WriteRowsClosed(lines, first, renderEnd + 1, true);
    TrimClosed(renderEnd, |lines|, oldLen);
  }

  lemma ShrinkBufferClosed(cursorRow: int, newLen: nat, oldLen: nat)
    requires newLen < oldLen
    ensures ClosedTexts(ShrinkBuffer(cursorRow, newLen, oldLen))
    ensures forall held :: !HeldAfter(held, ShrinkBuffer(cursorRow, newLen, oldLen))
  {
    EraseRowsClosed(oldLen - newLen, oldLen - newLen);
  }

  /** Two screens that show the same lines agree on every row both of them hold, and on the rest is blank. */
  lemma ShowsSame(s: Screen, t: Screen, lines: seq<Line>)
    requires s.Valid() && t.Valid() && s.width == t.width
    requires Shows(s, lines) && Shows(t, lines)
    ensures SameContents(s, t, |lines|)
  {
    forall i | |lines| <= i < |s.rows| ensures s.rows[i] == ErasedCells(s.width, []) {
      assert LineAt(lines, i) == [];
    }
    forall i | |lines| <= i < |t.rows| ensures t.rows[i] == ErasedCells(t.width, []) {
      assert LineAt(lines, i) == [];
    }
  }

  /** The first `n` rows are the same, and all others are blank. */
  ghost predicate SameContents(s: Screen, t: Screen, n: nat) {
    && n <= |s.rows| && n <= |t.rows| && s.rows[..n] == t.rows[..n]
    && (forall i :: n <= i < |s.rows| ==> s.rows[i] == ErasedCells(s.width, []))
    && (forall i :: n <= i < |t.rows| ==> t.rows[i] == ErasedCells(t.width, []))
  }

  /** A differential update leaves what clearing the screen and writing all lines afresh would leave. */
  lemma DiffEqualsFull(s: Screen, prev: seq<Line>, lines: seq<Line>, first: nat, last: nat, append: bool)
    requires s.Valid() && s.pen == [] && Shows(s, prev)
    requires Fits(lines, s.width) && AllClosed(lines)
    requires s.top <= first <= last && first < |lines|
    requires append ==> s.top < first
    requires forall i: nat :: i < first || last < i ==> LineAt(prev, i) == LineAt(lines, i)
    requires |lines| > |prev| ==> last == |lines| - 1
    ensures SameContents(
      Run(s, DiffBuffer(s.row, s.top, s.height, lines, |prev|, first, Min(last, |lines| - 1), append)),
      Run(s, FullBuffer(lines, true)), |lines|)
  {
    hide Run, Shows, DiffBuffer, FullBuffer, LineAt, SameContents;
    DiffBufferShows(s, prev, lines, first, last, append);
    FullBufferShows(s, lines, true);
    ShowsSame(Run(s, DiffBuffer(s.row, s.top, s.height, lines, |prev|, first, Min(last, |lines| - 1), append)),
              Run(s, FullBuffer(lines, true)), lines);
  }

  /** So does the erasing of deleted lines. */
  lemma ShrinkEqualsFull(s: Screen, prev: seq<Line>, lines: seq<Line>)
    requires s.Valid() && s.pen == [] && Shows(s, prev) && Fits(lines, s.width) && AllClosed(lines)
    requires |lines| < |prev| && Max(0, |lines| - 1) >= s.top
    requires forall i :: 0 <= i < |lines| ==> prev[i] == lines[i]
    ensures SameContents(Run(s, ShrinkBuffer(s.row, |lines|, |prev|)), Run(s, FullBuffer(lines, true)), |lines|)
  {
    hide Run, Shows, ShrinkBuffer, FullBuffer, SameContents;
    ShrinkBufferShows(s, prev, lines);
    FullBufferShows(s, lines, true);
    ShowsSame(Run(s, ShrinkBuffer(s.row, |lines|, |prev|)), Run(s, FullBuffer(lines, true)), lines);
  }
}
