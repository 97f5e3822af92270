/** Slicing a line by columns, and laying an overlay into it. */
module Compositing {
  import opened Options
  import opened AnsiCodes
  import opened StyleRoundTrip
  import opened Strings
  import opened Wrapping
  import opened WrapMeaning
  import opened WrapWidth
  import opened Truncating

  /** The style in which atom `i` of a line is shown. */
  function StyleAt(line: Text, i: nat): Style
    requires i <= |line|
  {
    StyleAfter(CLEAR, line[..i])
  }

  function ColumnAt(line: Text, i: nat): nat
    requires i <= |line|
  {
    TextWidth(line[..i])
  }

  /** The graphemes that start in some columns, and in the strict case also end there, as the line shows them. */
  function MarksIn(line: Text, n: nat, from: int, to: int, strict: bool): seq<Mark>
    requires n <= |line|
  {
    if n == 0 then []
    else
      var a := line[n - 1];
      MarksIn(line, n - 1, from, to, strict) +
      if a.Glyph? && from <= ColumnAt(line, n - 1) < to && (!strict || ColumnAt(line, n - 1) + a.width <= to)
      then [Mark(a, StyleAt(line, n - 1))] else []
  }

  lemma StyleSnoc(line: Text, i: nat)
    requires i < |line|
    ensures StyleAt(line, i + 1) == StyleStep(StyleAt(line, i), line[i])
    ensures Read(CLEAR, line[..i + 1]) ==
            Read(CLEAR, line[..i]) + if line[i].Glyph? then [Mark(line[i], StyleAt(line, i))] else []
  {
    hide ApplyAnsi, Read, StyleAfter;
    assert line[..i + 1] == line[..i] + [line[i]];
    ReadSnoc(line[..i], line[i]);
  }

  lemma ReadSnoc(text: Text, a: Atom)
    ensures StyleAfter(CLEAR, text + [a]) == StyleStep(StyleAfter(CLEAR, text), a)
    ensures Read(CLEAR, text + [a]) ==
            Read(CLEAR, text) + if a.Glyph? then [Mark(a, StyleAfter(CLEAR, text))] else []
  {
    hide ApplyAnsi;
    ReadConcat(CLEAR, text, [a]);
    assert [a][1..] == [];
  }

  /** Past the last column nothing more is shown. */
  lemma {:induction false} MarksEnd(line: Text, i: nat, n: nat, from: int, to: int, strict: bool)
    requires i <= n <= |line| && ColumnAt(line, i) >= to
    ensures MarksIn(line, n, from, to, strict) == MarksIn(line, i, from, to, strict)
    decreases n
  {
    if i < n {
      MarksEnd(line, i, n - 1, from, to, strict);
      WidthGrows(line, i, n - 1);
    }
  }

  // ----- slices -----

  datatype Slicer = Slicer(text: Text, width: nat, col: nat, pending: Text, done: bool)

  function SliceStep(s: Slicer, a: Atom, startCol: int, endCol: int, strict: bool): Slicer {
    if s.done then s
    else if a.Code? then
      if startCol <= s.col < endCol then s.(text := s.text + [a])
      else if s.col < startCol then s.(pending := s.pending + [a])
      else s
    else
      var kept := startCol <= s.col < endCol && (!strict || s.col + a.width <= endCol);
      var t := if kept then s.(text := s.text + s.pending + [a], width := s.width + a.width, pending := []) else s;
      t.(col := s.col + a.width, done := s.col + a.width >= endCol)
  }

  /** The slicer after `n` atoms. */
  function SliceAt(line: Text, n: nat, startCol: int, endCol: int, strict: bool): Slicer
    requires n <= |line|
  {
    if n == 0 then Slicer([], 0, 0, [], false)
    else SliceStep(SliceAt(line, n - 1, startCol, endCol, strict), line[n - 1], startCol, endCol, strict)
  }

  method SliceWithWidth(line: Text, startCol: int, length: int, strict: bool) returns (text: Text, width: nat)
    ensures length <= 0 ==> text == [] && width == 0
    ensures length > 0 ==>
      var s := SliceAt(line, |line|, startCol, startCol + length, strict); text == s.text && width == s.width
  {
    text, width := [], 0;
    if length <= 0 {
      return;
    }
    var endCol := startCol + length;
    var currentCol: nat, i := 0, 0;
    var pendingAnsi: Text := [];
    while i < |line|
      invariant 0 <= i <= |line|
      invariant SliceAt(line, i, startCol, endCol, strict) == Slicer(text, width, currentCol, pendingAnsi, false)
    {
      var a := line[i];
      if a.Code? {
        if currentCol >= startCol && currentCol < endCol {
          text := text + [a];
        } else if currentCol < startCol {
          pendingAnsi := pendingAnsi + [a];
        }
      } else {
        var inRange := currentCol >= startCol && currentCol < endCol;
        var fits := !strict || currentCol + a.width <= endCol;
        if inRange && fits {
          text := text + pendingAnsi + [a];
          pendingAnsi := [];
          width := width + a.width;
        }
        currentCol := currentCol + a.width;
        if currentCol >= endCol {
          SliceStops(line, i + 1, startCol, endCol, strict);
          break;
        }
      }
      i := i + 1;
    }
  }

  lemma {:induction false} SliceStops(line: Text, i: nat, startCol: int, endCol: int, strict: bool)
    requires i <= |line| && SliceAt(line, i, startCol, endCol, strict).done
    ensures SliceAt(line, |line|, startCol, endCol, strict) == SliceAt(line, i, startCol, endCol, strict)
    decreases |line| - i
  {
    if i < |line| { SliceStops(line, i + 1, startCol, endCol, strict); }
  }

  function Glyphs(marks: seq<Mark>): (r: seq<Atom>)
    ensures |r| == |marks|
  {
    seq(|marks|, i requires 0 <= i < |marks| => marks[i].glyph)
  }

  /** What a slicer has after `n` atoms: exactly the graphemes of its columns; a strict one stays within them. */
  ghost predicate SliceOk(line: Text, n: nat, startCol: int, endCol: int, strict: bool, s: Slicer)
    requires n <= |line|
  {
    && Glyphs(Read(CLEAR, s.text)) == Glyphs(MarksIn(line, n, startCol, endCol, strict))
    && s.width == TextWidth(s.text)
    && (s.done ==> exists i :: 0 <= i <= n && ColumnAt(line, i) >= endCol)
    && (!s.done ==> s.col == ColumnAt(line, n))
    && (forall a :: a in s.pending ==> a.Code?)
    && (s.width == 0 || (s.width + startCol <= s.col && (strict ==> s.width + startCol <= endCol)))
  }

  lemma SliceOkDone(line: Text, i: nat, startCol: int, endCol: int, strict: bool, s: Slicer)
    requires i < |line| && SliceOk(line, i, startCol, endCol, strict, s) && s.done
    ensures SliceOk(line, i + 1, startCol, endCol, strict, s)
  {
    hide Glyphs, MarksIn, ColumnAt, Read, TextWidth;
    var j :| 0 <= j <= i && ColumnAt(line, j) >= endCol;
    MarksEnd(line, j, i, startCol, endCol, strict);
    MarksEnd(line, j, i + 1, startCol, endCol, strict);
    assert 0 <= j <= i + 1 && ColumnAt(line, j) >= endCol;
  }

  lemma SliceOkOn(line: Text, i: nat, startCol: int, endCol: int, strict: bool, s: Slicer)
    requires i < |line| && SliceOk(line, i, startCol, endCol, strict, s) && !s.done
    ensures SliceOk(line, i + 1, startCol, endCol, strict, SliceStep(s, line[i], startCol, endCol, strict))
  {
    hide ApplyAnsi, Read, TextWidth, StyleAfter;
    var t := SliceStep(s, line[i], startCol, endCol, strict);
    WidthSnoc(line, i);
    SliceGrows(s, line[i], t);
    if t.done { assert ColumnAt(line, i + 1) >= endCol; }
  }

  /** A slice shows exactly the graphemes of its columns; a strict one stays within them. */
  lemma {:induction false} SliceShows(line: Text, n: nat, startCol: int, endCol: int, strict: bool)
    requires n <= |line| && startCol < endCol
    ensures SliceOk(line, n, startCol, endCol, strict, SliceAt(line, n, startCol, endCol, strict))
    decreases n
  {
    hide ApplyAnsi, Read, TextWidth, StyleAfter;
    if n == 0 {
      SliceNothing(line);
    } else {
      SliceShows(line, n - 1, startCol, endCol, strict);
      var s := SliceAt(line, n - 1, startCol, endCol, strict);
      if s.done {
        SliceOkDone(line, n - 1, startCol, endCol, strict, s);
      } else {
        SliceOkOn(line, n - 1, startCol, endCol, strict, s);
      }
    }
  }

  lemma SliceNothing(line: Text)
    ensures Read(CLEAR, []) == [] && TextWidth([]) == 0
    ensures line[..0] == []
  {
  }

  /** What one more code, or one more grapheme after the codes that waited, does to a slice. */
  lemma SliceGrows(s: Slicer, a: Atom, t: Slicer)
    requires forall c :: c in s.pending ==> c.Code?
    requires s.width == TextWidth(s.text)
    requires t.text == s.text || (a.Code? && t.text == s.text + [a]) || (a.Glyph? && t.text == s.text + s.pending + [a])
    ensures t.text == s.text ==>
      Glyphs(Read(CLEAR, t.text)) == Glyphs(Read(CLEAR, s.text)) && TextWidth(t.text) == s.width
    ensures a.Code? ==> Glyphs(Read(CLEAR, t.text)) == Glyphs(Read(CLEAR, s.text)) && TextWidth(t.text) == s.width
    ensures a.Glyph? && t.text == s.text + s.pending + [a] ==>
      Glyphs(Read(CLEAR, t.text)) == Glyphs(Read(CLEAR, s.text)) + [a] && TextWidth(t.text) == s.width + a.width
  {
    hide ApplyAnsi, StyleAfter, Read, TextWidth;
    ReadSnoc(s.text, a);
    WidthConcat(s.text, [a]);
    ReadConcat(CLEAR, s.text, s.pending);
    CodesReadNothing(StyleAfter(CLEAR, s.text), s.pending);
    ReadSnoc(s.text + s.pending, a);
    WidthConcat(s.text, s.pending);
    WidthConcat(s.text + s.pending, [a]);
    CodesHaveNoWidth(s.pending);
    OneWide(a);
  }

  // ----- in which styles a slice shows its graphemes -----

  /** The first grapheme, from place `i` on, that starts at or behind a column. */
  function FirstFrom(line: Text, col: int, i: nat): (f: nat)
    requires i <= |line|
    ensures i <= f <= |line| && (f < |line| ==> line[f].Glyph? && ColumnAt(line, f) >= col)
    ensures forall j :: i <= j < f && line[j].Glyph? ==> ColumnAt(line, j) < col
    decreases |line| - i
  {
    if i == |line| || (line[i].Glyph? && ColumnAt(line, i) >= col) then i else FirstFrom(line, col, i + 1)
  }

  /** The codes among the first `n` atoms that stand in some columns. */
  function CodesIn(line: Text, n: nat, from: int, to: int): (r: Text)
    requires n <= |line|
    ensures forall a :: a in r ==> a.Code?
  {
    if n == 0 then []
    else
      CodesIn(line, n - 1, from, to) +
      if line[n - 1].Code? && from <= ColumnAt(line, n - 1) < to then [line[n - 1]] else []
  }

  /** The codes in front of the first grapheme of a slice, as the line has them: those before its first column, and
      those within its columns. */
  function InFront(line: Text, startCol: int, endCol: int): (Text, Text) {
    var f := FirstFrom(line, startCol, 0);
    (CodesIn(line, f, 0, startCol), CodesIn(line, f, startCol, endCol))
  }

  /** A slice puts the codes within its columns first. That does not show. */
  predicate OrderDoesNotMatter(line: Text, startCol: int, endCol: int) {
    var (before, within) := InFront(line, startCol, endCol);
    StyleAfter(CLEAR, within + before) == StyleAfter(CLEAR, before + within)
  }

  /** Up to the first grapheme of the slice: what came within the columns is out, what came before them waits. */
  lemma {:induction false} SliceWaits(line: Text, n: nat, startCol: int, endCol: int, strict: bool)
    requires n <= |line| && startCol < endCol
    requires forall j :: 0 <= j < n && line[j].Glyph? ==> ColumnAt(line, j) < startCol
    ensures var s := SliceAt(line, n, startCol, endCol, strict);
      var before, within := CodesIn(line, n, 0, startCol), CodesIn(line, n, startCol, endCol);
      && MarksIn(line, n, startCol, endCol, strict) == []
      && (ColumnAt(line, n) < startCol ==> within == [])
      && (!s.done ==>
            && s.text == within && s.pending == before && s.col == ColumnAt(line, n)
            && (s.col < endCol ==> StyleAt(line, n) == StyleAfter(CLEAR, before + within)))
    decreases n
  {
    hide ApplyAnsi, Read, TextWidth, StyleAfter;
    if n == 0 {
      SliceNothing(line);
      assert line[..0] + line[..0] == line[..0];
    } else {
      var i := n - 1;
      SliceWaits(line, i, startCol, endCol, strict);
      WidthSnoc(line, i);
      StyleSnoc(line, i);
      var before, within := CodesIn(line, i, 0, startCol), CodesIn(line, i, startCol, endCol);
      if line[i].Code? {
        CodeStyles(before, within, line[i]);
      }
    }
  }

  lemma CodeStyles(before: Text, within: Text, a: Atom)
    requires a.Code?
    ensures StyleAfter(CLEAR, before + (within + [a])) == StyleStep(StyleAfter(CLEAR, before + within), a)
    ensures within == [] ==>
      StyleAfter(CLEAR, before + [a] + within) == StyleStep(StyleAfter(CLEAR, before + within), a)
  {
    hide ApplyAnsi, StyleAfter;
    ReadSnoc(before + within, a);
    assert before + (within + [a]) == before + within + [a];
    if within == [] {
      assert before + [a] + within == before + within + [a];
    }
  }

  /** The slice keeps the first grapheme from its first column on, which is one of the first `n` atoms. */
  predicate KeepsFirst(line: Text, n: nat, startCol: int, endCol: int, strict: bool) {
    var f := FirstFrom(line, startCol, 0);
    f < n <= |line| &&
    var s := SliceAt(line, f, startCol, endCol, strict);
    !s.done && s.col < endCol && (!strict || s.col + line[f].width <= endCol)
  }

  /** From its first grapheme on, a slice shows its graphemes in their styles, or at least that one in another. */
  lemma {:induction false} SliceGoesOn(line: Text, n: nat, startCol: int, endCol: int, strict: bool)
    requires startCol < endCol && KeepsFirst(line, n, startCol, endCol, strict)
    ensures Carried(line, n, startCol, endCol, strict)
    decreases n
  {
    hide ApplyAnsi, Read, TextWidth, StyleAfter, OrderDoesNotMatter;
    var f, i := FirstFrom(line, startCol, 0), n - 1;
    if f == i {
      SliceBegins(line, startCol, endCol, strict);
    } else {
      SliceGoesOn(line, i, startCol, endCol, strict);
      SliceStepsOn(line, f, i, startCol, endCol, strict);
    }
  }

  /** What a slice that has a grapheme shows so far. */
  predicate Carried(line: Text, n: nat, startCol: int, endCol: int, strict: bool)
    requires n <= |line|
  {
    var s := SliceAt(line, n, startCol, endCol, strict);
    var shown, due := Read(CLEAR, s.text), MarksIn(line, n, startCol, endCol, strict);
    && s.pending == [] && shown != [] && due != [] && (!s.done ==> s.col < endCol)
    && if OrderDoesNotMatter(line, startCol, endCol)
       then shown == due && (!s.done ==> StyleAfter(CLEAR, s.text) == StyleAt(line, n))
       else shown[0] != due[0]
  }

  lemma SliceBegins(line: Text, startCol: int, endCol: int, strict: bool)
    requires startCol < endCol && KeepsFirst(line, |line|, startCol, endCol, strict)
    ensures Carried(line, FirstFrom(line, startCol, 0) + 1, startCol, endCol, strict)
  {
    hide ApplyAnsi, Read, TextWidth, StyleAfter, SliceAt, MarksIn, CodesIn, FirstFrom;
    var f := FirstFrom(line, startCol, 0);
    var s, t := SliceAt(line, f, startCol, endCol, strict), SliceAt(line, f + 1, startCol, endCol, strict);
    StyleSnoc(line, f);
    SliceWaits(line, f, startCol, endCol, strict);
    FirstIsKept(line, f, startCol, endCol, strict);
    SliceCarries(s, line[f], t);
    CodesOnly(s.text);
    assert t.text + [] == t.text;
  }

  lemma FirstIsKept(line: Text, i: nat, startCol: int, endCol: int, strict: bool)
    requires i < |line| && line[i].Glyph?
    requires var s := SliceAt(line, i, startCol, endCol, strict);
      && !s.done && s.col == ColumnAt(line, i) && startCol <= s.col < endCol
      && (!strict || s.col + line[i].width <= endCol)
    ensures var s, t := SliceAt(line, i, startCol, endCol, strict), SliceAt(line, i + 1, startCol, endCol, strict);
      && t.text == s.text + s.pending + [line[i]] && t.pending == [] && (!t.done ==> t.col < endCol)
      && MarksIn(line, i + 1, startCol, endCol, strict) ==
         MarksIn(line, i, startCol, endCol, strict) + [Mark(line[i], StyleAt(line, i))]
  {
    hide StyleAfter, TextWidth;
  }

  lemma SliceStepsOn(line: Text, f: nat, i: nat, startCol: int, endCol: int, strict: bool)
    requires f <= i < |line| && ColumnAt(line, f) >= startCol && startCol < endCol
    requires Carried(line, i, startCol, endCol, strict)
    ensures Carried(line, i + 1, startCol, endCol, strict)
  {
    hide ApplyAnsi, Read, TextWidth, StyleAfter, OrderDoesNotMatter;
    var s, t := SliceAt(line, i, startCol, endCol, strict), SliceAt(line, i + 1, startCol, endCol, strict);
    WidthSnoc(line, i);
    StyleSnoc(line, i);
    SliceShows(line, i, startCol, endCol, strict);
    if s.done {
      var j :| 0 <= j <= i && ColumnAt(line, j) >= endCol;
      MarksEnd(line, j, i, startCol, endCol, strict);
      MarksEnd(line, j, i + 1, startCol, endCol, strict);
    } else {
      SliceColumns(line, f, i, startCol, endCol, strict);
      assert s.text + s.pending == s.text && t.text + t.pending == t.text;
      SliceCarries(s, line[i], t);
    }
  }

  lemma CodesOnly(text: Text)
    requires forall a :: a in text ==> a.Code?
    ensures Read(CLEAR, text) == []
  {
    CodesReadNothing(CLEAR, text);
  }

  /** Behind the first grapheme of the slice every column is behind its first one. */
  lemma SliceColumns(line: Text, f: nat, i: nat, startCol: int, endCol: int, strict: bool)
    requires f <= i <= |line| && ColumnAt(line, f) >= startCol && startCol < endCol
    ensures ColumnAt(line, i) >= startCol
  {
    WidthGrows(line, f, i);
  }

  /** A slice shows its graphemes in the styles the line shows them in, if and only if there is none, or the order
      of the codes in front of the first one does not matter. */
  lemma SliceReads(line: Text, startCol: int, endCol: int, strict: bool)
    requires startCol < endCol
    ensures var due := MarksIn(line, |line|, startCol, endCol, strict);
      Read(CLEAR, SliceAt(line, |line|, startCol, endCol, strict).text) == due <==>
      due == [] || OrderDoesNotMatter(line, startCol, endCol)
  {
    hide ApplyAnsi, Read, TextWidth, StyleAfter, OrderDoesNotMatter;
    var f := FirstFrom(line, startCol, 0);
    SliceWaits(line, f, startCol, endCol, strict);
    SliceShows(line, f, startCol, endCol, strict);
    SliceShows(line, |line|, startCol, endCol, strict);
    if f < |line| {
      var s := SliceAt(line, f, startCol, endCol, strict);
      WidthSnoc(line, f);
      if KeepsFirst(line, |line|, startCol, endCol, strict) {
        SliceGoesOn(line, |line|, startCol, endCol, strict);
      } else if s.done {
        var j :| 0 <= j <= f && ColumnAt(line, j) >= endCol;
        MarksEnd(line, j, f, startCol, endCol, strict);
        MarksEnd(line, j, |line|, startCol, endCol, strict);
      } else {
        MarksEnd(line, f + 1, |line|, startCol, endCol, strict);
      }
    }
  }

  /** From the first column on nothing ever waits. */
  lemma PrefixReads(line: Text, endCol: int, strict: bool)
    requires 0 < endCol
    ensures Read(CLEAR, SliceAt(line, |line|, 0, endCol, strict).text) == MarksIn(line, |line|, 0, endCol, strict)
  {
    hide StyleAfter, Read, SliceAt, MarksIn;
    var f := FirstFrom(line, 0, 0);
    NoCodesBefore(line, f);
    var within := CodesIn(line, f, 0, endCol);
    assert within + [] == within == [] + within;
    SliceReads(line, 0, endCol, strict);
  }

  lemma {:induction false} NoCodesBefore(line: Text, n: nat)
    requires n <= |line|
    ensures CodesIn(line, n, 0, 0) == []
    decreases n
  {
    if n > 0 { NoCodesBefore(line, n - 1); }
  }

  lemma SliceCarries(s: Slicer, a: Atom, t: Slicer)
    requires forall c :: c in s.pending ==> c.Code?
    requires a.Code? ==>
      t.text + t.pending == s.text + s.pending + [a] && (t.text == s.text || t.text == s.text + [a])
    requires a.Glyph? ==>
      (t.text == s.text && t.pending == s.pending) || (t.text == s.text + s.pending + [a] && t.pending == [])
    ensures StyleAfter(CLEAR, t.text + t.pending) == StyleStep(StyleAfter(CLEAR, s.text + s.pending), a)
    ensures Read(CLEAR, t.text) == Read(CLEAR, s.text) +
            if a.Glyph? && t.text != s.text then [Mark(a, StyleAfter(CLEAR, s.text + s.pending))] else []
  {
    hide ApplyAnsi, StyleAfter;
    ReadSnoc(s.text + s.pending, a);
    ReadSnoc(s.text, a);
    ReadConcat(CLEAR, s.text, s.pending);
    CodesReadNothing(StyleAfter(CLEAR, s.text), s.pending);
    assert t.text + [] == t.text;
  }

  function Colored(code: nat): Style {
    CLEAR.(fg := Some(DigitsOf(code)))
  }

  function ColorCode(code: nat): string {
    [ESC, '['] + DigitsOf(code) + "m"
  }

  lemma ColorReads(st: Style, code: nat)
    requires 30 <= code <= 37 && st.(fg := None) == CLEAR
    ensures ApplyAnsi(st, ColorCode(code)) == Colored(code)
  {
    hide SgrParams, ParseOsc8Hyperlink, CodeAt, ApplyParams, DigitsOf;
    BasicColorSound(38, code);
    DigitsReadBack(code);
    SgrCodeReads(DigitsOf(code));
    SplitPlain(DigitsOf(code), ';');
    ColorApplies(st, 38, DigitsOf(code), []);
    assert SplitOn(DigitsOf(code), ';') + [] == SplitOn(DigitsOf(code), ';');
    NoMoreParams(SetColor(st, Some(38), DigitsOf(code)));
    ColorNotZero(38, DigitsOf(code));
  }

  lemma NoMoreParams(st: Style)
    ensures ApplyParams(st, []) == st
  {
  }

  /** It can matter: red, one column, green, and a slice from column one shows red. */
  lemma SliceMisordersCodes()
    ensures var x, y := Glyph("x", 1, false, false), Glyph("y", 1, false, false);
      var line := [Code(ColorCode(31)), x, Code(ColorCode(32)), y];
      && MarksIn(line, 4, 1, 2, true) == [Mark(y, Colored(32))]
      && Read(CLEAR, SliceAt(line, 4, 1, 2, true).text) == [Mark(y, Colored(31))]
  {
    hide ApplyAnsi, ColorCode, Colored;
    var red, green := Code(ColorCode(31)), Code(ColorCode(32));
    var x, y := Glyph("x", 1, false, false), Glyph("y", 1, false, false);
    SliceOfFour(red, x, green, y);
    ColorsRead();
  }

  lemma ColorsRead()
    ensures ApplyAnsi(ApplyAnsi(CLEAR, ColorCode(31)), ColorCode(32)) == Colored(32)
    ensures ApplyAnsi(ApplyAnsi(CLEAR, ColorCode(32)), ColorCode(31)) == Colored(31)
  {
    hide ApplyAnsi, ColorCode;
    ColorReads(CLEAR, 31);
    ColorReads(CLEAR, 32);
    ColorReads(Colored(31), 32);
    ColorReads(Colored(32), 31);
  }

  lemma SliceOfFour(a: Atom, x: Atom, b: Atom, y: Atom)
    requires a.Code? && b.Code? && x.Glyph? && x.width == 1 && y.Glyph? && y.width == 1
    ensures var line := [a, x, b, y];
      && MarksIn(line, 4, 1, 2, true) == [Mark(y, ApplyAnsi(ApplyAnsi(CLEAR, a.code), b.code))]
      && Read(CLEAR, SliceAt(line, 4, 1, 2, true).text) == [Mark(y, ApplyAnsi(ApplyAnsi(CLEAR, b.code), a.code))]
  {
    hide ApplyAnsi;
    var line := [a, x, b, y];
    FourColumns(a, x, b, y);
    assert SliceAt(line, 1, 1, 2, true) == Slicer([], 0, 0, [a], false);
    assert SliceAt(line, 2, 1, 2, true) == Slicer([], 0, 1, [a], false);
    assert SliceAt(line, 3, 1, 2, true) == Slicer([b], 0, 1, [a], false);
    assert SliceAt(line, 4, 1, 2, true).text == [b, a] + [y];
    assert MarksIn(line, 1, 1, 2, true) == [] && MarksIn(line, 2, 1, 2, true) == [];
    assert MarksIn(line, 3, 1, 2, true) == [];
    ReadSnoc([b, a], y);
    CodesReadNothing(CLEAR, [b, a]);
    TwoAtoms(b, a, CLEAR);
  }

  lemma FourColumns(a: Atom, x: Atom, b: Atom, y: Atom)
    requires a.Code? && b.Code? && x.Glyph? && x.width == 1 && y.Glyph? && y.width == 1
    ensures var line := [a, x, b, y];
      && ColumnAt(line, 0) == 0 && ColumnAt(line, 1) == 0 && ColumnAt(line, 2) == 1 && ColumnAt(line, 3) == 1
      && StyleAt(line, 3) == ApplyAnsi(ApplyAnsi(CLEAR, a.code), b.code)
  {
    hide ApplyAnsi;
    var line := [a, x, b, y];
    WidthSnoc(line, 0);
    WidthSnoc(line, 1);
    WidthSnoc(line, 2);
    StyleSnoc(line, 0);
    StyleSnoc(line, 1);
    StyleSnoc(line, 2);
    assert line[..0] == [];
  }

  // ----- the two sides of an overlay -----

  datatype Segments = Segments(before: Text, beforeWidth: nat, after: Text, afterWidth: nat, col: nat, pending: Text,
                               style: Style, started: bool, done: bool)

  /** Where the sides end and begin: columns before `beforeEnd`, and from `afterStart` up to `afterEnd`. */
  datatype Window = Window(beforeEnd: int, afterStart: int, afterEnd: int, strict: bool)

  predicate SegmentsDone(col: nat, w: Window) {
    if w.afterEnd <= w.afterStart then col >= w.beforeEnd else col >= w.afterEnd
  }

  function SegmentStep(s: Segments, a: Atom, w: Window): Segments {
    if s.done then s
    else if a.Code? then
      var t := s.(style := ApplyAnsi(s.style, a.code));
      if s.col < w.beforeEnd then t.(pending := s.pending + [a])
      else if w.afterStart <= s.col < w.afterEnd && s.started then t.(after := s.after + [a])
      else t
    else
      var t :=
        if s.col < w.beforeEnd then
          s.(before := s.before + s.pending + [a], beforeWidth := s.beforeWidth + a.width, pending := [])
        else if w.afterStart <= s.col < w.afterEnd && (!w.strict || s.col + a.width <= w.afterEnd) then
          s.(after := (if s.started then s.after else s.after + ActiveAtoms(s.style)) + [a],
             afterWidth := s.afterWidth + a.width, started := true)
        else s;
      t.(col := s.col + a.width, done := SegmentsDone(s.col + a.width, w))
  }

  function SegmentsAt(line: Text, n: nat, w: Window): Segments
    requires n <= |line|
  {
    if n == 0 then Segments([], 0, [], 0, 0, [], CLEAR, false, false)
    else SegmentStep(SegmentsAt(line, n - 1, w), line[n - 1], w)
  }

  lemma {:induction false} SegmentsStop(line: Text, i: nat, w: Window)
    requires i <= |line| && SegmentsAt(line, i, w).done
    ensures SegmentsAt(line, |line|, w) == SegmentsAt(line, i, w)
    decreases |line| - i
  {
    hide ApplyAnsi;
    if i < |line| { SegmentsStop(line, i + 1, w); }
  }

  lemma NoSegments(line: Text, w: Window)
    ensures SegmentsAt(line, 0, w) == Segments([], 0, [], 0, 0, [], CLEAR, false, false)
  {
  }

  lemma SegmentsNext(line: Text, i: nat, w: Window)
    requires i < |line|
    ensures SegmentsAt(line, i + 1, w) == SegmentStep(SegmentsAt(line, i, w), line[i], w)
  {
  }

  method ExtractSegments(line: Text, w: Window, pooledStyleTracker: AnsiCodeTracker)
    returns (before: Text, beforeWidth: nat, after: Text, afterWidth: nat)
    modifies pooledStyleTracker
    ensures var s := SegmentsAt(line, |line|, w);
      before == s.before && beforeWidth == s.beforeWidth && after == s.after && afterWidth == s.afterWidth
  {
    hide ApplyAnsi, ActiveAtoms, SegmentsAt;
    before, beforeWidth, after, afterWidth := [], 0, [], 0;
    var currentCol: nat, i := 0, 0;
    var pendingAnsiBefore: Text := [];
    var afterStarted := false;
    pooledStyleTracker.Clear();
    NoSegments(line, w);
    while i < |line|
      invariant 0 <= i <= |line|
      invariant SegmentsAt(line, i, w) ==
                Segments(before, beforeWidth, after, afterWidth, currentCol, pendingAnsiBefore,
                         pooledStyleTracker.View(), afterStarted, false)
    {
      var a := line[i];
      SegmentsNext(line, i, w);
      if a.Code? {
        pooledStyleTracker.Process(a.code);
        if currentCol < w.beforeEnd {
          pendingAnsiBefore := pendingAnsiBefore + [a];
        } else if currentCol >= w.afterStart && currentCol < w.afterEnd && afterStarted {
          after := after + [a];
        }
      } else {
        if currentCol < w.beforeEnd {
          before := before + pendingAnsiBefore + [a];
          pendingAnsiBefore := [];
          beforeWidth := beforeWidth + a.width;
        } else if currentCol >= w.afterStart && currentCol < w.afterEnd {
          var fits := !w.strict || currentCol + a.width <= w.afterEnd;
          if fits {
            if !afterStarted {
              after := after + ActiveAtoms(pooledStyleTracker.View());
              afterStarted := true;
            }
            after := after + [a];
            afterWidth := afterWidth + a.width;
          }
        }
        currentCol := currentCol + a.width;
        if SegmentsDone(currentCol, w) {
          SegmentsStop(line, i + 1, w);
          break;
        }
      }
      i := i + 1;
    }
  }

  /** What the segments are worth while the walk goes on. */
  ghost predicate SegmentsFaithful(line: Text, n: nat, w: Window, s: Segments)
    requires n <= |line|
  {
    && Read(CLEAR, s.before) == MarksIn(line, n, 0, w.beforeEnd, false)
    && Read(CLEAR, s.after) == MarksIn(line, n, w.afterStart, w.afterEnd, w.strict)
    && s.beforeWidth == TextWidth(s.before) && s.afterWidth == TextWidth(s.after)
    && (s.afterWidth == 0 ||
        (s.afterWidth + w.afterStart <= s.col && (w.strict ==> s.afterWidth + w.afterStart <= w.afterEnd)))
    && (!s.started ==> s.after == []) && (forall a :: a in s.pending ==> a.Code?)
    && if s.done then exists i :: 0 <= i <= n && SegmentsDone(ColumnAt(line, i), w) && w.beforeEnd <= ColumnAt(line, i)
       else
         && s.col == ColumnAt(line, n) && s.style == StyleAt(line, n) && Sound(s.style)
         && (s.col < w.beforeEnd ==> s.before + s.pending == line[..n])
         && (s.started ==> w.afterStart <= s.col < w.afterEnd && StyleAfter(CLEAR, s.after) == s.style)
  }

  lemma SegmentsStart(line: Text, w: Window)
    ensures SegmentsFaithful(line, 0, w, SegmentsAt(line, 0, w))
  {
    hide ApplyAnsi;
    SliceNothing(line);
    assert line[..0] + line[..0] == line[..0];
  }

  /** Once the walk is over, nothing more is asked of it. */
  lemma FaithfulWhenDone(line: Text, i: nat, w: Window, s: Segments)
    requires i < |line| && s.done && SegmentsFaithful(line, i, w, s)
    requires w.beforeEnd <= w.afterStart
    ensures SegmentsFaithful(line, i + 1, w, s)
  {
    hide Read, TextWidth, StyleAfter;
    var j :| 0 <= j <= i && SegmentsDone(ColumnAt(line, j), w) && w.beforeEnd <= ColumnAt(line, j);
    MarksEnd(line, j, i, 0, w.beforeEnd, false);
    MarksEnd(line, j, i + 1, 0, w.beforeEnd, false);
    assert 0 <= j <= i + 1;
    if w.afterStart < w.afterEnd {
      MarksEnd(line, j, i, w.afterStart, w.afterEnd, w.strict);
      MarksEnd(line, j, i + 1, w.afterStart, w.afterEnd, w.strict);
    }
  }

  lemma FaithfulCode(line: Text, i: nat, w: Window, s: Segments)
    requires i < |line| && !s.done && line[i].Code? && IsCode(line[i].code) && SegmentsFaithful(line, i, w, s)
    requires w.beforeEnd <= w.afterStart
    ensures SegmentsFaithful(line, i + 1, w, SegmentStep(s, line[i], w))
  {
    hide ApplyAnsi, TextWidth, StyleAfter, Read, Sound, IsCode;
    var a := line[i];
    ApplyAnsiSound(s.style, a.code);
    StyleSnoc(line, i);
    WidthSnoc(line, i);
    ReadSnoc(s.after, a);
    WidthConcat(s.after, [a]);
    CodesHaveNoWidth([a]);
    assert line[..i + 1] == line[..i] + [a];
    assert s.before + (s.pending + [a]) == s.before + s.pending + [a];
    assert MarksIn(line, i + 1, 0, w.beforeEnd, false) == MarksIn(line, i, 0, w.beforeEnd, false);
    assert MarksIn(line, i + 1, w.afterStart, w.afterEnd, w.strict) ==
           MarksIn(line, i, w.afterStart, w.afterEnd, w.strict);
  }

  /** A grapheme before the overlay. */
  lemma FaithfulBefore(line: Text, i: nat, w: Window, s: Segments)
    requires i < |line| && !s.done && line[i].Glyph? && SegmentsFaithful(line, i, w, s) && s.col < w.beforeEnd
    requires w.beforeEnd <= w.afterStart
    ensures SegmentsFaithful(line, i + 1, w, SegmentStep(s, line[i], w))
  {
    hide ApplyAnsi, TextWidth, StyleAfter, Read, Sound;
    var a := line[i];
    var t := SegmentStep(s, a, w);
    StyleSnoc(line, i);
    WidthSnoc(line, i);
    assert line[..i + 1] == line[..i] + [a];
    assert t.before == line[..i + 1];
    BeforeWidth(s.before, s.pending, a, line, i);
    CodesHaveNoWidth(s.pending);
    SliceNothing(line);
    AllBefore(line, i, w);
    assert t.before + t.pending == line[..i + 1];
    assert MarksIn(line, i + 1, w.afterStart, w.afterEnd, w.strict) ==
           MarksIn(line, i, w.afterStart, w.afterEnd, w.strict);
    assert t.done ==> 0 <= i + 1 && SegmentsDone(ColumnAt(line, i + 1), w);
  }

  /** While the walk is before the overlay, everything so far is before it. */
  lemma {:induction false} AllBefore(line: Text, i: nat, w: Window)
    requires i < |line| && ColumnAt(line, i) < w.beforeEnd
    ensures MarksIn(line, i, 0, w.beforeEnd, false) == Read(CLEAR, line[..i])
    ensures MarksIn(line, i + 1, 0, w.beforeEnd, false) == Read(CLEAR, line[..i + 1])
    decreases i
  {
    hide ApplyAnsi, TextWidth, StyleAfter, Read;
    StyleSnoc(line, i);
    if i == 0 {
      SliceNothing(line);
    } else {
      WidthGrows(line, i - 1, i);
      AllBefore(line, i - 1, w);
    }
  }

  lemma BeforeWidth(before: Text, pending: Text, a: Atom, line: Text, i: nat)
    requires i < |line| && line[i] == a && a.Glyph? && before + pending == line[..i]
    ensures TextWidth(before + pending + [a]) == TextWidth(line[..i]) + a.width
    ensures TextWidth(before) + TextWidth(pending) == TextWidth(line[..i])
  {
    WidthConcat(before, pending);
    WidthConcat(before + pending, [a]);
    assert [a][1..] == [];
  }

  /** A grapheme at or behind the overlay's first column. */
  lemma FaithfulAfter(line: Text, i: nat, w: Window, s: Segments)
    requires i < |line| && !s.done && line[i].Glyph? && SegmentsFaithful(line, i, w, s) && s.col >= w.beforeEnd
    requires w.beforeEnd <= w.afterStart
    ensures SegmentsFaithful(line, i + 1, w, SegmentStep(s, line[i], w))
  {
    hide ApplyAnsi, TextWidth, StyleAfter, Read, Sound, ActiveAtoms;
    var a := line[i];
    var t := SegmentStep(s, a, w);
    StyleSnoc(line, i);
    WidthSnoc(line, i);
    SliceNothing(line);
    assert MarksIn(line, i + 1, 0, w.beforeEnd, false) == MarksIn(line, i, 0, w.beforeEnd, false);
    if t.after != s.after { AfterCarries(s, a); }
    assert t.done ==> 0 <= i + 1 && SegmentsDone(ColumnAt(line, i + 1), w);
  }

  /** The first grapheme after the overlay comes with the style it has in the line. */
  lemma AfterCarries(s: Segments, a: Atom)
    requires a.Glyph? && Sound(s.style) && (s.started ==> StyleAfter(CLEAR, s.after) == s.style)
    requires !s.started ==> s.after == []
    ensures var after := (if s.started then s.after else s.after + ActiveAtoms(s.style)) + [a];
      && Read(CLEAR, after) == Read(CLEAR, s.after) + [Mark(a, s.style)]
      && StyleAfter(CLEAR, after) == s.style && TextWidth(after) == TextWidth(s.after) + a.width
  {
    hide ApplyAnsi, Sound, ActiveAtoms, StyleAfter, TextWidth;
    var start := if s.started then s.after else ActiveAtoms(s.style);
    ReadSnoc(start, a);
    WidthConcat(start, [a]);
    OneWide(a);
    if !s.started {
      ActiveResumes(s.style, []);
      assert ActiveAtoms(s.style) + [] == ActiveAtoms(s.style) && [] + ActiveAtoms(s.style) == ActiveAtoms(s.style);
      ActiveHasNoWidth(s.style);
      NothingRead(s.style);
    }
  }

  lemma OneWide(a: Atom)
    ensures TextWidth([a]) == if a.Glyph? then a.width else 0
  {
    assert [a][1..] == [];
  }

  lemma NothingRead(st: Style)
    ensures Read(st, []) == [] && StyleAfter(st, []) == st && TextWidth([]) == 0
  {
  }

  lemma {:induction false} SegmentsAreFaithful(line: Text, n: nat, w: Window)
    requires n <= |line| && WellFormed(line) && w.beforeEnd <= w.afterStart
    ensures SegmentsFaithful(line, n, w, SegmentsAt(line, n, w))
    decreases n
  {
    hide SegmentsFaithful, SegmentStep, IsCode;
    if n == 0 {
      SegmentsStart(line, w);
    } else {
      var i := n - 1;
      SegmentsAreFaithful(line, i, w);
      var s := SegmentsAt(line, i, w);
      assert line[i] in line;
      if s.done {
        StepWhenDone(s, line[i], w);
        FaithfulWhenDone(line, i, w, s);
      } else if line[i].Code? {
        FaithfulCode(line, i, w, s);
      } else if s.col < w.beforeEnd {
        FaithfulBefore(line, i, w, s);
      } else {
        FaithfulAfter(line, i, w, s);
      }
    }
  }

  lemma StepWhenDone(s: Segments, a: Atom, w: Window)
    requires s.done
    ensures SegmentStep(s, a, w) == s
  {
  }

  /** Both sides show their graphemes as the line does, each read from a cleared style; what comes after the
      overlay stays within its columns. */
  lemma SegmentsRead(line: Text, w: Window)
    requires WellFormed(line) && w.beforeEnd <= w.afterStart
    ensures var s := SegmentsAt(line, |line|, w);
      && Read(CLEAR, s.before) == MarksIn(line, |line|, 0, w.beforeEnd, false)
      && Read(CLEAR, s.after) == MarksIn(line, |line|, w.afterStart, w.afterEnd, w.strict)
      && s.beforeWidth == TextWidth(s.before) && s.afterWidth == TextWidth(s.after)
      && (w.strict ==> s.afterWidth <= if w.afterStart < w.afterEnd then w.afterEnd - w.afterStart else 0)
  {
    SegmentsAreFaithful(line, |line|, w);
  }

  // ----- an overlay in its line -----

  const SEGMENT_RESET: Text := [SGR_RESET, Code([ESC] + "]8;;" + [BEL])]

  lemma ResetsClear(st: Style)
    ensures StyleAfter(st, SEGMENT_RESET) == CLEAR && Read(st, SEGMENT_RESET) == [] && TextWidth(SEGMENT_RESET) == 0
  {
    hide ApplyAnsi;
    SgrResetClears(st);
    LinkCloses(ResetSgr(st), Bel);
    assert FormatClose(Bel) == [ESC] + "]8;;" + [BEL];
    TwoAtoms(SEGMENT_RESET[0], SEGMENT_RESET[1], st);
    CodesReadNothing(st, SEGMENT_RESET);
    CodesHaveNoWidth(SEGMENT_RESET);
  }

  function OverlayText(overlay: Text, overlayWidth: int): Text {
    if overlayWidth <= 0 then [] else SliceAt(overlay, |overlay|, 0, overlayWidth, true).text
  }

  function OverlayWindow(startCol: int, overlayWidth: int, totalWidth: int): Window {
    Window(startCol, startCol + overlayWidth, totalWidth, true)
  }

  function Max(a: int, b: int): int {
    if a < b then b else a
  }

  /** The room left for what comes after the overlay. */
  function AfterTarget(s: Segments, shown: Text, startCol: int, overlayWidth: int, totalWidth: int): int {
    Max(0, totalWidth - Max(startCol, s.beforeWidth) - Max(overlayWidth, TextWidth(shown)))
  }

  /** Three parts, each padded with blanks, the first two closed with resets. */
  function Parts(a: Text, roomA: int, b: Text, roomB: int, c: Text, roomC: int): Text {
    (a + Blanks(roomA) + SEGMENT_RESET) + (b + Blanks(roomB) + SEGMENT_RESET) + (c + Blanks(roomC))
  }

  /** The line with the overlay in it, before the last check of its width. */
  function Laid(base: Text, overlay: Text, startCol: int, overlayWidth: int, totalWidth: int): Text {
    var s := SegmentsAt(base, |base|, OverlayWindow(startCol, overlayWidth, totalWidth));
    var shown := OverlayText(overlay, overlayWidth);
    Parts(s.before, startCol - s.beforeWidth, shown, overlayWidth - TextWidth(shown),
          s.after, AfterTarget(s, shown, startCol, overlayWidth, totalWidth) - s.afterWidth)
  }

  function Composite(base: Text, overlay: Text, startCol: int, overlayWidth: int, totalWidth: int): Text {
    var laid := Laid(base, overlay, startCol, overlayWidth, totalWidth);
    if TextWidth(laid) <= totalWidth then laid else OverlayText(laid, totalWidth)
  }

  method CompositeLineAt(baseLine: Text, isImage: bool, overlayLine: Text, startCol: int, overlayWidth: int,
                         totalWidth: int, pooledStyleTracker: AnsiCodeTracker) returns (result: Text)
    requires WellFormed(baseLine) && overlayWidth >= 0
    modifies pooledStyleTracker
    ensures result == if isImage then baseLine else Composite(baseLine, overlayLine, startCol, overlayWidth, totalWidth)
    ensures !isImage ==> TextWidth(result) <= Max(0, totalWidth)
  {
    hide SegmentsAt, SliceAt, TextWidth, WellFormed, Blanks;
    if isImage {
      return baseLine;
    }
    var afterStart := startCol + overlayWidth;
    var before, beforeWidth, after, afterWidth :=
      ExtractSegments(baseLine, Window(startCol, afterStart, afterStart + (totalWidth - afterStart), true),
                      pooledStyleTracker);
    var overlayText, shownWidth := SliceWithWidth(overlayLine, 0, overlayWidth, true);
    OverlayFits(overlayLine, overlayWidth);
    var actualBeforeWidth := Max(startCol, beforeWidth);
    var actualOverlayWidth := Max(overlayWidth, shownWidth);
    var afterTarget := Max(0, totalWidth - actualBeforeWidth - actualOverlayWidth);
    result := (before + Blanks(startCol - beforeWidth) + SEGMENT_RESET)
      + (overlayText + Blanks(overlayWidth - shownWidth) + SEGMENT_RESET)
      + (after + Blanks(afterTarget - afterWidth));
    CompositeFits(baseLine, overlayLine, startCol, overlayWidth, totalWidth);
    if TextWidth(result) > totalWidth {
      var sliced, _ := SliceWithWidth(result, 0, totalWidth, true);
      result := sliced;
    }
  }

  /** A strict slice from the first column is no wider than asked. */
  lemma OverlayFits(overlay: Text, width: int)
    ensures TextWidth(OverlayText(overlay, width)) <= Max(0, width)
    ensures width > 0 ==> SliceAt(overlay, |overlay|, 0, width, true).width == TextWidth(OverlayText(overlay, width))
    ensures width <= 0 ==> OverlayText(overlay, width) == [] && TextWidth([]) == 0
  {
    hide SliceAt;
    if width > 0 { SliceShows(overlay, |overlay|, 0, width, true); }
  }

  /** It also shows the line as it is. */
  lemma OverlayReads(overlay: Text, width: int)
    requires width > 0
    ensures Read(CLEAR, OverlayText(overlay, width)) == MarksIn(overlay, |overlay|, 0, width, true)
  {
    PrefixReads(overlay, width, true);
  }

  /** A composed line never overflows the terminal. */
  lemma CompositeFits(base: Text, overlay: Text, startCol: int, overlayWidth: int, totalWidth: int)
    ensures TextWidth(Composite(base, overlay, startCol, overlayWidth, totalWidth)) <= Max(0, totalWidth)
  {
    hide Laid, OverlayText;
    OverlayFits(Laid(base, overlay, startCol, overlayWidth, totalWidth), totalWidth);
  }

  lemma PartsWidth(a: Text, roomA: int, b: Text, roomB: int, c: Text, roomC: int)
    ensures TextWidth(Parts(a, roomA, b, roomB, c, roomC)) ==
            TextWidth(a) + Max(0, roomA) + (TextWidth(b) + Max(0, roomB)) + (TextWidth(c) + Max(0, roomC))
  {
    hide TextWidth, Blanks;
    ResetsClear(CLEAR);
    PartWidth(a, roomA, SEGMENT_RESET);
    PartWidth(b, roomB, SEGMENT_RESET);
    BlanksWidth(roomC);
    WidthConcat(c, Blanks(roomC));
    var x, y := a + Blanks(roomA) + SEGMENT_RESET, b + Blanks(roomB) + SEGMENT_RESET;
    WidthConcat(x + y, c + Blanks(roomC));
    WidthConcat(x, y);
  }

  lemma LaidWidth(base: Text, overlay: Text, startCol: int, overlayWidth: int, totalWidth: int)
    requires WellFormed(base) && overlayWidth >= 0
    ensures var s := SegmentsAt(base, |base|, OverlayWindow(startCol, overlayWidth, totalWidth));
      TextWidth(Laid(base, overlay, startCol, overlayWidth, totalWidth)) ==
      Max(startCol, s.beforeWidth) + overlayWidth
      + Max(s.afterWidth, AfterTarget(s, OverlayText(overlay, overlayWidth), startCol, overlayWidth, totalWidth))
  {
    hide TextWidth, SegmentsAt, OverlayText, WellFormed, Read, MarksIn, Parts, AfterTarget;
    var s := SegmentsAt(base, |base|, OverlayWindow(startCol, overlayWidth, totalWidth));
    var shown := OverlayText(overlay, overlayWidth);
    SegmentsRead(base, OverlayWindow(startCol, overlayWidth, totalWidth));
    OverlayFits(overlay, overlayWidth);
    PartsWidth(s.before, startCol - s.beforeWidth, shown, overlayWidth - TextWidth(shown), s.after,
               AfterTarget(s, shown, startCol, overlayWidth, totalWidth) - s.afterWidth);
  }

  lemma PartWidth(text: Text, room: int, end: Text)
    ensures TextWidth(text + Blanks(room) + end) == TextWidth(text) + Max(0, room) + TextWidth(end)
  {
    WidthConcat(text + Blanks(room), end);
    WidthConcat(text, Blanks(room));
    BlanksWidth(room);
  }

  /** No grapheme among the first `n` atoms begins before a column and ends behind it. */
  predicate NoneStraddles(line: Text, n: nat, col: int)
    requires n <= |line|
  {
    forall i :: 0 <= i < n && line[i].Glyph? && ColumnAt(line, i) < col ==> ColumnAt(line, i) + line[i].width <= col
  }

  /** What comes before the overlay stays before it exactly if no grapheme straddles its first column. */
  lemma {:induction false} BeforeEnds(line: Text, n: nat, w: Window)
    requires n <= |line| && WellFormed(line) && 0 <= w.beforeEnd <= w.afterStart
    ensures SegmentsAt(line, n, w).beforeWidth <= w.beforeEnd <==> NoneStraddles(line, n, w.beforeEnd)
    decreases n
  {
    hide ApplyAnsi, TextWidth, WellFormed, Read, MarksIn, StyleAfter, Sound;
    if n > 0 {
      var i := n - 1;
      BeforeEnds(line, i, w);
      SegmentsAreFaithful(line, i, w);
      WidthSnoc(line, i);
      var s := SegmentsAt(line, i, w);
      if s.done {
        var j :| 0 <= j <= i && SegmentsDone(ColumnAt(line, j), w) && w.beforeEnd <= ColumnAt(line, j);
        WidthGrows(line, j, i);
      } else if s.col < w.beforeEnd {
        BeforeWidths(s.before, s.pending, line[..i]);
      }
    }
  }

  lemma BeforeWidths(before: Text, pending: Text, all: Text)
    requires before + pending == all && forall a :: a in pending ==> a.Code?
    ensures TextWidth(before) == TextWidth(all)
  {
    WidthConcat(before, pending);
    CodesHaveNoWidth(pending);
  }

  /** Where no wide grapheme of the base line straddles the overlay's first column, the composed line is exactly
      as wide as the terminal, and nothing is cut off. */
  lemma CompositeFills(base: Text, overlay: Text, startCol: int, overlayWidth: int, totalWidth: int)
    requires WellFormed(base) && 0 <= startCol && 0 <= overlayWidth && startCol + overlayWidth <= totalWidth
    requires NoneStraddles(base, |base|, startCol)
    ensures Composite(base, overlay, startCol, overlayWidth, totalWidth) ==
            Laid(base, overlay, startCol, overlayWidth, totalWidth)
    ensures TextWidth(Composite(base, overlay, startCol, overlayWidth, totalWidth)) == totalWidth
  {
    hide TextWidth, SegmentsAt, OverlayText, WellFormed, Read, Laid, NoneStraddles;
    BeforeEnds(base, |base|, OverlayWindow(startCol, overlayWidth, totalWidth));
    SegmentsRead(base, OverlayWindow(startCol, overlayWidth, totalWidth));
    OverlayFits(overlay, overlayWidth);
    LaidWidth(base, overlay, startCol, overlayWidth, totalWidth);
  }

  function BlankMarks(n: int, st: Style): seq<Mark> {
    seq(if n > 0 then n else 0, i => Mark(BLANK, st))
  }

  /** Laying an overlay keeps the looks of both: the base line's graphemes on either side of it, and the overlay's
      own between, each in the style of its own line, with blanks where a side falls short. */
  lemma LaidReads(base: Text, overlay: Text, startCol: int, overlayWidth: int, totalWidth: int)
    requires WellFormed(base) && overlayWidth > 0
    ensures var w := OverlayWindow(startCol, overlayWidth, totalWidth);
      var s, shown := SegmentsAt(base, |base|, w), OverlayText(overlay, overlayWidth);
      Read(CLEAR, Laid(base, overlay, startCol, overlayWidth, totalWidth)) ==
        PaddedMarks(MarksIn(base, |base|, 0, startCol, false), startCol - s.beforeWidth, StyleAfter(CLEAR, s.before))
        + PaddedMarks(MarksIn(overlay, |overlay|, 0, overlayWidth, true),
                      overlayWidth - TextWidth(shown), StyleAfter(CLEAR, shown))
        + PaddedMarks(MarksIn(base, |base|, startCol + overlayWidth, totalWidth, true),
                      AfterTarget(s, shown, startCol, overlayWidth, totalWidth) - s.afterWidth,
                      StyleAfter(CLEAR, s.after))
  {
    hide *;
    var w := OverlayWindow(startCol, overlayWidth, totalWidth);
    var s, shown := SegmentsAt(base, |base|, w), OverlayText(overlay, overlayWidth);
    var room := AfterTarget(s, shown, startCol, overlayWidth, totalWidth) - s.afterWidth;
    LaidIs(base, overlay, startCol, overlayWidth, totalWidth);
    SidesRead(base, startCol, overlayWidth, totalWidth);
    OverlayReads(overlay, overlayWidth);
    PartsRead(s.before, startCol - s.beforeWidth, shown, overlayWidth - TextWidth(shown), s.after, room);
  }

  /** So does the composed line, where no grapheme straddles the overlay's first column; else it may lose its end. */
  lemma CompositeReads(base: Text, overlay: Text, startCol: int, overlayWidth: int, totalWidth: int)
    requires WellFormed(base) && 0 <= startCol && 0 < overlayWidth && startCol + overlayWidth <= totalWidth
    ensures var laid := Laid(base, overlay, startCol, overlayWidth, totalWidth);
      Read(CLEAR, Composite(base, overlay, startCol, overlayWidth, totalWidth)) ==
        if NoneStraddles(base, |base|, startCol) || TextWidth(laid) <= totalWidth then Read(CLEAR, laid)
        else MarksIn(laid, |laid|, 0, totalWidth, true)
  {
    hide Laid, NoneStraddles, Read, WellFormed, MarksIn, OverlayText;
    OverlayReads(Laid(base, overlay, startCol, overlayWidth, totalWidth), totalWidth);
    if NoneStraddles(base, |base|, startCol) {
      CompositeFills(base, overlay, startCol, overlayWidth, totalWidth);
    }
  }

  lemma LaidIs(base: Text, overlay: Text, startCol: int, overlayWidth: int, totalWidth: int)
    ensures var s := SegmentsAt(base, |base|, OverlayWindow(startCol, overlayWidth, totalWidth));
      var shown := OverlayText(overlay, overlayWidth);
      Laid(base, overlay, startCol, overlayWidth, totalWidth) ==
        Parts(s.before, startCol - s.beforeWidth, shown, overlayWidth - TextWidth(shown), s.after,
              AfterTarget(s, shown, startCol, overlayWidth, totalWidth) - s.afterWidth)
  {
    hide Parts, SegmentsAt, OverlayText, AfterTarget, TextWidth;
  }

  lemma SidesRead(base: Text, startCol: int, overlayWidth: int, totalWidth: int)
    requires WellFormed(base) && overlayWidth >= 0
    ensures var s := SegmentsAt(base, |base|, OverlayWindow(startCol, overlayWidth, totalWidth));
      && Read(CLEAR, s.before) == MarksIn(base, |base|, 0, startCol, false)
      && Read(CLEAR, s.after) == MarksIn(base, |base|, startCol + overlayWidth, totalWidth, true)
  {
    hide SegmentsAt, WellFormed, Read, MarksIn, TextWidth;
    SegmentsRead(base, OverlayWindow(startCol, overlayWidth, totalWidth));
  }

  /** Something shown, and blanks in the style it leaves behind. */
  function PaddedMarks(shown: seq<Mark>, room: int, st: Style): seq<Mark> {
    shown + BlankMarks(room, st)
  }

  lemma PartsRead(a: Text, roomA: int, b: Text, roomB: int, c: Text, roomC: int)
    ensures Read(CLEAR, Parts(a, roomA, b, roomB, c, roomC)) ==
            PaddedMarks(Read(CLEAR, a), roomA, StyleAfter(CLEAR, a))
            + PaddedMarks(Read(CLEAR, b), roomB, StyleAfter(CLEAR, b))
            + PaddedMarks(Read(CLEAR, c), roomC, StyleAfter(CLEAR, c))
  {
    hide TextWidth, Read, StyleAfter, Blanks, BlankMarks;
    PartReads(a, roomA);
    PartReads(b, roomB);
    BlanksRead(c, roomC);
    ReadThree(CLEAR, a + Blanks(roomA) + SEGMENT_RESET, b + Blanks(roomB) + SEGMENT_RESET, c + Blanks(roomC));
  }

  lemma {:induction false} BlanksRead(text: Text, n: int)
    ensures Read(CLEAR, text + Blanks(n)) == Read(CLEAR, text) + BlankMarks(n, StyleAfter(CLEAR, text))
    ensures StyleAfter(CLEAR, text + Blanks(n)) == StyleAfter(CLEAR, text)
    decreases if n > 0 then n else 0
  {
    hide ApplyAnsi, Read, StyleAfter;
    if n > 0 {
      BlanksRead(text, n - 1);
      assert text + Blanks(n) == text + Blanks(n - 1) + [BLANK];
      ReadSnoc(text + Blanks(n - 1), BLANK);
      assert BlankMarks(n, StyleAfter(CLEAR, text)) ==
             BlankMarks(n - 1, StyleAfter(CLEAR, text)) + [Mark(BLANK, StyleAfter(CLEAR, text))];
    } else {
      assert text + Blanks(n) == text;
    }
  }

  lemma PartReads(text: Text, room: int)
    ensures Read(CLEAR, text + Blanks(room) + SEGMENT_RESET) ==
            Read(CLEAR, text) + BlankMarks(room, StyleAfter(CLEAR, text))
    ensures StyleAfter(CLEAR, text + Blanks(room) + SEGMENT_RESET) == CLEAR
  {
    hide Read, StyleAfter, TextWidth, Blanks, BlankMarks;
    BlanksRead(text, room);
    ReadConcat(CLEAR, text + Blanks(room), SEGMENT_RESET);
    ResetsClear(StyleAfter(CLEAR, text + Blanks(room)));
  }
}
