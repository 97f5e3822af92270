/** Which wrapped lines fit the width. */
module WrapWidth {
  import opened Options
  import opened Strings
  import opened AnsiCodes
  import opened StyleRoundTrip
  import opened Wrapping
  import opened WrapMeaning

  predicate GlyphsFit(text: Text, width: nat) {
    forall a :: a in text && a.Glyph? ==> a.width <= width
  }

  predicate LinesFit(lines: seq<Text>, width: nat) {
    forall i :: 0 <= i < |lines| ==> TextWidth(lines[i]) <= width
  }

  // ----- widths -----

  lemma {:induction false} WidthConcat(a: Text, b: Text)
    ensures TextWidth(a + b) == TextWidth(a) + TextWidth(b)
  {
    if a == [] {
      assert a + b == b;
    } else {
      assert (a + b)[1..] == a[1..] + b;
      WidthConcat(a[1..], b);
    }
  }

  lemma {:induction false} CodesHaveNoWidth(text: Text)
    requires forall a :: a in text ==> a.Code?
    ensures TextWidth(text) == 0
  {
    if text != [] {
      assert text[0] in text;
      CodesHaveNoWidth(text[1..]);
    }
  }

  lemma ActiveHasNoWidth(st: Style)
    ensures TextWidth(ActiveAtoms(st)) == 0 && TextWidth(ResetAtoms(st)) == 0
  {
    CodesHaveNoWidth(ActiveAtoms(st));
    CodesHaveNoWidth(ResetAtoms(st));
  }

  lemma {:induction false} TrimNarrows(line: Text)
    ensures TextWidth(TrimEnd(line)) <= TextWidth(line)
    ensures TrimEnd(TrimEnd(line)) == TrimEnd(line)
  {
    if TrimEnd(line) != line {
      var init := line[..|line| - 1];
      WidthConcat(init, [line[|line| - 1]]);
      assert line == init + [line[|line| - 1]];
      TrimNarrows(init);
    }
  }

  lemma {:induction false} TrimWhite(line: Text, token: Text)
    requires IsWhite(token)
    ensures TrimEnd(line + token) == TrimEnd(line)
    decreases |token|
  {
    if token == [] {
      assert line + token == line;
    } else {
      var last := token[|token| - 1];
      assert last in token;
      assert (line + token)[..|line + token| - 1] == line + token[..|token| - 1];
      TrimWhite(line, token[..|token| - 1]);
    }
  }

  /** A line that ends in a code is not trimmed. */
  lemma TrimStopsAtReset(line: Text, st: Style)
    requires ResetAtoms(st) != []
    ensures TrimEnd(line + ResetAtoms(st)) == line + ResetAtoms(st)
    ensures TextWidth(line + ResetAtoms(st)) == TextWidth(line)
  {
    ActiveHasNoWidth(st);
    WidthConcat(line, ResetAtoms(st));
  }

  // ----- breaking a word -----

  ghost predicate BreakFits(b: Breaker, width: nat) {
    LinesFit(b.lines, width) && TextWidth(b.line) == b.width <= width
  }

  lemma BreakStepFits(b: Breaker, a: Atom, width: nat)
    requires BreakFits(b, width) && (a.Glyph? ==> a.width <= width)
    ensures BreakFits(BreakStep(b, a, width), width)
  {
    hide ActiveAtoms, ResetAtoms, ApplyAnsi;
    ActiveHasNoWidth(b.style);
    WidthConcat(b.line, [a]);
    WidthConcat(b.line, ResetAtoms(b.style));
    WidthConcat(ActiveAtoms(b.style), [a]);
    assert TextWidth([a]) == if a.Glyph? then a.width else 0 by { assert [a][1..] == []; }
  }

  lemma {:induction false} BreakFoldFits(b: Breaker, word: Text, width: nat)
    requires BreakFits(b, width) && GlyphsFit(word, width)
    ensures BreakFits(BreakFold(b, word, width), width)
    decreases |word|
  {
    hide BreakStep, BreakFits;
    if word != [] {
      assert word[0] in word;
      BreakStepFits(b, word[0], width);
      BreakFoldFits(BreakStep(b, word[0], width), word[1..], width);
    }
  }

  lemma BreakWordFits(word: Text, width: nat, st: Style)
    requires GlyphsFit(word, width)
    ensures LinesFit(BreakLines(BreakWord(word, width, st)), width)
  {
    hide ActiveAtoms, BreakFold;
    ActiveHasNoWidth(st);
    BreakFoldFits(Breaker([], ActiveAtoms(st), 0, st), word, width);
  }

  // ----- wrapping a line -----

  /** The one way a line comes out too wide: a long word follows a current line that is already too
      wide, and an open underline or hyperlink is closed behind that line's trailing white space. */
  predicate Overflows(w: Wrapper, token: Text, width: nat) {
    IsLong(token, width) && w.line != [] && TextWidth(w.line) > width && ResetAtoms(w.style) != []
  }

  predicate AnyOverflow(w: Wrapper, tokens: seq<Text>, width: nat)
    decreases |tokens|
  {
    tokens != [] && (Overflows(w, tokens[0], width) || AnyOverflow(WrapStep(w, tokens[0], width), tokens[1..], width))
  }

  /** The current line may be too wide only by trailing white space. */
  ghost predicate LineFits(w: Wrapper, width: nat) {
    TextWidth(w.line) == w.width && TextWidth(TrimEnd(w.line)) <= width
  }

  lemma LongStepFits(w: Wrapper, token: Text, width: nat)
    requires LineFits(w, width) && GlyphsFit(token, width) && IsLong(token, width)
    ensures LineFits(WrapStep(w, token, width), width)
    ensures LinesFit(TrimAll(WrapStep(w, token, width).wrapped), width) <==>
            LinesFit(TrimAll(w.wrapped), width) && !Overflows(w, token, width)
  {
    hide ActiveAtoms, ResetAtoms, IsWhite, ApplyAnsi, BreakLines;
    var b := BreakWord(token, width, w.style);
    var broken := BreakLines(b);
    BreakLinesExist(b);
    BreakWordFits(token, width, w.style);
    var init, last := broken[..|broken| - 1], broken[|broken| - 1];
    TrimNarrows(last);
    TrimAllFits(init, width);
    var closed := w.line + ResetAtoms(w.style);
    ClosedLineFits(w, width);
    if w.line != [] {
      FitsConcat(w.wrapped + [closed], init, width);
      FitsConcat(w.wrapped, [closed], width);
    } else {
      FitsConcat(w.wrapped, init, width);
    }
  }

  /** A flushed line fits after trimming, unless it is too wide and a reset stops the trimming. */
  lemma ClosedLineFits(w: Wrapper, width: nat)
    requires LineFits(w, width)
    ensures LinesFit(TrimAll([w.line + ResetAtoms(w.style)]), width) <==>
            TextWidth(w.line) <= width || ResetAtoms(w.style) == []
  {
    hide ResetAtoms;
    var line := w.line + ResetAtoms(w.style);
    assert TrimAll([line]) == [TrimEnd(line)];
    if ResetAtoms(w.style) != [] { TrimStopsAtReset(w.line, w.style); } else { assert line == w.line; }
    assert LinesFit([TrimEnd(line)], width) <==> TextWidth([TrimEnd(line)][0]) <= width;
  }

  lemma TrimAllFits(lines: seq<Text>, width: nat)
    requires LinesFit(lines, width)
    ensures LinesFit(TrimAll(lines), width)
  {
    forall i | 0 <= i < |lines| ensures TextWidth(TrimAll(lines)[i]) <= width {
      TrimNarrows(lines[i]);
    }
  }

  lemma FitsConcat(a: seq<Text>, b: seq<Text>, width: nat)
    ensures LinesFit(TrimAll(a + b), width) <==> LinesFit(TrimAll(a), width) && LinesFit(TrimAll(b), width)
  {
    assert TrimAll(a + b) == TrimAll(a) + TrimAll(b);
    assert forall i :: 0 <= i < |a| ==> TrimAll(a + b)[i] == TrimAll(a)[i];
    assert forall i :: 0 <= i < |b| ==> TrimAll(a + b)[|a| + i] == TrimAll(b)[i];
  }

  lemma WrapStepFits(w: Wrapper, token: Text, width: nat)
    requires LineFits(w, width) && GlyphsFit(token, width)
    ensures LineFits(WrapStep(w, token, width), width)
    ensures LinesFit(TrimAll(WrapStep(w, token, width).wrapped), width) <==>
            LinesFit(TrimAll(w.wrapped), width) && !Overflows(w, token, width)
  {
    hide ActiveAtoms, ResetAtoms, ApplyAnsi, TrimEnd, TrimAll, StyleAfter;
    if IsLong(token, width) {
      LongStepFits(w, token, width);
      return;
    }
    ActiveHasNoWidth(w.style);
    WidthConcat(ActiveAtoms(w.style), token);
    WidthConcat(w.line, token);
    TrimNarrows(w.line);
    TrimNarrows(ActiveAtoms(w.style) + token);
    TrimNarrows(ActiveAtoms(w.style));
    TrimNarrows(w.line + token);
    if IsWhite(token) { TrimWhite(w.line, token); }
    var closed := TrimEnd(w.line) + ResetAtoms(w.style);
    WidthConcat(TrimEnd(w.line), ResetAtoms(w.style));
    FitsConcat(w.wrapped, [closed], width);
    TrimAllFits([closed], width);
  }

  lemma {:induction false} WrapFoldFits(w: Wrapper, tokens: seq<Text>, width: nat)
    requires LineFits(w, width) && GlyphsFit(Concat(tokens), width)
    ensures var r := WrapFold(w, tokens, width);
      LineFits(r, width) &&
      (LinesFit(TrimAll(r.wrapped), width) <==> LinesFit(TrimAll(w.wrapped), width) && !AnyOverflow(w, tokens, width))
    decreases |tokens|
  {
    hide LineFits, WrapStep, Overflows, TrimAll, LinesFit;
    if tokens != [] {
      WrapStepFits(w, tokens[0], width);
      WrapFoldFits(WrapStep(w, tokens[0], width), tokens[1..], width);
    }
  }

  /** A wrapped line of text fits, all its output lines, exactly when no such overflow happens. */
  lemma WrapLineFits(line: Text, width: nat)
    requires GlyphsFit(line, width)
    ensures LinesFit(WrapLine(line, width), width) <==>
            TextWidth(line) <= width || !AnyOverflow(NOTHING_WRAPPED, Tokens(line), width)
  {
    hide Tokens, WrapFold, AnyOverflow, TrimAll;
    if line == [] {
    } else if TextWidth(line) > width {
      TokensConcat(line);
      WrapFoldFits(NOTHING_WRAPPED, Tokens(line), width);
      var w := WrapFold(NOTHING_WRAPPED, Tokens(line), width);
      NoLinesFit(width);
      FitsConcat(w.wrapped, [w.line], width);
      LastLineFits(w, width);
    }
  }

  lemma NoLinesFit(width: nat)
    ensures LinesFit(TrimAll([]), width) && TrimAll([]) == []
  {
  }

  lemma LastLineFits(w: Wrapper, width: nat)
    requires LineFits(w, width)
    ensures LinesFit(TrimAll([w.line]), width)
  {
    assert TrimAll([w.line]) == [TrimEnd(w.line)];
  }

  // ----- wrapping text -----

  /** Some input line, with the style carried into it, overflows. */
  predicate TextOverflows(resumed: bool, st: Style, inputLines: seq<Text>, width: nat)
    decreases |inputLines|
  {
    inputLines != [] &&
    var line := (if resumed then ActiveAtoms(st) else []) + inputLines[0];
    || (TextWidth(line) > width && AnyOverflow(NOTHING_WRAPPED, Tokens(line), width))
    || TextOverflows(true, StyleAfter(st, inputLines[0]), inputLines[1..], width)
  }

  lemma {:induction false} WrapLinesFit(result: seq<Text>, st: Style, inputLines: seq<Text>, width: nat)
    requires forall l :: l in inputLines ==> GlyphsFit(l, width)
    ensures LinesFit(WrapLines(result, st, inputLines, width), width) <==>
            LinesFit(result, width) && !TextOverflows(result != [], st, inputLines, width)
    decreases |inputLines|
  {
    hide WrapLine, AnyOverflow, Tokens, ActiveAtoms, StyleAfter, TextWidth;
    if inputLines != [] {
      var first := inputLines[0];
      assert first in inputLines;
      var line := (if result != [] then ActiveAtoms(st) else []) + first;
      PrefixGlyphsFit(result != [], st, first, width);
      WrapLineFits(line, width);
      WrapLineNonempty(line, width);
      JoinFit(result, WrapLine(line, width), width);
      WrapLinesFit(result + WrapLine(line, width), StyleAfter(st, first), inputLines[1..], width);
    }
  }

  lemma PrefixGlyphsFit(resumed: bool, st: Style, line: Text, width: nat)
    requires GlyphsFit(line, width)
    ensures GlyphsFit((if resumed then ActiveAtoms(st) else []) + line, width)
  {
  }

  lemma JoinFit(a: seq<Text>, b: seq<Text>, width: nat)
    ensures LinesFit(a + b, width) <==> LinesFit(a, width) && LinesFit(b, width)
  {
    assert forall i :: 0 <= i < |a| ==> (a + b)[i] == a[i];
    assert forall i :: 0 <= i < |b| ==> (a + b)[|a| + i] == b[i];
  }

  lemma {:induction false} SplitLinesFit(text: Text, width: nat)
    requires GlyphsFit(text, width)
    ensures forall l :: l in SplitLines(text) ==> GlyphsFit(l, width)
  {
    if text != [] {
      assert text[0] in text;
      SplitLinesFit(text[1..], width);
      var rest := SplitLines(text[1..]);
      assert rest[0] in rest;
      forall l | l in SplitLines(text) ensures GlyphsFit(l, width) {
        assert l == [] || l in rest || (l == [text[0]] + rest[0] && !IsNewline(text[0]));
      }
    }
  }

  /** Every wrapped line is within the width exactly when nothing overflows. */
  lemma WrapTextFits(text: Text, width: nat)
    requires GlyphsFit(text, width)
    ensures LinesFit(WrapText(text, width), width) <==> !TextOverflows(false, CLEAR, SplitLines(text), width)
  {
    hide WrapLines;
    if text == [] {
      assert SplitLines(text)[1..] == [];
    } else {
      SplitLinesFit(text, width);
      WrapLinesFit([], CLEAR, SplitLines(text), width);
    }
  }

  // ----- text that never overflows -----

  /** Every grapheme takes room, and white ones are plain spaces. */
  predicate Plain(text: Text) {
    forall a :: a in text && a.Glyph? ==> a.width > 0 && (a.white <==> IsSpace(a)) && (a.cjk ==> !IsSpace(a))
  }

  predicate HasGlyph(text: Text) {
    exists a :: a in text && a.Glyph?
  }

  predicate Spacey(token: Text) {
    forall a :: a in token && a.Glyph? ==> IsSpace(a)
  }

  predicate Alternating(tokens: seq<Text>) {
    forall i :: 0 < i < |tokens| ==> !(Spacey(tokens[i - 1]) && Spacey(tokens[i]))
  }

  predicate GoodTokens(tokens: seq<Text>) {
    Alternating(tokens) && forall t :: t in tokens ==> Plain(t) && HasGlyph(t)
  }

  ghost predicate GoodTokenizer(t: Tokenizer) {
    && GoodTokens(t.tokens) && Plain(t.current) && (forall a :: a in t.pending ==> a.Code?)
    && (t.current != [] ==>
          && HasGlyph(t.current) && t.kind != NoKind && (Spacey(t.current) <==> t.kind == SpaceKind)
          && (t.tokens != [] ==> !(Spacey(t.tokens[|t.tokens| - 1]) && Spacey(t.current))))
    && (t.current == [] && t.tokens != [] ==> !Spacey(t.tokens[|t.tokens| - 1]))
  }

  lemma GoodAppend(tokens: seq<Text>, token: Text)
    requires GoodTokens(tokens) && Plain(token) && HasGlyph(token)
    requires tokens != [] ==> !(Spacey(tokens[|tokens| - 1]) && Spacey(token))
    ensures GoodTokens(tokens + [token])
  {
  }

  lemma GoodStep(t: Tokenizer, a: Atom)
    requires GoodTokenizer(t) && Plain([a])
    ensures GoodTokenizer(TokenStep(t, a))
  {
    hide GoodTokens;
    assert a in [a];
    if t.current != [] { GoodAppend(t.tokens, t.current); }
    if a.Glyph? {
      var f := FlushCurrent(t);
      if !IsSpace(a) && a.cjk {
        assert a in t.pending + [a];
        GoodAppend(f.tokens, t.pending + [a]);
      } else {
        assert a in TokenStep(t, a).current;
      }
    }
  }

  lemma {:induction false} GoodFold(t: Tokenizer, text: Text)
    requires GoodTokenizer(t) && Plain(text)
    ensures GoodTokenizer(TokenFold(t, text))
    decreases |text|
  {
    hide GoodTokenizer, TokenStep;
    if text != [] {
      assert text[0] in text;
      GoodStep(t, text[0]);
      GoodFold(TokenStep(t, text[0]), text[1..]);
    }
  }

  lemma WithPending(token: Text, pending: Text)
    requires forall a :: a in pending ==> a.Code?
    ensures Spacey(token + pending) <==> Spacey(token)
    ensures HasGlyph(token) ==> HasGlyph(token + pending)
    ensures Plain(token) ==> Plain(token + pending)
  {
    if HasGlyph(token) {
      var a :| a in token && a.Glyph?;
      assert a in token + pending;
    }
    if Spacey(token + pending) {
      forall a | a in token && a.Glyph? ensures IsSpace(a) { assert a in token + pending; }
    }
  }

  lemma GoodTokensOf(text: Text)
    requires Plain(text) && HasGlyph(text)
    ensures GoodTokens(Tokens(text))
  {
    hide Spacey, HasGlyph, Plain;
    PlainNothing();
    GoodFold(NO_TOKENS, text);
    var t := TokenFold(NO_TOKENS, text);
    TokenFoldHolds(NO_TOKENS, text);
    WithPending(t.current, t.pending);
    if t.pending == [] {
      if t.current != [] { GoodAppend(t.tokens, t.current); }
    } else if t.current != [] {
      GoodAppend(t.tokens, t.current + t.pending);
    } else if t.tokens != [] {
      var init, last := t.tokens[..|t.tokens| - 1], t.tokens[|t.tokens| - 1];
      assert last in t.tokens;
      WithPending(last, t.pending);
      GoodAppend(init, last + t.pending);
    } else {
      assert Held(NO_TOKENS) + text == text && Held(t) == t.pending;
      CodesHaveNoGlyph(t.pending);
    }
  }

  lemma PlainNothing()
    ensures Plain([])
  {
  }

  lemma CodesHaveNoGlyph(text: Text)
    requires forall a :: a in text ==> a.Code?
    ensures !HasGlyph(text)
  {
  }

  lemma {:induction false} GlyphTakesRoom(text: Text)
    requires Plain(text) && HasGlyph(text)
    ensures TextWidth(text) > 0
  {
    var a :| a in text && a.Glyph?;
    if text[0].Glyph? {
      assert text[0] in text;
    } else {
      assert a in text[1..];
      GlyphTakesRoom(text[1..]);
    }
  }

  lemma {:induction false} BreakTakesRoom(b: Breaker, word: Text, width: nat)
    requires Plain(word) && (b.width > 0 || HasGlyph(word))
    ensures BreakFold(b, word, width).width > 0
    decreases |word|
  {
    hide ApplyAnsi;
    if word != [] {
      assert word[0] in word;
      if word[0].Code? && b.width == 0 {
        var a :| a in word && a.Glyph?;
        assert a in word[1..];
      }
      BreakTakesRoom(BreakStep(b, word[0], width), word[1..], width);
    }
  }

  /** Before a token: a line that is too wide has nothing to close, and an empty one with something to
      close stands right after dropped white space. */
  predicate Calm(w: Wrapper, width: nat, afterSpace: bool) {
    && (TextWidth(w.line) > width ==> ResetAtoms(w.style) == [])
    && (w.width == 0 && ResetAtoms(w.style) != [] ==> afterSpace)
  }

  lemma CalmLongStep(w: Wrapper, token: Text, width: nat)
    requires LineFits(w, width) && GlyphsFit(token, width) && Plain(token) && HasGlyph(token) && IsLong(token, width)
    ensures Calm(WrapStep(w, token, width), width, false)
  {
    hide ActiveAtoms, ResetAtoms, IsWhite, ApplyAnsi, BreakFold, StyleAfter;
    ActiveHasNoWidth(w.style);
    var b0 := Breaker([], ActiveAtoms(w.style), 0, w.style);
    BreakFoldFits(b0, token, width);
    BreakTakesRoom(b0, token, width);
    assert token != [] by { EmptyNotLong(width); }
    BreakLineNonempty(b0, token, width);
  }

  lemma CalmStep(w: Wrapper, token: Text, width: nat, afterSpace: bool)
    requires LineFits(w, width) && GlyphsFit(token, width) && Plain(token) && HasGlyph(token)
    requires Calm(w, width, afterSpace) && !(afterSpace && Spacey(token))
    ensures !Overflows(w, token, width) && Calm(WrapStep(w, token, width), width, Spacey(token))
  {
    hide ActiveAtoms, ResetAtoms, ApplyAnsi, TrimEnd, BreakWord;
    if IsLong(token, width) {
      CalmLongStep(w, token, width);
    } else {
      ActiveHasNoWidth(w.style);
      GlyphTakesRoom(token);
      WidthConcat(ActiveAtoms(w.style), token);
      WidthConcat(w.line, token);
      if IsWhite(token) {
        WhiteDropped(w.style, token);
        WhiteIsSpacey(token);
      }
    }
  }

  lemma WhiteIsSpacey(token: Text)
    requires IsWhite(token) && Plain(token)
    ensures Spacey(token)
  {
  }

  lemma {:induction false} CalmNeverOverflows(w: Wrapper, tokens: seq<Text>, width: nat, afterSpace: bool)
    requires LineFits(w, width) && Calm(w, width, afterSpace) && GoodTokens(tokens)
    requires GlyphsFit(Concat(tokens), width)
    requires tokens != [] ==> !(afterSpace && Spacey(tokens[0]))
    ensures !AnyOverflow(w, tokens, width)
    decreases |tokens|
  {
    hide LineFits, Calm, WrapStep, Overflows, Plain, HasGlyph, Spacey;
    if tokens != [] {
      assert tokens[0] in tokens;
      var rest := tokens[1..];
      assert rest != [] ==> !(Spacey(tokens[0]) && Spacey(tokens[1]));
      assert GoodTokens(rest) by {
        forall i | 0 < i < |rest| ensures !(Spacey(rest[i - 1]) && Spacey(rest[i])) {
          assert rest[i - 1] == tokens[i] && rest[i] == tokens[i + 1];
        }
      }
      CalmStep(w, tokens[0], width, afterSpace);
      WrapStepFits(w, tokens[0], width);
      CalmNeverOverflows(WrapStep(w, tokens[0], width), rest, width, Spacey(tokens[0]));
    }
  }

  lemma PlainLineFits(line: Text, width: nat)
    requires Plain(line) && GlyphsFit(line, width)
    ensures TextWidth(line) <= width || !AnyOverflow(NOTHING_WRAPPED, Tokens(line), width)
  {
    hide Tokens, AnyOverflow, Plain, Spacey;
    if TextWidth(line) > width {
      NoGlyphNoWidth(line);
      GoodTokensOf(line);
      TokensConcat(line);
      CalmNeverOverflows(NOTHING_WRAPPED, Tokens(line), width, false);
    }
  }

  lemma {:induction false} NoGlyphNoWidth(text: Text)
    requires TextWidth(text) > 0
    ensures HasGlyph(text)
  {
    if text[0].Glyph? {
      assert text[0] in text;
    } else {
      NoGlyphNoWidth(text[1..]);
      var a :| a in text[1..] && a.Glyph?;
      assert a in text;
    }
  }

  lemma {:induction false} PlainLinesNeverOverflow(resumed: bool, st: Style, inputLines: seq<Text>, width: nat)
    requires forall l :: l in inputLines ==> Plain(l) && GlyphsFit(l, width)
    ensures !TextOverflows(resumed, st, inputLines, width)
    decreases |inputLines|
  {
    hide AnyOverflow, Tokens, StyleAfter, TextWidth;
    if inputLines != [] {
      assert inputLines[0] in inputLines;
      PrefixGlyphsFit(resumed, st, inputLines[0], width);
      PlainLineFits((if resumed then ActiveAtoms(st) else []) + inputLines[0], width);
      PlainLinesNeverOverflow(true, StyleAfter(st, inputLines[0]), inputLines[1..], width);
    }
  }

  /** Text whose graphemes all take room and whose white space is spaces and line breaks wraps to lines
      within the width, whatever its styling and however long its runs of spaces and its words. */
  lemma PlainTextWraps(text: Text, width: nat)
    requires GlyphsFit(text, width) && forall a :: a in text && !IsNewline(a) ==> Plain([a])
    ensures LinesFit(WrapText(text, width), width)
  {
    SplitLinesFit(text, width);
    SplitLinesPlain(text);
    PlainLinesNeverOverflow(false, CLEAR, SplitLines(text), width);
    WrapTextFits(text, width);
  }

  lemma {:induction false} SplitLinesPlain(text: Text)
    requires forall a :: a in text && !IsNewline(a) ==> Plain([a])
    ensures forall l :: l in SplitLines(text) ==> Plain(l)
  {
    if text != [] {
      assert text[0] in text && text[0] in [text[0]];
      SplitLinesPlain(text[1..]);
      var rest := SplitLines(text[1..]);
      assert rest[0] in rest;
      forall l | l in SplitLines(text) ensures Plain(l) {
        assert l == [] || l in rest || (l == [text[0]] + rest[0] && !IsNewline(text[0]));
      }
    }
  }

  // ----- text without underlines and hyperlinks -----

  /** From `st` on, no beginning of a text leaves an underline or a hyperlink open. */
  predicate NothingOpens(st: Style, text: Text)
    decreases |text|
  {
    && !st.underline && st.link.None?
    && (text != [] ==> NothingOpens(StyleStep(st, text[0]), text[1..]))
  }

  lemma {:induction false} NothingOpensIs(st: Style, text: Text)
    ensures NothingOpens(st, text) <==>
      forall n :: 0 <= n <= |text| ==> var s := StyleAfter(st, text[..n]); !s.underline && s.link.None?
    decreases |text|
  {
    hide ApplyAnsi;
    assert text[..0] == [];
    if text != [] {
      var next := StyleStep(st, text[0]);
      NothingOpensIs(next, text[1..]);
      forall n | 0 < n <= |text| ensures StyleAfter(st, text[..n]) == StyleAfter(next, text[1..][..n - 1]) {
        assert text[..n][1..] == text[1..][..n - 1];
      }
      forall n | 0 <= n < |text| ensures StyleAfter(next, text[1..][..n]) == StyleAfter(st, text[..n + 1]) {
        assert text[..n + 1][1..] == text[1..][..n];
      }
    }
  }

  lemma {:induction false} NothingOpensConcat(st: Style, a: Text, b: Text)
    ensures NothingOpens(st, a + b) <==> NothingOpens(st, a) && NothingOpens(StyleAfter(st, a), b)
    decreases |a|
  {
    hide ApplyAnsi;
    if a == [] {
      assert a + b == b;
    } else {
      assert (a + b)[0] == a[0] && (a + b)[1..] == a[1..] + b;
      NothingOpensConcat(StyleStep(st, a[0]), a[1..], b);
    }
  }

  lemma {:induction false} BreakStyle(b: Breaker, word: Text, width: nat)
    ensures BreakFold(b, word, width).style == StyleAfter(b.style, word)
    decreases |word|
  {
    hide ApplyAnsi, ActiveAtoms, ResetAtoms;
    if word != [] {
      BreakStyle(BreakStep(b, word[0], width), word[1..], width);
    }
  }

  lemma WrapStyle(w: Wrapper, token: Text, width: nat)
    ensures WrapStep(w, token, width).style == StyleAfter(w.style, token)
  {
    hide ApplyAnsi, ActiveAtoms, ResetAtoms, BreakFold, StyleAfter;
    BreakStyle(Breaker([], ActiveAtoms(w.style), 0, w.style), token, width);
  }

  lemma {:induction false} NothingToClose(w: Wrapper, tokens: seq<Text>, width: nat)
    requires NothingOpens(w.style, Concat(tokens))
    ensures !AnyOverflow(w, tokens, width)
    decreases |tokens|
  {
    hide ApplyAnsi, WrapStep, StyleAfter, IsLong;
    if tokens != [] {
      NothingOpensConcat(w.style, tokens[0], Concat(tokens[1..]));
      WrapStyle(w, tokens[0], width);
      NothingToClose(WrapStep(w, tokens[0], width), tokens[1..], width);
    }
  }

  /** A style with nothing to close is printed as one code or none, and so without opening anything. */
  lemma PrintedOpensNothing(st: Style)
    requires Sound(st) && !st.underline && st.link.None?
    ensures NothingOpens(CLEAR, ActiveAtoms(st)) && StyleAfter(CLEAR, ActiveAtoms(st)) == st
  {
    hide ApplyAnsi, Sound, SgrText;
    ActiveResumes(st, []);
    assert ActiveAtoms(st) + [] == ActiveAtoms(st);
    StyleNowhere(st);
    assert |ActiveAtoms(st)| <= 1;
    NothingOpensIs(CLEAR, ActiveAtoms(st));
    StyleNowhere(CLEAR);
    assert ActiveAtoms(st)[..0] == [] && ActiveAtoms(st)[..|ActiveAtoms(st)|] == ActiveAtoms(st);
  }

  lemma StyleNowhere(st: Style)
    ensures StyleAfter(st, []) == st
  {
  }

  lemma {:induction false} UnlinedLinesNeverOverflow(resumed: bool, st: Style, inputLines: seq<Text>, width: nat)
    requires Sound(st) && (!resumed ==> st == CLEAR)
    requires NothingOpens(st, Concat(inputLines)) && WellFormed(Concat(inputLines))
    ensures !TextOverflows(resumed, st, inputLines, width)
    decreases |inputLines|
  {
    hide AnyOverflow, Tokens, StyleAfter, TextWidth, ApplyAnsi, Sound, ActiveAtoms, IsCode;
    if inputLines != [] {
      var first := inputLines[0];
      var prefix := if resumed then ActiveAtoms(st) else [];
      NothingOpensConcat(st, first, Concat(inputLines[1..]));
      PrintedOpensNothing(st);
      NothingOpensConcat(CLEAR, prefix, first);
      assert [] + first == first;
      TokensConcat(prefix + first);
      NothingToClose(NOTHING_WRAPPED, Tokens(prefix + first), width);
      StyleSound(st, first);
      UnlinedLinesNeverOverflow(true, StyleAfter(st, first), inputLines[1..], width);
    }
  }

  lemma SplitLinesStep(text: Text)
    requires text != []
    ensures var rest := SplitLines(text[1..]);
      SplitLines(text) == if IsNewline(text[0]) then [[]] + rest else [[text[0]] + rest[0]] + rest[1..]
  {
    hide IsNewline;
  }

  lemma ConcatFirst(line: Text, rest: seq<Text>)
    ensures Concat([line] + rest) == line + Concat(rest)
  {
    assert ([line] + rest)[1..] == rest;
  }

  /** Splitting into lines takes away the newlines. */
  lemma LinesJoined(text: Text)
    requires text != []
    ensures Concat(SplitLines(text)) ==
            (if IsNewline(text[0]) then [] else [text[0]]) + Concat(SplitLines(text[1..]))
  {
    hide IsNewline, Concat, SplitLines;
    var a, rest := text[0], SplitLines(text[1..]);
    SplitLinesStep(text);
    if IsNewline(a) {
      ConcatFirst([], rest);
    } else {
      ConcatFirst([a] + rest[0], rest[1..]);
      ConcatFirst(rest[0], rest[1..]);
      assert [rest[0]] + rest[1..] == rest;
      assert ([a] + rest[0]) + Concat(rest[1..]) == [a] + (rest[0] + Concat(rest[1..]));
    }
  }

  lemma NothingJoined()
    ensures Concat(SplitLines([])) == []
  {
    var lines := SplitLines([]);
    assert lines[1..] == [];
  }

  lemma {:induction false} SplitLinesOpenNothing(st: Style, text: Text)
    requires NothingOpens(st, text) && WellFormed(text)
    ensures NothingOpens(st, Concat(SplitLines(text))) && WellFormed(Concat(SplitLines(text)))
    decreases |text|
  {
    hide ApplyAnsi, IsCode, SplitLines, Concat;
    if text == [] {
      NothingJoined();
    } else {
      var a, rest := text[0], Concat(SplitLines(text[1..]));
      assert a in text;
      SplitLinesOpenNothing(StyleStep(st, a), text[1..]);
      LinesJoined(text);
      if IsNewline(a) {
        assert [] + rest == rest;
      } else {
        assert ([a] + rest)[1..] == rest;
      }
    }
  }

  /** If no beginning of the text leaves an underline or a hyperlink open, every wrapped line is within the width,
      whatever room its graphemes take and whatever its white space is. */
  lemma UnlinedTextWraps(text: Text, width: nat)
    requires GlyphsFit(text, width) && WellFormed(text)
    requires forall n :: 0 <= n <= |text| ==>
      var st := StyleAfter(CLEAR, text[..n]); !st.underline && st.link.None?
    ensures LinesFit(WrapText(text, width), width)
  {
    hide WrapText, ApplyAnsi, IsCode, StyleAfter, SplitLines, TextOverflows;
    NothingOpensIs(CLEAR, text);
    SplitLinesOpenNothing(CLEAR, text);
    UnlinedLinesNeverOverflow(false, CLEAR, SplitLines(text), width);
    WrapTextFits(text, width);
  }

  // ----- text that does -----

  lemma {:induction false} OneLine(text: Text)
    requires forall a :: a in text ==> !IsNewline(a)
    ensures SplitLines(text) == [text]
  {
    if text != [] {
      assert text[0] in text;
      OneLine(text[1..]);
      assert text == [text[0]] + text[1..];
    }
  }

  lemma TokenFoldStep(t: Tokenizer, text: Text)
    requires text != []
    ensures TokenFold(t, text) == TokenFold(TokenStep(t, text[0]), text[1..])
  {
  }

  lemma ThreeTokens(code: Atom, zero: Atom, space: Atom, letter: Atom)
    requires code.Code? && zero.Glyph? && letter.Glyph? && IsSpace(space)
    requires !IsSpace(zero) && !IsSpace(letter) && !zero.cjk && !letter.cjk
    ensures Tokens([code, zero, space, space, letter, letter]) == [[code, zero], [space, space], [letter, letter]]
  {
    hide TokenFold, TokenStep, FinishTokens;
    var k1, k2, k3: Text := [code, zero], [space, space], [letter, letter];
    var text := [code, zero, space, space, letter, letter];
    var t1 := Tokenizer([], [], [code], NoKind);
    var t2 := Tokenizer([], k1, [], WordKind);
    var t3 := Tokenizer([k1], [space], [], SpaceKind);
    var t4 := Tokenizer([k1], k2, [], SpaceKind);
    var t5 := Tokenizer([k1, k2], [letter], [], WordKind);
    var t6 := Tokenizer([k1, k2], k3, [], WordKind);
    SixSteps(code, zero, space, letter);
    TokenFoldStep(NO_TOKENS, text);
    assert text[1..] == [zero, space, space, letter, letter];
    TokenFoldStep(t1, text[1..]);
    assert text[1..][1..] == [space, space, letter, letter];
    TokenFoldStep(t2, [space, space, letter, letter]);
    assert [space, space, letter, letter][1..] == [space, letter, letter];
    TokenFoldStep(t3, [space, letter, letter]);
    assert [space, letter, letter][1..] == [letter, letter];
    TokenFoldStep(t4, [letter, letter]);
    assert [letter, letter][1..] == [letter];
    TokenFoldStep(t5, [letter]);
    assert [letter][1..] == [];
    FoldNothing(t6);
    LastToken([k1, k2], k3);
  }

  lemma LastToken(tokens: seq<Text>, current: Text)
    requires current != []
    ensures FinishTokens(Tokenizer(tokens, current, [], WordKind)) == tokens + [current]
  {
  }

  /** Each step of the tokenizer on the way. */
  lemma SixSteps(code: Atom, zero: Atom, space: Atom, letter: Atom)
    requires code.Code? && zero.Glyph? && letter.Glyph? && IsSpace(space)
    requires !IsSpace(zero) && !IsSpace(letter) && !zero.cjk && !letter.cjk
    ensures var k1, k2, k3: Text := [code, zero], [space, space], [letter, letter];
      var t1 := Tokenizer([], [], [code], NoKind);
      var t2 := Tokenizer([], k1, [], WordKind);
      var t3 := Tokenizer([k1], [space], [], SpaceKind);
      var t4 := Tokenizer([k1], k2, [], SpaceKind);
      var t5 := Tokenizer([k1, k2], [letter], [], WordKind);
      && TokenStep(NO_TOKENS, code) == t1 && TokenStep(t1, zero) == t2 && TokenStep(t2, space) == t3
      && TokenStep(t3, space) == t4 && TokenStep(t4, letter) == t5
      && TokenStep(t5, letter) == Tokenizer([k1, k2], k3, [], WordKind)
  {
    var none: Text := [];
    assert none + [code] == [code] && none + [code] + [zero] == [code, zero];
    assert none + none + [space] == [space] && none + none + [letter] == [letter];
  }

  lemma FoldNothing(t: Tokenizer)
    ensures TokenFold(t, []) == t
  {
  }

  /** Underlined text in one column: a zero-width grapheme, two spaces, a word of two letters. The line
      before the word keeps its two spaces, because the underline is closed behind them. */
  lemma ZeroWidthOverflows()
    ensures var underlined := CLEAR.(underline := true);
      var space := Glyph(" ", 1, true, false);
      var letter := Glyph("a", 1, false, false);
      var text := [Code(SgrText(underlined)), Glyph("\U{200B}", 0, false, false), space, space, letter, letter];
      GlyphsFit(text, 1) && !LinesFit(WrapText(text, 1), 1)
  {
    hide WrapText, SgrText, ApplyAnsi, Tokens, ActiveAtoms, AnyOverflow, SplitLines, TextWidth;
    var underlined := CLEAR.(underline := true);
    var space := Glyph(" ", 1, true, false);
    var letter := Glyph("a", 1, false, false);
    var zero := Glyph("\U{200B}", 0, false, false);
    var code := Code(SgrText(underlined));
    var t1, t2, t3 := [code, zero], [space, space], [letter, letter];
    var text := [code, zero, space, space, letter, letter];
    assert text == t1 + t2 + t3;
    UnderlineReads();
    OneLine(text);
    ThreeTokens(code, zero, space, letter);
    TwoAtoms(code, zero, CLEAR);
    TwoAtoms(space, space, underlined);
    TwoAtoms(letter, letter, underlined);
    WidthConcat(t1, t2);
    WidthConcat(t1 + t2, t3);
    SpacesStayOn(code, zero, space, letter, underlined);
    var none: Text := [];
    assert none + text == text;
    WrapTextFits(text, 1);
  }

  /** The spaces go on the line, since nothing on it is visible yet, and the word then pushes it out as it is. */
  lemma SpacesStayOn(code: Atom, zero: Atom, space: Atom, letter: Atom, underlined: Style)
    requires code.Code? && zero.Glyph? && zero.width == 0 && !zero.white
    requires IsSpace(space) && space.white && space.width == 1
    requires letter.Glyph? && letter.width == 1 && !letter.white
    requires StyleAfter(CLEAR, [code, zero]) == underlined && underlined.underline
    ensures AnyOverflow(NOTHING_WRAPPED, [[code, zero], [space, space], [letter, letter]], 1)
  {
    hide ApplyAnsi, ActiveAtoms;
    var t1, t2, t3 := [code, zero], [space, space], [letter, letter];
    TwoAtoms(code, zero, CLEAR);
    TwoAtoms(space, space, underlined);
    TwoAtoms(letter, letter, underlined);
    WidthConcat(t1, t2);
    var w1 := Wrapper([], t1, 0, underlined);
    var w2 := Wrapper([], t1 + t2, 2, underlined);
    assert WrapStep(NOTHING_WRAPPED, t1, 1) == w1;
    assert IsWhite(t2) && !IsLong(t2, 1);
    assert WrapStep(w1, t2, 1) == w2;
    assert letter in t3;
    assert Overflows(w2, t3, 1);
    assert AnyOverflow(w2, [t3], 1);
    assert [t2, t3][1..] == [t3] && [t1, t2, t3][1..] == [t2, t3];
    assert AnyOverflow(w1, [t2, t3], 1);
  }

  lemma UnderlineReads()
    ensures ApplyAnsi(CLEAR, SgrText(CLEAR.(underline := true))) == CLEAR.(underline := true)
  {
    var underlined := CLEAR.(underline := true);
    assert SgrCodes(underlined) == ["4"];
    SgrRoundTrip(underlined);
  }

  lemma TwoAtoms(a: Atom, b: Atom, st: Style)
    ensures TextWidth([a, b]) == (if a.Glyph? then a.width else 0) + (if b.Glyph? then b.width else 0)
    ensures StyleAfter(st, [a, b]) == StyleStep(StyleStep(st, a), b)
  {
    assert [a, b][1..] == [b] && [b][1..] == [];
    assert TextWidth([b]) == if b.Glyph? then b.width else 0;
    assert StyleAfter(StyleStep(st, a), [b]) == StyleStep(StyleStep(st, a), b);
  }
}
