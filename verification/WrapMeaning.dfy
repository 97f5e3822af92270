/** Wrapping keeps what is visible and how it looks. */
module WrapMeaning {
  import opened AnsiCodes
  import opened StyleRoundTrip
  import opened Wrapping

  /** A visible grapheme with the style it is shown in. */
  datatype Mark = Mark(glyph: Atom, style: Style)

  /** What a reader sees of a text that starts in style `st`. */
  function Read(st: Style, text: Text): seq<Mark>
    decreases |text|
  {
    if text == [] then []
    else (if text[0].Glyph? then [Mark(text[0], st)] else []) + Read(StyleStep(st, text[0]), text[1..])
  }

  /** Each line on its own, from a cleared style. */
  function ReadLines(lines: seq<Text>): seq<Mark> {
    if lines == [] then [] else Read(CLEAR, lines[0]) + ReadLines(lines[1..])
  }

  predicate WhiteMark(m: Mark) {
    m.glyph.Glyph? && m.glyph.white
  }

  /** `kept` is `full` in order with nothing but white graphemes left out. */
  predicate Kept(full: seq<Mark>, kept: seq<Mark>)
    decreases |full|
  {
    if full == [] then kept == []
    else
      || (kept != [] && full[0] == kept[0] && Kept(full[1..], kept[1..]))
      || (WhiteMark(full[0]) && Kept(full[1..], kept))
  }

  lemma {:induction false} KeptSame(s: seq<Mark>)
    ensures Kept(s, s)
  {
    if s != [] { KeptSame(s[1..]); }
  }

  lemma {:induction false} KeptConcat(a: seq<Mark>, x: seq<Mark>, b: seq<Mark>, y: seq<Mark>)
    requires Kept(a, x) && Kept(b, y)
    ensures Kept(a + b, x + y)
    decreases |a|
  {
    if a == [] {
      assert a + b == b && x + y == y;
    } else {
      assert (a + b)[0] == a[0] && (a + b)[1..] == a[1..] + b;
      if x != [] && a[0] == x[0] && Kept(a[1..], x[1..]) {
        assert (x + y)[0] == x[0] && (x + y)[1..] == x[1..] + y;
        KeptConcat(a[1..], x[1..], b, y);
      } else {
        KeptConcat(a[1..], x, b, y);
      }
    }
  }

  lemma {:induction false} KeptTrans(a: seq<Mark>, b: seq<Mark>, c: seq<Mark>)
    requires Kept(a, b) && Kept(b, c)
    ensures Kept(a, c)
    decreases |a|
  {
    if a != [] {
      if b != [] && a[0] == b[0] && Kept(a[1..], b[1..]) {
        if c != [] && b[0] == c[0] && Kept(b[1..], c[1..]) {
          KeptTrans(a[1..], b[1..], c[1..]);
        } else {
          KeptTrans(a[1..], b[1..], c);
        }
      } else {
        KeptTrans(a[1..], b, c);
      }
    }
  }

  lemma KeptFirst(a: seq<Mark>, x: seq<Mark>, b: seq<Mark>)
    requires Kept(a, x)
    ensures Kept(a + b, x + b)
  {
    KeptSame(b);
    KeptConcat(a, x, b, b);
  }

  // ----- reading concatenations -----

  lemma {:induction false} ReadConcat(st: Style, a: Text, b: Text)
    ensures Read(st, a + b) == Read(st, a) + Read(StyleAfter(st, a), b)
    ensures StyleAfter(st, a + b) == StyleAfter(StyleAfter(st, a), b)
    decreases |a|
  {
    if a == [] {
      assert a + b == b;
    } else {
      assert (a + b)[0] == a[0] && (a + b)[1..] == a[1..] + b;
      ReadConcat(StyleStep(st, a[0]), a[1..], b);
    }
  }

  lemma {:induction false} ReadLinesConcat(a: seq<Text>, b: seq<Text>)
    ensures ReadLines(a + b) == ReadLines(a) + ReadLines(b)
  {
    if a == [] {
      assert a + b == b;
    } else {
      assert (a + b)[0] == a[0] && (a + b)[1..] == a[1..] + b;
      ReadLinesConcat(a[1..], b);
    }
  }

  lemma ReadLinesSnoc(a: seq<Text>, line: Text)
    ensures ReadLines(a + [line]) == ReadLines(a) + Read(CLEAR, line)
  {
    ReadLinesConcat(a, [line]);
    assert [line][1..] == [];
  }

  lemma {:induction false} CodesReadNothing(st: Style, text: Text)
    requires forall a :: a in text ==> a.Code?
    ensures Read(st, text) == []
    decreases |text|
  {
    if text != [] { CodesReadNothing(StyleStep(st, text[0]), text[1..]); }
  }

  lemma {:induction false} CodesApply(st: Style, codes: seq<string>)
    ensures StyleAfter(st, CodeAtoms(codes)) == ApplyAll(st, codes)
    decreases |codes|
  {
    if codes != [] {
      assert CodeAtoms(codes)[1..] == CodeAtoms(codes[1..]);
      CodesApply(ApplyAnsi(st, codes[0]), codes[1..]);
    }
  }

  /** A line that starts with the printed style reads on as if it had continued. */
  lemma ActiveResumes(st: Style, text: Text)
    requires Sound(st)
    ensures Read(CLEAR, ActiveAtoms(st) + text) == Read(st, text)
    ensures StyleAfter(CLEAR, ActiveAtoms(st) + text) == StyleAfter(st, text)
  {
    ActiveCodesRoundTrip(st);
    CodesApply(CLEAR, ActiveCodeList(st));
    CodesReadNothing(CLEAR, ActiveAtoms(st));
    ReadConcat(CLEAR, ActiveAtoms(st), text);
  }

  lemma ResetReadsNothing(st: Style, line: Text, style: Style)
    ensures Read(st, line + ResetAtoms(style)) == Read(st, line)
  {
    ReadConcat(st, line, ResetAtoms(style));
    CodesReadNothing(StyleAfter(st, line), ResetAtoms(style));
  }

  lemma {:induction false} TrimKeeps(st: Style, line: Text)
    ensures Kept(Read(st, line), Read(st, TrimEnd(line)))
  {
    var t := TrimEnd(line);
    if t == line {
      KeptSame(Read(st, line));
    } else {
      var init, last := line[..|line| - 1], line[|line| - 1];
      assert line == init + [last];
      TrimKeeps(st, init);
      ReadConcat(st, init, [last]);
      var m := Mark(last, StyleAfter(st, init));
      assert Read(StyleAfter(st, init), [last]) == [m] by { assert [last][1..] == []; }
      assert Kept([m], []) by { assert [m][1..] == []; }
      KeptConcat(Read(st, init), Read(st, t), [m], []);
      assert Read(st, t) + [] == Read(st, t);
    }
  }

  lemma {:induction false} StyleSound(st: Style, text: Text)
    requires Sound(st) && WellFormed(text)
    ensures Sound(StyleAfter(st, text))
    decreases |text|
  {
    hide Sound, ApplyAnsi, IsCode;
    if text != [] {
      assert text[0] in text;
      if text[0].Code? { ApplyAnsiSound(st, text[0].code); }
      StyleSound(StyleStep(st, text[0]), text[1..]);
    }
  }

  // ----- tokens -----

  function Held(t: Tokenizer): Text {
    Concat(t.tokens) + t.current + t.pending
  }

  lemma {:induction false} ConcatAppend(a: seq<Text>, b: seq<Text>)
    ensures Concat(a + b) == Concat(a) + Concat(b)
  {
    if a == [] {
      assert a + b == b;
    } else {
      assert (a + b)[0] == a[0] && (a + b)[1..] == a[1..] + b;
      ConcatAppend(a[1..], b);
    }
  }

  lemma ConcatSnoc(a: seq<Text>, t: Text)
    ensures Concat(a + [t]) == Concat(a) + t
  {
    ConcatAppend(a, [t]);
    assert Concat([t]) == t by { assert [t][1..] == []; }
  }

  lemma ConcatNothing()
    ensures Concat([]) == []
  {
  }

  lemma FlushHolds(t: Tokenizer)
    ensures Held(FlushCurrent(t)) == Held(t)
  {
    ConcatSnoc(t.tokens, t.current);
  }

  lemma TokenStepHolds(t: Tokenizer, a: Atom)
    ensures Held(TokenStep(t, a)) == Held(t) + [a]
  {
    hide Concat;
    FlushHolds(t);
    if !a.Code? && !IsSpace(a) && a.cjk {
      var f := FlushCurrent(t);
      ConcatSnoc(f.tokens, f.pending + [a]);
      assert f.current == [];
    }
  }

  lemma {:induction false} TokenFoldHolds(t: Tokenizer, text: Text)
    ensures Held(TokenFold(t, text)) == Held(t) + text
    decreases |text|
  {
    if text == [] {
      assert Held(t) + [] == Held(t);
    } else {
      TokenStepHolds(t, text[0]);
      TokenFoldHolds(TokenStep(t, text[0]), text[1..]);
      assert text == [text[0]] + text[1..];
    }
  }

  /** The tokens put together are the text. */
  lemma TokensConcat(text: Text)
    ensures Concat(Tokens(text)) == text
  {
    hide TokenFold, Concat;
    var t := TokenFold(NO_TOKENS, text);
    assert Concat([]) == [] by { ConcatNothing(); }
    TokenFoldHolds(NO_TOKENS, text);
    assert Held(t) == text;
    FlushHolds(t);
    if t.pending != [] {
      ConcatSnoc(t.tokens, t.current + t.pending);
      if t.tokens != [] {
        var init, last := t.tokens[..|t.tokens| - 1], t.tokens[|t.tokens| - 1];
        assert t.tokens == init + [last];
        ConcatSnoc(init, last);
        ConcatSnoc(init, last + t.pending);
      }
      ConcatSnoc([], t.pending);
      assert [] + [t.pending] == [t.pending] && [] + t.pending == t.pending;
    }
  }

  // ----- breaking a word -----

  /** So far the broken lines show `done`, read from style `st`, and the last line can go on. */
  ghost predicate BreakFaithful(b: Breaker, st: Style, done: Text) {
    && Sound(b.style)
    && b.style == StyleAfter(st, done)
    && StyleAfter(CLEAR, b.line) == b.style
    && ReadLines(b.lines) + Read(CLEAR, b.line) == Read(st, done)
  }

  lemma BreakStepFaithful(b: Breaker, st: Style, done: Text, a: Atom, width: nat)
    requires BreakFaithful(b, st, done) && (a.Code? ==> IsCode(a.code))
    ensures BreakFaithful(BreakStep(b, a, width), st, done + [a])
  {
    hide Sound, ApplyAnsi, IsCode, ActiveAtoms, ResetAtoms;
    assert [a][1..] == [];
    ReadConcat(st, done, [a]);
    ReadConcat(CLEAR, b.line, [a]);
    if a.Code? {
      ApplyAnsiSound(b.style, a.code);
    } else if b.width + a.width > width {
      ResetReadsNothing(CLEAR, b.line, b.style);
      ReadLinesSnoc(b.lines, b.line + ResetAtoms(b.style));
      ActiveResumes(b.style, [a]);
    }
  }

  lemma {:induction false} BreakFoldFaithful(b: Breaker, st: Style, done: Text, word: Text, width: nat)
    requires BreakFaithful(b, st, done) && WellFormed(word)
    ensures BreakFaithful(BreakFold(b, word, width), st, done + word)
    decreases |word|
  {
    hide BreakFaithful, BreakStep, IsCode;
    if word == [] {
      assert done + word == done;
    } else {
      assert word[0] in word;
      BreakStepFaithful(b, st, done, word[0], width);
      BreakFoldFaithful(BreakStep(b, word[0], width), st, done + [word[0]], word[1..], width);
      assert done + [word[0]] + word[1..] == done + word;
    }
  }

  /** A broken word: its lines show it as it would have read on from `st`, and the last one continues
      in the style the word leaves. */
  lemma BreakWordFaithful(word: Text, width: nat, st: Style)
    requires Sound(st) && WellFormed(word)
    ensures var b := BreakWord(word, width, st); var lines := BreakLines(b); var last := lines[|lines| - 1];
      && Sound(b.style) && b.style == StyleAfter(st, word)
      && ReadLines(lines) == Read(st, word)
      && (last != [] || b.lines == [] ==> StyleAfter(CLEAR, last) == b.style)
      && (word != [] ==> last == b.line)
  {
    hide Sound, IsCode, ActiveAtoms, ResetAtoms, ApplyAnsi;
    ActiveResumes(st, []);
    assert ActiveAtoms(st) + [] == ActiveAtoms(st);
    BreakFoldFaithful(Breaker([], ActiveAtoms(st), 0, st), st, [], word, width);
    assert [] + word == word;
    var b := BreakWord(word, width, st);
    ReadLinesSnoc(b.lines, b.line);
    if word != [] { BreakLineNonempty(Breaker([], ActiveAtoms(st), 0, st), word, width); }
    ReadOneLine([]);
  }

  lemma {:induction false} BreakLineNonempty(b: Breaker, word: Text, width: nat)
    requires b.line != [] || word != []
    ensures BreakFold(b, word, width).line != []
    decreases |word|
  {
    if word != [] { BreakLineNonempty(BreakStep(b, word[0], width), word[1..], width); }
  }

  // ----- wrapping a line -----

  /** So far the output shows `done` but for white graphemes, and the current line can go on. */
  ghost predicate Faithful(w: Wrapper, done: Text) {
    && Sound(w.style)
    && w.style == StyleAfter(CLEAR, done)
    && StyleAfter(CLEAR, w.line) == w.style
    && Kept(Read(CLEAR, done), ReadLines(w.wrapped) + Read(CLEAR, w.line))
  }

  /** The line before a long word goes out closed. */
  function Flushed(w: Wrapper): seq<Text> {
    if w.line != [] then w.wrapped + [w.line + ResetAtoms(w.style)] else w.wrapped
  }

  lemma FlushedReads(w: Wrapper)
    ensures ReadLines(Flushed(w)) == ReadLines(w.wrapped) + Read(CLEAR, w.line)
  {
    hide ResetAtoms;
    ResetReadsNothing(CLEAR, w.line, w.style);
    ReadLinesSnoc(w.wrapped, w.line + ResetAtoms(w.style));
  }

  lemma LongStepIs(w: Wrapper, token: Text, width: nat)
    requires IsLong(token, width)
    ensures var broken := BreakLines(BreakWord(token, width, w.style));
      var last := broken[|broken| - 1];
      WrapStep(w, token, width) ==
        Wrapper(Flushed(w) + broken[..|broken| - 1], last, TextWidth(last), BreakWord(token, width, w.style).style)
  {
    hide IsLong, BreakWord, ResetAtoms, TextWidth;
  }

  /** Lines read one after the other, the last of them still open. */
  lemma LastLineOpen(flushed: seq<Text>, broken: seq<Text>)
    requires broken != []
    ensures var n := |broken| - 1;
      ReadLines(flushed + broken[..n]) + Read(CLEAR, broken[n]) == ReadLines(flushed) + ReadLines(broken)
  {
    hide Read, ReadLines;
    var n := |broken| - 1;
    assert broken == broken[..n] + [broken[n]];
    ReadLinesSnoc(broken[..n], broken[n]);
    ReadLinesConcat(flushed, broken[..n]);
  }

  lemma LongStepFaithful(w: Wrapper, done: Text, token: Text, width: nat)
    requires Faithful(w, done) && WellFormed(token) && IsLong(token, width)
    ensures Faithful(WrapStep(w, token, width), done + token)
  {
    hide *;
    assert token != [] by { EmptyNotLong(width); }
    assert Sound(w.style) && w.style == StyleAfter(CLEAR, done) &&
           Kept(Read(CLEAR, done), ReadLines(w.wrapped) + Read(CLEAR, w.line)) by { FaithfulIs(w, done); }
    var broken := BreakLines(BreakWord(token, width, w.style));
    LongStepIs(w, token, width);
    FlushedReads(w);
    BreakWordFaithful(token, width, w.style);
    BreakLineKept(token, width, w.style);
    LastLineOpen(Flushed(w), broken);
    ReadConcat(CLEAR, done, token);
    KeptFirst(Read(CLEAR, done), ReadLines(Flushed(w)), Read(w.style, token));
    FaithfulIs(WrapStep(w, token, width), done + token);
  }

  lemma FaithfulIs(w: Wrapper, done: Text)
    ensures Faithful(w, done) <==>
      && Sound(w.style) && w.style == StyleAfter(CLEAR, done) && StyleAfter(CLEAR, w.line) == w.style
      && Kept(Read(CLEAR, done), ReadLines(w.wrapped) + Read(CLEAR, w.line))
  {
  }

  lemma BreakLineKept(token: Text, width: nat, st: Style)
    requires token != []
    ensures BreakWord(token, width, st).line != []
  {
    BreakLineNonempty(Breaker([], ActiveAtoms(st), 0, st), token, width);
  }

  lemma EmptyNotLong(width: nat)
    ensures !IsLong([], width)
  {
  }

  lemma WrapStepFaithful(w: Wrapper, done: Text, token: Text, width: nat)
    requires Faithful(w, done) && WellFormed(token)
    ensures Faithful(WrapStep(w, token, width), done + token)
  {
    hide Sound, ApplyAnsi, IsCode, ActiveAtoms, ResetAtoms, TextWidth, TrimEnd, Read, ReadLines, Kept;
    if IsLong(token, width) {
      LongStepFaithful(w, done, token, width);
      return;
    }
    ReadConcat(CLEAR, done, token);
    ReadConcat(CLEAR, w.line, token);
    StyleSound(w.style, token);
    var full := Read(CLEAR, done);
    if w.width + TextWidth(token) > width && w.width > 0 {
      var line := TrimEnd(w.line) + ResetAtoms(w.style);
      ReadLinesSnoc(w.wrapped, line);
      ResetReadsNothing(CLEAR, TrimEnd(w.line), w.style);
      TrimKeeps(CLEAR, w.line);
      KeptSame(ReadLines(w.wrapped));
      KeptConcat(ReadLines(w.wrapped), ReadLines(w.wrapped), Read(CLEAR, w.line), Read(CLEAR, line));
      KeptTrans(full, ReadLines(w.wrapped) + Read(CLEAR, w.line), ReadLines(w.wrapped + [line]));
      if IsWhite(token) {
        ActiveResumes(w.style, []);
        ReadNothing(w.style);
        assert ActiveAtoms(w.style) + [] == ActiveAtoms(w.style);
        WhiteDropped(w.style, token);
        KeptConcat(full, ReadLines(w.wrapped + [line]), Read(w.style, token), []);
      } else {
        ActiveResumes(w.style, token);
        KeptFirst(full, ReadLines(w.wrapped + [line]), Read(w.style, token));
      }
    } else {
      KeptFirst(full, ReadLines(w.wrapped) + Read(CLEAR, w.line), Read(w.style, token));
      assert ReadLines(w.wrapped) + (Read(CLEAR, w.line) + Read(w.style, token)) ==
             ReadLines(w.wrapped) + Read(CLEAR, w.line) + Read(w.style, token);
    }
  }

  /** A white token may be dropped and leaves the style alone. */
  lemma {:induction false} WhiteDropped(st: Style, token: Text)
    requires IsWhite(token)
    ensures Kept(Read(st, token), []) && StyleAfter(st, token) == st
    decreases |token|
  {
    if token != [] {
      assert token[0] in token;
      WhiteDropped(st, token[1..]);
      assert Read(st, token)[1..] == Read(st, token[1..]);
    }
  }

  lemma {:induction false} WrapFoldFaithful(w: Wrapper, done: Text, tokens: seq<Text>, width: nat)
    requires Faithful(w, done) && WellFormed(Concat(tokens))
    ensures Faithful(WrapFold(w, tokens, width), done + Concat(tokens))
    decreases |tokens|
  {
    hide Faithful, WrapStep, IsCode;
    if tokens == [] {
      assert done + [] == done;
    } else {
      WrapStepFaithful(w, done, tokens[0], width);
      WrapFoldFaithful(WrapStep(w, tokens[0], width), done + tokens[0], tokens[1..], width);
      assert done + tokens[0] + Concat(tokens[1..]) == done + Concat(tokens);
    }
  }

  lemma {:induction false} TrimAllKeeps(lines: seq<Text>)
    ensures Kept(ReadLines(lines), ReadLines(TrimAll(lines)))
  {
    if lines != [] {
      assert TrimAll(lines)[1..] == TrimAll(lines[1..]);
      TrimKeeps(CLEAR, lines[0]);
      TrimAllKeeps(lines[1..]);
      KeptConcat(Read(CLEAR, lines[0]), Read(CLEAR, TrimEnd(lines[0])), ReadLines(lines[1..]),
                 ReadLines(TrimAll(lines[1..])));
    }
  }

  lemma FinishKeeps(w: Wrapper, done: Text)
    requires Faithful(w, done)
    ensures Kept(Read(CLEAR, done), ReadLines(FinishWrap(w)))
  {
    hide Sound, TrimEnd, TrimAll;
    ReadLinesSnoc(w.wrapped, w.line);
    var wrapped := if w.line != [] then w.wrapped + [w.line] else w.wrapped;
    assert ReadLines(w.wrapped) + Read(CLEAR, []) == ReadLines(w.wrapped);
    assert Kept(Read(CLEAR, done), ReadLines(wrapped));
    if wrapped != [] {
      TrimAllKeeps(wrapped);
      KeptTrans(Read(CLEAR, done), ReadLines(wrapped), ReadLines(TrimAll(wrapped)));
    } else {
      ReadOneLine([]);
    }
  }

  lemma ReadOneLine(line: Text)
    ensures ReadLines([line]) == Read(CLEAR, line)
  {
    assert [line][1..] == [];
  }

  lemma WrapLineKeeps(line: Text, width: nat)
    requires WellFormed(line)
    ensures Kept(Read(CLEAR, line), ReadLines(WrapLine(line, width)))
  {
    hide Tokens, WrapFold, FinishWrap, IsCode;
    if line == [] || TextWidth(line) <= width {
      ReadOneLine(line);
      KeptSame(Read(CLEAR, line));
    } else {
      TokensConcat(line);
      assert Faithful(NOTHING_WRAPPED, []);
      WrapFoldFaithful(NOTHING_WRAPPED, [], Tokens(line), width);
      assert [] + line == line;
      FinishKeeps(WrapFold(NOTHING_WRAPPED, Tokens(line), width), line);
    }
  }

  // ----- wrapping text -----

  /** The input lines read one after the other, the style carried across. */
  function ReadOn(st: Style, lines: seq<Text>): seq<Mark>
    decreases |lines|
  {
    if lines == [] then [] else Read(st, lines[0]) + ReadOn(StyleAfter(st, lines[0]), lines[1..])
  }

  lemma ReadFront(st: Style, a: Atom, text: Text)
    ensures Read(st, [a] + text) == Read(st, [a]) + Read(StyleStep(st, a), text)
    ensures Read(st, [a]) == if a.Glyph? then [Mark(a, st)] else []
  {
    assert ([a] + text)[1..] == text && [a][1..] == [];
  }

  lemma ReadOnFirst(st: Style, line: Text, rest: seq<Text>)
    ensures ReadOn(st, [line] + rest) == Read(st, line) + ReadOn(StyleAfter(st, line), rest)
  {
    hide Read, StyleAfter;
    assert ([line] + rest)[1..] == rest;
  }

  lemma ReadOnFront(st: Style, a: Atom, lines: seq<Text>)
    requires lines != []
    ensures ReadOn(st, [[a] + lines[0]] + lines[1..]) == Read(st, [a]) + ReadOn(StyleStep(st, a), lines)
  {
    hide Read, StyleStep, StyleAfter, ReadOn;
    ReadFront(st, a, lines[0]);
    StyleFront(st, a, lines[0]);
    ReadOnFirst(st, [a] + lines[0], lines[1..]);
    ReadOnFirst(StyleStep(st, a), lines[0], lines[1..]);
    assert [lines[0]] + lines[1..] == lines;
  }

  lemma StyleFront(st: Style, a: Atom, text: Text)
    ensures StyleAfter(st, [a] + text) == StyleAfter(StyleStep(st, a), text)
  {
    assert ([a] + text)[1..] == text;
  }

  lemma ReadOnEmpty(st: Style, lines: seq<Text>)
    ensures ReadOn(st, [[]] + lines) == ReadOn(st, lines)
  {
    assert ([[]] + lines)[1..] == lines;
  }

  /** Between the lines of a text only newlines are missing. */
  lemma {:induction false} SplitLinesRead(st: Style, text: Text)
    requires WellFormed(text)
    ensures Kept(Read(st, text), ReadOn(st, SplitLines(text)))
    decreases |text|
  {
    hide IsCode, ApplyAnsi, Read, ReadOn;
    if text == [] {
      ReadNothing(st);
    } else {
      var a, rest := text[0], SplitLines(text[1..]);
      assert a in text && text == [a] + text[1..];
      SplitLinesRead(StyleStep(st, a), text[1..]);
      ReadFront(st, a, text[1..]);
      if IsNewline(a) {
        ReadOnEmpty(st, rest);
        assert ([Mark(a, st)] + Read(st, text[1..]))[1..] == Read(st, text[1..]);
      } else {
        var here := Read(st, [a]);
        ReadOnFront(st, a, rest);
        KeptSame(here);
        KeptConcat(here, here, Read(StyleStep(st, a), text[1..]), ReadOn(StyleStep(st, a), rest));
      }
    }
  }

  lemma ReadNothing(st: Style)
    ensures Read(st, []) == [] && ReadOn(st, [[]]) == []
  {
    var lines: seq<Text> := [[]];
    assert lines[1..] == [];
  }

  lemma {:induction false} SplitLinesWellFormed(text: Text)
    requires WellFormed(text)
    ensures forall l :: l in SplitLines(text) ==> WellFormed(l)
  {
    hide IsCode;
    if text != [] {
      assert text[0] in text;
      SplitLinesWellFormed(text[1..]);
      var rest := SplitLines(text[1..]);
      assert rest[0] in rest;
      forall l | l in SplitLines(text) ensures WellFormed(l) {
        assert l == [] || l in rest || (l == [text[0]] + rest[0] && !IsNewline(text[0]));
      }
    }
  }

  lemma {:induction false} WrapLinesKeeps(result: seq<Text>, st: Style, inputLines: seq<Text>, width: nat)
    requires Sound(st) && (result == [] ==> st == CLEAR)
    requires forall l :: l in inputLines ==> WellFormed(l)
    ensures exists more ::
      WrapLines(result, st, inputLines, width) == result + more && Kept(ReadOn(st, inputLines), ReadLines(more))
    decreases |inputLines|
  {
    hide Sound, IsCode, WrapLine, ApplyAnsi, ActiveAtoms, StyleAfter, Kept, WellFormed, Read, ReadLines;
    if inputLines == [] {
      assert result + [] == result;
      KeptSame([]);
      assert ReadLines([]) == [] by { NoLines(); }
      assert Kept(ReadOn(st, []), ReadLines([]));
    } else {
      var first := inputLines[0];
      assert first in inputLines;
      var prefix := if result != [] then ActiveAtoms(st) else [];
      PrefixResumes(result != [], st, first);
      var wrapped := WrapLine(prefix + first, width);
      WrapLineNonempty(prefix + first, width);
      WrapLineKeeps(prefix + first, width);
      StyleSound(st, first);
      WrapLinesKeeps(result + wrapped, StyleAfter(st, first), inputLines[1..], width);
      var more :| WrapLines(result + wrapped, StyleAfter(st, first), inputLines[1..], width) ==
                  result + wrapped + more &&
                  Kept(ReadOn(StyleAfter(st, first), inputLines[1..]), ReadLines(more));
      KeptConcat(Read(st, first), ReadLines(wrapped), ReadOn(StyleAfter(st, first), inputLines[1..]), ReadLines(more));
      ReadLinesConcat(wrapped, more);
      assert result + wrapped + more == result + (wrapped + more);
    }
  }

  lemma NoLines()
    ensures ReadLines([]) == []
  {
  }

  lemma WrapLineNonempty(line: Text, width: nat)
    ensures WrapLine(line, width) != []
  {
  }

  lemma PrefixResumes(resumed: bool, st: Style, line: Text)
    requires Sound(st) && WellFormed(line) && (!resumed ==> st == CLEAR)
    ensures var prefix := if resumed then ActiveAtoms(st) else [];
      Read(CLEAR, prefix + line) == Read(st, line) && WellFormed(prefix + line)
  {
    if resumed {
      ActiveResumes(st, line);
      ActiveCodesAreCodes(st);
    } else {
      assert [] + line == line;
    }
  }

  /** Every output line of the wrapper, read on its own from a cleared terminal, shows the graphemes of
      the text in order with nothing but white ones missing, and each in the style it has in the text. */
  lemma WrapKeepsMeaning(text: Text, width: nat)
    requires WellFormed(text)
    ensures Kept(Read(CLEAR, text), ReadLines(WrapText(text, width)))
  {
    hide IsCode, WrapLines, SplitLines, ApplyAnsi, Kept;
    if text == [] {
      ReadOneLine([]);
      KeptSame([]);
    } else {
      SplitLinesRead(CLEAR, text);
      SplitLinesWellFormed(text);
      WrapLinesKeeps([], CLEAR, SplitLines(text), width);
      var more :| WrapLines([], CLEAR, SplitLines(text), width) == [] + more &&
                  Kept(ReadOn(CLEAR, SplitLines(text)), ReadLines(more));
      assert [] + more == more;
      KeptTrans(Read(CLEAR, text), ReadOn(CLEAR, SplitLines(text)), ReadLines(more));
    }
  }
}
