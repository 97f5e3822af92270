/** Wrapped lines close what they opened: an underline would run into the padding, a hyperlink into the next line. */
module LineEnds {
  import opened Options
  import opened AnsiCodes
  import opened StyleRoundTrip
  import opened Wrapping
  import opened WrapMeaning

  /** Read from a cleared terminal, a line leaves neither an underline nor a hyperlink open. */
  predicate NothingOpen(line: Text) {
    var st := StyleAfter(CLEAR, line);
    !st.underline && st.link.None?
  }

  predicate AllClosed(lines: seq<Text>) {
    forall i :: 0 <= i < |lines| ==> NothingOpen(lines[i])
  }

  /** What is printed at the end of a line closes its underline and its hyperlink, and keeps the rest of the style. */
  lemma ResetCloses(st: Style)
    ensures StyleAfter(st, ResetAtoms(st)) == st.(underline := false, link := None)
  {
    CodesApply(st, LineEndCodes(st));
    LineEndCloses(st);
  }

  lemma EndClosed(line: Text, st: Style)
    requires StyleAfter(CLEAR, line) == st
    ensures NothingOpen(line + ResetAtoms(st))
  {
    hide ResetAtoms;
    ReadConcat(CLEAR, line, ResetAtoms(st));
    ResetCloses(st);
  }

  lemma {:induction false} TrimKeepsStyle(line: Text)
    ensures StyleAfter(CLEAR, TrimEnd(line)) == StyleAfter(CLEAR, line)
  {
    if TrimEnd(line) != line {
      var init, last := line[..|line| - 1], line[|line| - 1];
      assert line == init + [last];
      ReadConcat(CLEAR, init, [last]);
      assert [last][1..] == [];
      TrimKeepsStyle(init);
    }
  }

  // ----- broken words -----

  /** The lines so far are closed, and the current one stands in the style it should. */
  ghost predicate BreakCloses(b: Breaker) {
    AllClosed(b.lines) && Sound(b.style) && StyleAfter(CLEAR, b.line) == b.style
  }

  lemma BreakStepCloses(b: Breaker, a: Atom, width: nat)
    requires BreakCloses(b) && (a.Code? ==> IsCode(a.code))
    ensures BreakCloses(BreakStep(b, a, width))
  {
    hide Sound, ApplyAnsi, IsCode, ActiveAtoms, ResetAtoms, NothingOpen;
    assert [a][1..] == [];
    ReadConcat(CLEAR, b.line, [a]);
    if a.Code? {
      ApplyAnsiSound(b.style, a.code);
    } else if b.width + a.width > width {
      EndClosed(b.line, b.style);
      ActiveResumes(b.style, [a]);
    }
  }

  lemma {:induction false} BreakFoldCloses(b: Breaker, word: Text, width: nat)
    requires BreakCloses(b) && WellFormed(word)
    ensures BreakCloses(BreakFold(b, word, width))
    decreases |word|
  {
    hide BreakCloses, BreakStep, IsCode;
    if word != [] {
      assert word[0] in word;
      BreakStepCloses(b, word[0], width);
      BreakFoldCloses(BreakStep(b, word[0], width), word[1..], width);
    }
  }

  lemma BreakWordCloses(word: Text, width: nat, st: Style)
    requires Sound(st) && WellFormed(word) && word != []
    ensures var b := BreakWord(word, width, st);
      BreakCloses(b) && BreakLines(b) == b.lines + [b.line]
  {
    hide Sound, IsCode, ActiveAtoms, BreakFold;
    ActiveResumes(st, []);
    assert ActiveAtoms(st) + [] == ActiveAtoms(st);
    BreakFoldCloses(Breaker([], ActiveAtoms(st), 0, st), word, width);
    BreakLineKept(word, width, st);
  }

  // ----- wrapped lines -----

  ghost predicate WrapCloses(w: Wrapper) {
    AllClosed(w.wrapped) && Sound(w.style) && StyleAfter(CLEAR, w.line) == w.style
  }

  lemma LongStepCloses(w: Wrapper, token: Text, width: nat)
    requires WrapCloses(w) && WellFormed(token) && IsLong(token, width)
    ensures WrapCloses(WrapStep(w, token, width))
  {
    hide Sound, IsCode, BreakWord, ResetAtoms, TextWidth, NothingOpen, BreakLines, IsLong, WrapStep, StyleAfter;
    assert token != [] by { EmptyNotLong(width); }
    LongStepIs(w, token, width);
    EndClosed(w.line, w.style);
    BreakWordCloses(token, width, w.style);
    var b := BreakWord(token, width, w.style);
    assert (b.lines + [b.line])[..|b.lines|] == b.lines;
  }

  lemma WrapStepCloses(w: Wrapper, token: Text, width: nat)
    requires WrapCloses(w) && WellFormed(token)
    ensures WrapCloses(WrapStep(w, token, width))
  {
    hide Sound, ApplyAnsi, IsCode, ActiveAtoms, ResetAtoms, TextWidth, TrimEnd, NothingOpen;
    if IsLong(token, width) {
      LongStepCloses(w, token, width);
      return;
    }
    ReadConcat(CLEAR, w.line, token);
    StyleSound(w.style, token);
    TrimKeepsStyle(w.line);
    EndClosed(TrimEnd(w.line), w.style);
    ActiveResumes(w.style, token);
    if IsWhite(token) {
      WhiteDropped(w.style, token);
      ActiveResumes(w.style, []);
      assert ActiveAtoms(w.style) + [] == ActiveAtoms(w.style);
    }
  }

  lemma {:induction false} WrapFoldCloses(w: Wrapper, tokens: seq<Text>, width: nat)
    requires WrapCloses(w) && WellFormed(Concat(tokens))
    ensures WrapCloses(WrapFold(w, tokens, width))
    decreases |tokens|
  {
    hide WrapCloses, WrapStep, IsCode;
    if tokens != [] {
      WrapStepCloses(w, tokens[0], width);
      WrapFoldCloses(WrapStep(w, tokens[0], width), tokens[1..], width);
    }
  }

  /** Every output line of a wrapped line but its last leaves nothing open; the last is for the caller to close. */
  lemma WrapLineCloses(line: Text, width: nat)
    requires WellFormed(line)
    ensures var lines := WrapLine(line, width); AllClosed(lines[..|lines| - 1])
  {
    hide Tokens, WrapFold, IsCode, NothingOpen, TrimEnd;
    if line != [] && TextWidth(line) > width {
      TokensConcat(line);
      WrapFoldCloses(NOTHING_WRAPPED, Tokens(line), width);
      var w := WrapFold(NOTHING_WRAPPED, Tokens(line), width);
      forall i | 0 <= i < |w.wrapped| ensures NothingOpen(TrimEnd(w.wrapped[i])) {
        TrimKeepsClosed(w.wrapped[i]);
      }
    }
  }

  lemma TrimKeepsClosed(line: Text)
    requires NothingOpen(line)
    ensures NothingOpen(TrimEnd(line))
  {
    TrimKeepsStyle(line);
  }
}
