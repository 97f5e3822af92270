/** Word wrapping of styled text. */
module Wrapping {
  import opened Strings
  import opened AnsiCodes
  import opened StyleRoundTrip

  /** Text as the wrapper reads it: styling codes and grapheme clusters of known width. */
  datatype Atom =
    | Code(code: string)
    | Glyph(g: string, width: nat, white: bool, cjk: bool)

  type Text = seq<Atom>

  predicate IsSpace(a: Atom) {
    a.Glyph? && a.g == " "
  }

  predicate IsNewline(a: Atom) {
    a.Glyph? && a.g == "\n"
  }

  /** Codes are complete codes; space and newline are white. */
  predicate WellFormed(text: Text) {
    forall a :: a in text ==>
      (a.Code? ==> IsCode(a.code)) &&
      (IsSpace(a) ==> a.white && !a.cjk) && (IsNewline(a) ==> a.white)
  }

  function TextWidth(text: Text): nat {
    if text == [] then 0 else (if text[0].Glyph? then text[0].width else 0) + TextWidth(text[1..])
  }

  function StyleStep(st: Style, a: Atom): Style {
    if a.Code? then ApplyAnsi(st, a.code) else st
  }

  function StyleAfter(st: Style, text: Text): Style
    decreases |text|
  {
    if text == [] then st else StyleAfter(StyleStep(st, text[0]), text[1..])
  }

  function CodeAtoms(codes: seq<string>): (r: Text)
    ensures |r| == |codes|
  {
    seq(|codes|, i requires 0 <= i < |codes| => Code(codes[i]))
  }

  /** What `getActiveCodes` prints, as atoms. */
  function ActiveAtoms(st: Style): Text {
    CodeAtoms(ActiveCodeList(st))
  }

  /** What `getLineEndReset` prints, as atoms. */
  function ResetAtoms(st: Style): Text {
    CodeAtoms(LineEndCodes(st))
  }

  function Concat(parts: seq<Text>): Text {
    if parts == [] then [] else parts[0] + Concat(parts[1..])
  }

  /** The string that the atoms are read from. */
  function Print(text: Text): string {
    if text == [] then "" else (if text[0].Code? then text[0].code else text[0].g) + Print(text[1..])
  }

  /** No grapheme holds an escape character. */
  predicate Unescaped(text: Text) {
    forall a :: a in text && a.Glyph? ==> ESC !in a.g
  }

  lemma {:induction false} NoCodeIn(st: Style, s: string, rest: string)
    requires ESC !in s
    ensures StyleAfterText(st, s + rest, 0) == StyleAfterText(st, rest, 0)
    decreases |s|
  {
    hide ApplyAnsi;
    if s == "" {
      assert s + rest == rest;
    } else {
      var all := s + rest;
      assert all[0] == s[0] && CodeAt(all, 0).None?;
      StyleAfterSuffix(st, all, 1);
      assert all[1..] == s[1..] + rest;
      NoCodeIn(st, s[1..], rest);
    }
  }

  /** Processing the codes of a string, position by position, comes to the same as going through its atoms. */
  lemma {:induction false} AtomsRead(st: Style, text: Text)
    requires WellFormed(text) && Unescaped(text)
    ensures StyleAfterText(st, Print(text), 0) == StyleAfter(st, text)
    decreases |text|
  {
    hide ApplyAnsi, IsCode, StyleAfterText;
    if text == [] {
      NothingRead(st);
    } else {
      var a, rest := text[0], text[1..];
      assert a in text;
      AtomsRead(StyleStep(st, a), rest);
      if a.Code? {
        ReadCode(st, a.code, Print(rest));
      } else {
        NoCodeIn(st, a.g, Print(rest));
      }
    }
  }

  lemma NothingRead(st: Style)
    ensures StyleAfterText(st, "", 0) == st
  {
  }

  method UpdateTracker(text: Text, tracker: AnsiCodeTracker)
    modifies tracker
    ensures tracker.View() == StyleAfter(old(tracker.View()), text)
  {
    hide ApplyAnsi;
    var i := 0;
    while i < |text|
      invariant 0 <= i <= |text|
      invariant StyleAfter(tracker.View(), text[i..]) == StyleAfter(old(tracker.View()), text)
    {
      assert text[i..][1..] == text[i + 1..];
      if text[i].Code? {
        tracker.Process(text[i].code);
      }
      i := i + 1;
    }
  }

  // ----- tokens -----

  datatype Kind = NoKind | SpaceKind | WordKind

  datatype Tokenizer = Tokenizer(tokens: seq<Text>, current: Text, pending: Text, kind: Kind)

  function FlushCurrent(t: Tokenizer): Tokenizer {
    if t.current == [] then t else t.(tokens := t.tokens + [t.current], current := [], kind := NoKind)
  }

  function TokenStep(t: Tokenizer, a: Atom): Tokenizer {
    if a.Code? then t.(pending := t.pending + [a])
    else if !IsSpace(a) && a.cjk then
      var f := FlushCurrent(t);
      f.(tokens := f.tokens + [f.pending + [a]], pending := [])
    else
      var kind := if IsSpace(a) then SpaceKind else WordKind;
      var f := if t.current != [] && t.kind != kind then FlushCurrent(t) else t;
      f.(current := f.current + f.pending + [a], pending := [], kind := kind)
  }

  function TokenFold(t: Tokenizer, text: Text): Tokenizer
    decreases |text|
  {
    if text == [] then t else TokenFold(TokenStep(t, text[0]), text[1..])
  }

  function FinishTokens(t: Tokenizer): seq<Text> {
    if t.pending == [] then FlushCurrent(t).tokens
    else if t.current != [] then t.tokens + [t.current + t.pending]
    else if t.tokens != [] then t.tokens[..|t.tokens| - 1] + [t.tokens[|t.tokens| - 1] + t.pending]
    else [t.pending]
  }

  const NO_TOKENS := Tokenizer([], [], [], NoKind)

  function Tokens(text: Text): seq<Text> {
    FinishTokens(TokenFold(NO_TOKENS, text))
  }

  method SplitIntoTokensWithAnsi(text: Text) returns (tokens: seq<Text>)
    ensures tokens == Tokens(text)
  {
    tokens := [];
    var current: Text := [];
    var pendingAnsi: Text := [];
    var currentKind := NoKind;
    var i := 0;
    while i < |text|
      invariant 0 <= i <= |text|
      invariant TokenFold(Tokenizer(tokens, current, pendingAnsi, currentKind), text[i..]) == TokenFold(NO_TOKENS, text)
    {
      assert text[i..][1..] == text[i + 1..];
      var a := text[i];
      i := i + 1;
      if a.Code? {
        pendingAnsi := pendingAnsi + [a];
        continue;
      }
      var segmentIsSpace := IsSpace(a);
      if !segmentIsSpace && a.cjk {
        if current != [] {
          tokens := tokens + [current];
          current, currentKind := [], NoKind;
        }
        tokens := tokens + [pendingAnsi + [a]];
        pendingAnsi := [];
        continue;
      }
      var segmentKind := if segmentIsSpace then SpaceKind else WordKind;
      if current != [] && currentKind != segmentKind {
        tokens := tokens + [current];
        current, currentKind := [], NoKind;
      }
      assert current + [] == current;
      if pendingAnsi != [] {
        current := current + pendingAnsi;
        pendingAnsi := [];
      }
      currentKind := segmentKind;
      current := current + [a];
    }
    if pendingAnsi != [] {
      if current != [] {
        current := current + pendingAnsi;
      } else if |tokens| > 0 {
        tokens := tokens[|tokens| - 1 := tokens[|tokens| - 1] + pendingAnsi];
      } else {
        current := pendingAnsi;
      }
    }
    if current != [] {
      tokens := tokens + [current];
    }
  }

  // ----- breaking a long word -----

  datatype Breaker = Breaker(lines: seq<Text>, line: Text, width: nat, style: Style)

  function BreakStep(b: Breaker, a: Atom, width: nat): Breaker {
    if a.Code? then b.(line := b.line + [a], style := ApplyAnsi(b.style, a.code))
    else if b.width + a.width > width then
      Breaker(b.lines + [b.line + ResetAtoms(b.style)], ActiveAtoms(b.style) + [a], a.width, b.style)
    else b.(line := b.line + [a], width := b.width + a.width)
  }

  function BreakFold(b: Breaker, word: Text, width: nat): Breaker
    decreases |word|
  {
    if word == [] then b else BreakFold(BreakStep(b, word[0], width), word[1..], width)
  }

  lemma BreakFoldStep(b: Breaker, word: Text, width: nat)
    ensures word == [] ==> BreakFold(b, word, width) == b
    ensures word != [] ==> BreakFold(b, word, width) == BreakFold(BreakStep(b, word[0], width), word[1..], width)
  {
  }

  function BreakWord(word: Text, width: nat, st: Style): Breaker {
    BreakFold(Breaker([], ActiveAtoms(st), 0, st), word, width)
  }

  function BreakLines(b: Breaker): (lines: seq<Text>)
    ensures lines != []
  {
    if b.line != [] then b.lines + [b.line] else if b.lines != [] then b.lines else [[]]
  }

  lemma BreakLinesExist(b: Breaker)
    ensures BreakLines(b) != []
  {
  }

  method BreakLongWord(word: Text, width: nat, tracker: AnsiCodeTracker) returns (lines: seq<Text>)
    modifies tracker
    ensures var b := BreakWord(word, width, old(tracker.View())); lines == BreakLines(b) && tracker.View() == b.style
  {
    hide ApplyAnsi, BreakFold, ActiveAtoms, ResetAtoms;
    lines := [];
    var currentLine := ActiveAtoms(tracker.View());
    var currentWidth: nat := 0;
    var i := 0;
    while i < |word|
      invariant 0 <= i <= |word|
      invariant BreakFold(Breaker(lines, currentLine, currentWidth, tracker.View()), word[i..], width) ==
                BreakWord(word, width, old(tracker.View()))
    {
      BreakFoldStep(Breaker(lines, currentLine, currentWidth, tracker.View()), word[i..], width);
      assert word[i..][1..] == word[i + 1..];
      var a := word[i];
      i := i + 1;
      if a.Code? {
        currentLine := currentLine + [a];
        tracker.Process(a.code);
        continue;
      }
      if currentWidth + a.width > width {
        currentLine := currentLine + ResetAtoms(tracker.View());
        lines := lines + [currentLine];
        currentLine := ActiveAtoms(tracker.View());
        currentWidth := 0;
      }
      currentLine := currentLine + [a];
      currentWidth := currentWidth + a.width;
    }
    BreakFoldStep(Breaker(lines, currentLine, currentWidth, tracker.View()), word[i..], width);
    if currentLine != [] {
      lines := lines + [currentLine];
    }
    if lines == [] {
      lines := [[]];
    }
  }

  // ----- wrapping one line -----

  predicate IsWhite(token: Text) {
    forall a :: a in token ==> a.Glyph? && a.white
  }

  function TrimEnd(line: Text): Text {
    if line != [] && line[|line| - 1].Glyph? && line[|line| - 1].white then TrimEnd(line[..|line| - 1]) else line
  }

  datatype Wrapper = Wrapper(wrapped: seq<Text>, line: Text, width: nat, style: Style)

  predicate IsLong(token: Text, width: nat) {
    TextWidth(token) > width && !IsWhite(token)
  }

  function WrapStep(w: Wrapper, token: Text, width: nat): Wrapper {
    if IsLong(token, width) then
      var flushed := if w.line != [] then w.wrapped + [w.line + ResetAtoms(w.style)] else w.wrapped;
      var b := BreakWord(token, width, w.style);
      var broken := BreakLines(b);
      var last := broken[|broken| - 1];
      Wrapper(flushed + broken[..|broken| - 1], last, TextWidth(last), b.style)
    else
      var style := StyleAfter(w.style, token);
      if w.width + TextWidth(token) > width && w.width > 0 then
        var wrapped := w.wrapped + [TrimEnd(w.line) + ResetAtoms(w.style)];
        if IsWhite(token) then Wrapper(wrapped, ActiveAtoms(w.style), 0, style)
        else Wrapper(wrapped, ActiveAtoms(w.style) + token, TextWidth(token), style)
      else
        Wrapper(w.wrapped, w.line + token, w.width + TextWidth(token), style)
  }

  function WrapFold(w: Wrapper, tokens: seq<Text>, width: nat): Wrapper
    decreases |tokens|
  {
    if tokens == [] then w else WrapFold(WrapStep(w, tokens[0], width), tokens[1..], width)
  }

  lemma WrapFoldStep(w: Wrapper, tokens: seq<Text>, width: nat)
    ensures tokens == [] ==> WrapFold(w, tokens, width) == w
    ensures tokens != [] ==> WrapFold(w, tokens, width) == WrapFold(WrapStep(w, tokens[0], width), tokens[1..], width)
  {
  }

  const NOTHING_WRAPPED := Wrapper([], [], 0, CLEAR)

  function TrimAll(lines: seq<Text>): (r: seq<Text>)
    ensures |r| == |lines|
  {
    seq(|lines|, i requires 0 <= i < |lines| => TrimEnd(lines[i]))
  }

  function FinishWrap(w: Wrapper): seq<Text> {
    var wrapped := if w.line != [] then w.wrapped + [w.line] else w.wrapped;
    if wrapped != [] then TrimAll(wrapped) else [[]]
  }

  function WrapLine(line: Text, width: nat): (lines: seq<Text>)
    ensures lines != []
  {
    if line == [] then [[]]
    else if TextWidth(line) <= width then [line]
    else FinishWrap(WrapFold(NOTHING_WRAPPED, Tokens(line), width))
  }

  /** A token too long for any line goes onto lines of its own; the last of them stays open. */
  method AddLongToken(wrapped: seq<Text>, currentLine: Text, currentVisibleLength: nat, token: Text, width: nat,
                      tracker: AnsiCodeTracker) returns (lines: seq<Text>, line: Text, visibleLength: nat)
    requires IsLong(token, width)
    modifies tracker
    ensures Wrapper(lines, line, visibleLength, tracker.View()) ==
            WrapStep(Wrapper(wrapped, currentLine, currentVisibleLength, old(tracker.View())), token, width)
  {
    hide IsLong, TextWidth, BreakWord, BreakLines, ResetAtoms;
    lines := wrapped;
    if currentLine != [] {
      lines := lines + [currentLine + ResetAtoms(tracker.View())];
    }
    BreakLinesExist(BreakWord(token, width, tracker.View()));
    var broken := BreakLongWord(token, width, tracker);
    lines := lines + broken[..|broken| - 1];
    line := broken[|broken| - 1];
    visibleLength := TextWidth(line);
  }

  /** Any other token goes onto the current line, or onto a new one if it does not fit. */
  method AddToken(wrapped: seq<Text>, currentLine: Text, currentVisibleLength: nat, token: Text, width: nat,
                  tracker: AnsiCodeTracker) returns (lines: seq<Text>, line: Text, visibleLength: nat)
    requires !IsLong(token, width)
    modifies tracker
    ensures Wrapper(lines, line, visibleLength, tracker.View()) ==
            WrapStep(Wrapper(wrapped, currentLine, currentVisibleLength, old(tracker.View())), token, width)
  {
    hide IsLong, TextWidth, StyleAfter, ActiveAtoms, ResetAtoms, TrimEnd, IsWhite;
    lines := wrapped;
    var totalNeeded := currentVisibleLength + TextWidth(token);
    if totalNeeded > width && currentVisibleLength > 0 {
      lines := lines + [TrimEnd(currentLine) + ResetAtoms(tracker.View())];
      if IsWhite(token) {
        line := ActiveAtoms(tracker.View());
        visibleLength := 0;
      } else {
        line := ActiveAtoms(tracker.View()) + token;
        visibleLength := TextWidth(token);
      }
    } else {
      line := currentLine + token;
      visibleLength := currentVisibleLength + TextWidth(token);
    }
    UpdateTracker(token, tracker);
  }

  method WrapSingleLine(line: Text, width: nat) returns (lines: seq<Text>)
    ensures lines == WrapLine(line, width)
  {
    if line == [] {
      return [[]];
    }
    if TextWidth(line) <= width {
      return [line];
    }
    hide Tokens, ApplyAnsi, StyleAfter, TextWidth, TrimEnd, TrimAll, WrapStep, WrapFold, IsWhite;
    var wrapped: seq<Text> := [];
    var tracker := new AnsiCodeTracker();
    var tokens := SplitIntoTokensWithAnsi(line);
    var currentLine: Text := [];
    var currentVisibleLength: nat := 0;
    var i := 0;
    while i < |tokens|
      invariant 0 <= i <= |tokens|
      invariant WrapFold(Wrapper(wrapped, currentLine, currentVisibleLength, tracker.View()), tokens[i..], width) ==
                WrapFold(NOTHING_WRAPPED, tokens, width)
    {
      WrapFoldStep(Wrapper(wrapped, currentLine, currentVisibleLength, tracker.View()), tokens[i..], width);
      assert tokens[i..][1..] == tokens[i + 1..];
      var token := tokens[i];
      i := i + 1;
      var tokenVisibleLength := TextWidth(token);
      var isWhitespace := IsWhite(token);
      if tokenVisibleLength > width && !isWhitespace {
        wrapped, currentLine, currentVisibleLength :=
          AddLongToken(wrapped, currentLine, currentVisibleLength, token, width, tracker);
        continue;
      }
      wrapped, currentLine, currentVisibleLength :=
        AddToken(wrapped, currentLine, currentVisibleLength, token, width, tracker);
    }
    WrapFoldStep(Wrapper(wrapped, currentLine, currentVisibleLength, tracker.View()), tokens[i..], width);
    if currentLine != [] {
      wrapped := wrapped + [currentLine];
    }
    return if wrapped != [] then TrimAll(wrapped) else [[]];
  }

  // ----- wrapping text -----

  function SplitLines(text: Text): (lines: seq<Text>)
    ensures lines != []
  {
    if text == [] then [[]]
    else if IsNewline(text[0]) then [[]] + SplitLines(text[1..])
    else
      var rest := SplitLines(text[1..]);
      [[text[0]] + rest[0]] + rest[1..]
  }

  /** The output after some input lines: the lines so far and the style they leave. */
  function WrapLines(result: seq<Text>, st: Style, inputLines: seq<Text>, width: nat): seq<Text>
    decreases |inputLines|
  {
    if inputLines == [] then result
    else
      var prefix := if result != [] then ActiveAtoms(st) else [];
      WrapLines(result + WrapLine(prefix + inputLines[0], width), StyleAfter(st, inputLines[0]), inputLines[1..], width)
  }

  function WrapText(text: Text, width: nat): seq<Text> {
    if text == [] then [[]] else WrapLines([], CLEAR, SplitLines(text), width)
  }

  method WrapTextWithAnsi(text: Text, width: nat) returns (result: seq<Text>)
    ensures result == WrapText(text, width)
  {
    if text == [] {
      return [[]];
    }
    hide ApplyAnsi, StyleAfter, WrapLine, SplitLines;
    var inputLines := SplitLines(text);
    result := [];
    var tracker := new AnsiCodeTracker();
    var i := 0;
    while i < |inputLines|
      invariant 0 <= i <= |inputLines|
      invariant WrapLines(result, tracker.View(), inputLines[i..], width) == WrapLines([], CLEAR, inputLines, width)
    {
      assert inputLines[i..][1..] == inputLines[i + 1..];
      var prefix := if |result| > 0 then ActiveAtoms(tracker.View()) else [];
      var wrappedLines := WrapSingleLine(prefix + inputLines[i], width);
      result := result + wrappedLines;
      UpdateTracker(inputLines[i], tracker);
      i := i + 1;
    }
  }
}
