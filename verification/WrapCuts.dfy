/** Where the wrapper breaks its lines: only where what comes next does not fit. */
module WrapCuts {
  import opened AnsiCodes
  import opened StyleRoundTrip
  import opened Wrapping
  import opened WrapMeaning
  import opened WrapWidth

  // ----- a broken word -----

  function From(cuts: seq<nat>, i: nat): nat
    requires i <= |cuts|
  {
    if i == 0 then 0 else cuts[i - 1]
  }

  /** The lines of a word that starts in style `st` and is cut before the graphemes at these places: each resumes the
      style of the word and closes what is open, and no line has room for the grapheme after it. */
  ghost predicate BrokenAt(word: Text, st: Style, width: nat, cuts: seq<nat>, lines: seq<Text>) {
    && |lines| == |cuts|
    && (forall i: nat :: i < |cuts| ==> BrokenLine(word, st, width, From(cuts, i), cuts[i], lines[i]))
    && forall i: nat :: 0 < i < |cuts| ==> From(cuts, i) < cuts[i]
  }

  ghost predicate BrokenLine(word: Text, st: Style, width: nat, start: nat, cut: nat, line: Text) {
    && start <= cut < |word| && word[cut].Glyph? && TextWidth(word[start..cut]) + word[cut].width > width
    && line == ActiveAtoms(StyleAfter(st, word[..start])) + word[start..cut] + ResetAtoms(StyleAfter(st, word[..cut]))
  }

  ghost predicate Breaking(b: Breaker, word: Text, st: Style, width: nat, cuts: seq<nat>) {
    && BrokenAt(word, st, width, cuts, b.lines)
    && var start := From(cuts, |cuts|);
       && start <= |word| && (start < |word| || cuts == [])
       && b.line == ActiveAtoms(StyleAfter(st, word[..start])) + word[start..]
       && b.width == TextWidth(word[start..])
       && b.style == StyleAfter(st, word)
  }

  lemma BrokenLineStays(word: Text, more: Text, st: Style, width: nat, start: nat, cut: nat, line: Text)
    requires BrokenLine(word, st, width, start, cut, line)
    ensures BrokenLine(word + more, st, width, start, cut, line)
  {
    hide TextWidth, StyleAfter, ActiveAtoms, ResetAtoms;
    assert (word + more)[start..cut] == word[start..cut];
    assert (word + more)[..start] == word[..start] && (word + more)[..cut] == word[..cut];
  }

  lemma OneWide(a: Atom, st: Style)
    ensures TextWidth([a]) == (if a.Glyph? then a.width else 0) && TextWidth([]) == 0
    ensures StyleAfter(st, [a]) == StyleStep(st, a)
  {
    assert [a][1..] == [];
  }

  lemma BrokenStays(word: Text, more: Text, st: Style, width: nat, cuts: seq<nat>, lines: seq<Text>)
    requires BrokenAt(word, st, width, cuts, lines)
    ensures BrokenAt(word + more, st, width, cuts, lines)
  {
    hide BrokenLine;
    forall i: nat | i < |cuts| ensures BrokenLine(word + more, st, width, From(cuts, i), cuts[i], lines[i]) {
      BrokenLineStays(word, more, st, width, From(cuts, i), cuts[i], lines[i]);
    }
  }

  lemma BrokenOneMore(word: Text, st: Style, width: nat, cuts: seq<nat>, lines: seq<Text>, cut: nat, line: Text)
    requires BrokenAt(word, st, width, cuts, lines) && BrokenLine(word, st, width, From(cuts, |cuts|), cut, line)
    requires cuts == [] || From(cuts, |cuts|) < cut
    ensures BrokenAt(word, st, width, cuts + [cut], lines + [line])
  {
    hide BrokenLine;
    var more := cuts + [cut];
    assert forall i: nat :: i <= |cuts| ==> From(more, i) == From(cuts, i);
  }

  lemma BreakingOn(b: Breaker, word: Text, st: Style, width: nat, cuts: seq<nat>, a: Atom)
    requires Breaking(b, word, st, width, cuts) && (a.Glyph? ==> b.width + a.width <= width)
    ensures Breaking(BreakStep(b, a, width), word + [a], st, width, cuts)
  {
    hide TextWidth, StyleAfter, ActiveAtoms, ResetAtoms, BrokenAt, ApplyAnsi;
    var start := From(cuts, |cuts|);
    BrokenStays(word, [a], st, width, cuts, b.lines);
    OneWide(a, b.style);
    ReadConcat(st, word, [a]);
    WidthConcat(word[start..], [a]);
    assert (word + [a])[start..] == word[start..] + [a] && (word + [a])[..start] == word[..start];
  }

  lemma BreakingCut(b: Breaker, word: Text, st: Style, width: nat, cuts: seq<nat>, a: Atom)
    requires Breaking(b, word, st, width, cuts) && a.Glyph? && b.width + a.width > width
    ensures Breaking(BreakStep(b, a, width), word + [a], st, width, cuts + [|word|])
  {
    hide TextWidth, StyleAfter, ActiveAtoms, ResetAtoms, BrokenAt, BrokenLine, ApplyAnsi;
    var longer := word + [a];
    var start := From(cuts, |cuts|);
    OneWide(a, b.style);
    ReadConcat(st, word, [a]);
    assert longer[..start] == word[..start] && longer[..|word|] == word && longer[|word|..] == [a];
    assert longer[start..|word|] == word[start..];
    BrokenStays(word, [a], st, width, cuts, b.lines);
    BrokenLineIs(longer, st, width, start, |word|, b.line + ResetAtoms(b.style));
    BrokenOneMore(longer, st, width, cuts, b.lines, |word|, b.line + ResetAtoms(b.style));
  }

  lemma BreakingStep(b: Breaker, word: Text, st: Style, width: nat, cuts: seq<nat>, a: Atom) returns (more: seq<nat>)
    requires Breaking(b, word, st, width, cuts)
    ensures Breaking(BreakStep(b, a, width), word + [a], st, width, more)
  {
    hide Breaking, BreakStep;
    if a.Glyph? && b.width + a.width > width {
      BreakingCut(b, word, st, width, cuts, a);
      more := cuts + [|word|];
    } else {
      BreakingOn(b, word, st, width, cuts, a);
      more := cuts;
    }
  }

  lemma BrokenLineIs(word: Text, st: Style, width: nat, start: nat, cut: nat, line: Text)
    requires start <= cut < |word| && word[cut].Glyph? && TextWidth(word[start..cut]) + word[cut].width > width
    requires line == ActiveAtoms(StyleAfter(st, word[..start])) + word[start..cut] +
                     ResetAtoms(StyleAfter(st, word[..cut]))
    ensures BrokenLine(word, st, width, start, cut, line)
  {
  }

  lemma {:induction false} BreakingFold(b: Breaker, done: Text, st: Style, width: nat, cuts: seq<nat>, word: Text)
    returns (more: seq<nat>)
    requires Breaking(b, done, st, width, cuts)
    ensures Breaking(BreakFold(b, word, width), done + word, st, width, more)
    decreases |word|
  {
    hide Breaking, BreakStep;
    if word == [] {
      assert done + word == done;
      more := cuts;
    } else {
      var next := BreakingStep(b, done, st, width, cuts, word[0]);
      more := BreakingFold(BreakStep(b, word[0], width), done + [word[0]], st, width, next, word[1..]);
      assert done + [word[0]] + word[1..] == done + word;
    }
  }

  lemma WordBroken(word: Text, width: nat, st: Style) returns (cuts: seq<nat>)
    ensures Breaking(BreakWord(word, width, st), word, st, width, cuts)
  {
    hide BreakFold, ActiveAtoms;
    var b := Breaker([], ActiveAtoms(st), 0, st);
    assert Breaking(b, [], st, width, []);
    cuts := BreakingFold(b, [], st, width, [], word);
    assert [] + word == word;
  }

  /** The width of the first grapheme of a line. */
  function FirstWidth(line: Text): nat {
    if line == [] then 0 else if line[0].Glyph? then line[0].width else FirstWidth(line[1..])
  }

  lemma {:induction false} FirstAfterCodes(codes: Text, rest: Text)
    requires forall c :: c in codes ==> c.Code?
    ensures FirstWidth(codes + rest) == FirstWidth(rest)
    decreases |codes|
  {
    if codes == [] {
      assert codes + rest == rest;
    } else {
      assert (codes + rest)[1..] == codes[1..] + rest;
      assert codes[0] in codes && forall c :: c in codes[1..] ==> c in codes;
      FirstAfterCodes(codes[1..], rest);
    }
  }

  lemma PieceWidth(st: Style, piece: Text, closing: Style)
    ensures TextWidth(ActiveAtoms(st) + piece + ResetAtoms(closing)) == TextWidth(piece)
  {
    hide ActiveAtoms, TextWidth;
    ActiveHasNoWidth(st);
    CodesHaveNoWidth(ResetAtoms(closing));
    WidthConcat(ActiveAtoms(st), piece);
    WidthConcat(ActiveAtoms(st) + piece, ResetAtoms(closing));
  }

  lemma PieceFirst(st: Style, piece: Text, tail: Text)
    requires piece != [] && piece[0].Glyph?
    ensures FirstWidth(ActiveAtoms(st) + piece + tail) == piece[0].width
  {
    var codes := ActiveAtoms(st);
    assert forall c :: c in codes ==> c.Code?;
    hide ActiveAtoms;
    assert codes + piece + tail == codes + (piece + tail);
    FirstAfterCodes(codes, piece + tail);
  }

  lemma LinesFull(word: Text, width: nat, st: Style)
    requires word != []
    ensures var lines := BreakLines(BreakWord(word, width, st));
      forall i :: 0 <= i < |lines| - 1 ==> TextWidth(lines[i]) + FirstWidth(lines[i + 1]) > width
  {
    hide TextWidth, FirstWidth, StyleAfter, ActiveAtoms, ResetAtoms, BreakWord;
    var b := BreakWord(word, width, st);
    var cuts := WordBroken(word, width, st);
    BreakLineKept(word, width, st);
    var lines := BreakLines(b);
    forall i | 0 <= i < |lines| - 1 ensures TextWidth(lines[i]) + FirstWidth(lines[i + 1]) > width {
      var start, cut := From(cuts, i), cuts[i];
      assert BrokenLine(word, st, width, start, cut, lines[i]);
      PieceWidth(StyleAfter(st, word[..start]), word[start..cut], StyleAfter(st, word[..cut]));
      var style := StyleAfter(st, word[..cut]);
      if i + 1 < |cuts| {
        var next := cuts[i + 1];
        assert From(cuts, i + 1) == cut < next && BrokenLine(word, st, width, cut, next, lines[i + 1]);
        PieceFirst(style, word[cut..next], ResetAtoms(StyleAfter(st, word[..next])));
      } else {
        assert lines[i + 1] == ActiveAtoms(style) + word[cut..];
        PieceFirst(style, word[cut..], []);
        assert ActiveAtoms(style) + word[cut..] + [] == ActiveAtoms(style) + word[cut..];
      }
    }
  }

  lemma NothingBroken(width: nat, st: Style)
    ensures |BreakLines(BreakWord([], width, st))| == 1
  {
  }

  /** No line of a broken word but the last has room for the first grapheme of the next. */
  lemma BrokenLinesFull(word: Text, width: nat, st: Style)
    ensures var lines := BreakLines(BreakWord(word, width, st));
      forall i :: 0 <= i < |lines| - 1 ==> TextWidth(lines[i]) + FirstWidth(lines[i + 1]) > width
  {
    hide TextWidth, FirstWidth, BreakWord, BreakLines;
    if word == [] { NothingBroken(width, st); } else { LinesFull(word, width, st); }
  }

  // ----- a wrapped line -----

  /** Why a line ends: the next token has no room, blanks had none and are dropped, the next token is too long for any
      line, or such a token is broken. */
  datatype Why = NoRoom | Dropped | AheadOfLong | InsideLong

  datatype Cut = Cut(at: nat, why: Why, token: nat)

  function Start(cuts: seq<Cut>, i: nat): nat
    requires i <= |cuts|
  {
    if i == 0 then 0 else cuts[i - 1].at
  }

  function TokenStart(tokens: seq<Text>, k: nat): nat
    requires k <= |tokens|
  {
    |Concat(tokens[..k])|
  }

  /** The line from `start` has to end at this cut. */
  ghost predicate CutFits(text: Text, tokens: seq<Text>, width: nat, start: nat, c: Cut)
    requires start <= c.at <= |text|
  {
    && c.token < |tokens|
    && var token, a := tokens[c.token], TokenStart(tokens, c.token);
       && a + |token| <= |text|
       && match c.why
          case NoRoom =>
            && c.at == a && !IsWhite(token) && !IsLong(token, width)
            && 0 < TextWidth(text[start..a]) && TextWidth(text[start..a]) + TextWidth(token) > width
          case Dropped =>
            && start <= a && c.at == a + |token| && IsWhite(token)
            && 0 < TextWidth(text[start..a]) && TextWidth(text[start..a]) + TextWidth(token) > width
          case AheadOfLong => c.at == a && IsLong(token, width)
          case InsideLong =>
            && IsLong(token, width) && a <= start && c.at < a + |token|
            && text[c.at].Glyph? && TextWidth(text[start..c.at]) + text[c.at].width > width
  }

  /** The line from `start` to a cut: the style resumed, the blanks before a word taken off, what is open closed. */
  function CutLine(text: Text, start: nat, c: Cut): Text
    requires start <= c.at <= |text|
  {
    var line := ActiveAtoms(StyleAfter(CLEAR, text[..start])) + text[start..c.at];
    (if c.why.NoRoom? || c.why.Dropped? then TrimEnd(line) else line) + ResetAtoms(StyleAfter(CLEAR, text[..c.at]))
  }

  function LastLine(text: Text, start: nat): Text
    requires start <= |text|
  {
    ActiveAtoms(StyleAfter(CLEAR, text[..start])) + text[start..]
  }

  predicate CutThere(cuts: seq<Cut>, at: nat) {
    at == 0 || exists i :: 0 <= i < |cuts| && cuts[i].at == at
  }

  ghost predicate InRange(text: Text, cuts: seq<Cut>) {
    forall i: nat :: i < |cuts| ==> Start(cuts, i) <= cuts[i].at <= |text|
  }

  /** The text is cut where it has to be, and every token too long for a line begins one. */
  ghost predicate WellCut(text: Text, tokens: seq<Text>, width: nat, cuts: seq<Cut>)
    requires InRange(text, cuts)
  {
    && (forall i: nat :: i < |cuts| ==> CutFits(text, tokens, width, Start(cuts, i), cuts[i]))
    && forall k: nat :: k < |tokens| && IsLong(tokens[k], width) ==> CutThere(cuts, TokenStart(tokens, k))
  }

  ghost predicate CutInto(text: Text, cuts: seq<Cut>, lines: seq<Text>)
    requires InRange(text, cuts)
  {
    |lines| == |cuts| && forall i: nat :: i < |cuts| ==> lines[i] == CutLine(text, Start(cuts, i), cuts[i])
  }

  ghost predicate LaidOut(text: Text, tokens: seq<Text>, width: nat, cuts: seq<Cut>, lines: seq<Text>) {
    && Concat(tokens) == text && InRange(text, cuts)
    && WellCut(text, tokens, width, cuts) && CutInto(text, cuts, lines)
  }

  /** The lines so far are cut out of the text, and the current line holds the rest. */
  ghost predicate Laid(w: Wrapper, text: Text, tokens: seq<Text>, width: nat, cuts: seq<Cut>) {
    && LaidOut(text, tokens, width, cuts, w.wrapped)
    && var start := Start(cuts, |cuts|);
       && start <= |text|
       && w.line == LastLine(text, start) && w.width == TextWidth(text[start..]) && w.style == StyleAfter(CLEAR, text)
  }

  lemma TokenStartStays(tokens: seq<Text>, token: Text, k: nat)
    requires k <= |tokens|
    ensures TokenStart(tokens + [token], k) == TokenStart(tokens, k)
    ensures TokenStart(tokens, |tokens|) == |Concat(tokens)|
  {
    assert (tokens + [token])[..k] == tokens[..k] && tokens[..|tokens|] == tokens;
  }

  lemma CutStays(text: Text, more: Text, tokens: seq<Text>, token: Text, width: nat, start: nat, c: Cut)
    requires start <= c.at <= |text| && CutFits(text, tokens, width, start, c)
    ensures CutFits(text + more, tokens + [token], width, start, c)
    ensures CutLine(text + more, start, c) == CutLine(text, start, c)
  {
    hide TextWidth, StyleAfter, ActiveAtoms, ResetAtoms, IsWhite, IsLong, TrimEnd, Concat, TokenStart;
    TokenStartStays(tokens, token, c.token);
    var a := TokenStart(tokens, c.token);
    assert (text + more)[start..c.at] == text[start..c.at];
    assert start <= a <= |text| ==> (text + more)[start..a] == text[start..a];
    assert (text + more)[..start] == text[..start] && (text + more)[..c.at] == text[..c.at];
  }

  /** The cuts that a token adds, and their lines. */
  ghost predicate Added(text: Text, tokens: seq<Text>, width: nat, cuts: seq<Cut>, added: seq<Cut>, lines: seq<Text>) {
    var all := cuts + added;
    && |lines| == |added|
    && (forall i: nat :: |cuts| <= i < |all| ==> Start(all, i) <= all[i].at <= |text|)
    && (forall i: nat :: |cuts| <= i < |all| ==> CutFits(text, tokens, width, Start(all, i), all[i]))
    && (forall i: nat :: |cuts| <= i < |all| ==> lines[i - |cuts|] == CutLine(text, Start(all, i), all[i]))
  }

  lemma CutThereStays(cuts: seq<Cut>, added: seq<Cut>, at: nat)
    requires CutThere(cuts, at)
    ensures CutThere(cuts + added, at)
  {
    if at != 0 {
      var i :| 0 <= i < |cuts| && cuts[i].at == at;
      assert (cuts + added)[i].at == at;
    }
  }

  /** What was laid out stays so when a token follows. */
  lemma LaidMore(text: Text, tokens: seq<Text>, token: Text, width: nat, cuts: seq<Cut>, added: seq<Cut>,
                 lines: seq<Text>, more: seq<Text>)
    requires LaidOut(text, tokens, width, cuts, lines)
    requires Added(text + token, tokens + [token], width, cuts, added, more)
    requires IsLong(token, width) ==> CutThere(cuts + added, |text|)
    ensures LaidOut(text + token, tokens + [token], width, cuts + added, lines + more)
  {
    hide CutFits, CutLine, Concat, TokenStart, CutThere, IsLong;
    var all, longer := cuts + added, text + token;
    ConcatSnoc(tokens, token);
    assert forall i: nat :: i <= |cuts| ==> Start(all, i) == Start(cuts, i);
    assert InRange(longer, all);
    forall i: nat | i < |all|
      ensures CutFits(longer, tokens + [token], width, Start(all, i), all[i])
      ensures (lines + more)[i] == CutLine(longer, Start(all, i), all[i])
    {
      if i < |cuts| { CutStays(text, token, tokens, token, width, Start(cuts, i), cuts[i]); }
    }
    forall k: nat | k <= |tokens| && IsLong((tokens + [token])[k], width)
      ensures CutThere(all, TokenStart(tokens + [token], k))
    {
      TokenStartStays(tokens, token, k);
      if k < |tokens| { CutThereStays(cuts, added, TokenStart(tokens, k)); }
    }
  }

  lemma RestSlices(text: Text, token: Text, start: nat)
    requires start <= |text|
    ensures (text + token)[start..] == text[start..] + token && (text + token)[..start] == text[..start]
  {
  }

  lemma RestGrows(text: Text, token: Text, start: nat)
    requires start <= |text|
    ensures LastLine(text + token, start) == LastLine(text, start) + token
    ensures TextWidth((text + token)[start..]) == TextWidth(text[start..]) + TextWidth(token)
    ensures StyleAfter(CLEAR, text + token) == StyleAfter(StyleAfter(CLEAR, text), token)
  {
    hide StyleAfter, TextWidth, ActiveAtoms;
    ReadConcat(CLEAR, text, token);
    WidthConcat(text[start..], token);
    RestSlices(text, token, start);
    var codes, rest := ActiveAtoms(StyleAfter(CLEAR, text[..start])), text[start..];
    assert codes + (rest + token) == (codes + rest) + token;
  }

  lemma NothingMore(text: Text, tokens: seq<Text>, width: nat, cuts: seq<Cut>)
    ensures Added(text, tokens, width, cuts, [], [])
  {
  }

  lemma LaidOn(w: Wrapper, text: Text, tokens: seq<Text>, token: Text, width: nat, cuts: seq<Cut>)
    requires Laid(w, text, tokens, width, cuts) && !IsLong(token, width)
    requires w.width + TextWidth(token) <= width || w.width == 0
    ensures Laid(WrapStep(w, token, width), text + token, tokens + [token], width, cuts)
  {
    hide LaidOut, IsLong, StyleAfter, TextWidth, IsWhite, ActiveAtoms, TrimEnd, LastLine, Start, Added, ResetAtoms;
    NothingMore(text + token, tokens + [token], width, cuts);
    LaidMore(text, tokens, token, width, cuts, [], w.wrapped, []);
    assert cuts + [] == cuts && w.wrapped + [] == w.wrapped;
    RestGrows(text, token, Start(cuts, |cuts|));
  }

  /** One more cut, at the end of the current line. */
  lemma OneAdded(text: Text, tokens: seq<Text>, width: nat, cuts: seq<Cut>, c: Cut)
    requires Start(cuts, |cuts|) <= c.at <= |text| && CutFits(text, tokens, width, Start(cuts, |cuts|), c)
    ensures Added(text, tokens, width, cuts, [c], [CutLine(text, Start(cuts, |cuts|), c)])
    ensures Start(cuts + [c], |cuts + [c]|) == c.at
  {
    hide CutFits, CutLine;
    assert forall i: nat :: i <= |cuts| ==> Start(cuts + [c], i) == Start(cuts, i);
  }

  /** The next token does not fit and begins a line. */
  lemma LaidNoRoom(w: Wrapper, text: Text, tokens: seq<Text>, token: Text, width: nat, cuts: seq<Cut>)
    returns (c: Cut)
    requires Laid(w, text, tokens, width, cuts) && !IsLong(token, width) && !IsWhite(token)
    requires w.width + TextWidth(token) > width && w.width > 0
    ensures Laid(WrapStep(w, token, width), text + token, tokens + [token], width, cuts + [c])
  {
    hide LaidOut, IsLong, StyleAfter, TextWidth, IsWhite, ActiveAtoms, TrimEnd, Start, Added, ResetAtoms;
    var start, longer := Start(cuts, |cuts|), text + token;
    c := Cut(|text|, NoRoom, |tokens|);
    assert longer[start..|text|] == text[start..] && longer[..|text|] == text && longer[|text|..] == token;
    assert longer[..start] == text[..start];
    LastTokenStart(text, tokens, token, width, cuts, w.wrapped);
    assert CutFits(longer, tokens + [token], width, start, c);
    OneAdded(longer, tokens + [token], width, cuts, c);
    var line := CutLine(longer, start, c);
    assert line == TrimEnd(w.line) + ResetAtoms(w.style);
    LaidMore(text, tokens, token, width, cuts, [c], w.wrapped, [line]);
    ReadConcat(CLEAR, text, token);
  }

  lemma LastTokenStart(text: Text, tokens: seq<Text>, token: Text, width: nat, cuts: seq<Cut>, lines: seq<Text>)
    requires LaidOut(text, tokens, width, cuts, lines)
    ensures TokenStart(tokens + [token], |tokens|) == |text|
  {
    TokenStartStays(tokens, token, |tokens|);
  }

  lemma WholeAndRest(text: Text, token: Text, start: nat)
    requires start <= |text|
    ensures (text + token)[..start] == text[..start] && (text + token)[..|text + token|] == text + token
    ensures (text + token)[start..|text + token|] == text[start..] + token
  {
  }

  lemma DroppedLine(text: Text, token: Text, start: nat, k: nat)
    requires start <= |text| && IsWhite(token)
    ensures CutLine(text + token, start, Cut(|text + token|, Dropped, k)) ==
            TrimEnd(LastLine(text, start)) + ResetAtoms(StyleAfter(CLEAR, text))
    ensures StyleAfter(CLEAR, text + token) == StyleAfter(CLEAR, text)
  {
    hide StyleAfter, IsWhite, ActiveAtoms, TrimEnd, ResetAtoms;
    ReadConcat(CLEAR, text, token);
    WhiteDropped(StyleAfter(CLEAR, text), token);
    WholeAndRest(text, token, start);
    var codes, rest := ActiveAtoms(StyleAfter(CLEAR, text[..start])), text[start..];
    TrimWhite(codes + rest, token);
    assert codes + (rest + token) == (codes + rest) + token;
  }

  /** Blanks that do not fit are dropped, and the line ends with them. */
  lemma LaidDropped(w: Wrapper, text: Text, tokens: seq<Text>, token: Text, width: nat, cuts: seq<Cut>)
    returns (c: Cut)
    requires Laid(w, text, tokens, width, cuts) && !IsLong(token, width) && IsWhite(token)
    requires w.width + TextWidth(token) > width && w.width > 0
    ensures Laid(WrapStep(w, token, width), text + token, tokens + [token], width, cuts + [c])
  {
    hide LaidOut, IsLong, StyleAfter, TextWidth, IsWhite, ActiveAtoms, TrimEnd, Start, Added, ResetAtoms, CutLine;
    var start, longer := Start(cuts, |cuts|), text + token;
    c := Cut(|longer|, Dropped, |tokens|);
    assert longer[start..|text|] == text[start..] && longer[..|longer|] == longer && longer[|longer|..] == [];
    LastTokenStart(text, tokens, token, width, cuts, w.wrapped);
    assert CutFits(longer, tokens + [token], width, start, c);
    OneAdded(longer, tokens + [token], width, cuts, c);
    DroppedLine(text, token, start, |tokens|);
    LaidMore(text, tokens, token, width, cuts, [c], w.wrapped, [CutLine(longer, start, c)]);
    WhiteDropped(w.style, token);
    OneWide(Code(""), CLEAR);
  }

  // ----- a long token -----

  /** The cuts inside a token that starts at `from`. */
  function Inside(from: nat, token: nat, cuts: seq<nat>): (r: seq<Cut>)
    ensures |r| == |cuts|
  {
    seq(|cuts|, i requires 0 <= i < |cuts| => Cut(from + cuts[i], InsideLong, token))
  }

  lemma SliceOfToken(text: Text, token: Text, i: nat, j: nat)
    requires i <= j <= |token|
    ensures (text + token)[|text| + i..|text| + j] == token[i..j]
    ensures (text + token)[..|text| + i] == text + token[..i]
    ensures j < |token| ==> (text + token)[|text| + j] == token[j]
  {
  }

  lemma InsideLine(text: Text, token: Text, width: nat, start: nat, cut: nat, line: Text, k: nat)
    requires BrokenLine(token, StyleAfter(CLEAR, text), width, start, cut, line)
    ensures line == CutLine(text + token, |text| + start, Cut(|text| + cut, InsideLong, k))
  {
    hide *;
    BrokenLineParts(token, StyleAfter(CLEAR, text), width, start, cut, line);
    SliceOfToken(text, token, start, cut);
    SliceOfToken(text, token, cut, cut);
    ReadConcat(CLEAR, text, token[..start]);
    ReadConcat(CLEAR, text, token[..cut]);
    CutLineIs(text + token, |text| + start, Cut(|text| + cut, InsideLong, k));
  }

  lemma BrokenLineParts(word: Text, st: Style, width: nat, start: nat, cut: nat, line: Text)
    requires BrokenLine(word, st, width, start, cut, line)
    ensures start <= cut < |word| && word[cut].Glyph? && TextWidth(word[start..cut]) + word[cut].width > width
    ensures line == ActiveAtoms(StyleAfter(st, word[..start])) + word[start..cut] +
                    ResetAtoms(StyleAfter(st, word[..cut]))
  {
  }

  lemma CutLineIs(text: Text, start: nat, c: Cut)
    requires start <= c.at <= |text| && c.why.InsideLong?
    ensures CutLine(text, start, c) == ActiveAtoms(StyleAfter(CLEAR, text[..start])) + text[start..c.at] +
                                       ResetAtoms(StyleAfter(CLEAR, text[..c.at]))
  {
  }

  lemma CutFitsInside(text: Text, tokens: seq<Text>, width: nat, start: nat, c: Cut)
    requires start <= c.at < |text| && c.token < |tokens| && c.why.InsideLong? && IsLong(tokens[c.token], width)
    requires TokenStart(tokens, c.token) <= start
    requires c.at < TokenStart(tokens, c.token) + |tokens[c.token]| <= |text|
    requires text[c.at].Glyph? && TextWidth(text[start..c.at]) + text[c.at].width > width
    ensures CutFits(text, tokens, width, start, c)
  {
  }

  lemma InsideFits(text: Text, tokens: seq<Text>, token: Text, width: nat, start: nat, cut: nat)
    requires Concat(tokens) == text && IsLong(token, width) && start <= cut < |token|
    requires token[cut].Glyph? && TextWidth(token[start..cut]) + token[cut].width > width
    ensures CutFits(text + token, tokens + [token], width, |text| + start, Cut(|text| + cut, InsideLong, |tokens|))
  {
    hide *;
    var longer, all, k := text + token, tokens + [token], |tokens|;
    TokenStartStays(tokens, token, k);
    SliceOfToken(text, token, start, cut);
    assert all[k] == token && |longer| == |text| + |token|;
    CutFitsInside(longer, all, width, |text| + start, Cut(|text| + cut, InsideLong, k));
  }

  lemma EmptyLineIs(text: Text, start: nat)
    requires start <= |text| && LastLine(text, start) == []
    ensures start == |text|
  {
    hide ActiveAtoms;
    assert |LastLine(text, start)| >= |text[start..]|;
  }

  /** The line ahead of a long token, closed. */
  function Ahead(w: Wrapper, text: Text, k: nat): seq<Cut> {
    if w.line != [] then [Cut(|text|, AheadOfLong, k)] else []
  }

  function AheadLines(w: Wrapper): seq<Text> {
    if w.line != [] then [w.line + ResetAtoms(w.style)] else []
  }

  lemma AheadFits(w: Wrapper, text: Text, tokens: seq<Text>, token: Text, width: nat, cuts: seq<Cut>)
    requires Laid(w, text, tokens, width, cuts) && IsLong(token, width)
    ensures Added(text + token, tokens + [token], width, cuts, Ahead(w, text, |tokens|), AheadLines(w))
    ensures var all := cuts + Ahead(w, text, |tokens|); Start(all, |all|) == |text| && CutThere(all, |text|)
  {
    hide LaidOut, IsLong, StyleAfter, TextWidth, ActiveAtoms, TrimEnd, ResetAtoms, Concat, TokenStart, Added;
    var start, k, longer := Start(cuts, |cuts|), |tokens|, text + token;
    var all := cuts + Ahead(w, text, k);
    LastTokenStart(text, tokens, token, width, cuts, w.wrapped);
    if w.line != [] {
      var c := Cut(|text|, AheadOfLong, k);
      assert longer[start..|text|] == text[start..] && longer[..|text|] == text && longer[..start] == text[..start];
      assert CutFits(longer, tokens + [token], width, start, c);
      OneAdded(longer, tokens + [token], width, cuts, c);
      assert CutLine(longer, start, c) == w.line + ResetAtoms(w.style);
      assert all[|cuts|] == c;
    } else {
      EmptyLineIs(text, start);
      assert all == cuts;
      NothingMore(longer, tokens + [token], width, cuts);
    }
  }

  lemma AddedJoin(text: Text, tokens: seq<Text>, width: nat, cuts: seq<Cut>, a: seq<Cut>, b: seq<Cut>, x: seq<Text>,
                  y: seq<Text>)
    requires Added(text, tokens, width, cuts, a, x) && Added(text, tokens, width, cuts + a, b, y)
    ensures Added(text, tokens, width, cuts, a + b, x + y)
  {
    hide CutFits, CutLine;
    var some, all := cuts + a, cuts + (a + b);
    assert all == some + b;
    forall i: nat | |cuts| <= i < |all|
      ensures Start(all, i) <= all[i].at <= |text| && CutFits(text, tokens, width, Start(all, i), all[i])
      ensures (x + y)[i - |cuts|] == CutLine(text, Start(all, i), all[i])
    {
      if i < |some| { assert Start(all, i) == Start(some, i); }
    }
  }

  lemma StartInside(cuts: seq<Cut>, at: nat, k: nat, broken: seq<nat>, j: nat)
    requires Start(cuts, |cuts|) == at && j <= |broken|
    ensures Start(cuts + Inside(at, k, broken), |cuts| + j) == at + From(broken, j)
    ensures j < |broken| ==> (cuts + Inside(at, k, broken))[|cuts| + j] == Cut(at + broken[j], InsideLong, k)
  {
  }

  lemma InsideOne(text: Text, tokens: seq<Text>, token: Text, width: nat, start: nat, cut: nat, line: Text)
    requires Concat(tokens) == text && IsLong(token, width)
    requires BrokenLine(token, StyleAfter(CLEAR, text), width, start, cut, line)
    ensures |text| + start <= |text| + cut <= |text + token|
    ensures var c := Cut(|text| + cut, InsideLong, |tokens|);
      && CutFits(text + token, tokens + [token], width, |text| + start, c)
      && line == CutLine(text + token, |text| + start, c)
  {
    hide *;
    BrokenLineParts(token, StyleAfter(CLEAR, text), width, start, cut, line);
    InsideFits(text, tokens, token, width, start, cut);
    InsideLine(text, token, width, start, cut, line, |tokens|);
  }

  lemma InsideAdded(text: Text, tokens: seq<Text>, token: Text, width: nat, cuts: seq<Cut>, broken: seq<nat>,
                    lines: seq<Text>)
    requires Concat(tokens) == text && IsLong(token, width) && Start(cuts, |cuts|) == |text|
    requires BrokenAt(token, StyleAfter(CLEAR, text), width, broken, lines)
    ensures var inside := Inside(|text|, |tokens|, broken);
      && Added(text + token, tokens + [token], width, cuts, inside, lines)
      && Start(cuts + inside, |cuts + inside|) == |text| + From(broken, |broken|)
  {
    hide IsLong, StyleAfter, BrokenLine, CutFits, CutLine, Concat, Start, From, Inside;
    var inside, longer, more := Inside(|text|, |tokens|, broken), text + token, tokens + [token];
    var all := cuts + inside;
    StartInside(cuts, |text|, |tokens|, broken, |broken|);
    forall i: nat | |cuts| <= i < |all|
      ensures Start(all, i) <= all[i].at <= |longer|
      ensures CutFits(longer, more, width, Start(all, i), all[i])
      ensures lines[i - |cuts|] == CutLine(longer, Start(all, i), all[i])
    {
      var j := i - |cuts|;
      StartInside(cuts, |text|, |tokens|, broken, j);
      InsideOne(text, tokens, token, width, From(broken, j), broken[j], lines[j]);
    }
  }

  lemma RestOfToken(text: Text, token: Text, st: Style, at: nat)
    requires st == StyleAfter(CLEAR, text) && at <= |token|
    ensures LastLine(text + token, |text| + at) == ActiveAtoms(StyleAfter(st, token[..at])) + token[at..]
    ensures TextWidth((text + token)[|text| + at..]) == TextWidth(token[at..])
    ensures TextWidth(ActiveAtoms(StyleAfter(st, token[..at])) + token[at..]) == TextWidth(token[at..])
    ensures StyleAfter(CLEAR, text + token) == StyleAfter(st, token)
  {
    hide StyleAfter, TextWidth, ActiveAtoms;
    SliceOfToken(text, token, at, at);
    assert (text + token)[|text| + at..] == token[at..];
    ReadConcat(CLEAR, text, token[..at]);
    ReadConcat(CLEAR, text, token);
    ActiveHasNoWidth(StyleAfter(st, token[..at]));
    WidthConcat(ActiveAtoms(StyleAfter(st, token[..at])), token[at..]);
  }

  lemma LongStepGives(w: Wrapper, token: Text, width: nat)
    requires IsLong(token, width)
    ensures var b := BreakWord(token, width, w.style);
      WrapStep(w, token, width) == Wrapper(w.wrapped + (AheadLines(w) + b.lines), b.line, TextWidth(b.line), b.style)
  {
    hide IsLong, BreakWord, TextWidth, ResetAtoms, BreakLines, WrapStep;
    assert token != [] by { EmptyNotLong(width); }
    var b := BreakWord(token, width, w.style);
    BreakLineKept(token, width, w.style);
    LongStepIs(w, token, width);
    assert BreakLines(b) == b.lines + [b.line] by { LinesOf(b); }
    assert (b.lines + [b.line])[..|b.lines|] == b.lines;
    assert Flushed(w) + b.lines == w.wrapped + (AheadLines(w) + b.lines);
  }

  lemma LinesOf(b: Breaker)
    requires b.line != []
    ensures BreakLines(b) == b.lines + [b.line]
  {
  }

  lemma LaidLong(w: Wrapper, text: Text, tokens: seq<Text>, token: Text, width: nat, cuts: seq<Cut>)
    returns (added: seq<Cut>)
    requires Laid(w, text, tokens, width, cuts) && IsLong(token, width)
    ensures Laid(WrapStep(w, token, width), text + token, tokens + [token], width, cuts + added)
  {
    hide IsLong, StyleAfter, TextWidth, ActiveAtoms, BreakWord, WrapStep, LastLine, WellCut, CutInto, CutFits, CutLine,
         Added, Start, From, Inside, Ahead, AheadLines, BrokenAt, InRange, Concat, CutThere;
    var st := w.style;
    var b := BreakWord(token, width, st);
    var broken := WordBroken(token, width, st);
    var ahead, inside := Ahead(w, text, |tokens|), Inside(|text|, |tokens|, broken);
    var longer, more := text + token, tokens + [token];
    added := ahead + inside;
    AheadFits(w, text, tokens, token, width, cuts);
    InsideAdded(text, tokens, token, width, cuts + ahead, broken, b.lines);
    AddedJoin(longer, more, width, cuts, ahead, inside, AheadLines(w), b.lines);
    assert cuts + added == cuts + ahead + inside;
    CutThereStays(cuts + ahead, inside, |text|);
    LaidMore(text, tokens, token, width, cuts, added, w.wrapped, AheadLines(w) + b.lines);
    LongStepGives(w, token, width);
    RestOfToken(text, token, st, From(broken, |broken|));
  }

  lemma LaidStep(w: Wrapper, text: Text, tokens: seq<Text>, token: Text, width: nat, cuts: seq<Cut>)
    returns (more: seq<Cut>)
    requires Laid(w, text, tokens, width, cuts)
    ensures Laid(WrapStep(w, token, width), text + token, tokens + [token], width, more)
  {
    hide *;
    if IsLong(token, width) {
      var added := LaidLong(w, text, tokens, token, width, cuts);
      more := cuts + added;
    } else if w.width + TextWidth(token) <= width || w.width == 0 {
      LaidOn(w, text, tokens, token, width, cuts);
      more := cuts;
    } else if IsWhite(token) {
      var c := LaidDropped(w, text, tokens, token, width, cuts);
      more := cuts + [c];
    } else {
      var c := LaidNoRoom(w, text, tokens, token, width, cuts);
      more := cuts + [c];
    }
  }

  lemma {:induction false} LaidFold(w: Wrapper, text: Text, done: seq<Text>, width: nat, cuts: seq<Cut>,
                                    tokens: seq<Text>)
    returns (more: seq<Cut>)
    requires Laid(w, text, done, width, cuts)
    ensures Laid(WrapFold(w, tokens, width), text + Concat(tokens), done + tokens, width, more)
    decreases |tokens|
  {
    hide Laid, WrapStep;
    if tokens == [] {
      assert text + [] == text && done + tokens == done;
      more := cuts;
    } else {
      var token, rest := tokens[0], tokens[1..];
      var next := LaidStep(w, text, done, token, width, cuts);
      more := LaidFold(WrapStep(w, token, width), text + token, done + [token], width, next, rest);
      assert done + [token] + rest == done + tokens;
      assert text + token + Concat(rest) == text + Concat(tokens);
    }
  }

  lemma NothingLaid(width: nat)
    ensures Laid(NOTHING_WRAPPED, [], [], width, [])
  {
    assert ActiveAtoms(CLEAR) == [];
  }

  // ----- the output -----

  ghost predicate Trimmed(lines: seq<Text>, outs: seq<Text>) {
    |lines| == |outs| && forall i :: 0 <= i < |lines| ==> outs[i] == TrimEnd(lines[i])
  }

  /** The lines a text is cut into, and then what is left of it. */
  ghost predicate Cutting(text: Text, tokens: seq<Text>, width: nat, cuts: seq<Cut>, outs: seq<Text>) {
    exists lines: seq<Text> ::
      && LaidOut(text, tokens, width, cuts, lines)
      && Start(cuts, |cuts|) <= |text|
      && var last := LastLine(text, Start(cuts, |cuts|));
         Trimmed(lines + if last == [] then [] else [last], outs)
  }

  // ----- what a token is -----

  /** Spaces, or graphemes of a word, with the codes around them. */
  predicate RunOf(token: Text, spaces: bool) {
    HasGlyph(token) && forall a :: a in token && a.Glyph? ==> if spaces then IsSpace(a) else !IsSpace(a) && !a.cjk
  }

  /** One grapheme that stands for itself. */
  predicate Alone(token: Text) {
    exists i :: 0 <= i < |token| && token[i].Glyph? && !IsSpace(token[i]) && token[i].cjk &&
                forall j :: 0 <= j < |token| && j != i ==> token[j].Code?
  }

  predicate EndsInGlyph(token: Text) {
    token != [] && token[|token| - 1].Glyph?
  }

  predicate Apart(s: Text, t: Text) {
    !(RunOf(s, true) && RunOf(t, true)) && !(RunOf(s, false) && RunOf(t, false))
  }

  predicate IsToken(token: Text) {
    RunOf(token, true) || RunOf(token, false) || Alone(token)
  }

  /** Every token is a run or stands alone, runs are as long as can be, and codes go with the grapheme after them. */
  predicate TokensAre(tokens: seq<Text>) {
    && (forall i :: 0 <= i < |tokens| ==> IsToken(tokens[i]))
    && (forall i :: 0 < i < |tokens| ==> Apart(tokens[i - 1], tokens[i]))
    && forall i :: 0 <= i < |tokens| - 1 ==> EndsInGlyph(tokens[i])
  }

  ghost predicate Tokenizing(t: Tokenizer) {
    && TokensAre(t.tokens) && (t.tokens != [] ==> EndsInGlyph(t.tokens[|t.tokens| - 1]))
    && (forall a :: a in t.pending ==> a.Code?)
    && (t.current == [] ==> t.kind == NoKind && (t.tokens != [] ==> Alone(t.tokens[|t.tokens| - 1])))
    && (t.current != [] ==>
          && t.kind != NoKind && RunOf(t.current, t.kind == SpaceKind) && EndsInGlyph(t.current)
          && (t.tokens != [] ==> Apart(t.tokens[|t.tokens| - 1], t.current)))
  }

  lemma TokensSnoc(tokens: seq<Text>, token: Text)
    requires TokensAre(tokens) && (tokens != [] ==> EndsInGlyph(tokens[|tokens| - 1])) && IsToken(token)
    requires tokens != [] ==> Apart(tokens[|tokens| - 1], token)
    ensures TokensAre(tokens + [token])
  {
    hide RunOf, Alone, Apart, EndsInGlyph, IsToken;
  }

  lemma AloneApart(s: Text, t: Text)
    requires Alone(s) || Alone(t)
    ensures Apart(s, t)
  {
    if Alone(s) { NotRun(s); }
    if Alone(t) { NotRun(t); }
  }

  lemma NotRun(s: Text)
    requires Alone(s)
    ensures !RunOf(s, true) && !RunOf(s, false)
  {
    var i :| 0 <= i < |s| && s[i].Glyph? && !IsSpace(s[i]) && s[i].cjk;
    assert s[i] in s;
  }

  lemma KindsApart(s: Text, t: Text, spaces: bool)
    requires RunOf(s, !spaces) && RunOf(t, spaces)
    ensures Apart(s, t)
  {
    var a :| a in s && a.Glyph?;
    var b :| b in t && b.Glyph?;
  }

  lemma RunGrows(current: Text, pending: Text, a: Atom, spaces: bool)
    requires current == [] || RunOf(current, spaces)
    requires forall c :: c in pending ==> c.Code?
    requires a.Glyph? && if spaces then IsSpace(a) else !IsSpace(a) && !a.cjk
    ensures RunOf(current + pending + [a], spaces) && EndsInGlyph(current + pending + [a])
  {
    assert a in current + pending + [a];
  }

  lemma FlushTokenizes(t: Tokenizer)
    requires Tokenizing(t)
    ensures var f := FlushCurrent(t);
      && TokensAre(f.tokens) && f.current == [] && f.pending == t.pending
      && (f.tokens != [] ==> EndsInGlyph(f.tokens[|f.tokens| - 1]))
      && (t.current != [] ==> f.tokens == t.tokens + [t.current])
  {
    hide RunOf, Alone, Apart, EndsInGlyph, TokensAre;
    if t.current != [] { TokensSnoc(t.tokens, t.current); }
  }

  lemma TokenizingStep(t: Tokenizer, a: Atom)
    requires Tokenizing(t)
    ensures Tokenizing(TokenStep(t, a))
  {
    hide RunOf, Alone, Apart, EndsInGlyph, TokensAre, IsToken;
    FlushTokenizes(t);
    var f := FlushCurrent(t);
    if a.Glyph? {
      if !IsSpace(a) && a.cjk {
        var token := f.pending + [a];
        assert Alone(token) && EndsInGlyph(token) by { StandsAlone(f.pending, a); }
        if f.tokens != [] { AloneApart(f.tokens[|f.tokens| - 1], token); }
        assert IsToken(token) by { AloneIsToken(token); }
        TokensSnoc(f.tokens, token);
      } else {
        var spaces := IsSpace(a);
        var u := if t.current != [] && (t.kind == SpaceKind) != spaces then f else t;
        RunGrows(u.current, u.pending, a, spaces);
        var current := u.current + u.pending + [a];
        if u.tokens != [] {
          var last := u.tokens[|u.tokens| - 1];
          if u.current != [] {
            SameRunApart(last, u.current, current, spaces);
          } else if t.current != [] {
            KindsApart(last, current, spaces);
          } else {
            AloneApart(last, current);
          }
        }
      }
    }
  }

  lemma StandsAlone(pending: Text, a: Atom)
    requires (forall c :: c in pending ==> c.Code?) && a.Glyph? && !IsSpace(a) && a.cjk
    ensures Alone(pending + [a]) && EndsInGlyph(pending + [a])
  {
    assert (pending + [a])[|pending|] == a;
  }

  lemma AloneIsToken(token: Text)
    requires Alone(token)
    ensures IsToken(token)
  {
  }

  lemma SameRunApart(s: Text, t: Text, u: Text, spaces: bool)
    requires Apart(s, t) && RunOf(t, spaces) && RunOf(u, spaces)
    ensures Apart(s, u)
  {
    var b :| b in u && b.Glyph?;
  }

  lemma {:induction false} TokenizingFold(t: Tokenizer, text: Text)
    requires Tokenizing(t)
    ensures Tokenizing(TokenFold(t, text))
    decreases |text|
  {
    hide Tokenizing, TokenStep;
    if text != [] {
      TokenizingStep(t, text[0]);
      TokenizingFold(TokenStep(t, text[0]), text[1..]);
    }
  }

  /** A text that shows anything is cut into such tokens. */
  lemma TokensOf(text: Text)
    requires HasGlyph(text)
    ensures TokensAre(Tokens(text)) && Concat(Tokens(text)) == text
  {
    hide TokensAre, Alone, EndsInGlyph, HasGlyph, Concat, TokenFold;
    TokensConcat(text);
    NoTokensYet();
    TokenizingFold(NO_TOKENS, text);
    var t := TokenFold(NO_TOKENS, text);
    FlushTokenizes(t);
    if t.pending != [] {
      if t.current != [] {
        CodesAtEnd(t.tokens, t.current, t.pending);
      } else if t.tokens != [] {
        var init, last := t.tokens[..|t.tokens| - 1], t.tokens[|t.tokens| - 1];
        assert init + [last] == t.tokens;
        CodesAtEnd(init, last, t.pending);
      } else {
        TokenFoldHolds(NO_TOKENS, text);
        ConcatNothing();
        assert Held(NO_TOKENS) + text == text && Held(t) == t.pending;
        CodesHaveNoGlyph(t.pending);
      }
    }
  }

  lemma NoTokensYet()
    ensures Tokenizing(NO_TOKENS)
  {
  }

  lemma CodesChangeNoRun(token: Text, codes: Text, spaces: bool)
    requires forall c :: c in codes ==> c.Code?
    ensures RunOf(token + codes, spaces) <==> RunOf(token, spaces)
  {
    var all := token + codes;
    assert forall a :: a in all <==> a in token || a in codes;
  }

  lemma CodesKeepAlone(token: Text, codes: Text)
    requires Alone(token) && forall c :: c in codes ==> c.Code?
    ensures Alone(token + codes)
  {
    var i :| 0 <= i < |token| && token[i].Glyph? && !IsSpace(token[i]) && token[i].cjk &&
             forall j :: 0 <= j < |token| && j != i ==> token[j].Code?;
    var all := token + codes;
    assert all[i] == token[i];
    forall j | 0 <= j < |all| && j != i ensures all[j].Code? {
      if j >= |token| { assert all[j] in codes; }
    }
  }

  /** Codes after the last grapheme go with the last token. */
  lemma CodesAtEnd(init: seq<Text>, last: Text, codes: Text)
    requires TokensAre(init + [last]) && forall c :: c in codes ==> c.Code?
    ensures TokensAre(init + [last + codes])
  {
    hide RunOf, Alone, EndsInGlyph;
    CodesChangeNoRun(last, codes, true);
    CodesChangeNoRun(last, codes, false);
    if Alone(last) { CodesKeepAlone(last, codes); }
    var some, all := init + [last], init + [last + codes];
    var n := |init|;
    assert IsToken(some[n]);
    assert n > 0 ==> Apart(some[n - 1], some[n]);
    forall i | 0 <= i < |all| ensures IsToken(all[i]) { assert IsToken(some[i]); }
    forall i | 0 < i < |all| ensures Apart(all[i - 1], all[i]) { assert Apart(some[i - 1], some[i]); }
    forall i | 0 <= i < |all| - 1 ensures EndsInGlyph(all[i]) { assert EndsInGlyph(some[i]); }
  }

  // ----- whole lines and whole texts -----

  /** One input line as it is wrapped: as it is if it fits, else cut only where what follows does not fit. */
  ghost predicate Wrapped(line: Text, width: nat, outs: seq<Text>) {
    if TextWidth(line) <= width then outs == [line]
    else exists tokens: seq<Text>, cuts: seq<Cut> :: TokensAre(tokens) && Cutting(line, tokens, width, cuts, outs)
  }

  lemma WidthShows(text: Text)
    requires TextWidth(text) > 0
    ensures HasGlyph(text)
  {
    NoGlyphNoWidth(text);
  }

  lemma LinesTrimmed(w: Wrapper, text: Text, tokens: seq<Text>, width: nat, cuts: seq<Cut>)
    requires Laid(w, text, tokens, width, cuts) && text != []
    ensures Cutting(text, tokens, width, cuts, FinishWrap(w))
  {
    hide LaidOut, TextWidth, StyleAfter, TrimEnd;
    var last := LastLine(text, Start(cuts, |cuts|));
    var lines := w.wrapped + if last == [] then [] else [last];
    LinesCount(text, tokens, width, cuts, w.wrapped);
    if last == [] { EmptyLineIs(text, Start(cuts, |cuts|)); }
    assert lines != [];
    assert Trimmed(lines, TrimAll(lines));
  }

  lemma LinesCount(text: Text, tokens: seq<Text>, width: nat, cuts: seq<Cut>, lines: seq<Text>)
    requires LaidOut(text, tokens, width, cuts, lines)
    ensures |lines| == |cuts|
  {
  }

  /** Every input line is broken only where the next token, or the next grapheme of a token too long, has no room. */
  lemma WrapLineCuts(line: Text, width: nat)
    ensures Wrapped(line, width, WrapLine(line, width))
  {
    hide Tokens, WrapFold, Laid, TokensAre, Cutting, TextWidth, FinishWrap;
    if line == [] {
      assert TextWidth([]) == 0 by { OneWide(Code(""), CLEAR); }
    } else if TextWidth(line) > width {
      WidthShows(line);
      TokensOf(line);
      NothingLaid(width);
      var tokens := Tokens(line);
      var cuts := LaidFold(NOTHING_WRAPPED, [], [], width, [], tokens);
      assert [] + Concat(tokens) == line && [] + tokens == tokens;
      LinesTrimmed(WrapFold(NOTHING_WRAPPED, tokens, width), line, tokens, width, cuts);
      assert Cutting(line, tokens, width, cuts, WrapLine(line, width));
    }
  }

  /** The lines are what stands between the newlines of the text. */
  predicate SplitsTo(text: Text, lines: seq<Text>)
    decreases |lines|
  {
    && lines != [] && (forall a :: a in lines[0] ==> !IsNewline(a))
    && if |lines| == 1 then text == lines[0]
       else
         var n := |lines[0]|;
         n < |text| && text[..n] == lines[0] && IsNewline(text[n]) && SplitsTo(text[n + 1..], lines[1..])
  }

  lemma {:induction false} SplitLinesSplit(text: Text)
    ensures SplitsTo(text, SplitLines(text))
    decreases |text|
  {
    hide IsNewline;
    if text != [] {
      var a, rest := text[0], SplitLines(text[1..]);
      SplitLinesStep(text);
      SplitLinesSplit(text[1..]);
      if IsNewline(a) {
        assert ([[]] + rest)[1..] == rest && text[..0] == [];
      } else {
        SplitMore(a, text[1..], rest);
        assert [a] + text[1..] == text;
      }
    }
  }

  lemma SplitMore(a: Atom, text: Text, lines: seq<Text>)
    requires !IsNewline(a) && SplitsTo(text, lines)
    ensures SplitsTo([a] + text, [[a] + lines[0]] + lines[1..])
  {
    hide IsNewline;
    var more, longer := [[a] + lines[0]] + lines[1..], [a] + text;
    if |lines| > 1 {
      var n := |lines[0]|;
      assert longer[..n + 1] == [a] + text[..n] && longer[n + 2..] == text[n + 1..];
      assert more[1..] == lines[1..];
    }
  }

  /** The input lines wrapped one after the other, each but the first with the style in front that holds by then. */
  ghost predicate AllWrapped(inputLines: seq<Text>, width: nat, parts: seq<seq<Text>>) {
    && |parts| == |inputLines|
    && forall i :: 0 <= i < |parts| ==>
         && parts[i] != []
         && Wrapped((if i == 0 then [] else ActiveAtoms(StyleAfter(CLEAR, Concat(inputLines[..i])))) + inputLines[i],
                    width, parts[i])
  }

  function Flat(parts: seq<seq<Text>>): seq<Text> {
    if parts == [] then [] else Flat(parts[..|parts| - 1]) + parts[|parts| - 1]
  }

  lemma FlatSnoc(parts: seq<seq<Text>>, part: seq<Text>)
    ensures Flat(parts + [part]) == Flat(parts) + part
  {
    assert (parts + [part])[..|parts|] == parts;
  }

  lemma {:induction false} WrapLinesCuts(done: seq<Text>, parts: seq<seq<Text>>, rest: seq<Text>, width: nat)
    returns (all: seq<seq<Text>>)
    requires AllWrapped(done, width, parts)
    ensures AllWrapped(done + rest, width, all)
    ensures WrapLines(Flat(parts), StyleAfter(CLEAR, Concat(done)), rest, width) == Flat(all)
    decreases |rest|
  {
    hide Wrapped, StyleAfter, ActiveAtoms, WrapLine, Concat, AllWrapped, Flat;
    if rest == [] {
      assert done + rest == done;
      all := parts;
    } else {
      var line, later, st := rest[0], rest[1..], StyleAfter(CLEAR, Concat(done));
      var prefix := if done == [] then [] else ActiveAtoms(st);
      var part := WrapLine(prefix + line, width);
      WrapLineCuts(prefix + line, width);
      WrapLineNonempty(prefix + line, width);
      OneMoreWrapped(done, parts, width, line, part);
      FlatSnoc(parts, part);
      FlatEmpty(done, parts, width);
      ConcatSnoc(done, line);
      ReadConcat(CLEAR, Concat(done), line);
      all := WrapLinesCuts(done + [line], parts + [part], later, width);
      assert done + [line] + later == done + rest;
    }
  }

  lemma FlatEmpty(done: seq<Text>, parts: seq<seq<Text>>, width: nat)
    requires AllWrapped(done, width, parts)
    ensures Flat(parts) == [] <==> done == []
  {
    hide Wrapped;
  }

  lemma OneMoreWrapped(done: seq<Text>, parts: seq<seq<Text>>, width: nat, line: Text, part: seq<Text>)
    requires AllWrapped(done, width, parts) && part != []
    requires Wrapped((if done == [] then [] else ActiveAtoms(StyleAfter(CLEAR, Concat(done)))) + line, width, part)
    ensures AllWrapped(done + [line], width, parts + [part])
  {
    hide Wrapped, StyleAfter, ActiveAtoms, Concat;
    assert forall i :: 0 <= i <= |done| ==> (done + [line])[..i] == done[..i];
    assert done[..|done|] == done;
  }

  /** The whole output: the text split at its newlines, each line wrapped, one after the other. */
  ghost predicate WrappedText(text: Text, width: nat, outs: seq<Text>) {
    exists inputLines: seq<Text>, parts: seq<seq<Text>> ::
      SplitsTo(text, inputLines) && AllWrapped(inputLines, width, parts) && outs == Flat(parts)
  }

  /** A text is broken at its newlines, and elsewhere only where what comes next has no room. */
  lemma WrapTextCuts(text: Text, width: nat)
    ensures WrappedText(text, width, WrapText(text, width))
  {
    hide SplitsTo, AllWrapped, WrapLines, SplitLines, Flat, Wrapped;
    var lines := SplitLines(text);
    SplitLinesSplit(text);
    NoLinesYet(width);
    var parts := WrapLinesCuts([], [], lines, width);
    assert [] + lines == lines;
    if text == [] { EmptyWraps(width); }
    assert AllWrapped(lines, width, parts);
  }

  lemma NoLinesYet(width: nat)
    ensures AllWrapped([], width, []) && Flat([]) == [] && StyleAfter(CLEAR, Concat([])) == CLEAR
  {
  }

  lemma EmptyWraps(width: nat)
    ensures WrapLines([], CLEAR, SplitLines([]), width) == [[]]
  {
    hide WrapLine;
    var lines := SplitLines([]);
    EmptyLine(width);
    assert lines[1..] == [];
    assert [] + lines[0] == [] && [] + WrapLine([], width) == [[]];
  }

  lemma EmptyLine(width: nat)
    ensures WrapLine([], width) == [[]]
  {
  }
}
