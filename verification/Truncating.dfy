/** Cutting styled text to a width, with an ellipsis. */
module Truncating {
  import opened Options
  import opened AnsiCodes
  import opened Strings
  import opened StyleRoundTrip
  import opened Wrapping
  import opened WrapMeaning
  import opened WrapWidth

  function Min(a: int, b: int): int {
    if a < b then a else b
  }

  const BLANK := Glyph(" ", 1, true, false)
  const SGR_RESET := Code([ESC] + "[0m")

  function Blanks(n: int): (r: Text)
    ensures |r| == (if n > 0 then n else 0)
  {
    seq(if n > 0 then n else 0, i => BLANK)
  }

  lemma {:induction false} BlanksWidth(n: int)
    ensures TextWidth(Blanks(n)) == if n > 0 then n else 0
    decreases if n > 0 then n else 0
  {
    if n > 0 {
      BlanksWidth(n - 1);
      assert Blanks(n)[1..] == Blanks(n - 1);
    }
  }

  /** One printable ASCII character. */
  predicate Ascii(a: Atom) {
    a.Glyph? && |a.g| == 1 && ' ' <= a.g[0] <= '~'
  }

  predicate PrintableAscii(text: Text) {
    forall a :: a in text ==> Ascii(a)
  }

  /** What the width tables promise: printable ASCII is one column wide. */
  predicate AsciiNarrow(text: Text) {
    forall a :: a in text && Ascii(a) ==> a.width == 1
  }

  lemma {:induction false} AsciiWidth(text: Text)
    requires PrintableAscii(text) && AsciiNarrow(text)
    ensures TextWidth(text) == |text|
  {
    if text != [] {
      assert text[0] in text;
      AsciiWidth(text[1..]);
    }
  }

  lemma WidthSnoc(text: Text, i: nat)
    requires i < |text|
    ensures TextWidth(text[..i + 1]) == TextWidth(text[..i]) + if text[i].Glyph? then text[i].width else 0
  {
    assert text[..i + 1] == text[..i] + [text[i]];
    WidthConcat(text[..i], [text[i]]);
    assert [text[i]][1..] == [];
  }

  lemma WidthGrows(text: Text, i: nat, j: nat)
    requires i <= j <= |text|
    ensures TextWidth(text[..i]) <= TextWidth(text[..j])
  {
    assert text[..j] == text[..i] + text[i..j];
    WidthConcat(text[..i], text[i..j]);
  }

  /** The longest beginning of a text within a width that ends with a grapheme. */
  predicate IsCut(text: Text, width: int, k: nat) {
    && k <= |text| && (k == 0 || text[k - 1].Glyph?) && TextWidth(text[..k]) <= width
    && forall j :: k < j <= |text| && text[j - 1].Glyph? ==> TextWidth(text[..j]) > width
  }

  lemma CutUnique(text: Text, width: int, k: nat, l: nat)
    requires IsCut(text, width, k) && IsCut(text, width, l)
    ensures k == l
  {
  }

  /** For printable ASCII the cut is simply so many characters. */
  lemma AsciiCut(text: Text, width: nat)
    requires PrintableAscii(text) && AsciiNarrow(text)
    ensures CutOf(text, width) == Min(width, |text|)
  {
    CutOfIs(text, width);
    CutUnique(text, width, CutOf(text, width), Min(width, |text|)) by {
      AsciiIsCut(text, width);
    }
  }

  lemma AsciiIsCut(text: Text, width: nat)
    requires PrintableAscii(text) && AsciiNarrow(text)
    ensures IsCut(text, width, Min(width, |text|))
  {
    forall j | 0 <= j <= |text| ensures TextWidth(text[..j]) == j {
      AsciiWidth(text[..j]);
    }
    assert forall j :: 0 <= j < |text| ==> text[j] in text;
  }

  /** That beginning's length. */
  function CutOf(text: Text, width: int): (k: nat)
    ensures k <= |text|
  {
    if text == [] then 0
    else if text[|text| - 1].Glyph? && TextWidth(text) <= width then |text|
    else CutOf(text[..|text| - 1], width)
  }

  lemma {:induction false} CutOfIs(text: Text, width: nat)
    ensures IsCut(text, width, CutOf(text, width))
    decreases |text|
  {
    assert text[..|text|] == text;
    if text != [] && !(text[|text| - 1].Glyph? && TextWidth(text) <= width) {
      var init := text[..|text| - 1];
      CutOfIs(init, width);
      var k := CutOf(init, width);
      assert forall j :: 0 <= j <= |init| ==> text[..j] == init[..j];
    }
  }

  /** Seen so far: the cut of `text[..i]`. */
  predicate CutSoFar(text: Text, width: int, i: nat, k: nat) {
    && k <= i <= |text| && (k == 0 || text[k - 1].Glyph?) && TextWidth(text[..k]) <= width
    && forall j :: k < j <= i && text[j - 1].Glyph? ==> TextWidth(text[..j]) > width
  }

  lemma CutDone(text: Text, width: nat, i: nat, k: nat)
    requires CutSoFar(text, width, i, k) && (i == |text| || TextWidth(text[..i]) > width)
    ensures k == CutOf(text, width)
  {
    forall j | i < j <= |text| ensures TextWidth(text[..j]) >= TextWidth(text[..i]) {
      WidthGrows(text, i, j);
    }
    CutOfIs(text, width);
    CutUnique(text, width, k, CutOf(text, width));
  }

  lemma CutStart(text: Text, width: nat)
    ensures CutSoFar(text, width, 0, 0) && TextWidth(text[..0]) == 0
  {
  }

  /** One more atom: a grapheme that still fits moves the cut behind it. */
  lemma CutStep(text: Text, width: int, i: nat, k: nat)
    requires CutSoFar(text, width, i, k) && i < |text|
    ensures TextWidth(text[..i + 1]) == TextWidth(text[..i]) + if text[i].Glyph? then text[i].width else 0
    ensures text[i].Code? || TextWidth(text[..i + 1]) > width ==> CutSoFar(text, width, i + 1, k)
    ensures text[i].Glyph? && TextWidth(text[..i + 1]) <= width ==> CutSoFar(text, width, i + 1, i + 1)
  {
    WidthSnoc(text, i);
  }

  /** `truncateFragmentToWidth`: the cut itself. */
  method TruncateFragmentToWidth(text: Text, maxWidth: int) returns (result: Text, width: nat)
    requires AsciiNarrow(text)
    ensures maxWidth <= 0 ==> result == [] && width == 0
    ensures maxWidth > 0 ==> result == text[..CutOf(text, maxWidth)] && width == TextWidth(result)
  {
    hide CutSoFar, CutOf, IsCut;
    if maxWidth <= 0 || |text| == 0 {
      return [], 0;
    }
    if PrintableAscii(text) {
      AsciiCut(text, maxWidth);
      result := text[..Min(maxWidth, |text|)];
      AsciiWidth(result);
      return result, |result|;
    }
    result, width := [], 0;
    var pendingAnsi: Text := [];
    var i := 0;
    ghost var k := 0;
    CutStart(text, maxWidth);
    while i < |text|
      invariant 0 <= k <= i <= |text| && CutSoFar(text, maxWidth, i, k)
      invariant result == text[..k] && width == TextWidth(text[..i]) == TextWidth(text[..k])
      invariant pendingAnsi == text[k..i] && width <= maxWidth
    {
      CutStep(text, maxWidth, i, k);
      if text[i].Code? {
        pendingAnsi := pendingAnsi + [text[i]];
      } else {
        if width + text[i].width > maxWidth {
          CutDone(text, maxWidth, i + 1, k);
          return;
        }
        result := result + pendingAnsi + [text[i]];
        pendingAnsi := [];
        width := width + text[i].width;
        k := i + 1;
      }
      i := i + 1;
    }
    CutDone(text, maxWidth, i, k);
  }

  /** The cut, then the ellipsis between resets, then padding. */
  function Finalized(prefix: Text, ellipsis: Text, maxWidth: int, pad: bool): Text {
    prefix + [SGR_RESET] + (if ellipsis != [] then ellipsis + [SGR_RESET] else [])
    + if pad then Blanks(maxWidth - TextWidth(prefix) - TextWidth(ellipsis)) else []
  }

  lemma FinalizedWidth(prefix: Text, ellipsis: Text, maxWidth: int, pad: bool)
    requires TextWidth(prefix) + TextWidth(ellipsis) <= maxWidth
    ensures TextWidth(Finalized(prefix, ellipsis, maxWidth, pad)) ==
            if pad then maxWidth else TextWidth(prefix) + TextWidth(ellipsis)
  {
    var room := maxWidth - TextWidth(prefix) - TextWidth(ellipsis);
    var tail := if pad then Blanks(room) else [];
    var middle := if ellipsis != [] then ellipsis + [SGR_RESET] else [];
    CodesHaveNoWidth([SGR_RESET]);
    BlanksWidth(room);
    WidthConcat(ellipsis, [SGR_RESET]);
    WidthConcat(prefix, [SGR_RESET]);
    WidthConcat(prefix + [SGR_RESET], middle);
    WidthConcat(prefix + [SGR_RESET] + middle, tail);
  }

  /** Three texts read one after the other. */
  lemma ReadThree(st: Style, a: Text, b: Text, c: Text)
    ensures Read(st, a + b + c) ==
            Read(st, a) + Read(StyleAfter(st, a), b) + Read(StyleAfter(StyleAfter(st, a), b), c)
    ensures StyleAfter(st, a + b + c) == StyleAfter(StyleAfter(StyleAfter(st, a), b), c)
  {
    ReadConcat(st, a + b, c);
    ReadConcat(st, a, b);
  }

  /** The style of plain text: no attribute and no colour, in the hyperlink that is open. */
  function Unstyled(st: Style): Style {
    CLEAR.(link := st.link)
  }

  lemma SgrResetClears(st: Style)
    ensures ApplyAnsi(st, [ESC] + "[0m") == ResetSgr(st)
  {
    hide SgrParams, ParseOsc8Hyperlink, ApplyParams;
    assert "0"[0] in "0";
    SgrCodeReads("0");
    assert [ESC, '['] + "0" + "m" == [ESC] + "[0m";
  }

  lemma ResetUnstyles(st: Style)
    ensures Read(st, [SGR_RESET]) == [] && StyleAfter(st, [SGR_RESET]) == Unstyled(st)
  {
    hide ApplyAnsi;
    SgrResetClears(st);
    assert [SGR_RESET][1..] == [];
  }

  /** A text that is cut shows its beginning in its own styles, then the ellipsis without them, then blanks. */
  lemma FinalizedReads(prefix: Text, ellipsis: Text, maxWidth: int, pad: bool)
    ensures var st := Unstyled(StyleAfter(CLEAR, prefix));
      Read(CLEAR, Finalized(prefix, ellipsis, maxWidth, pad)) ==
      Read(CLEAR, prefix) + Read(st, ellipsis) +
      Read(Unstyled(StyleAfter(st, ellipsis)),
           if pad then Blanks(maxWidth - TextWidth(prefix) - TextWidth(ellipsis)) else [])
  {
    hide Read, StyleAfter, Blanks, TextWidth;
    var st := Unstyled(StyleAfter(CLEAR, prefix));
    var tail := if pad then Blanks(maxWidth - TextWidth(prefix) - TextWidth(ellipsis)) else [];
    var middle := if ellipsis != [] then ellipsis + [SGR_RESET] else [];
    ReadThree(CLEAR, prefix + [SGR_RESET], middle, tail);
    ReadConcat(CLEAR, prefix, [SGR_RESET]);
    ResetUnstyles(StyleAfter(CLEAR, prefix));
    ReadConcat(st, ellipsis, [SGR_RESET]);
    ResetUnstyles(StyleAfter(st, ellipsis));
    ReadEmpty(st);
  }

  lemma ReadEmpty(st: Style)
    ensures Read(st, []) == [] && StyleAfter(st, []) == st
  {
  }

  function Padded(text: Text, maxWidth: int, pad: bool): Text {
    text + if pad then Blanks(maxWidth - TextWidth(text)) else []
  }

  /** What `truncateToWidth` gives: the text if it fits, else its cut and the ellipsis, or what fits of the
      ellipsis. */
  function Truncate(text: Text, maxWidth: int, ellipsis: Text, pad: bool): Text {
    if maxWidth <= 0 then []
    else if TextWidth(text) <= maxWidth then Padded(text, maxWidth, pad)
    else if TextWidth(ellipsis) < maxWidth then
      Finalized(text[..CutOf(text, maxWidth - TextWidth(ellipsis))], ellipsis, maxWidth, pad)
    else
      var clipped := ellipsis[..CutOf(ellipsis, maxWidth)];
      if TextWidth(clipped) == 0 then (if pad then Blanks(maxWidth) else []) else Finalized([], clipped, maxWidth, pad)
  }

  lemma PaddedWidth(text: Text, maxWidth: int, pad: bool)
    requires TextWidth(text) <= maxWidth
    ensures TextWidth(Padded(text, maxWidth, pad)) == if pad then maxWidth else TextWidth(text)
    ensures !pad ==> Padded(text, maxWidth, pad) == text
    ensures text <= Padded(text, maxWidth, pad)
    ensures forall i :: |text| <= i < |Padded(text, maxWidth, pad)| ==> Padded(text, maxWidth, pad)[i] == BLANK
  {
    BlanksWidth(maxWidth - TextWidth(text));
    WidthConcat(text, Blanks(maxWidth - TextWidth(text)));
    assert text + [] == text;
  }

  /** Truncated text is never wider than asked, padded text exactly as wide, and text that fits is left alone. */
  lemma TruncateFits(text: Text, maxWidth: int, ellipsis: Text, pad: bool)
    ensures var result := Truncate(text, maxWidth, ellipsis, pad);
      && TextWidth(result) <= (if maxWidth > 0 then maxWidth else 0)
      && (pad && maxWidth > 0 ==> TextWidth(result) == maxWidth)
      && (!pad && 0 < maxWidth && TextWidth(text) <= maxWidth ==> result == text)
      && (0 < maxWidth && TextWidth(text) <= maxWidth ==>
            text <= result && forall i :: |text| <= i < |result| ==> result[i] == BLANK)
  {
    hide TextWidth, Finalized, Padded, CutOf, Blanks;
    assert TextWidth([]) == 0 by { NoWidth(); }
    if maxWidth > 0 {
      BlanksWidth(maxWidth);
      if TextWidth(text) <= maxWidth {
        PaddedWidth(text, maxWidth, pad);
      } else if TextWidth(ellipsis) < maxWidth {
        CutOfIs(text, maxWidth - TextWidth(ellipsis));
        FinalizedWidth(text[..CutOf(text, maxWidth - TextWidth(ellipsis))], ellipsis, maxWidth, pad);
      } else {
        CutOfIs(ellipsis, maxWidth);
        FinalizedWidth([], ellipsis[..CutOf(ellipsis, maxWidth)], maxWidth, pad);
      }
    }
  }

  /** Text that does not fit shows its longest beginning that leaves room for the ellipsis, in its own styles, and then
      the ellipsis without them; an ellipsis that leaves no room is cut itself and shown alone. */
  lemma TruncateReads(text: Text, maxWidth: int, ellipsis: Text) returns (k: nat)
    requires 0 < maxWidth < TextWidth(text)
    ensures var shown := Read(CLEAR, Truncate(text, maxWidth, ellipsis, false));
      if TextWidth(ellipsis) < maxWidth then
        && IsCut(text, maxWidth - TextWidth(ellipsis), k)
        && shown == Read(CLEAR, text[..k]) + Read(Unstyled(StyleAfter(CLEAR, text[..k])), ellipsis)
      else
        && IsCut(ellipsis, maxWidth, k)
        && shown == if TextWidth(ellipsis[..k]) == 0 then [] else Read(CLEAR, ellipsis[..k])
  {
    hide Read, StyleAfter, Finalized, IsCut, CutOf, TextWidth;
    if TextWidth(ellipsis) < maxWidth {
      var room := maxWidth - TextWidth(ellipsis);
      k := CutOf(text, room);
      CutOfIs(text, room);
      FinalizedReads(text[..k], ellipsis, maxWidth, false);
      ReadEmpty(Unstyled(StyleAfter(Unstyled(StyleAfter(CLEAR, text[..k])), ellipsis)));
    } else {
      k := CutOf(ellipsis, maxWidth);
      CutOfIs(ellipsis, maxWidth);
      ReadEmpty(CLEAR);
      FinalizedReads([], ellipsis[..k], maxWidth, false);
      ReadEmpty(Unstyled(StyleAfter(CLEAR, ellipsis[..k])));
    }
  }

  lemma NoWidth()
    ensures TextWidth([]) == 0
  {
  }

  method TruncateToWidth(text: Text, maxWidth: int, ellipsis: Text, pad: bool) returns (result: Text)
    requires AsciiNarrow(text) && AsciiNarrow(ellipsis)
    ensures result == Truncate(text, maxWidth, ellipsis, pad)
  {
    hide CutOf, Finalized;
    if maxWidth <= 0 {
      return [];
    }
    if |text| == 0 {
      result := if pad then Blanks(maxWidth) else [];
      assert [] + result == result;
      return;
    }
    var ellipsisWidth := TextWidth(ellipsis);
    if ellipsisWidth >= maxWidth {
      result := TruncateToEllipsis(text, maxWidth, ellipsis, pad);
      return;
    }
    if PrintableAscii(text) {
      AsciiWidth(text);
      if |text| <= maxWidth {
        return if pad then text + Blanks(maxWidth - |text|) else text + [];
      }
      var targetWidth := maxWidth - ellipsisWidth;
      AsciiCut(text, targetWidth);
      AsciiWidth(text[..targetWidth]);
      return Finalized(text[..targetWidth], ellipsis, maxWidth, pad);
    }
    result := TruncateWalk(text, maxWidth, ellipsis, pad);
  }

  method TruncateToEllipsis(text: Text, maxWidth: int, ellipsis: Text, pad: bool) returns (result: Text)
    requires AsciiNarrow(ellipsis) && maxWidth > 0 && TextWidth(ellipsis) >= maxWidth
    ensures result == Truncate(text, maxWidth, ellipsis, pad)
  {
    var textWidth := TextWidth(text);
    if textWidth <= maxWidth {
      return Padded(text, maxWidth, pad);
    }
    var clippedEllipsis, clippedWidth := TruncateFragmentToWidth(ellipsis, maxWidth);
    if clippedWidth == 0 {
      return if pad then Blanks(maxWidth) else [];
    }
    result := Finalized([], clippedEllipsis, maxWidth, pad);
  }

  /** The walk over graphemes: it keeps a beginning for the case that the whole does not fit. */
  method TruncateWalk(text: Text, maxWidth: int, ellipsis: Text, pad: bool) returns (final: Text)
    requires 0 < maxWidth && TextWidth(ellipsis) < maxWidth
    ensures final == Truncate(text, maxWidth, ellipsis, pad)
  {
    hide CutSoFar, CutOf, IsCut, Finalized, TextWidth;
    var targetWidth := maxWidth - TextWidth(ellipsis);
    CutStart(text, targetWidth);
    var result: Text, pendingAnsi: Text := [], [];
    var visibleSoFar, keptWidth: nat := 0, 0;
    var keepContiguousPrefix, overflowed := true, false;
    var i := 0;
    ghost var k := 0;
    while i < |text|
      invariant 0 <= k <= i <= |text| && CutSoFar(text, targetWidth, i, k) && !overflowed
      invariant result == text[..k] && keptWidth == TextWidth(text[..k])
      invariant visibleSoFar == TextWidth(text[..i]) <= maxWidth
      invariant keepContiguousPrefix ==> pendingAnsi == text[k..i] && keptWidth == visibleSoFar
      invariant !keepContiguousPrefix ==> TextWidth(text[..i]) > targetWidth
    {
      CutStep(text, targetWidth, i, k);
      var a := text[i];
      if a.Code? {
        pendingAnsi := pendingAnsi + [a];
        i := i + 1;
        continue;
      }
      if keepContiguousPrefix && keptWidth + a.width <= targetWidth {
        result := result + pendingAnsi + [a];
        pendingAnsi := [];
        keptWidth := keptWidth + a.width;
        k := i + 1;
      } else {
        keepContiguousPrefix := false;
        pendingAnsi := [];
      }
      visibleSoFar := visibleSoFar + a.width;
      i := i + 1;
      if visibleSoFar > maxWidth {
        overflowed := true;
        break;
      }
    }
    if !overflowed {
      assert text[..i] == text;
      return if pad then text + Blanks(maxWidth - visibleSoFar) else text + [];
    }
    CutDone(text, targetWidth, i, k);
    WidthGrows(text, i, |text|);
    assert text[..|text|] == text;
    final := Finalized(result, ellipsis, maxWidth, pad);
  }
}
