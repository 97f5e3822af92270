/** Styling codes in text: finding them, what they do to the style, and printing a style. */
module AnsiCodes {
  import opened Options
  import opened Strings

  // ----- finding codes -----

  const CSI_ENDS := {'m', 'G', 'K', 'H', 'J'}

  /** The end of a CSI code: the first of its final letters from `j` on. */
  function CsiEnd(s: string, j: nat): (e: nat)
    requires j <= |s|
    ensures j <= e <= |s| && (e < |s| ==> s[e] in CSI_ENDS) && forall i :: j <= i < e ==> s[i] !in CSI_ENDS
    decreases |s| - j
  {
    if j == |s| || s[j] in CSI_ENDS then j else CsiEnd(s, j + 1)
  }

  predicate EndsStringAt(s: string, j: nat)
    requires j < |s|
  {
    s[j] == BEL || (s[j] == ESC && j + 1 < |s| && s[j + 1] == '\\')
  }

  /** The end of an OSC or APC code: the first terminator from `j` on. */
  function StringEnd(s: string, j: nat): (e: nat)
    requires j <= |s|
    ensures j <= e <= |s| && (e < |s| ==> EndsStringAt(s, e)) && forall i :: j <= i < e ==> !EndsStringAt(s, i)
    decreases |s| - j
  {
    if j == |s| || EndsStringAt(s, j) then j else StringEnd(s, j + 1)
  }

  /** The code at position `pos`, if a complete one starts there. */
  function CodeAt(s: string, pos: nat): (r: Option<string>)
    ensures r.Some? ==> 0 < |r.value| <= |s| - pos && s[pos..pos + |r.value|] == r.value
  {
    if pos + 1 >= |s| || s[pos] != ESC then None
    else if s[pos + 1] == '[' then
      var j := CsiEnd(s, pos + 2);
      if j < |s| then Some(s[pos..j + 1]) else None
    else if s[pos + 1] == ']' || s[pos + 1] == '_' then
      var j := StringEnd(s, pos + 2);
      if j == |s| then None
      else if s[j] == BEL then Some(s[pos..j + 1])
      else Some(s[pos..j + 2])
    else None
  }

  method ExtractAnsiCode(s: string, pos: nat) returns (r: Option<string>)
    ensures r == CodeAt(s, pos)
  {
    if pos >= |s| || s[pos] != ESC || pos + 1 == |s| {
      return None;
    }
    var next := s[pos + 1];
    var j := pos + 2;
    if next == '[' {
      while j < |s| && s[j] !in CSI_ENDS
        invariant pos + 2 <= j <= |s| && CsiEnd(s, pos + 2) == CsiEnd(s, j)
      {
        j := j + 1;
      }
      return if j < |s| then Some(s[pos..j + 1]) else None;
    }
    if next == ']' || next == '_' {
      while j < |s|
        invariant pos + 2 <= j <= |s| && StringEnd(s, pos + 2) == StringEnd(s, j)
      {
        if s[j] == BEL {
          return Some(s[pos..j + 1]);
        }
        if s[j] == ESC && j + 1 < |s| && s[j + 1] == '\\' {
          return Some(s[pos..j + 2]);
        }
        j := j + 1;
      }
    }
    return None;
  }

  /** The code that starts at `pos` may end with character `e`: a CSI code with one of its final letters, an OSC or APC
      code with BEL or with the second half of a string terminator. */
  predicate CodeMayEnd(s: string, pos: nat, e: nat) {
    && pos + 2 <= e < |s| && s[pos] == ESC
    && if s[pos + 1] == '[' then s[e] == 'm' || s[e] == 'G' || s[e] == 'K' || s[e] == 'H' || s[e] == 'J'
       else (s[pos + 1] == ']' || s[pos + 1] == '_') &&
            (s[e] == BEL || (pos + 2 < e && s[e - 1] == ESC && s[e] == '\\'))
  }

  /** A code ends where it first may; where it never may there is none. */
  lemma CodeEndsFirst(s: string, pos: nat)
    ensures var code := CodeAt(s, pos);
      if code.None? then forall e: nat :: !CodeMayEnd(s, pos, e)
      else var e := pos + |code.value| - 1;
           CodeMayEnd(s, pos, e) && forall k: nat :: k < e ==> !CodeMayEnd(s, pos, k)
  {
    if pos + 1 < |s| && s[pos] == ESC && (s[pos + 1] == ']' || s[pos + 1] == '_') {
      var j := StringEnd(s, pos + 2);
      forall e: nat | CodeMayEnd(s, pos, e) ensures j <= e && (s[e] != BEL ==> j < e) {
        assert EndsStringAt(s, if s[e] == BEL then e else e - 1);
      }
      if j < |s| && s[j] != BEL { assert CodeMayEnd(s, pos, j + 1); }
    }
  }

  /** A string that is exactly one code. */
  predicate IsCode(s: string) {
    CodeAt(s, 0) == Some(s)
  }

  lemma {:induction false} CsiEndExtends(s: string, c: string, j: nat)
    requires j <= |s|
    ensures CsiEnd(s, j) < |s| ==> CsiEnd(s + c, j) == CsiEnd(s, j)
    decreases |s| - j
  {
    if j < |s| && s[j] !in CSI_ENDS { CsiEndExtends(s, c, j + 1); }
  }

  /** A code is found as such in front of any text. */
  lemma CodeInFront(code: string, rest: string)
    requires IsCode(code)
    ensures CodeAt(code + rest, 0) == Some(code)
  {
    var s := code + rest;
    assert s[..|code|] == code;
    if code[1] == '[' {
      CsiEndExtends(code, rest, 2);
    } else {
      var j := StringEnd(code, 2);
      forall i | 2 <= i <= j ensures EndsStringAt(s, i) == EndsStringAt(code, i) {
        assert s[i] == code[i];
        if i + 1 < |code| { assert s[i + 1] == code[i + 1]; }
      }
      var k := StringEnd(s, 2);
      assert k == j;
    }
  }

  // ----- hyperlinks -----

  datatype Terminator = Bel | St

  datatype Link = Link(params: string, url: string, terminator: Terminator)

  datatype LinkCode = NotLink | Close | Open(link: Link)

  const OSC8 := [ESC] + "]8;"

  function TerminatorText(t: Terminator): string {
    if t.Bel? then [BEL] else [ESC, '\\']
  }

  function ParseOsc8Hyperlink(code: string): LinkCode {
    if !StartsWith(code, OSC8) then NotLink
    else
      var terminator := if EndsWith(code, [BEL]) then Bel else St;
      var end := |code| - |TerminatorText(terminator)|;
      var body := if end > 4 then code[4..end] else "";
      var separatorIndex := IndexOf(body, ";");
      if separatorIndex == -1 then NotLink
      else
        var url := body[separatorIndex + 1..];
        if url == "" then Close else Open(Link(body[..separatorIndex], url, terminator))
  }

  function FormatLink(link: Link): string {
    OSC8 + (link.params + ";" + link.url) + TerminatorText(link.terminator)
  }

  function FormatClose(terminator: Terminator): string {
    OSC8 + ";" + TerminatorText(terminator)
  }

  // ----- the style -----

  datatype Style = Style(
    bold: bool, dim: bool, italic: bool, underline: bool, blink: bool, inverse: bool, hidden: bool,
    strikethrough: bool, fg: Option<string>, bg: Option<string>, link: Option<Link>)

  const CLEAR := Style(false, false, false, false, false, false, false, false, None, None, None)

  /** An SGR reset, which leaves the hyperlink alone. */
  function ResetSgr(st: Style): Style {
    CLEAR.(link := st.link)
  }

  predicate IsParamChar(c: char) {
    IsDigit(c) || c == ';'
  }

  function ParamsEnd(s: string, j: nat): (e: nat)
    requires j <= |s|
    ensures j <= e <= |s| && (e < |s| ==> !IsParamChar(s[e])) && forall i :: j <= i < e ==> IsParamChar(s[i])
    decreases |s| - j
  {
    if j == |s| || !IsParamChar(s[j]) then j else ParamsEnd(s, j + 1)
  }

  /** The parameters of the first `ESC [ params m` inside the code, params being digits and `;`. */
  function SgrParams(code: string, pos: nat): (r: Option<string>)
    requires pos <= |code|
    ensures r.Some? ==> forall c :: c in r.value ==> IsParamChar(c)
    decreases |code| - pos
  {
    if pos + 2 > |code| then None
    else
      var e := ParamsEnd(code, pos + 2);
      if code[pos] == ESC && code[pos + 1] == '[' && e < |code| && code[e] == 'm' then Some(code[pos + 2..e])
      else SgrParams(code, pos + 1)
  }

  /** A numeric parameter; the empty one is no number. */
  function ParseParam(p: string): Option<nat> {
    if p == "" || !AllDigits(p) then None else Some(ParseNat(p))
  }

  function DigitsOf(n: nat): string {
    if n < 10 then [n as char + '0'] else DigitsOf(n / 10) + [(n % 10) as char + '0']
  }

  predicate IsBasicColor(base: nat, code: nat) {
    if base == 38 then 30 <= code <= 37 || 90 <= code <= 97 else 40 <= code <= 47 || 100 <= code <= 107
  }

  /** From `st` to `r` each colour was kept, removed or set by the code, and the link was left alone. */
  predicate ColorsFollow(st: Style, code: nat, r: Style) {
    && (r.fg == st.fg || r.fg.None? || (IsBasicColor(38, code) && r.fg == Some(DigitsOf(code))))
    && (r.bg == st.bg || r.bg.None? || (IsBasicColor(48, code) && r.bg == Some(DigitsOf(code))))
    && r.link == st.link
  }

  predicate Switched(before: bool, code: nat, on: nat, off: nat, after: bool) {
    after <==> code == on || (before && code != 0 && code != off)
  }

  predicate Coloured(before: Option<string>, code: nat, base: nat, after: Option<string>) {
    after == if code == 0 || code == base + 1 then None
             else if IsBasicColor(base, code) then Some(DigitsOf(code)) else before
  }

  /** Which codes each attribute and each colour obeys: what switches it on, what switches it off, and that nothing
      else touches it. */
  predicate Obeys(st: Style, code: nat, r: Style) {
    && (r.bold <==> code == 1 || (st.bold && code != 0 && code != 21 && code != 22))
    && Switched(st.dim, code, 2, 22, r.dim) && Switched(st.italic, code, 3, 23, r.italic)
    && Switched(st.underline, code, 4, 24, r.underline) && Switched(st.blink, code, 5, 25, r.blink)
    && Switched(st.inverse, code, 7, 27, r.inverse) && Switched(st.hidden, code, 8, 28, r.hidden)
    && Switched(st.strikethrough, code, 9, 29, r.strikethrough)
    && Coloured(st.fg, code, 38, r.fg) && Coloured(st.bg, code, 48, r.bg) && r.link == st.link
  }

  function ApplyCode(st: Style, code: nat): (r: Style)
    ensures ColorsFollow(st, code, r)
    ensures Obeys(st, code, r)
  {
    if code == 0 then ResetSgr(st)
    else if code == 1 then st.(bold := true)
    else if code == 2 then st.(dim := true)
    else if code == 3 then st.(italic := true)
    else if code == 4 then st.(underline := true)
    else if code == 5 then st.(blink := true)
    else ApplyMore(st, code)
  }

  function ApplyMore(st: Style, code: nat): (r: Style)
    ensures ColorsFollow(st, code, r)
    ensures code > 5 ==> Obeys(st, code, r)
  {
    if code == 7 then st.(inverse := true)
    else if code == 8 then st.(hidden := true)
    else if code == 9 then st.(strikethrough := true)
    else if code == 21 then st.(bold := false)
    else if code == 22 then st.(bold := false, dim := false)
    else if code == 23 then st.(italic := false)
    else ApplyOff(st, code)
  }

  function ApplyOff(st: Style, code: nat): (r: Style)
    ensures ColorsFollow(st, code, r)
    ensures code > 5 && code !in {7, 8, 9, 21, 22, 23} ==> Obeys(st, code, r)
  {
    if code == 24 then st.(underline := false)
    else if code == 25 then st.(blink := false)
    else if code == 27 then st.(inverse := false)
    else if code == 28 then st.(hidden := false)
    else if code == 29 then st.(strikethrough := false)
    else ApplyColor(st, code)
  }

  function ApplyColor(st: Style, code: nat): (r: Style)
    ensures ColorsFollow(st, code, r)
    ensures code == 6 || 9 < code < 21 || code == 26 || code > 29 ==> Obeys(st, code, r)
  {
    if code == 39 then st.(fg := None)
    else if code == 49 then st.(bg := None)
    else if 30 <= code <= 37 || 90 <= code <= 97 then st.(fg := Some(DigitsOf(code)))
    else if 40 <= code <= 47 || 100 <= code <= 107 then st.(bg := Some(DigitsOf(code)))
    else st
  }

  /** How many parameters an extended colour at the front takes: `38;5;n` or `38;2;r;g;b`, or the
      same with 48; 0 when there is none. */
  function ExtendedLength(parts: seq<string>): (n: nat)
    ensures n == 0 || n == 3 || n == 5
    ensures n <= |parts|
  {
    if parts != [] && ParseParam(parts[0]) in {Some(38), Some(48)} then
      if |parts| > 2 && parts[1] == "5" then 3
      else if |parts| > 4 && parts[1] == "2" then 5
      else 0
    else 0
  }

  function JoinWith(parts: seq<string>): string {
    if parts == [] then ""
    else if |parts| == 1 then parts[0]
    else parts[0] + ";" + JoinWith(parts[1..])
  }

  function SetColor(st: Style, code: Option<nat>, color: string): Style {
    if code == Some(38) then st.(fg := Some(color)) else st.(bg := Some(color))
  }

  function ApplyParams(st: Style, parts: seq<string>): Style
    decreases |parts|
  {
    if parts == [] then st
    else
      var n := ExtendedLength(parts);
      if n > 0 then ApplyParams(SetColor(st, ParseParam(parts[0]), JoinWith(parts[..n])), parts[n..])
      else
        var code := ParseParam(parts[0]);
        ApplyParams(if code.Some? then ApplyCode(st, code.value) else st, parts[1..])
  }

  /** The style after one code. */
  function ApplyAnsi(st: Style, code: string): Style {
    var hyperlink := ParseOsc8Hyperlink(code);
    if !hyperlink.NotLink? then st.(link := if hyperlink.Open? then Some(hyperlink.link) else None)
    else if !EndsWith(code, "m") then st
    else
      var params := SgrParams(code, 0);
      if params.None? then st
      else if params.value == "" || params.value == "0" then ResetSgr(st)
      else ApplyParams(st, SplitOn(params.value, ';'))
  }

  function Flag(on: bool, code: string): seq<string> {
    if on then [code] else []
  }

  function FlagCodes(st: Style): seq<string> {
    Flag(st.bold, "1") + Flag(st.dim, "2") + Flag(st.italic, "3") + Flag(st.underline, "4") +
    Flag(st.blink, "5") + Flag(st.inverse, "7") + Flag(st.hidden, "8") + Flag(st.strikethrough, "9")
  }

  function ColorCodes(color: Option<string>): seq<string> {
    if color.Some? && color.value != "" then [color.value] else []
  }

  function SgrCodes(st: Style): seq<string> {
    FlagCodes(st) + ColorCodes(st.fg) + ColorCodes(st.bg)
  }

  function SgrText(st: Style): string {
    if SgrCodes(st) != [] then [ESC, '['] + JoinWith(SgrCodes(st)) + "m" else ""
  }

  function LinkText(st: Style): string {
    if st.link.Some? then FormatLink(st.link.value) else ""
  }

  /** The codes that bring a cleared terminal to this style. */
  function ActiveCodes(st: Style): string {
    SgrText(st) + LinkText(st)
  }

  /** The codes that close an underline and a hyperlink at the end of a line. */
  function LineEndCodes(st: Style): seq<string> {
    Flag(st.underline, [ESC] + "[24m") + (if st.link.Some? then [FormatClose(st.link.value.terminator)] else [])
  }

  function LineEndReset(st: Style): string {
    Join(LineEndCodes(st))
  }

  lemma LineEndText(st: Style)
    ensures LineEndReset(st) ==
      (if st.underline then [ESC] + "[24m" else "") +
      (if st.link.Some? then FormatClose(st.link.value.terminator) else "")
  {
    hide FormatClose;
    var link := if st.link.Some? then [FormatClose(st.link.value.terminator)] else [];
    assert Join(link) == if st.link.Some? then FormatClose(st.link.value.terminator) else "";
    assert [] + link == link;
    assert ([[ESC] + "[24m"] + link)[1..] == link;
  }

  /** The style after all codes in a text. */
  function StyleAfterText(st: Style, text: string, pos: nat): Style
    requires pos <= |text|
    decreases |text| - pos
  {
    if pos == |text| then st
    else
      var code := CodeAt(text, pos);
      if code.Some? then StyleAfterText(ApplyAnsi(st, code.value), text, pos + |code.value|)
      else StyleAfterText(st, text, pos + 1)
  }

  class AnsiCodeTracker {
    var bold: bool
    var dim: bool
    var italic: bool
    var underline: bool
    var blink: bool
    var inverse: bool
    var hidden: bool
    var strikethrough: bool
    var fgColor: Option<string>
    var bgColor: Option<string>
    var activeHyperlink: Option<Link>

    constructor ()
      ensures View() == CLEAR
    {
      bold, dim, italic, underline, blink, inverse, hidden, strikethrough :=
        false, false, false, false, false, false, false, false;
      fgColor, bgColor, activeHyperlink := None, None, None;
    }

    function View(): Style
      reads this
    {
      Style(bold, dim, italic, underline, blink, inverse, hidden, strikethrough, fgColor, bgColor, activeHyperlink)
    }

    method Process(ansiCode: string)
      modifies this
      ensures View() == ApplyAnsi(old(View()), ansiCode)
    {
      var hyperlink := ParseOsc8Hyperlink(ansiCode);
      if !hyperlink.NotLink? {
        activeHyperlink := if hyperlink.Open? then Some(hyperlink.link) else None;
        return;
      }
      if !EndsWith(ansiCode, "m") {
        return;
      }
      var params := SgrParams(ansiCode, 0);
      if params.None? {
        return;
      }
      if params.value == "" || params.value == "0" {
        Reset();
        return;
      }
      var parts := SplitOn(params.value, ';');
      var i := 0;
      while i < |parts|
        invariant 0 <= i <= |parts|
        invariant ApplyParams(View(), parts[i..]) == ApplyParams(old(View()), parts)
      {
        var code := ParseParam(parts[i]);
        var n := ExtendedLength(parts[i..]);
        if n > 0 {
          var colorCode := JoinWith(parts[i..][..n]);
          if code == Some(38) {
            fgColor := Some(colorCode);
          } else {
            bgColor := Some(colorCode);
          }
          assert parts[i..][n..] == parts[i + n..];
          i := i + n;
        } else {
          if code.Some? {
            ProcessCode(code.value);
          }
          assert parts[i..][1..] == parts[i + 1..];
          i := i + 1;
        }
      }
    }

    method ProcessCode(code: nat)
      modifies this
      ensures View() == ApplyCode(old(View()), code)
    {
      hide ApplyMore;
      match code {
        case 0 => Reset();
        case 1 => bold := true;
        case 2 => dim := true;
        case 3 => italic := true;
        case 4 => underline := true;
        case 5 => blink := true;
        case _ => ProcessMore(code);
      }
    }

    method ProcessMore(code: nat)
      modifies this
      ensures View() == ApplyMore(old(View()), code)
    {
      hide ApplyOff;
      match code {
        case 7 => inverse := true;
        case 8 => hidden := true;
        case 9 => strikethrough := true;
        case 21 => bold := false;
        case 22 => bold, dim := false, false;
        case 23 => italic := false;
        case _ => ProcessOff(code);
      }
    }

    method ProcessOff(code: nat)
      modifies this
      ensures View() == ApplyOff(old(View()), code)
    {
      hide ApplyColor;
      match code {
        case 24 => underline := false;
        case 25 => blink := false;
        case 27 => inverse := false;
        case 28 => hidden := false;
        case 29 => strikethrough := false;
        case _ => ProcessColor(code);
      }
    }

    method ProcessColor(code: nat)
      modifies this
      ensures View() == ApplyColor(old(View()), code)
    {
      if code == 39 {
        fgColor := None;
      } else if code == 49 {
        bgColor := None;
      } else if 30 <= code <= 37 || 90 <= code <= 97 {
        fgColor := Some(DigitsOf(code));
      } else if 40 <= code <= 47 || 100 <= code <= 107 {
        bgColor := Some(DigitsOf(code));
      }
    }

    method Reset()
      modifies this
      ensures View() == ResetSgr(old(View()))
    {
      bold, dim, italic, underline, blink, inverse, hidden, strikethrough :=
        false, false, false, false, false, false, false, false;
      fgColor, bgColor := None, None;
    }

    method Clear()
      modifies this
      ensures View() == CLEAR
    {
      Reset();
      activeHyperlink := None;
    }

    method GetActiveCodes() returns (result: string)
      ensures result == ActiveCodes(View())
    {
      hide Flag;
      var codes := Flag(bold, "1");
      codes := codes + Flag(dim, "2");
      codes := codes + Flag(italic, "3");
      codes := codes + Flag(underline, "4");
      codes := codes + Flag(blink, "5");
      codes := codes + Flag(inverse, "7");
      codes := codes + Flag(hidden, "8");
      codes := codes + Flag(strikethrough, "9");
      codes := codes + ColorCodes(fgColor);
      codes := codes + ColorCodes(bgColor);
      result := if |codes| > 0 then [ESC, '['] + JoinWith(codes) + "m" else "";
      if activeHyperlink.Some? {
        result := result + FormatLink(activeHyperlink.value);
      }
    }

    method GetLineEndReset() returns (result: string)
      ensures result == LineEndReset(View())
    {
      hide FormatClose;
      LineEndText(View());
      result := "";
      if underline {
        result := result + [ESC] + "[24m";
      }
      if activeHyperlink.Some? {
        result := result + FormatClose(activeHyperlink.value.terminator);
      }
    }

    /** `updateTrackerFromText`: process every code in a text. */
    method UpdateFromText(text: string)
      modifies this
      ensures View() == StyleAfterText(old(View()), text, 0)
    {
      hide ApplyAnsi;
      var i := 0;
      while i < |text|
        invariant 0 <= i <= |text|
        invariant StyleAfterText(View(), text, i) == StyleAfterText(old(View()), text, 0)
        decreases |text| - i
      {
        var ansiResult := ExtractAnsiCode(text, i);
        if ansiResult.Some? {
          Process(ansiResult.value);
          i := i + |ansiResult.value|;
        } else {
          i := i + 1;
        }
      }
    }
  }
}
