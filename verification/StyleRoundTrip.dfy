/** Printing a style and reading it back. */
module StyleRoundTrip {
  import opened Options
  import opened Strings
  import opened AnsiCodes

  // ----- the styles a tracker can be in -----

  /** A colour as the tracker stores it: the code it was set by, for `base` 38 (text) or 48. */
  predicate ColorOf(base: nat, color: string) {
    var parts := SplitOn(color, ';');
    && color != "" && ParamChars(color)
    && if |parts| == 1 then
         AllDigits(color) && var code := ParseNat(color); color == DigitsOf(code) && IsBasicColor(base, code)
       else
         ParseParam(parts[0]) == Some(base) && ExtendedLength(parts) == |parts|
  }

  /** A hyperlink that its own code delimits: no separator in the parameters, a URL, and no
      terminator before the end. */
  predicate LinkOk(link: Link) {
    link.url != "" && ';' !in link.params && IsCode(FormatLink(link))
  }

  predicate Sound(st: Style) {
    && (st.fg.Some? ==> ColorOf(38, st.fg.value))
    && (st.bg.Some? ==> ColorOf(48, st.bg.value))
    && (st.link.Some? ==> LinkOk(st.link.value))
  }

  // ----- splitting and joining parameters -----

  lemma {:induction false} SplitConcat(a: string, b: string, sep: char)
    ensures SplitOn(a + [sep] + b, sep) == SplitOn(a, sep) + SplitOn(b, sep)
  {
    var s := a + [sep] + b;
    if a == "" {
      assert s[1..] == b;
    } else {
      assert s[0] == a[0] && s[1..] == a[1..] + [sep] + b;
      SplitConcat(a[1..], b, sep);
    }
  }

  lemma {:induction false} SplitPlain(s: string, sep: char)
    requires sep !in s
    ensures SplitOn(s, sep) == [s]
  {
    if s != "" {
      SplitPlain(s[1..], sep);
      assert s == [s[0]] + s[1..];
    }
  }

  function SplitAll(parts: seq<string>): seq<string> {
    if parts == [] then [] else SplitOn(parts[0], ';') + SplitAll(parts[1..])
  }

  lemma {:induction false} SplitJoined(parts: seq<string>)
    requires parts != []
    ensures SplitOn(JoinWith(parts), ';') == SplitAll(parts)
  {
    if |parts| == 1 {
      assert SplitAll(parts[1..]) == [];
    } else {
      SplitConcat(parts[0], JoinWith(parts[1..]), ';');
      SplitJoined(parts[1..]);
    }
  }

  lemma {:induction false} JoinSplit(s: string)
    ensures JoinWith(SplitOn(s, ';')) == s
  {
    if s != "" {
      JoinSplit(s[1..]);
      var rest := SplitOn(s[1..], ';');
      if s[0] == ';' {
        assert ([""] + rest)[1..] == rest;
      } else {
        var parts := SplitOn(s, ';');
        assert parts[1..] == rest[1..];
      }
    }
  }

  lemma {:induction false} SplitAllConcat(a: seq<string>, b: seq<string>)
    ensures SplitAll(a + b) == SplitAll(a) + SplitAll(b)
  {
    if a == [] {
      assert a + b == b;
    } else {
      assert (a + b)[1..] == a[1..] + b;
      SplitAllConcat(a[1..], b);
    }
  }

  predicate ParamChars(s: string) {
    forall c :: c in s ==> IsParamChar(c)
  }

  lemma {:induction false} SplitChars(s: string)
    requires ParamChars(s)
    ensures forall p :: p in SplitOn(s, ';') ==> AllDigits(p)
  {
    if s != "" {
      SplitChars(s[1..]);
      var rest := SplitOn(s[1..], ';');
      assert rest[0] in rest && s[0] in s;
      forall p | p in SplitOn(s, ';') ensures AllDigits(p) {
        assert p == "" || p in rest || (s[0] != ';' && p == [s[0]] + rest[0]);
      }
    }
  }

  lemma {:induction false} JoinChars(parts: seq<string>)
    requires forall p :: p in parts ==> ParamChars(p)
    ensures ParamChars(JoinWith(parts))
  {
    if parts != [] { assert parts[0] in parts; }
    if |parts| > 1 { JoinChars(parts[1..]); }
  }

  // ----- applying printed parameters -----

  lemma OneDigitCounts(code: string)
    requires |code| == 1 && IsDigit(code[0])
    ensures AllDigits(code) && ParseNat(code) == code[0] as nat - '0' as nat
  {
    assert code[..0] == "" && code[|code| - 1] == code[0];
    assert ParseNat("") == 0;
  }

  lemma OneDigit(code: string)
    requires |code| == 1 && IsDigit(code[0])
    ensures ParseParam(code) == Some(code[0] as nat - '0' as nat) && SplitOn(code, ';') == [code]
  {
    hide ParseNat, SplitOn, AllDigits;
    OneDigitCounts(code);
    SplitPlain(code, ';');
  }

  /** A printed flag does what its code says before the rest is read. */
  lemma FlagApplies(st: Style, on: bool, code: string, more: seq<string>, rest: seq<string>)
    requires |code| == 1 && IsDigit(code[0])
    ensures ApplyParams(st, SplitAll(Flag(on, code) + more) + rest) ==
            ApplyParams(if on then ApplyCode(st, code[0] as nat - '0' as nat) else st, SplitAll(more) + rest)
  {
    OneDigit(code);
    if on {
      assert ([code] + more)[1..] == more;
      assert SplitAll([code] + more) + rest == [code] + (SplitAll(more) + rest);
    } else {
      assert [] + more == more;
    }
  }

  lemma ColorApplies(st: Style, base: nat, color: string, rest: seq<string>)
    requires base in {38, 48} && ColorOf(base, color)
    ensures ApplyParams(st, SplitOn(color, ';') + rest) == ApplyParams(SetColor(st, Some(base), color), rest)
  {
    if |SplitOn(color, ';')| == 1 { BasicColorApplies(st, base, color, rest); }
    else { ExtendedColorApplies(st, base, color, rest); }
  }

  lemma BasicColorApplies(st: Style, base: nat, color: string, rest: seq<string>)
    requires base in {38, 48} && ColorOf(base, color) && |SplitOn(color, ';')| == 1
    ensures ApplyParams(st, SplitOn(color, ';') + rest) == ApplyParams(SetColor(st, Some(base), color), rest)
  {
    hide ApplyCode, SetColor;
    JoinSplit(color);
    var all := SplitOn(color, ';') + rest;
    assert all[0] == color && all[1..] == rest;
    var code := ParseNat(color);
    assert ParseParam(color) == Some(code) && code !in {38, 48};
    BasicCode(st, base, code);
  }

  lemma HighCode(st: Style, code: nat)
    requires code >= 30
    ensures ApplyCode(st, code) == ApplyColor(st, code)
  {
    hide ApplyColor, ColorsFollow, ResetSgr;
  }

  lemma BasicCode(st: Style, base: nat, code: nat)
    requires base in {38, 48} && IsBasicColor(base, code)
    ensures ApplyCode(st, code) == SetColor(st, Some(base), DigitsOf(code))
  {
    hide DigitsOf, ApplyCode, ColorsFollow;
    HighCode(st, code);
  }

  lemma ExtendedColorApplies(st: Style, base: nat, color: string, rest: seq<string>)
    requires base in {38, 48} && ColorOf(base, color) && |SplitOn(color, ';')| > 1
    ensures ApplyParams(st, SplitOn(color, ';') + rest) == ApplyParams(SetColor(st, Some(base), color), rest)
  {
    hide ApplyCode, SplitOn, JoinWith;
    var parts := SplitOn(color, ';');
    JoinSplit(color);
    var all := parts + rest;
    assert ExtendedLength(all) == |parts|;
    assert all[..|parts|] == parts && all[|parts|..] == rest;
  }

  lemma FlagsNested(st: Style)
    ensures FlagCodes(st) == FirstFlags(st) + LastFlags(st)
  {
    hide Flag;
  }

  function FirstFlags(st: Style): seq<string> {
    Flag(st.bold, "1") + (Flag(st.dim, "2") + (Flag(st.italic, "3") + (Flag(st.underline, "4") + [])))
  }

  function LastFlags(st: Style): seq<string> {
    Flag(st.blink, "5") + (Flag(st.inverse, "7") + (Flag(st.hidden, "8") + (Flag(st.strikethrough, "9") + [])))
  }

  lemma FirstFlagsApply(st: Style, rest: seq<string>)
    ensures ApplyParams(CLEAR, SplitAll(FirstFlags(st)) + rest) ==
            ApplyParams(CLEAR.(bold := st.bold, dim := st.dim, italic := st.italic, underline := st.underline), rest)
  {
    hide ApplyParams, SplitAll, Flag;
    var r3 := Flag(st.underline, "4") + [];
    var r2 := Flag(st.italic, "3") + r3;
    var r1 := Flag(st.dim, "2") + r2;
    var s1 := CLEAR.(bold := st.bold);
    var s2 := s1.(dim := st.dim);
    var s3 := s2.(italic := st.italic);
    FlagApplies(CLEAR, st.bold, "1", r1, rest);
    FlagApplies(s1, st.dim, "2", r2, rest);
    FlagApplies(s2, st.italic, "3", r3, rest);
    FlagApplies(s3, st.underline, "4", [], rest);
    NothingToSplit(rest);
  }

  lemma LastFlagsApply(s0: Style, st: Style, rest: seq<string>)
    requires s0 == CLEAR.(bold := st.bold, dim := st.dim, italic := st.italic, underline := st.underline)
    ensures ApplyParams(s0, SplitAll(LastFlags(st)) + rest) ==
            ApplyParams(st.(fg := None, bg := None, link := None), rest)
  {
    hide ApplyParams, SplitAll, Flag;
    var r3 := Flag(st.strikethrough, "9") + [];
    var r2 := Flag(st.hidden, "8") + r3;
    var r1 := Flag(st.inverse, "7") + r2;
    var s1 := s0.(blink := st.blink);
    var s2 := s1.(inverse := st.inverse);
    var s3 := s2.(hidden := st.hidden);
    FlagApplies(s0, st.blink, "5", r1, rest);
    FlagApplies(s1, st.inverse, "7", r2, rest);
    FlagApplies(s2, st.hidden, "8", r3, rest);
    FlagApplies(s3, st.strikethrough, "9", [], rest);
    NothingToSplit(rest);
  }

  lemma FlagsApply(st: Style, rest: seq<string>)
    ensures ApplyParams(CLEAR, SplitAll(FlagCodes(st)) + rest) ==
            ApplyParams(st.(fg := None, bg := None, link := None), rest)
  {
    hide ApplyParams, SplitAll, Flag, FlagCodes, FirstFlags, LastFlags;
    FlagsNested(st);
    SplitAllConcat(FirstFlags(st), LastFlags(st));
    var a, b := SplitAll(FirstFlags(st)), SplitAll(LastFlags(st));
    assert (a + b) + rest == a + (b + rest);
    FirstFlagsApply(st, b + rest);
    LastFlagsApply(CLEAR.(bold := st.bold, dim := st.dim, italic := st.italic, underline := st.underline), st, rest);
  }

  lemma NothingToSplit(rest: seq<string>)
    ensures SplitAll([]) + rest == rest
  {
  }

  /** The printed parameters, applied to a cleared style, give the style back except its link. */
  lemma ParamsApply(st: Style)
    requires Sound(st)
    ensures ApplyParams(CLEAR, SplitAll(SgrCodes(st))) == st.(link := None)
  {
    hide ApplyParams, FlagCodes, ColorOf, SplitAll, ColorCodes;
    var flags := st.(fg := None, bg := None, link := None);
    var bg := SplitAll(ColorCodes(st.bg));
    var fg := SplitAll(ColorCodes(st.fg));
    SplitAllConcat(FlagCodes(st), ColorCodes(st.fg));
    SplitAllConcat(FlagCodes(st) + ColorCodes(st.fg), ColorCodes(st.bg));
    assert SplitAll(SgrCodes(st)) == SplitAll(FlagCodes(st)) + (fg + bg);
    FlagsApply(st, fg + bg);
    ColorStep(flags, 38, st.fg, bg);
    ColorStep(flags.(fg := st.fg), 48, st.bg, []);
    assert bg + [] == bg;
    NoParams(st.(link := None));
  }

  lemma NoParams(st: Style)
    ensures ApplyParams(st, []) == st
  {
  }

  lemma ColorStep(st: Style, base: nat, color: Option<string>, rest: seq<string>)
    requires base in {38, 48} && (color.Some? ==> ColorOf(base, color.value))
    requires if base == 38 then st.fg.None? else st.bg.None?
    ensures ApplyParams(st, SplitAll(ColorCodes(color)) + rest) ==
            ApplyParams(if base == 38 then st.(fg := color) else st.(bg := color), rest)
  {
    hide ApplyParams;
    if color.Some? {
      assert SplitAll([color.value]) == SplitOn(color.value, ';') by {
        assert SplitAll([color.value][1..]) == [];
      }
      ColorApplies(st, base, color.value, rest);
    } else {
      NothingToSplit(rest);
    }
  }

  // ----- the printed code as text -----

  lemma {:induction false} CsiEndOfParams(s: string, j: nat)
    requires j < |s| && s[|s| - 1] == 'm' && forall i :: j <= i < |s| - 1 ==> IsParamChar(s[i])
    ensures CsiEnd(s, j) == |s| - 1
    ensures ParamsEnd(s, j) == |s| - 1
    decreases |s| - j
  {
    if j < |s| - 1 {
      assert IsParamChar(s[j]) && s[j] !in CSI_ENDS;
      CsiEndOfParams(s, j + 1);
    }
  }

  /** An SGR code made of parameters is one code, and its parameters are read back. */
  lemma SgrCodeReads(params: string)
    requires ParamChars(params)
    ensures var code := [ESC, '['] + params + "m";
      IsCode(code) && SgrParams(code, 0) == Some(params) && EndsWith(code, "m") && ParseOsc8Hyperlink(code).NotLink?
  {
    var code := [ESC, '['] + params + "m";
    forall i | 2 <= i < |code| - 1 ensures IsParamChar(code[i]) {
      assert code[i] == params[i - 2];
    }
    CsiEndOfParams(code, 2);
    assert code[2..|code| - 1] == params;
    assert code[..|code|] == code;
    assert !StartsWith(code, OSC8) by { assert OSC8[1] == ']' && code[1] == '['; }
  }

  predicate PlainParam(p: string) {
    ParamChars(p) && p != "" && p != "0"
  }

  lemma FlagPlain(on: bool, code: string)
    requires PlainParam(code)
    ensures forall p :: p in Flag(on, code) ==> PlainParam(p)
  {
  }

  lemma ColorPlain(base: nat, color: Option<string>)
    requires base in {38, 48} && (color.Some? ==> ColorOf(base, color.value))
    ensures forall p :: p in ColorCodes(color) ==> PlainParam(p)
  {
    if color.Some? { ColorNotZero(base, color.value); }
  }

  lemma SgrCodesPlain(st: Style)
    requires Sound(st)
    ensures forall p :: p in SgrCodes(st) ==> PlainParam(p)
  {
    hide Flag, ColorCodes, ColorOf;
    FlagPlain(st.bold, "1");
    FlagPlain(st.dim, "2");
    FlagPlain(st.italic, "3");
    FlagPlain(st.underline, "4");
    FlagPlain(st.blink, "5");
    FlagPlain(st.inverse, "7");
    FlagPlain(st.hidden, "8");
    FlagPlain(st.strikethrough, "9");
    ColorPlain(38, st.fg);
    ColorPlain(48, st.bg);
  }

  lemma ColorNotZero(base: nat, color: string)
    requires base in {38, 48} && ColorOf(base, color)
    ensures color != "0"
  {
    if color == "0" {
      OneDigit(color);
    }
  }

  lemma JoinNotTrivial(parts: seq<string>)
    requires parts != [] && forall p :: p in parts ==> p != "" && p != "0"
    ensures JoinWith(parts) != "" && JoinWith(parts) != "0"
  {
    assert parts[0] in parts;
    if |parts| > 1 {
      var s := JoinWith(parts);
      assert s[|parts[0]|] == ';';
    }
  }

  /** Reading the printed SGR code from a cleared style gives the attributes and colours back. */
  lemma SgrRoundTrip(st: Style)
    requires Sound(st) && SgrCodes(st) != []
    ensures IsCode(SgrText(st)) && ApplyAnsi(CLEAR, SgrText(st)) == st.(link := None)
  {
    hide ApplyParams, SgrCodes, CodeAt, SgrParams, ParseOsc8Hyperlink;
    SgrCodesPlain(st);
    JoinChars(SgrCodes(st));
    SgrCodeReads(JoinWith(SgrCodes(st)));
    JoinNotTrivial(SgrCodes(st));
    SplitJoined(SgrCodes(st));
    ParamsApply(st);
  }

  lemma NoSgr(st: Style)
    requires Sound(st) && SgrCodes(st) == []
    ensures st.(link := None) == CLEAR
  {
    assert FlagCodes(st) == [] && ColorCodes(st.fg) == [] && ColorCodes(st.bg) == [];
  }

  // ----- hyperlinks -----

  lemma IndexOfChar(a: string, c: char, b: string)
    requires c !in a
    ensures IndexOf(a + [c] + b, [c]) == |a|
  {
    var s := a + [c] + b;
    assert s[|a|..|a| + 1] == [c];
    forall k | 0 <= k < |a| ensures !MatchAt(s, [c], k) {
      assert s[k..k + 1] == [a[k]];
    }
    IndexIs(s, [c], |a|);
  }

  /** The pieces of a printed hyperlink. */
  lemma LinkPieces(body: string, terminator: Terminator)
    ensures var term := TerminatorText(terminator);
      var code := OSC8 + body + term;
      && StartsWith(code, OSC8) && (EndsWith(code, [BEL]) <==> terminator.Bel?)
      && |code| - |term| == 4 + |body| && code[4..4 + |body|] == body
  {
    hide IndexOf;
    var term := TerminatorText(terminator);
    var code := OSC8 + body + term;
    assert code[..4] == OSC8;
    assert code[|code| - 1] == term[|term| - 1];
  }

  lemma LinkBody(link: Link)
    requires ';' !in link.params
    ensures var body := link.params + ";" + link.url;
      && IndexOf(body, ";") == |link.params|
      && body[..|link.params|] == link.params && body[|link.params| + 1..] == link.url
  {
    hide IndexOf;
    IndexOfChar(link.params, ';', link.url);
  }

  /** What the parser makes of an opening code, given its pieces. */
  lemma ParsesAs(code: string, terminator: Terminator, body: string, k: nat)
    requires StartsWith(code, OSC8) && (EndsWith(code, [BEL]) <==> terminator.Bel?)
    requires |code| - |TerminatorText(terminator)| == 4 + |body| && body != "" && code[4..4 + |body|] == body
    requires IndexOf(body, ";") == k && k < |body| && body[k + 1..] != ""
    ensures ParseOsc8Hyperlink(code) == Open(Link(body[..k], body[k + 1..], terminator))
  {
    hide IndexOf, StartsWith, EndsWith, TerminatorText;
  }

  lemma LinkRoundTrip(link: Link)
    requires LinkOk(link)
    ensures ParseOsc8Hyperlink(FormatLink(link)) == Open(link)
  {
    hide IndexOf, StartsWith, EndsWith, TerminatorText, ParseOsc8Hyperlink, IsCode;
    var body := link.params + ";" + link.url;
    LinkPieces(body, link.terminator);
    LinkBody(link);
    ParsesAs(FormatLink(link), link.terminator, body, |link.params|);
  }

  /** The parts of a code that opens a hyperlink: what is between its marks, and where its address starts. */
  lemma OpenedLinkParts(code: string) returns (body: string, k: nat)
    requires ParseOsc8Hyperlink(code).Open?
    requires EndsWith(code, [BEL]) || EndsWith(code, [ESC, '\\'])
    ensures var link := ParseOsc8Hyperlink(code).link;
      && code == OSC8 + body + TerminatorText(link.terminator)
      && IndexOf(body, ";") == k < |body| && link.params == body[..k] && link.url == body[k + 1..] && link.url != ""
  {
    hide IndexOf, MatchAt;
    NoSeparator();
    var term := TerminatorText(ParseOsc8Hyperlink(code).link.terminator);
    body := code[4..|code| - |term|];
    k := IndexOf(body, ";");
    AtSeparator(body, k);
    InBetween(code, OSC8, term);
  }

  lemma NoSeparator()
    ensures IndexOf("", ";") == -1
  {
  }

  lemma InBetween(s: string, front: string, back: string)
    requires StartsWith(s, front) && EndsWith(s, back) && |front| + |back| <= |s|
    ensures s == front + s[|front|..|s| - |back|] + back
  {
    assert s == s[..|front|] + s[|front|..|s| - |back|] + s[|s| - |back|..];
  }

  /** An extracted code that opens a hyperlink is the printed form of that hyperlink. */
  lemma OpenedLinkPrints(code: string)
    requires IsCode(code) && ParseOsc8Hyperlink(code).Open?
    ensures var link := ParseOsc8Hyperlink(code).link;
      FormatLink(link) == code && link.url != "" && ';' !in link.params
  {
    hide IsCode, ParseOsc8Hyperlink, EndsWith, IndexOf;
    OpenedIsString(code);
    StringCodeEnds(code);
    var body, k := OpenedLinkParts(code);
    AtSeparator(body, k);
  }

  lemma OpenedIsString(code: string)
    requires ParseOsc8Hyperlink(code).Open?
    ensures |code| > 1 && code[1] == ']'
  {
    assert code[1] == OSC8[1];
  }

  lemma OpenedLinkOk(code: string)
    requires IsCode(code) && ParseOsc8Hyperlink(code).Open?
    ensures LinkOk(ParseOsc8Hyperlink(code).link)
  {
    OpenedLinkPrints(code);
  }

  lemma AtSeparator(body: string, k: nat)
    requires IndexOf(body, ";") == k
    ensures k < |body| && body == body[..k] + ";" + body[k + 1..] && ';' !in body[..k]
  {
    assert body[k..k + 1] == ";";
    forall i | 0 <= i < k ensures body[i] != ';' {
      assert body[i..i + 1] == [body[i]];
      assert !MatchAt(body, ";", i);
    }
  }

  lemma StringCodeEnds(code: string)
    requires IsCode(code) && code[1] == ']'
    ensures EndsWith(code, [BEL]) || EndsWith(code, [ESC, '\\'])
  {
  }

  // ----- every reachable style is sound -----

  lemma DigitsReadBack(n: nat)
    requires n < 1000
    ensures AllDigits(DigitsOf(n)) && ParseNat(DigitsOf(n)) == n && DigitsOf(n) != "" && ';' !in DigitsOf(n)
  {
    if n < 10 {
      OneDigit(DigitsOf(n));
    } else {
      DigitsReadBack(n / 10);
      var s := DigitsOf(n);
      assert s[..|s| - 1] == DigitsOf(n / 10) && s[|s| - 1] == (n % 10) as char + '0';
    }
  }

  lemma BasicColorSound(base: nat, code: nat)
    requires base in {38, 48} && IsBasicColor(base, code)
    ensures ColorOf(base, DigitsOf(code))
  {
    DigitsReadBack(code);
    SplitPlain(DigitsOf(code), ';');
  }

  lemma {:induction false} SplitAllPlain(parts: seq<string>)
    requires forall p :: p in parts ==> ';' !in p
    ensures SplitAll(parts) == parts
  {
    if parts != [] {
      assert parts[0] in parts;
      SplitPlain(parts[0], ';');
      SplitAllPlain(parts[1..]);
    }
  }

  lemma ExtendedColorSound(base: nat, parts: seq<string>)
    requires forall p :: p in parts ==> AllDigits(p)
    requires ExtendedLength(parts) > 0 && ParseParam(parts[0]) == Some(base)
    ensures ColorOf(base, JoinWith(parts[..ExtendedLength(parts)]))
  {
    var n := ExtendedLength(parts);
    var own := parts[..n];
    forall p | p in own ensures ';' !in p && ParamChars(p) {
      assert p in parts;
    }
    SplitJoined(own);
    SplitAllPlain(own);
    JoinChars(own);
    assert ExtendedLength(own) == n;
    assert JoinWith(own)[|own[0]|] == ';';
  }

  lemma ApplyCodeSound(st: Style, code: nat)
    requires Sound(st)
    ensures Sound(ApplyCode(st, code))
  {
    hide ColorOf, DigitsOf, LinkOk;
    assert ColorsFollow(st, code, ApplyCode(st, code));
    if IsBasicColor(38, code) { BasicColorSound(38, code); }
    if IsBasicColor(48, code) { BasicColorSound(48, code); }
  }

  lemma ExtendedLengthBase(parts: seq<string>)
    requires ExtendedLength(parts) > 0
    ensures parts != [] && ParseParam(parts[0]) in {Some(38), Some(48)}
  {
  }

  lemma ExtendedSound(st: Style, parts: seq<string>)
    requires Sound(st) && ExtendedLength(parts) > 0 && forall p :: p in parts ==> AllDigits(p)
    ensures Sound(SetColor(st, ParseParam(parts[0]), JoinWith(parts[..ExtendedLength(parts)])))
  {
    hide ColorOf, LinkOk, JoinWith, SplitOn, ParseParam, ExtendedLength;
    ExtendedLengthBase(parts);
    ExtendedColorSound(ParseParam(parts[0]).value, parts);
  }

  lemma {:induction false} ApplyParamsSound(st: Style, parts: seq<string>)
    requires Sound(st) && forall p :: p in parts ==> AllDigits(p)
    ensures Sound(ApplyParams(st, parts))
    decreases |parts|
  {
    hide ColorOf, ApplyCode, LinkOk, SetColor, Sound, JoinWith;
    if parts != [] {
      var n := ExtendedLength(parts);
      var code := ParseParam(parts[0]);
      if n > 0 {
        ExtendedSound(st, parts);
        ApplyParamsSound(SetColor(st, code, JoinWith(parts[..n])), parts[n..]);
      } else if code.Some? {
        ApplyCodeSound(st, code.value);
        ApplyParamsSound(ApplyCode(st, code.value), parts[1..]);
      } else {
        ApplyParamsSound(st, parts[1..]);
      }
    }
  }

  /** Whatever codes are read, the style stays one that can be printed and read back. */
  lemma ApplyAnsiSound(st: Style, code: string)
    requires Sound(st) && IsCode(code)
    ensures Sound(ApplyAnsi(st, code))
  {
    hide ColorOf, IsCode, ApplyParams;
    var hyperlink := ParseOsc8Hyperlink(code);
    if hyperlink.Open? {
      OpenedLinkOk(code);
    } else if hyperlink.NotLink? && EndsWith(code, "m") {
      var params := SgrParams(code, 0);
      if params.Some? {
        SplitChars(params.value);
        ApplyParamsSound(st, SplitOn(params.value, ';'));
      }
    }
  }

  // ----- reading text -----

  lemma CsiEndSuffix(s: string, pos: nat, j: nat)
    requires pos + j <= |s|
    ensures CsiEnd(s, pos + j) == pos + CsiEnd(s[pos..], j)
  {
    var t := s[pos..];
    var e, f := CsiEnd(s, pos + j), CsiEnd(t, j);
    assert forall i :: 0 <= i < |t| ==> t[i] == s[pos + i];
    assert pos + f >= e by { assert pos + f < |s| ==> s[pos + f] == t[f]; }
    assert e >= pos + f by { assert e < |s| ==> t[e - pos] == s[e]; }
  }

  lemma StringEndSuffix(s: string, pos: nat, j: nat)
    requires pos + j <= |s|
    ensures StringEnd(s, pos + j) == pos + StringEnd(s[pos..], j)
  {
    var t := s[pos..];
    var e, f := StringEnd(s, pos + j), StringEnd(t, j);
    forall i | 0 <= i < |t| ensures EndsStringAt(t, i) == EndsStringAt(s, pos + i) {
      assert t[i] == s[pos + i];
      assert i + 1 < |t| ==> t[i + 1] == s[pos + i + 1];
    }
    assert pos + f >= e by { assert pos + f < |s| ==> EndsStringAt(s, pos + f) == EndsStringAt(t, f); }
    assert e >= pos + f by { assert e < |s| ==> EndsStringAt(t, e - pos) == EndsStringAt(s, pos + (e - pos)); }
  }

  lemma PartOfSuffix(s: string, pos: nat, k: nat)
    requires pos + k <= |s|
    ensures s[pos..][0..k] == s[pos..pos + k]
  {
  }

  lemma CodeAtSuffix(s: string, pos: nat)
    requires pos <= |s|
    ensures CodeAt(s, pos) == CodeAt(s[pos..], 0)
  {
    hide CsiEnd, StringEnd;
    var t := s[pos..];
    if |t| >= 2 {
      assert t[0] == s[pos] && t[1] == s[pos + 1];
      if t[1] == '[' {
        CsiEndSuffix(s, pos, 2);
        var j := CsiEnd(t, 2);
        if j < |t| { PartOfSuffix(s, pos, j + 1); }
      } else {
        StringEndSuffix(s, pos, 2);
        var j := StringEnd(t, 2);
        if j < |t| {
          assert t[j] == s[pos + j];
          PartOfSuffix(s, pos, if t[j] == BEL then j + 1 else j + 2);
        }
      }
    }
  }

  lemma {:induction false} StyleAfterSuffix(st: Style, text: string, pos: nat)
    requires pos <= |text|
    ensures StyleAfterText(st, text, pos) == StyleAfterText(st, text[pos..], 0)
    decreases |text| - pos
  {
    hide ApplyAnsi, CodeAt;
    if 0 < pos < |text| {
      var t := text[pos..];
      CodeAtSuffix(text, pos);
      CodeBounds(text, pos);
      var code := CodeAt(text, pos);
      var n := if code.Some? then |code.value| else 1;
      var next := if code.Some? then ApplyAnsi(st, code.value) else st;
      StyleAfterSuffix(next, text, pos + n);
      StyleAfterSuffix(next, t, n);
      assert t[n..] == text[pos + n..];
    } else if pos == 0 {
      assert text[0..] == text;
    }
  }

  lemma CodeBounds(s: string, pos: nat)
    ensures var code := CodeAt(s, pos); code.Some? ==> 0 < |code.value| <= |s| - pos
  {
  }

  lemma ReadCode(st: Style, code: string, rest: string)
    requires IsCode(code)
    ensures StyleAfterText(st, code + rest, 0) == StyleAfterText(ApplyAnsi(st, code), rest, 0)
  {
    hide ApplyAnsi, CodeAt;
    CodeInFront(code, rest);
    StyleAfterSuffix(ApplyAnsi(st, code), code + rest, |code|);
    assert (code + rest)[|code|..] == rest;
    CodeBounds(code, 0);
  }

  /** The codes printed for a style, one by one. */
  function ActiveCodeList(st: Style): seq<string> {
    (if SgrText(st) != "" then [SgrText(st)] else []) + (if st.link.Some? then [LinkText(st)] else [])
  }

  function ApplyAll(st: Style, codes: seq<string>): Style
    decreases |codes|
  {
    if codes == [] then st else ApplyAll(ApplyAnsi(st, codes[0]), codes[1..])
  }

  lemma ActiveCodesAreCodes(st: Style)
    requires Sound(st)
    ensures forall c :: c in ActiveCodeList(st) ==> IsCode(c)
  {
    hide SgrText, CodeAt, ColorOf, FormatLink;
    SgrTextEmpty(st);
    if SgrText(st) != "" { SgrRoundTrip(st); }
  }

  /** Read one by one from a cleared style, the printed codes give the style back. */
  lemma ActiveCodesRoundTrip(st: Style)
    requires Sound(st)
    ensures ApplyAll(CLEAR, ActiveCodeList(st)) == st
  {
    hide ApplyAnsi, SgrCodes, FormatLink, CodeAt, SgrText, Sound;
    var plain := st.(link := None);
    var tail := if st.link.Some? then [LinkText(st)] else [];
    SgrTextEmpty(st);
    LinkApplies(plain, st);
    if SgrText(st) != "" {
      SgrRoundTrip(st);
      assert ([SgrText(st)] + tail)[1..] == tail;
    } else {
      NoSgr(st);
      assert [] + tail == tail;
    }
  }

  lemma JoinTail(st: Style)
    ensures Join(ActiveCodeList(st)) == ActiveCodes(st)
  {
    hide SgrText, LinkText;
    assert st.link.None? ==> LinkText(st) == "" by { NoLinkText(st); }
    var tail := if st.link.Some? then [LinkText(st)] else [];
    assert Join(tail) == LinkText(st);
    assert ([SgrText(st)] + tail)[1..] == tail;
    assert [] + tail == tail;
  }

  lemma NoLinkText(st: Style)
    ensures st.link.None? ==> LinkText(st) == ""
  {
  }

  lemma SgrTextEmpty(st: Style)
    ensures SgrText(st) == "" <==> SgrCodes(st) == []
  {
  }

  lemma LinkApplies(plain: Style, st: Style)
    requires Sound(st) && plain == st.(link := None)
    ensures ApplyAll(plain, if st.link.Some? then [LinkText(st)] else []) == st
  {
    if st.link.Some? {
      LinkRoundTrip(st.link.value);
      assert [LinkText(st)][1..] == [];
    }
  }

  /** Printing a sound style and reading the text from a cleared tracker gives the style back. */
  lemma StyleTextRoundTrip(st: Style)
    requires Sound(st)
    ensures StyleAfterText(CLEAR, ActiveCodes(st), 0) == st
  {
    ActiveCodesAreCodes(st);
    ActiveCodesRoundTrip(st);
    JoinTail(st);
    ReadAll(CLEAR, ActiveCodeList(st));
  }

  lemma {:induction false} ReadAll(st: Style, codes: seq<string>)
    requires forall c :: c in codes ==> IsCode(c)
    ensures StyleAfterText(st, Join(codes), 0) == ApplyAll(st, codes)
    decreases |codes|
  {
    if codes != [] {
      assert codes[0] in codes;
      ReadCode(st, codes[0], Join(codes[1..]));
      ReadAll(ApplyAnsi(st, codes[0]), codes[1..]);
    }
  }

  // ----- closing a line -----

  lemma UnderlineCloses(st: Style)
    ensures ApplyAnsi(st, [ESC] + "[24m") == st.(underline := false) && IsCode([ESC] + "[24m")
  {
    hide SgrParams, ParseOsc8Hyperlink, CodeAt, ApplyParams;
    SgrCodeReads("24");
    assert [ESC, '['] + "24" + "m" == [ESC] + "[24m";
    SplitPlain("24", ';');
    TwentyFour(st);
  }

  lemma TwentyFour(st: Style)
    ensures ApplyParams(st, ["24"]) == st.(underline := false)
  {
    assert DigitsOf(24) == "24";
    DigitsReadBack(24);
    assert ExtendedLength(["24"]) == 0;
    assert ["24"][1..] == [];
  }

  /** The close is read as one, with either terminator. */
  lemma LinkCloses(st: Style, terminator: Terminator)
    ensures ApplyAnsi(st, FormatClose(terminator)) == st.(link := None) && IsCode(FormatClose(terminator))
  {
    hide IndexOf, StartsWith, EndsWith, ParseOsc8Hyperlink, SgrParams, CodeAt, FormatClose;
    CloseParses(terminator);
    CloseIsCode(terminator);
  }

  lemma CloseParses(terminator: Terminator)
    ensures ParseOsc8Hyperlink(FormatClose(terminator)) == Close
  {
    hide IndexOf, StartsWith, EndsWith, TerminatorText;
    LinkPieces(";", terminator);
    assert OSC8 + ";" + TerminatorText(terminator) == FormatClose(terminator);
    assert "" + [';'] + "" == ";";
    IndexOfChar("", ';', "");
  }

  lemma StringEndIs(s: string, j: nat, e: nat)
    requires j <= e < |s| && EndsStringAt(s, e) && forall i :: j <= i < e ==> !EndsStringAt(s, i)
    ensures StringEnd(s, j) == e
  {
    var f := StringEnd(s, j);
  }

  lemma CloseIsCode(terminator: Terminator)
    ensures IsCode(FormatClose(terminator))
  {
    var code := FormatClose(terminator);
    assert code == if terminator.Bel? then [ESC, ']', '8', ';', ';', BEL] else [ESC, ']', '8', ';', ';', ESC, '\\'];
    assert !EndsStringAt(code, 2) && !EndsStringAt(code, 3) && !EndsStringAt(code, 4) && EndsStringAt(code, 5);
    StringEndIs(code, 2, 5);
    assert code[0..|code|] == code;
  }

  /** The codes at the end of a line close its underline and its hyperlink, and change nothing else. */
  lemma LineEndCloses(st: Style)
    ensures ApplyAll(st, LineEndCodes(st)) == st.(underline := false, link := None)
    ensures forall c :: c in LineEndCodes(st) ==> IsCode(c)
  {
    hide ApplyAnsi, CodeAt, FormatClose;
    UnderlineCloses(st);
    var link := if st.link.Some? then [FormatClose(st.link.value.terminator)] else [];
    if st.link.Some? {
      LinkCloses(st.(underline := false), st.link.value.terminator);
      assert link[1..] == [];
    }
    assert ApplyAll(st.(underline := false), link) == st.(underline := false, link := None);
    if st.underline {
      assert LineEndCodes(st) == [[ESC] + "[24m"] + link && ([[ESC] + "[24m"] + link)[1..] == link;
    } else {
      assert LineEndCodes(st) == link;
    }
  }

  /** So does their text. */
  lemma LineEndTextCloses(st: Style)
    ensures StyleAfterText(st, LineEndReset(st), 0) == st.(underline := false, link := None)
  {
    LineEndCloses(st);
    ReadAll(st, LineEndCodes(st));
  }

  /** What any text leaves behind in a cleared tracker survives being printed and read again. */
  lemma ReachableStyleRoundTrip(text: string)
    ensures var st := StyleAfterText(CLEAR, text, 0); StyleAfterText(CLEAR, ActiveCodes(st), 0) == st
  {
    ReachableSound(CLEAR, text, 0);
    StyleTextRoundTrip(StyleAfterText(CLEAR, text, 0));
  }

  lemma {:induction false} ReachableSound(st: Style, text: string, pos: nat)
    requires Sound(st) && pos <= |text|
    ensures Sound(StyleAfterText(st, text, pos))
    decreases |text| - pos
  {
    hide Sound, IsCode, CodeAt, ApplyAnsi;
    if pos < |text| {
      var code := CodeAt(text, pos);
      if code.Some? {
        FoundIsCode(text, pos);
        ApplyAnsiSound(st, code.value);
        ReachableSound(ApplyAnsi(st, code.value), text, pos + |code.value|);
      } else {
        ReachableSound(st, text, pos + 1);
      }
    }
  }

  /** What is found in a text is a code by itself. */
  lemma FoundIsCode(text: string, pos: nat)
    requires pos <= |text| && CodeAt(text, pos).Some?
    ensures IsCode(CodeAt(text, pos).value)
  {
    var code := CodeAt(text, pos).value;
    var s := text[pos..];
    CodeAtSuffix(text, pos);
    assert code == s[..|code|];
    assert forall i :: 0 <= i < |code| ==> code[i] == s[i];
    if s[1] == '[' {
      assert CsiEnd(code, 2) == CsiEnd(s, 2);
    } else {
      var j := StringEnd(s, 2);
      forall i | 2 <= i <= j ensures EndsStringAt(code, i) == EndsStringAt(s, i) {
      }
      assert StringEnd(code, 2) == j;
      assert code[j] == s[j];
    }
    assert code[0..|code|] == code;
  }
}
