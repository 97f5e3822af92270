/** Keys that a terminal reports twice, as an escape sequence and as the plain character, and that are heard once. */
module KeyRepeats {
  import opened Options
  import opened Strings
  import opened InputSequences
  import opened StdinBuffering

  // ----- which reports announce a character -----

  /** The alternate keys of a report: nothing, `:digits*`, or `:digits*:digits`. */
  predicate Alternates(t: string) {
    || t == ""
    || (t[0] == ':' && AllDigits(t[1..]))
    || (t[0] == ':' && exists j :: 1 <= j < |t| - 1 && t[j] == ':' && AllDigits(t[1..j]) && AllDigits(t[j + 1..]))
  }

  /** The code point ends at `i`. */
  predicate KeyEndsAt(inner: string, i: nat) {
    0 < i <= |inner| && AllDigits(inner[..i]) && Alternates(inner[i..])
  }

  /** An unmodified report, `ESC [ digits alternates u`, of a printable code point. */
  ghost predicate Announces(report: string, codepoint: nat) {
    && |report| > 3 && report[..2] == [ESC, '['] && report[|report| - 1] == 'u'
    && var inner := report[2..|report| - 1];
       exists i: nat :: KeyEndsAt(inner, i) && codepoint == ParseNat(inner[..i]) >= 32
  }

  predicate KeyParts(parts: seq<string>) {
    && parts != [] && (forall p :: p in parts ==> AllDigits(p)) && parts[0] != ""
    && (|parts| <= 2 || (|parts| == 3 && parts[2] != ""))
  }

  lemma DigitsEnd(inner: string, i: nat)
    requires i <= |inner| && AllDigits(inner[..i]) && (i < |inner| ==> inner[i] == ':')
    ensures Field(inner, ':') == i
  {
    forall k | 0 <= k < i ensures inner[k] != ':' { assert inner[..i][k] in inner[..i]; }
  }

  /** Two fields or three are alternates; digits hold no separator. */
  lemma AlternatesAre(t: string)
    requires t != "" && t[0] == ':'
    ensures var parts := SplitOn(t[1..], ':');
      Alternates(t) <==>
      (forall p :: p in parts ==> AllDigits(p)) && (|parts| == 1 || (|parts| == 2 && parts[1] != ""))
  {
    hide SplitOn, Field, AllDigits;
    var rest := t[1..];
    var parts := SplitOn(rest, ':');
    var n := Field(rest, ':');
    SplitFirst(rest, ':');
    if AllDigits(rest) { AllOfIt(rest); }
    if n < |rest| {
      var last := rest[n + 1..];
      SplitFirst(last, ':');
      assert rest[..n] == t[1..n + 1] && last == t[n + 2..] && t[n + 1] == ':';
      if AllDigits(last) { AllOfIt(last); }
      if j :| 1 <= j < |t| - 1 && t[j] == ':' && AllDigits(t[1..j]) && AllDigits(t[j + 1..]) {
        assert rest[..j - 1] == t[1..j];
        DigitsEnd(rest, j - 1);
      }
      if (forall p :: p in parts ==> AllDigits(p)) && |parts| == 2 && parts[1] != "" {
        assert parts == [rest[..n], last] && parts[0] in parts && parts[1] in parts;
        assert 1 <= n + 1 < |t| - 1;
      }
    } else {
      assert forall j :: 1 <= j < |t| ==> t[j] == rest[j - 1] != ':';
    }
  }

  lemma AllOfIt(p: string)
    requires AllDigits(p)
    ensures Field(p, ':') == |p|
  {
    assert p[..|p|] == p;
    DigitsEnd(p, |p|);
  }

  lemma PartsOfKey(inner: string)
    ensures var n := Field(inner, ':');
      && (KeyParts(SplitOn(inner, ':')) <==> KeyEndsAt(inner, n))
      && SplitOn(inner, ':')[0] == inner[..n]
  {
    hide SplitOn, Field, AllDigits;
    var parts := SplitOn(inner, ':');
    var n := Field(inner, ':');
    SplitFirst(inner, ':');
    if n < |inner| {
      var rest := SplitOn(inner[n + 1..], ':');
      assert inner[n..][1..] == inner[n + 1..];
      AlternatesAre(inner[n..]);
      assert parts == [inner[..n]] + rest;
      assert forall p :: p in parts <==> p == inner[..n] || p in rest;
    } else {
      assert inner[..n] == inner && inner[n..] == "";
    }
  }

  /** The scan for announced characters finds exactly those reports. */
  lemma AnnouncedExactly(report: string, codepoint: nat)
    ensures UnmodifiedKittyPrintable(report) == Some(codepoint) <==> Announces(report, codepoint)
  {
    hide SplitOn, Field, KeyEndsAt, ParseNat;
    if |report| > 3 {
      var inner := report[2..|report| - 1];
      var n := Field(inner, ':');
      PartsOfKey(inner);
      forall i: nat | KeyEndsAt(inner, i) ensures i == n { EndsOnce(inner, i); }
    }
  }

  lemma EndsOnce(inner: string, i: nat)
    requires KeyEndsAt(inner, i)
    ensures Field(inner, ':') == i
  {
    DigitsEnd(inner, i);
  }

  // ----- what is heard -----

  /** The character repeats the report before it. */
  ghost predicate Repeats(before: Option<string>, sequence: string) {
    before.Some? && |sequence| == 1 && Announces(before.value, sequence[0] as int)
  }

  ghost function Heard(before: Option<string>, sequences: seq<string>): seq<Event>
    decreases |sequences|
  {
    if sequences == [] then []
    else
      var first := sequences[0];
      (if Repeats(before, first) then [] else [Data(first)]) + Heard(Some(first), sequences[1..])
  }

  function AnnouncedBy(before: Option<string>): Option<nat> {
    if before.None? then None else UnmodifiedKittyPrintable(before.value)
  }

  /** Every sequence is handed on, but a character that repeats the report just before it. */
  lemma {:induction false} HeardOnce(before: Option<string>, sequences: seq<string>)
    ensures EmitAll(AnnouncedBy(before), sequences).events == Heard(before, sequences)
    decreases |sequences|
  {
    hide UnmodifiedKittyPrintable, Announces;
    if sequences != [] {
      var s := sequences[0];
      if |s| == 1 {
        if before.Some? { AnnouncedExactly(before.value, s[0] as int); }
        assert UnmodifiedKittyPrintable(s).None? by { OneCharacterIsNone(s); }
      }
      HeardOnce(Some(s), sequences[1..]);
    }
  }

  lemma OneCharacterIsNone(s: string)
    requires |s| == 1
    ensures UnmodifiedKittyPrintable(s).None?
  {
  }

  /** Input without a paste is heard sequence by sequence; no input at all is handed on as it is. */
  lemma KeysHeard(data: string)
    requires IndexOf(data, PASTE_START) == -1
    ensures Process(IDLE, data).events ==
            if data == "" then [Data("")] else Heard(None, Split(data).sequences)
  {
    hide Split, EmitAll, IndexOf;
    HeardOnce(None, Split(data).sequences);
    assert "" + data == data;
  }
}
