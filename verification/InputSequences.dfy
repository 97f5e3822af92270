/** Recognising complete escape sequences in terminal input, and splitting input into them. */
module InputSequences {

  import opened Strings

  const INTRODUCERS := {'[', ']', 'O', 'P', '_'}

  datatype Status = Complete | Incomplete | NotEscape

  /** `<digits;digits;digits` followed by M or m. */
  predicate IsSgrMouse(payload: string) {
    && |payload| >= 2 && payload[0] == '<' && payload[|payload| - 1] in {'M', 'm'}
    && var parts := SplitOn(payload[1..|payload| - 1], ';');
       |parts| == 3 && forall p :: p in parts ==> p != "" && AllDigits(p)
  }

  /** A CSI final byte, section 5.4 of ECMA-48. */
  predicate IsFinalByte(c: char) {
    0x40 <= c as int <= 0x7E
  }

  function IsCompleteCsi(data: string): Status
    requires StartsWith(data, [ESC, '['])
  {
    if |data| < 3 then Incomplete
    else
      var payload := data[2..];
      if IsFinalByte(payload[|payload| - 1]) then
        if payload[0] == '<' then (if IsSgrMouse(payload) then Complete else Incomplete)
        else Complete
      else Incomplete
  }

  function IsCompleteOsc(data: string): Status {
    if EndsWith(data, [ESC, '\\']) || EndsWith(data, [BEL]) then Complete else Incomplete
  }

  function IsCompleteString(data: string): Status {
    if EndsWith(data, [ESC, '\\']) then Complete else Incomplete
  }

  function IsCompleteSequence(data: string): Status {
    if !StartsWith(data, [ESC]) then NotEscape
    else if |data| == 1 then Incomplete
    else if data[1] == '[' then
      if |data| >= 3 && data[2] == 'M' then (if |data| >= 6 then Complete else Incomplete)
      else IsCompleteCsi(data)
    else if data[1] == ']' then IsCompleteOsc(data)
    else if data[1] == 'P' then IsCompleteString(data)
    else if data[1] == '_' then IsCompleteString(data)
    else if data[1] == 'O' then (if |data| >= 3 then Complete else Incomplete)
    else Complete
  }

  // ----- splitting -----

  /** The length of the shortest complete sequence at the start of `s` among lengths from `k` on, or
      a number past the end. */
  function SequenceEnd(s: string, k: nat): (e: nat)
    requires 1 <= k
    ensures k <= e && (k <= |s| + 1 ==> e <= |s| + 1)
    ensures e <= |s| ==> IsCompleteSequence(s[..e]) == Complete
    ensures forall i :: k <= i < e && i <= |s| ==> IsCompleteSequence(s[..i]) != Complete
    decreases |s| + 1 - k
  {
    if k > |s| then k
    else if IsCompleteSequence(s[..k]) == Complete then k
    else SequenceEnd(s, k + 1)
  }

  /** The length of the first unit of `s`, 0 when it is not complete yet. A doubled escape whose
      second half opens a sequence gives up only its first half. */
  function UnitLength(s: string): (n: nat)
    requires s != ""
    ensures n <= |s|
  {
    if s[0] != ESC then 1
    else
      var e := SequenceEnd(s, 1);
      if e > |s| then 0
      else if s[..e] == [ESC, ESC] && e < |s| && s[e] in INTRODUCERS then 1
      else e
  }

  datatype SplitResult = SplitResult(sequences: seq<string>, remainder: string)

  function Split(s: string): (r: SplitResult)
    decreases |s|
  {
    if s == "" then SplitResult([], "")
    else
      var n := UnitLength(s);
      if n == 0 then SplitResult([], s)
      else
        var rest := Split(s[n..]);
        SplitResult([s[..n]] + rest.sequences, rest.remainder)
  }

  /** The search for the end of the escape sequence at the start of `remaining`; 0 when it is not
      complete yet. */
  method FindSequenceEnd(remaining: string) returns (advance: nat)
    requires remaining != "" && remaining[0] == ESC
    ensures advance == UnitLength(remaining)
  {
    var seqEnd := 1;
    while seqEnd <= |remaining|
      invariant 1 <= seqEnd <= |remaining| + 1
      invariant SequenceEnd(remaining, 1) == SequenceEnd(remaining, seqEnd)
    {
      var candidate := remaining[..seqEnd];
      var status := IsCompleteSequence(candidate);
      if status == Complete {
        if candidate == [ESC, ESC] && seqEnd < |remaining| && remaining[seqEnd] in INTRODUCERS {
          return 1;
        }
        return seqEnd;
      }
      seqEnd := seqEnd + 1;
    }
    return 0;
  }

  method ExtractCompleteSequences(buffer: string) returns (r: SplitResult)
    ensures r == Split(buffer)
  {
    hide UnitLength;
    var sequences: seq<string> := [];
    var pos := 0;
    while pos < |buffer|
      invariant 0 <= pos <= |buffer|
      invariant Split(buffer) == Prepend(sequences, Split(buffer[pos..]))
    {
      var remaining := buffer[pos..];
      var advance := 1;
      if remaining[0] == ESC {
        advance := FindSequenceEnd(remaining);
        if advance == 0 {
          return SplitResult(sequences, remaining);
        }
      } else {
        PlainUnit(remaining);
      }
      SplitStep(remaining);
      assert remaining[advance..] == buffer[pos + advance..];
      PrependTwice(sequences, remaining[..advance], Split(buffer[pos + advance..]));
      sequences := sequences + [remaining[..advance]];
      pos := pos + advance;
    }
    r := SplitResult(sequences, "");
  }

  function Prepend(units: seq<string>, r: SplitResult): SplitResult {
    SplitResult(units + r.sequences, r.remainder)
  }

  lemma PrependTwice(units: seq<string>, u: string, r: SplitResult)
    ensures Prepend(units, Prepend([u], r)) == Prepend(units + [u], r)
  {
  }

  lemma PlainUnit(s: string)
    requires s != "" && s[0] != ESC
    ensures UnitLength(s) == 1
  {
  }

  lemma SplitStep(s: string)
    requires s != ""
    ensures UnitLength(s) > 0 ==> Split(s) == Prepend([s[..UnitLength(s)]], Split(s[UnitLength(s)..]))
    ensures UnitLength(s) == 0 ==> Split(s) == SplitResult([], s)
  {
  }

  // ----- what a split is -----

  lemma {:induction false} SplitJoins(s: string)
    ensures Join(Split(s).sequences) + Split(s).remainder == s
    decreases |s|
  {
    hide UnitLength, Split, Join;
    NothingSplits();
    if s != "" {
      var n := UnitLength(s);
      SplitStep(s);
      if n > 0 {
        SplitJoins(s[n..]);
        JoinFirst(s[..n], Split(s[n..]).sequences, Split(s[n..]).remainder);
        assert s == s[..n] + s[n..];
      }
    }
  }

  lemma NothingSplits()
    ensures Split("") == SplitResult([], "") && Join([]) == ""
  {
  }

  lemma JoinFirst(first: string, rest: seq<string>, remainder: string)
    ensures Join([first] + rest) + remainder == first + (Join(rest) + remainder)
  {
    assert ([first] + rest)[1..] == rest;
  }

  /** A shortest complete sequence. */
  ghost predicate IsUnit(u: string) {
    && IsCompleteSequence(u) == Complete
    && forall i :: 1 <= i < |u| ==> IsCompleteSequence(u[..i]) != Complete
  }

  /** One plain character, a lone escape, or a shortest complete sequence. */
  ghost predicate IsPart(u: string) {
    (|u| == 1 && u[0] != ESC) || u == [ESC] || IsUnit(u)
  }

  lemma FirstIsPart(s: string)
    requires s != "" && UnitLength(s) > 0
    ensures IsPart(s[..UnitLength(s)])
  {
    hide IsCompleteSequence;
    var n := UnitLength(s);
    var u := s[..n];
    if s[0] == ESC && u != [ESC] {
      assert n == SequenceEnd(s, 1);
      forall i | 1 <= i < n ensures IsCompleteSequence(u[..i]) != Complete {
        assert u[..i] == s[..i];
      }
    }
  }

  lemma NeverComplete(s: string)
    requires s != "" && UnitLength(s) == 0
    ensures s[0] == ESC && forall i :: 1 <= i <= |s| ==> IsCompleteSequence(s[..i]) != Complete
  {
    hide IsCompleteSequence;
  }

  /** Every sequence is one plain character, a lone escape, or a shortest complete sequence; what is
      left over is empty or has not become complete at any length. */
  lemma {:induction false} SplitUnits(s: string)
    ensures forall u :: u in Split(s).sequences ==> IsPart(u)
    ensures var rem := Split(s).remainder;
      rem == "" || (rem[0] == ESC && forall i :: 1 <= i <= |rem| ==> IsCompleteSequence(rem[..i]) != Complete)
    decreases |s|
  {
    hide IsCompleteSequence, IsPart, UnitLength;
    if s != "" {
      var n := UnitLength(s);
      if n > 0 {
        SplitUnits(s[n..]);
        FirstIsPart(s);
      } else {
        NeverComplete(s);
      }
    }
  }

  /** Apart from mouse reports, a CSI sequence is complete at its first final byte and not before. */
  lemma CsiEndsAtFinalByte(s: string, k: nat)
    requires StartsWith(s, [ESC, '[']) && 2 <= k < |s|
    requires s[2] != 'M' && s[2] != '<'
    requires IsFinalByte(s[k]) && forall i :: 2 <= i < k ==> !IsFinalByte(s[i])
    ensures UnitLength(s) == k + 1
  {
    forall i | 1 <= i <= k ensures IsCompleteSequence(s[..i]) != Complete {
    }
    assert IsCompleteSequence(s[..k + 1]) == Complete;
  }

  /** The first separator of a text, or its length. */
  function Field(p: string, sep: char): (n: nat)
    ensures n <= |p| && (n < |p| ==> p[n] == sep) && forall i :: 0 <= i < n ==> p[i] != sep
  {
    if p == "" || p[0] == sep then 0 else 1 + Field(p[1..], sep)
  }

  lemma {:induction false} SplitFirst(p: string, sep: char)
    ensures var n := Field(p, sep);
      SplitOn(p, sep) == if n == |p| then [p] else [p[..n]] + SplitOn(p[n + 1..], sep)
    decreases |p|
  {
    if p != "" && p[0] != sep {
      SplitFirst(p[1..], sep);
      assert p == [p[0]] + p[1..];
      var n := Field(p[1..], sep);
      if n < |p[1..]| {
        assert p[..n + 1] == [p[0]] + p[1..][..n] && p[1..][n + 1..] == p[n + 2..];
      }
    }
  }

  predicate Number(s: string, i: nat, j: nat) {
    i < j <= |s| && forall k :: i <= k < j ==> IsDigit(s[k])
  }

  /** Three numbers, with a `;` at `i` and at `j` between them. */
  predicate ThreeNumbers(p: string, i: nat, j: nat) {
    i < j < |p| && p[i] == ';' && p[j] == ';' && Number(p, 0, i) && Number(p, i + 1, j) && Number(p, j + 1, |p|)
  }

  ghost predicate IsThreeNumbers(p: string) {
    exists i: nat, j: nat :: ThreeNumbers(p, i, j)
  }

  predicate IsNumber(p: string) {
    p != "" && AllDigits(p)
  }

  lemma FieldOfNumber(p: string, i: nat)
    requires i <= |p| && (forall k :: 0 <= k < i ==> IsDigit(p[k])) && (i < |p| ==> p[i] == ';')
    ensures Field(p, ';') == i
  {
  }

  lemma NumberIs(p: string, i: nat, j: nat)
    requires i <= j <= |p|
    ensures IsNumber(p[i..j]) <==> Number(p, i, j)
  {
    if IsNumber(p[i..j]) {
      forall k | i <= k < j ensures IsDigit(p[k]) { assert p[i..j][k - i] in p[i..j]; }
    }
  }

  /** Three fields, all numbers, are three numbers with two separators. */
  lemma ThreeFields(p: string)
    ensures (|SplitOn(p, ';')| == 3 && forall q :: q in SplitOn(p, ';') ==> IsNumber(q)) <==> IsThreeNumbers(p)
  {
    hide ThreeNumbers, IsNumber, SplitOn;
    var parts := SplitOn(p, ';');
    if |parts| == 3 && forall q :: q in parts ==> IsNumber(q) {
      assert parts[0] in parts && parts[1] in parts && parts[2] in parts;
      FieldsAreNumbers(p);
    }
    if i: nat, j: nat :| ThreeNumbers(p, i, j) { NumbersAreFields(p, i, j); }
  }

  lemma FieldSlices(p: string, i: nat, j: nat)
    requires i < j < |p|
    ensures p[i + 1..][j - i..] == p[j + 1..] == p[j + 1..|p|]
    ensures p[i + 1..][..j - i - 1] == p[i + 1..j] && p[0..i] == p[..i]
  {
  }

  /** The first separator is at `i`, the next at `j`. */
  predicate Separated(p: string, i: nat, j: nat) {
    && i < j < |p| && Field(p, ';') == i && Field(p[i + 1..], ';') == j - i - 1
  }

  lemma TwoFields(p: string, i: nat, j: nat)
    requires Separated(p, i, j)
    ensures SplitOn(p, ';') == [p[0..i]] + ([p[i + 1..j]] + SplitOn(p[j + 1..|p|], ';'))
  {
    hide SplitOn, Field;
    SplitFirst(p, ';');
    SplitFirst(p[i + 1..], ';');
    FieldSlices(p, i, j);
  }

  lemma FieldsAreNumbers(p: string)
    requires var parts := SplitOn(p, ';');
      |parts| == 3 && IsNumber(parts[0]) && IsNumber(parts[1]) && IsNumber(parts[2])
    ensures IsThreeNumbers(p)
  {
    hide Number, IsNumber, SplitOn, Field;
    SplitFirst(p, ';');
    var i := Field(p, ';');
    SplitFirst(p[i + 1..], ';');
    var j := i + 1 + Field(p[i + 1..], ';');
    var last := p[j + 1..|p|];
    TwoFields(p, i, j);
    SplitFirst(last, ';');
    assert SplitOn(p, ';') == [p[0..i], p[i + 1..j], last];
    NumberIs(p, 0, i);
    NumberIs(p, i + 1, j);
    NumberIs(p, j + 1, |p|);
    hide Separated;
    FieldEnds(p, i, j);
    assert ThreeNumbers(p, i, j);
  }

  lemma FieldEnds(p: string, i: nat, j: nat)
    requires Separated(p, i, j)
    ensures p[i] == ';' && p[j] == ';'
  {
  }

  lemma NumbersAreFields(p: string, i: nat, j: nat)
    requires ThreeNumbers(p, i, j)
    ensures var parts := SplitOn(p, ';');
      |parts| == 3 && IsNumber(parts[0]) && IsNumber(parts[1]) && IsNumber(parts[2])
    ensures forall q :: q in SplitOn(p, ';') ==> IsNumber(q)
  {
    hide IsNumber, SplitOn, Field, Number;
    ThreeNumbersAt(p, i, j);
    var last := p[j + 1..|p|];
    assert last == p[j + 1..];
    TwoFields(p, i, j);
    SplitFirst(last, ';');
    assert SplitOn(p, ';') == [p[0..i], p[i + 1..j], last];
    NumberIs(p, 0, i);
    NumberIs(p, i + 1, j);
    NumberIs(p, j + 1, |p|);
  }

  lemma ThreeNumbersAt(p: string, i: nat, j: nat)
    requires ThreeNumbers(p, i, j)
    ensures Field(p, ';') == i && Field(p[i + 1..], ';') == j - i - 1 && Field(p[j + 1..], ';') == |p| - j - 1
  {
    FieldOfNumber(p, i);
    FieldOfNumber(p[i + 1..], j - i - 1);
    FieldOfNumber(p[j + 1..], |p| - j - 1);
  }

  /** A string terminator, or its second half, stands at `k`. */
  predicate TerminatorAt(s: string, k: nat) {
    2 < k < |s| && s[k - 1] == ESC && s[k] == '\\'
  }

  /** The escape sequence at the start of `s` may end with character `k`, as its kind has it. */
  ghost predicate ClosesAt(s: string, k: nat)
    requires 2 <= |s| && s[0] == ESC
  {
    && 1 <= k < |s|
    && match s[1]
       case '[' =>
         && k >= 2
         && if s[2] == 'M' then k >= 5
            else if s[2] == '<' then s[k] in {'M', 'm'} && IsThreeNumbers(s[3..k])
            else IsFinalByte(s[k])
       case ']' => s[k] == BEL || TerminatorAt(s, k)
       case 'P' => TerminatorAt(s, k)
       case '_' => TerminatorAt(s, k)
       case 'O' => k >= 2
       case _ => true
  }

  lemma MouseReport(payload: string)
    requires |payload| >= 1 && payload[0] == '<'
    ensures IsSgrMouse(payload) <==>
      && |payload| >= 2 && payload[|payload| - 1] in {'M', 'm'}
      && IsThreeNumbers(payload[1..|payload| - 1])
  {
    hide IsThreeNumbers, SplitOn;
    if |payload| >= 2 { ThreeFields(payload[1..|payload| - 1]); }
  }

  lemma PayloadIs(s: string, k: nat)
    requires 2 <= k < |s|
    ensures var payload := s[..k + 1][2..];
      && |payload| == k - 1 && payload[0] == s[2] && payload[|payload| - 1] == s[k]
      && (k >= 3 ==> payload[1..|payload| - 1] == s[3..k])
  {
    var payload := s[..k + 1][2..];
    assert payload == s[2..k + 1];
    if k >= 3 {
      var inner := payload[1..|payload| - 1];
      assert |inner| == |s[3..k]| && forall i :: 0 <= i < |inner| ==> inner[i] == s[3..k][i];
    }
  }

  lemma CsiCompleteIs(s: string, k: nat)
    requires 2 <= k < |s| && s[0] == ESC && s[1] == '[' && s[2] != 'M'
    ensures StartsWith(s[..k + 1], [ESC, '['])
    ensures IsCompleteCsi(s[..k + 1]) == Complete <==>
            if s[2] == '<' then s[k] in {'M', 'm'} && IsThreeNumbers(s[3..k]) else IsFinalByte(s[k])
  {
    hide IsSgrMouse, IsThreeNumbers;
    var data := s[..k + 1];
    assert data[..2] == [ESC, '['];
    PayloadIs(s, k);
    if s[2] == '<' {
      assert k == 2 ==> s[k] == '<';
      MouseReport(data[2..]);
    }
  }

  lemma CompleteIs(s: string, k: nat)
    requires 2 <= |s| && s[0] == ESC && 1 <= k < |s|
    ensures IsCompleteSequence(s[..k + 1]) == Complete <==> ClosesAt(s, k)
  {
    hide IsCompleteCsi, IsThreeNumbers, IsFinalByte;
    var data := s[..k + 1];
    assert data[0] == ESC && data[1] == s[1] && |data| == k + 1 >= 2;
    assert k >= 2 ==> data[2] == s[2];
    if s[1] == '[' && k >= 2 && s[2] != 'M' { CsiCompleteIs(s, k); }
    if s[1] == '[' && k == 1 { CsiAlone(data); }
  }

  lemma CsiAlone(data: string)
    requires |data| == 2 && StartsWith(data, [ESC, '['])
    ensures IsCompleteCsi(data) == Incomplete
  {
  }

  /** An escape sequence of any kind ends where it first may: a CSI sequence at its first final byte, an old mouse
      report at its sixth byte, an SGR mouse report behind three numbers, an OSC sequence at BEL or a string
      terminator, DCS and APC at a string terminator, SS3 and meta keys after one character. Nothing of it is given
      out before. */
  lemma EndsWhereItMay(s: string)
    requires 2 <= |s| && s[0] == ESC
    ensures var n := UnitLength(s);
      if n == 0 then forall k: nat :: k < |s| ==> !ClosesAt(s, k)
      else if n == 1 then s[1] == ESC && 2 < |s| && s[2] in INTRODUCERS
      else ClosesAt(s, n - 1) && forall k: nat :: k < n - 1 ==> !ClosesAt(s, k)
  {
    hide IsCompleteSequence, ClosesAt;
    NotAtStart(s);
    forall k: nat | 1 <= k < |s| ensures IsCompleteSequence(s[..k + 1]) == Complete <==> ClosesAt(s, k) {
      CompleteIs(s, k);
    }
    EscapeAlone(s);
    var e := SequenceEnd(s, 1);
    forall k: nat | k < e - 1 && k < |s| ensures !ClosesAt(s, k) {
      if k > 0 { assert IsCompleteSequence(s[..k + 1]) != Complete; }
    }
  }

  lemma NotAtStart(s: string)
    requires 2 <= |s| && s[0] == ESC
    ensures !ClosesAt(s, 0)
  {
  }

  lemma EscapeAlone(s: string)
    requires 1 <= |s| && s[0] == ESC
    ensures IsCompleteSequence(s[..1]) != Complete
  {
    assert s[..1] == [ESC];
  }

  // ----- adding input -----

  lemma {:induction false} SequenceEndExtends(s: string, c: string, k: nat)
    requires 1 <= k <= |s| + 1
    ensures SequenceEnd(s, k) <= |s| ==> SequenceEnd(s + c, k) == SequenceEnd(s, k)
    decreases |s| + 1 - k
  {
    if k <= |s| {
      assert (s + c)[..k] == s[..k];
      if IsCompleteSequence(s[..k]) != Complete { SequenceEndExtends(s, c, k + 1); }
    }
  }

  /** The split of `s` ends in a doubled escape, and `c` would make its second half open a sequence. */
  predicate OpenTail(s: string, c: string) {
    var r := Split(s);
    && r.remainder == "" && r.sequences != [] && r.sequences[|r.sequences| - 1] == [ESC, ESC]
    && c != "" && c[0] in INTRODUCERS
  }

  lemma UnitLengthExtends(s: string, c: string)
    requires s != "" && UnitLength(s) > 0
    ensures if s == [ESC, ESC] && c != "" && c[0] in INTRODUCERS then UnitLength(s + c) == 1
            else UnitLength(s + c) == UnitLength(s)
  {
    if s[0] == ESC {
      var e := SequenceEnd(s, 1);
      SequenceEndExtends(s, c, 1);
      assert (s + c)[..e] == s[..e];
      if e == |s| {
        assert c != "" ==> (s + c)[e] == c[0];
        assert s[..e] == s;
      } else {
        assert (s + c)[e] == s[e];
      }
    }
  }

  lemma OpenTailRest(s: string, c: string)
    requires s != "" && UnitLength(s) > 0
    ensures OpenTail(s[UnitLength(s)..], c) ==> OpenTail(s, c)
    ensures s == [ESC, ESC] && c != "" && c[0] in INTRODUCERS ==> OpenTail(s, c)
  {
    var rest := Split(s[UnitLength(s)..]).sequences;
    SplitStep(s);
    assert rest != [] ==> Split(s).sequences[|Split(s).sequences| - 1] == rest[|rest| - 1];
  }

  /** Splitting more input continues the split of what came first, unless a doubled escape at the cut
      is reopened. */
  lemma {:induction false} SplitAppend(s: string, c: string)
    requires !OpenTail(s, c)
    ensures Split(s + c) == Prepend(Split(s).sequences, Split(Split(s).remainder + c))
    decreases |s|
  {
    if s == "" {
      assert s + c == c;
    } else if UnitLength(s) > 0 {
      hide UnitLength, OpenTail;
      var n := UnitLength(s);
      SplitBothStep(s, c, n);
      SplitAppend(s[n..], c);
      PrependAll(s[..n], Split(s[n..]).sequences, Split(Split(s[n..]).remainder + c));
    }
  }

  /** One step of both splits. */
  lemma SplitBothStep(s: string, c: string, n: nat)
    requires s != "" && n == UnitLength(s) > 0 && !OpenTail(s, c)
    ensures !OpenTail(s[n..], c)
    ensures Split(s) == Prepend([s[..n]], Split(s[n..]))
    ensures Split(s + c) == Prepend([s[..n]], Split(s[n..] + c))
  {
    hide UnitLength, Split;
    OpenTailRest(s, c);
    UnitLengthExtends(s, c);
    SplitStep(s);
    SplitStep(s + c);
    assert (s + c)[..n] == s[..n] && (s + c)[n..] == s[n..] + c;
  }

  lemma PrependAll(u: string, units: seq<string>, r: SplitResult)
    ensures Prepend([u], Prepend(units, r)) == Prepend(Prepend([u], SplitResult(units, "")).sequences, r)
  {
    assert [u] + (units + r.sequences) == ([u] + units) + r.sequences;
  }

  lemma ReopensBehind(first: string, rest: seq<string>, whole: seq<string>)
    requires rest != [] && |rest| <= |whole| && whole[..|rest|] == rest[..|rest| - 1] + [[ESC]]
    ensures var done, all := [first] + rest, [first] + whole;
      all[..|done|] == done[..|done| - 1] + [[ESC]]
  {
    assert ([first] + whole)[..|rest| + 1] == [first] + whole[..|rest|];
  }

  /** The doubled escape is all there is: with more input its first escape stands alone. */
  lemma ReopensHere(s: string, c: string)
    requires s != "" && OpenTail(s, c) && UnitLength(s) == |s|
    ensures Split(s).sequences == [s] && Split(s + c).sequences != [] && Split(s + c).sequences[0] == [ESC]
  {
    hide UnitLength, Split, OpenTail;
    SplitStep(s);
    assert s[|s|..] == "" && s[..|s|] == s;
    SplitNothing();
    LastIsDoubled(s, c);
    UnitLengthExtends(s, c);
    SplitStep(s + c);
    assert (s + c)[..1] == [ESC];
  }

  lemma SplitNothing()
    ensures Split("") == SplitResult([], "")
  {
  }

  lemma LastIsDoubled(s: string, c: string)
    requires OpenTail(s, c) && Split(s).sequences == [s]
    ensures s == [ESC, ESC] && c != "" && c[0] in INTRODUCERS
  {
  }

  /** It comes later: the first sequence is the same in both splits. */
  lemma ReopensLater(s: string, c: string)
    requires s != "" && OpenTail(s, c) && 0 < UnitLength(s) < |s|
    ensures var n := UnitLength(s);
      && OpenTail(s[n..], c) && Split(s[n..]).sequences != []
      && Split(s).sequences == [s[..n]] + Split(s[n..]).sequences
      && Split(s + c).sequences == [s[..n]] + Split(s[n..] + c).sequences
  {
    hide UnitLength, SequenceEnd, IsCompleteSequence;
    var n := UnitLength(s);
    SplitStep(s);
    UnitLengthExtends(s, c);
    SplitStep(s + c);
    assert (s + c)[..n] == s[..n] && (s + c)[n..] == s[n..] + c;
    SplitJoins(s[n..]);
    var rest := Split(s[n..]).sequences;
    assert rest != [];
    assert Split(s).sequences[|Split(s).sequences| - 1] == rest[|rest| - 1];
  }

  /** At such a cut the split of the whole input departs from the split of its first part: in place
      of the doubled escape it has a single one. */
  lemma {:induction false} SplitReopens(s: string, c: string)
    requires OpenTail(s, c)
    ensures var done := Split(s).sequences; var whole := Split(s + c).sequences;
      |done| <= |whole| && whole[..|done|] == done[..|done| - 1] + [[ESC]]
    decreases |s|
  {
    OpenTailUnit(s, c);
    hide UnitLength, Split, OpenTail;
    var n := UnitLength(s);
    if n == |s| {
      ReopensHere(s, c);
    } else {
      ReopensLater(s, c);
      SplitReopens(s[n..], c);
      ReopensBehind(s[..n], Split(s[n..]).sequences, Split(s[n..] + c).sequences);
    }
  }

  lemma OpenTailUnit(s: string, c: string)
    requires OpenTail(s, c)
    ensures s != "" && 0 < UnitLength(s) <= |s|
  {
  }
}
