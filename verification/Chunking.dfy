/** How input is cut into chunks does not matter, and exactly when it does. */
module Chunking {
  import opened Options
  import opened Strings
  import opened InputSequences
  import opened StdinBuffering

  /** The chunks in turn. */
  function Feed(st: State, chunks: seq<string>): (r: Step)
    requires st.Valid()
    ensures r.state.Valid()
    decreases |chunks|
  {
    if chunks == [] then Step(st, [])
    else
      var first := Process(st, chunks[0]);
      Before(first.events, Feed(first.state, chunks[1..]))
  }

  /** Process `b` after the outcome `r`. */
  function Then(r: Step, b: string): Step
    requires r.state.Valid()
  {
    Before(r.events, Process(r.state, b))
  }

  lemma BeforeBefore(x: seq<Event>, y: seq<Event>, s: Step)
    ensures Before(x, Before(y, s)) == Before(x + y, s)
  {
    assert x + (y + s.events) == (x + y) + s.events;
  }

  lemma {:induction false} EmitAllConcat(pending: Option<nat>, a: seq<string>, b: seq<string>)
    ensures var e := EmitAll(pending, a); var f := EmitAll(e.pending, b);
      EmitAll(pending, a + b) == Emission(f.pending, e.events + f.events)
    decreases |a|
  {
    if a == [] {
      assert a + b == b;
    } else {
      assert (a + b)[0] == a[0] && (a + b)[1..] == a[1..] + b;
      EmitAllConcat(EmitData(pending, a[0]).pending, a[1..], b);
    }
  }

  // ----- where input may be cut -----

  /** Before any paste start in `buffer`: may the input be cut after `buffer`, with `b` following?
      Not where a doubled escape would be reopened, and not inside a paste start whose beginning the
      sequences in front of it have swallowed. */
  predicate KeysCut(buffer: string, b: string) {
    var j := IndexOf(buffer + b, PASTE_START);
    if j == -1 then !OpenTail(buffer, b)
    else if j >= |buffer| then !OpenTail(buffer, b[..j - |buffer|])
    else
      var r := Split(buffer);
      |buffer| - |r.remainder| <= j && Split(buffer[..j]).sequences == r.sequences
  }

  predicate PasteCut(text: string, b: string)
    decreases |text|, 0
  {
    var endIndex := IndexOf(text, PASTE_END);
    endIndex == -1 ||
    var remaining := text[endIndex + |PASTE_END|..];
    remaining == "" || Cut(IDLE, remaining, b)
  }

  /** May the input `a` followed by `b`, arriving in state `st`, be cut between them? */
  predicate Cut(st: State, a: string, b: string)
    requires st.Valid()
    decreases |st.buffer| + |st.pasteBuffer| + |a|, 2
  {
    var buffer := st.buffer + a;
    if st.pasteMode then PasteCut(st.pasteBuffer + buffer, b)
    else
      var startIndex := IndexOf(buffer, PASTE_START);
      if startIndex != -1 then PasteCut(buffer[startIndex + |PASTE_START|..], b)
      else KeysCut(buffer, b)
  }

  lemma {:induction false} PasteAdditive(text: string, b: string)
    requires b != "" && PasteCut(text, b)
    ensures PasteStep(text + b) == Then(PasteStep(text), b)
    decreases |text|, 0
  {
    var endIndex := IndexOf(text, PASTE_END);
    if endIndex != -1 {
      IndexExtends(text, b, PASTE_END);
      var remaining := text[endIndex + |PASTE_END|..];
      assert (text + b)[endIndex + |PASTE_END|..] == remaining + b;
      assert (text + b)[..endIndex] == text[..endIndex];
      var paste := [Paste(text[..endIndex])];
      if remaining == "" {
        assert remaining + b == b;
        assert paste + [] == paste;
      } else {
        Additive(IDLE, remaining, b);
        var r := Process(IDLE, remaining);
        BeforeBefore(paste, r.events, Process(r.state, b));
      }
    } else {
      assert "" + b == b;
    }
  }

  /** The sequences in front of a paste start at `j` that only the longer input shows. */
  lemma FrontSplits(buffer: string, b: string, j: nat, q: nat)
    requires q + |Split(buffer).remainder| == |buffer| && q <= j <= |buffer + b|
    requires if j >= |buffer| then !OpenTail(buffer, b[..j - |buffer|])
             else Split(buffer[..j]).sequences == Split(buffer).sequences
    ensures Split((buffer + b)[..j]).sequences ==
            Split(buffer).sequences + Split((Split(buffer).remainder + b)[..j - q]).sequences
  {
    var r := Split(buffer);
    if j >= |buffer| {
      var c := b[..j - |buffer|];
      assert (buffer + b)[..j] == buffer + c;
      assert (r.remainder + b)[..j - q] == r.remainder + c;
      SplitAppend(buffer, c);
    } else {
      assert (buffer + b)[..j] == buffer[..j];
      assert (r.remainder + b)[..j - q] == r.remainder[..j - q];
      RemainderWaits(buffer, j - q);
    }
  }

  lemma RemainderIsSuffix(s: string)
    ensures |Split(s).remainder| <= |s| && s[|s| - |Split(s).remainder|..] == Split(s).remainder
  {
    SplitJoins(s);
  }

  /** Input without a paste start so far: what follows is handled as if it had come at once. */
  lemma KeysAdditive(pending: Option<nat>, buffer: string, b: string)
    requires pending.Some? ==> pending.value >= 32
    requires b != "" && IndexOf(buffer, PASTE_START) == -1 && KeysCut(buffer, b)
    ensures
      var r := Split(buffer); var e := EmitAll(pending, r.sequences);
      (e.pending.Some? ==> e.pending.value >= 32) &&
      KeysStep(pending, buffer + b) == Before(e.events, KeysStep(e.pending, r.remainder + b))
  {
    hide OpenTail, MatchAt, Split, EmitAll, KeysStep, PasteStep;
    var r := Split(buffer);
    var e := EmitAll(pending, r.sequences);
    EmitAllPending(pending, r.sequences);
    var whole := buffer + b;
    var j := IndexOf(whole, PASTE_START);
    RemainderIsSuffix(buffer);
    var q := |buffer| - |r.remainder|;
    assert whole[q..] == buffer[q..] + b;
    IndexOfSuffix(whole, PASTE_START, q);
    if j == -1 {
      KeysOnly(pending, whole);
      KeysOnly(e.pending, r.remainder + b);
      SplitAppend(buffer, b);
      EmitAllConcat(pending, r.sequences, Split(r.remainder + b).sequences);
    } else {
      PasteFollows(pending, whole, j);
      FrontSplits(buffer, b, j, q);
      var front := Split((r.remainder + b)[..j - q]).sequences;
      PasteFollows(e.pending, r.remainder + b, j - q);
      EmitAllConcat(pending, r.sequences, front);
      var text := whole[j + |PASTE_START|..];
      assert text == (r.remainder + b)[j - q + |PASTE_START|..];
      BeforeBefore(e.events, EmitAll(e.pending, front).events, PasteStep(text));
    }
  }

  lemma KeysOnly(pending: Option<nat>, buffer: string)
    requires pending.Some? ==> pending.value >= 32
    requires IndexOf(buffer, PASTE_START) == -1
    ensures var r := Split(buffer); var e := EmitAll(pending, r.sequences);
      KeysStep(pending, buffer) == Step(State(r.remainder, false, "", e.pending), e.events)
  {
  }

  lemma PasteFollows(pending: Option<nat>, buffer: string, j: nat)
    requires pending.Some? ==> pending.value >= 32
    requires IndexOf(buffer, PASTE_START) == j
    ensures j + |PASTE_START| <= |buffer|
    ensures KeysStep(pending, buffer) ==
            Before(EmitAll(pending, Split(buffer[..j]).sequences).events, PasteStep(buffer[j + |PASTE_START|..]))
  {
    hide PasteStep, EmitAll, IndexOf;
    assert MatchAt(buffer, PASTE_START, j) by { FoundThere(buffer, j); }
    assert j == 0 ==> Split(buffer[..j]).sequences == [];
  }

  lemma FoundThere(buffer: string, j: nat)
    requires IndexOf(buffer, PASTE_START) == j
    ensures MatchAt(buffer, PASTE_START, j)
  {
  }

  /** A beginning of the remainder holds no complete sequence. */
  lemma RemainderWaits(s: string, k: nat)
    requires k <= |Split(s).remainder|
    ensures Split(Split(s).remainder[..k]).sequences == []
  {
    SplitUnits(s);
    var rem := Split(s).remainder;
    if k > 0 {
      forall i | 1 <= i <= k ensures IsCompleteSequence(rem[..k][..i]) != Complete {
        assert rem[..k][..i] == rem[..i];
      }
    }
  }

  lemma {:induction false} Additive(st: State, a: string, b: string)
    requires st.Valid() && a != "" && b != "" && Cut(st, a, b)
    ensures Process(st, a + b) == Then(Process(st, a), b)
    decreases |st.buffer| + |st.pasteBuffer| + |a|, 2
  {
    var buffer := st.buffer + a;
    assert st.buffer + (a + b) == buffer + b;
    if st.pasteMode {
      assert st.pasteBuffer + (buffer + b) == st.pasteBuffer + buffer + b;
      PasteAdditive(st.pasteBuffer + buffer, b);
    } else if IndexOf(buffer, PASTE_START) != -1 {
      AdditiveAfterStart(st.pending, buffer, b);
    } else {
      KeysAdditive(st.pending, buffer, b);
    }
  }

  lemma {:induction false} AdditiveAfterStart(pending: Option<nat>, buffer: string, b: string)
    requires pending.Some? ==> pending.value >= 32
    requires b != "" && IndexOf(buffer, PASTE_START) != -1
    requires PasteCut(buffer[IndexOf(buffer, PASTE_START) + |PASTE_START|..], b)
    ensures KeysStep(pending, buffer + b) == Then(KeysStep(pending, buffer), b)
    decreases |buffer|, 1
  {
    hide KeysStep, PasteStep, IndexOf, EmitAll, Split, Process, PasteCut;
    var j := IndexOf(buffer, PASTE_START);
    var text := buffer[j + |PASTE_START|..];
    IndexExtends(buffer, b, PASTE_START);
    PasteFollows(pending, buffer, j);
    PasteFollows(pending, buffer + b, j);
    assert (buffer + b)[j + |PASTE_START|..] == text + b;
    assert (buffer + b)[..j] == buffer[..j];
    PasteAdditive(text, b);
    var r := PasteStep(text);
    BeforeBefore(EmitAll(pending, Split(buffer[..j]).sequences).events, r.events, Process(r.state, b));
  }

  // ----- many chunks -----

  lemma {:induction false} FeedSnoc(st: State, chunks: seq<string>, c: string)
    requires st.Valid()
    ensures Feed(st, chunks + [c]) == Then(Feed(st, chunks), c)
    decreases |chunks|
  {
    if chunks == [] {
      var first := Process(st, c);
      assert Feed(first.state, [c][1..]) == Step(first.state, []);
      assert Feed(st, [c]) == Before(first.events, Feed(first.state, [c][1..]));
      assert first.events + [] == first.events && [] + first.events == first.events;
      assert [] + [c] == [c];
    } else {
      var first := Process(st, chunks[0]);
      assert (chunks + [c])[0] == chunks[0] && (chunks + [c])[1..] == chunks[1..] + [c];
      FeedSnoc(first.state, chunks[1..], c);
      var r := Feed(first.state, chunks[1..]);
      BeforeBefore(first.events, r.events, Process(r.state, c));
    }
  }

  lemma NothingFed(st: State)
    requires st.Valid()
    ensures Feed(st, []) == Step(st, []) && Join([]) == ""
  {
  }

  predicate Chunks(chunks: seq<string>) {
    forall i :: 0 <= i < |chunks| ==> chunks[i] != ""
  }

  /** Chunks cut only at permitted places give exactly what the whole input gives at once. */
  lemma {:induction false} FeedIsProcess(st: State, chunks: seq<string>)
    requires st.Valid() && chunks != [] && Chunks(chunks)
    requires forall k :: 0 < k < |chunks| ==> Cut(st, Join(chunks[..k]), chunks[k])
    ensures Feed(st, chunks) == Process(st, Join(chunks))
    ensures Join(chunks) != ""
    decreases |chunks|
  {
    hide Process, Feed, Join, Cut;
    var k := |chunks| - 1;
    var init, c := chunks[..k], chunks[k];
    assert chunks == init + [c];
    FeedSnoc(st, init, c);
    JoinSnoc(init, c);
    if k == 0 {
      NothingFed(st);
      assert Join(init) + c == c;
      assert [] + Process(st, c).events == Process(st, c).events;
    } else {
      forall i | 0 < i < |init| ensures Cut(st, Join(init[..i]), init[i]) {
        assert init[..i] == chunks[..i] && init[i] == chunks[i];
      }
      assert Chunks(init);
      FeedIsProcess(st, init);
      Additive(st, Join(init), c);
    }
  }

  // ----- input without pastes -----

  lemma PasteFreePrefix(s: string, c: string)
    requires IndexOf(s + c, PASTE_START) == -1
    ensures IndexOf(s, PASTE_START) == -1
  {
    if IndexOf(s, PASTE_START) != -1 { IndexExtends(s, c, PASTE_START); }
  }

  lemma OpenTailFirstChar(s: string, c: string, d: string)
    requires c != "" && d != "" && c[0] == d[0]
    ensures OpenTail(s, c) == OpenTail(s, d)
  {
  }

  lemma PasteFreeCut(s: string, c: string)
    requires s != "" && IndexOf(s + c, PASTE_START) == -1
    ensures Cut(IDLE, s, c) == !OpenTail(s, c)
  {
    PasteFreePrefix(s, c);
    assert "" + s == s;
  }

  /** No cut falls between a doubled escape and a character that opens a sequence. */
  predicate CleanCuts(chunks: seq<string>) {
    forall k :: 0 < k < |chunks| ==> !OpenTail(Join(chunks[..k]), chunks[k])
  }

  lemma JoinAt(chunks: seq<string>, k: nat)
    requires k < |chunks| && Chunks(chunks)
    ensures Join(chunks) == Join(chunks[..k]) + Join(chunks[k..])
    ensures Join(chunks[k..]) != "" && Join(chunks[k..])[0] == chunks[k][0]
    ensures exists rest :: Join(chunks[..k]) + chunks[k] + rest == Join(chunks)
    ensures k > 0 ==> Join(chunks[..k]) != ""
  {
    assert chunks == chunks[..k] + chunks[k..];
    JoinConcat(chunks[..k], chunks[k..]);
    var rest := Join(chunks[k..][1..]);
    assert Join(chunks[k..]) == chunks[k] + rest;
    assert Join(chunks[..k]) + chunks[k] + rest == Join(chunks);
  }

  lemma CleanCutsFeed(chunks: seq<string>)
    requires chunks != [] && Chunks(chunks) && IndexOf(Join(chunks), PASTE_START) == -1
    requires CleanCuts(chunks)
    ensures Feed(IDLE, chunks) == Process(IDLE, Join(chunks))
  {
    forall k | 0 < k < |chunks| ensures Cut(IDLE, Join(chunks[..k]), chunks[k]) {
      JoinAt(chunks, k);
      var rest :| Join(chunks[..k]) + chunks[k] + rest == Join(chunks);
      PasteFreePrefix(Join(chunks[..k]) + chunks[k], rest);
      PasteFreeCut(Join(chunks[..k]), chunks[k]);
    }
    FeedIsProcess(IDLE, chunks);
  }

  lemma {:induction false} FeedKeepsEvents(st: State, a: seq<string>, b: seq<string>)
    requires st.Valid()
    ensures Feed(st, a).events <= Feed(st, a + b).events
    decreases |b|
  {
    if b == [] {
      assert a + b == a;
    } else {
      FeedKeepsEvents(st, a + [b[0]], b[1..]);
      assert a + [b[0]] + b[1..] == a + b;
      FeedSnoc(st, a, b[0]);
    }
  }

  /** Where a doubled escape is reopened, the part has emitted both escapes as one sequence; the
      whole input emits a single escape there. */
  lemma ReopenedEvents(s: string, c: string)
    requires s != "" && OpenTail(s, c) && IndexOf(s + c, PASTE_START) == -1
    ensures exists i :: SplitApart(Process(IDLE, s).events, Process(IDLE, s + c).events, i)
  {
    hide Split, EmitAll, PasteStep, KeysStep, IndexOf;
    PasteFreePrefix(s, c);
    assert "" + s == s && "" + (s + c) == s + c;
    KeysOnly(None, s);
    KeysOnly(None, s + c);
    SplitReopens(s, c);
    var done, whole := Split(s).sequences, Split(s + c).sequences;
    var n := |done| - 1;
    EmitSplitAt(done, n);
    EmitSplitAt(whole, n);
    assert whole[..n] == done[..n];
    var i := |EmitAll(None, done[..n]).events|;
    assert done[n] == [ESC, ESC] && whole[n] == [ESC];
    assert SplitApart(Process(IDLE, s).events, Process(IDLE, s + c).events, i);
  }

  /** At event `i` one run has the doubled escape, the other a single one. */
  ghost predicate SplitApart(x: seq<Event>, y: seq<Event>, i: nat) {
    i < |x| && i < |y| && x[i] == Data([ESC, ESC]) && y[i] == Data([ESC])
  }

  /** The event of sequence `n` follows those of the sequences before it. */
  lemma EmitSplitAt(sequences: seq<string>, n: nat)
    requires n < |sequences| && (|sequences[n]| != 1 || sequences[n] == [ESC])
    ensures var i := |EmitAll(None, sequences[..n]).events|;
      i < |EmitAll(None, sequences).events| && EmitAll(None, sequences).events[i] == Data(sequences[n])
  {
    EmitAllPending(None, sequences[..n]);
    assert sequences == sequences[..n] + sequences[n..];
    EmitAllConcat(None, sequences[..n], sequences[n..]);
  }

  lemma BadCutShows(chunks: seq<string>, k: nat)
    requires 0 < k < |chunks| && Chunks(chunks) && IndexOf(Join(chunks), PASTE_START) == -1
    requires CleanCuts(chunks[..k]) && OpenTail(Join(chunks[..k]), chunks[k])
    ensures Feed(IDLE, chunks).events != Process(IDLE, Join(chunks)).events
  {
    hide OpenTail, IndexOf, Process, Feed;
    var s, c := Join(chunks[..k]), Join(chunks[k..]);
    JoinAt(chunks, k);
    PasteFreePrefix(s, c);
    CleanCutsFeed(chunks[..k]);
    assert chunks == chunks[..k] + chunks[k..];
    FeedKeepsEvents(IDLE, chunks[..k], chunks[k..]);
    OpenTailFirstChar(s, chunks[k], c);
    ReopenedEvents(s, c);
  }

  /** For input without pastes, chunking is invisible exactly when the cuts are clean. */
  lemma ChunkingMatters(chunks: seq<string>)
    requires chunks != [] && Chunks(chunks) && IndexOf(Join(chunks), PASTE_START) == -1
    ensures CleanCuts(chunks) ==> Feed(IDLE, chunks) == Process(IDLE, Join(chunks))
    ensures !CleanCuts(chunks) ==> Feed(IDLE, chunks).events != Process(IDLE, Join(chunks)).events
  {
    if CleanCuts(chunks) {
      CleanCutsFeed(chunks);
    } else {
      var k :| 0 < k < |chunks| && OpenTail(Join(chunks[..k]), chunks[k]) && CleanCuts(chunks[..k]) by {
        assert chunks[..|chunks|] == chunks;
        FirstBadCut(chunks, |chunks|);
      }
      BadCutShows(chunks, k);
    }
  }

  /** It does not help that no chunk ends in two escapes: they may come one by one. */
  lemma EscapesOneByOne()
    ensures var chunks := [[ESC], [ESC], "[A"];
      && (forall c :: c in chunks ==> !EndsWith(c, [ESC, ESC]))
      && Feed(IDLE, chunks).events != Process(IDLE, Join(chunks)).events
  {
    hide Feed, Process, OpenTail;
    var chunks := [[ESC], [ESC], "[A"];
    var s := [ESC, ESC];
    assert chunks[..2] == [[ESC], [ESC]] && chunks[..2][1..] == [[ESC]] && chunks[..2][1..][1..] == [];
    assert Join([[ESC]]) == [ESC] + Join([]) == [ESC];
    assert Join(chunks[..2]) == [ESC] + Join([[ESC]]) == s;
    TwoEscapesUnit();
    OpenTailRest(s, chunks[2]);
    assert !CleanCuts(chunks);
    JoinAt(chunks, 2);
    assert chunks[2..] == ["[A"] && chunks[2..][1..] == [];
    assert Join(chunks[2..]) == "[A" + "";
    assert |Join(chunks)| == 4;
    ChunkingMatters(chunks);
  }

  lemma TwoEscapesUnit()
    ensures UnitLength([ESC, ESC]) > 0
  {
    assert [ESC, ESC][..1] == [ESC] && [ESC, ESC][..2] == [ESC, ESC];
    assert IsCompleteSequence([ESC, ESC]) == Complete;
  }

  lemma {:induction false} FirstBadCut(chunks: seq<string>, n: nat)
    requires n <= |chunks| && !CleanCuts(chunks[..n])
    ensures exists k :: 0 < k < n && OpenTail(Join(chunks[..k]), chunks[k]) && CleanCuts(chunks[..k])
  {
    var k :| 0 < k < n && OpenTail(Join(chunks[..n][..k]), chunks[..n][k]);
    assert chunks[..n][..k] == chunks[..k];
    if !CleanCuts(chunks[..k]) { FirstBadCut(chunks, k); }
  }

  // ----- one paste -----

  /** The end marker cannot overlap its own beginning. */
  lemma EndAfterBody(body: string)
    requires IndexOf(body, PASTE_END) == -1
    ensures IndexOf(body + PASTE_END, PASTE_END) == |body|
  {
    var s := body + PASTE_END;
    assert MatchAt(s, PASTE_END, |body|);
    forall k | 0 <= k < |body| ensures !MatchAt(s, PASTE_END, k) {
      if k + |PASTE_END| <= |body| {
        MatchExtends(body, PASTE_END, PASTE_END, k);
      } else {
        var n := |body| - k;
        assert k + |PASTE_END| <= |s| && 1 <= n <= 5;
        assert s[k..k + |PASTE_END|][n] == ESC && PASTE_END[n] != ESC;
      }
    }
    IndexIs(s, PASTE_END, |body|);
  }

  lemma StartAtOnce(text: string)
    ensures IndexOf(PASTE_START + text, PASTE_START) == 0
  {
    assert (PASTE_START + text)[0..|PASTE_START|] == PASTE_START;
  }

  lemma StartIncomplete(i: nat)
    requires 1 <= i < |PASTE_START|
    ensures IsCompleteSequence(PASTE_START[..i]) == Incomplete
  {
    assert PASTE_START[..i][0] == ESC;
    if i >= 2 {
      assert PASTE_START[..i][1] == '[';
      if i >= 3 {
        assert PASTE_START[..i][2..][0] == '2';
        assert PASTE_START[..i][2..][i - 3] == PASTE_START[i - 1];
      }
    }
  }

  /** A beginning of the start marker is kept back whole. */
  lemma StartWaits(a: string)
    requires |a| < |PASTE_START| && a == PASTE_START[..|a|]
    ensures Split(a) == SplitResult([], a)
    ensures IndexOf(a, PASTE_START) == -1
  {
    hide IsCompleteSequence, Split, IndexFrom;
    forall i | 1 <= i <= |a| ensures IsCompleteSequence(a[..i]) != Complete {
      assert a[..i] == PASTE_START[..i];
      StartIncomplete(i);
    }
    if a != "" {
      assert a[0] == ESC;
      NeverEnds(a, 1);
      SplitStep(a);
    } else {
      NothingSplits();
    }
  }

  lemma {:induction false} NeverEnds(s: string, k: nat)
    requires s != "" && s[0] == ESC && 1 <= k <= |s| + 1
    requires forall i :: k <= i <= |s| ==> IsCompleteSequence(s[..i]) != Complete
    ensures SequenceEnd(s, k) == |s| + 1
    decreases |s| + 1 - k
  {
    hide IsCompleteSequence;
    if k <= |s| { NeverEnds(s, k + 1); }
  }

  lemma CutInStart(a: string, c: string, text: string)
    requires a != "" && |a| < |PASTE_START| && c != "" && a + c <= PASTE_START + text
    ensures Cut(IDLE, a, c)
  {
    hide Split, IndexFrom, PasteCut, UnitLength;
    NothingSplits();
    assert "" + a == a;
    assert a == (PASTE_START + text)[..|a|] == PASTE_START[..|a|];
    StartWaits(a);
    if IndexOf(a + c, PASTE_START) != -1 {
      assert (a + c)[..|PASTE_START|] == PASTE_START by {
        assert a + c == (PASTE_START + text)[..|a| + |c|];
      }
      IndexIs(a + c, PASTE_START, 0);
    }
  }

  lemma CutInPaste(body: string, text: string, b: string, c: string)
    requires IndexOf(body, PASTE_END) == -1 && b != "" && text + b == body + PASTE_END
    ensures Cut(IDLE, PASTE_START + text, c)
  {
    assert "" + (PASTE_START + text) == PASTE_START + text;
    StartAtOnce(text);
    EndAfterBody(body);
    assert (PASTE_START + text)[|PASTE_START|..] == text;
    assert IndexOf(text, PASTE_END) == -1 by {
      if IndexOf(text, PASTE_END) != -1 { IndexExtends(text, b, PASTE_END); }
    }
  }

  lemma PasteCutAnywhere(body: string, a: string, c: string, rest: string)
    requires IndexOf(body, PASTE_END) == -1
    requires a != "" && c != "" && a + c + rest == PASTE_START + body + PASTE_END
    ensures Cut(IDLE, a, c)
  {
    var all := PASTE_START + (body + PASTE_END);
    assert a + c + rest == all;
    if |a| < |PASTE_START| {
      assert a + c == all[..|a + c|];
      CutInStart(a, c, body + PASTE_END);
    } else {
      var text := a[|PASTE_START|..];
      assert a == all[..|a|];
      assert a == PASTE_START + text;
      assert text + (c + rest) == all[|PASTE_START|..];
      CutInPaste(body, text, c + rest, c);
    }
  }

  lemma PasteOfBody(body: string)
    requires IndexOf(body, PASTE_END) == -1
    ensures PasteStep(body + PASTE_END) == Step(IDLE, [Paste(body)])
  {
    hide IndexOf, Process;
    EndAfterBody(body);
    assert (body + PASTE_END)[..|body|] == body;
    assert (body + PASTE_END)[|body| + |PASTE_END|..] == "";
  }

  lemma IdleReadsKeys(data: string)
    requires data != ""
    ensures Process(IDLE, data) == KeysStep(None, data)
  {
    hide KeysStep, PasteStep;
    assert "" + data == data;
  }

  lemma PasteAtOnce(body: string)
    requires IndexOf(body, PASTE_END) == -1
    ensures Process(IDLE, PASTE_START + body + PASTE_END) == Step(IDLE, [Paste(body)])
  {
    hide IndexOf, Process, KeysStep, PasteStep, Split;
    var all := PASTE_START + (body + PASTE_END);
    assert PASTE_START + body + PASTE_END == all;
    IdleReadsKeys(all);
    StartAtOnce(body + PASTE_END);
    assert all[|PASTE_START|..] == body + PASTE_END;
    PasteFollows(None, all, 0);
    PasteOfBody(body);
    NothingSplits();
    assert all[..0] == "" && EmitAll(None, []).events == [];
  }

  /** A bracketed paste arrives as exactly one paste of its body, however it was cut up. */
  lemma PasteSurvivesChunking(chunks: seq<string>, body: string)
    requires Chunks(chunks) && Join(chunks) == PASTE_START + body + PASTE_END
    requires IndexOf(body, PASTE_END) == -1
    ensures Feed(IDLE, chunks) == Step(IDLE, [Paste(body)])
  {
    forall k | 0 < k < |chunks| ensures Cut(IDLE, Join(chunks[..k]), chunks[k]) {
      JoinAt(chunks, k);
      var rest :| Join(chunks[..k]) + chunks[k] + rest == Join(chunks);
      PasteCutAnywhere(body, Join(chunks[..k]), chunks[k], rest);
    }
    FeedIsProcess(IDLE, chunks);
    PasteAtOnce(body);
  }
}
