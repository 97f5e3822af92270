/** Replaying assistant messages piece by piece, and why the pieces leave no trace. */
module StreamReplay {
  import opened Options
  import opened Transcript

  // ----- growing text -----

  /** The lengths a streaming string grows through: 3, 4, 5, 3, 4, 5 ... */
  function StepsFrom(text: string, end: nat, count: nat): seq<string>
    decreases if end < |text| then |text| - end else 0
  {
    if end >= |text| then []
    else
      var next := end + 3 + count % 3;
      [if next < |text| then text[..next] else text] + StepsFrom(text, next, count + 1)
  }

  function StreamText(text: string): seq<string> {
    StepsFrom(text, 0, 0)
  }

  method StreamTextSteps(text: string) returns (steps: seq<string>)
    ensures steps == StreamText(text)
  {
    steps := [];
    var end := 0;
    while end < |text|
      invariant StreamText(text) == steps + StepsFrom(text, end, |steps|)
      decreases if end < |text| then |text| - end else 0
    {
      var next := end + (3 + |steps| % 3);
      var step := if next < |text| then text[..next] else text;
      assert StepsFrom(text, end, |steps|) == [step] + StepsFrom(text, next, |steps| + 1);
      assert steps + ([step] + StepsFrom(text, next, |steps| + 1)) ==
             (steps + [step]) + StepsFrom(text, next, |steps| + 1);
      steps := steps + [step];
      end := next;
    }
  }

  /** Each step is a longer beginning of the text, and the last one is the text. */
  lemma {:induction false} StepsGrow(text: string, end: nat, count: nat)
    ensures var steps := StepsFrom(text, end, count);
      && (steps == [] <==> end >= |text|)
      && (steps != [] ==> steps[|steps| - 1] == text)
      && (forall i :: 0 <= i < |steps| ==> steps[i] <= text && |steps[i]| > end)
      && (forall i, j :: 0 <= i < j < |steps| ==> |steps[i]| < |steps[j]|)
    decreases if end < |text| then |text| - end else 0
  {
    if end < |text| {
      var next := end + 3 + count % 3;
      StepsGrow(text, next, count + 1);
      var first := if next < |text| then text[..next] else text;
      var rest := StepsFrom(text, next, count + 1);
      var steps := [first] + rest;
      forall i, j | 0 <= i < j < |steps| ensures |steps[i]| < |steps[j]| {
        assert steps[j] == rest[j - 1];
        if i > 0 { assert steps[i] == rest[i - 1]; }
      }
    }
  }

  /** The steps are 3, 4 and 5 characters long in turn, until the text is at its end. */
  lemma {:induction false} StepSizes(text: string, end: nat, count: nat, i: nat)
    requires i < |StepsFrom(text, end, count)|
    ensures var steps := StepsFrom(text, end, count);
      var next := (if i == 0 then end else |steps[i - 1]|) + 3 + (count + i) % 3;
      |steps[i]| == if next < |text| then next else |text|
    decreases i
  {
    if i > 0 {
      var next := end + 3 + count % 3;
      var first := if next < |text| then text[..next] else text;
      var rest := StepsFrom(text, next, count + 1);
      assert StepsFrom(text, end, count) == [first] + rest;
      assert rest != [] && next < |text|;
      StepSizes(text, next, count + 1, i - 1);
    }
  }

  // ----- the pieces of an assistant message -----

  const STREAMED_ARGS := map["write" := "content", "bash" := "command"]

  /** The long argument of a call that streams, if it has one. */
  function StreamedArg(name: string, args: Args): (r: Option<(string, string)>)
    ensures r.Some? ==> r.value.1 != "" && args.Object? && r.value.0 in args.fields &&
                        args.fields[r.value.0] == Str(r.value.1)
  {
    if name in STREAMED_ARGS && args.Object? && STREAMED_ARGS[name] in args.fields then
      var value := args.fields[STREAMED_ARGS[name]];
      if value.Str? && value.text != "" then Some((STREAMED_ARGS[name], value.text)) else None
    else None
  }

  function WithText(c: Content, text: string): Content
    requires !c.Call?
  {
    c.(text := text)
  }

  function WithArg(c: Content, key: string, value: string): Content
    requires c.Call? && c.args.Object?
  {
    c.(args := Object(c.args.fields[key := Str(value)]))
  }

  /** The forms one content block takes while it streams; none if it is not shown growing. */
  function Forms(c: Content): seq<Content> {
    if c.Call? then
      var streamed := StreamedArg(c.name, c.args);
      if streamed.None? then [c]
      else
        var steps := [""] + StreamText(streamed.value.1);
        seq(|steps|, i requires 0 <= i < |steps| => WithArg(c, streamed.value.0, steps[i]))
    else
      var steps := StreamText(c.text);
      seq(|steps|, i requires 0 <= i < |steps| => WithText(c, steps[i]))
  }

  function Grown(m: Message, shown: seq<Content>, forms: seq<Content>): seq<Message>
    requires m.Assistant?
  {
    seq(|forms|, i requires 0 <= i < |forms| => m.(content := shown + [forms[i]]))
  }

  /** The growing messages from block `n` on. */
  function PiecesFrom(m: Message, n: nat): seq<Message>
    requires m.Assistant? && n <= |m.content|
    decreases |m.content| - n
  {
    if n == |m.content| then []
    else Grown(m, m.content[..n], Forms(m.content[n])) + PiecesFrom(m, n + 1)
  }

  function Pieces(m: Message): seq<Message>
    requires m.Assistant?
  {
    PiecesFrom(m, 0)
  }

  lemma PiecesNext(m: Message, n: nat)
    requires m.Assistant? && n < |m.content|
    ensures PiecesFrom(m, n) == Grown(m, m.content[..n], Forms(m.content[n])) + PiecesFrom(m, n + 1)
  {
  }

  lemma PiecesEnd(m: Message)
    requires m.Assistant?
    ensures PiecesFrom(m, |m.content|) == []
  {
  }

  /** How many pieces there are before block `n`. */
  function PiecesBefore(m: Message, n: nat): nat
    requires m.Assistant? && n <= |m.content|
  {
    if n == 0 then 0 else PiecesBefore(m, n - 1) + |Forms(m.content[n - 1])|
  }

  lemma SliceOfSlice(s: seq<Message>, a: seq<Message>, b: seq<Message>, k: nat)
    requires k <= |s| && s[k..] == a + b
    ensures k + |a| <= |s| && s[k + |a|..] == b
    ensures forall j :: 0 <= j < |a| ==> s[k + j] == a[j]
  {
    assert forall j :: 0 <= j < |s[k..]| ==> s[k + j] == s[k..][j];
  }

  lemma {:induction false} PiecesRest(m: Message, n: nat)
    requires m.Assistant? && n <= |m.content|
    ensures PiecesBefore(m, n) <= |Pieces(m)| && Pieces(m)[PiecesBefore(m, n)..] == PiecesFrom(m, n)
    decreases n
  {
    hide Forms;
    if n > 0 {
      PiecesRest(m, n - 1);
      var now := Grown(m, m.content[..n - 1], Forms(m.content[n - 1]));
      PiecesNext(m, n - 1);
      SliceOfSlice(Pieces(m), now, PiecesFrom(m, n), PiecesBefore(m, n - 1));
    }
  }

  /** The pieces show the blocks one after the other, each through all its forms behind those before it, which are
      shown whole. */
  lemma PiecesAre(m: Message, n: nat)
    requires m.Assistant? && n < |m.content|
    ensures |Pieces(m)| == PiecesBefore(m, |m.content|)
    ensures forall j :: 0 <= j < |Forms(m.content[n])| ==>
      PiecesBefore(m, n) + j < |Pieces(m)| &&
      Pieces(m)[PiecesBefore(m, n) + j] == m.(content := m.content[..n] + [Forms(m.content[n])[j]])
  {
    hide Forms, PiecesBefore, PiecesFrom;
    PiecesRest(m, |m.content|);
    PiecesEnd(m);
    PiecesRest(m, n);
    PiecesNext(m, n);
    SliceOfSlice(Pieces(m), Grown(m, m.content[..n], Forms(m.content[n])), PiecesFrom(m, n + 1), PiecesBefore(m, n));
  }

  /** Text and thinking grow step by step; so does the body of a file that is written and the command of a shell, from
      nothing on; any other call is shown at once. */
  lemma FormsAre(c: Content)
    ensures !c.Call? ==>
      |Forms(c)| == |StreamText(c.text)| &&
      forall j :: 0 <= j < |Forms(c)| ==> Forms(c)[j] == c.(text := StreamText(c.text)[j])
    ensures c.Call? ==>
      var key := if c.name == "write" then "content" else "command";
      if (c.name == "write" || c.name == "bash") && c.args.Object? && key in c.args.fields &&
         c.args.fields[key].Str? && c.args.fields[key].text != ""
      then
        var steps := StreamText(c.args.fields[key].text);
        && |Forms(c)| == |steps| + 1
        && forall j :: 0 <= j <= |steps| ==>
             Forms(c)[j] == c.(args := Object(c.args.fields[key := Str(if j == 0 then "" else steps[j - 1])]))
      else Forms(c) == [c]
  {
    hide StreamText;
    if c.Call? {
      hide Forms;
      CallForms(c);
    }
  }

  lemma CallForms(c: Content)
    requires c.Call?
    ensures var streamed := StreamedArg(c.name, c.args);
      if streamed.None? then Forms(c) == [c]
      else
        var (key, text) := streamed.value;
        && |Forms(c)| == |StreamText(text)| + 1
        && forall j :: 0 <= j < |Forms(c)| ==>
             Forms(c)[j] == WithArg(c, key, if j == 0 then "" else StreamText(text)[j - 1])
  {
    hide StreamText, StreamedArg, WithArg;
  }

  /** The generator, with its array of revealed blocks. */
  method StreamAssistant(message: Message) returns (pieces: seq<Message>)
    requires message.Assistant?
    ensures pieces == Pieces(message)
  {
    hide Grown, Forms, PiecesFrom;
    PiecesEnd(message);
    pieces := [];
    var revealed: seq<Content> := [];
    var n := 0;
    while n < |message.content|
      invariant 0 <= n <= |message.content| && revealed == message.content[..n]
      invariant Pieces(message) == pieces + PiecesFrom(message, n)
    {
      var block := message.content[n];
      PiecesNext(message, n);
      var some := RevealBlock(message, revealed, block);
      assert pieces + (some + PiecesFrom(message, n + 1)) == (pieces + some) + PiecesFrom(message, n + 1);
      pieces := pieces + some;
      revealed := revealed + [block];
      n := n + 1;
    }
  }

  method RevealText(message: Message, shown: seq<Content>, block: Content) returns (pieces: seq<Message>)
    requires message.Assistant? && !block.Call?
    ensures pieces == Grown(message, shown, Forms(block))
  {
    hide StreamText, StreamedArg;
    pieces := [];
    var steps := StreamTextSteps(block.text);
    assert |Forms(block)| == |steps| && forall i :: 0 <= i < |steps| ==> Forms(block)[i] == WithText(block, steps[i]);
    if |steps| == 0 {
      return;
    }
    var revealed := shown + [block];
    for i := 0 to |steps|
      invariant |revealed| == |shown| + 1 && revealed[..|shown|] == shown
      invariant pieces == Grown(message, shown, Forms(block)[..i])
    {
      revealed := revealed[|shown| := WithText(block, steps[i])];
      assert revealed == shown + [Forms(block)[i]];
      pieces := pieces + [message.(content := revealed)];
    }
    assert Forms(block)[..|steps|] == Forms(block);
  }

  lemma FormsOfCall(block: Content, key: string, steps: seq<string>)
    requires block.Call? && StreamedArg(block.name, block.args).Some?
    requires StreamedArg(block.name, block.args).value.0 == key
    requires steps == [""] + StreamText(StreamedArg(block.name, block.args).value.1)
    ensures |Forms(block)| == |steps|
    ensures forall i :: 0 <= i < |steps| ==> Forms(block)[i] == WithArg(block, key, steps[i])
  {
    hide StreamText, StreamedArg, WithArg;
  }

  method RevealCall(message: Message, shown: seq<Content>, block: Content, key: string, text: string)
    returns (pieces: seq<Message>)
    requires message.Assistant? && block.Call? && StreamedArg(block.name, block.args) == Some((key, text))
    ensures pieces == Grown(message, shown, Forms(block))
  {
    hide StreamText, StreamedArg, Forms, WithArg;
    pieces := [];
    var revealed := shown + [block];
    var steps := StreamTextSteps(text);
    steps := [""] + steps;
    FormsOfCall(block, key, steps);
    for i := 0 to |steps|
      invariant |revealed| == |shown| + 1 && revealed[..|shown|] == shown
      invariant pieces == Grown(message, shown, Forms(block)[..i])
    {
      revealed := revealed[|shown| := WithArg(block, key, steps[i])];
      assert revealed == shown + [Forms(block)[i]];
      pieces := pieces + [message.(content := revealed)];
    }
    assert Forms(block)[..|steps|] == Forms(block);
  }

  method RevealBlock(message: Message, shown: seq<Content>, block: Content) returns (pieces: seq<Message>)
    requires message.Assistant?
    ensures pieces == Grown(message, shown, Forms(block))
  {
    hide StreamText, StreamedArg, WithArg;
    if !block.Call? {
      pieces := RevealText(message, shown, block);
      return;
    }
    var streamed := StreamedArg(block.name, block.args);
    if streamed.None? {
      return [message.(content := shown + [block])];
    }
    pieces := RevealCall(message, shown, block, streamed.value.0, streamed.value.1);
  }

  // ----- a piece is absorbed by the next -----

  function Calls(content: seq<Content>): (r: seq<Content>)
    ensures forall i :: 0 <= i < |r| ==> r[i].Call?
  {
    if content == [] then []
    else (if content[0].Call? then [content[0]] else []) + Calls(content[1..])
  }

  lemma {:induction false} CallsJoin(a: seq<Content>, b: seq<Content>)
    ensures Calls(a + b) == Calls(a) + Calls(b)
    decreases |a|
  {
    if a == [] {
      assert a + b == b;
    } else {
      assert (a + b)[0] == a[0] && (a + b)[1..] == a[1..] + b;
      CallsJoin(a[1..], b);
    }
  }

  lemma {:induction false} OnlyCallsMatter(s: State, content: seq<Content>)
    ensures OpenCalls(s, content) == OpenCalls(s, Calls(content))
    decreases |content|
  {
    if content != [] {
      OnlyCallsMatter(if content[0].Call? then OpenCall(s, content[0]) else s, content[1..]);
      if content[0].Call? {
        assert Calls(content)[1..] == Calls(content[1..]);
      } else {
        assert Calls(content) == Calls(content[1..]);
      }
    }
  }

  lemma {:induction false} OpenCallsJoin(s: State, a: seq<Content>, b: seq<Content>)
    ensures OpenCalls(s, a + b) == OpenCalls(OpenCalls(s, a), b)
    decreases |a|
  {
    if a == [] {
      assert a + b == b;
    } else {
      assert (a + b)[0] == a[0] && (a + b)[1..] == a[1..] + b;
      OpenCallsJoin(if a[0].Call? then OpenCall(s, a[0]) else s, a[1..], b);
    }
  }

  predicate SameCall(c: Content, d: Content) {
    c.Call? && d.Call? && c.id == d.id && c.name == d.name
  }

  /** The second form of a call overrides the first. */
  lemma SameCallAbsorbs(s: State, c: Content, d: Content)
    requires Valid(s) && SameCall(c, d)
    ensures OpenCall(OpenCall(s, c), d) == OpenCall(s, d)
  {
    hide ToolAt, AssistantAt;
    var once, twice := OpenCall(s, d), OpenCall(OpenCall(s, c), d);
    assert once.pendingTools == twice.pendingTools;
    assert once.blocks == twice.blocks;
  }

  lemma PendingDistinct(s: State, id: string, other: string)
    requires Valid(s) && id in s.pendingTools && other in s.pendingTools && id != other
    ensures s.pendingTools[id] != s.pendingTools[other]
  {
    var i :| 0 <= i < |s.blocks| && s.blocks[i].key == s.pendingTools[id] && s.blocks[i].ToolBlock?
             && s.blocks[i].toolCallId == id;
    var j :| 0 <= j < |s.blocks| && s.blocks[j].key == s.pendingTools[other] && s.blocks[j].ToolBlock?
             && s.blocks[j].toolCallId == other;
  }

  lemma PendingOld(s: State, id: string)
    requires Valid(s) && id in s.pendingTools
    ensures s.pendingTools[id] < s.nextKey
  {
    var i :| 0 <= i < |s.blocks| && s.blocks[i].key == s.pendingTools[id] && s.blocks[i].ToolBlock?
             && s.blocks[i].toolCallId == id;
  }

  /** Opening one call and refreshing another go either way round. */
  lemma CallsCommute(s: State, c: Content, d: Content)
    requires Valid(s) && c.Call? && d.Call? && c.id != d.id && d.id in s.pendingTools
    ensures OpenCall(OpenCall(s, c), d) == OpenCall(OpenCall(s, d), c)
  {
    PendingOld(s, d.id);
    if c.id in s.pendingTools { PendingDistinct(s, c.id, d.id); }
    hide Valid;
    var cd, dc := OpenCall(OpenCall(s, c), d), OpenCall(OpenCall(s, d), c);
    assert cd.blocks == dc.blocks;
  }

  predicate AllPending(s: State, calls: seq<Content>) {
    forall i :: 0 <= i < |calls| ==> calls[i].Call? && calls[i].id in s.pendingTools
  }

  lemma OpenCallPending(s: State, c: Content)
    requires c.Call?
    ensures OpenCall(s, c).pendingTools.Keys == s.pendingTools.Keys + {c.id}
  {
  }

  /** A call opened before calls that are all pending already is as good as one opened after them, once
      another form of it follows. */
  lemma {:induction false} OverriddenLater(s: State, c: Content, between: seq<Content>, d: Content)
    requires Valid(s) && SameCall(c, d) && AllPending(s, between)
    ensures OpenCall(OpenCalls(OpenCall(s, c), between), d) == OpenCall(OpenCalls(s, between), d)
    decreases |between|
  {
    hide Valid, OpenCall;
    if between == [] {
      SameCallAbsorbs(s, c, d);
    } else {
      var e := between[0];
      OpenCallKeeps(s, e);
      OpenCallPending(s, e);
      if e.id == c.id {
        PendingAbsorbs(s, c, e);
      } else {
        CallsCommute(s, c, e);
        OverriddenLater(OpenCall(s, e), c, between[1..], d);
      }
    }
  }

  lemma PendingAbsorbs(s: State, c: Content, e: Content)
    requires Valid(s) && c.Call? && e.Call? && c.id == e.id && e.id in s.pendingTools
    ensures OpenCall(OpenCall(s, c), e) == OpenCall(s, e)
  {
    hide Valid;
    assert OpenCall(OpenCall(s, c), e).blocks == OpenCall(s, e).blocks;
  }

  /** The calls of `b` begin with those of `a`, each perhaps in a later form. */
  predicate Continues(a: seq<Content>, b: seq<Content>) {
    |a| <= |b| && (forall i :: 0 <= i < |a| ==> SameCall(a[i], b[i])) && (forall i :: 0 <= i < |b| ==> b[i].Call?)
  }

  lemma {:induction false} AllOpen(s: State, calls: seq<Content>, later: seq<Content>)
    requires Continues(calls, later)
    ensures var t := OpenCalls(s, calls);
      s.pendingTools.Keys <= t.pendingTools.Keys && AllPending(t, later[..|calls|])
    decreases |calls|
  {
    hide OpenCall;
    if calls != [] {
      OpenCallPending(s, calls[0]);
      AllOpen(OpenCall(s, calls[0]), calls[1..], later[1..]);
      assert later[..|calls|] == [later[0]] + later[1..][..|calls| - 1];
    }
  }

  /** Opening calls and then a continuation of them is opening the continuation. */
  lemma {:induction false} OpenCallsAbsorb(s: State, a: seq<Content>, b: seq<Content>)
    requires Valid(s) && Continues(a, b)
    ensures OpenCalls(OpenCalls(s, a), b) == OpenCalls(s, b)
    decreases |a|
  {
    hide Valid, OpenCall;
    if a != [] {
      var n := |a| - 1;
      OpenCallsAbsorb(s, a[..n], b);
      var t := OpenCalls(s, a[..n]);
      OpenCallsKeep(s, a[..n]);
      OpenCallsJoin(s, a[..n], [a[n]]);
      assert a == a[..n] + [a[n]];
      assert OpenCalls(s, a) == OpenCall(t, a[n]) by { assert [a[n]][1..] == []; }
      AllOpen(s, a[..n], b);
      OverriddenLater(t, a[n], b[..n], b[n]);
      SplitAround(OpenCall(t, a[n]), b, n);
      SplitAround(t, b, n);
    }
  }

  lemma SplitAround(s: State, b: seq<Content>, n: nat)
    requires n < |b| && b[n].Call?
    ensures OpenCalls(s, b) == OpenCalls(OpenCall(OpenCalls(s, b[..n]), b[n]), b[n + 1..])
  {
    assert b == b[..n] + b[n..];
    OpenCallsJoin(s, b[..n], b[n..]);
    assert b[n..][1..] == b[n + 1..];
  }

  // ----- streaming leaves no trace -----

  function SetStreaming(s: State, key: nat, m: Message): State {
    s.(blocks := ReplaceMessage(s.blocks, key, m))
  }

  lemma OpenCallLeavesMessage(s: State, key: nat, m: Message, c: Content)
    requires c.Call?
    ensures OpenCall(SetStreaming(s, key, m), c) == SetStreaming(OpenCall(s, c), key, m)
  {
    assert OpenCall(SetStreaming(s, key, m), c).blocks == SetStreaming(OpenCall(s, c), key, m).blocks;
  }

  lemma {:induction false} OpenCallsLeaveMessage(s: State, key: nat, m: Message, content: seq<Content>)
    ensures OpenCalls(SetStreaming(s, key, m), content) == SetStreaming(OpenCalls(s, content), key, m)
    decreases |content|
  {
    hide OpenCall, SetStreaming;
    if content != [] {
      if content[0].Call? {
        OpenCallLeavesMessage(s, key, m, content[0]);
        OpenCallsLeaveMessage(OpenCall(s, content[0]), key, m, content[1..]);
      } else {
        OpenCallsLeaveMessage(s, key, m, content[1..]);
      }
    }
  }

  lemma SetStreamingTwice(s: State, key: nat, m: Message, n: Message)
    ensures SetStreaming(SetStreaming(s, key, m), key, n) == SetStreaming(s, key, n)
  {
    assert SetStreaming(SetStreaming(s, key, m), key, n).blocks == SetStreaming(s, key, n).blocks;
  }

  lemma UpdateIs(s: State, key: nat, m: Message)
    requires m.Assistant?
    ensures UpdateAssistant(s, key, m) == SetStreaming(OpenCalls(s, Calls(m.content)), key, m)
  {
    OnlyCallsMatter(SetStreaming(s, key, m), m.content);
    OpenCallsLeaveMessage(s, key, m, Calls(m.content));
  }

  /** An update whose calls begin a later update's leaves no trace after it. */
  lemma UpdateAbsorbed(s: State, key: nat, m: Message, n: Message)
    requires Valid(s) && m.Assistant? && n.Assistant? && Continues(Calls(m.content), Calls(n.content))
    ensures UpdateAssistant(UpdateAssistant(s, key, m), key, n) == UpdateAssistant(s, key, n)
  {
    hide Valid, Calls, OpenCalls, SetStreaming, UpdateAssistant, Continues;
    var a, b := Calls(m.content), Calls(n.content);
    UpdateIs(s, key, m);
    UpdateIs(UpdateAssistant(s, key, m), key, n);
    OpenCallsLeaveMessage(OpenCalls(s, a), key, m, b);
    OpenCallsAbsorb(s, a, b);
    SetStreamingTwice(OpenCalls(s, b), key, m, n);
    UpdateIs(s, key, n);
  }

  lemma FinalizeForgets(s: State, key: nat, m: Message, n: Message)
    requires m.Assistant?
    ensures FinalizeAssistant(SetStreaming(s, key, n), key, m) == FinalizeAssistant(s, key, m)
  {
    SetStreamingTwice(s, key, n, FinalMessage(m));
  }

  lemma FormOfCall(c: Content, f: Content)
    requires f in Forms(c)
    ensures Calls([c]) != [] ==> Calls([c]) == [c] && Calls([f]) == [f] && SameCall(f, c)
    ensures Calls([c]) == [] ==> Calls([f]) == []
  {
    var i :| 0 <= i < |Forms(c)| && Forms(c)[i] == f;
    assert f.Call? <==> c.Call?;
    assert [c][1..] == [] && [f][1..] == [];
  }

  lemma PieceContinues(m: Message, n: nat, f: Content)
    requires m.Assistant? && n < |m.content| && f in Forms(m.content[n])
    ensures Continues(Calls(m.content[..n] + [f]), Calls(m.content))
  {
    var c := m.content[n];
    FormOfCall(c, f);
    CallsJoin(m.content[..n], [f]);
    CallsJoin(m.content[..n], [c]);
    CallsJoin(m.content[..n] + [c], m.content[n + 1..]);
    assert m.content == m.content[..n] + [c] + m.content[n + 1..];
  }

  lemma {:induction false} PiecesContinue(m: Message, n: nat, i: nat)
    requires m.Assistant? && n <= |m.content| && i < |PiecesFrom(m, n)|
    ensures PiecesFrom(m, n)[i].Assistant? && Continues(Calls(PiecesFrom(m, n)[i].content), Calls(m.content))
    decreases |m.content| - n
  {
    hide Continues, Calls, Forms;
    var forms := Forms(m.content[n]);
    if i < |forms| {
      PieceContinues(m, n, forms[i]);
    } else {
      PiecesContinue(m, n + 1, i - |forms|);
    }
  }

  lemma LastForm(c: Content)
    ensures Forms(c) == [] ==> !c.Call?
    ensures c.Call? ==> Forms(c)[|Forms(c)| - 1] == c
  {
    if c.Call? {
      var streamed := StreamedArg(c.name, c.args);
      if streamed.Some? {
        StepsGrow(streamed.value.1, 0, 0);
        assert c.args.fields[streamed.value.0 := Str(streamed.value.1)] == c.args.fields;
      }
    }
  }

  lemma NoCalls()
    ensures Calls([]) == []
  {
  }

  lemma CallsSkip(content: seq<Content>, n: nat)
    requires n < |content| && !content[n].Call?
    ensures Calls(content[n..]) == Calls(content[n + 1..])
  {
    assert content[n..][1..] == content[n + 1..];
  }

  lemma LastPiece(m: Message, n: nat)
    requires m.Assistant? && n < |m.content| && Forms(m.content[n]) != [] && Calls(m.content[n + 1..]) == []
    ensures var forms := Forms(m.content[n]);
      Calls(m.content[..n] + [forms[|forms| - 1]]) == Calls(m.content)
  {
    hide Forms;
    var c, f := m.content[n], Forms(m.content[n])[|Forms(m.content[n])| - 1];
    LastForm(c);
    FormOfCall(c, f);
    assert m.content == m.content[..n] + ([c] + m.content[n + 1..]);
    CallsJoin(m.content[..n], [f]);
    CallsJoin(m.content[..n], [c] + m.content[n + 1..]);
    CallsJoin([c], m.content[n + 1..]);
    if !c.Call? { CallsSkip([c], 0); CallsSkip([f], 0); }
  }

  /** The last piece shows every call, complete; with no piece there is no call. */
  lemma {:induction false} PiecesComplete(m: Message, n: nat)
    requires m.Assistant? && n <= |m.content|
    ensures var pieces := PiecesFrom(m, n);
      if pieces == [] then Calls(m.content[n..]) == []
      else pieces[|pieces| - 1].Assistant? && Calls(pieces[|pieces| - 1].content) == Calls(m.content)
    decreases |m.content| - n
  {
    hide Forms, Calls;
    if n < |m.content| {
      PiecesComplete(m, n + 1);
      LastForm(m.content[n]);
      if Forms(m.content[n]) == [] {
        CallsSkip(m.content, n);
      } else if PiecesFrom(m, n + 1) == [] {
        LastPiece(m, n);
      }
    } else {
      assert m.content[n..] == [];
      NoCalls();
    }
  }

  function Updates(pieces: seq<Message>): seq<Frame> {
    seq(|pieces|, i requires 0 <= i < |pieces| => MessageUpdate(pieces[i]))
  }

  /** Applied one after the other, the pieces amount to no more than the whole. */
  lemma {:induction false} PiecesAbsorbed(s: State, m: Message, n: nat)
    requires Valid(s) && s.streamingKey.Some? && m.Assistant? && n <= |Pieces(m)|
    ensures var t := ApplyAll(s, Updates(Pieces(m)[..n]));
      && Valid(t) && t.streamingKey == s.streamingKey
      && UpdateAssistant(t, s.streamingKey.value, m) == UpdateAssistant(s, s.streamingKey.value, m)
      && (n > 0 ==> exists x :: Valid(x) && x.streamingKey == s.streamingKey && Pieces(m)[n - 1].Assistant?
                      && t == UpdateAssistant(x, s.streamingKey.value, Pieces(m)[n - 1])
                      && UpdateAssistant(x, s.streamingKey.value, m) == UpdateAssistant(s, s.streamingKey.value, m))
  {
    hide Valid, UpdateAssistant, Pieces, Continues, Calls;
    var key := s.streamingKey.value;
    if n == 0 {
      assert Updates(Pieces(m)[..0]) == [];
    } else {
      PiecesAbsorbed(s, m, n - 1);
      var piece := Pieces(m)[n - 1];
      assert piece.Assistant? && Continues(Calls(piece.content), Calls(m.content)) by { PieceOf(m, n - 1); }
      var before := Updates(Pieces(m)[..n - 1]);
      assert Updates(Pieces(m)[..n]) == before + [MessageUpdate(piece)];
      ApplyAllJoin(s, before, [MessageUpdate(piece)]);
      var x := ApplyAll(s, before);
      assert ApplyAll(x, [MessageUpdate(piece)]) == ApplyEvent(x, MessageUpdate(piece)) by {
        assert [MessageUpdate(piece)][1..] == [];
      }
      UpdateKeeps(x, key, piece);
      UpdateAbsorbed(x, key, piece, m);
    }
  }

  lemma PieceOf(m: Message, i: nat)
    requires m.Assistant? && i < |Pieces(m)|
    ensures Pieces(m)[i].Assistant? && Continues(Calls(Pieces(m)[i].content), Calls(m.content))
  {
    PiecesContinue(m, 0, i);
  }

  /** Streaming is transparent: ending a message after all its pieces gives the very state that ending it after
      one full update gives, whatever the transcript held before. */
  lemma StreamTransparent(s: State, m: Message)
    requires Valid(s) && s.streamingKey.Some? && m.Assistant?
    ensures ApplyAll(s, Updates(Pieces(m)) + [MessageEnd(m)]) ==
            ApplyAll(s, [MessageUpdate(m), MessageEnd(m)])
  {
    hide Valid, UpdateAssistant, Pieces, Calls, FinalizeAssistant;
    var key := s.streamingKey.value;
    var pieces := Pieces(m);
    var n := |pieces|;
    assert pieces[..n] == pieces;
    PiecesAbsorbed(s, m, n);
    UpdateKeeps(s, key, m);
    var t := ApplyAll(s, Updates(pieces));
    var whole := UpdateAssistant(s, key, m);
    EndAfterPieces(s, t, m);
    ApplyAllJoin(s, Updates(pieces), [MessageEnd(m)]);
    assert [MessageEnd(m)][1..] == [] && [MessageUpdate(m), MessageEnd(m)][1..] == [MessageEnd(m)];
    assert ApplyAll(t, [MessageEnd(m)]) == FinalizeAssistant(t, key, m);
    assert ApplyAll(s, [MessageUpdate(m), MessageEnd(m)]) == ApplyAll(whole, [MessageEnd(m)]);
  }

  lemma OpenNothing(s: State)
    ensures OpenCalls(s, []) == s
  {
  }

  lemma EndAfterPieces(s: State, t: State, m: Message)
    requires Valid(s) && s.streamingKey.Some? && m.Assistant? && t == ApplyAll(s, Updates(Pieces(m)))
    ensures var key := s.streamingKey.value;
      FinalizeAssistant(t, key, m) == FinalizeAssistant(UpdateAssistant(s, key, m), key, m)
  {
    hide Valid, UpdateAssistant, Calls, FinalizeAssistant, OpenCalls, SetStreaming, PiecesFrom;
    var key := s.streamingKey.value;
    var n := |Pieces(m)|;
    PiecesComplete(m, 0);
    assert m.content[0..] == m.content;
    if n == 0 {
      assert Updates(Pieces(m)) == [];
      UpdateIs(s, key, m);
      OpenNothing(s);
      FinalizeForgets(s, key, m, m);
    } else {
      assert Pieces(m)[..n] == Pieces(m);
      PiecesAbsorbed(s, m, n);
      var last := Pieces(m)[n - 1];
      var x :| Valid(x) && t == UpdateAssistant(x, key, last)
               && UpdateAssistant(x, key, m) == UpdateAssistant(s, key, m);
      UpdateIs(x, key, last);
      UpdateIs(x, key, m);
      FinalizeForgets(OpenCalls(x, Calls(m.content)), key, m, last);
      FinalizeForgets(OpenCalls(x, Calls(m.content)), key, m, m);
    }
  }
}
