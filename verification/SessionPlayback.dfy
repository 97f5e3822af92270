/** A whole session replayed, and where it may be cut in two. */
module SessionPlayback {
  import opened Options
  import opened Transcript
  import opened StreamReplay

  // ----- frames of a session -----

  predicate WordChar(c: char) {
    'a' <= c <= 'z' || 'A' <= c <= 'Z' || '0' <= c <= '9' || c == '_' || c == '-'
  }

  function WordRun(text: string): (n: nat)
    ensures n <= |text|
  {
    if text != "" && WordChar(text[0]) then 1 + WordRun(text[1..]) else 0
  }

  /** A bracketed tag and a space open a message that nobody typed. */
  predicate IsEventMessage(text: string) {
    && text != "" && text[0] == '['
    && var n := WordRun(text[1..]);
       n > 0 && |text| > n + 2 && text[n + 1] == ']' && text[n + 2] == ' '
  }

  function Typed(text: string): seq<Frame> {
    if IsEventMessage(text) then []
    else var steps := StreamText(text); seq(|steps|, i requires 0 <= i < |steps| => Input(steps[i]))
  }

  function UserFrames(m: Message): seq<Frame>
    requires m.User?
  {
    Typed(UserText(m.userContent)) + [AgentStart, Submit, MessageStart(m), MessageEnd(m)]
  }

  function AssistantFrames(m: Message): seq<Frame>
    requires m.Assistant?
  {
    [MessageStart(m.(content := []))] + (Updates(Pieces(m)) + [MessageEnd(m)])
  }

  function ResultFrames(m: Message, calls: map<string, Args>): seq<Frame>
    requires m.ToolResult?
  {
    [ToolStart(m.toolCallId, m.toolName, if m.toolCallId in calls then Some(calls[m.toolCallId]) else None),
     ToolEnd(m.toolCallId, m.result, m.isError)]
  }

  /** Where the generator stands: the arguments of the calls it has seen, and whether a run is open. */
  datatype Cursor = Cursor(calls: map<string, Args>, running: bool)

  const START := Cursor(map[], false)

  function NoteCalls(calls: map<string, Args>, content: seq<Content>): map<string, Args>
    decreases |content|
  {
    if content == [] then calls
    else NoteCalls(if content[0].Call? then calls[content[0].id := content[0].args] else calls, content[1..])
  }

  function Advance(c: Cursor, m: Message): Cursor {
    match m
    case User(_) => c.(running := true)
    case Assistant(content, _, _) => c.(calls := NoteCalls(c.calls, content))
    case _ => c
  }

  function MessageFrames(c: Cursor, m: Message): seq<Frame> {
    match m
    case User(_) => UserFrames(m)
    case Assistant(_, _, _) => AssistantFrames(m)
    case ToolResult(_, _, _, _) => ResultFrames(m, c.calls)
    case Other(_) => []
  }

  /** The run ends after an assistant message that a user message or the end of the session follows. */
  predicate RunEnds(c: Cursor, m: Message, rest: seq<Message>) {
    c.running && m.Assistant? && (rest == [] || rest[0].User?)
  }

  function EndFrames(ends: bool): seq<Frame> {
    if ends then [AgentEnd] else []
  }

  function Own(c: Cursor, m: Message, rest: seq<Message>): seq<Frame> {
    MessageFrames(c, m) + EndFrames(RunEnds(c, m, rest))
  }

  function Next(c: Cursor, m: Message, rest: seq<Message>): Cursor {
    if RunEnds(c, m, rest) then Advance(c, m).(running := false) else Advance(c, m)
  }

  function ReplayFrom(c: Cursor, messages: seq<Message>): seq<Frame>
    decreases |messages|
  {
    if messages == [] then EndFrames(c.running)
    else Own(c, messages[0], messages[1..]) + ReplayFrom(Next(c, messages[0], messages[1..]), messages[1..])
  }

  function Replay(messages: seq<Message>): seq<Frame> {
    ReplayFrom(START, messages)
  }

  function FoldState(messages: seq<Message>): State {
    ApplyAll(INITIAL, Replay(messages))
  }

  lemma ReplayStep(c: Cursor, messages: seq<Message>, i: nat, before: seq<Frame>)
    requires i < |messages|
    ensures var m, rest := messages[i], messages[i + 1..];
      before + ReplayFrom(c, messages[i..]) == before + Own(c, m, rest) + ReplayFrom(Next(c, m, rest), rest)
  {
    assert messages[i..][0] == messages[i] && messages[i..][1..] == messages[i + 1..];
  }

  /** The generator, with its mutable map and flag. */
  method ReplayFrames(messages: seq<Message>) returns (frames: seq<Frame>)
    ensures frames == Replay(messages)
  {
    hide MessageFrames, ReplayFrom;
    var toolCallsById: map<string, Args> := map[];
    var running := false;
    frames := [];
    var i := 0;
    assert messages[0..] == messages;
    while i < |messages|
      invariant 0 <= i <= |messages|
      invariant Replay(messages) == frames + ReplayFrom(Cursor(toolCallsById, running), messages[i..])
    {
      var message := messages[i];
      ghost var c := Cursor(toolCallsById, running);
      ReplayStep(c, messages, i, frames);
      OwnCallsUnread(c, message);
      match message {
        case User(_) =>
          running := true;
        case Assistant(content, _, _) =>
          toolCallsById := NoteCalls(toolCallsById, content);
        case _ =>
      }
      assert Cursor(toolCallsById, running) == Advance(c, message);
      var own := FramesOf(Cursor(toolCallsById, running), message);
      if running && message.Assistant? && (i + 1 == |messages| || messages[i + 1].User?) {
        own := own + [AgentEnd];
        running := false;
      }
      assert own == Own(c, message, messages[i + 1..]);
      frames := frames + own;
      i := i + 1;
    }
    assert messages[i..] == [];
    ReplayDone(Cursor(toolCallsById, running));
    if running {
      frames := frames + [AgentEnd];
    }
  }

  lemma ReplayDone(c: Cursor)
    ensures ReplayFrom(c, []) == EndFrames(c.running)
  {
  }

  lemma OwnCallsUnread(c: Cursor, m: Message)
    ensures MessageFrames(Advance(c, m), m) == MessageFrames(c, m)
  {
  }

  method FramesOf(c: Cursor, message: Message) returns (frames: seq<Frame>)
    ensures frames == MessageFrames(c, message)
  {
    hide Typed, Updates, Pieces, UserText;
    match message {
      case User(content) =>
        frames := TypeText(UserText(content));
        frames := frames + [AgentStart, Submit, MessageStart(message), MessageEnd(message)];
      case Assistant(_, _, _) =>
        var pieces := StreamAssistant(message);
        var updates := UpdateFrames(pieces);
        frames := [MessageStart(message.(content := []))] + (updates + [MessageEnd(message)]);
      case ToolResult(id, name, result, isError) =>
        frames := [ToolStart(id, name, if id in c.calls then Some(c.calls[id]) else None),
                   ToolEnd(id, result, isError)];
      case Other(_) =>
        frames := [];
    }
  }

  method TypeText(text: string) returns (frames: seq<Frame>)
    ensures frames == Typed(text)
  {
    hide StreamText, IsEventMessage;
    frames := [];
    if !IsEventMessage(text) {
      var steps := StreamTextSteps(text);
      for i := 0 to |steps|
        invariant frames == Typed(text)[..i]
      {
        frames := frames + [Input(steps[i])];
      }
      assert Typed(text)[..|steps|] == Typed(text);
    }
  }

  method UpdateFrames(pieces: seq<Message>) returns (frames: seq<Frame>)
    ensures frames == Updates(pieces)
  {
    frames := [];
    for i := 0 to |pieces|
      invariant frames == Updates(pieces)[..i]
    {
      frames := frames + [MessageUpdate(pieces[i])];
    }
    assert Updates(pieces)[..|pieces|] == Updates(pieces);
  }

  // ----- a whole session streams without a trace -----

  /** The frames of a message with one update in place of the pieces. */
  function PlainFrames(c: Cursor, m: Message): seq<Frame> {
    if m.Assistant? then [MessageStart(m.(content := []))] + [MessageUpdate(m), MessageEnd(m)] else MessageFrames(c, m)
  }

  function PlainReplayFrom(c: Cursor, messages: seq<Message>): seq<Frame>
    decreases |messages|
  {
    if messages == [] then EndFrames(c.running)
    else
      var m, rest := messages[0], messages[1..];
      PlainFrames(c, m) + EndFrames(RunEnds(c, m, rest)) + PlainReplayFrom(Next(c, m, rest), rest)
  }

  lemma MessageTransparent(s: State, c: Cursor, m: Message)
    requires Valid(s)
    ensures ApplyAll(s, MessageFrames(c, m)) == ApplyAll(s, PlainFrames(c, m))
    ensures Valid(ApplyAll(s, MessageFrames(c, m)))
  {
    hide Valid, ApplyAll;
    ApplyAllKeeps(s, MessageFrames(c, m));
    if m.Assistant? {
      var start := [MessageStart(m.(content := []))];
      var t := ApplyAll(s, start);
      ApplyAllKeeps(s, start);
      assert t.streamingKey.Some? by { StartStreams(s, m); }
      ApplyAllJoin(s, start, Updates(Pieces(m)) + [MessageEnd(m)]);
      ApplyAllJoin(s, start, [MessageUpdate(m), MessageEnd(m)]);
      StreamTransparent(t, m);
    }
  }

  lemma StartStreams(s: State, m: Message)
    requires m.Assistant?
    ensures ApplyAll(s, [MessageStart(m.(content := []))]).streamingKey == Some(s.nextKey)
  {
    assert [MessageStart(m.(content := []))][1..] == [];
  }

  /** Folding the streamed session gives the state of folding it with one full update per assistant message. */
  lemma {:induction false} SessionTransparent(s: State, c: Cursor, messages: seq<Message>)
    requires Valid(s)
    ensures ApplyAll(s, ReplayFrom(c, messages)) == ApplyAll(s, PlainReplayFrom(c, messages))
    decreases |messages|
  {
    hide Valid, ApplyAll, MessageFrames, PlainFrames, RunEnds;
    if messages != [] {
      var m, rest := messages[0], messages[1..];
      var end := EndFrames(RunEnds(c, m, rest));
      MessageTransparent(s, c, m);
      var t := ApplyAll(s, MessageFrames(c, m));
      ApplyAllKeeps(t, end);
      SessionTransparent(ApplyAll(t, end), Next(c, m, rest), rest);
      ThreeParts(s, MessageFrames(c, m), end, ReplayFrom(Next(c, m, rest), rest));
      ThreeParts(s, PlainFrames(c, m), end, PlainReplayFrom(Next(c, m, rest), rest));
    }
  }

  lemma ThreeParts(s: State, a: seq<Frame>, b: seq<Frame>, c: seq<Frame>)
    ensures ApplyAll(s, a + b + c) == ApplyAll(ApplyAll(ApplyAll(s, a), b), c)
  {
    ApplyAllJoin(s, a + b, c);
    ApplyAllJoin(s, a, b);
  }

  // ----- a settled tool block -----

  /** The tool block with this key can no longer be reached through a pending call. */
  predicate Settled(s: State, key: nat, args: Option<Args>) {
    && Valid(s) && key < s.nextKey && key !in s.pendingTools.Values && s.streamingKey != Some(key)
    && exists i :: 0 <= i < |s.blocks| && s.blocks[i].key == key && s.blocks[i].ToolBlock? && s.blocks[i].args == args
  }

  lemma SettledCall(s: State, key: nat, args: Option<Args>, c: Content)
    requires Settled(s, key, args) && c.Call?
    ensures Settled(OpenCall(s, c), key, args)
  {
    OpenCallKeeps(s, c);
    hide Valid;
    var t := OpenCall(s, c);
    var i :| 0 <= i < |s.blocks| && s.blocks[i].key == key && s.blocks[i].ToolBlock? && s.blocks[i].args == args;
    if c.id in s.pendingTools { assert s.pendingTools[c.id] in s.pendingTools.Values; }
    assert t.blocks[i] == s.blocks[i];
  }

  lemma {:induction false} SettledCalls(s: State, key: nat, args: Option<Args>, content: seq<Content>)
    requires Settled(s, key, args)
    ensures Settled(OpenCalls(s, content), key, args)
    decreases |content|
  {
    hide Settled, OpenCall;
    if content != [] {
      if content[0].Call? {
        SettledCall(s, key, args, content[0]);
        SettledCalls(OpenCall(s, content[0]), key, args, content[1..]);
      } else {
        SettledCalls(s, key, args, content[1..]);
      }
    }
  }

  lemma SettledMessage(s: State, key: nat, args: Option<Args>, streamingKey: nat, m: Message)
    requires Settled(s, key, args) && m.Assistant?
    ensures Settled(UpdateAssistant(s, streamingKey, m), key, args)
    ensures Settled(FinalizeAssistant(s, streamingKey, m), key, args)
  {
    SettledUpdate(s, key, args, streamingKey, m);
    SettledFinal(s, key, args, streamingKey, m);
  }

  lemma SettledUpdate(s: State, key: nat, args: Option<Args>, streamingKey: nat, m: Message)
    requires Settled(s, key, args) && m.Assistant?
    ensures Settled(UpdateAssistant(s, streamingKey, m), key, args)
  {
    var i :| 0 <= i < |s.blocks| && s.blocks[i].key == key && s.blocks[i].ToolBlock? && s.blocks[i].args == args;
    var t := s.(blocks := ReplaceMessage(s.blocks, streamingKey, m));
    ShapeKeeps(s, t.blocks);
    hide Valid, OpenCalls;
    assert t.blocks[i] == s.blocks[i];
    SettledCalls(t, key, args, m.content);
  }

  lemma SettledFinal(s: State, key: nat, args: Option<Args>, streamingKey: nat, m: Message)
    requires Settled(s, key, args) && m.Assistant?
    ensures Settled(FinalizeAssistant(s, streamingKey, m), key, args)
  {
    FinalizeKeeps(s, streamingKey, m);
    hide Valid;
    var i :| 0 <= i < |s.blocks| && s.blocks[i].key == key && s.blocks[i].ToolBlock? && s.blocks[i].args == args;
    assert FinalizeAssistant(s, streamingKey, m).blocks[i] == s.blocks[i];
  }

  /** No later frame changes the arguments such a block shows. */
  lemma SettledStays(s: State, key: nat, args: Option<Args>, e: Frame)
    requires Settled(s, key, args)
    ensures Settled(ApplyEvent(s, e), key, args)
  {
    ApplyKeeps(s, e);
    if e.MessageUpdate? || e.MessageEnd? {
      if s.streamingKey.Some? && e.message.Assistant? {
        SettledMessage(s, key, args, s.streamingKey.value, e.message);
      }
    } else {
      SettledByRest(s, key, args, e);
    }
  }

  lemma AgentEndDrops(s: State)
    requires Valid(s) && s.streamingKey.Some?
    ensures forall b :: b in WithoutKey(s.blocks, s.streamingKey.value) <==>
      b in s.blocks && b.key != s.streamingKey.value
  {
    WithoutKeyKeeps(s.blocks, s.streamingKey.value, s.nextKey);
  }

  lemma SettledByRest(s: State, key: nat, args: Option<Args>, e: Frame)
    requires Settled(s, key, args) && Valid(ApplyEvent(s, e)) && !e.MessageUpdate? && !e.MessageEnd?
    ensures Settled(ApplyEvent(s, e), key, args)
  {
    hide Valid, UpdateAssistant, FinalizeAssistant, WithoutKey;
    var t := ApplyEvent(s, e);
    var i :| 0 <= i < |s.blocks| && s.blocks[i].key == key && s.blocks[i].ToolBlock? && s.blocks[i].args == args;
    if e.AgentEnd? && s.streamingKey.Some? {
      AgentEndDrops(s);
      assert s.blocks[i] in t.blocks;
    } else {
      if (e.ToolStart? || e.ToolUpdate? || e.ToolEnd?) && e.toolCallId in s.pendingTools {
        assert s.pendingTools[e.toolCallId] in s.pendingTools.Values;
      }
      assert t.blocks[i].key == key && t.blocks[i].ToolBlock? && t.blocks[i].args == args;
    }
  }

  lemma {:induction false} SettledForGood(s: State, key: nat, args: Option<Args>, frames: seq<Frame>)
    requires Settled(s, key, args)
    ensures Settled(ApplyAll(s, frames), key, args)
    decreases |frames|
  {
    if frames != [] {
      SettledStays(s, key, args, frames[0]);
      SettledForGood(ApplyEvent(s, frames[0]), key, args, frames[1..]);
    }
  }

  // ----- picking up from there -----

  /** The frames of messages that more messages follow, and where they leave the generator. */
  function Body(c: Cursor, messages: seq<Message>): seq<Frame>
    decreases |messages|
  {
    if messages == [] then []
    else Own(c, messages[0], messages[1..]) + Body(Next(c, messages[0], messages[1..]), messages[1..])
  }

  function After(c: Cursor, messages: seq<Message>): Cursor
    decreases |messages|
  {
    if messages == [] then c else After(Next(c, messages[0], messages[1..]), messages[1..])
  }

  predicate UserFirst(messages: seq<Message>) {
    messages == [] || messages[0].User?
  }

  /** A message's frames do not depend on more than whether a user message or nothing follows. */
  lemma LooksNoFurther(c: Cursor, m: Message, rest: seq<Message>, b: seq<Message>)
    requires UserFirst(b)
    ensures Own(c, m, rest + b) == Own(c, m, rest) && Next(c, m, rest + b) == Next(c, m, rest)
  {
    hide MessageFrames, Advance, EndFrames;
    assert RunEnds(c, m, rest + b) == RunEnds(c, m, rest);
  }

  /** Before a user message a session may be cut: its frames fall into two. */
  lemma {:induction false} ReplayCut(c: Cursor, a: seq<Message>, b: seq<Message>)
    requires UserFirst(b)
    ensures ReplayFrom(c, a) == Body(c, a) + EndFrames(After(c, a).running)
    ensures ReplayFrom(c, a + b) == Body(c, a) + ReplayFrom(After(c, a), b)
    decreases |a|
  {
    hide Own, Next, EndFrames;
    if a == [] {
      assert a + b == b;
      assert [] + ReplayFrom(c, b) == ReplayFrom(c, b);
      assert [] + EndFrames(c.running) == EndFrames(c.running);
    } else {
      var m, rest := a[0], a[1..];
      assert (a + b)[0] == m && (a + b)[1..] == rest + b;
      LooksNoFurther(c, m, rest, b);
      ReplayCut(Next(c, m, rest), rest, b);
    }
  }

  lemma {:induction false} InputsOnly(s: State, frames: seq<Frame>)
    requires forall i :: 0 <= i < |frames| ==> frames[i].Input?
    ensures ApplyAll(s, frames) == s.(input := ApplyAll(s, frames).input)
    decreases |frames|
  {
    if frames != [] { InputsOnly(ApplyEvent(s, frames[0]), frames[1..]); }
  }

  lemma ApplyOne(s: State, e: Frame)
    ensures ApplyAll(s, [e]) == ApplyEvent(s, e)
  {
    assert [e][1..] == [];
  }

  lemma ApplyTwo(s: State, e: Frame, f: Frame)
    ensures ApplyAll(s, [e, f]) == ApplyEvent(ApplyEvent(s, e), f)
  {
    assert [e, f] == [e] + [f];
    ApplyAllJoin(s, [e], [f]);
    ApplyOne(s, e);
    ApplyOne(ApplyEvent(s, e), f);
  }

  /** The state a user message leaves: its block added, a run open, the composer empty, nothing pending. */
  lemma UserOpens(s: State, m: Message)
    requires m.User? && s.streamingKey.None?
    ensures ApplyAll(s, UserFrames(m)) ==
            State(s.blocks + [UserBlock(s.nextKey, UserText(m.userContent))], true, "", None, map[], s.nextKey + 1)
  {
    var typed := Typed(UserText(m.userContent));
    InputsOnly(s, typed);
    ApplyAllJoin(s, typed, [AgentStart, Submit, MessageStart(m), MessageEnd(m)]);
    var t := ApplyAll(s, typed);
    assert [AgentStart, Submit, MessageStart(m), MessageEnd(m)] ==
           [AgentStart, Submit] + [MessageStart(m), MessageEnd(m)];
    ApplyAllJoin(t, [AgentStart, Submit], [MessageStart(m), MessageEnd(m)]);
    ApplyTwo(t, AgentStart, Submit);
    ApplyTwo(ApplyAll(t, [AgentStart, Submit]), MessageStart(m), MessageEnd(m));
  }

  lemma AssistantCloses(s: State, m: Message)
    requires Valid(s) && m.Assistant?
    ensures ApplyAll(s, AssistantFrames(m)).streamingKey.None?
  {
    hide Valid, ApplyAll, Pieces, UpdateAssistant;
    var start := [MessageStart(m.(content := []))];
    var t := ApplyAll(s, start);
    ApplyAllKeeps(s, start);
    StartStreams(s, m);
    ApplyAllJoin(s, start, Updates(Pieces(m)) + [MessageEnd(m)]);
    ApplyAllJoin(t, Updates(Pieces(m)), [MessageEnd(m)]);
    assert Pieces(m)[..|Pieces(m)|] == Pieces(m);
    PiecesAbsorbed(t, m, |Pieces(m)|);
    ApplyOne(ApplyAll(t, Updates(Pieces(m))), MessageEnd(m));
  }

  /** Between messages nothing streams. */
  lemma MessageCloses(s: State, c: Cursor, m: Message)
    requires Valid(s) && s.streamingKey.None?
    ensures Valid(ApplyAll(s, MessageFrames(c, m))) && ApplyAll(s, MessageFrames(c, m)).streamingKey.None?
  {
    hide Valid, ApplyAll, UserFrames, AssistantFrames, UpdateAssistant, FinalizeAssistant;
    ApplyAllKeeps(s, MessageFrames(c, m));
    match m {
      case User(_) => UserOpens(s, m);
      case Assistant(_, _, _) => AssistantCloses(s, m);
      case ToolResult(_, _, _, _) => ApplyTwo(s, ResultFrames(m, c.calls)[0], ResultFrames(m, c.calls)[1]);
      case Other(_) => ApplyNone(s);
    }
  }

  lemma EndCloses(s: State, ends: bool)
    requires Valid(s) && s.streamingKey.None?
    ensures ApplyAll(s, EndFrames(ends)) == (if ends then s.(busy := false, pendingTools := map[]) else s)
  {
    if ends { ApplyOne(s, AgentEnd); }
  }

  lemma {:induction false} BodyCloses(s: State, c: Cursor, messages: seq<Message>)
    requires Valid(s) && s.streamingKey.None?
    ensures Valid(ApplyAll(s, Body(c, messages))) && ApplyAll(s, Body(c, messages)).streamingKey.None?
    decreases |messages|
  {
    hide Valid, MessageFrames, Next, RunEnds;
    if messages != [] {
      var m, rest := messages[0], messages[1..];
      var end := EndFrames(RunEnds(c, m, rest));
      MessageCloses(s, c, m);
      var t := ApplyAll(s, MessageFrames(c, m));
      EndCloses(t, RunEnds(c, m, rest));
      ApplyAllKeeps(t, end);
      BodyCloses(ApplyAll(t, end), Next(c, m, rest), rest);
      ThreeParts(s, MessageFrames(c, m), end, Body(Next(c, m, rest), rest));
    }
  }

  // ----- what a later tool result can look up -----

  function Lookup(calls: map<string, Args>, id: string): Option<Args> {
    if id in calls then Some(calls[id]) else None
  }

  /** Some tool result finds different arguments with the one map than with the other. */
  predicate LooksDiffer(a: map<string, Args>, b: map<string, Args>, messages: seq<Message>)
    decreases |messages|
  {
    && messages != []
    && var m := messages[0];
       || (m.ToolResult? && Lookup(a, m.toolCallId) != Lookup(b, m.toolCallId))
       || LooksDiffer(Advance(Cursor(a, false), m).calls, Advance(Cursor(b, false), m).calls, messages[1..])
  }

  predicate AgreeOnPending(s: State, a: map<string, Args>, b: map<string, Args>) {
    forall id :: id in s.pendingTools ==> Lookup(a, id) == Lookup(b, id)
  }

  lemma {:induction false} NoteCallsAgree(a: map<string, Args>, b: map<string, Args>, content: seq<Content>, id: string)
    requires Lookup(a, id) == Lookup(b, id) ||
             (exists i :: 0 <= i < |content| && content[i].Call? && content[i].id == id)
    ensures Lookup(NoteCalls(a, content), id) == Lookup(NoteCalls(b, content), id)
    decreases |content|
  {
    if content != [] {
      var c := content[0];
      var a', b' := if c.Call? then a[c.id := c.args] else a, if c.Call? then b[c.id := c.args] else b;
      if !(Lookup(a', id) == Lookup(b', id)) {
        var i :| 0 <= i < |content| && content[i].Call? && content[i].id == id;
        assert content[1..][i - 1] == content[i];
      }
      NoteCallsAgree(a', b', content[1..], id);
    }
  }

  /** Only calls of the message become pending with it. */
  lemma {:induction false} OpenCallsPending(s: State, content: seq<Content>, id: string)
    requires id in OpenCalls(s, content).pendingTools
    ensures id in s.pendingTools || exists i :: 0 <= i < |content| && content[i].Call? && content[i].id == id
    decreases |content|
  {
    if content != [] {
      var t := if content[0].Call? then OpenCall(s, content[0]) else s;
      OpenCallsPending(t, content[1..], id);
      if id !in t.pendingTools {
        var i :| 0 <= i < |content[1..]| && content[1..][i].Call? && content[1..][i].id == id;
        assert content[i + 1] == content[1..][i];
      }
    }
  }

  lemma AssistantPending(s: State, c: Cursor, m: Message, id: string)
    requires Valid(s) && m.Assistant? && id in ApplyAll(s, MessageFrames(c, m)).pendingTools
    ensures id in s.pendingTools || exists i :: 0 <= i < |m.content| && m.content[i].Call? && m.content[i].id == id
  {
    MessageTransparent(s, c, m);
    hide Valid, OpenCalls;
    var start := MessageStart(m.(content := []));
    ApplyAllJoin(s, [start], [MessageUpdate(m), MessageEnd(m)]);
    ApplyOne(s, start);
    var t := ApplyEvent(s, start);
    ApplyTwo(t, MessageUpdate(m), MessageEnd(m));
    OpenCallsPending(t.(blocks := ReplaceMessage(t.blocks, s.nextKey, m)), m.content, id);
  }

  lemma PendingStaysAgreed(s: State, c: Cursor, d: Cursor, m: Message)
    requires Valid(s) && s.streamingKey.None? && AgreeOnPending(s, c.calls, d.calls)
    ensures AgreeOnPending(ApplyAll(s, MessageFrames(c, m)), Advance(c, m).calls, Advance(d, m).calls)
  {
    hide Valid, Lookup, UserFrames, AssistantFrames, ApplyAll, Pieces;
    var t := ApplyAll(s, MessageFrames(c, m));
    match m {
      case User(_) => UserOpens(s, m);
      case Assistant(content, _, _) =>
        forall id | id in t.pendingTools
          ensures Lookup(Advance(c, m).calls, id) == Lookup(Advance(d, m).calls, id)
        {
          AssistantPending(s, c, m, id);
          NoteCallsAgree(c.calls, d.calls, content, id);
        }
      case ToolResult(_, _, _, _) =>
        ApplyTwo(s, ResultFrames(m, c.calls)[0], ResultFrames(m, c.calls)[1]);
      case Other(_) => ApplyNone(s);
    }
  }

  /** A tool result with no pending call shows what was looked up, for good. */
  lemma ResultSettles(s: State, m: Message, args: Option<Args>)
    requires Valid(s) && s.streamingKey.None? && m.ToolResult? && m.toolCallId !in s.pendingTools
    ensures Settled(ApplyAll(s, [ToolStart(m.toolCallId, m.toolName, args),
                                 ToolEnd(m.toolCallId, m.result, m.isError)]),
                    s.nextKey, args)
  {
    var start, end := ToolStart(m.toolCallId, m.toolName, args), ToolEnd(m.toolCallId, m.result, m.isError);
    ApplyTwo(s, start, end);
    ApplyKeeps(s, start);
    var t := ApplyEvent(s, start);
    ApplyKeeps(t, end);
    var u := ApplyEvent(t, end);
    assert t.blocks[|s.blocks|].key == s.nextKey;
    assert u.blocks[|s.blocks|].key == s.nextKey && u.blocks[|s.blocks|].args == args;
    forall id | id in u.pendingTools ensures u.pendingTools[id] != s.nextKey {
      PendingOld(s, id);
    }
  }

  lemma SettledOnce(s: State, key: nat, args: Option<Args>, other: Option<Args>)
    requires Settled(s, key, args) && Settled(s, key, other)
    ensures args == other
  {
  }

  /** Two replays of the same messages, with different calls seen before, end alike exactly when no tool result
      looks up something different. */
  lemma {:induction false} FoldsAgree(s: State, c: Cursor, d: Cursor, messages: seq<Message>)
    requires Valid(s) && s.streamingKey.None? && c.running == d.running && AgreeOnPending(s, c.calls, d.calls)
    ensures ApplyAll(s, ReplayFrom(c, messages)) == ApplyAll(s, ReplayFrom(d, messages)) <==>
            !LooksDiffer(c.calls, d.calls, messages)
    decreases |messages|
  {
    hide Valid, MessageFrames, AgreeOnPending, RunEnds, Settled, Lookup, LooksDiffer, ApplyAll;
    LooksDifferStep(c, d, messages);
    if messages != [] {
      var m, rest := messages[0], messages[1..];
      var ends := RunEnds(c, m, rest);
      assert RunEnds(d, m, rest) == ends by { RunEndsSame(c, d, m, rest); }
      var end := EndFrames(ends);
      var c', d' := Next(c, m, rest), Next(d, m, rest);
      ThreeParts(s, MessageFrames(c, m), end, ReplayFrom(c', rest));
      ThreeParts(s, MessageFrames(d, m), end, ReplayFrom(d', rest));
      if m.ToolResult? && Lookup(c.calls, m.toolCallId) != Lookup(d.calls, m.toolCallId) {
        LookupDiffers(s, c, d, m);
        var t, u := ApplyAll(s, MessageFrames(c, m)), ApplyAll(s, MessageFrames(d, m));
        DifferForGood(t, end, ReplayFrom(c', rest), u, ReplayFrom(d', rest), s.nextKey,
                      Lookup(c.calls, m.toolCallId), Lookup(d.calls, m.toolCallId));
      } else {
        SameFrames(c, d, m);
        PendingStaysAgreed(s, c, d, m);
        MessageCloses(s, c, m);
        var t := ApplyAll(s, MessageFrames(c, m));
        EndCloses(t, ends);
        ApplyAllKeeps(t, end);
        EndAgrees(t, ends, c'.calls, d'.calls);
        FoldsAgree(ApplyAll(t, end), c', d', rest);
      }
    }
  }

  lemma LooksDifferStep(c: Cursor, d: Cursor, messages: seq<Message>)
    ensures messages == [] ==> !LooksDiffer(c.calls, d.calls, messages)
    ensures messages != [] ==>
      (LooksDiffer(c.calls, d.calls, messages) <==>
         || (messages[0].ToolResult? &&
             Lookup(c.calls, messages[0].toolCallId) != Lookup(d.calls, messages[0].toolCallId))
         || LooksDiffer(Advance(c, messages[0]).calls, Advance(d, messages[0]).calls, messages[1..]))
  {
    if messages != [] {
      assert Advance(Cursor(c.calls, false), messages[0]).calls == Advance(c, messages[0]).calls;
      assert Advance(Cursor(d.calls, false), messages[0]).calls == Advance(d, messages[0]).calls;
    }
  }

  lemma RunEndsSame(c: Cursor, d: Cursor, m: Message, rest: seq<Message>)
    requires c.running == d.running
    ensures RunEnds(c, m, rest) == RunEnds(d, m, rest) && Next(c, m, rest).running == Next(d, m, rest).running
    ensures Next(c, m, rest).calls == Advance(c, m).calls
  {
  }

  lemma SameFrames(c: Cursor, d: Cursor, m: Message)
    requires m.ToolResult? ==> Lookup(c.calls, m.toolCallId) == Lookup(d.calls, m.toolCallId)
    ensures MessageFrames(c, m) == MessageFrames(d, m)
  {
  }

  lemma LookupDiffers(s: State, c: Cursor, d: Cursor, m: Message)
    requires Valid(s) && s.streamingKey.None? && AgreeOnPending(s, c.calls, d.calls) && m.ToolResult?
    requires Lookup(c.calls, m.toolCallId) != Lookup(d.calls, m.toolCallId)
    ensures Settled(ApplyAll(s, MessageFrames(c, m)), s.nextKey, Lookup(c.calls, m.toolCallId))
    ensures Settled(ApplyAll(s, MessageFrames(d, m)), s.nextKey, Lookup(d.calls, m.toolCallId))
  {
    hide Valid, Settled, ApplyAll;
    ResultSettles(s, m, Lookup(c.calls, m.toolCallId));
    ResultSettles(s, m, Lookup(d.calls, m.toolCallId));
  }

  lemma DifferForGood(t: State, end: seq<Frame>, more: seq<Frame>, u: State, others: seq<Frame>, key: nat,
                      args: Option<Args>, other: Option<Args>)
    requires Settled(t, key, args) && Settled(u, key, other) && args != other
    ensures ApplyAll(ApplyAll(t, end), more) != ApplyAll(ApplyAll(u, end), others)
  {
    hide Settled, ApplyAll;
    SettledForGood(t, key, args, end);
    SettledForGood(ApplyAll(t, end), key, args, more);
    SettledForGood(u, key, other, end);
    SettledForGood(ApplyAll(u, end), key, other, others);
    if ApplyAll(ApplyAll(t, end), more) == ApplyAll(ApplyAll(u, end), others) {
      SettledOnce(ApplyAll(ApplyAll(t, end), more), key, args, other);
    }
  }

  lemma EndAgrees(t: State, ends: bool, a: map<string, Args>, b: map<string, Args>)
    requires Valid(t) && t.streamingKey.None? && AgreeOnPending(t, a, b)
    ensures AgreeOnPending(ApplyAll(t, EndFrames(ends)), a, b)
  {
    EndCloses(t, ends);
  }

  // ----- the condition a caller can read off the messages -----

  function ContentIds(content: seq<Content>): set<string> {
    if content == [] then {}
    else (if content[0].Call? then {content[0].id} else {}) + ContentIds(content[1..])
  }

  /** The ids of all tool calls made in some messages. */
  function CallIds(messages: seq<Message>): set<string> {
    if messages == [] then {}
    else (if messages[0].Assistant? then ContentIds(messages[0].content) else {}) + CallIds(messages[1..])
  }

  /** Message `j` is a result for a call among `before` and not among `since` or the messages ahead of it. */
  predicate StaleAt(before: set<string>, since: set<string>, messages: seq<Message>, j: nat) {
    && j < |messages| && messages[j].ToolResult?
    && messages[j].toolCallId in before && messages[j].toolCallId !in since + CallIds(messages[..j])
  }

  /** Some tool result of `later` answers a call made only before it. */
  ghost predicate AnswersEarlierCall(earlier: seq<Message>, later: seq<Message>) {
    exists j: nat :: StaleAt(CallIds(earlier), {}, later, j)
  }

  lemma {:induction false} NoteCallsKeys(calls: map<string, Args>, content: seq<Content>)
    ensures NoteCalls(calls, content).Keys == calls.Keys + ContentIds(content)
    decreases |content|
  {
    if content != [] {
      NoteCallsKeys(if content[0].Call? then calls[content[0].id := content[0].args] else calls, content[1..]);
    }
  }

  lemma {:induction false} AfterCalls(c: Cursor, messages: seq<Message>)
    ensures After(c, messages).calls.Keys == c.calls.Keys + CallIds(messages)
    decreases |messages|
  {
    if messages != [] {
      var m, rest := messages[0], messages[1..];
      if m.Assistant? { NoteCallsKeys(c.calls, m.content); }
      AfterCalls(Next(c, m, rest), rest);
    }
  }

  lemma {:induction false} NoteCallsInclude(a: map<string, Args>, b: map<string, Args>, content: seq<Content>)
    requires forall id :: id in b ==> id in a && a[id] == b[id]
    ensures forall id :: id in NoteCalls(b, content) ==>
      id in NoteCalls(a, content) && NoteCalls(a, content)[id] == NoteCalls(b, content)[id]
    decreases |content|
  {
    if content != [] {
      var c := content[0];
      NoteCallsInclude(if c.Call? then a[c.id := c.args] else a, if c.Call? then b[c.id := c.args] else b,
                       content[1..]);
    }
  }

  lemma StaleShift(before: set<string>, since: set<string>, messages: seq<Message>, j: nat)
    requires messages != []
    ensures var ids := CallIds(messages[..1]);
      StaleAt(before + ids, since + ids, messages[1..], j) <==> StaleAt(before, since, messages, j + 1)
  {
    if j + 1 < |messages| {
      var upTo := messages[..j + 1];
      assert upTo[1..] == messages[1..][..j] && messages[..1][1..] == [];
      assert CallIds(upTo) == CallIds(messages[..1]) + CallIds(messages[1..][..j]);
    }
  }

  /** Reading one map rather than a smaller one that agrees with it shows up exactly at a stale answer. */
  lemma {:induction false} LooksDifferExactly(a: map<string, Args>, b: map<string, Args>, messages: seq<Message>)
    requires forall id :: id in b ==> id in a && a[id] == b[id]
    ensures LooksDiffer(a, b, messages) <==> exists j: nat :: StaleAt(a.Keys, b.Keys, messages, j)
    decreases |messages|
  {
    hide StaleAt;
    if messages == [] {
      forall j: nat ensures !StaleAt(a.Keys, b.Keys, messages, j) { NotStale(a.Keys, b.Keys, messages, j); }
    } else {
      var m, rest := messages[0], messages[1..];
      var a', b' := Advance(Cursor(a, false), m).calls, Advance(Cursor(b, false), m).calls;
      AdvanceCalls(a, b, m);
      assert CallIds([m]) == CallIds(messages[..1]) by { assert messages[..1] == [m]; }
      LooksDifferExactly(a', b', rest);
      StaleFirst(a, b, messages);
      if LooksDiffer(a', b', rest) {
        var j: nat :| StaleAt(a'.Keys, b'.Keys, rest, j);
        StaleShift(a.Keys, b.Keys, messages, j);
        assert StaleAt(a.Keys, b.Keys, messages, j + 1);
      }
      if j: nat :| StaleAt(a.Keys, b.Keys, messages, j) && j > 0 {
        StaleShift(a.Keys, b.Keys, messages, j - 1);
        assert StaleAt(a'.Keys, b'.Keys, rest, j - 1);
      }
    }
  }

  lemma NotStale(before: set<string>, since: set<string>, messages: seq<Message>, j: nat)
    requires j >= |messages|
    ensures !StaleAt(before, since, messages, j)
  {
  }

  lemma AdvanceCalls(a: map<string, Args>, b: map<string, Args>, m: Message)
    requires forall id :: id in b ==> id in a && a[id] == b[id]
    ensures var a', b' := Advance(Cursor(a, false), m).calls, Advance(Cursor(b, false), m).calls;
      && a'.Keys == a.Keys + CallIds([m]) && b'.Keys == b.Keys + CallIds([m])
      && forall id :: id in b' ==> id in a' && a'[id] == b'[id]
  {
    assert [m][1..] == [];
    if m.Assistant? {
      NoteCallsKeys(a, m.content);
      NoteCallsKeys(b, m.content);
      NoteCallsInclude(a, b, m.content);
    }
  }

  lemma StaleFirst(a: map<string, Args>, b: map<string, Args>, messages: seq<Message>)
    requires messages != [] && forall id :: id in b ==> id in a && a[id] == b[id]
    ensures StaleAt(a.Keys, b.Keys, messages, 0) <==>
            messages[0].ToolResult? && Lookup(a, messages[0].toolCallId) != Lookup(b, messages[0].toolCallId)
  {
    assert messages[..0] == [];
  }

  /** Folding the first part of a session and then the rest, from a user message on, gives the state of folding
      the whole if and only if no tool result of the rest answers a call made only in the first part. */
  lemma ContinuationExact(messages: seq<Message>, k: nat)
    requires k <= |messages| && UserFirst(messages[k..])
    ensures ApplyAll(FoldState(messages[..k]), Replay(messages[k..])) == FoldState(messages) <==>
            !AnswersEarlierCall(messages[..k], messages[k..])
  {
    hide Valid, ApplyAll, Body, After, UserFrames, StaleAt, LooksDiffer, CallIds;
    var a, b := messages[..k], messages[k..];
    assert messages == a + b;
    ReplayCut(START, a, b);
    var c := After(START, a);
    InitialValid();
    BodyCloses(INITIAL, START, a);
    ApplyAllKeeps(INITIAL, Replay(a));
    var s := ApplyAll(INITIAL, Body(START, a));
    ApplyAllJoin(INITIAL, Body(START, a), ReplayFrom(c, b));
    ApplyAllJoin(INITIAL, Body(START, a), EndFrames(c.running));
    EndCloses(s, c.running);
    var e := FoldState(a);
    AfterCalls(START, a);
    LooksDifferExactly(c.calls, START.calls, b);
    assert LooksDiffer(c.calls, START.calls, b) <==> AnswersEarlierCall(a, b) by {
      assert c.calls.Keys == CallIds(a) && START.calls.Keys == {};
    }
    if b == [] {
      LooksDifferStep(c, START, b);
      ApplyNone(e);
    } else {
      AfterUser(s, e, c, b);
    }
  }

  lemma InitialValid()
    ensures Valid(INITIAL)
  {
  }

  lemma ApplyNone(s: State)
    ensures ApplyAll(s, []) == s
  {
  }

  /** A user message wipes out what tells a running replay from a finished one. */
  lemma AfterUser(s: State, e: State, c: Cursor, b: seq<Message>)
    requires Valid(s) && Valid(e) && s.streamingKey.None? && e.streamingKey.None?
    requires e.blocks == s.blocks && e.nextKey == s.nextKey && b != [] && b[0].User?
    ensures ApplyAll(s, ReplayFrom(c, b)) == ApplyAll(e, ReplayFrom(START, b)) <==>
            !LooksDiffer(c.calls, START.calls, b)
  {
    hide Valid, ApplyAll, UserFrames, LooksDiffer;
    var u, rest := b[0], b[1..];
    UserOpens(s, u);
    UserOpens(e, u);
    var t := ApplyAll(s, UserFrames(u));
    MessageCloses(s, c, u);
    var c', d' := Next(c, u, rest), Next(START, u, rest);
    assert ReplayFrom(c, b) == UserFrames(u) + [] + ReplayFrom(c', rest);
    assert ReplayFrom(START, b) == UserFrames(u) + [] + ReplayFrom(d', rest);
    ThreeParts(s, UserFrames(u), [], ReplayFrom(c', rest));
    ThreeParts(e, UserFrames(u), [], ReplayFrom(d', rest));
    ApplyNone(t);
    FoldsAgree(t, c', d', rest);
    LooksDifferStep(c, START, b);
  }

  /** A session cut where it should not be: the second part answers a call of the first, and shows no arguments. */
  lemma EarlierCallShows()
    ensures var call := Assistant([Call("x", "read", NotObject)], ToolUse, "");
      var messages := [User(Plain("a")), call, User(Plain("b")), ToolResult("x", "read", "", false)];
      ApplyAll(FoldState(messages[..2]), Replay(messages[2..])) != FoldState(messages)
  {
    hide ApplyAll, Replay;
    var call := Assistant([Call("x", "read", NotObject)], ToolUse, "");
    var messages := [User(Plain("a")), call, User(Plain("b")), ToolResult("x", "read", "", false)];
    var a, b := messages[..2], messages[2..];
    assert a[1..] == [call] && a[1..][1..] == [] && call.content[1..] == [];
    assert ContentIds(call.content) == {"x"} + ContentIds([]) == {"x"};
    assert CallIds([call]) == {"x"} + CallIds([]) == {"x"};
    assert CallIds(a) == CallIds(a[1..]);
    var user := User(Plain("b"));
    assert b[..1] == [user] && [user][1..] == [];
    assert CallIds(b[..1]) == {} + CallIds([]) == {};
    assert StaleAt(CallIds(a), {}, b, 1);
    ContinuationExact(messages, 2);
  }
}
