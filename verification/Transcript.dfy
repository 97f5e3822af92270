/** The transcript of the demo rail: its blocks, and the reducer that builds them from frames. */
module Transcript {
  import opened Options

  // ----- messages -----

  datatype ArgValue = Str(text: string) | NotStr(id: nat)

  datatype Args = Object(fields: map<string, ArgValue>) | NotObject

  datatype Content =
    | Text(text: string)
    | Thinking(text: string)
    | Call(id: string, name: string, args: Args)

  datatype StopReason = Stop | Length | ToolUse | Failed | Aborted

  datatype Part = TextPart(text: string) | ImagePart

  datatype UserContent = Plain(text: string) | Parts(parts: seq<Part>)

  datatype Message =
    | User(userContent: UserContent)
    | Assistant(content: seq<Content>, stop: StopReason, errorMessage: string)
    | ToolResult(toolCallId: string, toolName: string, result: string, isError: bool)
    | Other(role: string)

  function PartsText(parts: seq<Part>): string {
    if parts == [] then ""
    else (if parts[0].TextPart? then parts[0].text else "") + PartsText(parts[1..])
  }

  function UserText(c: UserContent): string {
    match c
    case Plain(text) => text
    case Parts(parts) => PartsText(parts)
  }

  // ----- blocks and frames -----

  datatype Outcome = Outcome(text: string, isError: bool)

  /** Keys are numbers: the key written `b7` is 7. */
  datatype Block =
    | UserBlock(key: nat, text: string)
    | AssistantBlock(key: nat, message: Message)
    | ToolBlock(key: nat, toolCallId: string, name: string, args: Option<Args>, result: Option<Outcome>,
                isPartial: bool, executionStarted: bool, argsComplete: bool)

  datatype Frame =
    | Input(text: string)
    | Submit
    | AgentStart
    | AgentEnd
    | MessageStart(message: Message)
    | MessageUpdate(message: Message)
    | MessageEnd(message: Message)
    | ToolStart(toolCallId: string, toolName: string, args: Option<Args>)
    | ToolUpdate(toolCallId: string, partial: string)
    | ToolEnd(toolCallId: string, result: string, isError: bool)

  datatype State = State(blocks: seq<Block>, busy: bool, input: string, streamingKey: Option<nat>,
                         pendingTools: map<string, nat>, nextKey: nat)

  const INITIAL := State([], false, "", None, map[], 0)

  // ----- the reducer -----

  function SetMessage(b: Block, m: Message): Block {
    if b.AssistantBlock? then b.(message := m) else b
  }

  function SetArgs(b: Block, args: Args): Block {
    if b.ToolBlock? then b.(args := Some(args)) else b
  }

  function SetResult(b: Block, outcome: Outcome, isPartial: bool): Block {
    if b.ToolBlock? then b.(result := Some(outcome), isPartial := isPartial) else b
  }

  function ReplaceMessage(blocks: seq<Block>, key: nat, m: Message): (r: seq<Block>)
    ensures |r| == |blocks|
  {
    seq(|blocks|, i requires 0 <= i < |blocks| => if blocks[i].key == key then SetMessage(blocks[i], m) else blocks[i])
  }

  function ReplaceArgs(blocks: seq<Block>, key: nat, args: Args): (r: seq<Block>)
    ensures |r| == |blocks|
  {
    seq(|blocks|, i requires 0 <= i < |blocks| => if blocks[i].key == key then SetArgs(blocks[i], args) else blocks[i])
  }

  function ReplaceResult(blocks: seq<Block>, key: nat, outcome: Outcome, isPartial: bool): (r: seq<Block>)
    ensures |r| == |blocks|
  {
    seq(|blocks|, i requires 0 <= i < |blocks| =>
      if blocks[i].key == key then SetResult(blocks[i], outcome, isPartial) else blocks[i])
  }

  function ReplaceStarted(blocks: seq<Block>, key: nat): (r: seq<Block>)
    ensures |r| == |blocks|
  {
    seq(|blocks|, i requires 0 <= i < |blocks| =>
      if blocks[i].key == key && blocks[i].ToolBlock? then blocks[i].(executionStarted := true) else blocks[i])
  }

  /** Open a tool block for a call, or refresh the arguments of the one that is open. */
  function OpenCall(s: State, c: Content): State
    requires c.Call?
  {
    if c.id in s.pendingTools then
      s.(blocks := ReplaceArgs(s.blocks, s.pendingTools[c.id], c.args))
    else
      s.(blocks := s.blocks + [ToolBlock(s.nextKey, c.id, c.name, Some(c.args), None, true, false, false)],
         pendingTools := s.pendingTools[c.id := s.nextKey],
         nextKey := s.nextKey + 1)
  }

  function OpenCalls(s: State, content: seq<Content>): State
    decreases |content|
  {
    if content == [] then s
    else OpenCalls(if content[0].Call? then OpenCall(s, content[0]) else s, content[1..])
  }

  function UpdateAssistant(s: State, streamingKey: nat, m: Message): State
    requires m.Assistant?
  {
    OpenCalls(s.(blocks := ReplaceMessage(s.blocks, streamingKey, m)), m.content)
  }

  /** Every pending tool block fails with one text. */
  function SettleAll(blocks: seq<Block>, keys: set<nat>, outcome: Outcome): (r: seq<Block>)
    ensures |r| == |blocks|
  {
    seq(|blocks|, i requires 0 <= i < |blocks| =>
      if blocks[i].key in keys then SetResult(blocks[i], outcome, false) else blocks[i])
  }

  function CompleteAll(blocks: seq<Block>, keys: set<nat>): (r: seq<Block>)
    ensures |r| == |blocks|
  {
    seq(|blocks|, i requires 0 <= i < |blocks| =>
      if blocks[i].key in keys && blocks[i].ToolBlock? then blocks[i].(argsComplete := true) else blocks[i])
  }

  function FinalMessage(m: Message): Message
    requires m.Assistant?
  {
    if m.stop.Aborted? then m.(errorMessage := "Operation aborted") else m
  }

  function FinalizeAssistant(s: State, streamingKey: nat, m: Message): State
    requires m.Assistant?
  {
    var message := FinalMessage(m);
    var blocks := ReplaceMessage(s.blocks, streamingKey, message);
    if message.stop.Aborted? || message.stop.Failed? then
      var errorText := if message.errorMessage != "" then message.errorMessage else "Error";
      s.(blocks := SettleAll(blocks, s.pendingTools.Values, Outcome(errorText, true)),
         streamingKey := None, pendingTools := map[])
    else
      s.(blocks := CompleteAll(blocks, s.pendingTools.Values), streamingKey := None)
  }

  function WithoutKey(blocks: seq<Block>, key: nat): seq<Block> {
    if blocks == [] then []
    else (if blocks[0].key != key then [blocks[0]] else []) + WithoutKey(blocks[1..], key)
  }

  function ApplyEvent(s: State, e: Frame): State {
    match e
    case Input(text) => s.(input := text)
    case Submit => s.(input := "")
    case AgentStart => s.(busy := true, pendingTools := map[])
    case MessageStart(m) =>
      (match m
       case User(c) => s.(blocks := s.blocks + [UserBlock(s.nextKey, UserText(c))], nextKey := s.nextKey + 1)
       case Assistant(_, _, _) =>
         s.(blocks := s.blocks + [AssistantBlock(s.nextKey, m)], streamingKey := Some(s.nextKey),
            nextKey := s.nextKey + 1)
       case _ => s)
    case MessageUpdate(m) =>
      if s.streamingKey.Some? && m.Assistant? then UpdateAssistant(s, s.streamingKey.value, m) else s
    case MessageEnd(m) =>
      if s.streamingKey.Some? && m.Assistant? then FinalizeAssistant(s, s.streamingKey.value, m) else s
    case ToolStart(id, name, args) =>
      if id in s.pendingTools then
        s.(blocks := ReplaceStarted(s.blocks, s.pendingTools[id]))
      else
        s.(blocks := s.blocks + [ToolBlock(s.nextKey, id, name, args, None, true, true, false)],
           pendingTools := s.pendingTools[id := s.nextKey], nextKey := s.nextKey + 1)
    case ToolUpdate(id, partial) =>
      if id in s.pendingTools then
        s.(blocks := ReplaceResult(s.blocks, s.pendingTools[id], Outcome(partial, false), true))
      else s
    case ToolEnd(id, result, isError) =>
      if id in s.pendingTools then
        s.(pendingTools := s.pendingTools - {id},
           blocks := ReplaceResult(s.blocks, s.pendingTools[id], Outcome(result, isError), false))
      else s
    case AgentEnd =>
      s.(blocks := if s.streamingKey.Some? then WithoutKey(s.blocks, s.streamingKey.value) else s.blocks,
         busy := false, streamingKey := None, pendingTools := map[])
  }

  // ----- what every frame keeps -----

  predicate ToolAt(blocks: seq<Block>, key: nat, id: string) {
    exists i :: 0 <= i < |blocks| && blocks[i].key == key && blocks[i].ToolBlock? && blocks[i].toolCallId == id
  }

  predicate AssistantAt(blocks: seq<Block>, key: nat) {
    exists i :: 0 <= i < |blocks| && blocks[i].key == key && blocks[i].AssistantBlock?
  }

  predicate KeysIncrease(blocks: seq<Block>, bound: nat) {
    && (forall i, j :: 0 <= i < j < |blocks| ==> blocks[i].key < blocks[j].key)
    && (forall i :: 0 <= i < |blocks| ==> blocks[i].key < bound)
  }

  /** Keys are distinct, every pending call names its own live tool block, and the streaming key a live
      assistant block. */
  predicate Valid(s: State) {
    && KeysIncrease(s.blocks, s.nextKey)
    && (forall id :: id in s.pendingTools ==> ToolAt(s.blocks, s.pendingTools[id], id))
    && (s.streamingKey.Some? ==> AssistantAt(s.blocks, s.streamingKey.value))
  }

  /** Two lists show the same blocks as far as keys, kinds and call ids go. */
  predicate SameShape(a: seq<Block>, b: seq<Block>) {
    && |a| == |b|
    && forall i :: 0 <= i < |a| ==>
         && a[i].key == b[i].key
         && (a[i].AssistantBlock? <==> b[i].AssistantBlock?)
         && (a[i].ToolBlock? <==> b[i].ToolBlock?)
         && (a[i].ToolBlock? ==> a[i].toolCallId == b[i].toolCallId)
  }

  lemma ShapeKeeps(s: State, blocks: seq<Block>)
    requires Valid(s) && SameShape(s.blocks, blocks)
    ensures Valid(s.(blocks := blocks))
  {
    forall id | id in s.pendingTools ensures ToolAt(blocks, s.pendingTools[id], id) {
      var i :| 0 <= i < |s.blocks| && s.blocks[i].key == s.pendingTools[id] && s.blocks[i].ToolBlock?
               && s.blocks[i].toolCallId == id;
      assert blocks[i].key == s.pendingTools[id];
    }
    if s.streamingKey.Some? {
      var i :| 0 <= i < |s.blocks| && s.blocks[i].key == s.streamingKey.value && s.blocks[i].AssistantBlock?;
      assert blocks[i].key == s.streamingKey.value;
    }
  }

  /** A fresh block at the end disturbs nothing. */
  lemma AppendKeeps(s: State, b: Block)
    requires Valid(s) && b.key == s.nextKey
    ensures Valid(s.(blocks := s.blocks + [b], nextKey := s.nextKey + 1))
  {
    var blocks := s.blocks + [b];
    forall id | id in s.pendingTools ensures ToolAt(blocks, s.pendingTools[id], id) {
      var i :| 0 <= i < |s.blocks| && s.blocks[i].key == s.pendingTools[id] && s.blocks[i].ToolBlock?
               && s.blocks[i].toolCallId == id;
      assert blocks[i] == s.blocks[i];
    }
    if s.streamingKey.Some? {
      var i :| 0 <= i < |s.blocks| && s.blocks[i].key == s.streamingKey.value && s.blocks[i].AssistantBlock?;
      assert blocks[i] == s.blocks[i];
    }
  }

  lemma AppendToolKeeps(s: State, b: Block)
    requires Valid(s) && b.ToolBlock? && b.key == s.nextKey
    ensures Valid(s.(blocks := s.blocks + [b], pendingTools := s.pendingTools[b.toolCallId := s.nextKey],
                     nextKey := s.nextKey + 1))
  {
    AppendKeeps(s, b);
    var blocks := s.blocks + [b];
    assert blocks[|s.blocks|] == b;
  }

  lemma OpenCallKeeps(s: State, c: Content)
    requires Valid(s) && c.Call?
    ensures Valid(OpenCall(s, c)) && OpenCall(s, c).streamingKey == s.streamingKey
  {
    if c.id in s.pendingTools {
      ShapeKeeps(s, OpenCall(s, c).blocks);
    } else {
      AppendToolKeeps(s, ToolBlock(s.nextKey, c.id, c.name, Some(c.args), None, true, false, false));
    }
  }

  lemma {:induction false} OpenCallsKeep(s: State, content: seq<Content>)
    requires Valid(s)
    ensures Valid(OpenCalls(s, content)) && OpenCalls(s, content).streamingKey == s.streamingKey
    decreases |content|
  {
    if content != [] {
      if content[0].Call? {
        OpenCallKeeps(s, content[0]);
        OpenCallsKeep(OpenCall(s, content[0]), content[1..]);
      } else {
        OpenCallsKeep(s, content[1..]);
      }
    }
  }

  lemma {:induction false} WithoutKeyKeeps(blocks: seq<Block>, key: nat, bound: nat)
    requires KeysIncrease(blocks, bound)
    ensures KeysIncrease(WithoutKey(blocks, key), bound)
    ensures forall b :: b in WithoutKey(blocks, key) <==> b in blocks && b.key != key
    decreases |blocks|
  {
    if blocks != [] {
      var rest := blocks[1..];
      WithoutKeyKeeps(rest, key, bound);
      assert blocks == [blocks[0]] + rest;
      var r := WithoutKey(rest, key);
      forall j | 0 <= j < |r| ensures blocks[0].key < r[j].key {
        assert r[j] in rest;
      }
    }
  }

  /** Every frame, in whatever order frames come, keeps the transcript sound. */
  lemma ApplyKeeps(s: State, e: Frame)
    requires Valid(s)
    ensures Valid(ApplyEvent(s, e))
  {
    hide ReplaceStarted, ReplaceResult, FinalizeAssistant, UpdateAssistant, WithoutKey;
    match e {
      case MessageStart(m) =>
        if m.User? {
          AppendKeeps(s, UserBlock(s.nextKey, UserText(m.userContent)));
        } else if m.Assistant? {
          AppendKeeps(s, AssistantBlock(s.nextKey, m));
          assert (s.blocks + [AssistantBlock(s.nextKey, m)])[|s.blocks|].key == s.nextKey;
        }
      case MessageUpdate(m) =>
        if s.streamingKey.Some? && m.Assistant? { UpdateKeeps(s, s.streamingKey.value, m); }
      case MessageEnd(m) =>
        if s.streamingKey.Some? && m.Assistant? { FinalizeKeeps(s, s.streamingKey.value, m); }
      case ToolStart(id, name, args) =>
        if id in s.pendingTools {
          ToolKeeps(s, id, Outcome("", false), true);
        } else {
          AppendToolKeeps(s, ToolBlock(s.nextKey, id, name, args, None, true, true, false));
        }
      case ToolUpdate(id, partial) =>
        if id in s.pendingTools { ToolKeeps(s, id, Outcome(partial, false), true); }
      case ToolEnd(id, result, isError) =>
        if id in s.pendingTools { ToolKeeps(s, id, Outcome(result, isError), false); }
      case AgentEnd =>
        if s.streamingKey.Some? { WithoutKeyKeeps(s.blocks, s.streamingKey.value, s.nextKey); }
      case _ =>
    }
  }

  lemma UpdateKeeps(s: State, key: nat, m: Message)
    requires Valid(s) && m.Assistant?
    ensures Valid(UpdateAssistant(s, key, m)) && UpdateAssistant(s, key, m).streamingKey == s.streamingKey
  {
    ShapeKeeps(s, ReplaceMessage(s.blocks, key, m));
    OpenCallsKeep(s.(blocks := ReplaceMessage(s.blocks, key, m)), m.content);
  }

  lemma FinalizeKeeps(s: State, key: nat, m: Message)
    requires Valid(s) && m.Assistant?
    ensures Valid(FinalizeAssistant(s, key, m))
  {
    ShapeKeeps(s, FinalizeAssistant(s, key, m).blocks);
  }

  lemma ToolKeeps(s: State, id: string, outcome: Outcome, isPartial: bool)
    requires Valid(s) && id in s.pendingTools
    ensures Valid(s.(blocks := ReplaceStarted(s.blocks, s.pendingTools[id])))
    ensures Valid(s.(blocks := ReplaceResult(s.blocks, s.pendingTools[id], outcome, isPartial)))
  {
    ShapeKeeps(s, ReplaceStarted(s.blocks, s.pendingTools[id]));
    ShapeKeeps(s, ReplaceResult(s.blocks, s.pendingTools[id], outcome, isPartial));
  }

  function ApplyAll(s: State, frames: seq<Frame>): State
    decreases |frames|
  {
    if frames == [] then s else ApplyAll(ApplyEvent(s, frames[0]), frames[1..])
  }

  /** So does any run of frames. */
  lemma {:induction false} ApplyAllKeeps(s: State, frames: seq<Frame>)
    requires Valid(s)
    ensures Valid(ApplyAll(s, frames))
    decreases |frames|
  {
    if frames != [] {
      ApplyKeeps(s, frames[0]);
      ApplyAllKeeps(ApplyEvent(s, frames[0]), frames[1..]);
    }
  }

  lemma {:induction false} ApplyAllJoin(s: State, a: seq<Frame>, b: seq<Frame>)
    ensures ApplyAll(s, a + b) == ApplyAll(ApplyAll(s, a), b)
    decreases |a|
  {
    if a == [] {
      assert a + b == b;
    } else {
      assert (a + b)[0] == a[0] && (a + b)[1..] == a[1..] + b;
      ApplyAllJoin(ApplyEvent(s, a[0]), a[1..], b);
    }
  }
}
