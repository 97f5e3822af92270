/** What the transcript of a session shows, told from its messages alone. */
module TranscriptMeaning {
  import opened Options
  import opened Transcript
  import opened StreamReplay
  import opened SessionPlayback

  // ----- the story of a block -----

  /** A block is opened by message `opener`, and open while the messages up to, but not with, number `until` are
      read. A tool block may be settled by a message, its `closer`. */
  datatype Life = Life(opener: nat, until: nat, closer: Option<nat>)

  predicate Fails(m: Message) {
    m.Assistant? && (m.stop.Aborted? || m.stop.Failed?)
  }

  /** What an assistant message shows once it has ended. */
  ghost function Said(m: Message): Message
    requires m.Assistant?
  {
    if m.stop.Aborted? then m.(errorMessage := "Operation aborted") else m
  }

  /** The error that a failing response leaves on the calls it cuts off. */
  ghost function Notice(m: Message): string
    requires m.Assistant?
  {
    if Said(m).errorMessage != "" then Said(m).errorMessage else "Error"
  }

  predicate IsCall(content: seq<Content>, n: nat, id: string) {
    n < |content| && content[n].Call? && content[n].id == id
  }

  predicate FirstAt(content: seq<Content>, n: nat, id: string) {
    IsCall(content, n, id) && forall k: nat :: k < n ==> !IsCall(content, k, id)
  }

  /** The first call with this id has this name. */
  ghost predicate FirstNamed(content: seq<Content>, id: string, name: string) {
    exists n: nat :: FirstAt(content, n, id) && content[n].name == name
  }

  /** The arguments of the last call with this id. */
  ghost function LastCall(content: seq<Content>, id: string): Option<Args> {
    if content == [] then None
    else
      var later := LastCall(content[1..], id);
      if later.Some? then later else if IsCall(content, 0, id) then Some(content[0].args) else None
  }

  ghost function LastArgs(messages: seq<Message>, id: string): Option<Args> {
    if messages == [] then None
    else
      var n := |messages| - 1;
      var m := messages[n];
      if m.Assistant? && LastCall(m.content, id).Some? then LastCall(m.content, id) else LastArgs(messages[..n], id)
  }

  /** A block as the message that opens it would have it. */
  ghost predicate Opens(m: Message, b: Block) {
    match m
    case User(c) => b.UserBlock? && b.text == UserText(c)
    case Assistant(content, _, _) =>
      || (b.AssistantBlock? && b.message == Said(m))
      || (b.ToolBlock? && FirstNamed(content, b.toolCallId, b.name) && (b.argsComplete <==> !Fails(m)))
    case ToolResult(id, name, _, _) => b.ToolBlock? && b.toolCallId == id && b.name == name && !b.argsComplete
    case Other(_) => false
  }

  /** A result settles its own call, and a failing response every open one. */
  ghost predicate Settles(m: Message, id: string) {
    Fails(m) || (m.ToolResult? && m.toolCallId == id)
  }

  /** A tool block as the message that settles it would have it. */
  ghost predicate SettledBy(m: Message, b: Block)
    requires b.ToolBlock?
  {
    match m
    case ToolResult(_, _, text, isError) => b.result == Some(Outcome(text, isError)) && b.executionStarted
    case Assistant(_, _, _) => b.result == Some(Outcome(Notice(m), true)) && !b.executionStarted
    case _ => false
  }

  /** The first message that settles a tool block while it is open ends its life, and so does a user message. */
  ghost predicate Lives(b: Block, messages: seq<Message>, life: Life)
    requires b.ToolBlock? && life.opener < life.until <= |messages|
  {
    && (forall j :: life.opener < j < life.until ==> !messages[j].User?)
    && (forall j :: life.opener <= j < life.until ==>
          (Settles(messages[j], b.toolCallId) <==> life.closer == Some(j)))
    && b.args == LastArgs(messages[..life.until], b.toolCallId)
    && match life.closer
       case Some(k) =>
         k < |messages| && life.until == k + 1 && !b.isPartial && SettledBy(messages[k], b)
       case None =>
         && (life.until < |messages| ==> messages[life.until].User?)
         && b.result.None? && b.isPartial && !b.executionStarted
  }

  ghost predicate Tells(b: Block, messages: seq<Message>, life: Life) {
    && life.opener < life.until <= |messages|
    && Opens(messages[life.opener], b)
    && (b.ToolBlock? ==> Lives(b, messages, life))
    && (!b.ToolBlock? ==> life == Life(life.opener, life.opener + 1, None))
  }

  /** Message `j` stands in the block at place `i`: it says it, or settles it. */
  ghost predicate StandsAt(blocks: seq<Block>, messages: seq<Message>, lives: seq<Life>, j: nat, i: nat)
    requires |lives| == |blocks| && j < |messages|
  {
    if messages[j].User? || messages[j].Assistant? then i < |blocks| && !blocks[i].ToolBlock? && lives[i].opener == j
    else if messages[j].ToolResult? then i < |blocks| && blocks[i].ToolBlock? && lives[i].closer == Some(j)
    else true
  }

  ghost predicate SameCallId(a: Block, b: Block) {
    a.ToolBlock? && b.ToolBlock? && a.toolCallId == b.toolCallId
  }

  /** Some block of this call is open as message `j` is read. */
  ghost predicate CallShown(blocks: seq<Block>, lives: seq<Life>, id: string, j: nat)
    requires |lives| == |blocks|
  {
    exists i: nat :: i < |blocks| && blocks[i].ToolBlock? && blocks[i].toolCallId == id &&
                     lives[i].opener <= j < lives[i].until
  }

  ghost predicate CallOrder(b: Block, c: Block, content: seq<Content>)
    requires b.ToolBlock? && c.ToolBlock?
  {
    forall n: nat, l: nat :: FirstAt(content, n, b.toolCallId) && FirstAt(content, l, c.toolCallId) ==> n < l
  }

  /** The later block is opened by a later message, or it belongs to a later call of the same one. */
  ghost predicate InOrder(b: Block, c: Block, messages: seq<Message>, j: nat, k: nat)
    requires k < |messages|
  {
    || j < k
    || (j == k && c.ToolBlock? && messages[k].Assistant? &&
        (b.ToolBlock? ==> CallOrder(b, c, messages[k].content)))
  }

  /** Each block has its story, blocks come in the order of the messages and calls that open them, and no two blocks
      of one call are open at a time. */
  ghost predicate BlocksTell(blocks: seq<Block>, messages: seq<Message>, lives: seq<Life>) {
    && |lives| == |blocks|
    && (forall i: nat :: i < |blocks| ==> blocks[i].key == i && Tells(blocks[i], messages, lives[i]))
    && (forall i: nat, k: nat :: i < k < |blocks| ==>
          InOrder(blocks[i], blocks[k], messages, lives[i].opener, lives[k].opener))
    && (forall i: nat, k: nat :: i < k < |blocks| && SameCallId(blocks[i], blocks[k]) ==>
          lives[i].until <= lives[k].opener)
  }

  ghost predicate CallsShown(blocks: seq<Block>, messages: seq<Message>, lives: seq<Life>)
    requires |lives| == |blocks|
  {
    forall j: nat, n: nat, id: string ::
      j < |messages| && messages[j].Assistant? && IsCall(messages[j].content, n, id) ==> CallShown(blocks, lives, id, j)
  }

  /** The block at place `i` is the one in which the message it says, or the result it shows, stands. */
  ghost predicate Owned(b: Block, messages: seq<Message>, life: Life, at: seq<nat>, i: nat)
    requires life.opener < |messages| == |at|
  {
    && (!b.ToolBlock? ==> at[life.opener] == i)
    && (life.closer.Some? && life.closer.value < |messages| && messages[life.closer.value].ToolResult? ==>
          at[life.closer.value] == i)
  }

  /** Blocks and messages tell the same: every block has its story, every message stands at one place of its own,
      and every call is shown. */
  ghost predicate Told(blocks: seq<Block>, messages: seq<Message>, lives: seq<Life>, at: seq<nat>) {
    && BlocksTell(blocks, messages, lives)
    && |at| == |messages|
    && (forall j: nat :: j < |messages| ==> StandsAt(blocks, messages, lives, j, at[j]))
    && (forall i: nat :: i < |blocks| ==> Owned(blocks[i], messages, lives[i], at, i))
    && CallsShown(blocks, messages, lives)
  }

  // ----- what opening calls comes to -----

  predicate Pending(s: State, b: Block) {
    b.ToolBlock? && b.toolCallId in s.pendingTools && s.pendingTools[b.toolCallId] == b.key
  }

  /** Every key is a place, and every pending call names its block. */
  predicate Numbered(s: State) {
    && s.nextKey == |s.blocks|
    && (forall i :: 0 <= i < |s.blocks| ==> s.blocks[i].key == i)
    && forall id :: id in s.pendingTools ==>
         s.pendingTools[id] < |s.blocks| && s.blocks[s.pendingTools[id]].ToolBlock? &&
         s.blocks[s.pendingTools[id]].toolCallId == id
  }

  ghost function Recalled(s: State, b: Block, content: seq<Content>): Block {
    if Pending(s, b) && LastCall(content, b.toolCallId).Some? then b.(args := LastCall(content, b.toolCallId)) else b
  }

  /** A block that the calls of a message open. */
  ghost predicate Fresh(s: State, b: Block, content: seq<Content>) {
    && b.ToolBlock? && b.toolCallId !in s.pendingTools && FirstNamed(content, b.toolCallId, b.name)
    && b == ToolBlock(b.key, b.toolCallId, b.name, LastCall(content, b.toolCallId), None, true, false, false)
  }

  /** State `t` is `s` with the calls of a message opened. */
  ghost predicate Opened(s: State, content: seq<Content>, t: State) {
    && Numbered(t) && t.streamingKey == s.streamingKey && |s.blocks| <= |t.blocks|
    && (forall i :: 0 <= i < |s.blocks| ==> t.blocks[i] == Recalled(s, s.blocks[i], content))
    && (forall i :: |s.blocks| <= i < |t.blocks| ==> Fresh(s, t.blocks[i], content) && Pending(t, t.blocks[i]))
    && (forall i, k :: |s.blocks| <= i < k < |t.blocks| ==> CallOrder(t.blocks[i], t.blocks[k], content))
    && (forall id :: id in t.pendingTools <==> id in s.pendingTools || LastCall(content, id).Some?)
    && (forall id :: id in s.pendingTools ==> t.pendingTools[id] == s.pendingTools[id])
    && (forall id :: id in t.pendingTools && id !in s.pendingTools ==> t.pendingTools[id] >= |s.blocks|)
  }

  lemma LastCallStep(content: seq<Content>, id: string)
    requires content != []
    ensures LastCall(content, id) ==
            if LastCall(content[1..], id).Some? then LastCall(content[1..], id)
            else if IsCall(content, 0, id) then Some(content[0].args) else None
  {
  }

  lemma FirstAtStep(content: seq<Content>, n: nat, id: string)
    requires content != []
    ensures FirstAt(content, n, id) <==>
            if n == 0 then IsCall(content, 0, id) else !IsCall(content, 0, id) && FirstAt(content[1..], n - 1, id)
  {
    if n > 0 && FirstAt(content[1..], n - 1, id) && !IsCall(content, 0, id) {
      forall k: nat | k < n ensures !IsCall(content, k, id) {
        if k > 0 { assert !IsCall(content[1..], k - 1, id); }
      }
    }
    if FirstAt(content, n, id) {
      forall k: nat | k + 1 < n ensures !IsCall(content[1..], k, id) { assert !IsCall(content, k + 1, id); }
    }
  }

  lemma FirstNamedStep(content: seq<Content>, id: string, name: string)
    requires content != [] && !IsCall(content, 0, id)
    ensures FirstNamed(content[1..], id, name) ==> FirstNamed(content, id, name)
  {
    if FirstNamed(content[1..], id, name) {
      var n: nat :| FirstAt(content[1..], n, id) && content[1..][n].name == name;
      FirstAtStep(content, n + 1, id);
    }
  }

  lemma NamedAt(content: seq<Content>, n: nat)
    requires n < |content| && content[n].Call? && FirstAt(content, n, content[n].id)
    ensures FirstNamed(content, content[n].id, content[n].name)
  {
  }

  lemma CallOrderStep(b: Block, c: Block, content: seq<Content>)
    requires content != [] && b.ToolBlock? && c.ToolBlock? && !IsCall(content, 0, c.toolCallId)
    requires IsCall(content, 0, b.toolCallId) || CallOrder(b, c, content[1..])
    ensures CallOrder(b, c, content)
  {
    forall n: nat, l: nat | FirstAt(content, n, b.toolCallId) && FirstAt(content, l, c.toolCallId) ensures n < l {
      FirstAtStep(content, n, b.toolCallId);
      FirstAtStep(content, l, c.toolCallId);
      if !IsCall(content, 0, b.toolCallId) {
        assert FirstAt(content[1..], n - 1, b.toolCallId) && FirstAt(content[1..], l - 1, c.toolCallId);
      }
    }
  }

  lemma {:induction false} OpenCallsOpen(s: State, content: seq<Content>)
    requires Numbered(s)
    ensures Opened(s, content, OpenCalls(s, content))
    decreases |content|
  {
    if content != [] {
      var c, rest := content[0], content[1..];
      var u := if c.Call? then OpenCall(s, c) else s;
      assert Numbered(u);
      OpenCallsOpen(u, rest);
      OpenedFrom(s, u, content, OpenCalls(u, rest));
    }
  }

  lemma OpenedFrom(s: State, u: State, content: seq<Content>, t: State)
    requires Numbered(s) && content != [] && u == (if content[0].Call? then OpenCall(s, content[0]) else s)
    requires Opened(u, content[1..], t)
    ensures Opened(s, content, t)
  {
    hide LastCall, CallOrder, FirstNamed, Fresh, Recalled, Pending, OpenCall;
    var n := |s.blocks|;
    PendingFrom(s, u, content, t);
    forall i | 0 <= i < n ensures t.blocks[i] == Recalled(s, s.blocks[i], content) {
      OldRecalled(s, u, content, i);
    }
    forall i | n <= i < |t.blocks| ensures Fresh(s, t.blocks[i], content) && Pending(t, t.blocks[i]) {
      NewOpened(s, u, content, t, i);
    }
    forall i, k | n <= i < k < |t.blocks|
      ensures t.blocks[i].ToolBlock? && t.blocks[k].ToolBlock? && CallOrder(t.blocks[i], t.blocks[k], content)
    {
      NewOrdered(s, u, content, t, i, k);
    }
  }

  lemma FirstPending(s: State, u: State, content: seq<Content>)
    requires Numbered(s) && content != [] && u == (if content[0].Call? then OpenCall(s, content[0]) else s)
    ensures u.streamingKey == s.streamingKey && |s.blocks| <= |u.blocks|
    ensures forall id :: id in u.pendingTools <==> id in s.pendingTools || IsCall(content, 0, id)
    ensures forall id :: id in s.pendingTools ==> u.pendingTools[id] == s.pendingTools[id]
    ensures forall id :: id in u.pendingTools && id !in s.pendingTools ==> u.pendingTools[id] >= |s.blocks|
  {
  }

  lemma PendingFrom(s: State, u: State, content: seq<Content>, t: State)
    requires Numbered(s) && content != [] && u == (if content[0].Call? then OpenCall(s, content[0]) else s)
    requires Opened(u, content[1..], t)
    ensures u.streamingKey == s.streamingKey && |s.blocks| <= |u.blocks|
    ensures forall id :: id in t.pendingTools <==> id in s.pendingTools || LastCall(content, id).Some?
    ensures forall id :: id in s.pendingTools ==> t.pendingTools[id] == s.pendingTools[id]
    ensures forall id :: id in t.pendingTools && id !in s.pendingTools ==> t.pendingTools[id] >= |s.blocks|
  {
    hide LastCall, CallOrder, Fresh, Recalled, Pending, OpenCall, IsCall, Numbered;
    FirstPending(s, u, content);
    forall id ensures id in t.pendingTools <==> id in s.pendingTools || LastCall(content, id).Some? {
      LastCallStep(content, id);
    }
  }

  lemma NewOpened(s: State, u: State, content: seq<Content>, t: State, i: nat)
    requires Numbered(s) && content != [] && u == (if content[0].Call? then OpenCall(s, content[0]) else s)
    requires Opened(u, content[1..], t) && |s.blocks| <= i < |t.blocks|
    ensures Fresh(s, t.blocks[i], content) && Pending(t, t.blocks[i])
  {
    hide LastCall, CallOrder, FirstNamed, Fresh, Recalled;
    if i < |u.blocks| { FirstOpened(s, u, content, t); } else { LaterOpened(s, u, content, t.blocks[i]); }
  }

  lemma NewOrdered(s: State, u: State, content: seq<Content>, t: State, i: nat, k: nat)
    requires Numbered(s) && content != [] && u == (if content[0].Call? then OpenCall(s, content[0]) else s)
    requires Opened(u, content[1..], t) && |s.blocks| <= i < k < |t.blocks|
    ensures t.blocks[i].ToolBlock? && t.blocks[k].ToolBlock? && CallOrder(t.blocks[i], t.blocks[k], content)
  {
    hide LastCall, FirstNamed, Fresh, Recalled, CallOrder;
    if i < |u.blocks| { FirstOpened(s, u, content, t); }
    if i >= |u.blocks| { FreshIs(u, t.blocks[i], content[1..]); }
    FreshIs(u, t.blocks[k], content[1..]);
    NewOpened(s, u, content, t, i);
    FreshIs(s, t.blocks[i], content);
    CallOrderStep(t.blocks[i], t.blocks[k], content);
  }

  lemma FreshIs(s: State, b: Block, content: seq<Content>)
    requires Fresh(s, b, content)
    ensures b.ToolBlock? && b.toolCallId !in s.pendingTools
  {
  }

  lemma OldRecalled(s: State, u: State, content: seq<Content>, i: nat)
    requires Numbered(s) && content != [] && u == (if content[0].Call? then OpenCall(s, content[0]) else s)
    requires i < |s.blocks|
    ensures i < |u.blocks| && Recalled(u, u.blocks[i], content[1..]) == Recalled(s, s.blocks[i], content)
  {
    hide LastCall;
    if s.blocks[i].ToolBlock? { LastCallStep(content, s.blocks[i].toolCallId); }
  }

  lemma FirstOpened(s: State, u: State, content: seq<Content>, t: State)
    requires Numbered(s) && content != [] && content[0].Call? && u == OpenCall(s, content[0])
    requires Opened(u, content[1..], t) && |s.blocks| < |u.blocks|
    ensures |u.blocks| == |s.blocks| + 1 && IsCall(content, 0, t.blocks[|s.blocks|].toolCallId)
    ensures Fresh(s, t.blocks[|s.blocks|], content) && Pending(t, t.blocks[|s.blocks|])
  {
    hide LastCall, CallOrder, FirstNamed, Fresh;
    var c, n := content[0], |s.blocks|;
    var b := t.blocks[n];
    assert b == Recalled(u, u.blocks[n], content[1..]);
    LastCallStep(content, c.id);
    NamedAt(content, 0);
    assert Fresh(s, b, content) by { FreshAt(s, b, content); }
  }

  lemma FreshAt(s: State, b: Block, content: seq<Content>)
    requires b.ToolBlock? && b.toolCallId !in s.pendingTools && FirstNamed(content, b.toolCallId, b.name)
    requires b == ToolBlock(b.key, b.toolCallId, b.name, LastCall(content, b.toolCallId), None, true, false, false)
    ensures Fresh(s, b, content)
  {
  }

  lemma LaterOpened(s: State, u: State, content: seq<Content>, b: Block)
    requires content != [] && u == (if content[0].Call? then OpenCall(s, content[0]) else s)
    requires Fresh(u, b, content[1..])
    ensures Fresh(s, b, content)
  {
    hide LastCall, FirstNamed;
    LastCallStep(content, b.toolCallId);
    FirstNamedStep(content, b.toolCallId, b.name);
  }

  // ----- what a message comes to -----

  /** A tool block that is open as a response ends. */
  ghost function Responded(b: Block, m: Message): Block
    requires b.ToolBlock? && m.Assistant?
  {
    if Fails(m) then b.(result := Some(Outcome(Notice(m), true)), isPartial := false) else b.(argsComplete := true)
  }

  ghost function Aged(s: State, b: Block, m: Message): Block
    requires m.Assistant?
  {
    if Pending(s, b) then Responded(Recalled(s, b, m.content), m) else b
  }

  ghost predicate FreshlyAnswered(s: State, b: Block, m: Message) {
    && m.Assistant? && b.ToolBlock? && b.toolCallId !in s.pendingTools && FirstNamed(m.content, b.toolCallId, b.name)
    && b == Responded(ToolBlock(b.key, b.toolCallId, b.name, LastCall(m.content, b.toolCallId), None, true, false,
                                false), m)
  }

  ghost predicate HasBlock(blocks: seq<Block>, n: nat, id: string) {
    exists i: nat :: n < i < |blocks| && blocks[i].ToolBlock? && blocks[i].toolCallId == id
  }

  /** State `t` is `s` after a response. */
  ghost predicate Answered(s: State, m: Message, t: State)
    requires m.Assistant?
  {
    var n := |s.blocks|;
    && Numbered(t) && t.streamingKey.None? && n < |t.blocks|
    && (forall i :: 0 <= i < n ==> t.blocks[i] == Aged(s, s.blocks[i], m))
    && t.blocks[n] == AssistantBlock(n, Said(m))
    && (forall i :: n < i < |t.blocks| ==> FreshlyAnswered(s, t.blocks[i], m))
    && (forall i, k :: n < i < k < |t.blocks| ==> CallOrder(t.blocks[i], t.blocks[k], m.content))
    && (forall id :: LastCall(m.content, id).Some? && id !in s.pendingTools ==> HasBlock(t.blocks, n, id))
    && (if Fails(m) then t.pendingTools == map[]
        else forall i :: 0 <= i < |t.blocks| ==>
               (Pending(t, t.blocks[i]) <==> (i < n && Pending(s, s.blocks[i])) || n < i))
  }

  lemma PlainIs(s: State, c: Cursor, m: Message)
    requires Valid(s) && Numbered(s) && s.streamingKey.None? && m.Assistant?
    ensures var n := |s.blocks|;
      var start := State(s.blocks + [AssistantBlock(n, m)], s.busy, s.input, Some(n), s.pendingTools, n + 1);
      ApplyAll(s, MessageFrames(c, m)) == FinalizeAssistant(OpenCalls(start, m.content), n, m)
      && OpenCalls(start, m.content).streamingKey == Some(n)
  {
    hide Valid, FinalizeAssistant, OpenCalls;
    MessageTransparent(s, c, m);
    var n, first := |s.blocks|, MessageStart(m.(content := []));
    var t := ApplyEvent(s, first);
    ApplyAllJoin(s, [first], [MessageUpdate(m), MessageEnd(m)]);
    ApplyOne(s, first);
    ApplyTwo(t, MessageUpdate(m), MessageEnd(m));
    var start := State(s.blocks + [AssistantBlock(n, m)], s.busy, s.input, Some(n), s.pendingTools, n + 1);
    assert ReplaceMessage(t.blocks, n, m) == start.blocks;
    OpenCallsOpen(start, m.content);
  }

  lemma ResponseAnswers(s: State, c: Cursor, m: Message)
    requires Valid(s) && Numbered(s) && s.streamingKey.None? && m.Assistant?
    ensures Answered(s, m, ApplyAll(s, MessageFrames(c, m)))
  {
    hide Valid, ApplyAll, MessageFrames, LastCall, CallOrder, FirstNamed, Recalled;
    var n := |s.blocks|;
    var start := State(s.blocks + [AssistantBlock(n, m)], s.busy, s.input, Some(n), s.pendingTools, n + 1);
    var u := OpenCalls(start, m.content);
    PlainIs(s, c, m);
    OpenCallsOpen(start, m.content);
    assert Begun(s, start, m);
    FinalizeAnswers(s, start, u, m);
  }

  lemma FinalBlock(u: State, n: nat, m: Message, i: nat)
    requires Numbered(u) && m.Assistant? && i < |u.blocks|
    ensures var t := FinalizeAssistant(u, n, m);
      var b := u.blocks[i];
      && |t.blocks| == |u.blocks|
      && t.blocks[i] == if i == n && b.AssistantBlock? then b.(message := Said(m))
                        else if Pending(u, b) then Responded(b, m) else b
  {
    if u.blocks[i].key in u.pendingTools.Values {
      var id :| id in u.pendingTools && u.pendingTools[id] == u.blocks[i].key;
    }
    if Pending(u, u.blocks[i]) { assert u.pendingTools[u.blocks[i].toolCallId] in u.pendingTools.Values; }
  }

  /** State `start` is `s` with the block of the response begun. */
  predicate Begun(s: State, start: State, m: Message) {
    && Numbered(s)
    && start == State(s.blocks + [AssistantBlock(|s.blocks|, m)], s.busy, s.input, Some(|s.blocks|),
                      s.pendingTools, |s.blocks| + 1)
  }

  lemma FinalOld(s: State, start: State, u: State, m: Message, i: nat)
    requires m.Assistant? && Begun(s, start, m) && Opened(start, m.content, u) && i <= |s.blocks|
    ensures i < |u.blocks| && var b := FinalizeAssistant(u, |s.blocks|, m).blocks[i];
      if i < |s.blocks| then b == Aged(s, s.blocks[i], m) else b == AssistantBlock(i, Said(m))
  {
    hide LastCall, CallOrder, Fresh, FinalizeAssistant;
    FinalBlock(u, |s.blocks|, m, i);
    assert u.blocks[i] == Recalled(start, start.blocks[i], m.content);
  }

  lemma FinalFresh(s: State, start: State, u: State, m: Message, i: nat)
    requires m.Assistant? && Begun(s, start, m) && Opened(start, m.content, u) && |s.blocks| < i < |u.blocks|
    ensures FreshlyAnswered(s, FinalizeAssistant(u, |s.blocks|, m).blocks[i], m)
    ensures FinalizeAssistant(u, |s.blocks|, m).blocks[i].toolCallId == u.blocks[i].toolCallId
  {
    hide LastCall, CallOrder, FirstNamed, Recalled, FinalizeAssistant;
    FinalBlock(u, |s.blocks|, m, i);
  }

  lemma FinalNumbered(u: State, n: nat, m: Message)
    requires m.Assistant? && Numbered(u)
    ensures Numbered(FinalizeAssistant(u, n, m)) && SameShape(u.blocks, FinalizeAssistant(u, n, m).blocks)
    ensures forall b :: Pending(FinalizeAssistant(u, n, m), b) <==> !Fails(m) && Pending(u, b)
  {
  }

  lemma SameOrder(b: Block, c: Block, d: Block, e: Block, content: seq<Content>)
    requires SameCallId(b, d) && SameCallId(c, e) && CallOrder(b, c, content)
    ensures CallOrder(d, e, content)
  {
  }

  lemma FinalizeAnswers(s: State, start: State, u: State, m: Message)
    requires m.Assistant? && Begun(s, start, m) && Opened(start, m.content, u)
    ensures Answered(s, m, FinalizeAssistant(u, |s.blocks|, m))
  {
    hide LastCall, CallOrder, FirstNamed, Fresh, Recalled, Aged, FreshlyAnswered, Pending, FinalizeAssistant;
    var n := |s.blocks|;
    var t := FinalizeAssistant(u, n, m);
    FinalNumbered(u, n, m);
    FinalOld(s, start, u, m, n);
    forall i: nat | i < n ensures t.blocks[i] == Aged(s, s.blocks[i], m) { FinalOld(s, start, u, m, i); }
    forall i: nat | n < i < |t.blocks| ensures FreshlyAnswered(s, t.blocks[i], m) { FinalFresh(s, start, u, m, i); }
    FinalOrdered(s, start, u, m);
    FinalPending(s, start, u, m);
  }

  lemma FreshTool(s: State, u: State, m: Message, i: nat)
    requires m.Assistant? && Opened(s, m.content, u) && |s.blocks| <= i < |u.blocks|
    ensures u.blocks[i].ToolBlock?
  {
  }

  lemma FinalOrdered(s: State, start: State, u: State, m: Message)
    requires m.Assistant? && Begun(s, start, m) && Opened(start, m.content, u)
    ensures var t := FinalizeAssistant(u, |s.blocks|, m);
      && (forall i :: |s.blocks| < i < |t.blocks| ==> t.blocks[i].ToolBlock?)
      && (forall i, k :: |s.blocks| < i < k < |t.blocks| ==> CallOrder(t.blocks[i], t.blocks[k], m.content))
      && (forall id :: LastCall(m.content, id).Some? && id !in s.pendingTools ==> HasBlock(t.blocks, |s.blocks|, id))
  {
    hide LastCall, CallOrder, FirstNamed, Fresh, Recalled, FinalizeAssistant;
    var n := |s.blocks|;
    var t := FinalizeAssistant(u, n, m);
    FinalNumbered(u, n, m);
    forall i: nat | n < i < |u.blocks| ensures SameCallId(u.blocks[i], t.blocks[i]) { FreshTool(start, u, m, i); }
    forall i, k | n < i < k < |t.blocks|
      ensures t.blocks[i].ToolBlock? && t.blocks[k].ToolBlock? && CallOrder(t.blocks[i], t.blocks[k], m.content) {
      SameOrder(u.blocks[i], u.blocks[k], t.blocks[i], t.blocks[k], m.content);
    }
    forall id | LastCall(m.content, id).Some? && id !in s.pendingTools ensures HasBlock(t.blocks, n, id) {
      var i := u.pendingTools[id];
      assert SameCallId(u.blocks[i], t.blocks[i]);
    }
  }

  lemma FinalPending(s: State, start: State, u: State, m: Message)
    requires m.Assistant? && Begun(s, start, m) && Opened(start, m.content, u)
    ensures var t := FinalizeAssistant(u, |s.blocks|, m);
      && t.streamingKey.None?
      && if Fails(m) then t.pendingTools == map[]
         else forall i :: 0 <= i < |t.blocks| ==>
                (Pending(t, t.blocks[i]) <==> (i < |s.blocks| && Pending(s, s.blocks[i])) || |s.blocks| < i)
  {
    hide LastCall, CallOrder, Fresh, Recalled;
    var n := |s.blocks|;
    var t := FinalizeAssistant(u, n, m);
    if !Fails(m) {
      FinalNumbered(u, n, m);
      forall i: nat | i < |t.blocks|
        ensures Pending(t, t.blocks[i]) <==> (i < n && Pending(s, s.blocks[i])) || n < i
      {
        hide FinalizeAssistant;
        if i < n { StillPending(s, start, u, m, i); }
      }
    }
  }

  lemma StillPending(s: State, start: State, u: State, m: Message, i: nat)
    requires m.Assistant? && Begun(s, start, m) && Opened(start, m.content, u) && i < |s.blocks|
    ensures Pending(u, u.blocks[i]) <==> Pending(s, s.blocks[i])
  {
    hide LastCall, CallOrder, Fresh;
    assert u.blocks[i] == Recalled(start, start.blocks[i], m.content);
  }

  // ----- one more message -----

  /** The block is open as message number `n` is read. */
  ghost predicate Open(b: Block, life: Life, n: nat) {
    b.ToolBlock? && life.closer.None? && life.until == n
  }

  ghost function NextLife(b: Block, life: Life, n: nat, m: Message): Life {
    if Open(b, life, n) && !m.User? then
      Life(life.opener, n + 1, if Settles(m, b.toolCallId) then Some(n) else None)
    else life
  }

  ghost function FirstLife(b: Block, n: nat, m: Message): Life {
    Life(n, n + 1, if b.ToolBlock? && Settles(m, b.toolCallId) then Some(n) else None)
  }

  ghost function NextLives(blocks: seq<Block>, lives: seq<Life>, n: nat, m: Message, grown: seq<Block>): (r: seq<Life>)
    requires |lives| == |blocks| <= |grown|
    ensures |r| == |grown|
  {
    seq(|grown|, i requires 0 <= i < |grown| =>
      if i < |blocks| then NextLife(blocks[i], lives[i], n, m) else FirstLife(grown[i], n, m))
  }

  /** What one more message makes of an open block. */
  ghost predicate CarriesOn(b: Block, c: Block, messages: seq<Message>, m: Message)
    requires b.ToolBlock?
  {
    && c.ToolBlock? && c.key == b.key && c.toolCallId == b.toolCallId && c.name == b.name
    && c.argsComplete == b.argsComplete && c.args == LastArgs(messages + [m], b.toolCallId)
    && if Settles(m, b.toolCallId) then SettledBy(m, c) && !c.isPartial
       else c.result == b.result && c.isPartial == b.isPartial && c.executionStarted == b.executionStarted
  }

  lemma OlderTells(b: Block, c: Block, messages: seq<Message>, life: Life, m: Message)
    requires Tells(b, messages, life)
    requires if Open(b, life, |messages|) && !m.User? then CarriesOn(b, c, messages, m) else c == b
    ensures Tells(c, messages + [m], NextLife(b, life, |messages|, m))
  {
    hide LastArgs, FirstNamed;
    var more := messages + [m];
    var n := |messages|;
    assert more[..n + 1] == more;
    assert life.until <= n ==> more[..life.until] == messages[..life.until];
  }

  /** The older blocks after one more message. */
  ghost predicate OlderGrow(blocks: seq<Block>, messages: seq<Message>, lives: seq<Life>, m: Message,
                            grown: seq<Block>)
    requires |lives| == |blocks|
  {
    && |blocks| <= |grown|
    && forall i :: 0 <= i < |blocks| ==>
         if Open(blocks[i], lives[i], |messages|) && !m.User? then CarriesOn(blocks[i], grown[i], messages, m)
         else grown[i] == blocks[i]
  }

  /** The blocks that the message opens. */
  ghost predicate NewerGrow(blocks: seq<Block>, messages: seq<Message>, lives: seq<Life>, m: Message,
                            grown: seq<Block>)
    requires |lives| == |blocks| <= |grown|
  {
    var n, from := |messages|, |blocks|;
    && (forall i :: from <= i < |grown| ==>
          grown[i].key == i && Tells(grown[i], messages + [m], FirstLife(grown[i], n, m)))
    && (forall i, k :: from <= i < k < |grown| ==> InOrder(grown[i], grown[k], messages + [m], n, n))
    && (forall i, k :: from <= i < k < |grown| ==> !SameCallId(grown[i], grown[k]))
    && forall i, k :: 0 <= i < from <= k < |grown| && SameCallId(blocks[i], grown[k]) ==>
         !Open(blocks[i], lives[i], n)
  }

  lemma GrownTells(blocks: seq<Block>, messages: seq<Message>, lives: seq<Life>, m: Message, grown: seq<Block>)
    requires BlocksTell(blocks, messages, lives)
    requires OlderGrow(blocks, messages, lives, m, grown) && NewerGrow(blocks, messages, lives, m, grown)
    ensures BlocksTell(grown, messages + [m], NextLives(blocks, lives, |messages|, m, grown))
  {
    hide CarriesOn, Tells, InOrder, Open, CallOrder, SameCallId;
    var more, next := messages + [m], NextLives(blocks, lives, |messages|, m, grown);
    forall i: nat | i < |grown| ensures grown[i].key == i && Tells(grown[i], more, next[i]) {
      if i < |blocks| {
        OlderTells(blocks[i], grown[i], messages, lives[i], m);
        OlderSame(blocks, messages, lives, m, grown, i);
      }
    }
    forall i: nat, k: nat | i < k < |grown|
      ensures next[k].opener < |more| && InOrder(grown[i], grown[k], more, next[i].opener, next[k].opener)
      ensures SameCallId(grown[i], grown[k]) ==> next[i].until <= next[k].opener
    {
      if i < |blocks| { OlderSame(blocks, messages, lives, m, grown, i); }
      if k < |blocks| {
        OlderSame(blocks, messages, lives, m, grown, k);
        PairStays(blocks, messages, lives, m, grown, i, k);
      } else if i < |blocks| {
        PairApart(blocks, messages, lives, m, grown, i, k);
      }
    }
  }

  lemma OlderSame(blocks: seq<Block>, messages: seq<Message>, lives: seq<Life>, m: Message, grown: seq<Block>, i: nat)
    requires BlocksTell(blocks, messages, lives) && OlderGrow(blocks, messages, lives, m, grown) && i < |blocks|
    ensures grown[i].key == i && (blocks[i].ToolBlock? <==> grown[i].ToolBlock?)
    ensures blocks[i].ToolBlock? ==> SameCallId(blocks[i], grown[i])
    ensures lives[i].opener < lives[i].until <= |messages|
  {
    hide LastArgs, FirstNamed, CallOrder;
    assert Tells(blocks[i], messages, lives[i]);
  }

  lemma PairStays(blocks: seq<Block>, messages: seq<Message>, lives: seq<Life>, m: Message, grown: seq<Block>, i: nat,
                  k: nat)
    requires BlocksTell(blocks, messages, lives) && OlderGrow(blocks, messages, lives, m, grown) && i < k < |blocks|
    ensures lives[i].opener < |messages| && lives[k].opener < |messages|
    ensures InOrder(grown[i], grown[k], messages + [m], lives[i].opener, lives[k].opener)
    ensures SameCallId(grown[i], grown[k]) ==>
      NextLife(blocks[i], lives[i], |messages|, m).until <= lives[k].opener
  {
    hide LastArgs, FirstNamed, CallOrder, CarriesOn;
    OlderSame(blocks, messages, lives, m, grown, i);
    OlderSame(blocks, messages, lives, m, grown, k);
    var l := lives[k].opener;
    assert (messages + [m])[l] == messages[l];
    assert InOrder(blocks[i], blocks[k], messages, lives[i].opener, l);
    if messages[l].Assistant? && blocks[i].ToolBlock? && blocks[k].ToolBlock? &&
       CallOrder(blocks[i], blocks[k], messages[l].content)
    {
      SameOrder(blocks[i], blocks[k], grown[i], grown[k], messages[l].content);
    }
  }

  lemma PairApart(blocks: seq<Block>, messages: seq<Message>, lives: seq<Life>, m: Message, grown: seq<Block>, i: nat,
                  k: nat)
    requires BlocksTell(blocks, messages, lives)
    requires OlderGrow(blocks, messages, lives, m, grown) && NewerGrow(blocks, messages, lives, m, grown)
    requires i < |blocks| <= k < |grown|
    ensures InOrder(grown[i], grown[k], messages + [m], NextLife(blocks[i], lives[i], |messages|, m).opener, |messages|)
    ensures SameCallId(grown[i], grown[k]) ==> NextLife(blocks[i], lives[i], |messages|, m).until <= |messages|
  {
    hide LastArgs, FirstNamed, CallOrder, CarriesOn, Tells;
    OlderSame(blocks, messages, lives, m, grown, i);
  }

  /** A block of this call is open as message number `n` is read, or opened by it. */
  ghost predicate Reached(blocks: seq<Block>, lives: seq<Life>, n: nat, grown: seq<Block>, i: nat, id: string)
    requires |lives| == |blocks| <= |grown|
  {
    && i < |grown| && grown[i].ToolBlock? && grown[i].toolCallId == id
    && (i < |blocks| ==> Open(blocks[i], lives[i], n))
  }

  /** Place `p` is where the message stands. */
  ghost predicate Placed(blocks: seq<Block>, lives: seq<Life>, n: nat, m: Message, grown: seq<Block>, p: nat)
    requires |lives| == |blocks| <= |grown|
  {
    && (m.User? || m.Assistant? ==> |blocks| <= p < |grown| && !grown[p].ToolBlock?)
    && (m.ToolResult? ==> forall i: nat :: Reached(blocks, lives, n, grown, i, m.toolCallId) <==> i == p)
    && (forall i: nat :: |blocks| <= i < |grown| && !grown[i].ToolBlock? ==> i == p)
  }

  ghost predicate CallsReached(blocks: seq<Block>, lives: seq<Life>, n: nat, m: Message, grown: seq<Block>)
    requires |lives| == |blocks| <= |grown|
  {
    m.Assistant? ==> forall k: nat, id: string :: IsCall(m.content, k, id) ==>
      exists i: nat :: Reached(blocks, lives, n, grown, i, id)
  }

  lemma GrownShows(blocks: seq<Block>, messages: seq<Message>, lives: seq<Life>, m: Message, grown: seq<Block>)
    requires BlocksTell(blocks, messages, lives) && OlderGrow(blocks, messages, lives, m, grown)
    requires CallsShown(blocks, messages, lives) && CallsReached(blocks, lives, |messages|, m, grown)
    ensures CallsShown(grown, messages + [m], NextLives(blocks, lives, |messages|, m, grown))
  {
    hide LastArgs, FirstNamed, CallOrder, CarriesOn, Tells, InOrder;
    var more, next := messages + [m], NextLives(blocks, lives, |messages|, m, grown);
    forall j: nat, n: nat, id: string | j < |more| && more[j].Assistant? && IsCall(more[j].content, n, id)
      ensures CallShown(grown, next, id, j)
    {
      if j < |messages| {
        assert CallShown(blocks, lives, id, j);
        var i: nat :| i < |blocks| && blocks[i].ToolBlock? && blocks[i].toolCallId == id &&
                      lives[i].opener <= j < lives[i].until;
        OlderSame(blocks, messages, lives, m, grown, i);
      } else {
        var i: nat :| Reached(blocks, lives, |messages|, grown, i, id);
        if i < |blocks| { OlderSame(blocks, messages, lives, m, grown, i); }
      }
    }
  }

  lemma GrownStands(blocks: seq<Block>, messages: seq<Message>, lives: seq<Life>, at: seq<nat>, m: Message,
                    grown: seq<Block>, p: nat, j: nat)
    requires Told(blocks, messages, lives, at) && OlderGrow(blocks, messages, lives, m, grown)
    requires Placed(blocks, lives, |messages|, m, grown, p) && j <= |messages|
    ensures StandsAt(grown, messages + [m], NextLives(blocks, lives, |messages|, m, grown), j, (at + [p])[j])
  {
    hide LastArgs, FirstNamed, CallOrder, CarriesOn, Tells, InOrder, CallsShown;
    if j < |messages| {
      if at[j] < |blocks| { OlderSame(blocks, messages, lives, m, grown, at[j]); }
    } else if m.ToolResult? {
      assert Reached(blocks, lives, |messages|, grown, p, m.toolCallId);
      if p < |blocks| { OlderSame(blocks, messages, lives, m, grown, p); }
    }
  }

  lemma GrownOwned(blocks: seq<Block>, messages: seq<Message>, lives: seq<Life>, at: seq<nat>, m: Message,
                   grown: seq<Block>, p: nat, i: nat)
    requires Told(blocks, messages, lives, at) && OlderGrow(blocks, messages, lives, m, grown)
    requires Placed(blocks, lives, |messages|, m, grown, p) && i < |grown|
    ensures var life := NextLives(blocks, lives, |messages|, m, grown)[i];
      life.opener <= |messages| && Owned(grown[i], messages + [m], life, at + [p], i)
  {
    hide LastArgs, FirstNamed, CallOrder, CarriesOn, InOrder, CallsShown;
    if i < |blocks| {
      OlderSame(blocks, messages, lives, m, grown, i);
      assert Owned(blocks[i], messages, lives[i], at, i);
      if Open(blocks[i], lives[i], |messages|) && m.ToolResult? && blocks[i].toolCallId == m.toolCallId {
        assert Reached(blocks, lives, |messages|, grown, i, m.toolCallId);
      }
    } else if m.ToolResult? && grown[i].ToolBlock? && grown[i].toolCallId == m.toolCallId {
      assert Reached(blocks, lives, |messages|, grown, i, m.toolCallId);
    }
  }

  /** One more message, told. */
  lemma GrownTold(blocks: seq<Block>, messages: seq<Message>, lives: seq<Life>, at: seq<nat>, m: Message,
                  grown: seq<Block>, p: nat)
    requires Told(blocks, messages, lives, at)
    requires OlderGrow(blocks, messages, lives, m, grown) && NewerGrow(blocks, messages, lives, m, grown)
    requires Placed(blocks, lives, |messages|, m, grown, p) && CallsReached(blocks, lives, |messages|, m, grown)
    ensures Told(grown, messages + [m], NextLives(blocks, lives, |messages|, m, grown), at + [p])
  {
    hide Tells, InOrder, CarriesOn, SameCallId, NewerGrow, Placed, CallsReached, StandsAt, Owned, CallsShown;
    GrownTells(blocks, messages, lives, m, grown);
    GrownShows(blocks, messages, lives, m, grown);
    forall j: nat | j <= |messages|
      ensures StandsAt(grown, messages + [m], NextLives(blocks, lives, |messages|, m, grown), j, (at + [p])[j])
    {
      GrownStands(blocks, messages, lives, at, m, grown, p, j);
    }
    forall i: nat | i < |grown|
      ensures NextLives(blocks, lives, |messages|, m, grown)[i].opener <= |messages|
      ensures Owned(grown[i], messages + [m], NextLives(blocks, lives, |messages|, m, grown)[i], at + [p], i)
    {
      GrownOwned(blocks, messages, lives, at, m, grown, p, i);
    }
  }

  // ----- a whole session -----

  ghost predicate Tale(s: State, c: Cursor, messages: seq<Message>, lives: seq<Life>, at: seq<nat>) {
    && Numbered(s) && s.streamingKey.None? && Told(s.blocks, messages, lives, at)
    && forall id :: Lookup(c.calls, id) == LastArgs(messages, id)
  }

  /** The pending calls are those whose blocks are open. */
  ghost predicate InStep(s: State, lives: seq<Life>, n: nat) {
    && |lives| == |s.blocks|
    && forall i :: 0 <= i < |lives| ==> (Pending(s, s.blocks[i]) <==> Open(s.blocks[i], lives[i], n))
  }

  lemma LastArgsNext(messages: seq<Message>, m: Message, id: string)
    ensures LastArgs(messages + [m], id) ==
            if m.Assistant? && LastCall(m.content, id).Some? then LastCall(m.content, id) else LastArgs(messages, id)
  {
    assert (messages + [m])[..|messages|] == messages;
  }

  lemma {:induction false} NoteCallsLast(calls: map<string, Args>, content: seq<Content>, id: string)
    ensures Lookup(NoteCalls(calls, content), id) ==
            if LastCall(content, id).Some? then LastCall(content, id) else Lookup(calls, id)
    decreases |content|
  {
    if content != [] {
      NoteCallsLast(if content[0].Call? then calls[content[0].id := content[0].args] else calls, content[1..], id);
    }
  }

  lemma LooksUpLast(c: Cursor, messages: seq<Message>, m: Message)
    requires forall id :: Lookup(c.calls, id) == LastArgs(messages, id)
    ensures forall id :: Lookup(Advance(c, m).calls, id) == LastArgs(messages + [m], id)
  {
    hide LastArgs, Lookup, LastCall, NoteCalls;
    forall id ensures Lookup(Advance(c, m).calls, id) == LastArgs(messages + [m], id) {
      LastArgsNext(messages, m, id);
      if m.Assistant? { NoteCallsLast(c.calls, m.content, id); }
    }
  }

  /** An open block was opened by a response that did not fail. */
  lemma OpenIs(b: Block, messages: seq<Message>, life: Life)
    requires Tells(b, messages, life) && Open(b, life, |messages|)
    ensures b.argsComplete && b.result.None? && b.isPartial && !b.executionStarted
    ensures b.args == LastArgs(messages, b.toolCallId)
  {
    hide LastArgs, FirstNamed;
    assert messages[..|messages|] == messages;
    assert !Settles(messages[life.opener], b.toolCallId);
  }

  lemma OneBlock(n: nat, m: Message, b: Block, messages: seq<Message>)
    requires n == |messages| && (m.User? || m.ToolResult?) && Opens(m, b)
    requires m.ToolResult? ==> b.args == LastArgs(messages + [m], b.toolCallId) && SettledBy(m, b) && !b.isPartial
    ensures Tells(b, messages + [m], FirstLife(b, n, m))
  {
    hide LastArgs, FirstNamed;
    assert (messages + [m])[..n + 1] == messages + [m];
  }

  lemma TaleUser(s: State, c: Cursor, messages: seq<Message>, lives: seq<Life>, at: seq<nat>, m: Message)
    requires Tale(s, c, messages, lives, at) && m.User?
    ensures var t := ApplyAll(s, MessageFrames(c, m));
      |lives| == |s.blocks| <= |t.blocks|
      && var next := NextLives(s.blocks, lives, |messages|, m, t.blocks);
      && Tale(t, Advance(c, m), messages + [m], next, at + [|s.blocks|]) && InStep(t, next, |messages| + 1)
  {
    hide ApplyAll, UserFrames, LastArgs, Lookup, Tells, InOrder, CarriesOn, CallsShown, StandsAt, Owned, UserText;
    var n := |s.blocks|;
    var b := UserBlock(n, UserText(m.userContent));
    UserOpens(s, m);
    OneBlock(|messages|, m, b, messages);
    GrownTold(s.blocks, messages, lives, at, m, s.blocks + [b], n);
    LooksUpLast(c, messages, m);
    forall i: nat | i < n ensures lives[i].until <= |messages| {
      OlderSame(s.blocks, messages, lives, m, s.blocks + [b], i);
    }
  }

  lemma TaleOther(s: State, c: Cursor, messages: seq<Message>, lives: seq<Life>, at: seq<nat>, m: Message)
    requires Tale(s, c, messages, lives, at) && InStep(s, lives, |messages|) && m.Other?
    ensures var t := ApplyAll(s, MessageFrames(c, m));
      |lives| == |s.blocks| <= |t.blocks|
      && var next := NextLives(s.blocks, lives, |messages|, m, t.blocks);
      && Tale(t, Advance(c, m), messages + [m], next, at + [0]) && InStep(t, next, |messages| + 1)
  {
    hide LastArgs, Lookup, Tells, InOrder, CallsShown, StandsAt, Owned;
    forall i: nat | i < |s.blocks| && Open(s.blocks[i], lives[i], |messages|)
      ensures CarriesOn(s.blocks[i], s.blocks[i], messages, m)
    {
      OpenIs(s.blocks[i], messages, lives[i]);
      LastArgsNext(messages, m, s.blocks[i].toolCallId);
    }
    GrownTold(s.blocks, messages, lives, at, m, s.blocks, 0);
    LooksUpLast(c, messages, m);
    forall i: nat | i < |s.blocks| ensures lives[i].until <= |messages| {
      OlderSame(s.blocks, messages, lives, m, s.blocks, i);
    }
  }

  /** State `t` is `s` after a tool result, shown at place `p`. */
  ghost predicate Resolved(s: State, c: Cursor, m: Message, t: State, p: nat)
    requires m.ToolResult?
  {
    && t.streamingKey == s.streamingKey && t.pendingTools == s.pendingTools - {m.toolCallId}
    && t.nextKey == |t.blocks|
    && var shown := Some(Outcome(m.result, m.isError));
       if m.toolCallId in s.pendingTools then
         && p < |s.blocks| && s.blocks[p].ToolBlock? && p == s.pendingTools[m.toolCallId]
         && t.blocks == s.blocks[p := s.blocks[p].(executionStarted := true, result := shown, isPartial := false)]
       else
         && p == |s.blocks|
         && t.blocks == s.blocks + [ToolBlock(p, m.toolCallId, m.toolName, Lookup(c.calls, m.toolCallId), shown,
                                              false, true, false)]
  }

  lemma ResultResolves(s: State, c: Cursor, m: Message) returns (p: nat)
    requires Numbered(s) && m.ToolResult?
    ensures Resolved(s, c, m, ApplyAll(s, MessageFrames(c, m)), p)
  {
    var frames := ResultFrames(m, c.calls);
    ApplyTwo(s, frames[0], frames[1]);
    var t := ApplyEvent(ApplyEvent(s, frames[0]), frames[1]);
    hide ApplyAll;
    p := if m.toolCallId in s.pendingTools then s.pendingTools[m.toolCallId] else |s.blocks|;
    if m.toolCallId in s.pendingTools {
      assert t.blocks == s.blocks[p := s.blocks[p].(executionStarted := true, isPartial := false,
                                                    result := Some(Outcome(m.result, m.isError)))];
    } else {
      assert |t.blocks| == p + 1 && t.blocks[..p] == s.blocks;
    }
  }

  lemma TaleResult(s: State, c: Cursor, messages: seq<Message>, lives: seq<Life>, at: seq<nat>, m: Message)
    returns (p: nat)
    requires Tale(s, c, messages, lives, at) && InStep(s, lives, |messages|) && m.ToolResult?
    ensures var t := ApplyAll(s, MessageFrames(c, m));
      |lives| == |s.blocks| <= |t.blocks|
      && var next := NextLives(s.blocks, lives, |messages|, m, t.blocks);
      && Tale(t, Advance(c, m), messages + [m], next, at + [p]) && InStep(t, next, |messages| + 1)
  {
    hide ApplyAll, MessageFrames, LastArgs, Lookup, Tells, InOrder, CallsShown, StandsAt, Owned, Placed, NewerGrow,
         OlderGrow, Resolved, CarriesOn;
    p := ResultResolves(s, c, m);
    var t := ApplyAll(s, MessageFrames(c, m));
    ResultGrows(s, c, messages, lives, m, t, p);
    ResolvedNumbered(s, c, m, t, p);
    ResultInStep(s, c, messages, lives, m, t, p);
    ResultPlaced(s, c, messages, lives, m, t, p);
    GrownTold(s.blocks, messages, lives, at, m, t.blocks, p);
    LooksUpLast(c, messages, m);
  }

  lemma ResultGrows(s: State, c: Cursor, messages: seq<Message>, lives: seq<Life>, m: Message, t: State, p: nat)
    requires Numbered(s) && BlocksTell(s.blocks, messages, lives) && InStep(s, lives, |messages|) && m.ToolResult?
    requires Resolved(s, c, m, t, p)
    ensures |s.blocks| <= |t.blocks| && OlderGrow(s.blocks, messages, lives, m, t.blocks)
  {
    hide LastArgs, Lookup, Tells, InOrder;
    forall i: nat | i < |s.blocks| && Open(s.blocks[i], lives[i], |messages|)
      ensures CarriesOn(s.blocks[i], t.blocks[i], messages, m)
    {
      OpenIs(s.blocks[i], messages, lives[i]);
      LastArgsNext(messages, m, s.blocks[i].toolCallId);
    }
  }

  lemma ResultInStep(s: State, c: Cursor, messages: seq<Message>, lives: seq<Life>, m: Message, t: State, p: nat)
    requires Numbered(s) && BlocksTell(s.blocks, messages, lives) && InStep(s, lives, |messages|) && m.ToolResult?
    requires Resolved(s, c, m, t, p) && |s.blocks| <= |t.blocks|
    requires OlderGrow(s.blocks, messages, lives, m, t.blocks)
    ensures t.streamingKey == s.streamingKey
    ensures InStep(t, NextLives(s.blocks, lives, |messages|, m, t.blocks), |messages| + 1)
  {
    hide Resolved, BlocksTell, OlderGrow, Pending, Open;
    ResolvedPending(s, c, m, t, p);
    var next := NextLives(s.blocks, lives, |messages|, m, t.blocks);
    forall i: nat | i < |t.blocks| ensures Pending(t, t.blocks[i]) <==> Open(t.blocks[i], next[i], |messages| + 1) {
      if i < |s.blocks| { LifeEnds(s, messages, lives, m, t, i); } else { NotOpen(t.blocks[i], |messages|, m); }
    }
  }

  lemma ResolvedPending(s: State, c: Cursor, m: Message, t: State, p: nat)
    requires Numbered(s) && m.ToolResult? && Resolved(s, c, m, t, p)
    ensures t.streamingKey == s.streamingKey && |s.blocks| <= |t.blocks|
    ensures forall i :: 0 <= i < |s.blocks| ==>
      (Pending(t, t.blocks[i]) <==> Pending(s, s.blocks[i]) && s.blocks[i].toolCallId != m.toolCallId)
    ensures forall i :: |s.blocks| <= i < |t.blocks| ==> !Pending(t, t.blocks[i]) && t.blocks[i].ToolBlock? &&
                                                         t.blocks[i].toolCallId == m.toolCallId
  {
    hide Lookup;
  }

  lemma ResolvedNumbered(s: State, c: Cursor, m: Message, t: State, p: nat)
    requires Numbered(s) && m.ToolResult? && Resolved(s, c, m, t, p)
    ensures Numbered(t)
  {
    hide Lookup;
  }

  lemma NotOpen(b: Block, n: nat, m: Message)
    requires m.ToolResult? && b.ToolBlock? && b.toolCallId == m.toolCallId
    ensures !Open(b, FirstLife(b, n, m), n + 1)
  {
  }

  lemma LifeEnds(s: State, messages: seq<Message>, lives: seq<Life>, m: Message, t: State, i: nat)
    requires BlocksTell(s.blocks, messages, lives) && m.ToolResult? && i < |s.blocks|
    requires OlderGrow(s.blocks, messages, lives, m, t.blocks)
    ensures t.blocks[i].ToolBlock? <==> s.blocks[i].ToolBlock?
    ensures Open(t.blocks[i], NextLife(s.blocks[i], lives[i], |messages|, m), |messages| + 1) <==>
            Open(s.blocks[i], lives[i], |messages|) && s.blocks[i].toolCallId != m.toolCallId
  {
    hide CarriesOn, Tells, InOrder;
    OlderSame(s.blocks, messages, lives, m, t.blocks, i);
  }

  lemma ResultPlaced(s: State, c: Cursor, messages: seq<Message>, lives: seq<Life>, m: Message, t: State, p: nat)
    requires Numbered(s) && BlocksTell(s.blocks, messages, lives) && InStep(s, lives, |messages|) && m.ToolResult?
    requires forall id :: Lookup(c.calls, id) == LastArgs(messages, id)
    requires Resolved(s, c, m, t, p)
    ensures Placed(s.blocks, lives, |messages|, m, t.blocks, p)
    ensures NewerGrow(s.blocks, messages, lives, m, t.blocks)
  {
    hide LastArgs, Lookup, Tells, InOrder, Reached;
    ResultReached(s, c, messages, lives, m, t, p);
    if |t.blocks| > |s.blocks| {
      LastArgsNext(messages, m, m.toolCallId);
      OneBlock(|messages|, m, t.blocks[p], messages);
    }
  }

  lemma ResultReached(s: State, c: Cursor, messages: seq<Message>, lives: seq<Life>, m: Message, t: State, p: nat)
    requires Numbered(s) && InStep(s, lives, |messages|) && m.ToolResult?
    requires Resolved(s, c, m, t, p)
    ensures |s.blocks| <= |t.blocks|
    ensures forall i: nat :: Reached(s.blocks, lives, |messages|, t.blocks, i, m.toolCallId) <==> i == p
  {
    hide Lookup;
    forall i: nat ensures Reached(s.blocks, lives, |messages|, t.blocks, i, m.toolCallId) <==> i == p {
      if i < |s.blocks| { assert Pending(s, s.blocks[i]) <==> Open(s.blocks[i], lives[i], |messages|); }
    }
  }

  /** The arguments are those of the last call with the id, if there is one. */
  lemma {:induction false} LastCallIs(content: seq<Content>, id: string) returns (n: nat)
    ensures LastCall(content, id).None? ==> forall k: nat :: !IsCall(content, k, id)
    ensures LastCall(content, id).Some? ==>
      && IsCall(content, n, id) && LastCall(content, id) == Some(content[n].args)
      && forall k: nat :: k > n ==> !IsCall(content, k, id)
    decreases |content|
  {
    n := 0;
    if content != [] {
      var l := LastCallIs(content[1..], id);
      assert forall k: nat :: k > 0 ==> (IsCall(content, k, id) <==> IsCall(content[1..], k - 1, id));
      if LastCall(content[1..], id).Some? { n := l + 1; }
    }
  }

  lemma AgedCarriesOn(s: State, b: Block, messages: seq<Message>, life: Life, m: Message)
    requires m.Assistant? && Tells(b, messages, life) && Open(b, life, |messages|) && Pending(s, b)
    ensures CarriesOn(b, Aged(s, b, m), messages, m)
  {
    hide LastArgs, LastCall, Tells;
    OpenIs(b, messages, life);
    LastArgsNext(messages, m, b.toolCallId);
  }

  lemma FreshTells(s: State, b: Block, messages: seq<Message>, m: Message)
    requires m.Assistant? && FreshlyAnswered(s, b, m)
    ensures Tells(b, messages + [m], FirstLife(b, |messages|, m))
  {
    hide LastArgs, LastCall;
    var more, n := messages + [m], |messages|;
    assert more[..n + 1] == more;
    var k: nat :| FirstAt(m.content, k, b.toolCallId) && m.content[k].name == b.name;
    var l := LastCallIs(m.content, b.toolCallId);
    LastArgsNext(messages, m, b.toolCallId);
  }

  lemma FreshApart(s: State, b: Block, c: Block, m: Message)
    requires m.Assistant? && FreshlyAnswered(s, b, m) && FreshlyAnswered(s, c, m) && CallOrder(b, c, m.content)
    ensures !SameCallId(b, c)
  {
    hide LastCall;
    var k: nat :| FirstAt(m.content, k, b.toolCallId) && m.content[k].name == b.name;
  }

  lemma ResponseGrows(s: State, messages: seq<Message>, lives: seq<Life>, m: Message, t: State)
    requires m.Assistant? && Numbered(s) && BlocksTell(s.blocks, messages, lives) && InStep(s, lives, |messages|)
    requires Answered(s, m, t)
    ensures OlderGrow(s.blocks, messages, lives, m, t.blocks)
    ensures NewerGrow(s.blocks, messages, lives, m, t.blocks)
  {
    hide LastArgs, LastCall, Tells, CallOrder, CarriesOn, Aged, FreshlyAnswered, HasBlock, Fails;
    var n, more := |s.blocks|, messages + [m];
    forall i: nat | i < n
      ensures if Open(s.blocks[i], lives[i], |messages|) then CarriesOn(s.blocks[i], t.blocks[i], messages, m)
              else t.blocks[i] == s.blocks[i]
    {
      assert t.blocks[i] == Aged(s, s.blocks[i], m);
      if Open(s.blocks[i], lives[i], |messages|) {
        AgedCarriesOn(s, s.blocks[i], messages, lives[i], m);
      } else {
        assert Aged(s, s.blocks[i], m) == s.blocks[i] by { NotAged(s, s.blocks[i], m); }
      }
    }
    forall i | n <= i < |t.blocks|
      ensures t.blocks[i].key == i && Tells(t.blocks[i], more, FirstLife(t.blocks[i], |messages|, m))
    {
      if i == n { SaidTells(n, m, messages); } else { FreshTells(s, t.blocks[i], messages, m); }
    }
    forall i, k | n <= i < k < |t.blocks|
      ensures InOrder(t.blocks[i], t.blocks[k], more, |messages|, |messages|)
      ensures !SameCallId(t.blocks[i], t.blocks[k])
    {
      FreshKind(s, t.blocks[k], m);
      if i > n { FreshApart(s, t.blocks[i], t.blocks[k], m); }
    }
    forall i, k | 0 <= i < n <= k < |t.blocks| && SameCallId(s.blocks[i], t.blocks[k])
      ensures !Open(s.blocks[i], lives[i], |messages|)
    {
      FreshKind(s, t.blocks[k], m);
    }
  }

  lemma NotAged(s: State, b: Block, m: Message)
    requires m.Assistant? && !Pending(s, b)
    ensures Aged(s, b, m) == b
  {
  }

  lemma FreshKind(s: State, b: Block, m: Message)
    requires m.Assistant? && FreshlyAnswered(s, b, m)
    ensures b.ToolBlock? && b.toolCallId !in s.pendingTools
  {
  }

  lemma SaidTells(n: nat, m: Message, messages: seq<Message>)
    requires m.Assistant?
    ensures Tells(AssistantBlock(n, Said(m)), messages + [m], FirstLife(AssistantBlock(n, Said(m)), |messages|, m))
  {
  }

  lemma ResponseReaches(s: State, messages: seq<Message>, lives: seq<Life>, m: Message, t: State)
    requires m.Assistant? && Numbered(s) && BlocksTell(s.blocks, messages, lives) && InStep(s, lives, |messages|)
    requires Answered(s, m, t) && OlderGrow(s.blocks, messages, lives, m, t.blocks)
    ensures Placed(s.blocks, lives, |messages|, m, t.blocks, |s.blocks|)
    ensures CallsReached(s.blocks, lives, |messages|, m, t.blocks)
  {
    hide LastArgs, LastCall, Tells, CallOrder, CarriesOn, Aged, FreshlyAnswered, Fails, InOrder;
    forall i: nat | |s.blocks| < i < |t.blocks| ensures t.blocks[i].ToolBlock? { FreshKind(s, t.blocks[i], m); }
    forall k: nat, id: string | IsCall(m.content, k, id)
      ensures exists i: nat :: Reached(s.blocks, lives, |messages|, t.blocks, i, id)
    {
      var l := LastCallIs(m.content, id);
      if id in s.pendingTools {
        var i := s.pendingTools[id];
        OlderSame(s.blocks, messages, lives, m, t.blocks, i);
        assert Reached(s.blocks, lives, |messages|, t.blocks, i, id);
      } else {
        var i: nat :| |s.blocks| < i < |t.blocks| && t.blocks[i].ToolBlock? && t.blocks[i].toolCallId == id;
        assert Reached(s.blocks, lives, |messages|, t.blocks, i, id);
      }
    }
  }

  lemma TaleResponse(s: State, c: Cursor, messages: seq<Message>, lives: seq<Life>, at: seq<nat>, m: Message)
    requires Valid(s) && Tale(s, c, messages, lives, at) && InStep(s, lives, |messages|) && m.Assistant?
    ensures var t := ApplyAll(s, MessageFrames(c, m));
      |lives| == |s.blocks| <= |t.blocks|
      && var next := NextLives(s.blocks, lives, |messages|, m, t.blocks);
      && Tale(t, Advance(c, m), messages + [m], next, at + [|s.blocks|]) && InStep(t, next, |messages| + 1)
  {
    hide Valid, ApplyAll, MessageFrames, LastArgs, Lookup, Tells, InOrder, CallsShown, StandsAt, Owned, Placed,
         NewerGrow, OlderGrow, CallsReached, LastCall, CarriesOn;
    var t := ApplyAll(s, MessageFrames(c, m));
    ResponseAnswers(s, c, m);
    ResponseGrows(s, messages, lives, m, t);
    ResponseReaches(s, messages, lives, m, t);
    GrownTold(s.blocks, messages, lives, at, m, t.blocks, |s.blocks|);
    LooksUpLast(c, messages, m);
    ResponseInStep(s, messages, lives, m, t);
  }

  lemma ResponseInStep(s: State, messages: seq<Message>, lives: seq<Life>, m: Message, t: State)
    requires m.Assistant? && Numbered(s) && BlocksTell(s.blocks, messages, lives) && InStep(s, lives, |messages|)
    requires Answered(s, m, t) && OlderGrow(s.blocks, messages, lives, m, t.blocks)
    ensures InStep(t, NextLives(s.blocks, lives, |messages|, m, t.blocks), |messages| + 1)
  {
    hide LastArgs, LastCall, Tells, CallOrder, CarriesOn, Aged, FreshlyAnswered, InOrder, HasBlock;
    forall i: nat | i < |s.blocks|
      ensures lives[i].until <= |messages| && SameCallId(s.blocks[i], t.blocks[i]) == s.blocks[i].ToolBlock?
    {
      OlderSame(s.blocks, messages, lives, m, t.blocks, i);
    }
    forall i: nat | |s.blocks| < i < |t.blocks| ensures t.blocks[i].ToolBlock? { FreshKind(s, t.blocks[i], m); }
  }

  lemma TaleStep(s: State, c: Cursor, messages: seq<Message>, lives: seq<Life>, at: seq<nat>, m: Message)
    returns (next: seq<Life>, places: seq<nat>)
    requires Valid(s) && Tale(s, c, messages, lives, at) && (m.User? || InStep(s, lives, |messages|))
    ensures var t := ApplyAll(s, MessageFrames(c, m));
      Tale(t, Advance(c, m), messages + [m], next, places) && InStep(t, next, |messages| + 1)
  {
    hide *;
    var t := ApplyAll(s, MessageFrames(c, m));
    match m {
      case User(_) =>
        TaleUser(s, c, messages, lives, at, m);
        places := at + [|s.blocks|];
      case Assistant(_, _, _) =>
        TaleResponse(s, c, messages, lives, at, m);
        places := at + [|s.blocks|];
      case ToolResult(_, _, _, _) =>
        var p := TaleResult(s, c, messages, lives, at, m);
        places := at + [p];
      case Other(_) =>
        TaleOther(s, c, messages, lives, at, m);
        places := at + [0];
    }
    next := NextLives(s.blocks, lives, |messages|, m, t.blocks);
  }

  lemma TaleEnds(s: State, c: Cursor, messages: seq<Message>, lives: seq<Life>, at: seq<nat>, ends: bool)
    requires Valid(s) && Tale(s, c, messages, lives, at)
    ensures Tale(ApplyAll(s, EndFrames(ends)), c, messages, lives, at)
    ensures !ends ==> ApplyAll(s, EndFrames(ends)) == s
  {
    hide Valid, Told, ApplyAll, LastArgs;
    EndCloses(s, ends);
  }

  lemma NextCalls(c: Cursor, m: Message, rest: seq<Message>)
    ensures Next(c, m, rest).calls == Advance(c, m).calls
    ensures RunEnds(c, m, rest) ==> UserFirst(rest)
  {
  }

  /** Whatever has been told so far, the rest of the session is told with it. */
  lemma {:induction false} TaleGoesOn(s: State, c: Cursor, messages: seq<Message>, lives: seq<Life>, at: seq<nat>,
                                      rest: seq<Message>)
    returns (ended: seq<Life>, places: seq<nat>)
    requires Valid(s) && Tale(s, c, messages, lives, at) && (UserFirst(rest) || InStep(s, lives, |messages|))
    ensures Told(ApplyAll(s, ReplayFrom(c, rest)).blocks, messages + rest, ended, places)
    decreases |rest|
  {
    hide Valid, Told, ApplyAll, LastArgs, MessageFrames, Advance, Next, RunEnds, InStep, Numbered;
    if rest == [] {
      assert messages + rest == messages;
      TaleEnds(s, c, messages, lives, at, c.running);
      ended, places := lives, at;
    } else {
      var m, later := rest[0], rest[1..];
      var ends := RunEnds(c, m, later);
      var t := ApplyAll(s, MessageFrames(c, m));
      ApplyAllKeeps(s, MessageFrames(c, m));
      var next, more := TaleStep(s, c, messages, lives, at, m);
      TaleEnds(t, Advance(c, m), messages + [m], next, more, ends);
      ApplyAllKeeps(t, EndFrames(ends));
      NextCalls(c, m, later);
      ThreeParts(s, MessageFrames(c, m), EndFrames(ends), ReplayFrom(Next(c, m, later), later));
      assert messages + rest == messages + [m] + later;
      ended, places := TaleGoesOn(ApplyAll(t, EndFrames(ends)), Next(c, m, later), messages + [m], next, more, later);
    }
  }

  /** The blocks are what the messages tell. */
  ghost predicate Transcribes(blocks: seq<Block>, messages: seq<Message>) {
    exists lives: seq<Life>, at: seq<nat> :: Told(blocks, messages, lives, at)
  }

  /** What a folded session shows is what its messages tell. */
  lemma FoldTells(messages: seq<Message>)
    ensures Transcribes(FoldState(messages).blocks, messages)
  {
    hide ApplyAll, ReplayFrom;
    InitialValid();
    assert Tale(INITIAL, START, [], [], []);
    assert [] + messages == messages;
    var lives, at := TaleGoesOn(INITIAL, START, [], [], [], messages);
    assert Told(FoldState(messages).blocks, messages, lives, at);
  }

  // ----- what a reader sees -----

  predicate Speaks(m: Message) {
    m.User? || m.Assistant?
  }

  /** Place `i` shows what the message says, or the result it brings. */
  predicate ShowsMessage(blocks: seq<Block>, m: Message, i: nat) {
    match m
    case User(c) => i < |blocks| && blocks[i] == UserBlock(i, UserText(c))
    case Assistant(content, stop, _) =>
      && i < |blocks| && blocks[i].AssistantBlock?
      && blocks[i].message == if stop.Aborted? then m.(errorMessage := "Operation aborted") else m
    case ToolResult(id, _, text, isError) =>
      && i < |blocks| && blocks[i].ToolBlock? && blocks[i].toolCallId == id
      && blocks[i].result == Some(Outcome(text, isError)) && !blocks[i].isPartial && blocks[i].executionStarted
    case Other(_) => true
  }

  /** Users and assistant are shown in the order of the session, each message in a block of its own and no other
      words; every tool result is shown in a tool block of its own call, and no other block has been started. */
  lemma TranscriptShows(blocks: seq<Block>, messages: seq<Message>) returns (at: seq<nat>)
    requires Transcribes(blocks, messages)
    ensures |at| == |messages| && forall j :: 0 <= j < |messages| ==> ShowsMessage(blocks, messages[j], at[j])
    ensures forall j, k :: 0 <= j < k < |messages| && Speaks(messages[j]) && Speaks(messages[k]) ==> at[j] < at[k]
    ensures forall i :: 0 <= i < |blocks| && !blocks[i].ToolBlock? ==>
      exists j :: 0 <= j < |messages| && Speaks(messages[j]) && at[j] == i
    ensures forall j, k :: 0 <= j < k < |messages| && messages[j].ToolResult? && messages[k].ToolResult? ==>
      at[j] != at[k]
    ensures forall i :: 0 <= i < |blocks| && blocks[i].ToolBlock? && blocks[i].executionStarted ==>
      exists j :: 0 <= j < |messages| && messages[j].ToolResult? && at[j] == i
  {
    hide BlocksTell, StandsAt, Owned, CallsShown, ShowsMessage;
    var lives: seq<Life>, places: seq<nat> :| Told(blocks, messages, lives, places);
    at := places;
    forall j, k | 0 <= j < k < |messages| && Speaks(messages[j]) && Speaks(messages[k]) ensures at[j] < at[k] {
      SpokenInOrder(blocks, messages, lives, at, j, k);
    }
    forall j, k | 0 <= j < k < |messages| && messages[j].ToolResult? && messages[k].ToolResult?
      ensures at[j] != at[k]
    {
      ResultsApart(blocks, messages, lives, at, j, k);
    }
    forall j | 0 <= j < |messages| ensures ShowsMessage(blocks, messages[j], at[j]) {
      StandsShown(blocks, messages, lives, at, j);
    }
    forall i | 0 <= i < |blocks| && blocks[i].ToolBlock? && blocks[i].executionStarted
      ensures exists j :: 0 <= j < |messages| && messages[j].ToolResult? && at[j] == i
    {
      var j := StartedByResult(blocks, messages, lives, at, i);
    }
    forall i | 0 <= i < |blocks| && !blocks[i].ToolBlock?
      ensures exists j :: 0 <= j < |messages| && Speaks(messages[j]) && at[j] == i
    {
      var j := SpokenBy(blocks, messages, lives, at, i);
    }
  }

  lemma StandsShown(blocks: seq<Block>, messages: seq<Message>, lives: seq<Life>, at: seq<nat>, j: nat)
    requires Told(blocks, messages, lives, at) && j < |messages|
    ensures ShowsMessage(blocks, messages[j], at[j])
  {
    hide LastArgs, CallOrder, FirstNamed, CallsShown, InOrder;
    assert StandsAt(blocks, messages, lives, j, at[j]);
    if Speaks(messages[j]) || messages[j].ToolResult? { assert Tells(blocks[at[j]], messages, lives[at[j]]); }
  }

  lemma SpokenInOrder(blocks: seq<Block>, messages: seq<Message>, lives: seq<Life>, at: seq<nat>, j: nat, k: nat)
    requires Told(blocks, messages, lives, at) && j < k < |messages| && Speaks(messages[j]) && Speaks(messages[k])
    ensures at[j] < at[k]
  {
    hide Tells, Owned, CallsShown, CallOrder;
    assert StandsAt(blocks, messages, lives, j, at[j]) && StandsAt(blocks, messages, lives, k, at[k]);
  }

  lemma ResultsApart(blocks: seq<Block>, messages: seq<Message>, lives: seq<Life>, at: seq<nat>, j: nat, k: nat)
    requires Told(blocks, messages, lives, at) && j < k < |messages|
    requires messages[j].ToolResult? && messages[k].ToolResult?
    ensures at[j] != at[k]
  {
    hide Tells, InOrder, Owned, CallsShown;
    assert StandsAt(blocks, messages, lives, j, at[j]) && StandsAt(blocks, messages, lives, k, at[k]);
  }

  lemma StartedByResult(blocks: seq<Block>, messages: seq<Message>, lives: seq<Life>, at: seq<nat>, i: nat)
    returns (j: nat)
    requires Told(blocks, messages, lives, at) && i < |blocks|
    requires blocks[i].ToolBlock? && blocks[i].executionStarted
    ensures j < |messages| && messages[j].ToolResult? && at[j] == i
  {
    hide LastArgs, CallOrder, FirstNamed, CallsShown, InOrder;
    assert Tells(blocks[i], messages, lives[i]) && Owned(blocks[i], messages, lives[i], at, i);
    j := lives[i].closer.value;
  }

  lemma SpokenBy(blocks: seq<Block>, messages: seq<Message>, lives: seq<Life>, at: seq<nat>, i: nat)
    returns (j: nat)
    requires Told(blocks, messages, lives, at) && i < |blocks| && !blocks[i].ToolBlock?
    ensures j < |messages| && Speaks(messages[j]) && at[j] == i
  {
    hide LastArgs, CallOrder, FirstNamed, CallsShown, InOrder;
    assert Tells(blocks[i], messages, lives[i]) && Owned(blocks[i], messages, lives[i], at, i);
    j := lives[i].opener;
  }

  /** The text of a user message is that of its text parts, put together. */
  lemma {:induction false} PartsTextJoins(a: seq<Part>, b: seq<Part>)
    ensures PartsText(a + b) == PartsText(a) + PartsText(b)
    ensures forall text: string :: PartsText([TextPart(text)]) == text
    ensures PartsText([ImagePart]) == "" == PartsText([])
    decreases |a|
  {
    assert [ImagePart][1..] == [];
    forall text: string ensures PartsText([TextPart(text)]) == text { assert [TextPart(text)][1..] == []; }
    if a == [] {
      assert a + b == b;
    } else {
      assert (a + b)[0] == a[0] && (a + b)[1..] == a[1..] + b;
      PartsTextJoins(a[1..], b);
    }
  }

  /** A partial result is shown in the open block of its call and nowhere else. */
  lemma PartialShows(s: State, id: string, partial: string)
    requires Valid(s)
    ensures var t := ApplyEvent(s, ToolUpdate(id, partial));
      && t == s.(blocks := t.blocks) && |t.blocks| == |s.blocks|
      && forall i :: 0 <= i < |s.blocks| ==>
           t.blocks[i] == if Pending(s, s.blocks[i]) && s.blocks[i].toolCallId == id
                          then s.blocks[i].(result := Some(Outcome(partial, false)), isPartial := true)
                          else s.blocks[i]
  {
    if id in s.pendingTools {
      var j :| 0 <= j < |s.blocks| && s.blocks[j].key == s.pendingTools[id] && s.blocks[j].ToolBlock?
               && s.blocks[j].toolCallId == id;
    }
  }

  // ----- the frames of a user message -----

  /** From the first frame of a user message to the last, something is typed or a run is open. */
  lemma NeverIdle(s: State, m: Message, i: nat)
    requires m.User? && 0 < i <= |UserFrames(m)|
    ensures var t := ApplyAll(s, UserFrames(m)[..i]); t.busy || t.input != ""
  {
    hide ApplyAll, IsEventMessage;
    var text := UserText(m.userContent);
    var typed := Typed(text);
    var frames := UserFrames(m);
    assert frames[..i] == frames[..i - 1] + [frames[i - 1]];
    ApplyAllJoin(s, frames[..i - 1], [frames[i - 1]]);
    var t := ApplyAll(s, frames[..i - 1]);
    ApplyOne(t, frames[i - 1]);
    if i <= |typed| {
      StepsGrow(text, 0, 0);
      assert StreamText(text)[i - 1] != "";
    } else if i > |typed| + 1 {
      RunStaysOpen(s, m, i - 1);
    }
  }

  lemma {:induction false} RunStaysOpen(s: State, m: Message, i: nat)
    requires m.User? && |Typed(UserText(m.userContent))| < i <= |UserFrames(m)|
    ensures ApplyAll(s, UserFrames(m)[..i]).busy
    decreases i
  {
    hide ApplyAll, Typed;
    var frames := UserFrames(m);
    assert frames[..i] == frames[..i - 1] + [frames[i - 1]];
    ApplyAllJoin(s, frames[..i - 1], [frames[i - 1]]);
    ApplyOne(ApplyAll(s, frames[..i - 1]), frames[i - 1]);
    if i > |Typed(UserText(m.userContent))| + 1 { RunStaysOpen(s, m, i - 1); }
  }

  /** The composer grows step by step while a message is typed, and nothing else changes; an event is not typed. */
  lemma TypingShows(s: State, m: Message, i: nat)
    requires m.User? && i <= |Typed(UserText(m.userContent))|
    ensures var text := UserText(m.userContent);
      && |UserFrames(m)| == (if IsEventMessage(text) then 0 else |StreamText(text)|) + 4
      && ApplyAll(s, UserFrames(m)[..i]) == if i == 0 then s else s.(input := StreamText(text)[i - 1])
  {
    hide ApplyAll, StreamText, IsEventMessage;
    var frames := UserFrames(m);
    if i == 0 {
      ApplyNone(s);
      assert frames[..0] == [];
    } else {
      assert frames[..i] == frames[..i - 1] + [frames[i - 1]];
      InputsOnly(s, frames[..i - 1]);
      ApplyAllJoin(s, frames[..i - 1], [frames[i - 1]]);
      ApplyOne(ApplyAll(s, frames[..i - 1]), frames[i - 1]);
    }
  }

  // ----- when a run is open -----

  lemma {:induction false} OpenCallsKeepBusy(s: State, content: seq<Content>)
    ensures OpenCalls(s, content).busy == s.busy
    decreases |content|
  {
    if content != [] { OpenCallsKeepBusy(if content[0].Call? then OpenCall(s, content[0]) else s, content[1..]); }
  }

  lemma {:induction false} FramesKeepBusy(s: State, frames: seq<Frame>)
    requires forall f :: f in frames ==> !f.AgentStart? && !f.AgentEnd?
    ensures ApplyAll(s, frames).busy == s.busy
    decreases |frames|
  {
    hide OpenCalls, FinalizeAssistant;
    if frames != [] {
      var f := frames[0];
      assert f in frames;
      if f.MessageUpdate? && f.message.Assistant? && s.streamingKey.Some? {
        OpenCallsKeepBusy(s.(blocks := ReplaceMessage(s.blocks, s.streamingKey.value, f.message)), f.message.content);
      }
      assert ApplyEvent(s, f).busy == s.busy by { if f.MessageEnd? { FinalKeepsBusy(s, f.message); } }
      FramesKeepBusy(ApplyEvent(s, f), frames[1..]);
    }
  }

  lemma FinalKeepsBusy(s: State, m: Message)
    ensures s.streamingKey.Some? && m.Assistant? ==> FinalizeAssistant(s, s.streamingKey.value, m).busy == s.busy
  {
  }

  lemma MessageKeepsBusy(s: State, c: Cursor, m: Message)
    requires Valid(s) && s.streamingKey.None?
    ensures ApplyAll(s, MessageFrames(c, m)).busy == (m.User? || s.busy)
  {
    hide ApplyAll, Valid, Typed, Pieces;
    if m.User? { UserOpens(s, m); } else { FramesKeepBusy(s, MessageFrames(c, m)); }
  }

  /** A run is open after some messages, with a user message to follow, exactly as the generator has it. */
  lemma {:induction false} BusyWhileRunning(s: State, c: Cursor, messages: seq<Message>)
    requires Valid(s) && s.streamingKey.None? && s.busy == c.running
    ensures ApplyAll(s, Body(c, messages)).busy == After(c, messages).running
    decreases |messages|
  {
    hide Valid, MessageFrames, ApplyAll;
    if messages == [] {
      ApplyNone(s);
    } else {
      var m, rest := messages[0], messages[1..];
      var ends := RunEnds(c, m, rest);
      MessageKeepsBusy(s, c, m);
      MessageCloses(s, c, m);
      var t := ApplyAll(s, MessageFrames(c, m));
      EndCloses(t, ends);
      ApplyAllKeeps(t, EndFrames(ends));
      BusyWhileRunning(ApplyAll(t, EndFrames(ends)), Next(c, m, rest), rest);
      ThreeParts(s, MessageFrames(c, m), EndFrames(ends), Body(Next(c, m, rest), rest));
    }
  }

  lemma {:induction false} RunningWhen(c: Cursor, messages: seq<Message>)
    ensures After(c, messages).running <==>
      if messages == [] then c.running
      else (c.running || exists i :: 0 <= i < |messages| && messages[i].User?) && !messages[|messages| - 1].Assistant?
    decreases |messages|
  {
    if messages != [] {
      var m, rest := messages[0], messages[1..];
      RunningWhen(Next(c, m, rest), rest);
      if i :| 0 <= i < |messages| && messages[i].User? && i > 0 { assert rest[i - 1].User?; }
      if i :| 0 <= i < |rest| && rest[i].User? { assert messages[i + 1].User?; }
    }
  }

  /** The assistant is busy while a user types exactly if an earlier message opened a run that no response has ended;
      at the end nothing runs and nothing is typed. */
  lemma BusyWhen(messages: seq<Message>)
    ensures ApplyAll(INITIAL, Body(START, messages)).busy <==>
      && (exists i :: 0 <= i < |messages| && messages[i].User?)
      && !messages[|messages| - 1].Assistant?
    ensures !FoldState(messages).busy
  {
    hide ApplyAll, Body, After, Valid, ReplayFrom;
    InitialValid();
    BusyWhileRunning(INITIAL, START, messages);
    RunningWhen(START, messages);
    BodyCloses(INITIAL, START, messages);
    ReplayCut(START, messages, []);
    ApplyAllJoin(INITIAL, Body(START, messages), EndFrames(After(START, messages).running));
    EndCloses(ApplyAll(INITIAL, Body(START, messages)), After(START, messages).running);
  }

  lemma {:induction false} WordRunIs(text: string)
    ensures forall i :: 0 <= i < WordRun(text) ==> WordChar(text[i])
    ensures WordRun(text) < |text| ==> !WordChar(text[WordRun(text)])
    decreases |text|
  {
    if text != "" && WordChar(text[0]) { WordRunIs(text[1..]); }
  }

  /** A bracketed tag of word characters, up to place `n`, and a space. */
  predicate OpensWithTag(text: string, n: nat) {
    && 1 < n && n + 1 < |text| && text[0] == '[' && text[n] == ']' && text[n + 1] == ' '
    && forall i :: 1 <= i < n ==> WordChar(text[i])
  }

  /** Nobody typed a text exactly if it opens with such a tag. */
  lemma EventMessageIs(text: string)
    ensures IsEventMessage(text) <==> exists n: nat :: OpensWithTag(text, n)
  {
    if text != "" {
      var run := WordRun(text[1..]);
      WordRunIs(text[1..]);
      if IsEventMessage(text) { assert OpensWithTag(text, run + 1); }
      if n: nat :| OpensWithTag(text, n) {
        if run < n - 1 { assert text[1..][run] == text[run + 1]; }
        if run > n - 1 { assert text[1..][n - 1] == text[n]; }
      }
    }
  }
}
