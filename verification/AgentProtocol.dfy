/** Messages and events of an agent run, and the grammar its events follow. */
module AgentProtocol {
  import opened Options

  datatype StopReason = Stop | Length | ToolUse | Failed | Aborted

  datatype ToolCall = ToolCall(id: string, name: string)

  datatype Message =
    | User(text: string)
    | Assistant(text: string, calls: seq<ToolCall>, stop: StopReason, errorMessage: string)
    | ToolResult(callId: string, toolName: string, text: string, isError: bool)

  datatype Event =
    | AgentStart
    | AgentEnd(messages: seq<Message>)
    | TurnStart
    | TurnEnd(message: Message, results: seq<Message>)
    | MessageStart(message: Message)
    | MessageUpdate(message: Message)
    | MessageEnd(message: Message)
    | ToolStart(callId: string, toolName: string)
    | ToolEnd(callId: string, toolName: string, isError: bool)

  /** Where a run stands: before it, between turns, in a turn with a message open or not and some tool
      calls under way, over, or outside the grammar. */
  datatype Phase = Idle | Between | Turn(open: bool, tools: multiset<string>) | Ended | Bad

  const QUIET := Turn(false, multiset{})

  function PhaseStep(p: Phase, e: Event): Phase {
    match e
    case AgentStart => if p.Idle? then Between else Bad
    case TurnStart => if p.Between? then QUIET else Bad
    case MessageStart(_) => if p.Turn? && !p.open then p.(open := true) else Bad
    case MessageUpdate(_) => if p.Turn? && p.open then p else Bad
    case MessageEnd(_) => if p.Turn? && p.open then p.(open := false) else Bad
    case ToolStart(id, _) => if p.Turn? && !p.open then p.(tools := p.tools + multiset{id}) else Bad
    case ToolEnd(id, _, _) => if p.Turn? && !p.open && id in p.tools then p.(tools := p.tools - multiset{id}) else Bad
    case TurnEnd(_, _) => if p == QUIET then Between else Bad
    case AgentEnd(_) => if p.Between? then Ended else Bad
  }

  function PhaseAfter(events: seq<Event>): Phase {
    if events == [] then Idle else PhaseStep(PhaseAfter(events[..|events| - 1]), events[|events| - 1])
  }

  function EndedMessages(events: seq<Event>): seq<Message> {
    if events == [] then []
    else
      var last := events[|events| - 1];
      EndedMessages(events[..|events| - 1]) + if last.MessageEnd? then [last.message] else []
  }

  /** The calls the reducer holds to be under way. */
  function PendingAfter(pending: set<string>, e: Event): set<string> {
    if e.ToolStart? then pending + {e.callId} else if e.ToolEnd? then pending - {e.callId} else pending
  }

  predicate AllUnderWay(pending: set<string>, p: Phase) {
    forall id :: id in pending ==> p.Turn? && id in p.tools
  }

  /** The set of calls under way only holds calls that started and have not ended. */
  lemma PendingFollows(pending: set<string>, p: Phase, e: Event)
    requires PhaseStep(p, e) != Bad && AllUnderWay(pending, p)
    ensures AllUnderWay(PendingAfter(pending, e), PhaseStep(p, e))
  {
  }

  lemma StillUnderWay(pending: set<string>, p: Phase, e: Event)
    requires p != Bad ==> AllUnderWay(pending, p)
    ensures PhaseStep(p, e) != Bad ==> AllUnderWay(PendingAfter(pending, e), PhaseStep(p, e))
  {
    if PhaseStep(p, e) != Bad {
      PendingFollows(pending, p, e);
    }
  }

  lemma Snoc(events: seq<Event>, e: Event)
    ensures PhaseAfter(events + [e]) == PhaseStep(PhaseAfter(events), e)
    ensures EndedMessages(events + [e]) == EndedMessages(events) + if e.MessageEnd? then [e.message] else []
    ensures !e.MessageEnd? ==> EndedMessages(events + [e]) == EndedMessages(events)
  {
    assert (events + [e])[..|events + [e]| - 1] == events;
  }

  // ----- what a complete run looks like -----

  function CountTurnStarts(events: seq<Event>): nat {
    if events == [] then 0
    else CountTurnStarts(events[..|events| - 1]) + if events[|events| - 1].TurnStart? then 1 else 0
  }

  function CountTurnEnds(events: seq<Event>): nat {
    if events == [] then 0
    else CountTurnEnds(events[..|events| - 1]) + if events[|events| - 1].TurnEnd? then 1 else 0
  }

  lemma {:induction false} NotStarted(events: seq<Event>)
    requires PhaseAfter(events) != Bad
    ensures PhaseAfter(events).Idle? <==> events == []
    decreases |events|
  {
    if events != [] { NotStarted(events[..|events| - 1]); }
  }

  /** The grammar accepts only runs that start with the one `agent_start` ... */
  lemma {:induction false} OneStart(events: seq<Event>)
    requires PhaseAfter(events) != Bad
    ensures forall i :: 0 <= i < |events| ==> (events[i].AgentStart? <==> i == 0)
    decreases |events|
  {
    if events != [] {
      var init := events[..|events| - 1];
      OneStart(init);
      NotStarted(init);
      var last := events[|events| - 1];
      assert last.AgentStart? <==> |init| == 0;
      forall i | 0 <= i < |events| ensures events[i].AgentStart? <==> i == 0 {
        if i < |init| { assert events[i] == init[i]; }
      }
    }
  }

  /** ... and in which nothing follows the one `agent_end`. */
  lemma {:induction false} OneEnd(events: seq<Event>)
    requires PhaseAfter(events) != Bad
    ensures forall i :: 0 <= i < |events| && events[i].AgentEnd? ==> i == |events| - 1
    ensures PhaseAfter(events).Ended? <==> events != [] && events[|events| - 1].AgentEnd?
    decreases |events|
  {
    if events != [] {
      var init := events[..|events| - 1];
      OneEnd(init);
      assert forall i :: 0 <= i < |init| ==> events[i] == init[i];
    }
  }

  /** Turns alternate: at every moment as many have started as ended, or one more. */
  lemma {:induction false} TurnsAlternate(events: seq<Event>)
    requires PhaseAfter(events) != Bad
    ensures CountTurnStarts(events) == CountTurnEnds(events) + if PhaseAfter(events).Turn? then 1 else 0
    decreases |events|
  {
    if events != [] { TurnsAlternate(events[..|events| - 1]); }
  }

  function ToolStarts(events: seq<Event>): multiset<string> {
    if events == [] then multiset{}
    else
      var last := events[|events| - 1];
      ToolStarts(events[..|events| - 1]) + if last.ToolStart? then multiset{last.callId} else multiset{}
  }

  function ToolEnds(events: seq<Event>): multiset<string> {
    if events == [] then multiset{}
    else
      var last := events[|events| - 1];
      ToolEnds(events[..|events| - 1]) + if last.ToolEnd? then multiset{last.callId} else multiset{}
  }

  /** Every tool call that started has ended whenever no turn is open, call by call. */
  lemma {:induction false} ToolsBalance(events: seq<Event>)
    requires PhaseAfter(events) != Bad
    ensures ToolStarts(events) == ToolEnds(events) + UnderWay(PhaseAfter(events))
    decreases |events|
  {
    if events != [] {
      var init, last := events[..|events| - 1], events[|events| - 1];
      ToolsBalance(init);
      StepBalance(ToolStarts(init), ToolEnds(init), PhaseAfter(init), last);
    }
  }

  function UnderWay(p: Phase): multiset<string> {
    if p.Turn? then p.tools else multiset{}
  }

  lemma StepBalance(starts: multiset<string>, ends: multiset<string>, p: Phase, e: Event)
    requires starts == ends + UnderWay(p) && PhaseStep(p, e) != Bad
    ensures starts + (if e.ToolStart? then multiset{e.callId} else multiset{}) ==
            ends + (if e.ToolEnd? then multiset{e.callId} else multiset{}) + UnderWay(PhaseStep(p, e))
  {
  }

  /** A message is open from its start, with nothing but updates since. */
  predicate OpenSince(events: seq<Event>, start: nat) {
    && start < |events| && events[start].MessageStart?
    && forall k :: start < k < |events| ==> events[k].MessageUpdate?
  }

  lemma {:induction false} MessageOpen(events: seq<Event>) returns (start: nat)
    requires PhaseAfter(events).Turn? && PhaseAfter(events).open
    ensures OpenSince(events, start)
    decreases |events|
  {
    var init, last := events[..|events| - 1], events[|events| - 1];
    if last.MessageStart? {
      start := |init|;
    } else {
      start := MessageOpen(init);
      assert forall k :: 0 <= k < |init| ==> events[k] == init[k];
    }
  }

  lemma {:induction false} PrefixFine(events: seq<Event>, n: nat)
    requires PhaseAfter(events) != Bad && n <= |events|
    ensures PhaseAfter(events[..n]) != Bad
    decreases |events|
  {
    if n < |events| {
      PrefixFine(events[..|events| - 1], n);
      assert events[..|events| - 1][..n] == events[..n];
    } else {
      assert events[..n] == events;
    }
  }

  /** Messages do not nest: each end closes a start with only updates between them. */
  lemma MessagesPair(events: seq<Event>, end: nat) returns (start: nat)
    requires PhaseAfter(events) != Bad && end < |events| && events[end].MessageEnd?
    ensures start < end && events[start].MessageStart?
    ensures forall k :: start < k < end ==> events[k].MessageUpdate?
  {
    hide PhaseAfter, EndedMessages;
    var before := events[..end];
    PrefixFine(events, end + 1);
    assert events[..end + 1] == before + [events[end]];
    Snoc(before, events[end]);
    start := MessageOpen(before);
  }

  /** At a `turn_end` no tool call is under way: each start before it has its end before it. */
  lemma TurnEndsQuiet(events: seq<Event>, end: nat)
    requires PhaseAfter(events) != Bad && end < |events| && events[end].TurnEnd?
    ensures PhaseAfter(events[..end]) == QUIET && ToolStarts(events[..end]) == ToolEnds(events[..end])
  {
    hide PhaseAfter, EndedMessages, ToolStarts, ToolEnds;
    var before := events[..end];
    PrefixFine(events, end + 1);
    assert events[..end + 1] == before + [events[end]];
    Snoc(before, events[end]);
    ToolsBalance(before);
  }

  /** What a finished run looks like from outside. */
  lemma CompleteRun(events: seq<Event>)
    requires PhaseAfter(events).Ended?
    ensures |events| >= 2
    ensures forall i :: 0 <= i < |events| ==> (events[i].AgentStart? <==> i == 0)
    ensures forall i :: 0 <= i < |events| ==> (events[i].AgentEnd? <==> i == |events| - 1)
    ensures CountTurnStarts(events) == CountTurnEnds(events)
    ensures ToolStarts(events) == ToolEnds(events)
  {
    OneStart(events);
    OneEnd(events);
    TurnsAlternate(events);
    ToolsBalance(events);
  }

  // ----- the report of a failure -----

  function FailureReport(failure: Message): seq<Event> {
    [MessageStart(failure), MessageEnd(failure), TurnEnd(failure, []), AgentEnd([failure])]
  }

  function MessageStarts(events: seq<Event>): nat {
    if events == [] then 0
    else MessageStarts(events[..|events| - 1]) + if events[|events| - 1].MessageStart? then 1 else 0
  }

  function MessageEnds(events: seq<Event>): nat {
    if events == [] then 0
    else MessageEnds(events[..|events| - 1]) + if events[|events| - 1].MessageEnd? then 1 else 0
  }

  lemma {:induction false} MessagesBalance(events: seq<Event>)
    requires PhaseAfter(events) != Bad
    ensures var p := PhaseAfter(events);
      MessageStarts(events) == MessageEnds(events) + if p.Turn? && p.open then 1 else 0
    decreases |events|
  {
    if events != [] { MessagesBalance(events[..|events| - 1]); }
  }

  lemma CountSnoc(events: seq<Event>, e: Event)
    ensures MessageStarts(events + [e]) == MessageStarts(events) + if e.MessageStart? then 1 else 0
    ensures MessageEnds(events + [e]) == MessageEnds(events) + if e.MessageEnd? then 1 else 0
  {
    assert (events + [e])[..|events|] == events;
  }

  /** The report of a failure ends a run as the grammar wants exactly if no message was open and no tool call under
      way; and every message that started has its end exactly if none was open. */
  lemma FailureReportFits(events: seq<Event>, failure: Message)
    requires PhaseAfter(events).Turn?
    ensures var all := events + FailureReport(failure);
      && (PhaseAfter(all).Ended? <==> PhaseAfter(events) == QUIET)
      && MessageStarts(all) == MessageEnds(all) + if PhaseAfter(events).open then 1 else 0
  {
    hide PhaseAfter, MessageStarts, MessageEnds;
    var report := FailureReport(failure);
    MessagesBalance(events);
    var begun := events + [report[0]];
    var closed := begun + [report[1]];
    var left := closed + [report[2]];
    assert events + report == left + [report[3]];
    Snoc(events, report[0]);
    Snoc(begun, report[1]);
    Snoc(closed, report[2]);
    Snoc(left, report[3]);
    CountSnoc(events, report[0]);
    CountSnoc(begun, report[1]);
    CountSnoc(closed, report[2]);
    CountSnoc(left, report[3]);
  }

  // ----- who a message came from -----

  datatype Source = Prompt | Steering | FollowUp | Response

  /** The messages of one source, in order. */
  function From(messages: seq<Message>, sources: seq<Source>, s: Source): seq<Message>
    requires |messages| == |sources|
  {
    if messages == [] then []
    else
      var n := |messages| - 1;
      From(messages[..n], sources[..n], s) + if sources[n] == s then [messages[n]] else []
  }

  lemma FromSnoc(messages: seq<Message>, sources: seq<Source>, m: Message, t: Source, s: Source)
    requires |messages| == |sources|
    ensures From(messages + [m], sources + [t], s) == From(messages, sources, s) + if t == s then [m] else []
  {
    assert (messages + [m])[..|messages|] == messages && (sources + [t])[..|sources|] == sources;
  }

  function Tags(n: nat, s: Source): (r: seq<Source>)
    ensures |r| == n
  {
    seq(n, i => s)
  }

  lemma {:induction false} FromTagged(messages: seq<Message>, sources: seq<Source>, more: seq<Message>, t: Source,
                                      s: Source)
    requires |messages| == |sources|
    ensures From(messages + more, sources + Tags(|more|, t), s) ==
            From(messages, sources, s) + if t == s then more else []
    decreases |more|
  {
    if more == [] {
      assert messages + more == messages && sources + Tags(0, t) == sources;
    } else {
      var n := |more| - 1;
      FromTagged(messages, sources, more[..n], t, s);
      FromSnoc(messages + more[..n], sources + Tags(n, t), more[n], t, s);
      assert messages + more == messages + more[..n] + [more[n]];
      assert sources + Tags(|more|, t) == sources + Tags(n, t) + [t];
      assert more == more[..n] + [more[n]];
    }
  }

  /** What was drained from the queue of source `s` has been delivered, save what the loop holds. */
  predicate Accounted(drained: seq<Message>, ended: seq<Message>, sources: seq<Source>, s: Source,
                      held: seq<Message>, heldSource: Source)
  {
    && |ended| == |sources|
    && drained == From(ended, sources, s) + if heldSource == s then held else []
  }

  /** Delivering the held messages, and then anything that came from no queue, keeps the account. */
  lemma AccountDelivered(drained: seq<Message>, ended: seq<Message>, sources: seq<Source>, s: Source,
                         held: seq<Message>, heldSource: Source, more: seq<Message>, anySource: Source)
    requires Accounted(drained, ended, sources, s, held, heldSource) && s != Response
    ensures Accounted(drained, ended + held + more,
                      sources + Tags(|held|, heldSource) + Tags(|more|, Response), s, [], anySource)
  {
    FromTagged(ended, sources, held, heldSource, s);
    FromTagged(ended + held, sources + Tags(|held|, heldSource), more, Response, s);
  }

  // ----- turns -----

  /** One turn of the loop: what it injected, the response, and the tool results. */
  datatype TurnRecord = TurnRecord(id: nat, injected: seq<Message>, response: Message, results: seq<Message>,
                                   terminate: bool, wasAborted: bool)
  {
    predicate Failed() {
      response.Assistant? && (response.stop.Failed? || response.stop.Aborted?)
    }

    /** Tool results wait to be read by another response. */
    predicate Due() {
      response.Assistant? && response.calls != [] && !terminate
    }

    function Messages(): seq<Message> {
      injected + [response] + results
    }
  }

  function TurnMessages(turns: seq<TurnRecord>): seq<Message> {
    if turns == [] then []
    else TurnMessages(turns[..|turns| - 1]) + turns[|turns| - 1].Messages()
  }

  lemma TurnMessagesSnoc(prompts: seq<Message>, turns: seq<TurnRecord>, t: TurnRecord)
    ensures prompts + TurnMessages(turns + [t]) == prompts + TurnMessages(turns) + t.Messages()
  {
    assert (turns + [t])[..|turns|] == turns;
  }

  // ----- the polls of the queues -----

  datatype Poll = SteeringPoll(count: nat) | FollowUpPoll(toolsDue: bool, count: nat)

  /** A follow-up is asked for only right after a steering poll that gave nothing, with no tool turn due. */
  predicate FollowUpsLast(polls: seq<Poll>) {
    forall i :: 0 <= i < |polls| && polls[i].FollowUpPoll? ==>
      !polls[i].toolsDue && i > 0 && polls[i - 1] == SteeringPoll(0)
  }

  /** The polls stand so that a follow-up may be asked for next. */
  predicate SteeringDry(polls: seq<Poll>) {
    polls != [] && polls[|polls| - 1] == SteeringPoll(0)
  }

  // ----- the outside world -----

  datatype QueueMode = All | OneAtATime

  /** What callers may do at any `await`. */
  datatype Action =
    | Steer(message: Message)
    | QueueFollowUp(message: Message)
    | SetModes(steering: QueueMode, followUp: QueueMode)
    | Abort

  /** One provider response: its stream, and the final message. */
  datatype StreamEvent = Start(partial: Message) | Delta(partial: Message) | Done

  /** Whether a stream that is read up to its end, or to `Done`, starts a message. */
  predicate OpenedBy(events: seq<StreamEvent>) {
    events != [] && match events[0]
                    case Start(_) => true
                    case Delta(_) => OpenedBy(events[1..])
                    case Done => false
  }

  /** A stream that `breaks` throws where its final message should come. */
  datatype StreamResponse = StreamResponse(events: seq<StreamEvent>, result: Message, breaks: bool)
  {
    predicate Valid() {
      result.Assistant? && forall i, j :: 0 <= i < j < |events| && events[i].Start? ==> !events[j].Start?
    }
  }

  /** What one tool call does: fail validation, be blocked by the hook, or run and be post-processed. */
  datatype ToolBehaviour = ToolBehaviour(
    invalid: Option<string>, blocked: Option<string>, text: string, isError: bool, terminate: bool)

  /** A finished tool call. */
  datatype Finalized = Finalized(call: ToolCall, text: string, isError: bool, terminate: bool)

  function ErrorOutcome(call: ToolCall, text: string): Finalized {
    Finalized(call, text, true, false)
  }

  function ResultMessage(f: Finalized): Message {
    ToolResult(f.call.id, f.call.name, f.text, f.isError)
  }

  function Executed(call: ToolCall, b: ToolBehaviour): Finalized {
    Finalized(call, b.text, b.isError, b.terminate)
  }

  const ABORTED_TEXT := "Operation aborted"

  /** What a call comes to when nothing is aborted. */
  function Outcome(known: bool, call: ToolCall, b: ToolBehaviour): Finalized {
    if !known then ErrorOutcome(call, "Tool " + call.name + " not found")
    else if b.invalid.Some? then ErrorOutcome(call, b.invalid.value)
    else if b.blocked.Some? then ErrorOutcome(call, b.blocked.value)
    else Executed(call, b)
  }

  predicate ShouldTerminate(calls: seq<Finalized>) {
    calls != [] && forall i :: 0 <= i < |calls| ==> calls[i].terminate
  }

  function ResultMessages(calls: seq<Finalized>): (r: seq<Message>)
    ensures |r| == |calls|
  {
    seq(|calls|, i requires 0 <= i < |calls| => ResultMessage(calls[i]))
  }
}
