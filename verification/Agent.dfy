/** The agent: its transcript, its queues, and the loop that drives a run. */
module AgentLoop {
  import opened Options
  import opened AgentProtocol

  class PendingMessageQueue {
    var messages: seq<Message>
    var mode: QueueMode

    constructor (mode: QueueMode)
      ensures messages == [] && this.mode == mode
    {
      messages, this.mode := [], mode;
    }

    method Enqueue(message: Message)
      modifies this
      ensures messages == old(messages) + [message] && mode == old(mode)
    {
      messages := messages + [message];
    }

    method HasItems() returns (r: bool)
      ensures r <==> messages != []
    {
      r := |messages| > 0;
    }

    /** What is drained comes off the front; everything in mode `All`, else at most one message. */
    method Drain() returns (drained: seq<Message>)
      modifies this
      ensures drained + messages == old(messages) && mode == old(mode)
      ensures drained == [] <==> old(messages) == []
      ensures if mode == All then messages == [] else |drained| <= 1
    {
      if mode == All {
        drained := messages;
        messages := [];
        return;
      }
      if messages == [] {
        return [];
      }
      drained := [messages[0]];
      messages := messages[1..];
    }

    method Clear()
      modifies this
      ensures messages == [] && mode == old(mode)
    {
      messages := [];
    }
  }

  /** How the inner loop is left. */
  datatype LoopExit = ProviderFailed | RunEnded | Dry

  class Agent {
    const steeringQueue: PendingMessageQueue
    const followUpQueue: PendingMessageQueue
    // The outside world: provider, tools, hooks and callers.
    const responses: seq<StreamResponse>
    const tools: map<string, bool>
    const behaviour: (nat, nat) -> ToolBehaviour
    const sequentialConfig: bool
    const nextContext: nat -> Option<seq<Message>>
    const shouldStop: nat -> bool
    const schedule: nat -> seq<Action>

    var messages: seq<Message>
    var streamingMessage: Option<Message>
    var pendingToolCalls: set<string>
    var errorMessage: string
    var isStreaming: bool
    var activeRun: bool
    var aborted: bool
    var skipInitialSteeringPoll: bool
    /** The events of the current or last run, as the listeners got them. */
    var events: seq<Event>
    var served: nat
    var awaits: nat

    // The story of the run, kept for its specification.
    ghost var base: seq<Message>
    ghost var phase: Phase
    ghost var ended: seq<Message>
    ghost var sources: seq<Source>
    ghost var steered: seq<Message>
    ghost var steeringDrained: seq<Message>
    ghost var followedUp: seq<Message>
    ghost var followUpsDrained: seq<Message>
    ghost var polls: seq<Poll>

    constructor (initial: seq<Message>, steeringMode: QueueMode, followUpMode: QueueMode, sequentialConfig: bool,
                 responses: seq<StreamResponse>, tools: map<string, bool>, behaviour: (nat, nat) -> ToolBehaviour,
                 nextContext: nat -> Option<seq<Message>>, shouldStop: nat -> bool, schedule: nat -> seq<Action>)
      requires forall i :: 0 <= i < |responses| ==> responses[i].Valid()
      ensures Resting() && messages == initial && served == 0 && this.responses == responses
      ensures steeringQueue.messages == [] && followUpQueue.messages == []
      ensures fresh(steeringQueue) && fresh(followUpQueue)
    {
      steeringQueue := new PendingMessageQueue(steeringMode);
      followUpQueue := new PendingMessageQueue(followUpMode);
      this.responses, this.tools, this.behaviour := responses, tools, behaviour;
      this.sequentialConfig := sequentialConfig;
      this.nextContext, this.shouldStop, this.schedule := nextContext, shouldStop, schedule;
      messages, streamingMessage, pendingToolCalls, errorMessage := initial, None, {}, "";
      isStreaming, activeRun, aborted, skipInitialSteeringPoll := false, false, false, false;
      events, served, awaits := [], 0, 0;
      base, phase, ended, sources := initial, Idle, [], [];
      steered, steeringDrained, followedUp, followUpsDrained, polls := [], [], [], [], [];
    }

    /** The transcript and the calls under way are what the events so far make of them. */
    ghost predicate ReducerOk()
      reads this`phase, this`events, this`ended, this`sources, this`messages, this`base, this`pendingToolCalls
    {
      && phase == PhaseAfter(events) && ended == EndedMessages(events)
      && messages == base + ended && |sources| == |ended|
      && (phase != Bad ==> AllUnderWay(pendingToolCalls, phase))
    }

    /** What callers queued was drained or still waits, and follow-ups were polled last. */
    ghost predicate QueuesOk()
      reads this`activeRun, this`steered, this`steeringDrained, this`followedUp, this`followUpsDrained, this`polls
      reads steeringQueue, followUpQueue
    {
      && (activeRun ==> steered == steeringDrained + steeringQueue.messages)
      && (activeRun ==> followedUp == followUpsDrained + followUpQueue.messages)
      && FollowUpsLast(polls)
    }

    ghost predicate Valid()
      reads this, steeringQueue, followUpQueue
    {
      && steeringQueue != followUpQueue
      && (forall i :: 0 <= i < |responses| ==> responses[i].Valid())
      && served <= |responses|
      && ReducerOk() && QueuesOk()
    }

    /** What no step of a run touches except where it says so. */
    twostate predicate Kept()
      reads this, steeringQueue, followUpQueue
    {
      && base == old(base)
      && steeringDrained == old(steeringDrained) && followUpsDrained == old(followUpsDrained)
      && polls == old(polls) && activeRun == old(activeRun) && skipInitialSteeringPoll == old(skipInitialSteeringPoll)
      && (old(aborted) ==> aborted)
      && old(events) <= events && old(ended) <= ended
      && old(steered) <= steered && old(followedUp) <= followedUp
    }

    /** One thing a caller does from outside. */
    method Act(action: Action)
      requires Valid()
      modifies this`aborted, this`steered, this`followedUp, steeringQueue, followUpQueue
      ensures Valid() && Kept() && served == old(served)
    {
      hide PhaseAfter, EndedMessages, FollowUpsLast;
      match action {
        case Steer(m) =>
          steeringQueue.Enqueue(m);
          steered := steered + [m];
        case QueueFollowUp(m) =>
          followUpQueue.Enqueue(m);
          followedUp := followedUp + [m];
        case SetModes(s, f) =>
          steeringQueue.mode := s;
          followUpQueue.mode := f;
        case Abort =>
          aborted := true;
      }
    }

    /** Callers act while the run waits. */
    method Await()
      requires Valid()
      modifies this`aborted, this`awaits, this`steered, this`followedUp, steeringQueue, followUpQueue
      ensures Valid() && Kept()
    {
      hide PhaseAfter, EndedMessages, FollowUpsLast;
      var actions := schedule(awaits);
      awaits := awaits + 1;
      for i := 0 to |actions|
        invariant Valid() && Kept()
      {
        Act(actions[i]);
      }
    }

    /** The state change of one event. */
    method Reduce(e: Event)
      modifies this`streamingMessage, this`messages, this`pendingToolCalls, this`errorMessage
      ensures messages == old(messages) + (if e.MessageEnd? then [e.message] else [])
      ensures pendingToolCalls == PendingAfter(old(pendingToolCalls), e)
      ensures streamingMessage ==
              if e.MessageStart? || e.MessageUpdate? then Some(e.message)
              else if e.MessageEnd? || e.AgentEnd? then None
              else old(streamingMessage)
    {
      match e {
        case MessageStart(m) => streamingMessage := Some(m);
        case MessageUpdate(m) => streamingMessage := Some(m);
        case MessageEnd(m) =>
          streamingMessage := None;
          messages := messages + [m];
        case ToolStart(id, _) => pendingToolCalls := pendingToolCalls + {id};
        case ToolEnd(id, _, _) => pendingToolCalls := pendingToolCalls - {id};
        case TurnEnd(m, _) =>
          if m.Assistant? && m.errorMessage != "" {
            errorMessage := m.errorMessage;
          }
        case AgentEnd(_) => streamingMessage := None;
        case _ =>
      }
    }

    /** Reduce an event and note it. */
    method Record(e: Event, ghost source: Source)
      requires Valid()
      modifies this`streamingMessage, this`messages, this`pendingToolCalls, this`errorMessage
      modifies this`events, this`phase, this`ended, this`sources
      ensures Valid()
      ensures events == old(events) + [e] && phase == PhaseStep(old(phase), e)
      ensures ended == old(ended) + (if e.MessageEnd? then [e.message] else [])
      ensures sources == old(sources) + (if e.MessageEnd? then [source] else [])
      ensures !e.MessageEnd? ==> ended == old(ended) && sources == old(sources)
    {
      hide PhaseAfter, EndedMessages, QueuesOk, PhaseStep, AllUnderWay, PendingAfter;
      Snoc(events, e);
      StillUnderWay(pendingToolCalls, phase, e);
      Reduce(e);
      events := events + [e];
      phase := PhaseStep(phase, e);
      if e.MessageEnd? {
        ended := ended + [e.message];
        sources := sources + [source];
      }
      assert messages == base + ended && ended == EndedMessages(events);
    }

    /** `processEvents`: reduce the state, then let the listeners run. */
    method Emit(e: Event, ghost source: Source := Response)
      requires Valid()
      modifies this, steeringQueue, followUpQueue
      ensures Valid() && Kept()
      ensures events == old(events) + [e] && phase == PhaseStep(old(phase), e)
      ensures ended == old(ended) + (if e.MessageEnd? then [e.message] else [])
      ensures sources == old(sources) + (if e.MessageEnd? then [source] else [])
      ensures served == old(served)
      ensures !e.MessageEnd? ==> ended == old(ended) && sources == old(sources)
      ensures phase.Between? ==> pendingToolCalls == {}
    {
      hide PhaseAfter, EndedMessages, FollowUpsLast, PhaseStep;
      Record(e, source);
      Await();
    }

    // ----- one assistant response -----

    /** The last response served since `was` broke. */
    predicate LastBroke(was: nat)
      reads this`served
    {
      was < served <= |responses| && responses[served - 1].breaks
    }

    /** The provider failed: it had no response left, or its last response since `was` broke, with its message open
        or not. */
    ghost predicate Stranded(was: nat)
      reads this`served, this`phase
    {
      && was <= served <= |responses| && (LastBroke(was) || served == |responses|)
      && phase == QUIET.(open := LastBroke(was) && OpenedBy(responses[served - 1].events))
    }

    /** Stream the next response into the loop's context. With no response left the provider fails. */
    method StreamAssistantResponse(context: seq<Message>)
      returns (result: Option<Message>, newContext: seq<Message>)
      requires Valid() && phase == QUIET
      modifies this, steeringQueue, followUpQueue
      ensures Valid() && Kept()
      ensures result.None? <==> old(served) == |responses| || responses[old(served)].breaks
      ensures result.None? ==> Stranded(old(served)) && ended == old(ended) && sources == old(sources)
      ensures result.Some? ==>
        && phase == QUIET && old(served) < |responses| && served == old(served) + 1
        && result.value == responses[old(served)].result && result.value.Assistant?
        && newContext == context + [result.value]
        && ended == old(ended) + [result.value] && sources == old(sources) + [Response]
    {
      hide PhaseAfter, EndedMessages, FollowUpsLast;
      Await();
      if served == |responses| {
        return None, context;
      }
      var response := responses[served];
      served := served + 1;
      newContext := FollowStream(context, response);
      result := if response.breaks then None else Some(response.result);
    }

    /** Mirror a stream: its partial message is the last of the context until the final one replaces it. */
    method FollowStream(context: seq<Message>, response: StreamResponse) returns (newContext: seq<Message>)
      requires Valid() && phase == QUIET && response.Valid()
      modifies this, steeringQueue, followUpQueue
      ensures Valid() && Kept() && served == old(served)
      ensures response.breaks ==>
        phase == QUIET.(open := OpenedBy(response.events)) && ended == old(ended) && sources == old(sources)
      ensures !response.breaks ==>
        && phase == QUIET && newContext == context + [response.result]
        && ended == old(ended) + [response.result] && sources == old(sources) + [Response]
    {
      hide Valid;
      newContext := context;
      var partialMessage: Option<Message> := None;
      var addedPartial := false;
      var i := 0;
      while i < |response.events|
        invariant 0 <= i <= |response.events|
        invariant Valid() && Kept() && served == old(served)
        invariant phase == QUIET.(open := addedPartial)
        invariant ended == old(ended) && sources == old(sources)
        invariant addedPartial <==> partialMessage.Some?
        invariant addedPartial <==> exists k :: 0 <= k < i && response.events[k].Start?
        invariant OpenedBy(response.events) <==> addedPartial || OpenedBy(response.events[i..])
        invariant |newContext| == |context| + if addedPartial then 1 else 0
        invariant newContext[..|context|] == context
      {
        assert response.events[i..][1..] == response.events[i + 1..];
        match response.events[i] {
          case Start(partial) =>
            assert !addedPartial;
            partialMessage := Some(partial);
            newContext := newContext + [partial];
            addedPartial := true;
            Emit(MessageStart(partial));
          case Delta(partial) =>
            if partialMessage.Some? {
              partialMessage := Some(partial);
              newContext := newContext[|newContext| - 1 := partial];
              Emit(MessageUpdate(partial));
            }
          case Done =>
            break;
        }
        i := i + 1;
      }
      if response.breaks {
        return;
      }
      if addedPartial {
        newContext := newContext[|newContext| - 1 := response.result];
      } else {
        newContext := newContext + [response.result];
        Emit(MessageStart(response.result));
      }
      Emit(MessageEnd(response.result), Response);
    }

    // ----- tool calls -----

    function OutcomeOf(calls: seq<ToolCall>, turn: nat, i: nat): Finalized
      requires i < |calls|
    {
      Outcome(calls[i].name in tools, calls[i], behaviour(turn, i))
    }

    /** The tool is known, its arguments are valid, and the hook lets the call pass. */
    predicate Executes(call: ToolCall, b: ToolBehaviour) {
      call.name in tools && b.invalid.None? && b.blocked.None?
    }

    /** What the message of a call says when nothing is aborted: what the tool gave, or why it was not run. */
    predicate Tells(call: ToolCall, b: ToolBehaviour, m: Message) {
      && m.ToolResult? && m.callId == call.id && m.toolName == call.name
      && (Executes(call, b) ==> m.text == b.text && m.isError == b.isError)
      && (!Executes(call, b) ==>
            m.isError && m.text == if call.name !in tools then "Tool " + call.name + " not found"
                                   else if b.invalid.Some? then b.invalid.value
                                   else b.blocked.value)
    }

    predicate TellsAbort(call: ToolCall, m: Message) {
      m == ToolResult(call.id, call.name, ABORTED_TEXT, true)
    }

    /** The contract of a tool batch: messages for a non-empty beginning of the calls, in their order, each telling
        what its call came to or, after an abort, that it was aborted. It ends the run only if all those calls were
        executed and want that. Without an abort there are messages for all calls, each telling what its call came
        to, and the batch ends the run if and only if every call was executed and wants that. */
    predicate IsBatch(calls: seq<ToolCall>, turn: nat, results: seq<Message>, terminate: bool, wasAborted: bool) {
      && 1 <= |results| <= |calls|
      && (forall i :: 0 <= i < |results| ==>
            Tells(calls[i], behaviour(turn, i), results[i]) || (wasAborted && TellsAbort(calls[i], results[i])))
      && (terminate ==> forall i :: 0 <= i < |results| ==>
            Executes(calls[i], behaviour(turn, i)) && behaviour(turn, i).terminate)
      && (!wasAborted ==>
            && |results| == |calls|
            && (terminate <==> forall i :: 0 <= i < |calls| ==>
                  Executes(calls[i], behaviour(turn, i)) && behaviour(turn, i).terminate))
    }

    /** What one call of a batch came to: its own outcome, or the abort. */
    predicate FinalOk(calls: seq<ToolCall>, turn: nat, i: nat, f: Finalized, wasAborted: bool)
      requires i < |calls|
    {
      f == OutcomeOf(calls, turn, i) || (wasAborted && f == ErrorOutcome(calls[i], ABORTED_TEXT))
    }

    lemma FinalTells(calls: seq<ToolCall>, turn: nat, i: nat, f: Finalized, wasAborted: bool)
      requires i < |calls| && FinalOk(calls, turn, i, f, wasAborted)
      ensures Tells(calls[i], behaviour(turn, i), ResultMessage(f)) ||
              (wasAborted && TellsAbort(calls[i], ResultMessage(f)))
      ensures f.terminate ==> Executes(calls[i], behaviour(turn, i)) && behaviour(turn, i).terminate
      ensures !wasAborted && Executes(calls[i], behaviour(turn, i)) && behaviour(turn, i).terminate ==> f.terminate
    {
    }

    lemma BatchDone(calls: seq<ToolCall>, turn: nat, finalized: seq<Finalized>, wasAborted: bool)
      requires 1 <= |finalized| <= |calls| && (!wasAborted ==> |finalized| == |calls|)
      requires forall i :: 0 <= i < |finalized| ==> FinalOk(calls, turn, i, finalized[i], wasAborted)
      ensures IsBatch(calls, turn, ResultMessages(finalized), ShouldTerminate(finalized), wasAborted)
    {
      hide FinalOk, Tells, TellsAbort, Executes;
      forall i | 0 <= i < |finalized|
        ensures Tells(calls[i], behaviour(turn, i), ResultMessage(finalized[i])) ||
                (wasAborted && TellsAbort(calls[i], ResultMessage(finalized[i])))
        ensures finalized[i].terminate ==> Executes(calls[i], behaviour(turn, i)) && behaviour(turn, i).terminate
        ensures !wasAborted && Executes(calls[i], behaviour(turn, i)) && behaviour(turn, i).terminate ==>
                  finalized[i].terminate
      {
        FinalTells(calls, turn, i, finalized[i], wasAborted);
      }
    }

    /** Look the tool up, validate, ask the hook. `None` means the call is to be executed. */
    method PrepareToolCall(call: ToolCall, b: ToolBehaviour) returns (immediate: Option<Finalized>)
      requires Valid()
      modifies this`aborted, this`awaits, this`steered, this`followedUp, steeringQueue, followUpQueue
      ensures Valid() && Kept()
      ensures immediate.Some? ==>
        || immediate.value == Outcome(call.name in tools, call, b)
        || (aborted && immediate.value == ErrorOutcome(call, ABORTED_TEXT))
      ensures immediate.None? ==> Outcome(call.name in tools, call, b) == Executed(call, b)
    {
      hide Valid;
      if call.name !in tools {
        return Some(ErrorOutcome(call, "Tool " + call.name + " not found"));
      }
      if b.invalid.Some? {
        return Some(ErrorOutcome(call, b.invalid.value));
      }
      Await();
      if aborted {
        return Some(ErrorOutcome(call, ABORTED_TEXT));
      }
      if b.blocked.Some? {
        return Some(ErrorOutcome(call, b.blocked.value));
      }
      return None;
    }

    /** Run the tool and its post-processing hook. */
    method ExecutePrepared(call: ToolCall, b: ToolBehaviour) returns (f: Finalized)
      requires Valid()
      modifies this`aborted, this`awaits, this`steered, this`followedUp, steeringQueue, followUpQueue
      ensures Valid() && Kept()
      ensures f == Executed(call, b)
    {
      hide Valid;
      Await();
      Await();
      f := Executed(call, b);
    }

    method EmitToolResult(f: Finalized)
      requires Valid() && phase == QUIET
      modifies this, steeringQueue, followUpQueue
      ensures Valid() && Kept() && phase == QUIET && served == old(served)
      ensures ended == old(ended) + [ResultMessage(f)] && sources == old(sources) + [Response]
    {
      hide Valid;
      Emit(MessageStart(ResultMessage(f)));
      Emit(MessageEnd(ResultMessage(f)), Response);
    }

    /** One call of the sequential batch, from its start event to its result message. */
    method RunToolCall(call: ToolCall, b: ToolBehaviour) returns (f: Finalized)
      requires Valid() && phase == QUIET
      modifies this, steeringQueue, followUpQueue
      ensures Valid() && Kept() && phase == QUIET && served == old(served)
      ensures f == Outcome(call.name in tools, call, b) || (aborted && f == ErrorOutcome(call, ABORTED_TEXT))
      ensures ended == old(ended) + [ResultMessage(f)] && sources == old(sources) + [Response]
    {
      hide Valid, Outcome;
      Emit(ToolStart(call.id, call.name));
      var preparation := PrepareToolCall(call, b);
      if preparation.Some? {
        f := preparation.value;
      } else {
        f := ExecutePrepared(call, b);
      }
      Emit(ToolEnd(call.id, call.name, f.isError));
      assert multiset{} + multiset{call.id} - multiset{call.id} == multiset{};
      EmitToolResult(f);
    }

    method ExecuteToolCallsSequential(calls: seq<ToolCall>, turn: nat) returns (results: seq<Message>, terminate: bool)
      requires Valid() && phase == QUIET && calls != []
      modifies this, steeringQueue, followUpQueue
      ensures Valid() && Kept() && phase == QUIET && served == old(served)
      ensures IsBatch(calls, turn, results, terminate, aborted)
      ensures ended == old(ended) + results && sources == old(sources) + Tags(|results|, Response)
    {
      hide Valid, Outcome;
      var finalizedCalls: seq<Finalized> := [];
      results := [];
      var i := 0;
      while i < |calls|
        invariant 0 <= i <= |calls| && |finalizedCalls| == i
        invariant Valid() && Kept() && phase == QUIET && served == old(served)
        invariant results == ResultMessages(finalizedCalls)
        invariant forall k :: 0 <= k < i ==> FinalOk(calls, turn, k, finalizedCalls[k], aborted)
        invariant ended == old(ended) + results && sources == old(sources) + Tags(i, Response)
      {
        var finalized := RunToolCall(calls[i], behaviour(turn, i));
        finalizedCalls := finalizedCalls + [finalized];
        results := results + [ResultMessage(finalized)];
        i := i + 1;
        if aborted {
          break;
        }
      }
      BatchDone(calls, turn, finalizedCalls, aborted);
      terminate := ShouldTerminate(finalizedCalls);
    }

    // ----- tool calls at the same time -----

    /** The ids of the calls that are still to finish. */
    function Unfinished(calls: seq<ToolCall>, entries: seq<Option<Finalized>>): multiset<string>
      requires |entries| <= |calls|
      decreases |entries|
    {
      if entries == [] then multiset{}
      else
        var n := |entries| - 1;
        Unfinished(calls, entries[..n]) + if entries[n].None? then multiset{calls[n].id} else multiset{}
    }

    lemma {:induction false} FinishOne(calls: seq<ToolCall>, entries: seq<Option<Finalized>>, i: nat)
      requires |entries| <= |calls| && i < |entries| && entries[i].None?
      ensures calls[i].id in Unfinished(calls, entries)
      decreases |entries|
    {
      var n := |entries| - 1;
      if i < n { FinishOne(calls, entries[..n], i); }
    }

    static lemma LessOfSum(ids: multiset<string>, id: string, more: multiset<string>)
      requires id in ids
      ensures ids + more - multiset{id} == ids - multiset{id} + more
    {
    }

    lemma {:induction false} UnfinishedUpdate(calls: seq<ToolCall>, entries: seq<Option<Finalized>>, i: nat,
                                              f: Finalized)
      requires |entries| <= |calls| && i < |entries| && entries[i].None?
      ensures Unfinished(calls, entries[i := Some(f)]) == Unfinished(calls, entries) - multiset{calls[i].id}
      decreases |entries|
    {
      hide Unfinished;
      var n := |entries| - 1;
      var init := entries[..n];
      assert entries == init + [entries[n]];
      UnfinishedSnoc(calls, init, entries[n]);
      if i == n {
        assert entries[i := Some(f)] == init + [Some(f)];
        UnfinishedSnoc(calls, init, Some(f));
      } else {
        UnfinishedUpdate(calls, init, i, f);
        FinishOne(calls, init, i);
        assert entries[i := Some(f)] == init[i := Some(f)] + [entries[n]];
        UnfinishedSnoc(calls, init[i := Some(f)], entries[n]);
        LessOfSum(Unfinished(calls, init), calls[i].id, if entries[n].None? then multiset{calls[n].id} else multiset{});
      }
    }

    lemma {:induction false} AllFinished(calls: seq<ToolCall>, entries: seq<Option<Finalized>>)
      requires |entries| <= |calls| && forall i :: 0 <= i < |entries| ==> entries[i].Some?
      ensures Unfinished(calls, entries) == multiset{}
      decreases |entries|
    {
      if entries != [] { AllFinished(calls, entries[..|entries| - 1]); }
    }

    /** The entry of one call: left open, it will have the call's own outcome; filled in, it has it unless
        there was an abort. */
    static predicate EntryOk(call: ToolCall, outcome: Finalized, b: ToolBehaviour, entry: Option<Finalized>,
                             wasAborted: bool)
    {
      match entry
      case None => outcome == Executed(call, b)
      case Some(f) => f == outcome || (wasAborted && f == ErrorOutcome(call, ABORTED_TEXT))
    }

    predicate EntriesOk(calls: seq<ToolCall>, turn: nat, entries: seq<Option<Finalized>>, wasAborted: bool) {
      && |entries| <= |calls|
      && forall i :: 0 <= i < |entries| ==>
           EntryOk(calls[i], OutcomeOf(calls, turn, i), behaviour(turn, i), entries[i], wasAborted)
    }

    /** Start one call; it may come to an end at once. */
    method StartToolCall(call: ToolCall, b: ToolBehaviour) returns (entry: Option<Finalized>)
      requires Valid() && phase.Turn? && !phase.open
      modifies this, steeringQueue, followUpQueue
      ensures Valid() && Kept() && served == old(served) && ended == old(ended) && sources == old(sources)
      ensures phase == old(phase).(tools := old(phase).tools + if entry.None? then multiset{call.id} else multiset{})
      ensures EntryOk(call, Outcome(call.name in tools, call, b), b, entry, aborted)
    {
      hide Valid, Outcome;
      ghost var running := phase.tools;
      Emit(ToolStart(call.id, call.name));
      entry := PrepareToolCall(call, b);
      if entry.Some? {
        Emit(ToolEnd(call.id, call.name, entry.value.isError));
        assert running + multiset{call.id} - multiset{call.id} == running;
      }
    }

    /** One started call runs to its end. */
    method FinishToolCall(call: ToolCall, b: ToolBehaviour) returns (f: Finalized)
      requires Valid() && phase.Turn? && !phase.open && call.id in phase.tools
      modifies this, steeringQueue, followUpQueue
      ensures Valid() && Kept() && served == old(served) && ended == old(ended) && sources == old(sources)
      ensures phase == old(phase).(tools := old(phase).tools - multiset{call.id})
      ensures f == Executed(call, b)
    {
      hide Valid;
      f := ExecutePrepared(call, b);
      Emit(ToolEnd(call.id, call.name, f.isError));
    }

    /** Start the calls in order; those that come to an end at once are finished on the spot. */
    method StartToolCalls(calls: seq<ToolCall>, turn: nat) returns (entries: seq<Option<Finalized>>)
      requires Valid() && phase == QUIET && calls != []
      modifies this, steeringQueue, followUpQueue
      ensures Valid() && Kept() && served == old(served) && ended == old(ended) && sources == old(sources)
      ensures 1 <= |entries| <= |calls| && (!aborted ==> |entries| == |calls|)
      ensures phase == QUIET.(tools := Unfinished(calls, entries))
      ensures EntriesOk(calls, turn, entries, aborted)
    {
      hide Valid, EntryOk, Unfinished, Outcome;
      entries := [];
      UnfinishedNone(calls);
      while |entries| < |calls|
        invariant |entries| <= |calls|
        invariant Valid() && Kept() && served == old(served) && ended == old(ended) && sources == old(sources)
        invariant phase == QUIET.(tools := Unfinished(calls, entries))
        invariant EntriesOk(calls, turn, entries, aborted)
        decreases |calls| - |entries|
      {
        var i := |entries|;
        ghost var was, wasAborted := entries, aborted;
        var entry := StartToolCall(calls[i], behaviour(turn, i));
        entries := entries + [entry];
        UnfinishedSnoc(calls, was, entry);
        EntriesSnoc(calls, turn, was, entry, wasAborted, aborted);
        if aborted {
          break;
        }
      }
    }

    lemma UnfinishedNone(calls: seq<ToolCall>)
      ensures Unfinished(calls, []) == multiset{}
    {
    }

    lemma UnfinishedSnoc(calls: seq<ToolCall>, entries: seq<Option<Finalized>>, entry: Option<Finalized>)
      requires |entries| < |calls|
      ensures Unfinished(calls, entries + [entry]) ==
              Unfinished(calls, entries) + if entry.None? then multiset{calls[|entries|].id} else multiset{}
    {
      assert (entries + [entry])[..|entries|] == entries;
    }

    lemma EntriesSnoc(calls: seq<ToolCall>, turn: nat, entries: seq<Option<Finalized>>, entry: Option<Finalized>,
                      before: bool, after: bool)
      requires |entries| < |calls| && EntriesOk(calls, turn, entries, before) && (before ==> after)
      requires var i := |entries|;
        EntryOk(calls[i], OutcomeOf(calls, turn, i), behaviour(turn, i), entry, after)
      ensures EntriesOk(calls, turn, entries + [entry], after)
    {
    }

    lemma EntriesUpdate(calls: seq<ToolCall>, turn: nat, entries: seq<Option<Finalized>>, i: nat,
                        before: bool, after: bool)
      requires EntriesOk(calls, turn, entries, before) && (before ==> after)
      requires i < |entries| && entries[i].None?
      ensures EntriesOk(calls, turn, entries[i := Some(Executed(calls[i], behaviour(turn, i)))], after)
    {
    }

    /** Let the started calls finish in any order. */
    method FinishToolCalls(calls: seq<ToolCall>, turn: nat, started: seq<Option<Finalized>>)
      returns (entries: seq<Option<Finalized>>)
      requires Valid() && |started| <= |calls| && phase == QUIET.(tools := Unfinished(calls, started))
      requires EntriesOk(calls, turn, started, aborted)
      modifies this, steeringQueue, followUpQueue
      ensures Valid() && Kept() && served == old(served) && ended == old(ended) && sources == old(sources)
      ensures phase == QUIET && |entries| == |started| && forall i :: 0 <= i < |entries| ==> entries[i].Some?
      ensures EntriesOk(calls, turn, entries, aborted)
    {
      hide Valid, EntriesOk, Unfinished, Outcome, Executed;
      entries := started;
      var running := set i | 0 <= i < |started| && started[i].None?;
      while running != {}
        invariant |entries| == |started|
        invariant running == set i | 0 <= i < |started| && entries[i].None?
        invariant Valid() && Kept() && served == old(served) && ended == old(ended) && sources == old(sources)
        invariant phase == QUIET.(tools := Unfinished(calls, entries))
        invariant EntriesOk(calls, turn, entries, aborted)
        decreases running
      {
        var i :| i in running;
        ghost var wasAborted := aborted;
        FinishOne(calls, entries, i);
        var f := FinishToolCall(calls[i], behaviour(turn, i));
        EntriesUpdate(calls, turn, entries, i, wasAborted, aborted);
        UnfinishedUpdate(calls, entries, i, f);
        entries := entries[i := Some(f)];
        running := running - {i};
      }
      forall i | 0 <= i < |entries| ensures entries[i].Some? {
        assert i !in running;
      }
      AllFinished(calls, entries);
    }

    lemma Collected(calls: seq<ToolCall>, turn: nat, entries: seq<Option<Finalized>>, finalized: seq<Finalized>,
                    wasAborted: bool)
      requires EntriesOk(calls, turn, entries, wasAborted) && |finalized| == |entries|
      requires forall i :: 0 <= i < |entries| ==> entries[i] == Some(finalized[i])
      ensures forall i :: 0 <= i < |finalized| ==> FinalOk(calls, turn, i, finalized[i], wasAborted)
    {
    }

    method ExecuteToolCallsParallel(calls: seq<ToolCall>, turn: nat) returns (results: seq<Message>, terminate: bool)
      requires Valid() && phase == QUIET && calls != []
      modifies this, steeringQueue, followUpQueue
      ensures Valid() && Kept() && phase == QUIET && served == old(served)
      ensures IsBatch(calls, turn, results, terminate, aborted)
      ensures ended == old(ended) + results && sources == old(sources) + Tags(|results|, Response)
    {
      hide Valid, EntriesOk, Outcome;
      var entries := StartToolCalls(calls, turn);
      entries := FinishToolCalls(calls, turn, entries);
      var finalizedCalls := seq(|entries|, i requires 0 <= i < |entries| => entries[i].value);
      Collected(calls, turn, entries, finalizedCalls, aborted);
      ghost var wasAborted := aborted;
      results := [];
      var i := 0;
      while i < |finalizedCalls|
        invariant 0 <= i <= |finalizedCalls|
        invariant Valid() && Kept() && phase == QUIET && served == old(served)
        invariant wasAborted ==> aborted
        invariant results == ResultMessages(finalizedCalls)[..i]
        invariant ended == old(ended) + results && sources == old(sources) + Tags(i, Response)
      {
        EmitToolResult(finalizedCalls[i]);
        results := results + [ResultMessage(finalizedCalls[i])];
        i := i + 1;
      }
      BatchDone(calls, turn, finalizedCalls, aborted);
      terminate := ShouldTerminate(finalizedCalls);
    }

    /** One sequential tool among the calls makes the whole batch sequential. */
    method ExecuteToolCalls(calls: seq<ToolCall>, turn: nat) returns (results: seq<Message>, terminate: bool)
      requires Valid() && phase == QUIET && calls != []
      modifies this, steeringQueue, followUpQueue
      ensures Valid() && Kept() && phase == QUIET && served == old(served)
      ensures IsBatch(calls, turn, results, terminate, aborted)
      ensures ended == old(ended) + results && sources == old(sources) + Tags(|results|, Response)
    {
      var hasSequentialToolCall := exists i :: 0 <= i < |calls| && calls[i].name in tools && tools[calls[i].name];
      if sequentialConfig || hasSequentialToolCall {
        results, terminate := ExecuteToolCallsSequential(calls, turn);
      } else {
        results, terminate := ExecuteToolCallsParallel(calls, turn);
      }
    }

    // ----- turns -----

    ghost predicate TurnOk(t: TurnRecord) {
      && t.id < |responses| && !responses[t.id].breaks
      && t.response == responses[t.id].result && t.response.Assistant?
      && if t.Failed() || t.response.calls == [] then t.results == []
         else IsBatch(t.response.calls, t.id, t.results, t.terminate, t.wasAborted)
    }

    /** Why a turn follows another: tool results to read, or messages to inject. */
    ghost predicate Follows(t: TurnRecord, next: TurnRecord) {
      !t.Failed() && !shouldStop(t.id) && (t.Due() || next.injected != [])
    }

    ghost predicate TurnsOk(turns: seq<TurnRecord>) {
      && (forall k :: 0 <= k < |turns| ==> TurnOk(turns[k]))
      && forall k :: 0 < k < |turns| ==> Follows(turns[k - 1], turns[k])
    }

    /** Emit messages that came from outside the loop. */
    method DeliverMessages(pending: seq<Message>, ghost source: Source)
      requires Valid() && phase == QUIET
      modifies this, steeringQueue, followUpQueue
      ensures Valid() && Kept() && phase == QUIET && served == old(served)
      ensures ended == old(ended) + pending && sources == old(sources) + Tags(|pending|, source)
    {
      hide Valid;
      for i := 0 to |pending|
        invariant Valid() && Kept() && phase == QUIET && served == old(served)
        invariant ended == old(ended) + pending[..i] && sources == old(sources) + Tags(i, source)
      {
        Emit(MessageStart(pending[i]));
        Emit(MessageEnd(pending[i]), source);
      }
    }

    /** The tools that a response asks for; none after a failed response. */
    method RunTools(response: Message, turn: nat, context: seq<Message>)
      returns (toolResults: seq<Message>, terminate: bool, newContext: seq<Message>)
      requires Valid() && phase == QUIET && response.Assistant?
      modifies this, steeringQueue, followUpQueue
      ensures Valid() && Kept() && phase == QUIET && served == old(served)
      ensures newContext == context + toolResults
      ensures if response.stop.Failed? || response.stop.Aborted? || response.calls == []
              then toolResults == [] else IsBatch(response.calls, turn, toolResults, terminate, aborted)
      ensures ended == old(ended) + toolResults && sources == old(sources) + Tags(|toolResults|, Response)
    {
      hide Valid, IsBatch;
      var toolCalls := response.calls;
      toolResults, terminate, newContext := [], false, context;
      var failed := response.stop.Failed? || response.stop.Aborted?;
      if !failed && |toolCalls| > 0 {
        toolResults, terminate := ExecuteToolCalls(toolCalls, turn);
        newContext := newContext + toolResults;
      }
    }

    /** The body of the inner loop up to `turn_end`. `None` means the provider failed. */
    method RunTurn(pending: seq<Message>, ghost source: Source, context: seq<Message>)
      returns (record: Option<TurnRecord>, newContext: seq<Message>)
      requires Valid() && phase == QUIET
      modifies this, steeringQueue, followUpQueue
      ensures Valid() && Kept()
      ensures record.None? <==> old(served) == |responses| || responses[old(served)].breaks
      ensures record.None? ==>
        && Stranded(old(served))
        && ended == old(ended) + pending && sources == old(sources) + Tags(|pending|, source)
      ensures record.Some? ==>
        var t := record.value;
        && phase == Between && served == old(served) + 1
        && t.id == old(served) < |responses| && t.injected == pending && t.response.Assistant?
        && TurnOk(t) && (t.wasAborted ==> aborted) && pendingToolCalls == {}
        && newContext == context + t.Messages()
        && ended == old(ended) + pending + ([t.response] + t.results)
        && sources == old(sources) + Tags(|pending|, source) + Tags(1 + |t.results|, Response)
        && events != [] && events[|events| - 1] == TurnEnd(t.response, t.results)
    {
      hide Valid, IsBatch;
      newContext := context + pending;
      DeliverMessages(pending, source);
      var message;
      message, newContext := StreamAssistantResponse(newContext);
      if message.None? {
        return None, newContext;
      }
      var toolResults, terminate;
      toolResults, terminate, newContext := RunTools(message.value, served - 1, newContext);
      record := Some(TurnRecord(served - 1, pending, message.value, toolResults, terminate, aborted));
      Emit(TurnEnd(message.value, toolResults));
    }

    // ----- the loop -----

    /** `getSteeringMessages`: the first poll of a run may be skipped. */
    method PollSteering() returns (pending: seq<Message>)
      requires Valid()
      modifies this, steeringQueue, followUpQueue
      ensures Valid() && served == old(served) && phase == old(phase)
      ensures ended == old(ended) && sources == old(sources) && events == old(events) && base == old(base)
      ensures activeRun == old(activeRun)
      ensures old(steered) <= steered && old(followedUp) <= followedUp
      ensures followUpsDrained == old(followUpsDrained) && steeringDrained == old(steeringDrained) + pending
      ensures if old(skipInitialSteeringPoll) then pending == [] && polls == old(polls)
              else polls == old(polls) + [SteeringPoll(|pending|)]
      ensures !skipInitialSteeringPoll
    {
      hide PhaseAfter, EndedMessages;
      if skipInitialSteeringPoll {
        skipInitialSteeringPoll := false;
        pending := [];
      } else {
        pending := steeringQueue.Drain();
        steeringDrained := steeringDrained + pending;
        polls := polls + [SteeringPoll(|pending|)];
      }
      Await();
    }

    /** `getFollowUpMessages`. */
    method PollFollowUps(ghost toolsDue: bool) returns (pending: seq<Message>)
      requires Valid() && !toolsDue && SteeringDry(polls)
      modifies this, steeringQueue, followUpQueue
      ensures Valid() && served == old(served) && phase == old(phase)
      ensures ended == old(ended) && sources == old(sources) && events == old(events) && base == old(base)
      ensures activeRun == old(activeRun)
      ensures skipInitialSteeringPoll == old(skipInitialSteeringPoll)
      ensures old(steered) <= steered && old(followedUp) <= followedUp
      ensures steeringDrained == old(steeringDrained) && followUpsDrained == old(followUpsDrained) + pending
      ensures polls == old(polls) + [FollowUpPoll(toolsDue, |pending|)]
    {
      hide PhaseAfter, EndedMessages;
      pending := followUpQueue.Drain();
      followUpsDrained := followUpsDrained + pending;
      polls := polls + [FollowUpPoll(toolsDue, |pending|)];
      Await();
    }

    /** Why a run may end after its last turn. */
    ghost predicate MayEnd(turns: seq<TurnRecord>) {
      turns != [] && var t := turns[|turns| - 1]; t.Failed() || shouldStop(t.id) || !t.Due()
    }

    /** Some call of the turn was not executed, or does not want the run to end. */
    predicate Unsettled(t: TurnRecord)
      requires t.response.Assistant?
    {
      exists i :: 0 <= i < |t.response.calls| &&
        !(Executes(t.response.calls[i], behaviour(t.id, i)) && behaviour(t.id, i).terminate)
    }

    /** After a turn that asked for tools and was not aborted, a response is due exactly if some call did not settle
        the run. */
    lemma DueExactly(t: TurnRecord)
      requires TurnOk(t) && !t.Failed() && t.response.calls != [] && !t.wasAborted
      ensures t.Due() <==> Unsettled(t)
    {
      hide Executes;
    }

    /** One turn follows another only to deliver messages, or because a call of the one before did not settle the run,
        or was aborted. */
    lemma GoesOnBecause(turns: seq<TurnRecord>, k: nat)
      requires TurnsOk(turns) && 0 < k < |turns|
      ensures turns[k].injected != [] ||
              (turns[k - 1].response.calls != [] && (turns[k - 1].wasAborted || Unsettled(turns[k - 1])))
      ensures !turns[k - 1].response.stop.Failed? && !turns[k - 1].response.stop.Aborted?
      ensures !shouldStop(turns[k - 1].id)
    {
      hide IsBatch, Unsettled;
      var t := turns[k - 1];
      assert TurnOk(t) && Follows(t, turns[k]);
      if t.Due() && !t.wasAborted { DueExactly(t); }
    }

    /** A run that ended by itself ended after a failed turn, one that the hook stopped at or that was aborted, or one
        all of whose calls, if any, settled the run. */
    lemma EndsBecause(turns: seq<TurnRecord>)
      requires TurnsOk(turns) && MayEnd(turns)
      ensures var t := turns[|turns| - 1];
        || t.response.stop.Failed? || t.response.stop.Aborted? || shouldStop(t.id)
        || t.wasAborted || !Unsettled(t)
    {
      hide IsBatch, Unsettled;
      var t := turns[|turns| - 1];
      assert TurnOk(t);
      if !t.Failed() && !shouldStop(t.id) && !t.wasAborted {
        if t.response.calls != [] { DueExactly(t); } else { NoCallsSettled(t); }
      }
    }

    /** A failed or aborted response has no tools run. */
    lemma FailedRunsNothing(t: TurnRecord)
      requires TurnOk(t) && (t.response.stop.Failed? || t.response.stop.Aborted?)
      ensures t.results == []
    {
    }

    lemma NoCallsSettled(t: TurnRecord)
      requires t.response.Assistant? && t.response.calls == []
      ensures !Unsettled(t)
    {
    }

    /** The transcript of a run: the prompts, then turn after turn, each justified. */
    ghost predicate Told(prompts: seq<Message>, turns: seq<TurnRecord>, ended: seq<Message>) {
      ended == prompts + TurnMessages(turns) && TurnsOk(turns)
    }

    lemma TellTurn(prompts: seq<Message>, turns: seq<TurnRecord>, ended: seq<Message>, t: TurnRecord)
      requires Told(prompts, turns, ended) && TurnOk(t)
      requires turns != [] ==> Follows(turns[|turns| - 1], t)
      ensures Told(prompts, turns + [t], ended + t.injected + ([t.response] + t.results))
    {
      hide TurnOk, Follows, TurnMessages;
      TurnMessagesSnoc(prompts, turns, t);
      assert ended + t.injected + ([t.response] + t.results) == ended + t.Messages();
      var all := turns + [t];
      forall k | 0 < k < |all| ensures Follows(all[k - 1], all[k]) {
        if k < |turns| { assert Follows(turns[k - 1], turns[k]); }
      }
    }

    /** What the two queues gave has been delivered, save what the loop holds. */
    static ghost predicate BooksBalance(steering: seq<Message>, followUps: seq<Message>, ended: seq<Message>,
                                        sources: seq<Source>, held: seq<Message>, heldSource: Source)
    {
      && Accounted(steering, ended, sources, Steering, held, heldSource)
      && Accounted(followUps, ended, sources, FollowUp, held, heldSource)
    }

    static lemma BooksDelivered(steering: seq<Message>, followUps: seq<Message>, ended: seq<Message>,
                                sources: seq<Source>, held: seq<Message>, source: Source, more: seq<Message>)
      requires BooksBalance(steering, followUps, ended, sources, held, source)
      ensures BooksBalance(steering, followUps, ended + held + more,
                           sources + Tags(|held|, source) + Tags(|more|, Response), [], Response)
    {
      AccountDelivered(steering, ended, sources, Steering, held, source, more, Response);
      AccountDelivered(followUps, ended, sources, FollowUp, held, source, more, Response);
    }

    /** No hook replaced the loop's context. */
    ghost predicate Uninterrupted(turns: seq<TurnRecord>) {
      forall k :: 0 <= k < |turns| ==> turns[k].Failed() || nextContext(turns[k].id).None?
    }

    /** The context that the loop hands on: what it started with and every turn's messages, or what the hook put in
        its place after the last turn that it did so. */
    ghost function ContextOf(start: seq<Message>, turns: seq<TurnRecord>): seq<Message> {
      if turns == [] then start
      else
        var t := turns[|turns| - 1];
        if !t.Failed() && nextContext(t.id).Some? then nextContext(t.id).value
        else ContextOf(start, turns[..|turns| - 1]) + t.Messages()
    }

    lemma ContextSnoc(start: seq<Message>, turns: seq<TurnRecord>, t: TurnRecord)
      ensures ContextOf(start, turns + [t]) ==
              if !t.Failed() && nextContext(t.id).Some? then nextContext(t.id).value
              else ContextOf(start, turns) + t.Messages()
    {
      assert (turns + [t])[..|turns|] == turns;
    }

    /** As long as no hook replaced it, that is all messages, in order. */
    lemma {:induction false} UninterruptedContext(start: seq<Message>, turns: seq<TurnRecord>)
      requires Uninterrupted(turns)
      ensures ContextOf(start, turns) == start + TurnMessages(turns)
      decreases |turns|
    {
      if turns == [] {
        assert start + [] == start;
      } else {
        var init, t := turns[..|turns| - 1], turns[|turns| - 1];
        assert t.Failed() || nextContext(t.id).None?;
        assert Uninterrupted(init);
        UninterruptedContext(start, init);
        hide Uninterrupted;
        assert start + (TurnMessages(init) + t.Messages()) == start + TurnMessages(init) + t.Messages();
      }
    }

    /** What holds at the head of both loops: the messages so far are the story of the turns so far, both
        copies of the transcript agree, and what the queues gave was delivered or is in the loop's hand. */
    ghost predicate LoopState(prompts: seq<Message>, turns: seq<TurnRecord>, pending: seq<Message>, source: Source,
                              context: seq<Message>, newMessages: seq<Message>)
      reads this, steeringQueue, followUpQueue
    {
      && Valid() && activeRun && !skipInitialSteeringPoll
      && phase == (if turns == [] then QUIET else Between)
      && Told(prompts, turns, ended) && newMessages == ended
      && context == ContextOf(base + prompts, turns)
      && BooksBalance(steeringDrained, followUpsDrained, ended, sources, pending, source)
    }

    /** One turn of the inner loop, from `turn_start` to `turn_end`. */
    method RunOneTurn(ghost prompts: seq<Message>, ghost turns: seq<TurnRecord>, pending: seq<Message>,
                      ghost source: Source, context: seq<Message>, newMessages: seq<Message>, firstTurn: bool)
      returns (record: Option<TurnRecord>, newContext: seq<Message>, allMessages: seq<Message>)
      requires LoopState(prompts, turns, pending, source, context, newMessages) && (firstTurn <==> turns == [])
      requires turns != [] ==>
        var t := turns[|turns| - 1]; !t.Failed() && !shouldStop(t.id) && (t.Due() || pending != [])
      modifies this, steeringQueue, followUpQueue
      ensures Valid() && Kept()
      ensures BooksBalance(steeringDrained, followUpsDrained, ended, sources, [], Response)
      ensures record.None? ==> Stranded(old(served)) && ended == newMessages + pending
      ensures record.Some? ==>
        && old(served) < |responses| && served == old(served) + 1 && !responses[old(served)].breaks
        && phase == Between
        && record.value.response.Assistant? && record.value.injected == pending
        && Told(prompts, turns + [record.value], ended) && allMessages == ended
        && newContext == ContextOf(base + prompts, turns) + record.value.Messages()
    {
      hide Valid, Told, TurnOk, BooksBalance;
      if !firstTurn {
        Emit(TurnStart);
      }
      record, newContext := RunTurn(pending, source, context);
      allMessages := newMessages + pending;
      ghost var more := [];
      if record.Some? {
        more := [record.value.response] + record.value.results;
        TellTurn(prompts, turns, newMessages, record.value);
        allMessages := allMessages + ([record.value.response] + record.value.results);
      }
      BooksDelivered(steeringDrained, followUpsDrained, newMessages, old(sources), pending, source, more);
      assert sources == old(sources) + Tags(|pending|, source) + Tags(|more|, Response);
      assert ended == newMessages + pending + more;
    }

    static lemma BooksPolled(steering: seq<Message>, followUps: seq<Message>, ended: seq<Message>,
                             sources: seq<Source>, s: Source, got: seq<Message>)
      requires BooksBalance(steering, followUps, ended, sources, [], s)
      ensures BooksBalance(steering, followUps, ended, sources, [], Response)
      ensures BooksBalance(steering + got, followUps, ended, sources, got, Steering)
      ensures BooksBalance(steering, followUps + got, ended, sources, got, FollowUp)
    {
    }

    /** `prepareNextTurn`, then `shouldStopAfterTurn`, then the steering poll. */
    method AfterTurn(ghost prompts: seq<Message>, ghost before: seq<TurnRecord>, t: TurnRecord,
                     context: seq<Message>, newMessages: seq<Message>)
      returns (newContext: seq<Message>, stop: bool, pending: seq<Message>)
      requires Valid() && activeRun && !skipInitialSteeringPoll && phase == Between
      requires Told(prompts, before + [t], ended) && newMessages == ended && !t.Failed()
      requires context == ContextOf(base + prompts, before) + t.Messages()
      requires BooksBalance(steeringDrained, followUpsDrained, ended, sources, [], Response)
      modifies this, steeringQueue, followUpQueue
      ensures base == old(base) && served == old(served)
      ensures old(steered) <= steered && old(followedUp) <= followedUp
      ensures stop == shouldStop(t.id)
      ensures newContext == if nextContext(t.id).Some? then nextContext(t.id).value else context
      ensures LoopState(prompts, before + [t], pending, Steering, newContext, newMessages)
      ensures if stop
              then pending == [] && BooksBalance(steeringDrained, followUpsDrained, ended, sources, [], Response)
              else polls != [] && polls[|polls| - 1] == SteeringPoll(|pending|)
    {
      hide Valid, Told, BooksBalance, ContextOf;
      ContextSnoc(base + prompts, before, t);
      Await();
      newContext := if nextContext(t.id).Some? then nextContext(t.id).value else context;
      Await();
      stop := shouldStop(t.id);
      if stop {
        pending := [];
        BooksPolled(steeringDrained, followUpsDrained, ended, sources, Response, []);
        assert steeringDrained + [] == steeringDrained;
      } else {
        ghost var drained := steeringDrained;
        pending := PollSteering();
        BooksPolled(drained, followUpsDrained, ended, sources, Response, pending);
      }
    }

    /** The last turn lets the loop go on, for the reason the loop's variables say. */
    ghost predicate GoesOn(turns: seq<TurnRecord>, hasMoreToolCalls: bool, pending: seq<Message>) {
      turns != [] ==>
        var t := turns[|turns| - 1];
        && !t.Failed() && !shouldStop(t.id)
        && (hasMoreToolCalls ==> t.Due() || pending != [])
        && (!hasMoreToolCalls ==> !t.Due())
    }

    /** What the first response of a run had to read besides the prompts. */
    static ghost predicate FirstReads(turns: seq<TurnRecord>, injected: seq<Message>, first: seq<Message>) {
      first == if turns == [] then injected else turns[0].injected
    }

    method EndRun(newMessages: seq<Message>)
      requires Valid() && phase == Between
      modifies this, steeringQueue, followUpQueue
      ensures Valid() && Kept() && phase.Ended?
      ensures events != [] && events[|events| - 1] == AgentEnd(newMessages)
      ensures ended == old(ended) && sources == old(sources) && served == old(served)
    {
      hide Valid;
      Emit(AgentEnd(newMessages));
    }

    /** What follows a turn: the run ends, or its loop goes on with what the steering poll gave. */
    method LeaveTurn(ghost prompts: seq<Message>, ghost before: seq<TurnRecord>, t: TurnRecord,
                     context: seq<Message>, newMessages: seq<Message>)
      returns (over: bool, newContext: seq<Message>, hasMoreToolCalls: bool, pending: seq<Message>)
      requires Valid() && activeRun && !skipInitialSteeringPoll && phase == Between && t.response.Assistant?
      requires Told(prompts, before + [t], ended) && newMessages == ended
      requires context == ContextOf(base + prompts, before) + t.Messages()
      requires BooksBalance(steeringDrained, followUpsDrained, ended, sources, [], Response)
      modifies this, steeringQueue, followUpQueue
      ensures Valid() && activeRun && base == old(base) && served == old(served)
      ensures old(steered) <= steered && old(followedUp) <= followedUp
      ensures over == (t.Failed() || shouldStop(t.id))
      ensures over ==>
        && phase.Ended? && events != [] && events[|events| - 1] == AgentEnd(newMessages) && newMessages == ended
        && Told(prompts, before + [t], ended) && newContext == ContextOf(base + prompts, before + [t])
        && BooksBalance(steeringDrained, followUpsDrained, ended, sources, [], Response)
      ensures !over ==>
        && LoopState(prompts, before + [t], pending, Steering, newContext, newMessages)
        && hasMoreToolCalls == t.Due() && polls != [] && polls[|polls| - 1] == SteeringPoll(|pending|)
    {
      hide Valid, Told, BooksBalance, ContextOf;
      ContextSnoc(base + prompts, before, t);
      newContext, pending := context, [];
      hasMoreToolCalls := |t.response.calls| > 0 && !t.terminate;
      if t.response.stop.Failed? || t.response.stop.Aborted? {
        EndRun(newMessages);
        return true, newContext, hasMoreToolCalls, pending;
      }
      newContext, over, pending := AfterTurn(prompts, before, t, context, newMessages);
      if over {
        EndRun(newMessages);
      }
    }

    /** The inner loop: turns for as long as there are tool results to read or messages to inject. */
    method RunTurns(ghost prompts: seq<Message>, ghost turns0: seq<TurnRecord>, pending: seq<Message>,
                    ghost source0: Source, context: seq<Message>, messages: seq<Message>, isFirst: bool)
      returns (exit: LoopExit, ghost turns: seq<TurnRecord>, currentContext: seq<Message>,
               newMessages: seq<Message>, ghost told: seq<Message>, ghost injected: seq<Message>)
      requires LoopState(prompts, turns0, pending, source0, context, messages) && (isFirst <==> turns0 == [])
      requires GoesOn(turns0, true, pending)
      modifies this, steeringQueue, followUpQueue
      ensures Valid() && activeRun && base == old(base)
      ensures old(steered) <= steered && old(followedUp) <= followedUp
      ensures BooksBalance(steeringDrained, followUpsDrained, ended, sources, [], Response)
      ensures turns0 == [] ==> FirstReads(turns, injected, pending)
      ensures turns0 <= turns
      ensures exit.ProviderFailed? ==> Stranded(old(served)) && Told(prompts, turns, told) && ended == told + injected
      ensures exit.RunEnded? ==>
        && phase.Ended? && events != [] && events[|events| - 1] == AgentEnd(newMessages) && newMessages == ended
        && Told(prompts, turns, ended) && currentContext == ContextOf(base + prompts, turns)
        && turns != [] && var t := turns[|turns| - 1]; t.Failed() || shouldStop(t.id)
      ensures exit.Dry? ==>
        && LoopState(prompts, turns, [], Response, currentContext, newMessages)
        && turns != [] && GoesOn(turns, false, []) && SteeringDry(polls)
        && old(served) < served <= |responses| && !responses[served - 1].breaks
    {
      hide Valid, Told, BooksBalance, ContextOf, Accounted, From;
      turns, currentContext, newMessages, told, injected := turns0, context, messages, [], [];
      var firstTurn, pendingMessages, hasMoreToolCalls := isFirst, pending, true;
      ghost var source := source0;
      while hasMoreToolCalls || |pendingMessages| > 0
        invariant LoopState(prompts, turns, pendingMessages, source, currentContext, newMessages)
        invariant firstTurn <==> turns == []
        invariant turns0 <= turns && (turns == [] ==> pendingMessages == pending)
        invariant turns0 == [] && turns != [] ==> turns[0].injected == pending
        invariant GoesOn(turns, hasMoreToolCalls, pendingMessages)
        invariant !hasMoreToolCalls ==>
          turns != [] && polls != [] && polls[|polls| - 1] == SteeringPoll(|pendingMessages|)
        invariant (served == old(served) && hasMoreToolCalls) || old(served) < served <= |responses|
        invariant old(served) < served ==> !responses[served - 1].breaks
        invariant base == old(base)
        invariant old(steered) <= steered && old(followedUp) <= followedUp
        decreases |responses| - served
      {
        var record;
        ghost var messagesBefore := newMessages;
        record, currentContext, newMessages :=
          RunOneTurn(prompts, turns, pendingMessages, source, currentContext, newMessages, firstTurn);
        if record.None? {
          return ProviderFailed, turns, currentContext, newMessages, messagesBefore, pendingMessages;
        }
        var t := record.value;
        var over;
        over, currentContext, hasMoreToolCalls, pendingMessages :=
          LeaveTurn(prompts, turns, t, currentContext, newMessages);
        turns := turns + [t];
        firstTurn, source := false, Steering;
        if over {
          return RunEnded, turns, currentContext, newMessages, [], [];
        }
      }
      assert pendingMessages == [];
      BooksPolled(steeringDrained, followUpsDrained, ended, sources, source, []);
      exit := Dry;
    }

    /** The loop. `None` means the provider failed, after the turns told and what the last turn injected. */
    method RunLoop(ghost prompts: seq<Message>, initialContext: seq<Message>, initialMessages: seq<Message>)
      returns (result: Option<seq<Message>>, ghost turns: seq<TurnRecord>, currentContext: seq<Message>,
               ghost injected: seq<Message>)
      requires Valid() && activeRun && phase == QUIET && polls == []
      requires ended == prompts == initialMessages && initialContext == base + initialMessages
      requires BooksBalance(steeringDrained, followUpsDrained, ended, sources, [], Response)
      modifies this, steeringQueue, followUpQueue
      ensures Valid() && activeRun && base == old(base)
      ensures old(steered) <= steered && old(followedUp) <= followedUp
      ensures BooksBalance(steeringDrained, followUpsDrained, ended, sources, [], Response)
      ensures TurnsOk(turns) && (old(skipInitialSteeringPoll) ==> FirstReads(turns, injected, []))
      ensures result.None? ==> Stranded(old(served)) && ended == prompts + TurnMessages(turns) + injected
      ensures result.Some? ==>
        && phase.Ended? && ended == prompts + TurnMessages(turns) && MayEnd(turns)
        && result.value == ended && events != [] && events[|events| - 1] == AgentEnd(ended)
        && currentContext == ContextOf(base + prompts, turns)
    {
      hide Valid, TurnsOk, TurnMessages, BooksBalance, ContextOf;
      currentContext := initialContext;
      var newMessages := initialMessages;
      turns, injected := [], [];
      ghost var source := Steering;
      TellNothing(prompts);
      var pendingMessages := PollSteering();
      BooksPolled(old(steeringDrained), followUpsDrained, ended, sources, Response, pendingMessages);
      var firstTurn := true;
      while true
        invariant LoopState(prompts, turns, pendingMessages, source, currentContext, newMessages)
        invariant firstTurn <==> turns == []
        invariant if turns == [] then old(skipInitialSteeringPoll) ==> pendingMessages == []
                  else old(skipInitialSteeringPoll) ==> turns[0].injected == []
        invariant GoesOn(turns, true, pendingMessages)
        invariant base == old(base)
        invariant served == old(served) || (old(served) < served <= |responses| && !responses[served - 1].breaks)
        invariant old(steered) <= steered && old(followedUp) <= followedUp
        decreases |responses| - served
      {
        var exit;
        ghost var told;
        exit, turns, currentContext, newMessages, told, injected :=
          RunTurns(prompts, turns, pendingMessages, source, currentContext, newMessages, firstTurn);
        match exit {
          case ProviderFailed =>
            return None, turns, currentContext, injected;
          case RunEnded =>
            return Some(newMessages), turns, currentContext, [];
          case Dry =>
        }
        firstTurn := false;
        ghost var drained := followUpsDrained;
        pendingMessages := PollFollowUps(turns[|turns| - 1].Due());
        BooksPolled(steeringDrained, drained, ended, sources, Response, pendingMessages);
        source := FollowUp;
        if |pendingMessages| == 0 {
          break;
        }
      }
      assert pendingMessages == [];
      BooksPolled(steeringDrained, followUpsDrained, ended, sources, source, []);
      EndRun(newMessages);
      result := Some(newMessages);
    }

    lemma TellNothing(prompts: seq<Message>)
      ensures Told(prompts, [], prompts) && ContextOf(base + prompts, []) == base + prompts
    {
      assert prompts + [] == prompts;
    }

    // ----- one run -----

    /** Between runs nothing is under way. */
    ghost predicate Resting()
      reads this, steeringQueue, followUpQueue
    {
      Valid() && !activeRun && !isStreaming && streamingMessage.None? && pendingToolCalls == {}
    }

    /** What a queue gave before the run, if the prompts came from it. */
    static function Taken(prompts: seq<Message>, source: Source, queue: Source): seq<Message> {
      if source == queue then prompts else []
    }

    /** The state in which the executor of a run starts. */
    ghost predicate Begun(prompts: seq<Message>, source: Source, start: seq<Message>)
      reads this, steeringQueue, followUpQueue
    {
      && Valid() && activeRun && base == start && phase == Idle && polls == []
      && events == [] && ended == [] && sources == []
      && steeringDrained == Taken(prompts, source, Steering) && followUpsDrained == Taken(prompts, source, FollowUp)
    }

    static lemma NothingYet()
      ensures PhaseAfter([]) == Idle && EndedMessages([]) == [] && FollowUpsLast([])
    {
    }

    method BeginRun(ghost prompts: seq<Message>, ghost source: Source, skip: bool)
      requires Resting()
      modifies this
      ensures Begun(prompts, source, old(messages)) && !aborted && served == old(served)
      ensures messages == old(messages) && skipInitialSteeringPoll == skip
      ensures steered == Taken(prompts, source, Steering) + steeringQueue.messages
      ensures followedUp == Taken(prompts, source, FollowUp) + followUpQueue.messages
    {
      hide Taken;
      activeRun, aborted, skipInitialSteeringPoll := true, false, skip;
      isStreaming, streamingMessage, errorMessage := true, None, "";
      events := [];
      StartStory(prompts, source);
    }

    ghost method StartStory(prompts: seq<Message>, source: Source)
      requires events == [] && pendingToolCalls == {} && activeRun
      requires steeringQueue != followUpQueue && served <= |responses|
      requires forall i :: 0 <= i < |responses| ==> responses[i].Valid()
      modifies this`base, this`phase, this`ended, this`sources, this`polls
      modifies this`steeringDrained, this`followUpsDrained, this`steered, this`followedUp
      ensures Begun(prompts, source, messages)
      ensures steered == Taken(prompts, source, Steering) + steeringQueue.messages
      ensures followedUp == Taken(prompts, source, FollowUp) + followUpQueue.messages
    {
      hide PhaseAfter, EndedMessages, FollowUpsLast, Taken;
      NothingYet();
      base, phase, ended, sources, polls := messages, Idle, [], [], [];
      assert messages == base + ended;
      OpenBooks(Taken(prompts, source, Steering), Taken(prompts, source, FollowUp));
    }

    ghost method OpenBooks(steering: seq<Message>, followUps: seq<Message>)
      modifies this`steeringDrained, this`followUpsDrained, this`steered, this`followedUp
      ensures steeringDrained == steering && steered == steering + steeringQueue.messages
      ensures followUpsDrained == followUps && followedUp == followUps + followUpQueue.messages
    {
      steeringDrained, followUpsDrained := steering, followUps;
      steered, followedUp := steering + steeringQueue.messages, followUps + followUpQueue.messages;
    }

    method FinishRun()
      requires Valid()
      modifies this`isStreaming, this`streamingMessage, this`pendingToolCalls, this`activeRun
      ensures Resting()
    {
      isStreaming, streamingMessage, pendingToolCalls, activeRun := false, None, {}, false;
    }

    /** What the provider's failure adds to the transcript. */
    function FailureMessage(wasAborted: bool, error: string): Message {
      Assistant("", [], if wasAborted then Aborted else Failed, error)
    }

    /** The events that close a run that failed, wherever it was. They fit what came before exactly if the failure
        came inside a turn, with no message open and no tool call under way. */
    method HandleRunFailure(error: string) returns (failure: Message)
      requires Valid()
      modifies this, steeringQueue, followUpQueue
      ensures Valid() && Kept() && served == old(served)
      ensures failure == Assistant("", [], if old(aborted) then Aborted else Failed, error)
      ensures ended == old(ended) + [failure] && sources == old(sources) + [Response]
      ensures events == old(events) +
              [MessageStart(failure), MessageEnd(failure), TurnEnd(failure, []), AgentEnd([failure])]
      ensures phase == if old(phase) == QUIET then Ended else Bad
    {
      hide Valid;
      failure := FailureMessage(aborted, error);
      Emit(MessageStart(failure));
      Emit(MessageEnd(failure), Response);
      Emit(TurnEnd(failure, []));
      Emit(AgentEnd([failure]));
    }

    /** The loop as the source's API exposes it, on a context of its own: new prompts. */
    method RunAgentLoop(prompts: seq<Message>, context: seq<Message>, ghost source: Source)
      returns (result: Option<seq<Message>>, ghost turns: seq<TurnRecord>, currentContext: seq<Message>,
               ghost injected: seq<Message>)
      requires Begun(prompts, source, context) && source != Response
      modifies this, steeringQueue, followUpQueue
      ensures AfterLoop(prompts, context, old(served), result, turns, currentContext, injected)
      ensures old(skipInitialSteeringPoll) ==> FirstReads(turns, injected, [])
      ensures old(steered) <= steered && old(followedUp) <= followedUp
    {
      hide Valid, BooksBalance;
      Emit(AgentStart);
      Emit(TurnStart);
      DeliverMessages(prompts, source);
      BooksStart(prompts, source);
      result, turns, currentContext, injected := RunLoop(prompts, context + prompts, prompts);
    }

    lemma BooksStart(prompts: seq<Message>, source: Source)
      requires source != Response
      ensures BooksBalance(Taken(prompts, source, Steering), Taken(prompts, source, FollowUp), prompts,
                           Tags(|prompts|, source), [], Response)
      ensures [] + prompts == prompts && [] + Tags(|prompts|, source) == Tags(|prompts|, source)
    {
      BooksDelivered(Taken(prompts, source, Steering), Taken(prompts, source, FollowUp), [], [], prompts, source, []);
      assert [] + prompts + [] == prompts;
      assert [] + Tags(|prompts|, source) + Tags(0, Response) == Tags(|prompts|, source);
    }

    /** Where the loop leaves the agent. */
    ghost predicate AfterLoop(prompts: seq<Message>, context: seq<Message>, was: nat, result: Option<seq<Message>>,
                              turns: seq<TurnRecord>, currentContext: seq<Message>, injected: seq<Message>)
      reads this, steeringQueue, followUpQueue
    {
      && Valid() && activeRun && base == context && TurnsOk(turns)
      && BooksBalance(steeringDrained, followUpsDrained, ended, sources, [], Response)
      && match result
         case None => Stranded(was) && ended == prompts + TurnMessages(turns) + injected
         case Some(newMessages) =>
           && phase.Ended? && MayEnd(turns)
           && newMessages == ended == prompts + TurnMessages(turns)
           && events != [] && events[|events| - 1] == AgentEnd(ended)
           && currentContext == ContextOf(context + prompts, turns)
    }

    /** The loop as the source's API exposes it: no new prompts. Some contexts cannot be continued. */
    method RunAgentLoopContinue(context: seq<Message>)
      returns (refused: Option<string>, result: Option<seq<Message>>, ghost turns: seq<TurnRecord>,
               currentContext: seq<Message>, ghost injected: seq<Message>)
      requires Begun([], Prompt, context)
      modifies this, steeringQueue, followUpQueue
      ensures refused.Some? <==> context == [] || context[|context| - 1].Assistant?
      ensures refused.Some? ==> Begun([], Prompt, context) && messages == old(messages)
      ensures refused.None? ==> AfterLoop([], context, old(served), result, turns, currentContext, injected)
      ensures old(steered) <= steered && old(followedUp) <= followedUp
    {
      hide Valid, BooksBalance;
      if |context| == 0 {
        return Some("Cannot continue: no messages in context"), None, [], context, [];
      }
      if context[|context| - 1].Assistant? {
        return Some("Cannot continue from message role: assistant"), None, [], context, [];
      }
      Emit(AgentStart);
      Emit(TurnStart);
      BooksStart([], Prompt);
      assert context + [] == context;
      refused := None;
      result, turns, currentContext, injected := RunLoop([], context, []);
    }

    /** The events end with the report of the failure. It fits what came before, unless the last response broke with
        its message open. */
    ghost predicate FailureTold(failure: Message, was: nat)
      reads this`events, this`phase, this`served
    {
      var n := |events| - 4;
      && n >= 0 && events[n..] == FailureReport(failure)
      && was <= served <= |responses| && (LastBroke(was) || served == |responses|)
      && var left := LastBroke(was) && OpenedBy(responses[served - 1].events);
         PhaseAfter(events[..n]) == QUIET.(open := left) && phase == if left then Bad else Ended
    }

    /** What a whole run leaves behind, told from the outside: it began with the transcript `start`, and `prompts`
        came from `source`; `was` responses had been served. The last message is `failure` if the provider failed. */
    ghost predicate Ran(start: seq<Message>, was: nat, prompts: seq<Message>, turns: seq<TurnRecord>,
                        injected: seq<Message>, failure: Option<Message>)
      reads this, steeringQueue, followUpQueue
    {
      && Resting() && messages == start + ended && TurnsOk(turns)
      && steered == From(ended, sources, Steering) + steeringQueue.messages
      && followedUp == From(ended, sources, FollowUp) + followUpQueue.messages
      && match failure
         case None =>
           && phase.Ended? && ended == prompts + TurnMessages(turns) && MayEnd(turns)
           && events != [] && events[|events| - 1] == AgentEnd(ended)
         case Some(f) =>
           && ended == prompts + TurnMessages(turns) + injected + [f] && f.Assistant?
           && (f.stop.Failed? || (f.stop.Aborted? && aborted)) && FailureTold(f, was)
    }

    /** Handle a failure, and close the run. */
    method EndLifecycle(ghost prompts: seq<Message>, ghost start: seq<Message>, ghost was: nat,
                        result: Option<seq<Message>>,
                        ghost turns: seq<TurnRecord>, ghost currentContext: seq<Message>,
                        ghost injected: seq<Message>, error: string)
      returns (ghost failure: Option<Message>)
      requires AfterLoop(prompts, start, was, result, turns, currentContext, injected)
      modifies this, steeringQueue, followUpQueue
      ensures Ran(start, was, prompts, turns, injected, failure) && (failure.None? <==> result.Some?)
      ensures old(steered) <= steered && old(followedUp) <= followedUp
    {
      hide PhaseAfter, EndedMessages, FollowUpsLast, TurnsOk, MayEnd, TurnMessages, From;
      failure := None;
      assert steeringDrained == From(ended, sources, Steering) && followUpsDrained == From(ended, sources, FollowUp);
      if result.None? {
        FromSnoc(ended, sources, FailureMessage(aborted, error), Response, Steering);
        FromSnoc(ended, sources, FailureMessage(aborted, error), Response, FollowUp);
        var f := HandleRunFailure(error);
        failure := Some(f);
        assert steeringDrained == From(ended, sources, Steering) && followUpsDrained == From(ended, sources, FollowUp);
      }
      FinishRun();
    }

    // ----- the public entry points -----

    method RunPromptMessages(prompts: seq<Message>, ghost source: Source, skip: bool)
      returns (ghost turns: seq<TurnRecord>, ghost injected: seq<Message>, ghost failure: Option<Message>)
      requires Resting() && source != Response
      modifies this, steeringQueue, followUpQueue
      ensures Ran(old(messages), old(served), prompts, turns, injected, failure)
      ensures skip ==> FirstReads(turns, injected, [])
      ensures Taken(prompts, source, Steering) + old(steeringQueue.messages) <= steered
      ensures Taken(prompts, source, FollowUp) + old(followUpQueue.messages) <= followedUp
    {
      hide Valid, Taken, Ran, AfterLoop, Begun;
      BeginRun(prompts, source, skip);
      ghost var start := messages;
      var result, currentContext;
      result, turns, currentContext, injected := RunAgentLoop(prompts, messages, source);
      failure := EndLifecycle(prompts, start, old(served), result, turns, currentContext, injected, "provider failed");
    }

    method RunContinuation()
      returns (ghost turns: seq<TurnRecord>, ghost injected: seq<Message>, ghost failure: Option<Message>)
      requires Resting() && messages != [] && !messages[|messages| - 1].Assistant?
      modifies this, steeringQueue, followUpQueue
      ensures Ran(old(messages), old(served), [], turns, injected, failure)
      ensures old(steeringQueue.messages) <= steered && old(followUpQueue.messages) <= followedUp
    {
      hide Valid, Ran, AfterLoop, Begun;
      BeginRun([], Prompt, false);
      ghost var start := messages;
      var refused, result, currentContext;
      refused, result, turns, currentContext, injected := RunAgentLoopContinue(messages);
      failure := EndLifecycle([], start, old(served), result, turns, currentContext, injected, "provider failed");
    }

    /** Start a run with new messages. Refused, with nothing changed, while a run is active. */
    method StartPrompt(prompts: seq<Message>)
      returns (refused: Option<string>, ghost turns: seq<TurnRecord>, ghost injected: seq<Message>,
               ghost failure: Option<Message>)
      requires activeRun || Resting()
      modifies this, steeringQueue, followUpQueue
      ensures refused.Some? <==> old(activeRun)
      ensures refused.Some? ==> unchanged(this, steeringQueue, followUpQueue)
      ensures refused.None? ==>
        && Ran(old(messages), old(served), prompts, turns, injected, failure)
        && old(steeringQueue.messages) <= steered && old(followUpQueue.messages) <= followedUp
    {
      hide Valid, Ran;
      if activeRun {
        return Some("Agent is already processing a prompt."), [], [], None;
      }
      refused := None;
      turns, injected, failure := RunPromptMessages(prompts, Prompt, false);
    }

    /** Why `Continue` may be refused. */
    ghost predicate CannotContinue()
      reads this, steeringQueue, followUpQueue
    {
      || activeRun
      || messages == []
      || (messages[|messages| - 1].Assistant? && steeringQueue.messages == [] && followUpQueue.messages == [])
    }

    /** Whether there is something to go on with after an assistant message. */
    method HasQueuedMessages() returns (r: bool)
      ensures !activeRun && messages != [] && messages[|messages| - 1].Assistant? ==> (r <==> !CannotContinue())
      ensures r <==> steeringQueue.messages != [] || followUpQueue.messages != []
    {
      r := steeringQueue.HasItems();
      if !r {
        r := followUpQueue.HasItems();
      }
    }

    /** Go on from the transcript: after an assistant message, with what the queues hold; steering first. */
    method Continue()
      returns (refused: Option<string>, ghost prompts: seq<Message>, ghost turns: seq<TurnRecord>,
               ghost injected: seq<Message>, ghost failure: Option<Message>)
      requires activeRun || Resting()
      modifies this, steeringQueue, followUpQueue
      ensures refused.Some? <==> old(CannotContinue())
      ensures refused.Some? ==> unchanged(this) && steeringQueue.messages == old(steeringQueue.messages)
                                && followUpQueue.messages == old(followUpQueue.messages)
      ensures refused.None? ==>
        && Ran(old(messages), old(served), prompts, turns, injected, failure)
        && old(steeringQueue.messages) <= steered && old(followUpQueue.messages) <= followedUp
        && (old(messages[|messages| - 1].Assistant?) ==>
              prompts != [] && if old(steeringQueue.messages) != []
                               then prompts <= old(steeringQueue.messages) && FirstReads(turns, injected, [])
                               else prompts <= old(followUpQueue.messages))
        && (!old(messages[|messages| - 1].Assistant?) ==> prompts == [])
    {
      hide Ran, PhaseAfter, EndedMessages, FollowUpsLast;
      prompts, turns, injected, failure, refused := [], [], [], None, None;
      if activeRun {
        return Some("Agent is already processing."), [], [], [], None;
      }
      if |messages| == 0 {
        return Some("No messages to continue from"), [], [], [], None;
      }
      if messages[|messages| - 1].Assistant? {
        var queuedSteering := steeringQueue.Drain();
        if |queuedSteering| > 0 {
          prompts := queuedSteering;
          turns, injected, failure := RunPromptMessages(queuedSteering, Steering, true);
          return;
        }
        var queuedFollowUps := followUpQueue.Drain();
        if |queuedFollowUps| > 0 {
          prompts := queuedFollowUps;
          turns, injected, failure := RunPromptMessages(queuedFollowUps, FollowUp, false);
          return;
        }
        return Some("Cannot continue from message role: assistant"), [], [], [], None;
      }
      turns, injected, failure := RunContinuation();
    }
  }

  /** A provider that breaks after the start of its message: the agent reports the failure inside the open message,
      which never gets its end. */
  method BrokenStreamLeavesMessageOpen(prompt: Message, partial: Message) returns (agent: Agent)
    ensures agent.Resting() && agent.phase == Bad
    ensures MessageStarts(agent.events) == MessageEnds(agent.events) + 1
  {
    hide Agent.Valid, PhaseAfter, MessageStarts, MessageEnds, EndedMessages;
    var broken := StreamResponse([Start(partial)], Assistant("", [], Stop, ""), true);
    agent := new Agent([], All, All, false, [broken], map[], (turn, i) => ToolBehaviour(None, None, "", false, false),
                       turn => None, turn => false, n => []);
    ghost var refused, turns, injected, failure;
    refused, turns, injected, failure := agent.StartPrompt([prompt]);
    var n := |agent.events| - 4;
    assert agent.events == agent.events[..n] + FailureReport(failure.value);
    FailureReportFits(agent.events[..n], failure.value);
  }
}
