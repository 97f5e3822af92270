/** The agent harness around a run: writes deferred while it is busy, and recovery from context overflow. */
module Harness {
  import opened Options

  datatype Write =
    | MessageWrite(text: string)
    | ModelChange(provider: string, modelId: string)
    | ThinkingLevelChange(level: string)
    | ActiveToolsChange(names: seq<string>)
    | LeafChange(targetId: string)
    | CompactionWrite

  /** What the session stored: at once, or after waiting for a flush. */
  datatype Stored = Direct(write: Write) | Deferred(write: Write)

  function DeferredOf(session: seq<Stored>): seq<Write> {
    if session == [] then []
    else
      var last := session[|session| - 1];
      DeferredOf(session[..|session| - 1]) + if last.Deferred? then [last.write] else []
  }

  lemma DeferredSnoc(session: seq<Stored>, s: Stored)
    ensures DeferredOf(session + [s]) == DeferredOf(session) + if s.Deferred? then [s.write] else []
  {
    assert (session + [s])[..|session|] == session;
  }

  datatype Phase = Idle | InTurn | Compacting

  datatype Stop = Finished | Failed | Aborted

  datatype Reason = Overflow | Threshold | Manual

  /** The harness events that tell the story of compaction. */
  datatype HarnessEvent =
    | PromptEntered
    | MessageEnded(isAssistant: bool, stop: Stop)
    | CompactionStart(reason: Reason)
    | SessionCompact
    | CompactionEnd(reason: Reason, done: bool, aborted: bool, willRetry: bool)

  // ----- the overflow latch -----

  /** Whether overflow recovery is spent: once started, until a response succeeds or a new prompt comes. */
  function LatchAfter(log: seq<HarnessEvent>): bool {
    if log == [] then false
    else
      var last := log[|log| - 1];
      if last.PromptEntered? || Recovers(last) then false
      else if last == CompactionStart(Overflow) then true
      else LatchAfter(log[..|log| - 1])
  }

  /** A response that is no error. */
  predicate Recovers(e: HarnessEvent) {
    e.MessageEnded? && e.isAssistant && !e.stop.Failed?
  }

  /** A prompt, or a response that did not fail. */
  predicate Rearms(e: HarnessEvent) {
    e.PromptEntered? || (e.MessageEnded? && e.isAssistant && e.stop != Failed)
  }

  /** Overflow recovery never starts while it is spent. */
  predicate Latched(log: seq<HarnessEvent>) {
    log == [] ||
      (Latched(log[..|log| - 1]) &&
       (log[|log| - 1] == CompactionStart(Overflow) ==> !LatchAfter(log[..|log| - 1])))
  }

  lemma LogSnoc(log: seq<HarnessEvent>, e: HarnessEvent)
    ensures LatchAfter(log + [e]) ==
            if e.PromptEntered? || Recovers(e) then false else e == CompactionStart(Overflow) || LatchAfter(log)
    ensures Latched(log + [e]) <==> Latched(log) && (e == CompactionStart(Overflow) ==> !LatchAfter(log))
  {
    assert (log + [e])[..|log|] == log;
  }

  lemma {:induction false} StaysSpent(log: seq<HarnessEvent>, i: nat)
    requires i < |log| && log[i] == CompactionStart(Overflow)
    requires forall k :: i < k < |log| ==> !log[k].PromptEntered? && !Recovers(log[k])
    ensures LatchAfter(log)
    decreases |log|
  {
    if i < |log| - 1 {
      var init := log[..|log| - 1];
      assert forall k :: 0 <= k < |init| ==> init[k] == log[k];
      StaysSpent(init, i);
    }
  }

  lemma {:induction false} LatchedPrefix(log: seq<HarnessEvent>, n: nat)
    requires Latched(log) && n <= |log|
    ensures Latched(log[..n])
    decreases |log|
  {
    if n < |log| {
      LatchedPrefix(log[..|log| - 1], n);
      assert log[..|log| - 1][..n] == log[..n];
    } else {
      assert log[..n] == log;
    }
  }

  /** Between two overflow compactions there is a successful response or a new prompt. */
  lemma OverflowsApart(log: seq<HarnessEvent>, i: nat, j: nat)
    requires Latched(log) && i < j < |log|
    requires log[i] == CompactionStart(Overflow) && log[j] == CompactionStart(Overflow)
    ensures exists k :: i < k < j && Rearms(log[k])
  {
    LatchedPrefix(log, j + 1);
    var upTo := log[..j + 1];
    assert upTo[..|upTo| - 1] == log[..j] && upTo[|upTo| - 1] == log[j];
    if forall k :: i < k < j ==> !log[k].PromptEntered? && !Recovers(log[k]) {
      assert log[..j][i] == log[i];
      StaysSpent(log[..j], i);
    }
  }

  /** An overflow compaction has started, and since then no prompt came and no response but failed ones. */
  ghost predicate Spent(log: seq<HarnessEvent>) {
    exists i :: 0 <= i < |log| && log[i] == CompactionStart(Overflow) && forall k :: i < k < |log| ==> !Rearms(log[k])
  }

  /** The latch is shut exactly if recovery is spent. */
  lemma {:induction false} LatchIs(log: seq<HarnessEvent>)
    ensures LatchAfter(log) <==> Spent(log)
    decreases |log|
  {
    if Spent(log) {
      var i :| 0 <= i < |log| && log[i] == CompactionStart(Overflow) &&
               forall k :: i < k < |log| ==> !Rearms(log[k]);
      StaysSpent(log, i);
    }
    if LatchAfter(log) && log[|log| - 1] != CompactionStart(Overflow) {
      var init := log[..|log| - 1];
      LatchIs(init);
      var i :| 0 <= i < |init| && init[i] == CompactionStart(Overflow) &&
               forall k :: i < k < |init| ==> !Rearms(init[k]);
      assert log[i] == init[i];
      assert forall k :: i < k < |init| ==> log[k] == init[k];
    }
  }

  // ----- the outside world -----

  /** What a caller may do at an `await`; every setter that has something to store comes down to this. */
  type Action = Write

  datatype Step = Proceeds | Throws

  datatype Preparation = Prepared | NothingToDo | Unpreparable

  datatype Hook = NoAnswer | Cancels | Provides | HookThrows

  /** How one compaction goes, step by step. */
  datatype CompactionScript = CompactionScript(
    hasModel: bool, auth: Option<bool>, branch: Step, preparation: Preparation, hook: Hook, summary: Step,
    aborted: bool, append: Step, entryFound: bool)

  /** What a run of the agent loop reports, in order. */
  datatype LoopEvent =
    | MessageEndOf(text: string, isAssistant: bool, stop: Stop)
    | TurnEnd
    | NextTurn
    | AgentEnd
    | OtherEvent

  /** One run of the agent loop, how its last response looks to the checks after it, and the compaction it leads to. */
  datatype Pass =
    Pass(events: seq<LoopEvent>, throws: bool, assistantReturned: bool, check: Check, script: CompactionScript)
  {
    /** A run that does not throw ends with `agent_end`. */
    predicate WellFormed() {
      throws || (events != [] && events[|events| - 1].AgentEnd?)
    }
  }

  /** Nothing stands in the way of this compaction. */
  predicate Runs(script: CompactionScript) {
    && script.hasModel && script.auth == Some(true) && script.branch.Proceeds? && script.preparation.Prepared?
    && (script.hook.Provides? || (script.hook.NoAnswer? && script.summary.Proceeds?)) && !script.aborted
  }

  /** The compaction comes as far as the hook. */
  predicate Prepares(script: CompactionScript) {
    script.hasModel && script.auth == Some(true) && script.branch.Proceeds? && script.preparation.Prepared?
  }

  /** The compaction is called off: by the hook, or by an abort. */
  predicate CalledOff(script: CompactionScript, manual: bool) {
    && Prepares(script) && !script.hook.HookThrows?
    && (script.hook.Cancels? || (script.aborted && (manual || script.hook.Provides? || script.summary.Proceeds?)))
  }

  /** There is nothing to be done, or nobody to do it. */
  predicate NothingDone(script: CompactionScript) {
    || !script.hasModel || (script.auth.Some? && !script.auth.value)
    || (script.auth == Some(true) && script.branch.Proceeds? && script.preparation.NothingToDo?)
  }

  /** The last response among these events, or what was there before. */
  ghost function LastResponse(events: seq<LoopEvent>, was: Option<Stop>): Option<Stop> {
    if events == [] then was
    else
      var last := events[|events| - 1];
      if last.MessageEndOf? && last.isAssistant then Some(last.stop) else LastResponse(events[..|events| - 1], was)
  }

  datatype Check = Check(enabled: bool, stale: bool, overflow: bool, overThreshold: bool, queued: bool)

  /** The accounts of the deferred writes: how many flushes have settled, and how many awaits have passed. */
  datatype Books = Books(queued: seq<Write>, pending: seq<Write>, settled: nat, awaits: nat)

  /** What a run reports that failed. */
  function FailureEvents(stop: Stop): (r: seq<LoopEvent>)
    ensures |r| == 4 && r[3].AgentEnd?
  {
    [OtherEvent, MessageEndOf("", true, stop), TurnEnd, AgentEnd]
  }

  lemma FailureIsLast(was: Option<Stop>, stop: Stop)
    ensures LastResponse(FailureEvents(stop), was) == Some(stop)
  {
    var events := FailureEvents(stop);
    assert events[..3][..2] == events[..2];
    assert LastResponse(events[..2], was) == Some(stop);
    assert LastResponse(events[..3], was) == Some(stop);
  }

  // ----- the harness -----

  /** The harness as long as its calls do not overlap; `HarnessCalls` is about calls that do. */
  class AgentHarness {
    const schedule: seq<seq<Action>>
    const appendFails: nat -> bool
    const passes: seq<Pass>

    var phase: Phase
    var session: seq<Stored>
    var pendingSessionWrites: seq<Write>
    var overflowRecoveryAttempted: bool
    var lastAssistant: Option<Stop>
    /** The harness events so far, as subscribers got them. */
    var log: seq<HarnessEvent>
    var awaits: nat
    var appends: nat
    var used: nat

    /** Every write that was deferred. */
    ghost var queued: seq<Write>
    /** How many writes had been deferred when a flush last found none waiting. */
    ghost var settled: nat

    constructor (schedule: seq<seq<Action>>, appendFails: nat -> bool, passes: seq<Pass>)
      requires forall i :: 0 <= i < |passes| ==> passes[i].WellFormed()
      ensures Valid() && phase == Idle && session == [] && pendingSessionWrites == [] && log == [] && awaits == 0
      ensures this.schedule == schedule && this.appendFails == appendFails && this.passes == passes
    {
      this.schedule, this.appendFails, this.passes := schedule, appendFails, passes;
      phase, session, pendingSessionWrites, overflowRecoveryAttempted, lastAssistant := Idle, [], [], false, None;
      log, awaits, appends, used := [], 0, 0, 0;
      queued, settled := [], 0;
    }

    /** No deferred write is lost, stored twice or out of order; and the latch is what the story says. */
    ghost predicate Valid()
      reads this`session, this`pendingSessionWrites, this`queued, this`overflowRecoveryAttempted, this`log
      reads this`used, this`awaits, this`settled
    {
      Conserved() && WithinWorld() && overflowRecoveryAttempted == LatchAfter(log) && Latched(log)
    }

    ghost predicate WithinWorld()
      reads this`used, this`awaits
    {
      && used <= |passes| && awaits <= |schedule|
      && forall i :: 0 <= i < |passes| ==> passes[i].WellFormed()
    }

    /** Between two writes of a flush, which has yet to notice that none is left. */
    ghost predicate Flushing()
      reads this`session, this`pendingSessionWrites, this`queued, this`overflowRecoveryAttempted, this`log
      reads this`used, this`awaits, this`settled
    {
      && DeferredOf(session) + pendingSessionWrites == queued && settled <= |DeferredOf(session)|
      && WithinWorld() && overflowRecoveryAttempted == LatchAfter(log) && Latched(log)
    }

    ghost predicate Conserved()
      reads this`session, this`pendingSessionWrites, this`queued, this`settled
    {
      && DeferredOf(session) + pendingSessionWrites == queued && settled <= |DeferredOf(session)|
      && (pendingSessionWrites == [] ==> settled == |queued|)
    }

    /** Writes wait exactly if some were deferred since a flush last found none waiting. */
    lemma WaitingWhen()
      requires Valid()
      ensures pendingSessionWrites == [] <==> queued[settled..] == []
    {
      hide LatchAfter, Latched, DeferredOf;
    }

    /** What was deferred meanwhile waits behind what waited before. */
    twostate predicate Waits()
      reads this`pendingSessionWrites, this`queued, this`settled
    {
      && old(queued) <= queued && settled == old(settled)
      && pendingSessionWrites == old(pendingSessionWrites) + queued[|old(queued)|..]
    }

    /** What callers asked for at the awaits from one to another. */
    ghost function Asked(start: nat, end: nat): seq<Write>
      requires start <= end <= |schedule|
      decreases end
    {
      if start == end then [] else Asked(start, end - 1) + schedule[end - 1]
    }

    lemma {:induction false} AskedJoin(a: nat, b: nat, c: nat)
      requires a <= b <= c <= |schedule|
      ensures Asked(a, b) + Asked(b, c) == Asked(a, c)
      decreases c
    {
      if b < c {
        AskedJoin(a, b, c - 1);
        assert Asked(a, b) + Asked(b, c) == (Asked(a, b) + Asked(b, c - 1)) + schedule[c - 1];
      }
    }

    ghost function Accounts(): Books
      reads this`queued, this`pendingSessionWrites, this`settled, this`awaits
    {
      Books(queued, pendingSessionWrites, settled, awaits)
    }

    /** No flush, but awaits: what callers asked for at them was stored at once, or waits behind what waited before. */
    ghost predicate Collects(a: Books, b: Books, idle: bool) {
      && a.awaits <= b.awaits <= |schedule| && b.settled == a.settled
      && var asked := if idle then [] else Asked(a.awaits, b.awaits);
         b.queued == a.queued + asked && b.pending == a.pending + asked
    }

    lemma CollectsJoin(a: Books, b: Books, c: Books, idle: bool)
      requires Collects(a, b, idle) && Collects(b, c, idle)
      ensures Collects(a, c, idle)
    {
      AskedJoin(a.awaits, b.awaits, c.awaits);
    }

    lemma CollectsNothing(a: Books, idle: bool)
      requires a.awaits <= |schedule|
      ensures Collects(a, a, idle)
    {
    }

    /** The accounts from which a compaction that starts now collects: its start is announced before it defers. */
    ghost function AtStart(): (r: Books)
      reads this`queued, this`pendingSessionWrites, this`settled, this`awaits, this`phase
      ensures r.queued == queued && r.pending == pendingSessionWrites && r.settled == settled
    {
      if phase.Idle? then Accounts().(awaits := NextAwait(awaits)) else Accounts()
    }

    lemma CollectsWaits(a: Books, b: Books)
      requires Collects(a, b, false)
      ensures a.queued <= b.queued && b.settled == a.settled && b.pending == a.pending + b.queued[|a.queued|..]
    {
    }

    function NextAwait(n: nat): nat {
      if n < |schedule| then n + 1 else n
    }

    lemma AskedOnce(a: nat)
      requires a < |schedule|
      ensures Asked(a, a + 1) == schedule[a]
    {
      assert Asked(a, a) == [];
    }

    twostate predicate Grows()
      reads this`session, this`queued, this`awaits
    {
      && old(queued) <= queued && old(session) <= session && old(awaits) <= awaits
    }

    /** Store a write, or fail. */
    method Append(s: Stored) returns (ok: bool)
      modifies this`session, this`appends
      ensures session == if ok then old(session) + [s] else old(session)
      ensures ok == !appendFails(old(appends)) && appends == old(appends) + 1
    {
      ok := !appendFails(appends);
      appends := appends + 1;
      if ok {
        session := session + [s];
      }
    }

    method AppendDirect(write: Write) returns (ok: bool)
      requires Valid()
      modifies this`session, this`appends
      ensures Valid() && session == if ok then old(session) + [Direct(write)] else old(session)
    {
      hide LatchAfter, Latched, DeferredOf;
      DeferredSnoc(session, Direct(write));
      ok := Append(Direct(write));
    }

    /** `appendMessage`, `setModel` and the like: store at once when idle, else wait for a flush. */
    method AppendMessage(write: Write) returns (ok: bool)
      requires Valid()
      modifies this`session, this`appends, this`pendingSessionWrites, this`queued
      ensures Valid() && Grows() && Waits()
      ensures old(phase).Idle? ==>
        queued == old(queued) && session == if ok then old(session) + [Direct(write)] else old(session)
      ensures old(phase).Idle? ==> ok == !appendFails(old(appends))
      ensures !old(phase).Idle? ==> ok && session == old(session) && queued == old(queued) + [write]
      ensures DeferredOf(session) == DeferredOf(old(session)) && old(pendingSessionWrites) <= pendingSessionWrites
    {
      hide LatchAfter, Latched, DeferredOf;
      if phase.Idle? {
        DeferredSnoc(session, Direct(write));
        ok := Append(Direct(write));
      } else {
        pendingSessionWrites := pendingSessionWrites + [write];
        queued := queued + [write];
        ok := true;
      }
    }

    /** Callers act while the harness waits. */
    method Await()
      requires Valid()
      modifies this`session, this`appends, this`pendingSessionWrites, this`queued, this`awaits
      ensures Valid() && Grows() && Waits() && Collects(old(Accounts()), Accounts(), phase.Idle?)
      ensures awaits == NextAwait(old(awaits))
      ensures if phase.Idle? then queued == old(queued) else session == old(session)
      ensures old(awaits) == |schedule| ==> pendingSessionWrites == old(pendingSessionWrites) && session == old(session)
      ensures DeferredOf(session) == DeferredOf(old(session)) && old(pendingSessionWrites) <= pendingSessionWrites
    {
      hide LatchAfter, Latched, DeferredOf, Conserved;
      if awaits < |schedule| {
        AskedOnce(awaits);
        awaits := awaits + 1;
        AppendAll(schedule[awaits - 1]);
      }
    }

    method AppendAll(actions: seq<Action>)
      requires Valid()
      modifies this`session, this`appends, this`pendingSessionWrites, this`queued
      ensures Valid() && Waits() && old(session) <= session
      ensures queued == old(queued) + if phase.Idle? then [] else actions
      ensures !phase.Idle? ==> session == old(session)
      ensures DeferredOf(session) == DeferredOf(old(session))
    {
      hide Valid, DeferredOf;
      for i := 0 to |actions|
        invariant Valid() && Waits() && old(session) <= session
        invariant queued == old(queued) + if phase.Idle? then [] else actions[..i]
        invariant !phase.Idle? ==> session == old(session)
        invariant DeferredOf(session) == DeferredOf(old(session))
      {
        var _ := AppendMessage(actions[i]);
        assert actions[..i + 1] == actions[..i] + [actions[i]];
      }
      assert actions[..|actions|] == actions;
    }

    /** Store the first waiting write. It leaves the queue only once it is stored. */
    method FlushOne() returns (ok: bool)
      requires Flushing() && pendingSessionWrites != []
      modifies this`session, this`appends, this`pendingSessionWrites, this`queued, this`awaits
      ensures Flushing() && Grows() && (phase.Idle? ==> queued == old(queued))
      ensures !ok ==> pendingSessionWrites != []
      ensures ok && awaits == old(awaits) ==> |pendingSessionWrites| < |old(pendingSessionWrites)|
    {
      hide LatchAfter, Latched, DeferredOf, Collects, Waits, Accounts;
      var write := pendingSessionWrites[0];
      Await();
      DeferredSnoc(session, Deferred(write));
      ok := Append(Deferred(write));
      if ok {
        pendingSessionWrites := pendingSessionWrites[1..];
      }
    }

    /** Store the waiting writes, first to last, whatever comes in meanwhile. */
    method FlushPendingSessionWrites() returns (ok: bool)
      requires Valid()
      modifies this`session, this`appends, this`pendingSessionWrites, this`queued, this`awaits, this`settled
      ensures Valid() && Grows()
      ensures if ok then old(queued) <= DeferredOf(session) else pendingSessionWrites != []
      ensures if ok then |old(queued)| <= settled && pendingSessionWrites == queued[settled..]
              else settled == old(settled)
      ensures phase.Idle? ==> queued == old(queued)
    {
      hide LatchAfter, Latched, DeferredOf;
      while |pendingSessionWrites| > 0
        invariant Flushing() && Grows() && settled == old(settled) && (phase.Idle? ==> queued == old(queued))
        decreases |schedule| - awaits, |pendingSessionWrites|
      {
        ok := FlushOne();
        if !ok {
          return;
        }
      }
      ok := true;
      settled := |queued|;
      Await();
    }

    method Emit(e: HarnessEvent)
      requires Valid() && !e.PromptEntered? && !Recovers(e) && e != CompactionStart(Overflow)
      modifies this`log, this`session, this`appends, this`pendingSessionWrites, this`queued, this`awaits
      ensures Valid() && Grows() && Waits() && log == old(log) + [e]
      ensures if phase.Idle? then queued == old(queued) else session == old(session)
      ensures Collects(old(Accounts()), Accounts(), phase.Idle?)
    {
      hide LatchAfter, Latched, DeferredOf;
      LogSnoc(log, e);
      log := log + [e];
      Await();
    }

    /** The harness's side of one agent event. */
    method HandleAgentEvent(e: LoopEvent) returns (ok: bool)
      requires Valid()
      modifies this
      ensures Valid() && Grows() && used == old(used)
      ensures old(log) <= log && Story(log[|old(log)|..], e, ok)
      ensures phase == if e.AgentEnd? && ok then Idle else old(phase)
      ensures lastAssistant == if e.MessageEndOf? && e.isAssistant && ok then Some(e.stop) else old(lastAssistant)
      ensures e.MessageEndOf? && ok ==> Direct(MessageWrite(e.text)) in session
      ensures ok && (e.TurnEnd? || e.NextTurn? || e.AgentEnd?) ==> old(queued) <= DeferredOf(session)
    {
      hide Valid, DeferredOf, Collects;
      ok := true;
      match e {
        case MessageEndOf(text, isAssistant, stop) =>
          Await();
          ok := AppendDirect(MessageWrite(text));
          if !ok {
            return;
          }
          if isAssistant {
            lastAssistant := Some(stop);
          }
          NoteMessage(isAssistant, stop);
          ghost var at := |session| - 1;
          Await();
          assert session[at] == Direct(MessageWrite(text));
        case TurnEnd =>
          Await();
          ok := FlushPendingSessionWrites();
          if !ok {
            return;
          }
          Await();
        case NextTurn =>
          ok := FlushPendingSessionWrites();
        case AgentEnd =>
          ok := FlushPendingSessionWrites();
          if !ok {
            return;
          }
          phase := Idle;
          Await();
        case OtherEvent =>
          Await();
      }
    }

    /** A message is over: a response that is no error lets overflow recovery start again. */
    method NoteMessage(isAssistant: bool, stop: Stop)
      requires Valid()
      modifies this`log, this`overflowRecoveryAttempted
      ensures Valid() && log == old(log) + [MessageEnded(isAssistant, stop)]
    {
      hide LatchAfter, Latched, DeferredOf;
      LogSnoc(log, MessageEnded(isAssistant, stop));
      if isAssistant && !stop.Failed? {
        overflowRecoveryAttempted := false;
      }
      log := log + [MessageEnded(isAssistant, stop)];
    }

    // ----- compaction -----

    /** The latch is shut, if need be, in the same breath as the start is announced. */
    ghost predicate ReadyFor(reason: Reason)
      reads this
    {
      && Conserved() && WithinWorld() && Latched(log)
      && if reason.Overflow? then overflowRecoveryAttempted && !LatchAfter(log)
         else overflowRecoveryAttempted == LatchAfter(log)
    }

    method EmitStart(reason: Reason)
      requires ReadyFor(reason)
      modifies this`log, this`session, this`appends, this`pendingSessionWrites, this`queued, this`awaits
      ensures Valid() && Grows() && log == old(log) + [CompactionStart(reason)]
      ensures Collects(old(AtStart()), Accounts(), false) && NextAwait(old(awaits)) <= awaits
      ensures !phase.Idle? ==> session == old(session)
    {
      hide LatchAfter, Latched, DeferredOf;
      LogSnoc(log, CompactionStart(reason));
      log := log + [CompactionStart(reason)];
      Await();
    }

    /** One more await since `was`. */
    method Pause(ghost was: Books)
      requires Valid() && Collects(was, Accounts(), phase.Idle?)
      modifies this`session, this`appends, this`pendingSessionWrites, this`queued, this`awaits
      ensures Valid() && Grows() && Collects(was, Accounts(), phase.Idle?)
      ensures !phase.Idle? ==> session == old(session)
    {
      hide Valid, Collects;
      ghost var before := Accounts();
      Await();
      CollectsJoin(was, before, Accounts(), phase.Idle?);
    }

    /** What comes before a compaction is stored. `None` means there is something to store; else the compaction
        ends here, with `Some(None)` if something threw. */
    method PrepareCompaction(script: CompactionScript, manual: bool)
      returns (early: Option<Option<bool>>, aborted: bool)
      requires Valid()
      modifies this`session, this`appends, this`pendingSessionWrites, this`queued, this`awaits
      ensures Valid() && Grows() && early != Some(Some(true))
      ensures Collects(old(Accounts()), Accounts(), phase.Idle?) && (!phase.Idle? ==> session == old(session))
      ensures early.None? <==> Runs(script)
      ensures aborted <==> CalledOff(script, manual)
      ensures early == Some(Some(false)) <==> !manual && (NothingDone(script) || aborted)
    {
      ghost var was := Accounts();
      CollectsNothing(was, phase.Idle?);
      hide Valid, Collects;
      if !script.hasModel {
        return if manual then Some(None) else Some(Some(false)), false;
      }
      Pause(was);
      if script.auth != Some(true) {
        return if manual || script.auth.None? then Some(None) else Some(Some(false)), false;
      }
      Pause(was);
      if script.branch.Throws? || script.preparation.Unpreparable? {
        return Some(None), false;
      }
      if script.preparation.NothingToDo? {
        return if manual then Some(None) else Some(Some(false)), false;
      }
      Pause(was);
      if script.hook.HookThrows? {
        return Some(None), false;
      }
      if script.hook.Cancels? {
        return if manual then Some(None) else Some(Some(false)), true;
      }
      var failed := !script.hook.Provides? && script.summary.Throws?;
      Pause(was);
      // Only the manual form looks at the abort before the result.
      if script.aborted && (manual || !failed) {
        return if manual then Some(None) else Some(Some(false)), true;
      }
      return if failed then Some(None) else None, false;
    }

    /** Everything between the two brackets of a compaction: `Some(true)` if it compacted, `Some(false)` if it
        ended without an error, `None` if something threw. */
    method Compaction(script: CompactionScript, manual: bool) returns (done: Option<bool>, aborted: bool)
      requires Valid()
      modifies this`log, this`session, this`appends, this`pendingSessionWrites, this`queued, this`awaits
      ensures Valid() && Grows() && old(log) <= log && Collects(old(Accounts()), Accounts(), phase.Idle?)
      ensures log[|old(log)|..] == if done == Some(true) && script.entryFound then [SessionCompact] else []
      ensures done == Some(true) ==> Direct(CompactionWrite) in session && !aborted
      ensures !phase.Idle? ==>
        session == old(session) + if done == Some(true) then [Direct(CompactionWrite)] else []
      ensures aborted <==> CalledOff(script, manual)
      ensures done == Some(true) ==> Runs(script)
      ensures done == Some(false) <==> !manual && (NothingDone(script) || aborted)
    {
      hide Valid, Collects;
      ghost var was := Accounts();
      var early;
      early, aborted := PrepareCompaction(script, manual);
      if early.Some? {
        return early.value, aborted;
      }
      var ok := AppendDirect(CompactionWrite);
      if !ok {
        return None, false;
      }
      ghost var at := |session| - 1;
      Pause(was);
      if script.entryFound {
        ghost var before := Accounts();
        Emit(SessionCompact);
        CollectsJoin(was, before, Accounts(), phase.Idle?);
      }
      assert session[at] == Direct(CompactionWrite);
      return Some(true), false;
    }

    /** Compaction within a turn. Whatever happens, one end follows the start. */
    method RunAutoCompaction(reason: Reason, willRetry: bool, script: CompactionScript, queuedMessages: bool)
      returns (goOn: bool)
      requires ReadyFor(reason)
      modifies this`log, this`session, this`appends, this`pendingSessionWrites, this`queued, this`awaits, this`phase
      ensures Valid() && Grows() && Waits() && phase == old(phase) && old(awaits) <= awaits
      ensures Collects(old(AtStart()), Accounts(), false)
      ensures old(log) <= log && Bracketed(log[|old(log)|..], reason)
      ensures CompactedLast(log) && HasStart(log[|old(log)|..])
      ensures var end := log[|log| - 1];
        && (goOn ==> end.done && (willRetry || queuedMessages))
        && (end.done ==> (goOn <==> willRetry || queuedMessages) && end.willRetry == willRetry
                         && Direct(CompactionWrite) in session)
        && (!end.done ==> !end.willRetry)
    {
      hide Valid, ReadyFor, Collects, AtStart, Bracketed;
      EmitStart(reason);
      var previousPhase := phase;
      phase := Compacting;
      ghost var started := Accounts();
      var done, aborted := Compaction(script, false);
      ghost var compacted := Accounts();
      ghost var middle := if done == Some(true) && script.entryFound then [SessionCompact] else [];
      var end := CompactionEnd(reason, done == Some(true), aborted, done == Some(true) && willRetry);
      assert log == old(log) + [CompactionStart(reason)] + middle;
      Emit(end);
      CollectsJoin(started, compacted, Accounts(), false);
      CollectsJoin(old(AtStart()), started, Accounts(), false);
      CollectsWaits(old(AtStart()), Accounts());
      BracketIs(old(log), reason, middle, end);
      goOn := done == Some(true) && (willRetry || queuedMessages);
      phase := previousPhase;
    }

    /** `compact()`: a compaction asked for by hand, while idle. */
    method Compact(script: CompactionScript) returns (busy: bool, ok: bool)
      requires Valid()
      modifies this`log, this`session, this`appends, this`pendingSessionWrites, this`queued, this`awaits, this`phase
      ensures Valid() && Grows() && (busy <==> !old(phase).Idle?)
      ensures busy ==> unchanged(this) && !ok
      ensures !busy ==>
        && phase == Idle && old(log) <= log && Bracketed(log[|old(log)|..], Manual)
        && (ok <==> log[|log| - 1].done)
        && session == old(session) + (if ok then [Direct(CompactionWrite)] else [])
        && Collects(old(Accounts()), Accounts(), false) && NextAwait(old(awaits)) <= awaits
    {
      hide LatchAfter, Latched, DeferredOf, Collects, Bracketed;
      if !phase.Idle? {
        return true, false;
      }
      busy := false;
      phase := Compacting;
      EmitStart(Manual);
      ghost var started := Accounts();
      var done, aborted := Compaction(script, true);
      ghost var compacted := Accounts();
      ghost var middle := if done == Some(true) && script.entryFound then [SessionCompact] else [];
      var end := CompactionEnd(Manual, done == Some(true), aborted, false);
      assert log == old(log) + [CompactionStart(Manual)] + middle;
      Emit(end);
      BracketIs(old(log), Manual, middle, end);
      CollectsJoin(old(Accounts()), started, compacted, false);
      CollectsJoin(old(Accounts()), compacted, Accounts(), false);
      ok := done == Some(true);
      phase := Idle;
    }

    /** The first time, compact and retry; after that, report that recovery is spent. */
    method RecoverFromOverflow(script: CompactionScript, queuedMessages: bool) returns (goOn: bool)
      requires Valid()
      modifies this`log, this`session, this`appends, this`pendingSessionWrites, this`queued, this`awaits, this`phase
      modifies this`overflowRecoveryAttempted
      ensures Valid() && Grows() && phase == old(phase) && old(awaits) <= awaits && old(log) <= log
      ensures Waits() && (phase.Idle? && !HasStart(log[|old(log)|..]) ==> queued == old(queued))
      ensures var added := log[|old(log)|..];
        if old(overflowRecoveryAttempted)
        then added == [CompactionEnd(Overflow, false, false, false)] && !goOn
        else Bracketed(added, Overflow) && overflowRecoveryAttempted
             && CompactedLast(log) && (goOn <==> log[|log| - 1].done)
    {
      hide LatchAfter, Latched, Conserved, WithinWorld, Collects, Bracketed;
      if overflowRecoveryAttempted {
        Emit(CompactionEnd(Overflow, false, false, false));
        return false;
      }
      overflowRecoveryAttempted := true;
      goOn := RunAutoCompaction(Overflow, true, script, queuedMessages);
      BracketLatches(log, |old(log)|);
    }

    /** After a run: compact on overflow, once, and retry; or compact because the context has grown. */
    method CheckCompaction(stop: Stop, check: Check, script: CompactionScript) returns (goOn: bool)
      requires Valid()
      modifies this`log, this`session, this`appends, this`pendingSessionWrites, this`queued, this`awaits, this`phase
      modifies this`overflowRecoveryAttempted
      ensures Valid() && Grows() && phase == old(phase) && old(awaits) <= awaits && old(log) <= log
      ensures Waits() && (phase.Idle? && !HasStart(log[|old(log)|..]) ==> queued == old(queued))
      ensures Checked(stop, check, old(log), log, goOn)
    {
      hide LatchAfter, Latched, Conserved, WithinWorld, Collects, Bracketed, Spent;
      LatchIs(log);
      if !check.enabled || stop.Aborted? {
        return false;
      }
      Await();
      if check.stale {
        return false;
      }
      if check.overflow {
        goOn := RecoverFromOverflow(script, check.queued);
        return;
      }
      if check.overThreshold {
        goOn := RunAutoCompaction(Threshold, false, script, check.queued);
        return;
      }
      goOn := false;
    }

    // ----- a turn -----

    /** The run's events, one after the other, until one fails. */
    method RunLoop(events: seq<LoopEvent>) returns (ok: bool)
      requires Valid()
      modifies this
      ensures Valid() && Grows() && used == old(used) && old(log) <= log
      ensures NoCompaction(log[|old(log)|..])
      ensures ok && events != [] && events[|events| - 1].AgentEnd? ==> phase.Idle?
      ensures ok ==> lastAssistant == LastResponse(events, old(lastAssistant))
    {
      hide Valid;
      ok := true;
      for i := 0 to |events|
        invariant Valid() && Grows() && used == old(used) && old(log) <= log
        invariant NoCompaction(log[|old(log)|..]) && lastAssistant == LastResponse(events[..i], old(lastAssistant))
        invariant 0 < i && events[i - 1].AgentEnd? ==> phase.Idle?
      {
        ghost var before := log;
        assert events[..i + 1][..i] == events[..i];
        ok := HandleAgentEvent(events[i]);
        assert log[|old(log)|..] == before[|old(log)|..] + log[|before|..];
        if !ok {
          return;
        }
      }
      assert events[..|events|] == events;
    }

    /** One pass of `executeTurn`: the run, its failure report if it failed, and the flush that follows in any
        case. It fails if the report fails, the flush fails, or no assistant message came back. */
    method RunPass(pass: Pass, aborted: bool) returns (ok: bool)
      requires Valid() && pass.WellFormed()
      modifies this
      ensures Valid() && Grows() && used == old(used) && old(log) <= log && NoCompaction(log[|old(log)|..])
      ensures ok ==> old(queued) <= DeferredOf(session)
      ensures ok ==> phase.Idle? && pendingSessionWrites == [] && settled == |queued|
      ensures ok ==>
        || (!pass.throws && lastAssistant == LastResponse(pass.events, old(lastAssistant)))
        || lastAssistant == Some(if aborted then Aborted else Failed)
    {
      hide LatchAfter, Latched, DeferredOf;
      phase := InTurn;
      ok := RunLoop(pass.events);
      var assistantReturned := pass.assistantReturned;
      if !ok || pass.throws {
        ghost var before := log;
        FailureIsLast(lastAssistant, if aborted then Aborted else Failed);
        ok := RunLoop(FailureEvents(if aborted then Aborted else Failed));
        assert log[|old(log)|..] == before[|old(log)|..] + log[|before|..];
        assistantReturned := true;
      }
      var flushed := FlushPendingSessionWrites();
      ok := ok && assistantReturned && flushed;
    }

    /** `_handlePostAgentRun`. */
    method HandlePostAgentRun(pass: Pass) returns (goOn: bool)
      requires Valid()
      modifies this
      ensures Valid() && Grows() && used == old(used) && old(log) <= log && phase == old(phase)
      ensures CompactionsPaired(log[|old(log)|..])
      ensures Waits() && (phase.Idle? && !HasStart(log[|old(log)|..]) ==> queued == old(queued))
      ensures HasStart(log[|old(log)|..]) ==> log[|log| - 1].CompactionEnd?
      ensures lastAssistant.None? && Decided(old(lastAssistant), pass.check, old(log), log, goOn)
    {
      hide LatchAfter, Latched, DeferredOf;
      var msg := lastAssistant;
      lastAssistant := None;
      if msg.None? {
        CheckPaired(log[|old(log)|..]);
        return false;
      }
      goOn := CheckCompaction(msg.value, pass.check, pass.script);
      CheckPaired(log[|old(log)|..]);
      if goOn {
        return;
      }
      goOn := pass.check.queued;
    }

    /** A pass and the check after it. If it succeeds, what still waits was deferred during the compaction that the
        check led to. */
    method RunPassAndCheck(aborted: nat -> bool)
      returns (ok: bool, goOn: bool, ghost last: Option<Stop>, ghost between: seq<HarnessEvent>)
      requires Valid() && used < |passes|
      modifies this
      ensures Valid() && Grows() && used == old(used) + 1 && old(log) <= log && CompactionsPaired(log[|old(log)|..])
      ensures ok ==> phase.Idle? && pendingSessionWrites == queued[settled..]
      ensures ok && !CompactedLast(log) ==> pendingSessionWrites == []
      ensures ok ==> Decided(last, passes[old(used)].check, between, log, goOn) && lastAssistant.None?
      ensures ok ==> last == LastResponse(passes[old(used)].events, old(lastAssistant))
                     || last == Some(Failed) || last == Some(Aborted)
      ensures !ok ==> !goOn
    {
      hide LatchAfter, Latched, Conserved, CompactionsPaired, Decided, Checked;
      var pass := passes[used];
      used := used + 1;
      ok := RunPass(pass, aborted(used));
      NoneOpen(log[|old(log)|..]);
      goOn, last, between := false, lastAssistant, log;
      if ok {
        goOn := HandlePostAgentRun(pass);
        PairedJoin(old(log), between, log);
      }
    }

    lemma PassesBound()
      requires Valid()
      ensures used <= |passes|
    {
    }

    /** Pass after pass, while a compaction asks for a retry or messages wait. The world may end before the turn
        does: `cut` says so. */
    method ExecuteTurn(aborted: nat -> bool) returns (ok: bool, cut: bool, ghost verdicts: seq<bool>)
      requires Valid()
      modifies this
      ensures Valid() && Grows() && old(log) <= log
      ensures CompactionsPaired(log[|old(log)|..])
      ensures cut ==> used == |passes|
      ensures ok && !cut ==> phase.Idle? && pendingSessionWrites == queued[settled..]
      ensures ok && !cut && !CompactedLast(log) ==> pendingSessionWrites == []
      ensures |verdicts| == used - old(used) && forall i :: 0 <= i < |verdicts| - 1 ==> verdicts[i]
      ensures ok && !cut ==> verdicts != [] && !verdicts[|verdicts| - 1]
    {
      hide Valid, CompactionsPaired, Decided, Checked;
      var firstPass := true;
      cut, verdicts := false, [];
      assert log[|old(log)|..] == [];
      PairedNothing();
      while true
        invariant Valid() && Grows() && old(log) <= log && !cut
        invariant CompactionsPaired(log[|old(log)|..])
        invariant |verdicts| == used - old(used) && forall i :: 0 <= i < |verdicts| ==> verdicts[i]
        decreases |passes| - used
      {
        PassesBound();
        if used == |passes| {
          return true, true, verdicts;
        }
        if !firstPass {
          ok := FlushPendingSessionWrites();
          if !ok {
            return;
          }
          Await();
        }
        firstPass := false;
        ghost var before := log;
        var goOn;
        ghost var last, between;
        ok, goOn, last, between := RunPassAndCheck(aborted);
        verdicts := verdicts + [goOn];
        PairedJoin(old(log), before, log);
        if !ok || !goOn {
          return;
        }
      }
    }

    /** `prompt`: arms the recovery anew. `skill` and `promptFromTemplate` do not. */
    method Prompt(rearms: bool, aborted: nat -> bool) returns (busy: bool, ok: bool, cut: bool)
      requires Valid()
      modifies this
      ensures Valid() && Grows() && old(log) <= log && (busy <==> !old(phase).Idle?)
      ensures busy ==> unchanged(this)
      ensures var from := |old(log)| + if rearms && !busy then 1 else 0;
        && from <= |log| && CompactionsPaired(log[from..])
        && (rearms && !busy ==> log[|old(log)|] == PromptEntered)
      ensures !busy && !cut ==> phase == Idle
      ensures ok && !cut ==> pendingSessionWrites == queued[settled..]
      ensures ok && !cut && !CompactedLast(log) ==> pendingSessionWrites == []
    {
      hide LatchAfter, Latched, DeferredOf, CompactionsPaired;
      assert log[|old(log)|..] == [];
      PairedNothing();
      if !phase.Idle? {
        return true, false, false;
      }
      busy := false;
      phase := InTurn;
      if rearms {
        LogSnoc(log, PromptEntered);
        overflowRecoveryAttempted := false;
        log := log + [PromptEntered];
      }
      Await();
      ghost var verdicts;
      ok, cut, verdicts := ExecuteTurn(aborted);
      if !ok {
        phase := Idle;
      }
    }
  }

  /** A write asked for during a compaction by hand still waits when the harness is idle again, and one made then is
      stored before it. */
  method CompactLeavesWritesWaiting(script: CompactionScript, w1: Write, w2: Write) returns (h: AgentHarness)
    ensures h.Valid() && h.phase.Idle? && h.pendingSessionWrites == [w1]
    ensures h.session != [] && h.session[|h.session| - 1] == Direct(w2)
  {
    hide AgentHarness.Valid;
    h := new AgentHarness([[w1]], n => false, []);
    h.AskedOnce(0);
    var _, _ := h.Compact(script);
    var _ := h.AppendMessage(w2);
  }

  /** What the check after a run adds to the story, and whether the turn goes on because of it. */
  ghost predicate Checked(stop: Stop, check: Check, before: seq<HarnessEvent>, after: seq<HarnessEvent>, goOn: bool) {
    var wanted := check.enabled && !stop.Aborted? && !check.stale;
    && before <= after
    && var added := after[|before|..];
       if wanted && check.overflow then
         if Spent(before) then added == [CompactionEnd(Overflow, false, false, false)] && !goOn
         else Bracketed(added, Overflow) && (goOn <==> after[|after| - 1].done)
       else if wanted && check.overThreshold
       then Bracketed(added, Threshold) && (goOn <==> after[|after| - 1].done && check.queued)
       else added == [] && !goOn
  }

  /** Whether the turn goes on after a run whose last response ended like this. */
  ghost predicate Decided(last: Option<Stop>, check: Check, before: seq<HarnessEvent>, after: seq<HarnessEvent>,
                          goOn: bool) {
    match last
    case None => after == before && !goOn
    case Some(stop) =>
      || (goOn && Checked(stop, check, before, after, true))
      || (goOn == check.queued && Checked(stop, check, before, after, false))
  }

  /** No bracket of a compaction and no new prompt among these events. */
  predicate NoCompaction(added: seq<HarnessEvent>) {
    forall i :: 0 <= i < |added| ==>
      !added[i].CompactionStart? && !added[i].CompactionEnd? && !added[i].PromptEntered?
  }

  /** The story so far ends with a compaction. */
  predicate CompactedLast(log: seq<HarnessEvent>) {
    log != [] && log[|log| - 1].CompactionEnd?
  }

  predicate HasStart(added: seq<HarnessEvent>) {
    added != [] && added[0].CompactionStart?
  }

  /** Which compaction is open, with no new prompt meanwhile: each start is followed by its end before the next start.
      The one end without a start is the report that overflow recovery is spent. `None` if that is not so. */
  function OpenAfter(added: seq<HarnessEvent>): Option<Option<Reason>> {
    if added == [] then Some(None)
    else
      var before, last := OpenAfter(added[..|added| - 1]), added[|added| - 1];
      if before.None? then None
      else match last
        case CompactionStart(r) => if before.value.None? then Some(Some(r)) else None
        case CompactionEnd(r, done, _, _) =>
          if before.value == Some(r) then Some(None)
          else if before.value.None? && r.Overflow? && !done then Some(None)
          else None
        case PromptEntered => None
        case _ => before
  }

  /** Starts and ends pair up, and none is left open. */
  predicate CompactionsPaired(added: seq<HarnessEvent>) {
    OpenAfter(added) == Some(None)
  }

  /** All that the check after a run may add is paired. */
  lemma CheckPaired(added: seq<HarnessEvent>)
    requires added == [] || added == [CompactionEnd(Overflow, false, false, false)]
             || Bracketed(added, Overflow) || Bracketed(added, Threshold)
    ensures CompactionsPaired(added)
  {
    if |added| == 1 {
      assert added[..0] == [];
    } else if |added| > 1 {
      var start, end := added[0], added[|added| - 1];
      assert [start][..0] == [];
      assert OpenAfter([start]) == Some(Some(start.reason));
      if |added| == 3 {
        assert [start, SessionCompact][..1] == [start];
        assert added[..2] == [start, SessionCompact];
      } else {
        assert added[..1] == [start];
      }
    }
  }

  lemma PairedNothing()
    ensures CompactionsPaired([])
  {
  }

  lemma {:induction false} OpenJoin(a: seq<HarnessEvent>, b: seq<HarnessEvent>)
    requires CompactionsPaired(a)
    ensures OpenAfter(a + b) == OpenAfter(b)
    decreases |b|
  {
    if b == [] {
      assert a + b == a;
    } else {
      assert (a + b)[..|a + b| - 1] == a + b[..|b| - 1];
      OpenJoin(a, b[..|b| - 1]);
    }
  }

  lemma {:induction false} NoneOpen(added: seq<HarnessEvent>)
    requires NoCompaction(added)
    ensures CompactionsPaired(added)
    decreases |added|
  {
    if added != [] { NoneOpen(added[..|added| - 1]); }
  }

  lemma PairedJoin(start: seq<HarnessEvent>, middle: seq<HarnessEvent>, end: seq<HarnessEvent>)
    requires start <= middle <= end && CompactionsPaired(middle[|start|..]) && CompactionsPaired(end[|middle|..])
    ensures CompactionsPaired(end[|start|..])
  {
    assert end[|start|..] == middle[|start|..] + end[|middle|..];
    OpenJoin(middle[|start|..], end[|middle|..]);
  }

  /** A start, an end of the same kind, and nothing between but the news of a stored compaction. */
  predicate Bracketed(added: seq<HarnessEvent>, reason: Reason) {
    && 2 <= |added| <= 3 && added[0] == CompactionStart(reason)
    && (|added| == 3 ==> added[1] == SessionCompact && added[2].CompactionEnd? && added[2].done)
    && added[|added| - 1].CompactionEnd? && added[|added| - 1].reason == reason
  }

  lemma BracketIs(before: seq<HarnessEvent>, reason: Reason, middle: seq<HarnessEvent>, end: HarnessEvent)
    requires end.CompactionEnd? && end.reason == reason && (middle == [] || (middle == [SessionCompact] && end.done))
    ensures var log := before + [CompactionStart(reason)] + middle + [end];
      before <= log && Bracketed(log[|before|..], reason) && HasStart(log[|before|..])
  {
    var log := before + [CompactionStart(reason)] + middle + [end];
    assert log[|before|..] == [CompactionStart(reason)] + middle + [end];
  }

  lemma BracketLatches(log: seq<HarnessEvent>, n: nat)
    requires n <= |log| && Bracketed(log[n..], Overflow)
    ensures LatchAfter(log)
  {
    assert forall k :: n <= k < |log| ==> log[k] == log[n..][k - n];
    StaysSpent(log, n);
  }

  /** What one agent event adds to the story. */
  predicate Story(added: seq<HarnessEvent>, e: LoopEvent, ok: bool) {
    added == if e.MessageEndOf? && ok then [MessageEnded(e.isAssistant, e.stop)] else []
  }
}
