/** Calls of the harness that overlap: wherever one of them awaits, another may begin if the phase is idle. */
module HarnessCalls {
  import opened Options
  import opened Harness

  /** Calls are known by number. */
  type Call = nat

  /** Where a call stands. A turn runs the agent loop; at its end it stores what waits and frees the phase, stores
      what waits once more, and checks whether to compact and whether to go on. */
  datatype Stage =
    | Turning
    | Ending
    | Settling
    | Settled(checked: bool)
    | Announced
    | Automatic(saved: Phase)
    | Closing(saved: Phase)
    | Resuming
    | Ready
    | ByHand
    | ByHandClosing
  {
    /** It may be storing deferred writes. */
    predicate Flushes() {
      Turning? || Settling? || Resuming?
    }

    /** Its compaction has begun and not ended. */
    predicate Compacts() {
      Announced? || Automatic? || ByHand?
    }

    predicate CanFail() {
      Turning? || Ending? || Settling? || Settled? || Resuming? || Ready?
    }
  }

  datatype Bracket = Began(call: Call) | Ended(call: Call)

  /** Who set the phase last: a call that has it, one that freed it, or an automatic compaction that put back the
      phase it had found. */
  datatype Setter = Freed | Taken(call: Call) | PutBack(saved: Phase)

  datatype World = World(
    phase: Phase, setter: Setter, calls: map<Call, Stage>, held: map<Call, Write>,
    waiting: seq<Write>, queued: seq<Write>, session: seq<Stored>, story: seq<Bracket>)

  const START := World(Idle, Freed, map[], map[], [], [], [], [])

  datatype Move =
    | Prompt(call: Call)
    | Compact(call: Call)
    | Asks(write: Write)
    | BeginStore(call: Call)
    | EndStore(call: Call, ok: bool)
    | FlushEnds(call: Call)
    | RunEnds(call: Call)
    | Announce(call: Call)
    | Enter(call: Call)
    | Report(call: Call)
    | Leave(call: Call)
    | GoOn(call: Call)
    | Resume(call: Call)
    | Return(call: Call)
    | Fail(call: Call)

  /** What can happen next. A call that is storing a write waits for that. */
  predicate Enabled(w: World, m: Move) {
    match m
    case Prompt(c) => c !in w.calls && w.phase.Idle?
    case Compact(c) => c !in w.calls && w.phase.Idle?
    case Asks(_) => true
    case EndStore(c, _) => c in w.calls && c in w.held && w.calls[c].Flushes()
    case _ =>
      m.call in w.calls && m.call !in w.held &&
      var stage := w.calls[m.call];
      match m
      case BeginStore(_) => stage.Flushes() && w.waiting != []
      case FlushEnds(_) => stage.Flushes() && w.waiting == []
      case RunEnds(_) => stage.Ending?
      case Announce(_) => stage == Settled(false)
      case Enter(_) => stage.Announced?
      case Report(_) => stage.Automatic? || stage.ByHand?
      case Leave(_) => stage.Closing? || stage.ByHandClosing?
      case GoOn(_) => stage.Settled?
      case Resume(_) => stage.Ready?
      case Return(_) => stage.Settled?
      case _ => stage.CanFail()
  }

  /** The stage after a flush that found nothing left waiting. */
  function Flushed(stage: Stage): Stage {
    if stage.Turning? then Ending else if stage.Settling? then Settled(false) else Ready
  }

  function At(w: World, c: Call, stage: Stage): World {
    w.(calls := w.calls[c := stage])
  }

  function Gone(w: World, c: Call): World {
    w.(calls := w.calls - {c})
  }

  function Take(w: World, c: Call, phase: Phase): World {
    w.(phase := phase, setter := Taken(c))
  }

  function Free(w: World): World {
    w.(phase := Idle, setter := Freed)
  }

  /** Storing a write is over: it leaves the head of the queue, whatever that is by now; or the call throws, which
      ends it unless its run can still report the failure. */
  function StoreEnds(w: World, c: Call, ok: bool): World
    requires c in w.calls && c in w.held
  {
    var done := w.(held := w.held - {c});
    if ok then
      done.(session := w.session + [Deferred(w.held[c])], waiting := if w.waiting == [] then [] else w.waiting[1..])
    else if w.calls[c].Turning? then done
    else Gone(Free(done), c)
  }

  function After(w: World, m: Move): World
    requires Enabled(w, m)
  {
    match m
    case Prompt(c) => At(Take(w, c, InTurn), c, Turning)
    case Compact(c) => At(Take(w, c, Compacting), c, ByHand).(story := w.story + [Began(c)])
    case Asks(write) =>
      if w.phase.Idle? then w.(session := w.session + [Direct(write)])
      else w.(waiting := w.waiting + [write], queued := w.queued + [write])
    case BeginStore(c) => w.(held := w.held[c := w.waiting[0]])
    case EndStore(c, ok) => StoreEnds(w, c, ok)
    case FlushEnds(c) => At(w, c, Flushed(w.calls[c]))
    case RunEnds(c) => At(Free(w), c, Settling)
    case Announce(c) => At(w, c, Announced).(story := w.story + [Began(c)])
    case Enter(c) => At(Take(w, c, Compacting), c, Automatic(w.phase))
    case Report(c) =>
      At(w, c, if w.calls[c].Automatic? then Closing(w.calls[c].saved) else ByHandClosing)
        .(story := w.story + [Ended(c)])
    case Leave(c) =>
      if w.calls[c].ByHandClosing? then Gone(Free(w), c)
      else At(w, c, Settled(true)).(phase := w.calls[c].saved, setter := PutBack(w.calls[c].saved))
    case GoOn(c) => At(w, c, Resuming)
    case Resume(c) => At(Take(w, c, InTurn), c, Turning)
    case Return(c) => Gone(w, c)
    case Fail(c) => Gone(Free(w), c)
  }

  predicate CanRun(w: World, moves: seq<Move>)
    decreases |moves|
  {
    moves != [] ==> Enabled(w, moves[0]) && CanRun(After(w, moves[0]), moves[1..])
  }

  function Run(w: World, moves: seq<Move>): World
    requires CanRun(w, moves)
    decreases |moves|
  {
    if moves == [] then w else Run(After(w, moves[0]), moves[1..])
  }

  /** Something holds of every move of a run, in the world where it happens. */
  predicate Always(w: World, moves: seq<Move>, holds: (World, Move) -> bool)
    requires CanRun(w, moves)
    decreases |moves|
  {
    moves != [] ==> holds(w, moves[0]) && Always(After(w, moves[0]), moves[1..], holds)
  }

  // ----- deferred writes -----

  /** Deferred writes stored and still waiting are all those queued, in order, each once. */
  predicate Conserved(w: World) {
    DeferredOf(w.session) + w.waiting == w.queued
  }

  /** A write that was stored is still at the head of the queue. */
  predicate FindsItsOwn(w: World, m: Move) {
    m.EndStore? && m.ok && m.call in w.held ==> w.waiting != [] && w.waiting[0] == w.held[m.call]
  }

  /** What waits is the end of what was queued, and at least the rest was stored. */
  predicate Suffix(w: World) {
    && |w.waiting| <= |w.queued| <= |DeferredOf(w.session)| + |w.waiting|
    && w.waiting == w.queued[|w.queued| - |w.waiting|..]
  }

  lemma MoveConserves(w: World, m: Move)
    requires Enabled(w, m) && Suffix(w)
    ensures Suffix(After(w, m))
    ensures Conserved(After(w, m)) <==> Conserved(w) && FindsItsOwn(w, m)
  {
    hide DeferredOf;
    match m {
      case Asks(write) => AskConserves(w, write);
      case EndStore(c, ok) =>
        if ok { StoreConserves(w, c); }
      case _ =>
    }
  }

  lemma AskConserves(w: World, write: Write)
    requires Suffix(w)
    ensures var v := After(w, Asks(write));
      Suffix(v) && (Conserved(v) <==> Conserved(w))
  {
    hide DeferredOf;
    DeferredSnoc(w.session, Direct(write));
    var d := DeferredOf(w.session);
    if !w.phase.Idle? {
      assert d + (w.waiting + [write]) == (d + w.waiting) + [write];
      if Conserved(After(w, Asks(write))) {
        assert (d + w.waiting) + [write] == w.queued + [write];
        assert ((d + w.waiting) + [write])[..|d + w.waiting|] == d + w.waiting;
        assert (w.queued + [write])[..|w.queued|] == w.queued;
      }
    }
  }

  lemma StoreConserves(w: World, c: Call)
    requires Enabled(w, EndStore(c, true)) && Suffix(w)
    ensures var v := After(w, EndStore(c, true));
      Suffix(v) && (Conserved(v) <==> Conserved(w) && FindsItsOwn(w, EndStore(c, true)))
  {
    hide DeferredOf;
    var h, d := w.held[c], DeferredOf(w.session);
    DeferredSnoc(w.session, Deferred(h));
    if w.waiting != [] {
      HeadMoves(d, w.waiting, h, w.queued);
    }
  }

  /** Moving a write behind `d` and dropping the head of what waits keeps the whole only if it is that head. */
  lemma HeadMoves(d: seq<Write>, waiting: seq<Write>, h: Write, queued: seq<Write>)
    requires waiting != [] && |waiting| <= |queued| && waiting == queued[|queued| - |waiting|..]
    ensures waiting[1..] == queued[|queued| - |waiting[1..]|..]
    ensures (d + [h]) + waiting[1..] == queued <==> d + waiting == queued && waiting[0] == h
  {
    assert waiting == [waiting[0]] + waiting[1..];
    if (d + [h]) + waiting[1..] == queued {
      assert queued[|d|] == h && queued[..|d|] == d && |queued| - |waiting| == |d|;
      assert d + waiting == queued;
    }
    if d + waiting == queued && waiting[0] == h {
      assert (d + [h]) + waiting[1..] == d + waiting;
    }
  }

  /** Over every run, overlapping or not: no deferred write is lost, stored twice or out of order, if and only if
      every write that was stored was still at the head of the queue then. */
  lemma {:induction false} ConservedExactly(w: World, moves: seq<Move>)
    requires CanRun(w, moves) && Suffix(w)
    ensures Suffix(Run(w, moves))
    ensures Conserved(Run(w, moves)) <==> Conserved(w) && Always(w, moves, FindsItsOwn)
    decreases |moves|
  {
    hide Enabled, After, Suffix, Conserved, FindsItsOwn;
    if moves != [] {
      MoveConserves(w, moves[0]);
      ConservedExactly(After(w, moves[0]), moves[1..]);
    }
  }

  // ----- the phase -----

  /** The phase is what its last setter made it; a call that took it last is still in the stage for which it did. */
  predicate PhaseKnown(w: World) {
    match w.setter
    case Freed => w.phase.Idle?
    case PutBack(saved) => w.phase == saved
    case Taken(c) => c in w.calls && Holds(w.calls[c], w.phase)
  }

  predicate Holds(stage: Stage, phase: Phase) {
    match stage
    case Turning => phase.InTurn?
    case Ending => phase.InTurn?
    case Automatic(_) => phase.Compacting?
    case Closing(_) => phase.Compacting?
    case ByHand => phase.Compacting?
    case ByHandClosing => phase.Compacting?
    case _ => false
  }

  lemma MoveKeepsPhase(w: World, m: Move)
    requires Enabled(w, m) && PhaseKnown(w)
    ensures PhaseKnown(After(w, m))
  {
  }

  lemma {:induction false} RunKeepsPhase(w: World, moves: seq<Move>)
    requires CanRun(w, moves) && PhaseKnown(w)
    ensures PhaseKnown(Run(w, moves))
    decreases |moves|
  {
    hide Enabled, After, PhaseKnown;
    if moves != [] {
      MoveKeepsPhase(w, moves[0]);
      RunKeepsPhase(After(w, moves[0]), moves[1..]);
    }
  }

  /** When no call is under way, the harness is idle if and only if the phase was not last put back, by an automatic
      compaction, to a busy one that it had found. */
  lemma IdleExactly(moves: seq<Move>)
    requires CanRun(START, moves) && Run(START, moves).calls == map[]
    ensures var w := Run(START, moves);
      w.phase.Idle? <==> !(w.setter.PutBack? && !w.setter.saved.Idle?)
  {
    RunKeepsPhase(START, moves);
  }

  /** Otherwise it is busy for good: no call can begin any more. */
  lemma {:induction false} BusyForGood(w: World, moves: seq<Move>)
    requires w.calls == map[] && !w.phase.Idle? && CanRun(w, moves)
    ensures var v := Run(w, moves); v.calls == map[] && v.phase == w.phase
    ensures forall m :: m in moves ==> m.Asks?
    decreases |moves|
  {
    if moves != [] {
      assert moves[0].Asks?;
      BusyForGood(After(w, moves[0]), moves[1..]);
    }
  }

  /** An automatic compaction finds the harness idle. */
  predicate FindsIdle(w: World, m: Move) {
    m.Enter? ==> w.phase.Idle?
  }

  predicate SavedIdle(w: World) {
    && (w.setter.PutBack? ==> w.setter.saved.Idle?)
    && forall c :: c in w.calls ==> (w.calls[c].Automatic? || w.calls[c].Closing? ==> w.calls[c].saved.Idle?)
  }

  lemma MoveSavesIdle(w: World, m: Move)
    requires Enabled(w, m) && SavedIdle(w) && FindsIdle(w, m)
    ensures SavedIdle(After(w, m))
  {
  }

  lemma {:induction false} RunSavesIdle(w: World, moves: seq<Move>)
    requires CanRun(w, moves) && SavedIdle(w) && Always(w, moves, FindsIdle)
    ensures SavedIdle(Run(w, moves))
    decreases |moves|
  {
    hide Enabled, After, SavedIdle, FindsIdle;
    if moves != [] {
      MoveSavesIdle(w, moves[0]);
      RunSavesIdle(After(w, moves[0]), moves[1..]);
    }
  }

  /** So if every automatic compaction finds the harness idle, it is idle whenever no call is under way. */
  lemma IdleIfFoundIdle(moves: seq<Move>)
    requires CanRun(START, moves) && Always(START, moves, FindsIdle) && Run(START, moves).calls == map[]
    ensures Run(START, moves).phase.Idle?
  {
    RunSavesIdle(START, moves);
    IdleExactly(moves);
  }

  // ----- the brackets of compactions -----

  /** Compactions come one after the other: each begins and ends before the next begins. */
  predicate Alternates(story: seq<Bracket>) {
    story == [] ||
      (Alternates(story[..|story| - 1]) && Fits(story[..|story| - 1], story[|story| - 1]))
  }

  predicate Fits(story: seq<Bracket>, b: Bracket) {
    if |story| % 2 == 0 then b.Began? else b == Ended(story[|story| - 1].call)
  }

  function OpenIn(story: seq<Bracket>): set<Call> {
    if story == [] then {}
    else
      var before, last := OpenIn(story[..|story| - 1]), story[|story| - 1];
      if last.Began? then before + {last.call} else before - {last.call}
  }

  function CompactingIn(calls: map<Call, Stage>): set<Call> {
    set c | c in calls && calls[c].Compacts()
  }

  lemma CompactingAfter(calls: map<Call, Stage>, c: Call, stage: Stage)
    ensures CompactingIn(calls[c := stage]) ==
            if stage.Compacts() then CompactingIn(calls) + {c} else CompactingIn(calls) - {c}
    ensures CompactingIn(calls - {c}) == CompactingIn(calls) - {c}
    ensures c in CompactingIn(calls) <==> c in calls && calls[c].Compacts()
  {
  }

  predicate StoryTrue(w: World) {
    OpenIn(w.story) == CompactingIn(w.calls)
  }

  /** No compaction begins while another is under way. */
  predicate BeginsAlone(w: World, m: Move) {
    m.Compact? || m.Announce? ==> CompactingIn(w.calls) == {}
  }

  lemma OpenSnoc(story: seq<Bracket>, b: Bracket)
    ensures OpenIn(story + [b]) == if b.Began? then OpenIn(story) + {b.call} else OpenIn(story) - {b.call}
  {
    assert (story + [b])[..|story|] == story;
  }

  lemma AlternatesSnoc(story: seq<Bracket>, b: Bracket)
    ensures Alternates(story + [b]) <==> Alternates(story) && Fits(story, b)
  {
    assert (story + [b])[..|story|] == story;
  }

  lemma {:induction false} AlternatingOpen(story: seq<Bracket>)
    requires Alternates(story)
    ensures OpenIn(story) == if |story| % 2 == 0 then {} else {story[|story| - 1].call}
    decreases |story|
  {
    if story != [] {
      AlternatingOpen(story[..|story| - 1]);
    }
  }

  lemma MoveBrackets(w: World, m: Move)
    requires Enabled(w, m) && StoryTrue(w)
    ensures StoryTrue(After(w, m))
    ensures Alternates(After(w, m).story) <==> Alternates(w.story) && BeginsAlone(w, m)
  {
    hide Alternates, OpenIn, CompactingIn, StoreEnds;
    if Alternates(w.story) { AlternatingOpen(w.story); }
    if m.Compact? {
      OpenSnoc(w.story, Began(m.call));
      AlternatesSnoc(w.story, Began(m.call));
      CompactingAfter(w.calls, m.call, ByHand);
    } else if m.Announce? {
      OpenSnoc(w.story, Began(m.call));
      AlternatesSnoc(w.story, Began(m.call));
      CompactingAfter(w.calls, m.call, Announced);
    } else if m.Report? {
      OpenSnoc(w.story, Ended(m.call));
      AlternatesSnoc(w.story, Ended(m.call));
      CompactingAfter(w.calls, m.call, After(w, m).calls[m.call]);
    } else {
      SameCompactions(w, m);
    }
  }

  /** All other moves leave the compactions alone. */
  lemma SameCompactions(w: World, m: Move)
    requires Enabled(w, m) && !m.Compact? && !m.Announce? && !m.Report?
    ensures After(w, m).story == w.story && CompactingIn(After(w, m).calls) == CompactingIn(w.calls)
  {
    hide CompactingIn;
    if !m.Asks? {
      var v, c := After(w, m), m.call;
      CompactingAfter(w.calls, c, if c in v.calls then v.calls[c] else Ready);
      assert v.calls == w.calls || v.calls == w.calls - {c} || (c in v.calls && v.calls == w.calls[c := v.calls[c]]);
    }
  }

  /** Over every run, compactions come one after the other if and only if none begins while another is under way. */
  lemma {:induction false} BracketsExactly(w: World, moves: seq<Move>)
    requires CanRun(w, moves) && StoryTrue(w)
    ensures StoryTrue(Run(w, moves))
    ensures Alternates(Run(w, moves).story) <==> Alternates(w.story) && Always(w, moves, BeginsAlone)
    decreases |moves|
  {
    hide Enabled, After, StoryTrue, Alternates, BeginsAlone;
    if moves != [] {
      MoveBrackets(w, moves[0]);
      BracketsExactly(After(w, moves[0]), moves[1..]);
    }
  }

  // ----- one call at a time -----

  predicate StartsAlone(w: World, m: Move) {
    m.Prompt? || m.Compact? ==> w.calls == map[]
  }

  /** At most one call, in the phase that its stage asks for, storing at most the first waiting write. */
  predicate OneCall(w: World) {
    && (forall c, d :: c in w.calls && d in w.calls ==> c == d)
    && (w.calls == map[] ==> w.phase.Idle?)
    && (forall c :: c in w.calls ==> if InPhase(w.calls[c]) then Holds(w.calls[c], w.phase) else w.phase.Idle?)
    && (forall c :: c in w.calls ==> (w.calls[c].Automatic? || w.calls[c].Closing? ==> w.calls[c].saved.Idle?))
    && (forall c :: c in w.held ==> c in w.calls && w.waiting != [] && w.waiting[0] == w.held[c])
  }

  predicate InPhase(stage: Stage) {
    !(stage.Settling? || stage.Settled? || stage.Announced? || stage.Resuming? || stage.Ready?)
  }

  lemma MoveStaysAlone(w: World, m: Move)
    requires Enabled(w, m) && OneCall(w) && StartsAlone(w, m)
    ensures OneCall(After(w, m)) && FindsItsOwn(w, m) && BeginsAlone(w, m) && FindsIdle(w, m)
  {
    if m.Prompt? || m.Compact? || m.Asks? {
      assert CompactingIn(w.calls) == {} || m.Asks?;
    } else {
      assert forall d :: d in w.calls ==> d == m.call;
      if m.BeginStore? || m.EndStore? { StoringStaysAlone(w, m); } else { StageStaysAlone(w, m); }
    }
  }

  lemma StoringStaysAlone(w: World, m: Move)
    requires Enabled(w, m) && OneCall(w) && (m.BeginStore? || m.EndStore?)
    ensures OneCall(After(w, m)) && FindsItsOwn(w, m)
  {
    assert forall d :: d in w.calls ==> d == m.call;
  }

  lemma StageStaysAlone(w: World, m: Move)
    requires Enabled(w, m) && OneCall(w) && !m.Prompt? && !m.Compact? && !m.Asks? && !m.BeginStore? && !m.EndStore?
    ensures OneCall(After(w, m)) && BeginsAlone(w, m) && FindsIdle(w, m)
  {
    assert forall d :: d in w.calls ==> d == m.call;
  }

  /** If calls do not overlap, none of this happens: deferred writes are conserved, compactions come one after the
      other, and the harness is idle whenever no call is under way. */
  lemma {:induction false} OneCallAtATime(w: World, moves: seq<Move>)
    requires CanRun(w, moves) && OneCall(w) && Suffix(w) && Conserved(w) && StoryTrue(w) && Alternates(w.story)
    requires Always(w, moves, StartsAlone)
    ensures var v := Run(w, moves); OneCall(v) && Conserved(v) && Alternates(v.story)
    ensures Run(w, moves).calls == map[] ==> Run(w, moves).phase.Idle?
    decreases |moves|
  {
    hide Enabled, After, Suffix, Conserved, StoryTrue, Alternates, StartsAlone;
    if moves != [] {
      MoveStaysAlone(w, moves[0]);
      MoveConserves(w, moves[0]);
      MoveBrackets(w, moves[0]);
      OneCallAtATime(After(w, moves[0]), moves[1..]);
    }
  }

  // ----- calls that do overlap -----

  /** A run whose end is `to`. */
  predicate Leads(w: World, moves: seq<Move>, to: World) {
    CanRun(w, moves) && Run(w, moves) == to
  }

  lemma LeadsNowhere(w: World)
    ensures Leads(w, [], w)
  {
  }

  lemma LeadsSnoc(w: World, moves: seq<Move>, v: World, m: Move)
    requires Leads(w, moves, v) && Enabled(v, m)
    ensures Leads(w, moves + [m], After(v, m))
    decreases |moves|
  {
    hide Enabled, After;
    if moves == [] {
      LeadsNowhere(After(w, m));
      assert [] + [m] == [m] && [m][1..] == [];
    } else {
      assert (moves + [m])[0] == moves[0] && (moves + [m])[1..] == moves[1..] + [m];
      LeadsSnoc(After(w, moves[0]), moves[1..], v, m);
    }
  }

  /** One more move, to a world that is named. */
  lemma LeadsOn(w: World, moves: seq<Move>, v: World, m: Move, to: World)
    requires Leads(w, moves, v) && Enabled(v, m) && After(v, m) == to
    ensures Leads(w, moves + [m], to)
  {
    LeadsSnoc(w, moves, v, m);
  }

  /** A turn has ended its run and freed the phase, and now stores what waits. */
  const SETTLING := START.(calls := map[1 := Settling])

  lemma TurnSettles() returns (moves: seq<Move>)
    ensures Leads(START, moves, SETTLING)
  {
    hide Enabled, After, Leads;
    var w1 := START.(phase := InTurn, setter := Taken(1), calls := map[1 := Turning]);
    var w2 := w1.(calls := map[1 := Ending]);
    LeadsNowhere(START);
    FirstMoves();
    LeadsOn(START, [], START, Prompt(1), w1);
    LeadsOn(START, [] + [Prompt(1)], w1, FlushEnds(1), w2);
    LeadsOn(START, [] + [Prompt(1)] + [FlushEnds(1)], w2, RunEnds(1), SETTLING);
    moves := [] + [Prompt(1)] + [FlushEnds(1)] + [RunEnds(1)];
  }

  lemma FirstMoves()
    ensures var w1 := START.(phase := InTurn, setter := Taken(1), calls := map[1 := Turning]);
      var w2 := w1.(calls := map[1 := Ending]);
      && Enabled(START, Prompt(1)) && After(START, Prompt(1)) == w1
      && Enabled(w1, FlushEnds(1)) && After(w1, FlushEnds(1)) == w2
      && Enabled(w2, RunEnds(1)) && After(w2, RunEnds(1)) == SETTLING
  {
  }

  /** A prompt begun from the news that the run has settled: both turns store the first write that waits, and the
      second one leaves the queue without being stored. With one write waiting, it is stored twice. */
  lemma OverlappingFlushes(a: Write, b: Option<Write>) returns (moves: seq<Move>)
    ensures CanRun(START, moves)
    ensures var w := Run(START, moves);
      && w.session == [Deferred(a), Deferred(a)] && w.waiting == [] && w.held == map[]
      && w.queued == (if b.Some? then [a, b.value] else [a])
  {
    hide Enabled, After;
    moves := TurnSettles();
    var taken := Take(SETTLING, 2, InTurn).(calls := map[1 := Settling, 2 := Turning]);
    var asked := taken.(waiting := [a], queued := [a]);
    PromptAndAsk(a);
    LeadsOn(START, moves, SETTLING, Prompt(2), taken);
    LeadsOn(START, moves + [Prompt(2)], taken, Asks(a), asked);
    moves := moves + [Prompt(2)] + [Asks(a)];
    var v := asked;
    if b.Some? {
      v := asked.(waiting := [a, b.value], queued := [a, b.value]);
      AskMore(asked, b.value);
      LeadsOn(START, moves, asked, Asks(b.value), v);
      moves := moves + [Asks(b.value)];
    }
    var v1 := v.(held := map[1 := a]);
    var v2 := v.(held := map[1 := a, 2 := a]);
    var v3 := v.(held := map[2 := a], session := [Deferred(a)], waiting := v.waiting[1..]);
    var v4 := v.(held := map[], session := [Deferred(a), Deferred(a)], waiting := []);
    StoreBoth(v, a);
    LeadsOn(START, moves, v, BeginStore(1), v1);
    LeadsOn(START, moves + [BeginStore(1)], v1, BeginStore(2), v2);
    LeadsOn(START, moves + [BeginStore(1)] + [BeginStore(2)], v2, EndStore(1, true), v3);
    moves := moves + [BeginStore(1)] + [BeginStore(2)] + [EndStore(1, true)];
    LeadsOn(START, moves, v3, EndStore(2, true), v4);
    moves := moves + [EndStore(2, true)];
  }

  lemma PromptAndAsk(a: Write)
    ensures var taken := Take(SETTLING, 2, InTurn).(calls := map[1 := Settling, 2 := Turning]);
      var asked := taken.(waiting := [a], queued := [a]);
      && Enabled(SETTLING, Prompt(2)) && After(SETTLING, Prompt(2)) == taken
      && Enabled(taken, Asks(a)) && After(taken, Asks(a)) == asked
  {
  }

  lemma AskMore(w: World, b: Write)
    requires !w.phase.Idle?
    ensures Enabled(w, Asks(b))
    ensures After(w, Asks(b)) == w.(waiting := w.waiting + [b], queued := w.queued + [b])
  {
  }

  lemma StoreBoth(v: World, a: Write)
    requires v.calls == map[1 := Settling, 2 := Turning] && v.held == map[] && v.session == []
    requires 1 <= |v.waiting| <= 2 && v.waiting[0] == a
    ensures var v1 := v.(held := map[1 := a]);
      var v2 := v.(held := map[1 := a, 2 := a]);
      var v3 := v.(held := map[2 := a], session := [Deferred(a)], waiting := v.waiting[1..]);
      var v4 := v.(held := map[], session := [Deferred(a), Deferred(a)], waiting := []);
      && Enabled(v, BeginStore(1)) && After(v, BeginStore(1)) == v1
      && Enabled(v1, BeginStore(2)) && After(v1, BeginStore(2)) == v2
      && Enabled(v2, EndStore(1, true)) && After(v2, EndStore(1, true)) == v3
      && Enabled(v3, EndStore(2, true)) && After(v3, EndStore(2, true)) == v4
  {
  }

  /** A compaction by hand begun while a turn that has settled looks whether to compact: the turn's own compaction
      finds the harness busy, and puts that back when the other has freed it. Nothing can begin any more. */
  lemma OverlappingCompactions() returns (moves: seq<Move>)
    ensures CanRun(START, moves)
    ensures var w := Run(START, moves);
      && w.calls == map[] && w.phase.Compacting?
      && w.story == [Began(2), Began(1), Ended(2), Ended(1)]
  {
    hide Enabled, After;
    moves := TurnSettles();
    var checking := START.(calls := map[1 := Settled(false)]);
    var begun := START.(phase := Compacting, setter := Taken(2), story := [Began(2)],
                        calls := map[1 := Settled(false), 2 := ByHand]);
    var announced := begun.(story := [Began(2), Began(1)], calls := map[1 := Announced, 2 := ByHand]);
    var entered := announced.(setter := Taken(1), calls := map[1 := Automatic(Compacting), 2 := ByHand]);
    ByHandBegins();
    AutomaticBegins();
    LeadsOn(START, moves, SETTLING, FlushEnds(1), checking);
    LeadsOn(START, moves + [FlushEnds(1)], checking, Compact(2), begun);
    moves := moves + [FlushEnds(1)] + [Compact(2)];
    LeadsOn(START, moves, begun, Announce(1), announced);
    LeadsOn(START, moves + [Announce(1)], announced, Enter(1), entered);
    moves := moves + [Announce(1)] + [Enter(1)];
    var reported := entered.(story := [Began(2), Began(1), Ended(2)],
                             calls := map[1 := Automatic(Compacting), 2 := ByHandClosing]);
    var left := reported.(phase := Idle, setter := Freed, calls := map[1 := Automatic(Compacting)]);
    var closing := left.(story := [Began(2), Began(1), Ended(2), Ended(1)], calls := map[1 := Closing(Compacting)]);
    var back := closing.(phase := Compacting, setter := PutBack(Compacting), calls := map[1 := Settled(true)]);
    BothEnd();
    LeadsOn(START, moves, entered, Report(2), reported);
    LeadsOn(START, moves + [Report(2)], reported, Leave(2), left);
    moves := moves + [Report(2)] + [Leave(2)];
    LeadsOn(START, moves, left, Report(1), closing);
    LeadsOn(START, moves + [Report(1)], closing, Leave(1), back);
    moves := moves + [Report(1)] + [Leave(1)];
    LeadsOn(START, moves, back, Return(1), back.(calls := map[]));
    moves := moves + [Return(1)];
  }

  lemma ByHandBegins()
    ensures var checking := START.(calls := map[1 := Settled(false)]);
      var begun := START.(phase := Compacting, setter := Taken(2), story := [Began(2)],
                          calls := map[1 := Settled(false), 2 := ByHand]);
      && Enabled(SETTLING, FlushEnds(1)) && After(SETTLING, FlushEnds(1)) == checking
      && Enabled(checking, Compact(2)) && After(checking, Compact(2)) == begun
  {
  }

  lemma AutomaticBegins()
    ensures var begun := START.(phase := Compacting, setter := Taken(2), story := [Began(2)],
                                calls := map[1 := Settled(false), 2 := ByHand]);
      var announced := begun.(story := [Began(2), Began(1)], calls := map[1 := Announced, 2 := ByHand]);
      var entered := announced.(setter := Taken(1), calls := map[1 := Automatic(Compacting), 2 := ByHand]);
      && Enabled(begun, Announce(1)) && After(begun, Announce(1)) == announced
      && Enabled(announced, Enter(1)) && After(announced, Enter(1)) == entered
  {
  }

  lemma BothEnd()
    ensures var entered := World(Compacting, Taken(1), map[1 := Automatic(Compacting), 2 := ByHand], map[], [], [], [],
                                 [Began(2), Began(1)]);
      var reported := entered.(story := [Began(2), Began(1), Ended(2)],
                               calls := map[1 := Automatic(Compacting), 2 := ByHandClosing]);
      var left := reported.(phase := Idle, setter := Freed, calls := map[1 := Automatic(Compacting)]);
      var closing := left.(story := [Began(2), Began(1), Ended(2), Ended(1)], calls := map[1 := Closing(Compacting)]);
      var back := closing.(phase := Compacting, setter := PutBack(Compacting), calls := map[1 := Settled(true)]);
      && Enabled(entered, Report(2)) && After(entered, Report(2)) == reported
      && Enabled(reported, Leave(2)) && After(reported, Leave(2)) == left
      && Enabled(left, Report(1)) && After(left, Report(1)) == closing
      && Enabled(closing, Leave(1)) && After(closing, Leave(1)) == back
      && Enabled(back, Return(1)) && After(back, Return(1)) == back.(calls := map[])
  {
    hide Enabled, After;
    ByHandEnds(map[1 := Automatic(Compacting), 2 := ByHand]);
    AutomaticEnds([Began(2), Began(1), Ended(2)]);
  }

  lemma ByHandEnds(calls: map<Call, Stage>)
    requires calls == map[1 := Automatic(Compacting), 2 := ByHand]
    ensures var entered := World(Compacting, Taken(1), calls, map[], [], [], [], [Began(2), Began(1)]);
      var reported := entered.(story := [Began(2), Began(1), Ended(2)],
                               calls := map[1 := Automatic(Compacting), 2 := ByHandClosing]);
      var left := reported.(phase := Idle, setter := Freed, calls := map[1 := Automatic(Compacting)]);
      && Enabled(entered, Report(2)) && After(entered, Report(2)) == reported
      && Enabled(reported, Leave(2)) && After(reported, Leave(2)) == left
  {
  }

  lemma AutomaticEnds(story: seq<Bracket>)
    ensures var left := START.(calls := map[1 := Automatic(Compacting)], story := story);
      var closing := left.(story := story + [Ended(1)], calls := map[1 := Closing(Compacting)]);
      var back := closing.(phase := Compacting, setter := PutBack(Compacting), calls := map[1 := Settled(true)]);
      && Enabled(left, Report(1)) && After(left, Report(1)) == closing
      && Enabled(closing, Leave(1)) && After(closing, Leave(1)) == back
      && Enabled(back, Return(1)) && After(back, Return(1)) == back.(calls := map[])
  {
  }
}
