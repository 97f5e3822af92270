/** The player that shows a session frame by frame, continuing where another left off, or all at once. */
module Player {
  import opened Options
  import opened Transcript
  import opened StreamReplay
  import opened SessionPlayback
  import opened TranscriptMeaning

  datatype Status = AtRest | Playing | Finished

  datatype Snapshot = Snapshot(blocks: seq<Block>, busy: bool, input: string)

  function Shown(s: State): Snapshot {
    Snapshot(s.blocks, s.busy, s.input)
  }

  /** What a listener sees of a playback: the folded start, then each frame in turn. */
  function Film(s: State, frames: seq<Frame>): (r: seq<Snapshot>)
    ensures |r| == |frames| + 1
  {
    seq(|frames| + 1, i requires 0 <= i <= |frames| => Shown(ApplyAll(s, frames[..i])))
  }

  class SessionPlayer {
    var status: Status
    var snapshot: Snapshot
    /** Every snapshot handed to the listener. */
    var emitted: seq<Snapshot>

    constructor ()
      ensures status == AtRest && snapshot == Snapshot([], false, "") && emitted == []
    {
      status, snapshot, emitted := AtRest, Snapshot([], false, ""), [];
    }

    method Emit(s: Snapshot)
      modifies this`snapshot, this`emitted
      ensures snapshot == s && emitted == old(emitted) + [s]
    {
      snapshot := s;
      emitted := emitted + [s];
    }

    /** Play `messages`, folding the first `startAfter` at once. `aborted(i)` tells whether the run is aborted by
        the time of its i-th check. */
    method Play(messages: seq<Message>, startAfter: nat, aborted: nat -> bool) returns (done: bool)
      modifies this
      ensures var k := if startAfter < |messages| then startAfter else |messages|;
        var start, frames := FoldState(messages[..k]), Replay(messages[k..]);
        && (done <==> forall i :: 0 <= i <= |frames| + 1 ==> !aborted(i))
        && (done ==>
              && status == Finished
              && snapshot == Snapshot(ApplyAll(start, frames).blocks, false, "")
              && emitted == old(emitted) + Film(start, frames) + [snapshot]
              && (k == 0 || (UserFirst(messages[k..]) && !AnswersEarlierCall(messages[..k], messages[k..])) ==>
                    snapshot.blocks == FoldState(messages).blocks && Transcribes(snapshot.blocks, messages)))
        && (!done ==>
              && status == Playing
              && exists n :: 0 <= n <= |frames| + 1 && emitted == old(emitted) + Film(start, frames)[..n])
    {
      hide Replay, ApplyAll, FoldState, Transcribes, AnswersEarlierCall;
      status := Playing;
      var k := if startAfter < |messages| then startAfter else |messages|;
      var frames := ReplayFrames(messages[k..]);
      var prefix := ReplayFrames(messages[..k]);
      var working := ApplyFrames(INITIAL, prefix);
      ghost var start := working;
      assert start == FoldState(messages[..k]) by { FoldIs(messages[..k]); }
      assert Film(start, frames)[..0] == [];
      if aborted(0) {
        return false;
      }
      Emit(Shown(working));
      assert frames[..0] == [];
      ApplyNone(start);
      assert Film(start, frames)[..1] == [Shown(working)];
      var i := 0;
      while i < |frames|
        invariant 0 <= i <= |frames| && status == Playing
        invariant working == ApplyAll(start, frames[..i])
        invariant emitted == old(emitted) + Film(start, frames)[..i + 1]
        invariant forall j :: 0 <= j <= i ==> !aborted(j)
      {
        if aborted(i + 1) {
          return false;
        }
        assert frames[..i + 1] == frames[..i] + [frames[i]];
        ApplyAllJoin(start, frames[..i], [frames[i]]);
        ApplyOne(working, frames[i]);
        working := ApplyEvent(working, frames[i]);
        Emit(Shown(working));
        assert Film(start, frames)[..i + 2] == Film(start, frames)[..i + 1] + [Shown(working)];
        i := i + 1;
      }
      assert frames[..i] == frames;
      assert Film(start, frames)[..i + 1] == Film(start, frames);
      if aborted(|frames| + 1) {
        return false;
      }
      status := Finished;
      Emit(Snapshot(working.blocks, false, ""));
      done := true;
      if UserFirst(messages[k..]) { ContinuationExact(messages, k); }
      if k == 0 { FromTheTop(messages); }
      FoldTells(messages);
    }

    /** Reveal the whole session at once. */
    method Fold(messages: seq<Message>)
      modifies this
      ensures status == Finished && snapshot == Snapshot(FoldState(messages).blocks, false, "")
      ensures Transcribes(snapshot.blocks, messages) && emitted == old(emitted) + [snapshot]
    {
      hide Replay, ApplyAll, Transcribes;
      FoldTells(messages);
      status := Finished;
      var frames := ReplayFrames(messages);
      var s := ApplyFrames(INITIAL, frames);
      Emit(Snapshot(s.blocks, false, ""));
    }
  }

  lemma FromTheTop(messages: seq<Message>)
    ensures ApplyAll(FoldState(messages[..0]), Replay(messages[0..])) == FoldState(messages)
  {
    assert messages[..0] == [] && messages[0..] == messages;
    assert Replay([]) == [];
    ApplyNone(INITIAL);
  }

  lemma FoldIs(messages: seq<Message>)
    ensures FoldState(messages) == ApplyAll(INITIAL, Replay(messages))
  {
  }

  method ApplyFrames(s: State, frames: seq<Frame>) returns (state: State)
    ensures state == ApplyAll(s, frames)
  {
    hide ApplyEvent;
    state := s;
    for i := 0 to |frames|
      invariant ApplyAll(s, frames) == ApplyAll(state, frames[i..])
    {
      state := ApplyEvent(state, frames[i]);
    }
  }
}
