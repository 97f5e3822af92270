/** Frame after frame: when the renderer keeps track of the cursor. */
module RenderHistory {
  import opened Options
  import opened Terminal
  import opened Renderer

  /** The frame's cursor marker lies above what the screen shows. */
  predicate MarkerAbove(frame: seq<Line>, s: Screen) {
    var pos := CursorOf(frame, s.height);
    pos.Some? && pos.value.row < s.top
  }

  predicate Growing(frames: seq<seq<Line>>) {
    forall i :: 0 < i < |frames| ==> |frames[i - 1]| <= |frames[i]|
  }

  predicate AllFit(frames: seq<seq<Line>>, width: nat) {
    forall i :: 0 <= i < |frames| ==> Fits(frames[i], width)
  }

  /** Render frames one after the other, up to the first whose marker is above the screen. Each is shown exactly,
      and the renderer's cursor row and viewport top are the terminal's after each but that one. Frames that never
      get shorter, on a clean start, have no such one. */
  method RenderAll(tui: TUI, frames: seq<seq<Line>>, overlays: seq<bool>) returns (n: nat)
    requires tui.Valid() && tui.Ready() && !tui.stopped && |overlays| == |frames|
    requires AllFit(frames, tui.terminal.screen.width)
    modifies tui, tui.terminal
    ensures tui.Valid() && !tui.stopped && n <= |frames|
    ensures n > 0 ==>
      && Shows(tui.terminal.screen, WithResets(frames[n - 1])) && tui.CaretPlaced(frames[n - 1])
      && (tui.Synced() <==> !MarkerAbove(frames[n - 1], tui.terminal.screen))
    ensures n < |frames| ==> n > 0 && MarkerAbove(frames[n - 1], tui.terminal.screen)
    ensures old(tui.Fresh()) && Growing(frames) ==> n == |frames| && (n > 0 ==> tui.Synced())
  {
    hide TUI.Valid, Shows, Fits, WithResets, Stripped, FullRedraw, TUI.CaretPlaced, CursorOf;
    n := 0;
    while n < |frames|
      invariant n <= |frames| && tui.Valid() && !tui.stopped
      invariant tui.terminal.screen.width == old(tui.terminal.screen).width
      invariant tui.terminal.screen.height == old(tui.terminal.screen).height
      invariant n == 0 ==> tui.Ready() && tui.Fresh() == old(tui.Fresh())
      invariant n > 0 ==>
        && Shows(tui.terminal.screen, WithResets(frames[n - 1])) && tui.CaretPlaced(frames[n - 1])
        && tui.Synced() && !MarkerAbove(frames[n - 1], tui.terminal.screen)
        && |tui.previousLines| == |frames[n - 1]|
      invariant n > 0 && old(tui.Fresh()) && Growing(frames) ==>
        tui.terminal.screen.top == Max(0, |frames[n - 1]| - tui.terminal.screen.height)
    {
      CursorWithin(frames[n], tui.terminal.screen.height);
      var _ := tui.DoRender(frames[n], overlays[n]);
      n := n + 1;
      assert n > 1 && Growing(frames) ==> |frames[n - 2]| <= |frames[n - 1]|;
      if MarkerAbove(frames[n - 1], tui.terminal.screen) {
        return;
      }
    }
  }

  /** Shrinking content can lose the cursor: on a screen of two rows, three lines become two by deleting the last
      one; the marker is on the first row, but the screen still starts at the second. */
  method ShrinkingContentLosesCursor() returns (tui: TUI)
    ensures tui.Valid() && !tui.stopped && Shows(tui.terminal.screen, WithResets([[Marker], []]))
    ensures tui.terminal.screen.top == 1 && tui.hardwareCursorRow == 0 && !tui.Synced()
  {
    hide TUI.Valid, Shows, WithResets, Stripped, NextTop, CursorOf, Fits, OnCleanScreen, TUI.CaretPlaced;
    var device := new Device(4, 2);
    tui := new TUI(device);
    var three: seq<Line>, two: seq<Line> := [[], [], []], [[Marker], []];
    ThreeThenTwo(tui.maxLinesRendered);
    assert !tui.SizeChanged();
    assert tui.previousViewportTop == 0 && tui.previousLines == [];
    var _ := tui.DoRender(three, true);
    assert tui.terminal.screen.top == 1;
    ThreeThenTwo(tui.maxLinesRendered);
    assert !tui.SizeChanged();
    assert tui.previousViewportTop == 1 && tui.previousLines == WithResets(three);
    var _ := tui.DoRender(two, true);
    assert tui.terminal.screen.top == 1;
  }

  lemma ThreeThenTwo(maxLines: nat)
    ensures var three: seq<Line> := [[], [], []];
      var two := [[Marker], []];
      && CursorOf(three, 2).None? && Stripped(three, 2) == three
      && CursorOf(two, 2) == Some(CursorPos(0, 0)) && Fits(three, 4) && Fits(two, 4)
      && NextTop([], WithResets(three), 0, 2, false, maxLines) == 1
      && NextTop(WithResets(three), WithResets(Stripped(two, 2)), 1, 2, false, maxLines) == 1
  {
  }
}
