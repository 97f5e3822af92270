# Opsy core, modelled in Dafny

Models of the parts of the repository whose correctness rests on invariants over long histories, with proofs:
the differential terminal renderer and the overlay focus machine (`packages/tui`), the reader of raw terminal input,
ANSI-aware text layout, the agent loop and the harness around it (`packages/agent`), the session replay of the
marketing site (`apps/marketing`) and the event stream of the daemon (`packages/wolli`).

Objects that the source updates in place are classes here, and loops over mutable locals are methods with loops; both
are proved against specification functions, and what the source promises is proved about those functions, about the
classes' invariants, and about whole histories of calls. Where the source leaves a result to the outside world (a
provider, a tool, a user, a terminal, a clock), the model takes it as a parameter: a sequence of responses, a schedule
of what callers do at each `await`, an arbitrary choice of which of several pending operations finishes next.
`dafny verify dfyconfig.toml` takes in the whole project.

| files | what they model |
|---|---|
| `Terminal`, `RenderPlan`, `Renderer`, `RenderHistory` | a terminal with scrollback, `doRender` on top of it, and frame after frame |
| `OverlayLinks`, `OverlayFocus`, `OverlayHistory` | keyboard focus among overlays: who gives it back to whom, each operation, and whole histories |
| `InputSequences`, `StdinBuffer`, `KeyRepeats`, `Chunking` | splitting raw input into keys and pastes, keys reported twice, and input that comes in chunks |
| `AnsiCodes`, `StyleRoundTrip` | escape codes, the style tracker, and printing a style so that it is read back |
| `Wrapping`, `WrapMeaning`, `WrapWidth`, `WrapCuts`, `LineEnds` | word wrapping: how it is done, what it keeps, how wide it gets, where it breaks, what it leaves open |
| `Truncating`, `Compositing` | truncating, slicing, and laying an overlay into a line |
| `AgentProtocol`, `Agent` | the agent loop, its events, its queues and its transcript |
| `Harness`, `HarnessCalls` | deferred session writes and compaction around a run; calls that overlap |
| `Transcript`, `StreamReplay`, `SessionPlayback`, `TranscriptMeaning`, `SessionPlayer` | replaying a session as a stream of frames, and what the transcript then shows |
| `SessionContext` | reading one branch of a session log |
| `EventStream` | numbered frames, the replay ring, and clients that reconnect |
| `Options`, `Strings` | small common helpers |

## Findings

The code keeps most of what it is meant to keep. Where it does not, the model keeps the code as it is, names an input
that shows it, and proves when the property holds:

- After a differential update the renderer's cursor row is the terminal's exactly when the cursor marker is not above
  the actual top of the screen (`Renderer.TUI.DoRender`). Content that never shrinks keeps it so
  (`RenderHistory.RenderAll`); three lines on a screen of two rows that become two lines, with the marker on the
  first, do not (`RenderHistory.ShrinkingContentLosesCursor`).
- Chunking of paste-free input is invisible exactly when no cut falls between a doubled escape at the end of what was
  split so far and a character that opens a sequence (`Chunking.ChunkingMatters`). That no single chunk ends in two
  escapes is not enough: they may arrive one by one (`Chunking.EscapesOneByOne`).
- A wrapped line is too wide exactly when a word pushes out a line that its trailing spaces already overfill and that
  an underline or a hyperlink closes behind them (`WrapWidth.WrapTextFits`). It takes a zero-width grapheme or white
  space other than spaces, and something to close: `WrapWidth.ZeroWidthOverflows` names a text; text whose
  graphemes all take room and whose white space is spaces always fits (`WrapWidth.PlainTextWraps`), and so does text
  that opens neither underline nor hyperlink (`WrapWidth.UnlinedTextWraps`).
- A slice puts the codes within its columns before those that came before them. It shows its graphemes in the styles
  of the line exactly when it has none, or when the two groups of codes in front of the first one come to the same
  style in either order (`Compositing.SliceReads`); red, one column, green is a line where they do not
  (`Compositing.SliceMisordersCodes`). Slices from the first column, the only ones used in compositing, are right.
- Continuing a replay after `k` messages shows the same transcript as replaying everything exactly when no later tool
  result answers a call made only among the first `k` (`SessionPlayback.ContinuationExact`); `EarlierCallShows` there
  is a session where one does.
- A client gets no frame twice if, when it attached, no broadcast was suspended of a frame that it wanted and the ring
  held (`EventStream.Channel.NoDoubleDelivery`). If there was one, and the client is still connected, letting its
  replay and that broadcast go on delivers the frame twice (`EventStream.UnsafeAttachRepeats`;
  `EventStream.SuspendedBroadcastRepeats` is one history).
- Taking an overlay away leaves another one pointing at it exactly when it pointed at itself and was pointed at
  (`OverlayLinks.DanglesWhen`). That each component is shown once and not over itself does not exclude it
  (`OverlayHistory.RetargetingDangles`). It never happens in a history in which no component is shown that is an
  overlay already or that the focus would come back to by itself (`OverlayHistory.ProperHistorySound`), and so never
  if each component shown is a new one, whatever else is done (`OverlayHistory.Perform`). Showing such a component is
  exactly what makes a cycle of the links (`OverlayLinks.ShownStaysSound`), and as soon as there is a cycle some
  continuation leaves an overlay pointing at a removed one (`OverlayLinks.SafeExactlyIfAcyclic`).
- Writes wait exactly if some were deferred since a flush last found none waiting
  (`Harness.AgentHarness.WaitingWhen`). No flush follows a compaction by hand, nor one that ends a turn, whatever its
  reason and whether it succeeds: what was deferred during it still waits when the harness is idle, and a write made
  then is stored before it (`Harness.CompactLeavesWritesWaiting`). A turn that ends without a compaction leaves none
  waiting (`Harness.AgentHarness.ExecuteTurn`).
- The phase is idle from the end of a run's events on, while its turn still stores writes and may compact, so another
  prompt or compaction may begin there. Deferred writes are then stored once, in order and none lost, exactly when
  every write that is stored is still at the head of the queue (`HarnessCalls.ConservedExactly`). A prompt begun at
  that point can store the write that waits twice, and lose the one behind it (`HarnessCalls.OverlappingFlushes`).
- Once no call is under way the harness is idle, unless an automatic compaction put the phase back last to a busy one
  that it had found (`HarnessCalls.IdleExactly`); then nothing can begin any more (`HarnessCalls.BusyForGood`). Starts
  and ends of compactions alternate exactly when none begins while another is under way
  (`HarnessCalls.BracketsExactly`). A compaction by hand begun while a settled turn looks whether to compact brings
  about both (`HarnessCalls.OverlappingCompactions`). Calls that do not overlap bring about none of this
  (`HarnessCalls.OneCallAtATime`).
- The report of a failed run fits what came before exactly when the failure came inside a turn with no message open
  and no tool call under way (`AgentLoop.Agent.HandleRunFailure`), and every message that started has its end exactly
  if none was open (`AgentProtocol.FailureReportFits`). A provider whose stream breaks after the start of its message
  leaves that message without an end (`AgentLoop.BrokenStreamLeavesMessageOpen`).
- Loading a session ends exactly if no entry on the walk up the parents is its own ancestor
  (`SessionContexts.EndlessExactly`). It always does where parents come first (`SessionContexts.EarlierEnds`), and
  does not from an entry that names itself (`SessionContexts.OwnParentEndless`).

## Model

| member | source | states |
|---|---|---|
| Renderer.TUI.DoRender | packages/tui/src/tui.ts:1127-1456 | From any state ready to render, a frame that fits is shown exactly: scrollback and screen hold its lines and then blanks, and the viewport top is where a redraw or a differential update must leave it. With a marker in the last rows, the cursor goes to the lowest marked row, in the column where the terminal's cursor stands once what is in front of the marker is put from the first column, and is visible if it is to be; without one it is hidden. The believed cursor row and viewport top are the terminal's if and only if the marker is not above the viewport. When everything is redrawn, and what is then counted. An over-wide line crashes the renderer before anything is written |
| Renderer.TUI.RenderLines | packages/tui/src/tui.ts:1195-1225 | The choice between first render, redraw and differential update never affects what is shown |
| Renderer.RedrawsWhen | packages/tui/src/tui.ts:1213-1330 | Everything is redrawn if and only if a line above the viewport changed, or lines were only taken off the end and the end is now above the viewport or more went than the screen is high, or, if so set, fewer lines are left than were ever drawn since the last clearing |
| Renderer.TUI.UpdateLines | packages/tui/src/tui.ts:1227-1320 | From a synchronized state, every branch of the update leaves the screen showing the new lines |
| Renderer.TUI.FullRender | packages/tui/src/tui.ts:1157-1185 | A full render, after clearing or on a clean screen, shows the lines and leaves cursor and viewport known |
| Renderer.TUI.DiffRender | packages/tui/src/tui.ts:1322-1455 | Rewriting the changed range shows the new lines, and is refused when a line is too wide |
| Renderer.TUI.ShrinkRender | packages/tui/src/tui.ts:1262-1320 | Erasing deleted lines shows the shorter content |
| Renderer.TUI.PositionHardwareCursor | packages/tui/src/tui.ts:1463-1494 | Moves change only the cursor; it lands in its column, and on its row when that row is on the screen, else on the nearest one; it is shown if there is a position and it is to be seen |
| Renderer.CaretAtMarker | packages/tui/src/tui.ts:1107-1125 | The column taken from a marked line is where putting the text in front of the marker leaves the terminal's cursor |
| Renderer.TUI.ForceRender | packages/tui/src/tui.ts:655-677 | A forced render forgets everything, so that the next render redraws |
| Renderer.ChangedRange | packages/tui/src/tui.ts:1227-1248 | The range holds every line that differs, starts at the first one, and ends at the last one or the end of appended content |
| Renderer.ExtractCursorPosition | packages/tui/src/tui.ts:1107-1125 | The marker lowest on the visible screen is found, with its column, and removed; no other line is touched |
| Renderer.PreparedLines | packages/tui/src/tui.ts:995-1004 | Prepared lines leave a plain pen behind and fit whenever the frame does |
| RenderHistory.RenderAll | packages/tui/src/tui.ts:1127-1494 | Over any sequence of frames up to the first whose marker is above the screen, each frame is shown exactly, its cursor placed as its marker says, and the believed cursor row and viewport top are the terminal's; from a clean start, frames that never get shorter have no such one |
| RenderHistory.ShrinkingContentLosesCursor | packages/tui/src/tui.ts:1107-1125 | Two renders after which the believed cursor row is not the terminal's |
| RenderPlan.FullBufferShows | packages/tui/src/tui.ts:1157-1168 | The commands of a full render turn a clean or any screen into one showing the lines |
| RenderPlan.DiffBufferShows | packages/tui/src/tui.ts:1322-1405 | The commands of a differential update, with scrolling and the erasing of deleted rows, turn a screen showing the old lines into one showing the new lines |
| RenderPlan.ShrinkBufferShows | packages/tui/src/tui.ts:1262-1300 | The commands for deleted lines erase exactly their rows, and bring the cursor back to the last line |
| RenderPlan.DiffEqualsFull | packages/tui/src/tui.ts:1322-1405 | A differential update leaves the rows that clearing the screen and writing all lines afresh would leave |
| RenderPlan.ShrinkEqualsFull | packages/tui/src/tui.ts:1262-1300 | So does the erasing of deleted lines |
| OverlayFocus.FocusManager.SetFocusInternal | packages/tui/src/tui.ts:336-399 | Focus and restore state become what the request calls for; only the focused component has its flag set, and what may get focus back is still in the stack |
| OverlayFocus.FocusManager.ShowOverlay | packages/tui/src/tui.ts:459-474 | A new overlay is on top with the highest focus order and remembers who had the focus; it takes the focus exactly if it captures and can be seen |
| OverlayFocus.FocusManager.Hide | packages/tui/src/tui.ts:477-491 | The overlay leaves the stack; nothing names it as a restore target; the entries that remain keep all they had, save that those pointing at it now point where it pointed. If it had the focus, a visible capturing entry that no other such entry exceeds in focus order gets it and may get it back; if there is no such entry, where the overlay pointed is asked for |
| OverlayFocus.FocusManager.HideOverlay | packages/tui/src/tui.ts:555-568 | The same for the topmost entry, its focus too |
| OverlayFocus.FocusManager.SetHidden | packages/tui/src/tui.ts:492-511 | Hiding passes the focus on as `Hide` does and keeps the focus order; showing a capturing overlay raises it above all others and gives it the focus; also for an overlay already taken away |
| OverlayFocus.FocusManager.Focus | packages/tui/src/tui.ts:513-518 | A visible overlay comes to the front of all others and has the focus |
| OverlayFocus.FocusManager.Unfocus | packages/tui/src/tui.ts:519-549 | Releasing focus, with a target or without, in each state the overlay can be in; without a target the frontmost other overlay gets the focus, if the one that releases it is not in front itself |
| OverlayFocus.FocusManager.RedirectInput | packages/tui/src/tui.ts:733-759 | When input is delivered an overlay that cannot be seen loses the focus to the frontmost one that can or, if there is none, to where its focus would go; an overlay that waits gets it, unless its borrower holds it; a visible overlay keeps it |
| OverlayFocus.FocusManager.IsOverlayFocusAncestor | packages/tui/src/tui.ts:426-435 | The walk ends on every chain, cyclic ones too, and finds exactly what the chain reaches |
| OverlayFocus.FocusManager.RetargetOverlayPreFocus | packages/tui/src/tui.ts:437-443 | Exactly the entries that pointed at the removed component now point where it pointed |
| OverlayFocus.FocusManager.GetTopmostVisibleOverlay | packages/tui/src/tui.ts:585-594 | The frontmost entry is computed |
| OverlayLinks.DanglesWhen | packages/tui/src/tui.ts:437-443 | A removal leaves an overlay pointing at what was removed if and only if the removed one pointed at itself and was pointed at |
| OverlayLinks.ShownStaysSound | packages/tui/src/tui.ts:459-474 | Showing a component keeps the links free of cycles if and only if the focus would not come back to it |
| OverlayLinks.SoundHistory | packages/tui/src/tui.ts:437-491 | In a history of such showings, no removal leaves an overlay pointing at what it removed |
| OverlayLinks.SafeExactlyIfAcyclic | packages/tui/src/tui.ts:437-491 | No continuation with such showings ever does, if and only if the links have no cycle |
| OverlayHistory.Perform | packages/tui/src/tui.ts:332-594 | Every sequence of operations is told moment by moment: who has the focus, where each overlay's focus would go, and which handle has which overlay, each moment following from the one before by its operation. If each component shown is a new one, never shown, focused or named to `unfocus` before, no overlay ever gets its focus back from itself and no removal leaves one pointing at what it removed |
| OverlayHistory.ProperHistorySound | packages/tui/src/tui.ts:437-491 | So it is, from sound links on, in every history in which no component is shown that is an overlay already, has the focus, or would get it back |
| OverlayHistory.RetargetingDangles | packages/tui/src/tui.ts:437-491 | A history with each component shown once at a time and never directly over itself, after which an overlay points at a removed one |
| OverlayFocus.Topmost | packages/tui/src/tui.ts:585-594 | It is visible, captures input, and has the highest focus order; there is none only if no such entry exists |
| OverlayFocus.OverlayTakesFocus | packages/tui/src/tui.ts:393-398 | A visible overlay that is asked for has the focus and may get it back |
| OverlayFocus.FocusComesBack | packages/tui/src/tui.ts:350-382 | Focus lent to a component outside the overlay's chain returns when it is given up, and when the borrower is unmounted and another component asks |
| OverlayFocus.LoanPassesOn | packages/tui/src/tui.ts:354-361 | A mounted borrower may hand the focus on; it still returns to the overlay |
| OverlayFocus.AskedGets | packages/tui/src/tui.ts:336-399 | Whoever is asked for gets the focus, unless a borrower lets go of it, in the cases stated |
| OverlayFocus.NobodyAsked | packages/tui/src/tui.ts:371-377 | When nobody is to be focused, an overlay that may get the focus back is forgotten, or kept waiting if the request says so |
| OverlayFocus.TargetInstead | packages/tui/src/tui.ts:350-382 | If the overlay's handle named a target meanwhile, the borrower's giving up leads there, and the overlay waits no more |
| OverlayFocus.AncestorBorrowsNothing | packages/tui/src/tui.ts:362-370 | A visible overlay lends its focus to a component exactly if that component is not on its own chain; else it may get the focus back at once |
| InputSequences.ExtractCompleteSequences | packages/tui/src/stdin-buffer.ts:192-255 | The loop computes the split |
| InputSequences.SplitJoins | packages/tui/src/stdin-buffer.ts:192-255 | Sequences and remainder together are the input |
| InputSequences.SplitUnits | packages/tui/src/stdin-buffer.ts:29-126 | Every sequence is one character, a lone escape, or a shortest complete sequence, and the remainder has become complete at no length |
| InputSequences.CsiEndsAtFinalByte | packages/tui/src/stdin-buffer.ts:84-126 | Mouse reports apart, a CSI sequence ends at its first final byte (section 5.4 of ECMA-48) |
| InputSequences.EndsWhereItMay | packages/tui/src/stdin-buffer.ts:29-186 | A sequence of any kind (CSI, both mouse reports, OSC, DCS, APC, SS3, meta keys) ends at the first character at which its kind lets it end, told position by position, and waits if there is none; only a doubled escape that opens a sequence gives up its first half |
| InputSequences.SplitAppend | packages/tui/src/stdin-buffer.ts:207-230 | Splitting more input continues the split of what came first, unless a doubled escape is reopened |
| InputSequences.SplitReopens | packages/tui/src/stdin-buffer.ts:207-230 | What happens if it is: a single escape stands in place of the doubled one |
| StdinBuffering.StdinBuffer.ProcessChunk | packages/tui/src/stdin-buffer.ts:287-387 | A chunk has the state and events of the specification; the recursion after a paste ends |
| StdinBuffering.StdinBuffer.EmitDataSequence | packages/tui/src/stdin-buffer.ts:389-398 | The state and event that the specification has for one sequence |
| KeyRepeats.AnnouncedExactly | packages/tui/src/stdin-buffer.ts:184-190 | Exactly the reports of an unmodified key, with or without alternate keys, and with a printable code point announce a character |
| KeyRepeats.KeysHeard | packages/tui/src/stdin-buffer.ts:371-398 | Input without a paste is handed on sequence by sequence, but for a plain character that the report just before it announced; such a character is swallowed once |
| StdinBuffering.StdinBuffer.Flush | packages/tui/src/stdin-buffer.ts:400-414 | The timeout hands out exactly the waiting text |
| Chunking.Additive | packages/tui/src/stdin-buffer.ts:287-387 | Feeding input in two parts equals feeding it at once, in and out of paste mode, at every permitted cut |
| Chunking.FeedIsProcess | packages/tui/src/stdin-buffer.ts:287-387 | So for any number of chunks: same events, same state |
| Chunking.ChunkingMatters | packages/tui/src/stdin-buffer.ts:207-230 | For paste-free input, chunking is invisible if and only if the cuts are clean |
| Chunking.BadCutShows | packages/tui/src/stdin-buffer.ts:207-230 | A cut that is not clean changes the events |
| Chunking.EscapesOneByOne | packages/tui/src/stdin-buffer.ts:207-230 | An example in which no chunk ends in two escapes |
| Chunking.PasteAtOnce | packages/tui/src/stdin-buffer.ts:337-369 | A bracketed paste whose body is free of the end marker is exactly one paste of the body |
| Chunking.PasteSurvivesChunking | packages/tui/src/stdin-buffer.ts:315-369 | It stays that however it is cut up |
| AnsiCodes.ExtractAnsiCode | packages/tui/src/utils.ts:290-336 | The code at a position, if there is one |
| AnsiCodes.CodeEndsFirst | packages/tui/src/utils.ts:290-336 | A code ends at the first character that may end one of its kind, told position by position, and there is none where no character may |
| AnsiCodes.AnsiCodeTracker.Process | packages/tui/src/utils.ts:383-511 | The tracker follows the meaning of SGR and OSC 8 codes |
| AnsiCodes.ApplyCode | packages/tui/src/utils.ts:442-512 | For each attribute and each colour, which codes switch it on, which off, and that no other touches it; no SGR code touches the hyperlink |
| AnsiCodes.AnsiCodeTracker.UpdateFromText | packages/tui/src/utils.ts:591-602 | Every code of a text is processed, in order |
| AnsiCodes.AnsiCodeTracker.GetActiveCodes | packages/tui/src/utils.ts:537-555 | It prints the codes of its style |
| AnsiCodes.AnsiCodeTracker.GetLineEndReset | packages/tui/src/utils.ts:579-589 | It prints the codes that close the style's underline and hyperlink |
| StyleRoundTrip.LineEndCloses | packages/tui/src/utils.ts:573-589 | Those codes close exactly these two and leave the rest of the style |
| StyleRoundTrip.LineEndTextCloses | packages/tui/src/utils.ts:573-602 | So does their text |
| AnsiCodes.CodeInFront | packages/tui/src/utils.ts:290-336 | A code in front of any text is read as itself |
| StyleRoundTrip.SgrRoundTrip | packages/tui/src/utils.ts:383-555 | The printed SGR code, applied to a cleared style, gives attributes and colours back, 256-colour and RGB parameters included (section 8.3.117 of ECMA-48) |
| StyleRoundTrip.LinkRoundTrip | packages/tui/src/utils.ts:338-364 | A printed hyperlink is parsed back, with either terminator |
| StyleRoundTrip.OpenedLinkOk | packages/tui/src/utils.ts:338-364 | Every hyperlink that a code opens can be printed so |
| StyleRoundTrip.ApplyAnsiSound | packages/tui/src/utils.ts:383-530 | Every code keeps the style printable |
| StyleRoundTrip.ActiveCodesRoundTrip | packages/tui/src/utils.ts:537-555 | Applying the printed codes one by one from a cleared style gives the style |
| StyleRoundTrip.StyleTextRoundTrip | packages/tui/src/utils.ts:537-602 | So does extracting them from the printed text |
| StyleRoundTrip.ReachableStyleRoundTrip | packages/tui/src/utils.ts:537-602 | For the style any text leaves behind |
| Wrapping.SplitIntoTokensWithAnsi | packages/tui/src/utils.ts:607-681 | The loop computes the tokens |
| Wrapping.BreakLongWord | packages/tui/src/utils.ts:816-883 | The loop breaks a word as the specification does, and leaves the tracker in the style behind it |
| WrapCuts.BrokenLinesFull | packages/tui/src/utils.ts:816-883 | No line of a broken word but the last has room for the first grapheme of the next: the two widths together exceed the width |
| Wrapping.WrapSingleLine | packages/tui/src/utils.ts:719-801 | The loop wraps one line |
| Wrapping.WrapTextWithAnsi | packages/tui/src/utils.ts:694-717 | The loop wraps text as the specification does, carrying the style over line breaks |
| Wrapping.AtomsRead | packages/tui/src/utils.ts:591-602 | Going through a string position by position and processing its codes leaves the style that its codes and graphemes, one after the other, leave, as long as no grapheme holds an escape character |
| WrapMeaning.TokensConcat | packages/tui/src/utils.ts:607-681 | Tokens concatenate back to the text |
| WrapCuts.TokensOf | packages/tui/src/utils.ts:607-681 | Each token is a run of spaces, a run of other graphemes or one that stands alone; runs are as long as can be, and codes go with the grapheme after them |
| WrapMeaning.WrapLineKeeps | packages/tui/src/utils.ts:719-801 | The output of one line shows its graphemes in order and style, only white ones missing |
| WrapMeaning.WrapKeepsMeaning | packages/tui/src/utils.ts:591-883 | So does that of a text, each output line read from a cleared style, over line breaks and broken words |
| WrapCuts.WrapLineCuts | packages/tui/src/utils.ts:719-883 | A line that fits is left alone; any other is cut into output lines, each resuming the style and closing what is open, and each cut is where the next token does not fit, behind blanks that do not fit, in front of a token too long for any line, or inside one in front of a grapheme that does not fit; every such token begins a line |
| WrapCuts.WrapTextCuts | packages/tui/src/utils.ts:694-883 | So for a text: it is split exactly at its newlines, and its lines are wrapped so one after the other, each but the first with the style in front that holds by then |
| WrapWidth.WrapLineFits | packages/tui/src/utils.ts:719-801 | All output lines of a line are within the width if and only if no overfull line is pushed out |
| WrapWidth.WrapTextFits | packages/tui/src/utils.ts:694-883 | The same for a text |
| WrapWidth.PlainTextWraps | packages/tui/src/utils.ts:694-883 | Text whose graphemes take room and whose white space is spaces always fits, over-wide runs of spaces and broken words included |
| WrapWidth.UnlinedTextWraps | packages/tui/src/utils.ts:694-883 | So does text no beginning of which leaves an underline or a hyperlink open, for any graphemes no wider than the width and any white space |
| LineEnds.ResetCloses | packages/tui/src/utils.ts:573-589 | What ends a wrapped line closes its underline and its hyperlink and keeps the rest of its style |
| LineEnds.WrapLineCloses | packages/tui/src/utils.ts:719-801 | Every output line of a wrapped line but the last leaves neither underline nor hyperlink open |
| WrapWidth.ZeroWidthOverflows | packages/tui/src/utils.ts:719-801 | An example that does not fit |
| Truncating.TruncateToWidth | packages/tui/src/utils.ts:915-1051 | Fast path and walk compute one and the same truncation |
| Truncating.TruncateFragmentToWidth | packages/tui/src/utils.ts:61-139 | The longest beginning within the width that ends with a grapheme |
| Truncating.CutOfIs | packages/tui/src/utils.ts:61-139 | What longest means: any longer such beginning is too wide |
| Truncating.AsciiCut | packages/tui/src/utils.ts:943-949 | For printable ASCII it is so many characters, as the fast path takes |
| Truncating.TruncateFits | packages/tui/src/utils.ts:915-1051 | The result is at most as wide as asked, exactly as wide when padded, and the text itself when that fits, with nothing but blanks behind it when padded |
| Truncating.TruncateReads | packages/tui/src/utils.ts:141-160 | Text that does not fit shows its longest beginning that leaves room, in its own styles, and then the ellipsis in none of them; an ellipsis that leaves no room is cut itself and shown alone |
| Compositing.SliceWithWidth | packages/tui/src/utils.ts:1062-1107 | The loop computes the slice |
| Compositing.SliceShows | packages/tui/src/utils.ts:1062-1107 | A slice shows exactly the graphemes of its columns, and its width is reported; a strict slice stays within them |
| Compositing.SliceReads | packages/tui/src/utils.ts:1062-1107 | In the styles of the line if and only if it shows none, or the order of the codes in front of the first one does not matter |
| Compositing.SliceMisordersCodes | packages/tui/src/utils.ts:1076-1096 | An example in which it matters |
| Compositing.PrefixReads | packages/tui/src/utils.ts:1076-1096 | From the first column a slice always shows the styles of the line |
| Compositing.ExtractSegments | packages/tui/src/utils.ts:1117-1188 | The single pass computes both sides |
| Compositing.SegmentsRead | packages/tui/src/utils.ts:1117-1188 | Both sides show their graphemes as the line does, the second starting in the style it inherits; a strict second side stays within its columns |
| Compositing.CompositeLineAt | packages/tui/src/tui.ts:1049-1097 | The composed line, never wider than the terminal |
| Compositing.CompositeFits | packages/tui/src/tui.ts:1085-1096 | Not even when wide graphemes straddle either edge of the overlay |
| Compositing.BeforeEnds | packages/tui/src/utils.ts:1159-1165 | What comes before the overlay ends before its first column if and only if no grapheme of the line straddles that column |
| Compositing.CompositeFills | packages/tui/src/tui.ts:1058-1083 | Without such a grapheme the composed line is exactly as wide as the terminal, and nothing is cut off |
| Compositing.LaidReads | packages/tui/src/tui.ts:1058-1083 | Base and overlay laid together show each in its own style, with blanks where a part falls short |
| Compositing.CompositeReads | packages/tui/src/tui.ts:1085-1096 | So does the composed line, where nothing straddles the overlay's first column or it fits anyway; else its beginning does |
| AgentProtocol.CompleteRun | packages/agent/src/agent-loop.ts:109-268 | A finished run has one start first, one end last, as many turn ends as turn starts, and an end for every tool start |
| AgentProtocol.TurnsAlternate | packages/agent/src/agent-loop.ts:174-218 | Turns alternate at every moment |
| AgentProtocol.MessagesPair | packages/agent/src/agent-loop.ts:313-368 | Each message end closes a start with only updates between them |
| AgentProtocol.TurnEndsQuiet | packages/agent/src/agent-loop.ts:395-516 | Before each turn end every tool start has its end |
| AgentProtocol.PendingFollows | packages/agent/src/agent.ts:524-536 | The reducer's pending calls are under way |
| AgentProtocol.FailureReportFits | packages/agent/src/agent.ts:476-492 | Inside a turn, the four events that report a failure end the run as the grammar wants if and only if no message is open and no tool call under way; as many messages end as started, or one less if one was open |
| AgentLoop.PendingMessageQueue.Drain | packages/agent/src/agent.ts:134-147 | Drained and remaining messages are the queue, in order; everything in one mode, at most one message in the other |
| AgentLoop.Agent.Record | packages/agent/src/agent.ts:509-547 | The reducer's transcript is the old one and the messages ended so far |
| AgentLoop.Agent.FollowStream | packages/agent/src/agent-loop.ts:310-368 | Whatever its partial messages, a stream adds its final message to the context and ends it once; one that breaks adds none, and leaves a message open exactly if it started one |
| AgentLoop.Agent.PrepareToolCall | packages/agent/src/agent-loop.ts:562-626 | Unknown, invalid, blocked and aborted calls end at once with their error |
| AgentLoop.Agent.ExecuteToolCallsSequential | packages/agent/src/agent-loop.ts:395-449 | Results for a non-empty beginning of the calls in their order; without an abort one for each call, with the call's own outcome, and the batch settles the run if and only if every call is of a known tool, valid, not blocked, and asks for it itself |
| AgentLoop.Agent.ExecuteToolCallsParallel | packages/agent/src/agent-loop.ts:451-516 | The same contract, whatever the order in which the calls finish, so the parallel batch refines the sequential one |
| AgentLoop.Agent.ExecuteToolCalls | packages/agent/src/agent-loop.ts:373-388 | The choice between them does not show in the result, nor in whether the run is settled |
| AgentLoop.Agent.RunTurn | packages/agent/src/agent-loop.ts:174-218 | A turn delivers what was pending, one response and its results, closes with them, and leaves no call pending; there is none exactly if no response is left or the next one breaks |
| AgentLoop.Agent.DueExactly | packages/agent/src/agent-loop.ts:206-211 | After a turn that asked for tools and was not aborted, another response is due if and only if some call did not settle the run |
| AgentLoop.Agent.AfterTurn | packages/agent/src/agent-loop.ts:220-253 | The context is what the hook puts in its place, or else kept; what the steering poll gave is in the loop's hand |
| AgentLoop.Agent.RunTurns | packages/agent/src/agent-loop.ts:174-254 | The inner loop ends for a stated reason, with every message accounted for |
| AgentLoop.Agent.RunLoop | packages/agent/src/agent-loop.ts:155-269 | On every exit, messages ended and messages returned agree, and the loop's context is what it started with and every message since, or since the hook last put another in its place; every turn follows the one before for a reason; a follow-up is polled only after an empty steering poll with no tool turn due |
| AgentLoop.Agent.UninterruptedContext | packages/agent/src/agent-loop.ts:155-269 | If the hook never does, that is the first context and all messages of the run, in order |
| AgentLoop.Agent.GoesOnBecause | packages/agent/src/agent-loop.ts:171-253 | One turn follows another only to deliver messages, or because a call of the one before did not settle the run or was aborted; never after a failed or aborted response, nor one at which the hook stopped |
| AgentLoop.Agent.EndsBecause | packages/agent/src/agent-loop.ts:171-253 | A run ends by itself only after a failed or aborted turn, one at which the hook stopped, or one all of whose calls settled it |
| AgentLoop.Agent.FailedRunsNothing | packages/agent/src/agent-loop.ts:196-200 | A failed or aborted response has no tools run |
| AgentLoop.Agent.RunAgentLoop | packages/agent/src/agent-loop.ts:95-118 | The same, from new prompts |
| AgentLoop.Agent.RunAgentLoopContinue | packages/agent/src/agent-loop.ts:120-143 | It refuses exactly an empty context and one that ends with an assistant message |
| AgentLoop.Agent.HandleRunFailure | packages/agent/src/agent.ts:476-492 | Wherever a run failed, its report is the last four events, and its message the last of the transcript; the run ends as the grammar wants if and only if it was inside a turn with nothing open |
| AgentLoop.BrokenStreamLeavesMessageOpen | packages/agent/src/agent.ts:450-492 | An example: a run after which one message more has started than ended |
| AgentLoop.Agent.StartPrompt | packages/agent/src/agent.ts:327-335 | Refused only while a run is active; else the transcript grows by the run's messages, every message of either queue is delivered or still queued, in order, and nothing stays pending; if the provider failed, the last message and the last events report it, and fit what came before unless its stream broke with a message open |
| AgentLoop.Agent.Continue | packages/agent/src/agent.ts:338-365 | Exactly when it is refused; after an assistant message the queues give the prompts, steering first, and nothing else is injected before the first response |
| AgentLoop.Agent.HasQueuedMessages | packages/agent/src/agent.ts:289-292 | After an assistant message, whether the agent can go on |
| Harness.AgentHarness.AppendMessage | packages/agent/src/harness/agent-harness.ts:1005-1015 | Stored at once when idle, else queued last |
| Harness.AgentHarness.FlushPendingSessionWrites | packages/agent/src/harness/agent-harness.ts:507-531 | While no other call overlaps, deferred writes stored and still waiting are all those queued, in order, each once, even if an append fails or more arrive; a flush that succeeds has stored all that were queued before it |
| Harness.AgentHarness.HandleAgentEvent | packages/agent/src/harness/agent-harness.ts:533-577 | What each agent event stores, flushes and changes, and that only the end of an assistant message is kept for the check after the run |
| Harness.OverflowsApart | packages/agent/src/harness/agent-harness.ts:543-552 | Between two overflow compactions there is a response that is no error, or a new prompt |
| Harness.LatchIs | packages/agent/src/harness/agent-harness.ts:543-552 | Recovery is spent if and only if an overflow compaction has started and since then no prompt came and no response but failed ones |
| Harness.AgentHarness.CheckCompaction | packages/agent/src/harness/agent-harness.ts:736-808 | When a compaction starts, which one, when only its failure is reported, and when the turn goes on because of it; told from the story of the events so far |
| Harness.AgentHarness.HandlePostAgentRun | packages/agent/src/harness/agent-harness.ts:713-719 | The last response is checked once; the turn goes on if the check says so or messages wait |
| Harness.AgentHarness.PrepareCompaction | packages/agent/src/harness/agent-harness.ts:820-880 | A compaction comes to be stored if and only if model, key, branch and preparation are there, hook or model gives a summary, and nobody calls it off; exactly when it counts as aborted, and when it ends without an error |
| Harness.AgentHarness.RunAutoCompaction | packages/agent/src/harness/agent-harness.ts:814-911 | One start, and one end of the same kind on every path; the phase is restored; it goes on only after storing a compaction; what was asked for during it still waits; no other call overlaps |
| Harness.AgentHarness.Compact | packages/agent/src/harness/agent-harness.ts:1017-1087 | The same by hand, and only while idle; every write asked for meanwhile still waits when it returns; no other call overlaps |
| Harness.CompactLeavesWritesWaiting | packages/agent/src/harness/agent-harness.ts:1017-1087 | An example: a later write is stored while an earlier one waits |
| Harness.AgentHarness.WaitingWhen | packages/agent/src/harness/agent-harness.ts:507-531 | Writes wait if and only if some were deferred since a flush last found none waiting |
| Harness.AgentHarness.RunPass | packages/agent/src/harness/agent-harness.ts:645-702 | A pass that succeeds leaves the harness idle with every deferred write stored; what is then kept for the check is the run's last response, or the report of its failure |
| Harness.AgentHarness.ExecuteTurn | packages/agent/src/harness/agent-harness.ts:618-705 | While no other call overlaps: over all passes, compactions are paired and no deferred write is lost; every pass but the last asked to go on, and the last of a turn that succeeds did not; such a turn ends idle, and what still waits was deferred during the compaction it ended with |
| Harness.AgentHarness.Prompt | packages/agent/src/harness/agent-harness.ts:913-945 | A prompt re-arms overflow recovery, a skill does not; a failed one leaves the harness idle, if no other call overlaps |
| HarnessCalls.ConservedExactly | packages/agent/src/harness/agent-harness.ts:507-531 | Over every run of calls that may overlap at each `await`: deferred writes stored and waiting are all those queued, in order, each once, if and only if every write that was stored was still at the head of the queue then |
| HarnessCalls.OverlappingFlushes | packages/agent/src/harness/agent-harness.ts:507-577 | Runs in which a prompt begun when the run has settled stores one write twice, with one write waiting or with two, of which the second is lost |
| HarnessCalls.IdleExactly | packages/agent/src/harness/agent-harness.ts:814-911 | When no call is under way the harness is idle if and only if the phase was not last put back to a busy one by an automatic compaction |
| HarnessCalls.IdleIfFoundIdle | packages/agent/src/harness/agent-harness.ts:814-911 | So it is idle if every automatic compaction found it idle |
| HarnessCalls.BusyForGood | packages/agent/src/harness/agent-harness.ts:913-917 | A harness that is busy with no call under way stays so: every prompt and compaction is refused |
| HarnessCalls.BracketsExactly | packages/agent/src/harness/agent-harness.ts:814-911 | Over every such run, starts and ends of compactions alternate, each end of its own start, if and only if none begins while another is under way |
| HarnessCalls.OverlappingCompactions | packages/agent/src/harness/agent-harness.ts:736-911 | A run with overlapping compactions that ends busy, with no call under way |
| HarnessCalls.OneCallAtATime | packages/agent/src/harness/agent-harness.ts:618-705 | If calls do not overlap, deferred writes are conserved, compactions alternate, and the harness is idle when none is under way |
| Transcript.ApplyKeeps | apps/marketing/src/lib/session-player.ts:118-298 | Every frame, in any order, keeps keys distinct, pending calls on live tool blocks of their own, and the streaming key on a live assistant block |
| Transcript.ApplyAllKeeps | apps/marketing/src/lib/session-player.ts:442-446 | So does any sequence of frames |
| StreamReplay.StreamTextSteps | apps/marketing/src/lib/session-player.ts:306-314 | The loop computes the steps |
| StreamReplay.StepsGrow | apps/marketing/src/lib/session-player.ts:306-314 | They are growing beginnings of the text, the last one the text |
| StreamReplay.StepSizes | apps/marketing/src/lib/session-player.ts:306-314 | They are longer by 3, 4 and 5 characters in turn, until the text is at its end |
| StreamReplay.StreamAssistant | apps/marketing/src/lib/session-player.ts:334-370 | The generator yields the growing messages of the specification |
| StreamReplay.PiecesAre | apps/marketing/src/lib/session-player.ts:334-370 | The growing messages show the blocks one after the other, each through all its forms behind those before it, which are whole |
| StreamReplay.FormsAre | apps/marketing/src/lib/session-player.ts:316-370 | Text and thinking grow step by step, and so do the body of a file that is written and the command of a shell, from nothing on; any other call is shown at once |
| StreamReplay.OpenCallsAbsorb | apps/marketing/src/lib/session-player.ts:235-261 | Opening calls, and then a continuation of them, is opening the continuation |
| StreamReplay.UpdateAbsorbed | apps/marketing/src/lib/session-player.ts:225-264 | An update leaves no trace after a later one |
| StreamReplay.StreamTransparent | apps/marketing/src/lib/session-player.ts:225-298 | Ending a message after all its pieces gives the state of ending it after one full update |
| SessionPlayback.SessionTransparent | apps/marketing/src/lib/session-player.ts:372-446 | So for a whole session |
| SessionPlayback.ReplayFrames | apps/marketing/src/lib/session-player.ts:372-439 | The generator yields the frames of the specification |
| SessionPlayback.SettledStays | apps/marketing/src/lib/session-player.ts:157-210 | No later frame changes the arguments of a tool block that no pending call reaches |
| SessionPlayback.ReplayCut | apps/marketing/src/lib/session-player.ts:428-438 | Before a user message the frames of a session fall into those of its two parts |
| SessionPlayback.FoldsAgree | apps/marketing/src/lib/session-player.ts:411-418 | Two replays that saw different calls before end alike if and only if no tool result looks up something different |
| SessionPlayback.ContinuationExact | apps/marketing/src/lib/session-player.ts:609-621 | Folding a first part and then the rest, from a user message on, equals folding everything if and only if no later result answers a call made only in the first part |
| SessionPlayback.EarlierCallShows | apps/marketing/src/lib/session-player.ts:411-418 | An example in which one does |
| TranscriptMeaning.FoldTells | apps/marketing/src/lib/session-player.ts:118-446 | Told from the messages alone: which message opens each block of the folded transcript, in what order; the text, response, call or result it shows; the arguments, those of the last call made while it was open; how long a tool block is open, and which result or failed response settles it, with what; no two blocks of one call are open at a time, and every message and call is shown |
| TranscriptMeaning.TranscriptShows | apps/marketing/src/lib/session-player.ts:118-446 | In particular user texts and final responses stand in order, each in one block of its own and no other words; every tool result stands in a tool block of its own call that is settled and shows exactly its text and error flag, each in another one, and no other block counts as started |
| TranscriptMeaning.PartialShows | apps/marketing/src/lib/session-player.ts:183-194 | A partial result is shown in the open block of its call and nowhere else |
| TranscriptMeaning.NeverIdle | apps/marketing/src/lib/session-player.ts:379-399 | While a user message is replayed something is typed or a run is open, at every frame |
| TranscriptMeaning.TypingShows | apps/marketing/src/lib/session-player.ts:379-399 | The composer grows step by step while a message is typed and nothing else changes; an event is not typed |
| TranscriptMeaning.BusyWhen | apps/marketing/src/lib/session-player.ts:428-438 | The assistant is busy while a user types if and only if an earlier message opened a run that no response has ended since; at the end of a session nothing runs |
| TranscriptMeaning.EventMessageIs | apps/marketing/src/lib/session-player.ts:95-102 | Nobody typed a text if and only if it opens with a bracketed tag of word characters and a space |
| Player.SessionPlayer.Play | apps/marketing/src/lib/session-player.ts:602-628 | Every snapshot is the fold of the frames so far; a playback that is not aborted ends with the complete transcript, which is what the messages tell, if it starts from the top or where no later result answers an earlier call |
| Player.SessionPlayer.Fold | apps/marketing/src/lib/session-player.ts:636-645 | The complete transcript at once, which is what the messages tell |
| SessionContexts.GetPathToRoot | apps/marketing/src/lib/session.ts:120-133 | A walk that ends gives the path or the missing ancestor, in a log of any order |
| SessionContexts.PathIsChain | apps/marketing/src/lib/session.ts:120-133 | A path is a root-first chain of parents to its leaf; the walk fails only at a parent that is not in the log, and never ends only if it comes back to where it was |
| SessionContexts.EndlessExactly | apps/marketing/src/lib/session.ts:120-133 | It never ends if and only if it comes back: if an entry on it is its own ancestor |
| SessionContexts.EarlierEnds | apps/marketing/src/lib/session.ts:120-133 | In a log whose parents come first every walk ends |
| SessionContexts.OwnParentEndless | apps/marketing/src/lib/session.ts:120-133 | An example of a walk that does not |
| SessionContexts.BuildSessionContext | apps/marketing/src/lib/session.ts:176-234 | The passes compute the context of a path |
| SessionContexts.LoadSession | apps/marketing/src/lib/session.ts:246-255 | The context of the branch the last entry selects, if the walk to its root ends |
| SessionContexts.EmptySession | apps/marketing/src/lib/session.ts:176-182 | Without entries nothing is said, thinking is off, and neither model nor tools are chosen |
| SessionContexts.PathStable | apps/marketing/src/lib/session.ts:120-133 | Whatever is appended, the path to an entry stays |
| SessionContexts.AppendChild | apps/marketing/src/lib/session.ts:114-133 | A child of the leaf that is no compaction appends exactly the message of its kind, or none, and changes only the setting it is about, the model by an assistant message too |
| SessionContexts.BranchAndBack | apps/marketing/src/lib/session.ts:114-116 | Entries on another branch and a leaf entry back restore the old context |
| SessionContexts.AppendCompaction | apps/marketing/src/lib/session.ts:215-226 | A compaction leaves its summary and the kept end of the branch |
| SessionContexts.CompactedContext | apps/marketing/src/lib/session.ts:215-226 | The messages are the last compaction's summary, the suffix it kept, and everything after |
| EventStream.Channel.Broadcast | packages/wolli/src/server.ts:505-528 | A forwarded frame gets the next number, enters the ring, and reaches the first member; without members nothing happens; a replay is disturbed only when a full ring lets go of an entry |
| EventStream.Channel.Visit | packages/wolli/src/server.ts:521-527 | A suspended broadcast goes on to the next member, dropping aborted ones |
| EventStream.Channel.Attach | packages/wolli/src/server.ts:810-858 | A client joins, notes its watermark and starts its replay, with nothing in between; it is owed the ids above its Last-Event-ID that the ring holds, up to the watermark |
| EventStream.Channel.ReplayOn | packages/wolli/src/server.ts:850-858 | The replay goes on in the ring as it is now |
| EventStream.Channel.NoDoubleDelivery | packages/wolli/src/server.ts:819-858 | Under every interleaving, replayed ids increase strictly between a client's Last-Event-ID and its watermark; if it attached while no broadcast was suspended of a frame that it wanted and the ring held, it gets no id twice, and if none was suspended at all, live ids are above its watermark (section 9.2 of the HTML standard) |
| EventStream.UnsafeAttachRepeats | packages/wolli/src/server.ts:819-858 | If such a broadcast was suspended, some continuation delivers its frame twice |
| EventStream.Channel.ReplayComplete | packages/wolli/src/server.ts:849-858 | A replay during which no entry left the ring has given everything asked for |
| EventStream.Channel.RingIsContiguous | packages/wolli/src/server.ts:514-520 | The ring holds the last at most 256 ids, contiguous up to the sequence number |
| EventStream.SuspendedBroadcastRepeats | packages/wolli/src/server.ts:819-858 | An example of a frame delivered twice to a client that attached during a broadcast |

## Left out

- Terminal size changes: a changed size is modelled as the full redraw it causes, except Termux height changes and a size that changes and changes back between two renders. Kitty images, synchronized-output support and the crash log file are left out, as is `normalizeTerminalOutput`, which keeps widths.
- Unicode: grapheme segmentation and widths are parameters. A text is a sequence of codes and graphemes of known width, so width is additive; codes hold no line break, and a grapheme is either white or does not end in white space. Widths and the width cache are not computed.
- Renderer.TUI.DoRender: promises the cursor row only where the marker is on the screen, because the code loses it otherwise; the contract says exactly when.
- Overlay placement and sizing, `visible` callbacks that change their answer within one operation, and focus flags set by components themselves.
- Key parsing, the conversion of single high bytes from `Buffer` input, and timers: the timeout is a call of `Flush`.
- Provider streams, tool execution, validation and hooks are outcomes given in advance; a stream has at most one start. A provider that fails before its stream, or whose stream breaks, is modelled; exceptions of listeners, of hooks and of polls inside the loop are not.
- `tool_execution_update` events: they change no state, and no update comes after its call has ended.
- In-place aliasing of a context that `prepareNextTurn` hands over, model and thinking-level switches, system prompts and tool lists.
- AgentLoop.Agent.StartPrompt: the responses are a finite sequence, so only runs that end are covered.
- Harness.AgentHarness.ExecuteTurn: calls that overlap it are left to `HarnessCalls`; a turn may outlast the outcomes given in advance, and is then cut off, so only finite beginnings are covered; the prompt's own messages, the next-turn queue and the trailing overflow entry that a retry drops are not modelled.
- Harness.AgentHarness.FlushPendingSessionWrites: two flushes never overlap in the class, where callers only ask for writes while a call awaits; `HarnessCalls` has the control flow of calls that overlap, without what the runs, the compactions and the checks in them come to.
- Compaction's choice of a cut point, its summaries, token estimates and staleness checks, and tree navigation: they are answers given in advance.
- SessionContexts.GetPathToRoot: where the walk never ends, as `SessionContexts.EndlessExactly` says exactly, there is nothing it could promise.
- SessionContexts.LoadSession: the same.
- Timing of playback, loading of session files and their JSON parsing; the player's calls do not overlap.
- Block keys of the demo transcript are numbers; `b7` is 7. Tool arguments are maps from names to texts or opaque values.
- Routes, authentication, the control stream, dialogs and session eviction of the daemon. A frame counts as delivered to a client when its write is issued, also after the client has gone.
