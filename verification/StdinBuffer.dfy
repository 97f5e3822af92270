/** The buffering of terminal input: key sequences, bracketed pastes, and why chunking is invisible. */
module StdinBuffering {
  import opened Options
  import opened Strings
  import opened InputSequences

  const PASTE_START := [ESC] + "[200~"
  const PASTE_END := [ESC] + "[201~"

  datatype Event = Data(text: string) | Paste(text: string)

  // ----- the Kitty key that repeats as plain text -----

  /** The code point of an unmodified `ESC [ digits u` key report, with optional alternate keys
      `:digits*` and `:digits` in between; only printable code points count. */
  function UnmodifiedKittyPrintable(sequence: string): (r: Option<nat>)
    ensures r.Some? ==> r.value >= 32 && |sequence| > 3
  {
    if |sequence| > 3 && StartsWith(sequence, [ESC, '[']) && sequence[|sequence| - 1] == 'u' then
      var parts := SplitOn(sequence[2..|sequence| - 1], ':');
      if (forall p :: p in parts ==> AllDigits(p)) && parts[0] != "" &&
         (|parts| <= 2 || (|parts| == 3 && parts[2] != "")) then
        assert parts[0] in parts;
        var codepoint := ParseNat(parts[0]);
        if codepoint >= 32 then Some(codepoint) else None
      else None
    else None
  }

  datatype Emission = Emission(pending: Option<nat>, events: seq<Event>)

  /** One sequence: dropped when it is the plain character that the previous key report announced. */
  function EmitData(pending: Option<nat>, sequence: string): Emission {
    if |sequence| == 1 && pending == Some(sequence[0] as int) then Emission(None, [])
    else Emission(UnmodifiedKittyPrintable(sequence), [Data(sequence)])
  }

  function EmitAll(pending: Option<nat>, sequences: seq<string>): Emission
    decreases |sequences|
  {
    if sequences == [] then Emission(pending, [])
    else
      var first := EmitData(pending, sequences[0]);
      var rest := EmitAll(first.pending, sequences[1..]);
      Emission(rest.pending, first.events + rest.events)
  }

  // ----- the state machine -----

  datatype State = State(buffer: string, pasteMode: bool, pasteBuffer: string, pending: Option<nat>)
  {
    predicate Valid() {
      && (if pasteMode then buffer == "" && pending.None? else pasteBuffer == "")
      && (pending.Some? ==> pending.value >= 32)
    }
  }

  const IDLE := State("", false, "", None)

  datatype Step = Step(state: State, events: seq<Event>)

  function Before(events: seq<Event>, s: Step): Step {
    Step(s.state, events + s.events)
  }

  /** In paste mode with `text` collected: finish the paste when its end is there. */
  function PasteStep(text: string): (r: Step)
    ensures r.state.Valid()
    decreases |text|, 0
  {
    var endIndex := IndexOf(text, PASTE_END);
    if endIndex == -1 then Step(State("", true, text, None), [])
    else
      var remaining := text[endIndex + |PASTE_END|..];
      Before([Paste(text[..endIndex])], if remaining != "" then Process(IDLE, remaining) else Step(IDLE, []))
  }

  /** In key mode with `buffer` collected. */
  function KeysStep(pending: Option<nat>, buffer: string): (r: Step)
    requires pending.Some? ==> pending.value >= 32
    ensures r.state.Valid()
    decreases |buffer|, 1
  {
    var startIndex := IndexOf(buffer, PASTE_START);
    if startIndex != -1 then
      var e := EmitAll(pending, if startIndex > 0 then Split(buffer[..startIndex]).sequences else []);
      Before(e.events, PasteStep(buffer[startIndex + |PASTE_START|..]))
    else
      var r := Split(buffer);
      EmitAllPending(pending, r.sequences);
      var e := EmitAll(pending, r.sequences);
      Step(State(r.remainder, false, "", e.pending), e.events)
  }

  function Process(st: State, data: string): (r: Step)
    requires st.Valid()
    ensures r.state.Valid()
    decreases |st.buffer| + |st.pasteBuffer| + |data|, 2
  {
    if data == "" && st.buffer == "" then
      var e := EmitData(st.pending, "");
      Step(st.(pending := e.pending), e.events)
    else if st.pasteMode then PasteStep(st.pasteBuffer + (st.buffer + data))
    else KeysStep(st.pending, st.buffer + data)
  }

  lemma {:induction false} EmitAllPending(pending: Option<nat>, sequences: seq<string>)
    requires pending.Some? ==> pending.value >= 32
    ensures var e := EmitAll(pending, sequences); e.pending.Some? ==> e.pending.value >= 32
    decreases |sequences|
  {
    if sequences != [] { EmitAllPending(EmitData(pending, sequences[0]).pending, sequences[1..]); }
  }

  lemma EmitNone(pending: Option<nat>)
    ensures EmitAll(pending, []) == Emission(pending, [])
  {
  }

  class StdinBuffer {
    var buffer: string
    var pasteMode: bool
    var pasteBuffer: string
    var pendingKittyPrintableCodepoint: Option<nat>
    /** Everything emitted to the listeners so far. */
    var events: seq<Event>

    constructor ()
      ensures View() == IDLE && events == []
    {
      buffer, pasteMode, pasteBuffer, pendingKittyPrintableCodepoint, events := "", false, "", None, [];
    }

    function View(): State
      reads this
    {
      State(buffer, pasteMode, pasteBuffer, pendingKittyPrintableCodepoint)
    }

    method EmitDataSequence(sequence: string)
      modifies this`pendingKittyPrintableCodepoint, this`events
      ensures var e := EmitData(old(pendingKittyPrintableCodepoint), sequence);
        pendingKittyPrintableCodepoint == e.pending && events == old(events) + e.events
    {
      if |sequence| == 1 && pendingKittyPrintableCodepoint == Some(sequence[0] as int) {
        pendingKittyPrintableCodepoint := None;
        return;
      }
      pendingKittyPrintableCodepoint := UnmodifiedKittyPrintable(sequence);
      events := events + [Data(sequence)];
    }

    method EmitSequences(sequences: seq<string>)
      modifies this`pendingKittyPrintableCodepoint, this`events
      ensures var e := EmitAll(old(pendingKittyPrintableCodepoint), sequences);
        pendingKittyPrintableCodepoint == e.pending && events == old(events) + e.events
    {
      hide EmitData;
      var i := 0;
      while i < |sequences|
        invariant 0 <= i <= |sequences|
        invariant old(events) <= events
        invariant var e := EmitAll(pendingKittyPrintableCodepoint, sequences[i..]);
          EmitAll(old(pendingKittyPrintableCodepoint), sequences) ==
          Emission(e.pending, events[|old(events)|..] + e.events)
      {
        ghost var before := events;
        EmitDataSequence(sequences[i]);
        assert sequences[i..][1..] == sequences[i + 1..];
        ghost var first := events[|before|..];
        assert events[|old(events)|..] == before[|old(events)|..] + first;
        i := i + 1;
      }
    }

    /** Feed one chunk. */
    method ProcessChunk(data: string)
      requires View().Valid()
      modifies this
      ensures var r := Process(old(View()), data);
        View() == r.state && events == old(events) + r.events
      decreases |buffer| + |pasteBuffer| + |data|, 2
    {
      hide Split, PasteStep, EmitAll, EmitData;
      if |data| == 0 && |buffer| == 0 {
        EmitDataSequence("");
        return;
      }
      buffer := buffer + data;
      if pasteMode {
        pasteBuffer := pasteBuffer + buffer;
        buffer := "";
        FinishPaste();
        return;
      }
      var startIndex := IndexOf(buffer, PASTE_START);
      if startIndex != -1 {
        BeginPaste(startIndex);
        return;
      }
      var result := ExtractCompleteSequences(buffer);
      buffer := result.remainder;
      EmitSequences(result.sequences);
    }

    /** What precedes a paste start is emitted as far as it is complete; the rest of it is dropped. */
    method BeginPaste(startIndex: nat)
      requires !pasteMode && pasteBuffer == "" && startIndex + |PASTE_START| <= |buffer|
      modifies this
      ensures
        var e := EmitAll(old(pendingKittyPrintableCodepoint),
                         if startIndex > 0 then Split(old(buffer)[..startIndex]).sequences else []);
        var r := Before(e.events, PasteStep(old(buffer)[startIndex + |PASTE_START|..]));
        View() == r.state && events == old(events) + r.events
      decreases |buffer|, 0
    {
      hide Split, PasteStep, EmitAll;
      if startIndex > 0 {
        var beforePaste := buffer[..startIndex];
        var result := ExtractCompleteSequences(beforePaste);
        EmitSequences(result.sequences);
      } else {
        EmitNone(pendingKittyPrintableCodepoint);
      }
      pendingKittyPrintableCodepoint := None;
      buffer := buffer[startIndex + |PASTE_START|..];
      pasteMode := true;
      pasteBuffer := buffer;
      buffer := "";
      FinishPaste();
    }

    /** Look for the end of the paste; what follows it is processed as fresh input. */
    method FinishPaste()
      requires pasteMode && buffer == "" && pendingKittyPrintableCodepoint.None?
      modifies this
      ensures var r := PasteStep(old(pasteBuffer));
        View() == r.state && events == old(events) + r.events
      decreases |pasteBuffer|, 0
    {
      hide Process, Split, EmitAll;
      var endIndex := IndexOf(pasteBuffer, PASTE_END);
      if endIndex != -1 {
        var pastedContent := pasteBuffer[..endIndex];
        var remaining := pasteBuffer[endIndex + |PASTE_END|..];
        pasteMode := false;
        pasteBuffer := "";
        pendingKittyPrintableCodepoint := None;
        events := events + [Paste(pastedContent)];
        if |remaining| > 0 {
          ProcessChunk(remaining);
        }
      }
    }

    /** The timeout gives up waiting: the unfinished sequence is handed out as it is. */
    method Flush() returns (sequences: seq<string>)
      requires View().Valid()
      modifies this
      ensures View().Valid() && events == old(events)
      ensures buffer == "" && Join(sequences) == old(buffer)
      ensures View() == if old(buffer) == "" then old(View()) else old(View()).(buffer := "", pending := None)
    {
      if |buffer| == 0 {
        return [];
      }
      sequences := [buffer];
      buffer := "";
      pendingKittyPrintableCodepoint := None;
    }

    method Clear()
      modifies this
      ensures View() == IDLE && events == old(events)
    {
      buffer, pasteMode, pasteBuffer, pendingKittyPrintableCodepoint := "", false, "", None;
    }
  }
}
