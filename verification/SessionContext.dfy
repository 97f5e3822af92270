/** A session log: an append-only tree of entries, read as the context of one branch. */
module SessionContexts {
  import opened Options

  datatype Message =
    | User(text: string)
    | Assistant(text: string, provider: string, model: string)
    | ToolResult(toolCallId: string, text: string)
    | Custom(customType: string, text: string, display: bool, timestamp: string)
    | BranchSummary(summary: string, fromId: string, timestamp: string)
    | CompactionSummary(summary: string, tokensBefore: nat, timestamp: string)

  datatype Payload =
    | Says(message: Message)
    | SaysCustom(customType: string, text: string, display: bool)
    | Summarizes(summary: string, fromId: string)
    | Thinking(level: string)
    | UsesModel(provider: string, modelId: string)
    | UsesTools(names: seq<string>)
    | Compacts(summary: string, firstKeptEntryId: string, tokensBefore: nat)
    | MovesLeaf(targetId: Option<string>)
    | Notes

  datatype Entry = Entry(id: string, parentId: Option<string>, timestamp: string, payload: Payload)

  datatype Context = Context(messages: seq<Message>, thinkingLevel: string, model: Option<(string, string)>,
                             activeToolNames: Option<seq<string>>)

  /** What a walk up the parents comes to; `Endless` stands for one that never ends. */
  datatype Result<T> = Ok(value: T) | NotFound(id: string) | Endless

  // ----- the tree -----

  /** A missing or empty parent makes a root. */
  predicate IsRoot(e: Entry) {
    e.parentId.None? || e.parentId.value == ""
  }

  predicate UniqueIds(log: seq<Entry>) {
    forall i, j :: 0 <= i < j < |log| ==> log[i].id != log[j].id
  }

  /** Parents that are in the log come earlier; an absent parent is not excluded. */
  predicate ParentsEarlier(log: seq<Entry>) {
    forall i, j :: 0 <= i < |log| && 0 <= j < |log| && log[i].parentId == Some(log[j].id) ==> j < i
  }

  function IndexOf(log: seq<Entry>, id: string): (r: Option<nat>)
    ensures r.Some? ==> r.value < |log| && log[r.value].id == id
    ensures r.None? ==> forall i :: 0 <= i < |log| ==> log[i].id != id
  {
    if log == [] then None
    else if log[|log| - 1].id == id then Some(|log| - 1)
    else IndexOf(log[..|log| - 1], id)
  }

  /** The entries from the root to entry `i`, if at most `n` parents are to be passed. */
  function PathUp(log: seq<Entry>, i: nat, n: nat): Result<seq<Entry>>
    requires i < |log|
    decreases n
  {
    if IsRoot(log[i]) then Ok([log[i]])
    else
      var parent := IndexOf(log, log[i].parentId.value);
      if parent.None? then NotFound(log[i].parentId.value)
      else if n == 0 then Endless
      else Onto(PathUp(log, parent.value, n - 1), [log[i]])
  }

  /** The entries from the root to entry `i`. */
  function PathAt(log: seq<Entry>, i: nat): Result<seq<Entry>>
    requires i < |log|
  {
    PathUp(log, i, |log|)
  }

  function Onto(path: Result<seq<Entry>>, rest: seq<Entry>): Result<seq<Entry>> {
    match path
    case Ok(p) => Ok(p + rest)
    case NotFound(id) => NotFound(id)
    case Endless => Endless
  }

  function PathTo(log: seq<Entry>, leafId: Option<string>): Result<seq<Entry>> {
    if leafId.None? then Ok([])
    else
      var leaf := IndexOf(log, leafId.value);
      if leaf.None? then NotFound(leafId.value) else PathAt(log, leaf.value)
  }

  function ById(log: seq<Entry>): map<string, Entry> {
    if log == [] then map[]
    else ById(log[..|log| - 1])[log[|log| - 1].id := log[|log| - 1]]
  }

  lemma {:induction false} ByIdFinds(log: seq<Entry>, id: string)
    ensures id in ById(log) <==> IndexOf(log, id).Some?
    ensures id in ById(log) ==> ById(log)[id] == log[IndexOf(log, id).value]
    decreases |log|
  {
    if log != [] { ByIdFinds(log[..|log| - 1], id); }
  }

  /** The walk up the parent links gathers the path. It is not to be started where it would never end. */
  method GetPathToRoot(ghost log: seq<Entry>, byId: map<string, Entry>, leafId: Option<string>)
    returns (result: Result<seq<Entry>>)
    requires byId == ById(log) && PathTo(log, leafId) != Endless
    ensures result == PathTo(log, leafId)
  {
    if leafId.None? {
      return Ok([]);
    }
    var path: seq<Entry> := [];
    ByIdFinds(log, leafId.value);
    if leafId.value !in byId {
      return NotFound(leafId.value);
    }
    var current := byId[leafId.value];
    ghost var at: nat := IndexOf(log, leafId.value).value;
    ghost var left: nat := |log|;
    OntoNothing(PathAt(log, at));
    while true
      invariant at < |log| && current == log[at]
      invariant PathTo(log, leafId) == Onto(PathUp(log, at, left), path)
      decreases left
    {
      ghost var before := path;
      path := [current] + path;
      if IsRoot(current) {
        return Ok(path);
      }
      ByIdFinds(log, current.parentId.value);
      if current.parentId.value !in byId {
        return NotFound(current.parentId.value);
      }
      ghost var parent := IndexOf(log, current.parentId.value).value;
      current := byId[current.parentId.value];
      assert left > 0;
      OntoTwice(PathUp(log, parent, left - 1), [log[at]], before);
      at, left := parent, left - 1;
    }
  }

  lemma OntoNothing(path: Result<seq<Entry>>)
    ensures Onto(path, []) == path
  {
    if path.Ok? { assert path.value + [] == path.value; }
  }

  lemma OntoTwice(path: Result<seq<Entry>>, a: seq<Entry>, b: seq<Entry>)
    ensures Onto(Onto(path, a), b) == Onto(path, a + b)
  {
    if path.Ok? { assert path.value + a + b == path.value + (a + b); }
  }

  /** A path is a chain of parents, root first, that ends at its leaf. */
  predicate IsChain(path: seq<Entry>, leaf: Entry) {
    && path != [] && path[|path| - 1] == leaf && IsRoot(path[0])
    && forall i :: 0 < i < |path| ==> !IsRoot(path[i]) && path[i].parentId == Some(path[i - 1].id)
  }

  /** The place of the parent. */
  function Up(log: seq<Entry>, i: nat): (r: Option<nat>)
    requires i < |log|
    ensures r.Some? ==> r.value < |log|
  {
    if IsRoot(log[i]) then None else IndexOf(log, log[i].parentId.value)
  }

  /** The place of the ancestor `k` generations up. */
  function Ancestor(log: seq<Entry>, i: nat, k: nat): (r: Option<nat>)
    requires i < |log|
    ensures r.Some? ==> r.value < |log|
  {
    if k == 0 then Some(i)
    else
      var below := Ancestor(log, i, k - 1);
      if below.None? then None else Up(log, below.value)
  }

  /** The walk comes twice to one place. */
  ghost predicate ComesBack(log: seq<Entry>, i: nat)
    requires i < |log|
  {
    exists p: nat, q: nat :: p < q && Ancestor(log, i, p).Some? && Ancestor(log, i, p) == Ancestor(log, i, q)
  }

  lemma {:induction false} AncestorJoin(log: seq<Entry>, i: nat, m: nat, n: nat)
    requires i < |log| && Ancestor(log, i, m).Some?
    ensures Ancestor(log, Ancestor(log, i, m).value, n) == Ancestor(log, i, m + n)
    decreases n
  {
    if n > 0 {
      AncestorJoin(log, i, m, n - 1);
    }
  }

  lemma {:induction false} AncestorStops(log: seq<Entry>, i: nat, m: nat, n: nat)
    requires i < |log| && m <= n && Ancestor(log, i, m).None?
    ensures Ancestor(log, i, n).None?
    decreases n
  {
    if m < n {
      AncestorStops(log, i, m, n - 1);
    }
  }

  lemma {:induction false} EndlessIfHigh(log: seq<Entry>, i: nat, n: nat)
    requires i < |log|
    ensures PathUp(log, i, n) == Endless <==> Ancestor(log, i, n + 1).Some?
    decreases n
  {
    assert Ancestor(log, i, 0) == Some(i);
    assert Ancestor(log, i, 1) == Up(log, i);
    if Up(log, i).None? {
      AncestorStops(log, i, 1, n + 1);
    } else if n > 0 {
      AncestorJoin(log, i, 1, n);
      EndlessIfHigh(log, Up(log, i).value, n - 1);
    }
  }

  /** A walk that comes back goes on for ever. */
  lemma {:induction false} GoesOn(log: seq<Entry>, i: nat, p: nat, q: nat, k: nat)
    requires i < |log| && p < q && Ancestor(log, i, p).Some? && Ancestor(log, i, p) == Ancestor(log, i, q)
    ensures Ancestor(log, i, k).Some?
    decreases k
  {
    hide Ancestor;
    if k > q {
      AncestorJoin(log, i, p, k - q);
      AncestorJoin(log, i, q, k - q);
      GoesOn(log, i, p, q, p + k - q);
    } else if Ancestor(log, i, k).None? {
      AncestorStops(log, i, k, q);
    }
  }

  /** Among more places than the log has, one comes twice. */
  lemma {:induction false} OneComesTwice(places: seq<nat>, n: nat)
    requires |places| > n && forall k :: 0 <= k < |places| ==> places[k] < n
    ensures exists p, q :: 0 <= p < q < |places| && places[p] == places[q]
    decreases n
  {
    var last := places[|places| - 1];
    var init := places[..|places| - 1];
    if p :| 0 <= p < |init| && init[p] == last {
      assert places[p] == places[|places| - 1];
    } else {
      var moved := seq(|init|, k requires 0 <= k < |init| => if init[k] == n - 1 then last else init[k]);
      OneComesTwice(moved, n - 1);
      var p, q :| 0 <= p < q < |moved| && moved[p] == moved[q];
      assert init[p] == init[q];
      assert places[p] == places[q];
    }
  }

  /** The walk never ends exactly if it comes back to an entry it has passed: if an entry is its own ancestor. */
  lemma EndlessExactly(log: seq<Entry>, i: nat)
    requires i < |log|
    ensures PathAt(log, i) == Endless <==> ComesBack(log, i)
  {
    hide Ancestor;
    EndlessIfHigh(log, i, |log|);
    if PathAt(log, i) == Endless {
      forall k: nat | k <= |log| ensures Ancestor(log, i, k).Some? {
        if Ancestor(log, i, k).None? { AncestorStops(log, i, k, |log| + 1); }
      }
      var places := seq(|log| + 1, k requires 0 <= k <= |log| => Ancestor(log, i, k).value);
      OneComesTwice(places, |log|);
      var p, q :| 0 <= p < q < |places| && places[p] == places[q];
      assert Ancestor(log, i, p) == Ancestor(log, i, q);
    }
    if ComesBack(log, i) {
      var p: nat, q: nat :| p < q && Ancestor(log, i, p).Some? && Ancestor(log, i, p) == Ancestor(log, i, q);
      GoesOn(log, i, p, q, |log| + 1);
    }
  }

  /** An entry that names itself as its parent. */
  lemma OwnParentEndless(e: Entry)
    requires !IsRoot(e) && e.parentId == Some(e.id)
    ensures PathTo([e], Some(e.id)) == Endless
  {
    assert Ancestor([e], 0, 0) == Ancestor([e], 0, 1) == Some(0);
    EndlessExactly([e], 0);
  }

  /** In a log in which parents come first, as its writers leave it, every walk ends. */
  lemma {:induction false} EarlierEnds(log: seq<Entry>, i: nat, n: nat)
    requires ParentsEarlier(log) && i < |log| && i <= n
    ensures PathUp(log, i, n) != Endless
    decreases n
  {
    if !IsRoot(log[i]) {
      var parent := IndexOf(log, log[i].parentId.value);
      if parent.Some? { EarlierEnds(log, parent.value, n - 1); }
    }
  }

  lemma {:induction false} PathMore(log: seq<Entry>, i: nat, n: nat, m: nat)
    requires i < |log| && n <= m && PathUp(log, i, n) != Endless
    ensures PathUp(log, i, m) == PathUp(log, i, n)
    decreases n
  {
    if Up(log, i).Some? { PathMore(log, Up(log, i).value, n - 1, m - 1); }
  }

  /** An entry of the log names a parent that is not in it. */
  ghost predicate MissingParent(log: seq<Entry>, id: string) {
    IndexOf(log, id).None? && exists j :: 0 <= j < |log| && log[j].parentId == Some(id)
  }

  lemma {:induction false} PathUpIsChain(log: seq<Entry>, i: nat, n: nat)
    requires i < |log|
    ensures match PathUp(log, i, n)
            case Ok(path) => IsChain(path, log[i])
            case NotFound(id) => MissingParent(log, id)
            case Endless => true
    decreases n
  {
    if Up(log, i).Some? && n > 0 { PathUpIsChain(log, Up(log, i).value, n - 1); }
  }

  /** The walk gathers a chain, fails at a parent that is not in the log, or comes back to where it was. */
  lemma PathIsChain(log: seq<Entry>, i: nat)
    requires i < |log|
    ensures match PathAt(log, i)
            case Ok(path) => IsChain(path, log[i])
            case NotFound(id) => MissingParent(log, id)
            case Endless => ComesBack(log, i)
  {
    hide PathUp, IsChain, ComesBack;
    PathUpIsChain(log, i, |log|);
    EndlessExactly(log, i);
  }

  // ----- what a path says -----

  function Shown(e: Entry): seq<Message> {
    match e.payload
    case Says(m) => [m]
    case SaysCustom(customType, text, display) => [Custom(customType, text, display, e.timestamp)]
    case Summarizes(summary, fromId) => if summary != "" then [BranchSummary(summary, fromId, e.timestamp)] else []
    case _ => []
  }

  function AllShown(path: seq<Entry>): seq<Message> {
    if path == [] then [] else AllShown(path[..|path| - 1]) + Shown(path[|path| - 1])
  }

  function Level(path: seq<Entry>): string {
    if path == [] then "off"
    else
      var e := path[|path| - 1];
      if e.payload.Thinking? then e.payload.level else Level(path[..|path| - 1])
  }

  function Model(path: seq<Entry>): Option<(string, string)> {
    if path == [] then None
    else
      var e := path[|path| - 1];
      if e.payload.UsesModel? then Some((e.payload.provider, e.payload.modelId))
      else if e.payload.Says? && e.payload.message.Assistant? then
        Some((e.payload.message.provider, e.payload.message.model))
      else Model(path[..|path| - 1])
  }

  function Tools(path: seq<Entry>): Option<seq<string>> {
    if path == [] then None
    else
      var e := path[|path| - 1];
      if e.payload.UsesTools? then Some(e.payload.names) else Tools(path[..|path| - 1])
  }

  /** The index of the last compaction. */
  function LastCompaction(path: seq<Entry>): (r: Option<nat>)
    ensures r.Some? ==> r.value < |path| && path[r.value].payload.Compacts?
    ensures forall i :: 0 <= i < |path| && path[i].payload.Compacts? ==> r.Some? && i <= r.value
  {
    if path == [] then None
    else if path[|path| - 1].payload.Compacts? then Some(|path| - 1)
    else LastCompaction(path[..|path| - 1])
  }

  /** The first entry with an id, or the length. */
  function FirstWithId(path: seq<Entry>, id: string): (i: nat)
    ensures i <= |path| && (i < |path| ==> path[i].id == id)
    ensures forall j :: 0 <= j < i ==> path[j].id != id
  {
    if path == [] then 0
    else if path[0].id == id then 0
    else 1 + FirstWithId(path[1..], id)
  }

  /** Where a compaction with this id first stands, or the length. */
  function FirstCompaction(path: seq<Entry>, id: string): (i: nat)
    ensures i <= |path| && (i < |path| ==> path[i].payload.Compacts? && path[i].id == id)
    ensures forall j :: 0 <= j < i ==> !(path[j].payload.Compacts? && path[j].id == id)
  {
    if path == [] then 0
    else if path[0].payload.Compacts? && path[0].id == id then 0
    else 1 + FirstCompaction(path[1..], id)
  }

  /** With a compaction: its summary, the suffix it kept, and everything after it. */
  function PathMessages(path: seq<Entry>): seq<Message> {
    var c := LastCompaction(path);
    if c.None? then AllShown(path)
    else
      var e := path[c.value];
      var at := FirstCompaction(path, e.id);
      [CompactionSummary(e.payload.summary, e.payload.tokensBefore, e.timestamp)]
      + AllShown(path[FirstWithId(path[..at], e.payload.firstKeptEntryId)..at])
      + AllShown(path[at + 1..])
  }

  function PathContext(path: seq<Entry>): Context {
    Context(PathMessages(path), Level(path), Model(path), Tools(path))
  }

  lemma AllShownSnoc(path: seq<Entry>, e: Entry)
    ensures AllShown(path + [e]) == AllShown(path) + Shown(e)
  {
    assert (path + [e])[..|path|] == path;
  }

  lemma {:induction false} AllShownJoin(a: seq<Entry>, b: seq<Entry>)
    ensures AllShown(a + b) == AllShown(a) + AllShown(b)
    decreases |b|
  {
    hide Shown;
    if b == [] {
      assert a + b == a;
    } else {
      var n := |b| - 1;
      AllShownJoin(a, b[..n]);
      assert (a + b)[..|a + b| - 1] == a + b[..n] && (a + b)[|a + b| - 1] == b[n];
      assert AllShown(a + b) == AllShown(a) + AllShown(b[..n]) + Shown(b[n]);
    }
  }

  /** The two passes over the path. */
  method BuildSessionContext(path: seq<Entry>) returns (context: Context)
    ensures context == PathContext(path)
  {
    hide Shown, AllShown, Level, Model, Tools, LastCompaction, FirstWithId, FirstCompaction;
    var thinkingLevel, model, activeToolNames, compaction := FinalSettings(path);
    var messages: seq<Message> := [];
    if compaction.Some? {
      var e := compaction.value;
      messages := [CompactionSummary(e.payload.summary, e.payload.tokensBefore, e.timestamp)];
      var at := FirstCompaction(path, e.id);
      var kept := KeptMessages(path[..at], e.payload.firstKeptEntryId);
      assert path[..at][FirstWithId(path[..at], e.payload.firstKeptEntryId)..] ==
             path[FirstWithId(path[..at], e.payload.firstKeptEntryId)..at];
      messages := messages + kept;
      var rest := ShowAll(path[at + 1..]);
      messages := messages + rest;
    } else {
      messages := ShowAll(path);
    }
    context := Context(messages, thinkingLevel, model, activeToolNames);
  }

  method FinalSettings(path: seq<Entry>)
    returns (thinkingLevel: string, model: Option<(string, string)>, activeToolNames: Option<seq<string>>,
             compaction: Option<Entry>)
    ensures thinkingLevel == Level(path) && model == Model(path) && activeToolNames == Tools(path)
    ensures compaction == var c := LastCompaction(path); if c.None? then None else Some(path[c.value])
  {
    thinkingLevel, model, activeToolNames, compaction := "off", None, None, None;
    for i := 0 to |path|
      invariant thinkingLevel == Level(path[..i]) && model == Model(path[..i]) && activeToolNames == Tools(path[..i])
      invariant compaction == var c := LastCompaction(path[..i]); if c.None? then None else Some(path[c.value])
    {
      assert path[..i + 1][..i] == path[..i];
      match path[i].payload {
        case Thinking(level) => thinkingLevel := level;
        case UsesModel(provider, modelId) => model := Some((provider, modelId));
        case Says(m) =>
          if m.Assistant? { model := Some((m.provider, m.model)); }
        case UsesTools(names) => activeToolNames := Some(names);
        case Compacts(_, _, _) => compaction := Some(path[i]);
        case _ =>
      }
    }
    assert path[..|path|] == path;
  }

  method ShowAll(path: seq<Entry>) returns (messages: seq<Message>)
    ensures messages == AllShown(path)
  {
    messages := [];
    for i := 0 to |path|
      invariant messages == AllShown(path[..i])
    {
      assert path[..i + 1][..i] == path[..i];
      messages := messages + Shown(path[i]);
    }
    assert path[..|path|] == path;
  }

  method KeptMessages(path: seq<Entry>, firstKept: string) returns (messages: seq<Message>)
    ensures messages == AllShown(path[FirstWithId(path, firstKept)..])
  {
    hide Shown;
    messages := [];
    var foundFirstKept := false;
    ghost var first := FirstWithId(path, firstKept);
    for i := 0 to |path|
      invariant foundFirstKept <==> first < i
      invariant messages == if first < i then AllShown(path[first..i]) else []
    {
      if path[i].id == firstKept {
        foundFirstKept := true;
      }
      if foundFirstKept {
        assert path[first..i + 1][..i - first] == path[first..i];
        messages := messages + Shown(path[i]);
      }
    }
    assert path[first..|path|] == path[first..];
  }

  function LeafIdAfter(e: Entry): Option<string> {
    if e.payload.MovesLeaf? then e.payload.targetId else Some(e.id)
  }

  function LeafOf(log: seq<Entry>): Option<string> {
    if log == [] then None else LeafIdAfter(log[|log| - 1])
  }

  function SessionOf(log: seq<Entry>): Result<Context> {
    match PathTo(log, LeafOf(log))
    case Ok(path) => Ok(PathContext(path))
    case NotFound(id) => NotFound(id)
    case Endless => Endless
  }

  /** `loadSession`, once the lines are parsed. */
  method LoadSession(log: seq<Entry>) returns (result: Result<Context>)
    requires SessionOf(log) != Endless
    ensures result == SessionOf(log)
  {
    var leafId := None;
    for i := 0 to |log|
      invariant leafId == LeafOf(log[..i])
    {
      leafId := LeafIdAfter(log[i]);
    }
    assert log[..|log|] == log;
    var byId := ById(log);
    var path := GetPathToRoot(log, byId, leafId);
    match path {
      case NotFound(id) => return NotFound(id);
      case Ok(entries) =>
        var context := BuildSessionContext(entries);
        result := Ok(context);
    }
  }

  /** A session without entries: nothing said, thinking off, no model and no tools chosen. */
  lemma EmptySession()
    ensures SessionOf([]) == Ok(Context([], "off", None, None))
  {
  }

  // ----- growing logs -----

  lemma {:induction false} IndexStable(log: seq<Entry>, more: seq<Entry>, id: string)
    requires IndexOf(log, id).Some? && UniqueIds(log + more)
    ensures IndexOf(log + more, id) == IndexOf(log, id)
  {
    var i, j := IndexOf(log, id).value, IndexOf(log + more, id);
    assert (log + more)[i] == log[i];
    assert j.Some?;
  }

  lemma {:induction false} PathUpStable(log: seq<Entry>, more: seq<Entry>, i: nat, n: nat)
    requires UniqueIds(log + more) && i < |log| && PathUp(log, i, n).Ok?
    ensures PathUp(log + more, i, n) == PathUp(log, i, n)
    decreases n
  {
    assert (log + more)[i] == log[i];
    if !IsRoot(log[i]) {
      IndexStable(log, more, log[i].parentId.value);
      PathUpStable(log, more, IndexOf(log, log[i].parentId.value).value, n - 1);
    }
  }

  /** Whatever is appended, the path to an entry that had one stays as it was. */
  lemma PathStable(log: seq<Entry>, more: seq<Entry>, i: nat)
    requires UniqueIds(log + more) && i < |log| && PathAt(log, i).Ok?
    ensures PathAt(log + more, i) == PathAt(log, i)
  {
    hide PathUp;
    PathUpStable(log, more, i, |log|);
    PathMore(log + more, i, |log|, |log + more|);
  }

  predicate NamedEntries(log: seq<Entry>) {
    forall i :: 0 <= i < |log| ==> log[i].id != ""
  }

  lemma IndexOfLast(log: seq<Entry>, e: Entry)
    ensures IndexOf(log + [e], e.id) == Some(|log|)
  {
  }

  lemma RootPath(log: seq<Entry>, i: nat, n: nat)
    requires i < |log| && IsRoot(log[i])
    ensures PathUp(log, i, n) == Ok([log[i]])
  {
  }

  lemma ParentPath(log: seq<Entry>, i: nat, n: nat)
    requires i < |log| && Up(log, i).Some? && n > 0
    ensures PathUp(log, i, n) == Onto(PathUp(log, Up(log, i).value, n - 1), [log[i]])
  {
  }

  /** A child of the leaf lengthens the path by itself. */
  lemma ChildPath(log: seq<Entry>, e: Entry)
    requires UniqueIds(log + [e]) && NamedEntries(log)
    requires PathTo(log, LeafOf(log)).Ok? && e.parentId == LeafOf(log) && !e.payload.MovesLeaf?
    ensures PathTo(log + [e], LeafOf(log + [e])) == Ok(PathTo(log, LeafOf(log)).value + [e])
  {
    hide PathUp;
    var all := log + [e];
    IndexOfLast(log, e);
    assert all[|log|] == e;
    if e.parentId.Some? {
      var parent := IndexOf(log, e.parentId.value);
      assert log[parent.value].id == e.parentId.value;
      IndexStable(log, [e], e.parentId.value);
      PathUpStable(log, [e], parent.value, |log|);
      ParentPath(all, |log|, |all|);
    } else {
      RootPath(all, |log|, |all|);
      assert [] + [e] == [e];
    }
  }

  lemma {:induction false} FirstCompactionSnoc(path: seq<Entry>, e: Entry, id: string)
    requires FirstCompaction(path, id) < |path|
    ensures FirstCompaction(path + [e], id) == FirstCompaction(path, id)
  {
    var i, j := FirstCompaction(path, id), FirstCompaction(path + [e], id);
    assert (path + [e])[i] == path[i];
    assert forall k :: 0 <= k < i ==> (path + [e])[k] == path[k];
  }

  lemma FirstCompactionOf(path: seq<Entry>, c: nat)
    requires c < |path| && path[c].payload.Compacts?
    ensures FirstCompaction(path, path[c].id) <= c
  {
  }

  /** An entry that is no compaction adds its own message to the context, and nothing else. */
  lemma MessagesSnoc(path: seq<Entry>, e: Entry)
    requires !e.payload.Compacts?
    ensures PathMessages(path + [e]) == PathMessages(path) + Shown(e)
  {
    hide Shown, AllShown, FirstCompaction, FirstWithId;
    var c := LastCompaction(path);
    assert (path + [e])[..|path|] == path;
    assert LastCompaction(path + [e]) == c;
    if c.None? {
      AllShownSnoc(path, e);
    } else {
      var id := path[c.value].id;
      FirstCompactionOf(path, c.value);
      FirstCompactionSnoc(path, e, id);
      var at := FirstCompaction(path, id);
      assert (path + [e])[..at] == path[..at] && (path + [e])[at + 1..] == path[at + 1..] + [e];
      AllShownSnoc(path[at + 1..], e);
      KeptSame(path, e, at, path[c.value].payload.firstKeptEntryId);
    }
  }

  lemma KeptSame(path: seq<Entry>, e: Entry, at: nat, firstKept: string)
    requires at <= |path|
    ensures var first := FirstWithId(path[..at], firstKept);
      first <= at && (path + [e])[first..at] == path[first..at]
  {
  }

  lemma SettingsSnoc(path: seq<Entry>, e: Entry)
    ensures Level(path + [e]) == (if e.payload.Thinking? then e.payload.level else Level(path))
    ensures Tools(path + [e]) == (if e.payload.UsesTools? then Some(e.payload.names) else Tools(path))
    ensures Model(path + [e]) ==
            if e.payload.UsesModel? then Some((e.payload.provider, e.payload.modelId))
            else if e.payload.Says? && e.payload.message.Assistant? then
              Some((e.payload.message.provider, e.payload.message.model))
            else Model(path)
  {
    assert (path + [e])[..|path|] == path;
  }

  /** Appending a child of the leaf that is neither a compaction nor a leaf entry appends exactly its message. */
  lemma AppendChild(log: seq<Entry>, e: Entry)
    requires UniqueIds(log + [e]) && NamedEntries(log) && !e.payload.MovesLeaf? && !e.payload.Compacts?
    requires SessionOf(log).Ok? && e.parentId == LeafOf(log)
    ensures SessionOf(log + [e]).Ok?
    ensures var before, after := SessionOf(log).value.messages, SessionOf(log + [e]).value.messages;
      match e.payload
      case Says(m) => after == before + [m]
      case SaysCustom(customType, text, display) => after == before + [Custom(customType, text, display, e.timestamp)]
      case Summarizes(summary, fromId) =>
        after == if summary == "" then before else before + [BranchSummary(summary, fromId, e.timestamp)]
      case _ => after == before
    ensures SessionOf(log + [e]).value.thinkingLevel ==
            if e.payload.Thinking? then e.payload.level else SessionOf(log).value.thinkingLevel
    ensures SessionOf(log + [e]).value.activeToolNames ==
            if e.payload.UsesTools? then Some(e.payload.names) else SessionOf(log).value.activeToolNames
    ensures SessionOf(log + [e]).value.model ==
            if e.payload.UsesModel? then Some((e.payload.provider, e.payload.modelId))
            else if e.payload.Says? && e.payload.message.Assistant? then
              Some((e.payload.message.provider, e.payload.message.model))
            else SessionOf(log).value.model
  {
    hide PathMessages, Level, Tools, Model;
    var path := PathTo(log, LeafOf(log)).value;
    ChildPath(log, e);
    assert PathMessages(path) + [] == PathMessages(path);
    MessagesSnoc(path, e);
    SettingsSnoc(path, e);
  }

  /** Entries on another branch, followed by a leaf entry back, restore the old context. */
  lemma BranchAndBack(log: seq<Entry>, more: seq<Entry>, back: Entry)
    requires UniqueIds(log + more + [back]) && SessionOf(log).Ok?
    requires back.payload.MovesLeaf? && back.payload.targetId == LeafOf(log)
    ensures SessionOf(log + more + [back]) == SessionOf(log)
  {
    hide PathContext;
    assert log + more + [back] == log + (more + [back]);
    var all := log + (more + [back]);
    assert all[|all| - 1] == back;
    assert LeafOf(all) == LeafOf(log);
    if LeafOf(log).Some? {
      IndexStable(log, more + [back], LeafOf(log).value);
      PathStable(log, more + [back], IndexOf(log, LeafOf(log).value).value);
    }
  }

  lemma {:induction false} PathOfAncestors(log: seq<Entry>, i: nat, n: nat)
    requires i < |log| && PathUp(log, i, n).Ok?
    ensures var path := PathUp(log, i, n).value;
      && Ancestor(log, i, |path|).None?
      && forall k: nat :: k < |path| ==>
           Ancestor(log, i, k).Some? && path[|path| - 1 - k] == log[Ancestor(log, i, k).value]
    decreases n
  {
    hide Ancestor;
    AncestorNow(log, i);
    if !IsRoot(log[i]) {
      var parent := Up(log, i).value;
      PathOfAncestors(log, parent, n - 1);
      var before := PathUp(log, parent, n - 1).value;
      assert PathUp(log, i, n).value == before + [log[i]];
      AncestorJoin(log, i, 1, |before|);
      forall k: nat | 0 < k <= |before|
        ensures Ancestor(log, i, k).Some? && before[|before| - k] == log[Ancestor(log, i, k).value]
      {
        AncestorJoin(log, i, 1, k - 1);
      }
    }
  }

  lemma AncestorNow(log: seq<Entry>, i: nat)
    requires i < |log|
    ensures Ancestor(log, i, 0) == Some(i) && Ancestor(log, i, 1) == Up(log, i)
  {
    assert Ancestor(log, i, 0) == Some(i);
  }

  /** No id comes twice on a path. */
  lemma PathUnique(log: seq<Entry>, i: nat)
    requires UniqueIds(log) && i < |log| && PathAt(log, i).Ok?
    ensures UniqueIds(PathAt(log, i).value)
  {
    hide Ancestor, PathUp;
    PathOfAncestors(log, i, |log|);
    var path := PathAt(log, i).value;
    forall a, b | 0 <= a < b < |path| ensures path[a].id != path[b].id {
      var p, q: nat := |path| - 1 - b, |path| - 1 - a;
      assert path[b] == log[Ancestor(log, i, p).value] && path[a] == log[Ancestor(log, i, q).value];
      if Ancestor(log, i, p) == Ancestor(log, i, q) {
        GoesOn(log, i, p, q, |path|);
        assert false;
      }
    }
  }

  lemma FirstIsOnly(path: seq<Entry>, c: nat)
    requires UniqueIds(path) && c < |path| && path[c].payload.Compacts?
    ensures FirstCompaction(path, path[c].id) == c
  {
    FirstCompactionOf(path, c);
  }

  /** After a compaction appended to the leaf the context holds its summary and the kept end of the branch,
      without any summary the branch had before. */
  lemma AppendCompaction(log: seq<Entry>, e: Entry)
    requires UniqueIds(log + [e]) && NamedEntries(log) && e.payload.Compacts?
    requires SessionOf(log).Ok? && e.parentId == LeafOf(log)
    ensures var path := PathTo(log, LeafOf(log)).value;
      && SessionOf(log + [e]).Ok?
      && SessionOf(log + [e]).value.messages ==
         [CompactionSummary(e.payload.summary, e.payload.tokensBefore, e.timestamp)]
         + AllShown(path[FirstWithId(path, e.payload.firstKeptEntryId)..])
  {
    hide AllShown, FirstCompaction, FirstWithId;
    var path := PathTo(log, LeafOf(log)).value;
    ChildPath(log, e);
    IndexOfLast(log, e);
    PathUnique(log + [e], |log|);
    CompactedPath(path, e);
  }

  lemma CompactedPath(path: seq<Entry>, e: Entry)
    requires UniqueIds(path + [e]) && e.payload.Compacts?
    ensures PathMessages(path + [e]) ==
            [CompactionSummary(e.payload.summary, e.payload.tokensBefore, e.timestamp)]
            + AllShown(path[FirstWithId(path, e.payload.firstKeptEntryId)..])
  {
    hide AllShown;
    var all := path + [e];
    FirstIsOnly(all, |path|);
    assert all[..|path|] == path && all[|path| + 1..] == [];
    var first := FirstWithId(path, e.payload.firstKeptEntryId);
    assert all[first..|path|] == path[first..];
    ShowsNothing();
  }

  lemma ShowsNothing()
    ensures AllShown([]) == []
  {
  }

  /** In a log without repeated ids, with a compaction on the branch, the messages are the summary of the last one, the
      suffix it kept, and everything after it. */
  lemma CompactedContext(log: seq<Entry>)
    requires UniqueIds(log) && SessionOf(log).Ok?
    ensures var path := PathTo(log, LeafOf(log)).value;
      match LastCompaction(path)
      case None => SessionOf(log).value.messages == AllShown(path)
      case Some(c) =>
        SessionOf(log).value.messages ==
        [CompactionSummary(path[c].payload.summary, path[c].payload.tokensBefore, path[c].timestamp)]
        + AllShown(path[FirstWithId(path[..c], path[c].payload.firstKeptEntryId)..c]) + AllShown(path[c + 1..])
  {
    hide AllShown, FirstWithId;
    var path := PathTo(log, LeafOf(log)).value;
    if LeafOf(log).Some? {
      PathUnique(log, IndexOf(log, LeafOf(log).value).value);
    }
    if LastCompaction(path).Some? { FirstIsOnly(path, LastCompaction(path).value); }
  }
}
