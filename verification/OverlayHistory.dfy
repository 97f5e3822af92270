/** Whole histories of focus and overlay operations. */
module OverlayHistory {
  import opened Options
  import opened OverlayLinks
  import opened OverlayFocus

  /** What a program, its user and its terminal may do; overlays are known by the number of their handle. */
  datatype Action =
    | SetFocus(target: Option<Component>)
    | Show(component: Component, nonCapturing: bool, shown: bool)
    | Hide(handle: nat)
    | HideTop
    | SetHidden(handle: nat, hidden: bool)
    | Focus(handle: nat)
    | Unfocus(handle: nat, to: Option<Option<Component>>)
    | Input
    | Mount(mounted: set<Component>)
    | Resize(handle: nat, shown: bool)

  // ----- what a history may look like -----

  /** What can be told of a moment: who has the focus, whether an overlay may get it back, where each overlay's focus
      would go, which handle each overlay has, and how many handles there are. */
  datatype Snapshot = Snapshot(focus: Option<Component>, waits: bool, links: seq<Link>, ids: seq<nat>, handles: nat)

  function FirstId(ids: seq<nat>, id: nat): (i: nat)
    ensures i <= |ids| && (i < |ids| ==> ids[i] == id)
    ensures forall j :: 0 <= j < i ==> ids[j] != id
  {
    if ids == [] then 0 else if ids[0] == id then 0 else 1 + FirstId(ids[1..], id)
  }

  /** What an action does to the links: only showing and taking away change them. */
  function ChangeOf(s: Snapshot, action: Action): Change {
    match action
    case Show(component, _, _) => Shown(component, s.focus)
    case Hide(handle) => if FirstId(s.ids, handle) < |s.ids| then Removed(FirstId(s.ids, handle)) else Neither
    case HideTop => if s.ids != [] then Removed(|s.ids| - 1) else Neither
    case _ => Neither
  }

  function IdsAfter(s: Snapshot, change: Change): seq<nat> {
    match change
    case Shown(_, _) => s.ids + [s.handles]
    case Removed(i) => if i < |s.ids| then s.ids[..i] + s.ids[i + 1..] else s.ids
    case Neither => s.ids
  }

  /** From one moment to the next. Where the focus goes that an overlay gives up is not told. */
  predicate Follows(s: Snapshot, action: Action, t: Snapshot) {
    var change := ChangeOf(s, action);
    && t.links == After(s.links, change) && t.ids == IdsAfter(s, change)
    && t.handles == s.handles + (if action.Show? then 1 else 0)
    && match action
       case Show(component, nonCapturing, shown) =>
         t.focus == if !nonCapturing && shown then Some(component) else s.focus
       case SetFocus(target) =>
         !s.waits || (target.Some? && Shows(s.links, target.value)) ==> t.focus == target
       case Hide(_) => KeepsFocus(s, change, t)
       case HideTop => KeepsFocus(s, change, t)
       case Mount(_) => t.focus == s.focus && t.waits == s.waits
       case Resize(_, _) => t.focus == s.focus && t.waits == s.waits
       case _ => true
  }

  predicate KeepsFocus(s: Snapshot, change: Change, t: Snapshot) {
    t.focus == s.focus || (change.Removed? && change.i < |s.links| && s.focus == Some(s.links[change.i].component))
  }

  predicate IsHistory(trace: seq<Snapshot>, actions: seq<Action>) {
    && |trace| == |actions| + 1
    && forall i :: 0 <= i < |actions| ==> Follows(trace[i], actions[i], trace[i + 1])
  }

  /** No component is shown while it is an overlay already, has the focus, or would get it back. */
  ghost predicate ProperHistory(trace: seq<Snapshot>, actions: seq<Action>)
    requires |trace| == |actions| + 1
  {
    forall i :: 0 <= i < |actions| ==> Proper(trace[i].links, ChangeOf(trace[i], actions[i]))
  }

  /** Then no overlay ever gets its focus back from itself, and no removal leaves one pointing at what it removed. */
  lemma {:induction false} ProperHistorySound(trace: seq<Snapshot>, actions: seq<Action>, n: nat)
    requires IsHistory(trace, actions) && ProperHistory(trace, actions) && Sound(trace[0].links) && n <= |actions|
    ensures forall i :: 0 <= i <= n ==> Sound(trace[i].links)
    ensures forall i :: 0 <= i < n ==> !Dangles(trace[i].links, ChangeOf(trace[i], actions[i]))
    decreases n
  {
    hide Sound, Proper, Dangles, ChangeOf, After;
    if n > 0 {
      ProperHistorySound(trace, actions, n - 1);
      assert Follows(trace[n - 1], actions[n - 1], trace[n]);
      ProperStaysSound(trace[n - 1].links, ChangeOf(trace[n - 1], actions[n - 1]));
    }
  }

  // ----- which components a program has named -----

  function Optional(c: Option<Component>): set<Component> {
    if c.Some? then {c.value} else {}
  }

  function Mentions(action: Action): set<Component> {
    match action
    case SetFocus(target) => Optional(target)
    case Show(component, _, _) => {component}
    case Unfocus(_, to) => if to.Some? then Optional(to.value) else {}
    case _ => {}
  }

  function AllMentions(actions: seq<Action>): set<Component> {
    if actions == [] then {} else AllMentions(actions[..|actions| - 1]) + Mentions(actions[|actions| - 1])
  }

  /** Each component shown is a new one: it had not the focus at first, and was neither shown before nor given the
      focus by name. */
  predicate OnlyNew(actions: seq<Action>, known: set<Component>) {
    forall i :: 0 <= i < |actions| && actions[i].Show? ==>
      actions[i].component !in known + AllMentions(actions[..i])
  }

  predicate KnownLinks(links: seq<Link>, known: set<Component>) {
    forall i :: 0 <= i < |links| ==> links[i].component in known && Optional(links[i].preFocus) <= known
  }

  /** A new component may be shown whatever has the focus. */
  lemma NewIsProper(links: seq<Link>, known: set<Component>, c: Component, over: Option<Component>)
    requires KnownLinks(links, known) && Optional(over) <= known && c !in known
    ensures Proper(links, Shown(c, over))
  {
    if over.Some? {
      assert over.value in Optional(over);
    }
    forall x | x in known ensures var next := Next(links, x); next.None? || next.value in known {
      var next := Next(links, x);
      assert next.Some? ==> next.value in Optional(next);
    }
    forall n: nat ensures Walk(links, over, n) != Some(c) {
      WalkStays(links, over, known, n);
    }
  }

  /** All components that the focus can go to are known. */
  predicate KnownState(s: FocusState, known: set<Component>) {
    && Optional(s.focused) <= known
    && (s.restore.Blocked? ==>
          && s.restore.blockedBy in known
          && (s.restore.resume.FocusTarget? ==> Optional(s.restore.resume.target) <= known))
  }

  predicate KnownEntries(es: set<OverlayEntry>, known: set<Component>)
    reads es
  {
    forall e :: e in es ==> e.component in known && Optional(e.preFocus) <= known
  }

  lemma RefocusKnown(stack: seq<OverlayEntry>, mounted: set<Component>, s: FocusState, component: Option<Component>,
                     policy: Policy, known: set<Component>)
    requires Names(stack, s.restore) && KnownState(s, known) && KnownEntries(Entries(stack), known)
    requires Optional(component) <= known
    ensures KnownState(Refocus(stack, mounted, s, component, policy), known)
  {
    hide OnWalk, FirstVisible, IsOverlay;
    if component.Some? { assert component.value in Optional(component); }
    if s.restore.Blocked? { assert s.restore.overlay in Entries(stack); }
  }

  lemma DeliveredKnown(stack: seq<OverlayEntry>, mounted: set<Component>, s: FocusState, known: set<Component>)
    requires Names(stack, s.restore) && KnownState(s, known) && KnownEntries(Entries(stack), known)
    ensures KnownState(Delivered(stack, mounted, s), known)
  {
    hide Refocus;
    var waits := VisibleRestore(stack, s.restore);
    if !waits.Inactive? {
      assert waits.overlay in Entries(stack);
      RefocusKnown(stack, mounted, s, Some(waits.overlay.component), Clear, known);
      if waits.Blocked? && waits.resume.FocusTarget? {
        RefocusKnown(stack, mounted, s.(restore := Inactive), waits.resume.target, Clear, known);
      }
    }
  }

  lemma RedirectedKnown(stack: seq<OverlayEntry>, mounted: set<Component>, s: FocusState, known: set<Component>)
    requires Names(stack, s.restore) && KnownState(s, known) && KnownEntries(Entries(stack), known)
    ensures KnownState(Redirected(stack, mounted, s), known)
  {
    hide Refocus, Delivered, KnownState;
    DeliveredKnown(stack, mounted, s, known);
    var i := if s.focused.Some? then FirstLink(Links(stack), s.focused.value) else |stack|;
    if i < |stack| && !stack[i].IsVisible() {
      assert stack[i] in Entries(stack);
      var top := Topmost(stack);
      if top.Some? {
        assert top.value in Entries(stack);
        RefocusKnown(stack, mounted, s, Some(top.value.component), Clear, known);
        DeliveredKnown(stack, mounted, Refocus(stack, mounted, s, Some(top.value.component), Clear), known);
      } else {
        RefocusKnown(stack, mounted, s, stack[i].preFocus, Preserve, known);
        DeliveredKnown(stack, mounted, Refocus(stack, mounted, s, stack[i].preFocus, Preserve), known);
      }
    }
  }

  lemma FallbackKnown(stack: seq<OverlayEntry>, e: OverlayEntry, known: set<Component>)
    requires KnownEntries(Entries(stack) + {e}, known)
    ensures Optional(Fallback(stack, e)) <= known && Optional(UnfocusTarget(stack, e)) <= known
  {
    var top := Topmost(stack);
    if top.Some? { assert top.value in Entries(stack) + {e}; }
  }

  // ----- performing a history -----

  function Entries(es: seq<OverlayEntry>): set<OverlayEntry> {
    set e | e in es
  }

  lemma EntriesSnoc(es: seq<OverlayEntry>, e: OverlayEntry)
    ensures Entries(es + [e]) == Entries(es) + {e}
  {
  }

  function Ids(handles: seq<OverlayEntry>, stack: seq<OverlayEntry>): (r: seq<nat>)
    ensures |r| == |stack| && forall i :: 0 <= i < |r| ==> r[i] == PlaceOf(handles, stack[i])
  {
    seq(|stack|, i requires 0 <= i < |stack| => PlaceOf(handles, stack[i]))
  }

  function Snap(m: FocusManager, handles: seq<OverlayEntry>): Snapshot
    reads m, m.overlayStack`preFocus
  {
    Snapshot(m.focusedComponent, !m.overlayFocusRestore.Inactive?, Links(m.overlayStack),
             Ids(handles, m.overlayStack), |handles|)
  }

  predicate Different(es: seq<OverlayEntry>) {
    forall i, j :: 0 <= i < j < |es| ==> es[i] != es[j]
  }

  lemma IdsShown(handles: seq<OverlayEntry>, stack: seq<OverlayEntry>, e: OverlayEntry)
    requires Entries(stack) <= Entries(handles) && e !in handles
    ensures Ids(handles + [e], stack + [e]) == Ids(handles, stack) + [|handles|]
  {
    hide PlaceOf;
    SamePlace(handles + [e], e, |handles|);
    forall i | 0 <= i < |stack| ensures PlaceOf(handles + [e], stack[i]) == PlaceOf(handles, stack[i]) {
      assert stack[i] in Entries(stack);
      SamePlace(handles + [e], stack[i], PlaceOf(handles, stack[i]));
    }
  }

  lemma IdsDropped(handles: seq<OverlayEntry>, stack: seq<OverlayEntry>, i: nat)
    requires i < |stack|
    ensures Ids(handles, Dropped(stack, i)) == Ids(handles, stack)[..i] + Ids(handles, stack)[i + 1..]
    ensures Entries(Dropped(stack, i)) <= Entries(stack)
  {
    hide PlaceOf;
  }

  /** The handle of an overlay finds it in the stack. */
  lemma IdFound(handles: seq<OverlayEntry>, stack: seq<OverlayEntry>, k: nat)
    requires Different(handles) && Entries(stack) <= Entries(handles)
    ensures FirstId(Ids(handles, stack), k) == if k < |handles| then PlaceOf(stack, handles[k]) else |stack|
  {
    hide PlaceOf, FirstId;
    var ids := Ids(handles, stack);
    forall i | 0 <= i < |stack| ensures ids[i] < |handles| && handles[ids[i]] == stack[i] {
      assert stack[i] in Entries(stack);
    }
    if k < |handles| {
      var i := FirstId(ids, k);
      forall j | 0 <= j < i ensures stack[j] != handles[k] {
        assert ids[j] != k;
      }
      SamePlace(stack, handles[k], i);
    }
  }

  /** All is in order, and no component plays a part that is not known. */
  ghost predicate InOrder(m: FocusManager, handles: seq<OverlayEntry>, known: set<Component>)
    reads m, m.overlayStack, Entries(handles)
  {
    && m.Valid() && Entries(m.overlayStack) <= Entries(handles) && Different(handles)
    && KnownState(m.Now(), known) && KnownEntries(Entries(handles), known)
  }

  lemma LinksKnown(stack: seq<OverlayEntry>, es: set<OverlayEntry>, known: set<Component>)
    requires Entries(stack) <= es && KnownEntries(es, known)
    ensures KnownLinks(Links(stack), known) && KnownEntries(Entries(stack), known)
  {
    hide Links;
    forall i | 0 <= i < |stack| ensures stack[i].component in known && Optional(stack[i].preFocus) <= known {
      assert stack[i] in Entries(stack);
    }
  }

  lemma KnownMore(m: FocusManager, handles: seq<OverlayEntry>, known: set<Component>, more: set<Component>)
    requires InOrder(m, handles, known) && known <= more
    ensures InOrder(m, handles, more)
  {
    hide FocusManager.Valid;
  }

  lemma SetFocusGoes(stack: seq<OverlayEntry>, mounted: set<Component>, s: FocusState, target: Option<Component>)
    requires Names(stack, s.restore)
    requires s.restore.Inactive? || (target.Some? && Shows(Links(stack), target.value))
    ensures Refocus(stack, mounted, s, target, Clear).focused == target
  {
    hide OnWalk, FirstVisible, Links;
    if target.Some? && Shows(Links(stack), target.value) {
      var i :| 0 <= i < |stack| && Links(stack)[i].component == target.value;
      assert stack[i].component == target.value;
    }
  }

  lemma ValidNames(m: FocusManager)
    requires m.Valid()
    ensures Names(m.overlayStack, m.overlayFocusRestore)
  {
  }

  method DoSetFocus(m: FocusManager, ghost handles: seq<OverlayEntry>, target: Option<Component>,
                    ghost known: set<Component>)
    requires InOrder(m, handles, known) && Optional(target) <= known
    modifies m
    ensures InOrder(m, handles, known) && Follows(old(Snap(m, handles)), SetFocus(target), Snap(m, handles))
  {
    hide FocusManager.Valid, Refocus, Shows, KnownState, KnownEntries, Links, PlaceOf, Names;
    ValidNames(m);
    LinksKnown(m.overlayStack, Entries(handles), known);
    RefocusKnown(m.overlayStack, m.mounted, m.Now(), target, Clear, known);
    if m.overlayFocusRestore.Inactive? || (target.Some? && Shows(Links(m.overlayStack), target.value)) {
      SetFocusGoes(m.overlayStack, m.mounted, m.Now(), target);
    }
    m.SetFocus(target);
  }

  lemma EntryKnown(handles: seq<OverlayEntry>, entry: OverlayEntry, known: set<Component>)
    requires KnownEntries(Entries(handles), known) && entry.component in known && Optional(entry.preFocus) <= known
    ensures KnownEntries(Entries(handles) + {entry}, known)
  {
  }

  method DoShow(m: FocusManager, handles: seq<OverlayEntry>, action: Action, ghost known: set<Component>)
      returns (more: seq<OverlayEntry>)
    requires action.Show? && InOrder(m, handles, known) && action.component in known
    modifies m
    ensures InOrder(m, more, known) && fresh(Entries(more) - Entries(handles))
    ensures Follows(old(Snap(m, handles)), action, Snap(m, more))
  {
    hide FocusManager.Valid, Links, PlaceOf, Names, Ids, KnownEntries, OverlayEntry.IsVisible;
    ValidNames(m);
    var entry := m.ShowOverlay(action.component, action.nonCapturing, action.shown);
    more := handles + [entry];
    EntriesSnoc(handles, entry);
    EntriesSnoc(old(m.overlayStack), entry);
    IdsShown(handles, old(m.overlayStack), entry);
    EntryKnown(handles, entry, known);
  }

  lemma RetargetedKnown(links: seq<Link>, i: nat, known: set<Component>)
    requires KnownLinks(links, known) && i < |links|
    ensures KnownLinks(Without(links, i), known)
  {
    var r := Without(links, i);
    forall k | 0 <= k < |r| ensures r[k].component in known && Optional(r[k].preFocus) <= known {
      assert r[k] == Retarget(links[Back(i, k)], links[i]);
    }
  }

  lemma ClearedKnown(s: FocusState, e: OverlayEntry, known: set<Component>)
    requires KnownState(s, known)
    ensures KnownState(s.(restore := ClearedFor(s.restore, e)), known)
  {
  }

  lemma ClearedNames(stack: seq<OverlayEntry>, restore: Restore, e: OverlayEntry)
    requires Names(stack, restore)
    ensures Names(stack, ClearedFor(restore, e))
  {
  }

  /** What `Hide` and `HideOverlay` leave is known: entries that went back to the removed one go where it went. */
  lemma LeftKnown(handles: seq<OverlayEntry>, was: seq<OverlayEntry>, stack: seq<OverlayEntry>, links: seq<Link>,
                  i: nat, known: set<Component>)
    requires i < |was| && stack == Dropped(was, i) && KnownLinks(links, known)
    requires |links| == |was| && Links(stack) == Without(links, i)
    requires forall e :: e in handles && (e !in was || e == was[i]) ==>
               e.component in known && Optional(e.preFocus) <= known
    ensures KnownEntries(Entries(handles), known)
  {
    hide Without, KnownLinks;
    RetargetedKnown(links, i, known);
    forall e | e in Entries(handles) ensures e.component in known && Optional(e.preFocus) <= known {
      if e in was && e != was[i] {
        var j :| 0 <= j < |was| && was[j] == e;
        var k := if j < i then j else j - 1;
        assert stack[k] == e;
        KnownAt(Links(stack), k, known);
      }
    }
  }

  lemma KnownAt(links: seq<Link>, k: nat, known: set<Component>)
    requires KnownLinks(links, known) && k < |links|
    ensures links[k].component in known && Optional(links[k].preFocus) <= known
  {
  }

  lemma PassedOnKnown(m: FocusManager, handles: seq<OverlayEntry>, entry: OverlayEntry, s: FocusState,
                      known: set<Component>)
    requires Names(m.overlayStack, s.restore) && KnownState(s, known)
    requires Entries(m.overlayStack) <= Entries(handles) && entry in handles && KnownEntries(Entries(handles), known)
    ensures KnownState(Refocus(m.overlayStack, m.mounted, s, Fallback(m.overlayStack, entry), Clear), known)
  {
    hide Refocus, Names, KnownState, Fallback;
    FallbackKnown(m.overlayStack, entry, known);
    RefocusKnown(m.overlayStack, m.mounted, s, Fallback(m.overlayStack, entry), Clear, known);
  }

  /** The overlay at place `i` has been taken out of the stack that `s` tells of, and its focus passed on. */
  lemma Taken(m: FocusManager, handles: seq<OverlayEntry>, was: seq<OverlayEntry>, s: Snapshot, before: FocusState,
              i: nat, action: Action, known: set<Component>)
    requires i < |was| && Entries(was) <= Entries(handles) && Different(handles)
    requires s.ids == Ids(handles, was) && s.handles == |handles| && s.focus == before.focused
    requires |s.links| == |was| && s.links[i].component == was[i].component
    requires KnownLinks(s.links, known) && KnownState(before, known)
    requires action.Hide? || action.HideTop?
    requires ChangeOf(s, action) == Removed(i)
    requires m.Valid() && m.overlayStack == Dropped(was, i) && Links(m.overlayStack) == Without(s.links, i)
    requires forall e :: e in handles && (e !in was || e == was[i]) ==>
               e.component in known && Optional(e.preFocus) <= known
    requires var cleared := before.(restore := ClearedFor(before.restore, was[i]));
      && Names(m.overlayStack, cleared.restore)
      && m.Now() == if before.focused == Some(was[i].component)
                    then Refocus(m.overlayStack, m.mounted, cleared, Fallback(m.overlayStack, was[i]), Clear)
                    else cleared
    ensures InOrder(m, handles, known) && Follows(s, action, Snap(m, handles))
  {
    hide FocusManager.Valid, Links, PlaceOf, Refocus, Fallback, KnownState, FirstId, Dropped, Without, ClearedFor,
         KnownLinks, ChangeOf, UnfocusTarget, KnownEntries, Names, Ids;
    var cleared := before.(restore := ClearedFor(before.restore, was[i]));
    assert was[i] in Entries(was);
    LeftKnown(handles, was, m.overlayStack, s.links, i, known);
    IdsDropped(handles, was, i);
    ClearedKnown(before, was[i], known);
    PassedOnKnown(m, handles, was[i], cleared, known);
  }

  lemma AllKnown(m: FocusManager, handles: seq<OverlayEntry>, known: set<Component>)
    requires InOrder(m, handles, known)
    ensures Names(m.overlayStack, m.overlayFocusRestore) && KnownState(m.Now(), known)
    ensures KnownLinks(Links(m.overlayStack), known)
    ensures KnownEntries(Entries(m.overlayStack), known)
    ensures forall e :: e in handles ==> e.component in known && Optional(e.preFocus) <= known
  {
    hide FocusManager.Valid, Links, KnownLinks;
    ValidNames(m);
    LinksKnown(m.overlayStack, Entries(handles), known);
  }

  method DoHide(m: FocusManager, handles: seq<OverlayEntry>, handle: nat, ghost known: set<Component>)
    requires handle < |handles| && InOrder(m, handles, known)
    modifies m, Entries(handles)
    ensures InOrder(m, handles, known) && Follows(old(Snap(m, handles)), Hide(handle), Snap(m, handles))
  {
    hide FocusManager.Valid, Links, PlaceOf, Names, Ids, Refocus, Fallback, KnownState, KnownEntries, KnownLinks,
         FirstId, FocusManager.Gone, Dropped, Without, ClearedFor, UnfocusTarget;
    AllKnown(m, handles, known);
    ghost var was, s, before := m.overlayStack, Snap(m, handles), m.Now();
    IdFound(handles, was, handle);
    m.Hide(handles[handle]);
    if handles[handle] in was {
      Taken(m, handles, was, s, before, PlaceOf(was, handles[handle]), Hide(handle), known);
    }
  }

  method DoHideTop(m: FocusManager, ghost handles: seq<OverlayEntry>, ghost known: set<Component>)
    requires InOrder(m, handles, known)
    modifies m, Entries(handles)
    ensures InOrder(m, handles, known) && Follows(old(Snap(m, handles)), HideTop, Snap(m, handles))
  {
    hide FocusManager.Valid, Links, PlaceOf, Names, Ids, Refocus, Fallback, KnownState, KnownEntries, KnownLinks,
         FirstId, FocusManager.Gone, Without, ClearedFor, UnfocusTarget;
    AllKnown(m, handles, known);
    ghost var was, s, before := m.overlayStack, Snap(m, handles), m.Now();
    m.HideOverlay();
    if was != [] {
      Taken(m, handles, was, s, before, |was| - 1, HideTop, known);
    }
  }

  method DoSetHidden(m: FocusManager, handles: seq<OverlayEntry>, action: Action, ghost known: set<Component>)
    requires action.SetHidden? && action.handle < |handles| && InOrder(m, handles, known)
    modifies m, Entries(handles)
    ensures InOrder(m, handles, known) && Follows(old(Snap(m, handles)), action, Snap(m, handles))
  {
    hide FocusManager.Valid, Links, PlaceOf, Names, Ids, Refocus, Fallback, KnownState, KnownLinks,
         FirstId, FocusManager.Gone, Without, ClearedFor, UnfocusTarget;
    AllKnown(m, handles, known);
    var entry := handles[action.handle];
    ghost var before := m.Now();
    m.SetHidden(entry, action.hidden);
    ghost var start := if action.hidden then before.(restore := ClearedFor(before.restore, entry)) else before;
    ClearedKnown(before, entry, known);
    if Names(m.overlayStack, start.restore) {
      PassedOnKnown(m, handles, entry, start, known);
      RefocusKnown(m.overlayStack, m.mounted, start, Some(entry.component), Clear, known);
    }
  }

  method DoFocus(m: FocusManager, handles: seq<OverlayEntry>, action: Action, ghost known: set<Component>)
    requires action.Focus? && action.handle < |handles| && InOrder(m, handles, known)
    modifies m, Entries(handles)
    ensures InOrder(m, handles, known) && Follows(old(Snap(m, handles)), action, Snap(m, handles))
  {
    hide FocusManager.Valid, Links, PlaceOf, Ids, FirstId, OverlayEntry.IsVisible;
    AllKnown(m, handles, known);
    m.Focus(handles[action.handle]);
  }

  method DoUnfocus(m: FocusManager, handles: seq<OverlayEntry>, action: Action, ghost known: set<Component>)
    requires action.Unfocus? && action.handle < |handles| && Mentions(action) <= known && InOrder(m, handles, known)
    modifies m
    ensures InOrder(m, handles, known) && Follows(old(Snap(m, handles)), action, Snap(m, handles))
  {
    hide FocusManager.Valid, Links, PlaceOf, Names, Ids, Refocus, UnfocusTarget;
    AllKnown(m, handles, known);
    var entry := handles[action.handle];
    ghost var target := if action.to.Some? then action.to.value else UnfocusTarget(m.overlayStack, entry);
    ghost var cleared := m.Now().(restore := ClearedFor(m.Now().restore, entry));
    ClearedNames(m.overlayStack, m.overlayFocusRestore, entry);
    FallbackKnown(m.overlayStack, entry, known);
    RefocusKnown(m.overlayStack, m.mounted, cleared, target, Clear, known);
    m.Unfocus(entry, action.to);
  }

  method DoInput(m: FocusManager, ghost handles: seq<OverlayEntry>, ghost known: set<Component>)
    requires InOrder(m, handles, known)
    modifies m
    ensures InOrder(m, handles, known) && Follows(old(Snap(m, handles)), Input, Snap(m, handles))
  {
    hide FocusManager.Valid, Links, PlaceOf, Names, Ids, Redirected, Delivered, NobodyWaits, Topmost, KnownState,
         FocusManager.FocusHidden, FocusManager.FocusOnOverlay;
    AllKnown(m, handles, known);
    RedirectedKnown(m.overlayStack, m.mounted, m.Now(), known);
    m.RedirectInput();
  }

  method DoResize(m: FocusManager, handles: seq<OverlayEntry>, action: Action, ghost known: set<Component>)
    requires action.Resize? && action.handle < |handles| && InOrder(m, handles, known)
    modifies m, Entries(handles)
    ensures InOrder(m, handles, known) && Follows(old(Snap(m, handles)), action, Snap(m, handles))
  {
    hide FocusManager.Valid, Links, PlaceOf, Ids;
    var entry := handles[action.handle];
    entry.shown := action.shown;
  }

  /** One action. Handles that were not given out do nothing. */
  method Step(m: FocusManager, handles: seq<OverlayEntry>, action: Action, ghost known: set<Component>)
      returns (more: seq<OverlayEntry>)
    requires InOrder(m, handles, known) && Mentions(action) <= known
    modifies m, Entries(handles)
    ensures InOrder(m, more, known) && fresh(Entries(more) - Entries(handles))
    ensures Follows(old(Snap(m, handles)), action, Snap(m, more))
  {
    hide InOrder, Snap, Follows;
    more := handles;
    match action {
      case SetFocus(target) =>
        DoSetFocus(m, handles, target, known);
      case Show(_, _, _) =>
        more := DoShow(m, handles, action, known);
      case HideTop =>
        DoHideTop(m, handles, known);
      case Input =>
        DoInput(m, handles, known);
      case Mount(mounted) =>
        DoMount(m, handles, mounted, known);
      case _ =>
        if action.handle < |handles| {
          UseHandle(m, handles, action, known);
        } else {
          NoSuchHandle(m, handles, action, known);
        }
    }
  }

  method DoMount(m: FocusManager, ghost handles: seq<OverlayEntry>, mounted: set<Component>,
                 ghost known: set<Component>)
    requires InOrder(m, handles, known)
    modifies m
    ensures InOrder(m, handles, known) && Follows(old(Snap(m, handles)), Mount(mounted), Snap(m, handles))
  {
    hide FocusManager.Valid, Links, PlaceOf, Ids;
    m.mounted := mounted;
  }

  lemma NoSuchHandle(m: FocusManager, handles: seq<OverlayEntry>, action: Action, known: set<Component>)
    requires action.Hide? || action.SetHidden? || action.Focus? || action.Unfocus? || action.Resize?
    requires InOrder(m, handles, known) && action.handle >= |handles|
    ensures Follows(Snap(m, handles), action, Snap(m, handles))
  {
    IdFound(handles, m.overlayStack, action.handle);
  }

  method UseHandle(m: FocusManager, handles: seq<OverlayEntry>, action: Action, ghost known: set<Component>)
    requires action.Hide? || action.SetHidden? || action.Focus? || action.Unfocus? || action.Resize?
    requires action.handle < |handles| && InOrder(m, handles, known) && Mentions(action) <= known
    modifies m, Entries(handles)
    ensures InOrder(m, handles, known) && Follows(old(Snap(m, handles)), action, Snap(m, handles))
  {
    hide InOrder, Mentions, Snap, Follows;
    match action {
      case Hide(handle) => DoHide(m, handles, handle, known);
      case SetHidden(_, _) => DoSetHidden(m, handles, action, known);
      case Focus(_) => DoFocus(m, handles, action, known);
      case Unfocus(_, _) => DoUnfocus(m, handles, action, known);
      case Resize(_, _) => DoResize(m, handles, action, known);
    }
  }

  lemma MentionsSoFar(actions: seq<Action>, i: nat)
    requires i < |actions|
    ensures AllMentions(actions[..i + 1]) == AllMentions(actions[..i]) + Mentions(actions[i])
  {
    assert actions[..i + 1][..i] == actions[..i];
  }

  /** If each component shown is a new one, no component is shown while it plays a part. */
  lemma NewOneProper(m: FocusManager, handles: seq<OverlayEntry>, actions: seq<Action>, i: nat, first: set<Component>)
    requires OnlyNew(actions, first) && i < |actions| && InOrder(m, handles, first + AllMentions(actions[..i]))
    ensures Proper(Snap(m, handles).links, ChangeOf(Snap(m, handles), actions[i]))
  {
    hide Shows, OnWalk, Links, KnownLinks, KnownEntries, Names, AllMentions;
    if actions[i].Show? {
      AllKnown(m, handles, first + AllMentions(actions[..i]));
      NewIsProper(Links(m.overlayStack), first + AllMentions(actions[..i]), actions[i].component, m.focusedComponent);
    }
  }

  lemma InOrderAtFirst(m: FocusManager)
    requires m.Valid() && m.overlayStack == []
    ensures InOrder(m, [], Optional(m.focusedComponent) + AllMentions([])) && Sound(Snap(m, []).links)
  {
    hide FocusManager.Valid;
    ValidNames(m);
  }

  lemma InOrderValid(m: FocusManager, handles: seq<OverlayEntry>, known: set<Component>)
    requires InOrder(m, handles, known)
    ensures m.Valid()
  {
  }

  /** Any history is told by its moments: `trace` follows the actions from the first moment to the last. If no
      component is shown while it is an overlay already, has the focus, or would get it back, then at no moment an
      overlay gets its focus back from itself, and no removal leaves one pointing at what it removed. So it is
      whenever each component shown is a new one, whatever else is done. */
  method Perform(m: FocusManager, actions: seq<Action>)
      returns (handles: seq<OverlayEntry>, ghost trace: seq<Snapshot>)
    requires m.Valid() && m.overlayStack == []
    modifies m
    ensures m.Valid() && IsHistory(trace, actions)
    ensures trace[0] == old(Snap(m, [])) && trace[|actions|] == Snap(m, handles)
    ensures ProperHistory(trace, actions) ==> forall i :: 0 <= i <= |actions| ==> Sound(trace[i].links)
    ensures ProperHistory(trace, actions) ==>
      forall i :: 0 <= i < |actions| ==> !Dangles(trace[i].links, ChangeOf(trace[i], actions[i]))
    ensures OnlyNew(actions, Optional(old(m.focusedComponent))) ==> ProperHistory(trace, actions)
  {
    hide InOrder, Snap, Follows, Proper, ChangeOf, OnlyNew, AllMentions, Mentions, Sound, Dangles;
    handles, trace := [], [Snap(m, [])];
    ghost var first := Optional(m.focusedComponent);
    InOrderAtFirst(m);
    for i := 0 to |actions|
      invariant |trace| == i + 1 && trace[0] == old(Snap(m, [])) && trace[i] == Snap(m, handles)
      invariant forall k :: 0 <= k < i ==> Follows(trace[k], actions[k], trace[k + 1])
      invariant InOrder(m, handles, first + AllMentions(actions[..i])) && fresh(Entries(handles))
      invariant OnlyNew(actions, first) ==>
        forall k :: 0 <= k < i ==> Proper(trace[k].links, ChangeOf(trace[k], actions[k]))
    {
      ghost var known := first + AllMentions(actions[..i]);
      if OnlyNew(actions, first) {
        NewOneProper(m, handles, actions, i, first);
      }
      ghost var more := first + AllMentions(actions[..i + 1]);
      MentionsSoFar(actions, i);
      KnownMore(m, handles, known, more);
      handles := Step(m, handles, actions[i], more);
      trace := trace + [Snap(m, handles)];
    }
    assert actions[..|actions|] == actions;
    InOrderValid(m, handles, first + AllMentions(actions));
    if ProperHistory(trace, actions) {
      ProperHistorySound(trace, actions, |actions|);
    }
  }

  lemma WithoutFirst(a: Link, b: Link)
    ensures Without([a, b], 0) == [Retarget(b, a)]
  {
    assert Back(0, 0) == 1;
  }

  lemma FocusAlone(mounted: set<Component>, s: FocusState, c: Component)
    requires s.restore.Inactive?
    ensures Refocus([], mounted, s, Some(c), Clear) == FocusState(Some(c), Inactive)
  {
  }

  /** Showing a component over an overlay that was shown over it: hiding the one in between leaves the component
      pointing at itself, and hiding it then leaves a third overlay pointing at what is gone. */
  method RetargetingDangles() returns (m: FocusManager, third: OverlayEntry)
    ensures m.Valid() && m.overlayStack == [third]
    ensures third.component == 3 && third.preFocus == Some(1)
  {
    hide Refocus, FocusManager.Valid, Without, FocusManager.Gone, Fallback, Names, ClearedFor, PlaceOf, Dropped,
         OverlayEntry.IsVisible, Links;
    m := new FocusManager(c => false);
    FocusAlone(m.mounted, m.Now(), 1);
    m.SetFocus(Some(1));
    var first := FocusedPointsAtItself(m);
    third := m.ShowOverlay(3, false, true);
    assert m.overlayStack == [first, third];
    m.Hide(first);
    OnlySecond(first, third);
    WithoutFirst(Link(1, Some(1)), Link(3, Some(1)));
    assert Links(m.overlayStack)[0] == Link(3, Some(1));
  }

  method FocusedPointsAtItself(m: FocusManager) returns (first: OverlayEntry)
    requires m.Valid() && m.overlayStack == [] && m.focusedComponent == Some(1)
    modifies m
    ensures m.Valid() && m.overlayStack == [first] && Links(m.overlayStack) == [Link(1, Some(1))]
    ensures fresh(first) && first.component == 1 && first.preFocus == Some(1) && m.focusedComponent == Some(1)
  {
    hide Refocus, FocusManager.Valid, Without, FocusManager.Gone, Fallback, Names, ClearedFor, PlaceOf, Dropped,
         OverlayEntry.IsVisible, Links;
    var second := m.ShowOverlay(2, false, true);
    first := m.ShowOverlay(1, false, true);
    assert m.overlayStack == [second, first];
    m.Hide(second);
    OnlySecond(second, first);
    WithoutFirst(Link(2, Some(1)), Link(1, Some(2)));
    assert Links(m.overlayStack)[0] == Link(1, Some(1));
  }

  lemma OnlySecond(a: OverlayEntry, b: OverlayEntry)
    requires a != b
    ensures PlaceOf([a, b], a) == 0 && Dropped([a, b], 0) == [b]
  {
  }
}
