/** Keyboard focus among overlays: who has it, who gets it back, and who is remembered. */
module OverlayFocus {
  import opened Options
  import opened OverlayLinks

  class OverlayEntry {
    const component: Component
    const nonCapturing: bool
    /** What the overlay's `visible` callback answers now. */
    var shown: bool
    var preFocus: Option<Component>
    var hidden: bool
    var focusOrder: nat

    constructor (component: Component, nonCapturing: bool, shown: bool, preFocus: Option<Component>, focusOrder: nat)
      ensures this.component == component && this.nonCapturing == nonCapturing && this.shown == shown
      ensures this.preFocus == preFocus && !hidden && this.focusOrder == focusOrder
    {
      this.component, this.nonCapturing, this.shown := component, nonCapturing, shown;
      this.preFocus, hidden, this.focusOrder := preFocus, false, focusOrder;
    }

    predicate IsVisible()
      reads this
    {
      !hidden && shown
    }
  }

  datatype Resume = RestoreOverlay | FocusTarget(target: Option<Component>)

  datatype Restore =
    | Inactive
    | Eligible(overlay: OverlayEntry)
    | Blocked(overlay: OverlayEntry, blockedBy: Component, resume: Resume)

  datatype Policy = Clear | Preserve

  /** Where each overlay's focus would go. */
  function Links(stack: seq<OverlayEntry>): (r: seq<Link>)
    reads stack`preFocus
    ensures |r| == |stack|
    ensures forall i :: 0 <= i < |r| ==> r[i] == Link(stack[i].component, stack[i].preFocus)
  {
    if stack == [] then [] else [Link(stack[0].component, stack[0].preFocus)] + Links(stack[1..])
  }

  /** The first visible entry showing a component, or the length. */
  function FirstVisible(stack: seq<OverlayEntry>, c: Component): (i: nat)
    reads stack
    ensures i <= |stack| && (i < |stack| ==> stack[i].component == c && stack[i].IsVisible())
    ensures forall j :: 0 <= j < i ==> !(stack[j].component == c && stack[j].IsVisible())
  {
    if stack == [] then 0
    else if stack[0].component == c && stack[0].IsVisible() then 0
    else 1 + FirstVisible(stack[1..], c)
  }

  predicate IsOverlay(stack: seq<OverlayEntry>, c: Component) {
    exists i :: 0 <= i < |stack| && stack[i].component == c
  }

  /** The first place of an entry, or the length. */
  function PlaceOf(stack: seq<OverlayEntry>, e: OverlayEntry): (i: nat)
    ensures i <= |stack| && (i < |stack| ==> stack[i] == e)
    ensures i < |stack| <==> e in stack
    ensures forall j :: 0 <= j < i ==> stack[j] != e
  {
    if stack == [] then 0 else if stack[0] == e then 0 else 1 + PlaceOf(stack[1..], e)
  }

  function Dropped(stack: seq<OverlayEntry>, i: nat): seq<OverlayEntry>
    requires i < |stack|
  {
    stack[..i] + stack[i + 1..]
  }

  lemma WithoutLast(stack: seq<OverlayEntry>)
    requires stack != []
    ensures Dropped(stack, |stack| - 1) == stack[..|stack| - 1]
  {
  }

  // ----- one change of focus -----

  /** Who has the focus, and which overlay may get it back. */
  datatype FocusState = FocusState(focused: Option<Component>, restore: Restore)

  ghost predicate Names(stack: seq<OverlayEntry>, restore: Restore) {
    restore.Inactive? || restore.overlay in stack
  }

  /** The restore state, if its overlay can be seen. */
  function VisibleRestore(stack: seq<OverlayEntry>, restore: Restore): Restore
    requires Names(stack, restore)
    reads stack
  {
    if restore.Inactive? || !restore.overlay.IsVisible() then Inactive else restore
  }

  /** The focused component holds an overlay's focus, and now lets go of it. */
  predicate LetsGo(stack: seq<OverlayEntry>, mounted: set<Component>, s: FocusState, component: Option<Component>)
    requires Names(stack, s.restore)
    reads stack
  {
    var restore := VisibleRestore(stack, s.restore);
    && restore.Blocked? && s.focused == Some(restore.blockedBy)
    && (component.None? ||
        (!IsOverlay(stack, component.value) && (restore.resume.FocusTarget? || restore.blockedBy !in mounted)))
  }

  /** A visible overlay that may get focus back loses it to a component it did not take it from. */
  ghost predicate Lends(stack: seq<OverlayEntry>, s: FocusState, component: Option<Component>)
    requires Names(stack, s.restore)
    reads stack
  {
    var restore := VisibleRestore(stack, s.restore);
    && component.Some? && !IsOverlay(stack, component.value)
    && restore != Inactive && !(restore.Blocked? && s.focused == Some(restore.blockedBy))
    && s.focused.Some?
    && var i := FirstVisible(stack, s.focused.value);
       i < |stack| && restore.overlay == stack[i] && !OnWalk(Links(stack), stack[i].preFocus, component.value)
  }

  /** What a request to focus `component` comes to, before anyone is focused. */
  ghost function Requested(stack: seq<OverlayEntry>, mounted: set<Component>, s: FocusState,
                           component: Option<Component>, policy: Policy): (r: FocusState)
    requires Names(stack, s.restore)
    reads stack
    ensures Names(stack, r.restore)
  {
    var restore := VisibleRestore(stack, s.restore);
    if LetsGo(stack, mounted, s, component) then
      FocusState(Resumed(restore), if restore.resume.RestoreOverlay? then s.restore else Inactive)
    else if component.None? then
      FocusState(None, if policy.Clear? then Inactive else s.restore)
    else if !IsOverlay(stack, component.value) && restore.Blocked? && s.focused == Some(restore.blockedBy) then
      FocusState(component, restore.(blockedBy := component.value))
    else if Lends(stack, s, component) then
      FocusState(component, Blocked(restore.overlay, component.value, RestoreOverlay))
    else
      FocusState(component, s.restore)
  }

  /** A visible overlay that is focused may get its focus back. */
  ghost function Landed(stack: seq<OverlayEntry>, s: FocusState): (r: FocusState)
    requires Names(stack, s.restore)
    reads stack
    ensures Names(stack, r.restore) && r.focused == s.focused
  {
    if s.focused.Some? && FirstVisible(stack, s.focused.value) < |stack| then
      s.(restore := Eligible(stack[FirstVisible(stack, s.focused.value)]))
    else s
  }

  /** The focus state after a request to focus `component`. */
  ghost function Refocus(stack: seq<OverlayEntry>, mounted: set<Component>, s: FocusState,
                         component: Option<Component>, policy: Policy): (r: FocusState)
    requires Names(stack, s.restore)
    reads stack
    ensures Names(stack, r.restore)
  {
    Landed(stack, Requested(stack, mounted, s, component, policy))
  }

  function Resumed(restore: Restore): Option<Component>
    requires restore.Blocked?
  {
    match restore.resume
    case RestoreOverlay => Some(restore.overlay.component)
    case FocusTarget(target) => target
  }

  lemma SamePlace(stack: seq<OverlayEntry>, e: OverlayEntry, i: nat)
    requires i <= |stack| && (forall j :: 0 <= j < i ==> stack[j] != e) && (i < |stack| ==> stack[i] == e)
    ensures PlaceOf(stack, e) == i
  {
    var p := PlaceOf(stack, e);
  }

  lemma NotVisible(stack: seq<OverlayEntry>, c: Component)
    requires !IsOverlay(stack, c)
    ensures FirstVisible(stack, c) == |stack|
  {
  }

  /** A visible overlay that is asked for gets the focus, and may get it back. */
  lemma OverlayTakesFocus(stack: seq<OverlayEntry>, mounted: set<Component>, s: FocusState, e: OverlayEntry)
    requires Names(stack, s.restore) && e in stack && e.IsVisible()
    ensures var r := Refocus(stack, mounted, s, Some(e.component), Clear);
      && r.focused == Some(e.component) && r.restore.Eligible?
      && r.restore.overlay.component == e.component && r.restore.overlay.IsVisible()
  {
    var i :| 0 <= i < |stack| && stack[i] == e;
  }

  /** Focus lent by a visible overlay to a component outside its chain comes back when the component gives it
      up, and also when another component asks for it after the borrower was unmounted. */
  lemma FocusComesBack(stack: seq<OverlayEntry>, mounted: set<Component>, later: set<Component>, s: FocusState,
                       c: Component, d: Component)
    requires Names(stack, s.restore) && Lends(stack, s, Some(c)) && c !in later && !IsOverlay(stack, d)
    ensures var lent := Refocus(stack, mounted, s, Some(c), Clear);
      && lent.focused == Some(c)
      && Refocus(stack, mounted, lent, None, Clear) == FocusState(s.focused, Eligible(s.restore.overlay))
      && Refocus(stack, later, lent, Some(d), Clear) == FocusState(s.focused, Eligible(s.restore.overlay))
  {
    NotVisible(stack, c);
  }

  /** While the borrower is mounted, it may pass the focus on; the overlay then waits for the new one. */
  lemma LoanPassesOn(stack: seq<OverlayEntry>, mounted: set<Component>, s: FocusState, c: Component, d: Component)
    requires Names(stack, s.restore) && Lends(stack, s, Some(c)) && c in mounted && !IsOverlay(stack, d)
    ensures var lent := Refocus(stack, mounted, s, Some(c), Clear);
      var passed := Refocus(stack, mounted, lent, Some(d), Clear);
      && passed.focused == Some(d)
      && Refocus(stack, mounted, passed, None, Clear) == FocusState(s.focused, Eligible(s.restore.overlay))
  {
    NotVisible(stack, c);
    NotVisible(stack, d);
  }

  /** Whoever is asked for gets the focus, unless a borrower lets go of it: that is when a component that holds an
      overlay's focus gives it up, or when another component outside every overlay asks for it and the overlay's
      handle named a target, or the borrower is gone. */
  lemma AskedGets(stack: seq<OverlayEntry>, mounted: set<Component>, s: FocusState, component: Option<Component>,
                  policy: Policy)
    requires Names(stack, s.restore)
    ensures var r := Refocus(stack, mounted, s, component, policy);
      || r.focused == component
      || (s.restore.Blocked? && s.restore.overlay.IsVisible() && s.focused == Some(s.restore.blockedBy)
          && (component.Some? ==>
                !IsOverlay(stack, component.value)
                && (s.restore.resume.FocusTarget? || s.restore.blockedBy !in mounted)))
  {
  }

  /** If the overlay's handle named a target, the borrower's giving up leads there, and the overlay waits no more. */
  lemma TargetInstead(stack: seq<OverlayEntry>, mounted: set<Component>, s: FocusState, c: Component,
                      target: Option<Component>, asked: Option<Component>, policy: Policy)
    requires Names(stack, s.restore) && s.focused == Some(c)
    requires s.restore.Blocked? && s.restore.overlay.IsVisible() && s.restore.blockedBy == c
    requires s.restore.resume == FocusTarget(target)
    requires asked.None? || !IsOverlay(stack, asked.value)
    requires target.None? || !IsOverlay(stack, target.value)
    ensures Refocus(stack, mounted, s, asked, policy) == FocusState(target, Inactive)
  {
    if target.Some? { NotVisible(stack, target.value); }
  }

  /** When nobody is to be focused, an overlay that may get the focus back is forgotten, or kept waiting if the request
      says so. */
  lemma NobodyAsked(stack: seq<OverlayEntry>, mounted: set<Component>, s: FocusState, policy: Policy)
    requires Names(stack, s.restore) && !s.restore.Blocked?
    ensures Refocus(stack, mounted, s, None, policy) ==
            FocusState(None, if policy.Preserve? then s.restore else Inactive)
  {
  }

  /** A visible overlay that hands its focus to a component on its own chain lends nothing: it may get the focus back
      at once. */
  lemma AncestorBorrowsNothing(stack: seq<OverlayEntry>, mounted: set<Component>, s: FocusState, e: OverlayEntry,
                               c: Component, policy: Policy)
    requires Names(stack, s.restore) && s.restore == Eligible(e) && e.IsVisible()
    requires s.focused == Some(e.component) && FirstVisible(stack, e.component) == PlaceOf(stack, e)
    requires !IsOverlay(stack, c)
    ensures Refocus(stack, mounted, s, Some(c), policy) ==
            FocusState(Some(c), if OnWalk(Links(stack), e.preFocus, c) then Eligible(e)
                                else Blocked(e, c, RestoreOverlay))
  {
    hide OnWalk;
    NotVisible(stack, c);
  }

  // ----- which overlay is in front -----

  predicate Captures(e: OverlayEntry)
    reads e
  {
    !e.nonCapturing && e.IsVisible()
  }

  /** The visible capturing overlay with the highest focus order. */
  function Topmost(stack: seq<OverlayEntry>): (r: Option<OverlayEntry>)
    reads stack
    ensures r.None? ==> forall e :: e in stack ==> !Captures(e)
    ensures r.Some? ==> r.value in stack && Captures(r.value) &&
                        forall e :: e in stack && Captures(e) ==> e.focusOrder <= r.value.focusOrder
  {
    if stack == [] then None
    else
      var last := stack[|stack| - 1];
      var before := Topmost(stack[..|stack| - 1]);
      if Captures(last) && (before.None? || last.focusOrder > before.value.focusOrder) then Some(last) else before
  }

  /** Of the overlays that capture input and can be seen, none has a higher focus order than `e`. */
  ghost predicate InFront(stack: seq<OverlayEntry>, e: OverlayEntry)
    reads stack
  {
    && e in stack && !e.nonCapturing && !e.hidden && e.shown
    && forall x :: x in stack && !x.nonCapturing && !x.hidden && x.shown ==> x.focusOrder <= e.focusOrder
  }

  /** Some overlay captures input and can be seen. */
  ghost predicate SomeCaptures(stack: seq<OverlayEntry>)
    reads stack
  {
    exists x :: x in stack && !x.nonCapturing && !x.hidden && x.shown
  }

  /** The overlay in front has the focus, and may get it back. */
  ghost predicate FrontHasFocus(stack: seq<OverlayEntry>, s: FocusState)
    reads stack, if s.restore.Eligible? then {s.restore.overlay} else {}
  {
    exists e :: e in stack && InFront(stack, e) && s.focused == Some(e.component) && s.restore.Eligible?
                && s.restore.overlay.component == e.component && !s.restore.overlay.hidden && s.restore.overlay.shown
  }

  /** The focus has gone from `before` to `after` because an overlay gave it up: to the overlay in front, if there is
      one; else `back` was asked for. */
  ghost predicate GivenUp(stack: seq<OverlayEntry>, mounted: set<Component>, before: FocusState,
                          back: Option<Component>, after: FocusState)
    requires Names(stack, before.restore)
    reads stack, if after.restore.Eligible? then {after.restore.overlay} else {}
  {
    if SomeCaptures(stack) then FrontHasFocus(stack, after)
    else after == Refocus(stack, mounted, before, back, Clear)
  }

  lemma TopmostInFront(stack: seq<OverlayEntry>)
    ensures Topmost(stack).Some? <==> SomeCaptures(stack)
    ensures Topmost(stack).Some? ==> InFront(stack, Topmost(stack).value)
  {
    var top := Topmost(stack);
    if SomeCaptures(stack) {
      var x :| x in stack && !x.nonCapturing && !x.hidden && x.shown;
      assert Captures(x);
    }
    if top.Some? {
      forall x | x in stack && !x.nonCapturing && !x.hidden && x.shown ensures x.focusOrder <= top.value.focusOrder {
        assert Captures(x);
      }
    }
  }

  lemma FallbackGivesUp(stack: seq<OverlayEntry>, mounted: set<Component>, s: FocusState, e: OverlayEntry)
    requires Names(stack, s.restore)
    ensures GivenUp(stack, mounted, s, e.preFocus, Refocus(stack, mounted, s, Fallback(stack, e), Clear))
  {
    hide Refocus, Topmost;
    TopmostInFront(stack);
    if Topmost(stack).Some? { OverlayTakesFocus(stack, mounted, s, Topmost(stack).value); }
  }

  /** Where focus goes when `e` gives it up. */
  function Fallback(stack: seq<OverlayEntry>, e: OverlayEntry): Option<Component>
    reads stack, e
  {
    var top := Topmost(stack);
    if top.Some? then Some(top.value.component) else e.preFocus
  }

  function ClearedFor(restore: Restore, e: OverlayEntry): Restore {
    if restore != Inactive && restore.overlay == e then Inactive else restore
  }

  class FocusManager {
    const focusable: Component -> bool
    var mounted: set<Component>
    /** The components whose `focused` flag is set. */
    var flags: set<Component>
    var focusedComponent: Option<Component>
    var focusOrderCounter: nat
    var overlayStack: seq<OverlayEntry>
    var overlayFocusRestore: Restore

    constructor (focusable: Component -> bool)
      ensures Valid() && overlayStack == [] && focusedComponent.None? && overlayFocusRestore.Inactive?
    {
      this.focusable, mounted, flags, focusedComponent := focusable, {}, {}, None;
      focusOrderCounter, overlayStack, overlayFocusRestore := 0, [], Inactive;
    }

    ghost predicate FlagsOk()
      reads this`flags, this`focusedComponent
    {
      flags == if focusedComponent.Some? && focusable(focusedComponent.value) then {focusedComponent.value} else {}
    }

    ghost predicate OrdersOk()
      reads this`overlayStack, this`focusOrderCounter, overlayStack`focusOrder
    {
      && (forall i :: 0 <= i < |overlayStack| ==> overlayStack[i].focusOrder <= focusOrderCounter)
      && forall i, j :: 0 <= i < j < |overlayStack| ==>
           overlayStack[i] != overlayStack[j] && overlayStack[i].focusOrder != overlayStack[j].focusOrder
    }

    /** Only the focused component has its flag set, what may get focus back is still in the stack, and focus
        orders are distinct and no larger than the counter. */
    ghost predicate Valid()
      reads this`flags, this`focusedComponent, this`focusOrderCounter, this`overlayStack, this`overlayFocusRestore
      reads overlayStack`focusOrder
    {
      FlagsOk() && OrdersOk() && Names(overlayStack, overlayFocusRestore)
    }

    /** Whether `component` lies on the chain of earlier focuses of `entry`. The walk ends on any chain. */
    method IsOverlayFocusAncestor(entry: OverlayEntry, component: Component) returns (r: bool)
      ensures r <==> OnWalk(Links(overlayStack), entry.preFocus, component)
    {
      hide Next, Walk, Targets, Links;
      var visited: set<Component> := {};
      var current := entry.preFocus;
      ghost var n: nat := 0;
      ghost var all := Targets(Links(overlayStack), entry.preFocus);
      TargetsStart(Links(overlayStack), entry.preFocus);
      WalkNowhere(Links(overlayStack), entry.preFocus);
      while current.Some? && current.value !in visited
        invariant current == Walk(Links(overlayStack), entry.preFocus, n)
        invariant current.Some? ==> current.value in all
        invariant visited <= all && component !in visited
        invariant In(entry.preFocus, visited, current)
        invariant forall c :: c in visited ==> In(Next(Links(overlayStack), c), visited, current)
        decreases all - visited
      {
        visited := visited + {current.value};
        if current.value == component {
          return true;
        }
        TargetsStep(Links(overlayStack), entry.preFocus, current.value, n);
        current := Next(Links(overlayStack), current.value);
        n := n + 1;
      }
      forall m: nat ensures Walk(Links(overlayStack), entry.preFocus, m) != Some(component) {
        WalkStays(Links(overlayStack), entry.preFocus, visited, m);
      }
      r := false;
    }

    ghost function Now(): FocusState
      reads this
    {
      FocusState(focusedComponent, overlayFocusRestore)
    }

    method SetFocus(component: Option<Component>)
      requires Valid()
      modifies this`flags, this`focusedComponent, this`overlayFocusRestore
      ensures Valid() && Now() == Refocus(overlayStack, mounted, old(Now()), component, Clear)
    {
      SetFocusInternal(component, Clear);
    }

    method SetFocusInternal(component: Option<Component>, policy: Policy)
      requires Valid()
      modifies this`flags, this`focusedComponent, this`overlayFocusRestore
      ensures Valid() && Now() == Refocus(overlayStack, mounted, old(Now()), component, policy)
    {
      hide Requested, Landed, OrdersOk, FlagsOk, Names;
      var nextFocus := ResolveRequest(component, policy);
      Land(nextFocus);
    }

    /** The second half of `setFocusInternal`: the focus moves, and an overlay that gets it may get it back. */
    method Land(nextFocus: Option<Component>)
      requires FlagsOk() && Names(overlayStack, overlayFocusRestore)
      modifies this`flags, this`focusedComponent, this`overlayFocusRestore
      ensures FlagsOk() && Names(overlayStack, overlayFocusRestore)
      ensures Now() == Landed(overlayStack, FocusState(nextFocus, old(overlayFocusRestore)))
    {
      hide FlagsOk, FirstVisible;
      MoveFlags(nextFocus);
      var focusedOverlay := FindVisible(nextFocus);
      if focusedOverlay.Some? {
        overlayFocusRestore := Eligible(focusedOverlay.value);
      }
    }

    method MoveFlags(nextFocus: Option<Component>)
      requires FlagsOk()
      modifies this`flags, this`focusedComponent
      ensures FlagsOk() && focusedComponent == nextFocus
    {
      if focusedComponent.Some? && focusable(focusedComponent.value) {
        flags := flags - {focusedComponent.value};
      }
      focusedComponent := nextFocus;
      if nextFocus.Some? && focusable(nextFocus.value) {
        flags := flags + {nextFocus.value};
      }
    }

    /** The first half of `setFocusInternal`: who is to be focused, with the restore state put right. */
    method ResolveRequest(component: Option<Component>, policy: Policy) returns (nextFocus: Option<Component>)
      requires Names(overlayStack, overlayFocusRestore)
      modifies this`overlayFocusRestore
      ensures Names(overlayStack, overlayFocusRestore)
      ensures FocusState(nextFocus, overlayFocusRestore) ==
              Requested(overlayStack, mounted, old(Now()), component, policy)
    {
      hide OnWalk, FirstVisible, IsOverlay;
      var previousFocus := focusedComponent;
      nextFocus := component;
      var previousFocusedOverlay := FindVisible(previousFocus);
      var nextFocusIsOverlay := nextFocus.Some? && IsOverlay(overlayStack, nextFocus.value);
      var restoreState := VisibleRestore(overlayStack, overlayFocusRestore);
      if nextFocus.Some? && !nextFocusIsOverlay {
        if restoreState.Blocked? && previousFocus == Some(restoreState.blockedBy) {
          if restoreState.resume.FocusTarget? || restoreState.blockedBy !in mounted {
            nextFocus := ResolveResume(restoreState);
          } else {
            overlayFocusRestore := Blocked(restoreState.overlay, nextFocus.value, restoreState.resume);
          }
        } else if previousFocusedOverlay.Some? && restoreState != Inactive
                  && restoreState.overlay == previousFocusedOverlay.value {
          var ancestor := IsOverlayFocusAncestor(previousFocusedOverlay.value, nextFocus.value);
          if !ancestor {
            overlayFocusRestore := Blocked(previousFocusedOverlay.value, nextFocus.value, RestoreOverlay);
          }
        }
      } else if nextFocus.None? {
        if restoreState.Blocked? && previousFocus == Some(restoreState.blockedBy) {
          nextFocus := ResolveResume(restoreState);
        } else if policy.Clear? {
          overlayFocusRestore := Inactive;
        }
      }
    }

    /** The first visible overlay showing a component. */
    method FindVisible(component: Option<Component>) returns (found: Option<OverlayEntry>)
      ensures found ==
        if component.Some? && FirstVisible(overlayStack, component.value) < |overlayStack|
        then Some(overlayStack[FirstVisible(overlayStack, component.value)]) else None
      ensures found.Some? ==> found.value in overlayStack
    {
      found := None;
      if component.Some? {
        var i := FirstVisible(overlayStack, component.value);
        if i < |overlayStack| {
          found := Some(overlayStack[i]);
        }
      }
    }

    method ResolveResume(restoreState: Restore) returns (target: Option<Component>)
      requires restoreState.Blocked?
      modifies this`overlayFocusRestore
      ensures target == Resumed(restoreState)
      ensures overlayFocusRestore ==
              if restoreState.resume.RestoreOverlay? then old(overlayFocusRestore) else Inactive
    {
      if restoreState.resume.RestoreOverlay? {
        return Some(restoreState.overlay.component);
      }
      overlayFocusRestore := Inactive;
      target := restoreState.resume.target;
    }

    method GetTopmostVisibleOverlay() returns (topmost: Option<OverlayEntry>)
      ensures topmost == Topmost(overlayStack)
    {
      topmost := None;
      for i := 0 to |overlayStack|
        invariant topmost == Topmost(overlayStack[..i])
      {
        var overlay := overlayStack[i];
        assert overlayStack[..i + 1][..i] == overlayStack[..i];
        if Captures(overlay) {
          if topmost.None? || overlay.focusOrder > topmost.value.focusOrder {
            topmost := Some(overlay);
          }
        }
      }
      assert overlayStack[..|overlayStack|] == overlayStack;
    }

    // ----- the handle of an overlay -----

    method ClearOverlayFocusRestoreFor(overlay: OverlayEntry)
      modifies this`overlayFocusRestore
      ensures overlayFocusRestore == ClearedFor(old(overlayFocusRestore), overlay)
    {
      if overlayFocusRestore != Inactive && overlayFocusRestore.overlay == overlay {
        overlayFocusRestore := Inactive;
      }
    }

    /** Some other overlay would give its focus to `component`. */
    ghost predicate PointedAt(component: Component, except: OverlayEntry)
      reads this`overlayStack, overlayStack`preFocus
    {
      exists e :: e in overlayStack && e != except && e.preFocus == Some(component)
    }

    /** Whoever would have gone back to a removed overlay goes back to where it would have gone. */
    method RetargetOverlayPreFocus(removed: OverlayEntry)
      modifies overlayStack`preFocus
      ensures forall e :: e in overlayStack ==>
        e.preFocus == if e != removed && old(e.preFocus) == Some(removed.component) then old(removed.preFocus)
                      else old(e.preFocus)
      ensures removed.preFocus == old(removed.preFocus)
      ensures old(OrdersOk()) ==> OrdersOk()
      ensures PointedAt(removed.component, removed) <==>
              removed.preFocus == Some(removed.component) && old(PointedAt(removed.component, removed))
    {
      hide OrdersOk;
      for i := 0 to |overlayStack|
        invariant removed.preFocus == old(removed.preFocus)
        invariant forall e :: e in overlayStack ==>
          e.preFocus == if e in overlayStack[..i] && e != removed && old(e.preFocus) == Some(removed.component)
                        then removed.preFocus else old(e.preFocus)
      {
        var overlay := overlayStack[i];
        assert forall e :: e in overlayStack[..i + 1] <==> e in overlayStack[..i] || e == overlay;
        if overlay != removed && overlay.preFocus == Some(removed.component) {
          overlay.preFocus := removed.preFocus;
        }
      }
      assert overlayStack[..|overlayStack|] == overlayStack;
    }

    /** Take entry `i` out, as both `hide` and `hideOverlay` do, and let go of what names it. */
    method TakeOut(entry: OverlayEntry, i: nat)
      requires Valid() && i < |overlayStack| && overlayStack[i] == entry
      modifies this`overlayStack, this`overlayFocusRestore, overlayStack`preFocus
      ensures Valid() && overlayStack == Dropped(old(overlayStack), i)
      ensures Links(overlayStack) == Without(old(Links(overlayStack)), i)
      ensures overlayFocusRestore == ClearedFor(old(overlayFocusRestore), entry)
      ensures entry !in overlayStack && entry.preFocus == old(entry.preFocus)
      ensures PointedAt(entry.component, entry) <==>
              old(entry.preFocus) == Some(entry.component) && old(PointedAt(entry.component, entry))
    {
      hide OrdersOk, Without, Dropped, FlagsOk, PointedAt;
      ghost var links := Links(overlayStack);
      ClearOverlayFocusRestoreFor(entry);
      RetargetOverlayPreFocus(entry);
      WithoutIs(links, Links(overlayStack), i);
      Splice(entry, i);
    }

    method Splice(entry: OverlayEntry, i: nat)
      requires FlagsOk() && OrdersOk() && i < |overlayStack| && overlayStack[i] == entry
      modifies this`overlayStack
      ensures FlagsOk() && OrdersOk() && overlayStack == Dropped(old(overlayStack), i)
      ensures Links(overlayStack) == old(Links(overlayStack))[..i] + old(Links(overlayStack))[i + 1..]
      ensures forall e :: e in overlayStack <==> e in old(overlayStack) && e != entry
      ensures PointedAt(entry.component, entry) <==> old(PointedAt(entry.component, entry))
    {
      hide Links;
      overlayStack := overlayStack[..i] + overlayStack[i + 1..];
    }

    /** If an overlay that leaves the screen had the focus, pass it on. */
    method PassFocusOn(entry: OverlayEntry)
      requires Valid()
      modifies this`flags, this`focusedComponent, this`overlayFocusRestore
      ensures Valid()
      ensures Now() == if old(focusedComponent) == Some(entry.component)
                       then Refocus(overlayStack, mounted, old(Now()), Fallback(overlayStack, entry), Clear)
                       else old(Now())
      ensures old(focusedComponent) == Some(entry.component) ==>
        GivenUp(overlayStack, mounted, old(Now()), entry.preFocus, Now())
    {
      hide OrdersOk, FlagsOk, Refocus, Topmost, GivenUp;
      FallbackGivesUp(overlayStack, mounted, Now(), entry);
      if focusedComponent == Some(entry.component) {
        var topVisible := GetTopmostVisibleOverlay();
        SetFocus(if topVisible.Some? then Some(topVisible.value.component) else entry.preFocus);
      }
    }

    /** Whoever takes an overlay out of the stack: nothing names it any more, except an overlay that went back to
        its component when it went back to its component itself. */
    ghost predicate Gone(entry: OverlayEntry, selfPointing: bool, wasPointedAt: bool)
      reads this, overlayStack
    {
      && Valid() && entry !in overlayStack
      && (PointedAt(entry.component, entry) <==> selfPointing && wasPointedAt)
    }

    /** The handle's `hide`: for good. The entries that remain are as they were, save those that pointed at this one. */
    method Hide(entry: OverlayEntry)
      requires Valid()
      modifies this`flags, this`focusedComponent, this`overlayStack, this`overlayFocusRestore, overlayStack`preFocus
      ensures Valid() && entry.preFocus == old(entry.preFocus)
      ensures old(entry !in overlayStack) ==>
        overlayStack == old(overlayStack) && Links(overlayStack) == old(Links(overlayStack)) && Now() == old(Now())
      ensures old(entry in overlayStack) ==>
        var i := PlaceOf(old(overlayStack), entry);
        && overlayStack == Dropped(old(overlayStack), i)
        && Links(overlayStack) == Without(old(Links(overlayStack)), i)
        && Gone(entry, old(entry.preFocus) == Some(entry.component), old(PointedAt(entry.component, entry)))
        && var cleared := FocusState(old(focusedComponent), ClearedFor(old(overlayFocusRestore), entry));
           && Names(overlayStack, cleared.restore)
           && Now() == (if old(focusedComponent) == Some(entry.component)
                        then Refocus(overlayStack, mounted, cleared, Fallback(overlayStack, entry), Clear)
                        else cleared)
           && (old(focusedComponent) == Some(entry.component) ==>
                 GivenUp(overlayStack, mounted, cleared, entry.preFocus, Now()))
    {
      hide OrdersOk, FlagsOk, Refocus, Topmost, PointedAt, Fallback, GivenUp;
      var i := 0;
      while i < |overlayStack| && overlayStack[i] != entry
        invariant 0 <= i <= |overlayStack| && forall j :: 0 <= j < i ==> overlayStack[j] != entry
      {
        i := i + 1;
      }
      SamePlace(overlayStack, entry, i);
      if i < |overlayStack| {
        TakeOut(entry, i);
        PassFocusOn(entry);
      }
    }

    /** Take the top overlay off, and leave the others as `Hide` does. */
    method HideOverlay()
      requires Valid()
      modifies this`flags, this`focusedComponent, this`overlayStack, this`overlayFocusRestore, overlayStack`preFocus
      ensures Valid()
      ensures old(overlayStack) == [] ==> overlayStack == [] && Now() == old(Now())
      ensures old(overlayStack) != [] ==>
        var entry := old(overlayStack)[|old(overlayStack)| - 1];
        && entry.preFocus == old(entry.preFocus)
        && overlayStack == old(overlayStack)[..|old(overlayStack)| - 1]
        && Links(overlayStack) == Without(old(Links(overlayStack)), |old(overlayStack)| - 1)
        && Gone(entry, old(entry.preFocus) == Some(entry.component), old(PointedAt(entry.component, entry)))
        && var cleared := FocusState(old(focusedComponent), ClearedFor(old(overlayFocusRestore), entry));
           && Names(overlayStack, cleared.restore)
           && Now() == (if old(focusedComponent) == Some(entry.component)
                        then Refocus(overlayStack, mounted, cleared, Fallback(overlayStack, entry), Clear)
                        else cleared)
           && (old(focusedComponent) == Some(entry.component) ==>
                 GivenUp(overlayStack, mounted, cleared, entry.preFocus, Now()))
    {
      hide OrdersOk, FlagsOk, Refocus, Topmost, PointedAt, Fallback, GivenUp, Links, Without, ClearedFor, Dropped;
      if |overlayStack| == 0 {
        return;
      }
      var overlay := overlayStack[|overlayStack| - 1];
      WithoutLast(overlayStack);
      TakeOut(overlay, |overlayStack| - 1);
      PassFocusOn(overlay);
    }

    method RaiseAbove(entry: OverlayEntry)
      requires OrdersOk()
      modifies this`focusOrderCounter, entry`focusOrder
      ensures OrdersOk() && focusOrderCounter == old(focusOrderCounter) + 1 && entry.focusOrder == focusOrderCounter
      ensures forall e :: e in overlayStack && e != entry ==> e.focusOrder < entry.focusOrder
    {
      focusOrderCounter := focusOrderCounter + 1;
      entry.focusOrder := focusOrderCounter;
    }

    /** Show a component as an overlay; a capturing one that can be seen takes the focus. */
    method ShowOverlay(component: Component, nonCapturing: bool, shown: bool) returns (entry: OverlayEntry)
      requires Valid()
      modifies this`flags, this`focusedComponent, this`focusOrderCounter, this`overlayStack, this`overlayFocusRestore
      ensures Valid() && fresh(entry) && overlayStack == old(overlayStack) + [entry]
      ensures Links(overlayStack) == old(Links(overlayStack)) + [Link(component, old(focusedComponent))]
      ensures entry.component == component && entry.nonCapturing == nonCapturing
      ensures entry.shown == shown && !entry.hidden
      ensures entry.preFocus == old(focusedComponent)
      ensures entry.focusOrder == focusOrderCounter == old(focusOrderCounter) + 1
      ensures forall e :: e in old(overlayStack) ==> e.focusOrder < entry.focusOrder
      ensures if !nonCapturing && shown
              then focusedComponent == Some(component) && overlayFocusRestore.Eligible?
                   && overlayFocusRestore.overlay.component == component && overlayFocusRestore.overlay.IsVisible()
              else Now() == old(Now())
    {
      hide Refocus, OrdersOk, FlagsOk, Topmost, Links;
      entry := Push(component, nonCapturing, shown);
      if !nonCapturing && entry.IsVisible() {
        OverlayTakesFocus(overlayStack, mounted, Now(), entry);
        SetFocus(Some(component));
      }
    }

    method Push(component: Component, nonCapturing: bool, shown: bool) returns (entry: OverlayEntry)
      requires OrdersOk()
      modifies this`focusOrderCounter, this`overlayStack
      ensures OrdersOk() && fresh(entry) && overlayStack == old(overlayStack) + [entry]
      ensures Links(overlayStack) == old(Links(overlayStack)) + [Link(component, focusedComponent)]
      ensures entry.component == component && entry.nonCapturing == nonCapturing
      ensures entry.shown == shown && !entry.hidden
      ensures entry.preFocus == focusedComponent
      ensures entry.focusOrder == focusOrderCounter == old(focusOrderCounter) + 1
      ensures forall e :: e in old(overlayStack) ==> e.focusOrder < entry.focusOrder
    {
      hide Links;
      focusOrderCounter := focusOrderCounter + 1;
      entry := new OverlayEntry(component, nonCapturing, shown, focusedComponent, focusOrderCounter);
      overlayStack := overlayStack + [entry];
    }

    /** The handle's `setHidden`. The overlay may be one that was taken out of the stack. */
    method SetHidden(entry: OverlayEntry, hidden: bool)
      requires Valid()
      modifies this`flags, this`focusedComponent, this`focusOrderCounter, this`overlayFocusRestore
      modifies entry`hidden, entry`focusOrder
      ensures Valid() && entry.hidden == hidden && Links(overlayStack) == old(Links(overlayStack))
      ensures old(entry.hidden) == hidden ==> Now() == old(Now()) && entry.focusOrder == old(entry.focusOrder)
      ensures old(entry.hidden) != hidden ==>
        var was := old(overlayFocusRestore);
        var start := FocusState(old(focusedComponent), if hidden then ClearedFor(was, entry) else was);
        && Names(overlayStack, start.restore)
        && Now() == (if hidden && old(focusedComponent) == Some(entry.component)
                     then Refocus(overlayStack, mounted, start, Fallback(overlayStack, entry), Clear)
                     else if !hidden && Captures(entry)
                     then Refocus(overlayStack, mounted, start, Some(entry.component), Clear)
                     else start)
        && (hidden && old(focusedComponent) == Some(entry.component) ==>
              GivenUp(overlayStack, mounted, start, entry.preFocus, Now()))
        && (!hidden && entry in overlayStack && !entry.nonCapturing && entry.shown ==>
              focusedComponent == Some(entry.component) && overlayFocusRestore.Eligible?
              && overlayFocusRestore.overlay.component == entry.component && overlayFocusRestore.overlay.IsVisible()
              && forall e :: e in overlayStack && e != entry ==> e.focusOrder < entry.focusOrder)
        && if !hidden && Captures(entry) then entry.focusOrder == focusOrderCounter == old(focusOrderCounter) + 1
           else entry.focusOrder == old(entry.focusOrder) && focusOrderCounter == old(focusOrderCounter)
    {
      hide Refocus, FlagsOk, OrdersOk, Topmost, Links, GivenUp;
      if entry.hidden == hidden {
        return;
      }
      entry.hidden := hidden;
      if hidden {
        ClearOverlayFocusRestoreFor(entry);
        PassFocusOn(entry);
      } else if !entry.nonCapturing && entry.IsVisible() {
        RaiseAbove(entry);
        if entry in overlayStack { OverlayTakesFocus(overlayStack, mounted, Now(), entry); }
        SetFocus(Some(entry.component));
      }
    }

    /** The handle's `focus`: to the front, with the focus. */
    method Focus(entry: OverlayEntry)
      requires Valid()
      modifies this`flags, this`focusedComponent, this`focusOrderCounter, this`overlayFocusRestore, entry`focusOrder
      ensures Valid() && Links(overlayStack) == old(Links(overlayStack))
      ensures if entry in overlayStack && entry.IsVisible()
              then focusedComponent == Some(entry.component) && overlayFocusRestore.Eligible?
                   && overlayFocusRestore.overlay.component == entry.component
                   && forall e :: e in overlayStack && e != entry ==> e.focusOrder < entry.focusOrder
              else Now() == old(Now()) && entry.focusOrder == old(entry.focusOrder)
    {
      hide Refocus, FlagsOk;
      if entry !in overlayStack || !entry.IsVisible() {
        return;
      }
      RaiseAbove(entry);
      OverlayTakesFocus(overlayStack, mounted, Now(), entry);
      SetFocus(Some(entry.component));
    }

    lemma UnfocusGivesUp(entry: OverlayEntry)
      requires Valid()
      ensures var cleared := Now().(restore := ClearedFor(Now().restore, entry));
        && Names(overlayStack, cleared.restore)
        && var after := Refocus(overlayStack, mounted, cleared, UnfocusTarget(overlayStack, entry), Clear);
           if SomeCaptures(overlayStack) && !InFront(overlayStack, entry) then FrontHasFocus(overlayStack, after)
           else after == Refocus(overlayStack, mounted, cleared, entry.preFocus, Clear)
    {
      hide Refocus, Topmost;
      var cleared := Now().(restore := ClearedFor(Now().restore, entry));
      var top := Topmost(overlayStack);
      TopmostInFront(overlayStack);
      if top.Some? && top.value != entry {
        OneInFront(top.value, entry);
        OverlayTakesFocus(overlayStack, mounted, cleared, top.value);
      }
    }

    lemma OneInFront(e: OverlayEntry, x: OverlayEntry)
      requires OrdersOk() && InFront(overlayStack, e) && x != e
      ensures !InFront(overlayStack, x)
    {
      if x in overlayStack {
        var i :| 0 <= i < |overlayStack| && overlayStack[i] == e;
        var j :| 0 <= j < |overlayStack| && overlayStack[j] == x;
      }
    }

    /** The handle's `unfocus`, with an explicit target or without. */
    method Unfocus(entry: OverlayEntry, target: Option<Option<Component>>)
      requires Valid()
      modifies this`flags, this`focusedComponent, this`overlayFocusRestore
      ensures Valid()
      ensures var was := old(Now());
        var isFocused := was.focused == Some(entry.component);
        var waits := was.restore != Inactive && was.restore.overlay == entry;
        Now() ==
          if !isFocused && !waits then was
          else if waits && was.restore.Blocked? && was.focused == Some(was.restore.blockedBy) then
            was.(restore := if target.Some? then was.restore.(resume := FocusTarget(target.value)) else Inactive)
          else
            var cleared := was.(restore := ClearedFor(was.restore, entry));
            if !isFocused && target.None? then cleared
            else Refocus(overlayStack, mounted, cleared,
                         if target.Some? then target.value else UnfocusTarget(overlayStack, entry), Clear)
      ensures var was := old(Now());
        var cleared := was.(restore := ClearedFor(was.restore, entry));
        && Names(overlayStack, cleared.restore)
        && (was.focused == Some(entry.component) && target.None?
            && !(was.restore.Blocked? && was.restore.overlay == entry
                 && was.focused == Some(was.restore.blockedBy)) ==>
              if SomeCaptures(overlayStack) && !InFront(overlayStack, entry) then FrontHasFocus(overlayStack, Now())
              else Now() == Refocus(overlayStack, mounted, cleared, entry.preFocus, Clear))
    {
      hide Refocus, FlagsOk, OrdersOk, Topmost, SomeCaptures, InFront, FrontHasFocus;
      UnfocusGivesUp(entry);
      var isFocused := focusedComponent == Some(entry.component);
      var restoreState := overlayFocusRestore;
      var hasPendingRestore := restoreState != Inactive && restoreState.overlay == entry;
      if !isFocused && !hasPendingRestore {
        return;
      }
      if restoreState.Blocked? && restoreState.overlay == entry && focusedComponent == Some(restoreState.blockedBy) {
        if target.Some? {
          overlayFocusRestore := Blocked(entry, restoreState.blockedBy, FocusTarget(target.value));
        } else {
          overlayFocusRestore := Inactive;
        }
        return;
      }
      ClearOverlayFocusRestoreFor(entry);
      if isFocused || target.Some? {
        var topVisible := GetTopmostVisibleOverlay();
        var fallbackTarget :=
          if topVisible.Some? && topVisible.value != entry then Some(topVisible.value.component) else entry.preFocus;
        SetFocus(if target.Some? then target.value else fallbackTarget);
      }
    }

    /** The overlay that is to receive input cannot be seen any more. */
    ghost predicate FocusHidden()
      reads this, overlayStack
    {
      focusedComponent.Some? &&
      var i := FirstLink(Links(overlayStack), focusedComponent.value);
      i < |overlayStack| && !overlayStack[i].IsVisible()
    }

    predicate FocusOnOverlay()
      reads this, overlayStack
    {
      focusedComponent.Some? && IsOverlay(overlayStack, focusedComponent.value)
    }

    /** Before input is delivered: an overlay that can no longer be seen loses the focus to the frontmost one, and
        one that waits for it gets it; a visible overlay, and a borrower, keep it. */
    method RedirectInput()
      requires Valid()
      modifies this`flags, this`focusedComponent, this`overlayFocusRestore
      ensures Valid()
      ensures NobodyWaits(overlayStack, Now())
      ensures old(FocusHidden()) && Topmost(overlayStack).Some? ==>
        focusedComponent == Some(Topmost(overlayStack).value.component)
      ensures old(FocusOnOverlay() && !FocusHidden()) ==> Now() == old(Now())
      ensures old(!FocusOnOverlay()) ==>
        Now() == Delivered(overlayStack, mounted, old(Now()))
      ensures Now() == Redirected(overlayStack, mounted, old(Now()))
    {
      hide OrdersOk, FlagsOk, Refocus, Delivered, Topmost, Links;
      if focusedComponent.Some? {
        var i := FirstLink(Links(overlayStack), focusedComponent.value);
        if i < |overlayStack| && !overlayStack[i].IsVisible() {
          var topVisible := GetTopmostVisibleOverlay();
          if topVisible.Some? {
            OverlayTakesFocus(overlayStack, mounted, Now(), topVisible.value);
            SetFocus(Some(topVisible.value.component));
          } else {
            SetFocusInternal(overlayStack[i].preFocus, Preserve);
          }
        }
      }
      if !FocusOnOverlay() {
        DeliverRestore();
      }
    }

    method DeliverRestore()
      requires Valid()
      modifies this`flags, this`focusedComponent, this`overlayFocusRestore
      ensures Valid()
      ensures NobodyWaits(overlayStack, Now())
      ensures Now() == Delivered(overlayStack, mounted, old(Now()))
    {
      hide OrdersOk, FlagsOk, Refocus, NobodyWaits;
      DeliveredSettles(overlayStack, mounted, Now());
      var restoreState := VisibleRestore(overlayStack, overlayFocusRestore);
      if restoreState.Eligible? {
        SetFocus(Some(restoreState.overlay.component));
      } else if restoreState.Blocked? && focusedComponent != Some(restoreState.blockedBy) {
        if restoreState.resume.RestoreOverlay? {
          SetFocus(Some(restoreState.overlay.component));
        } else {
          overlayFocusRestore := Inactive;
          SetFocus(restoreState.resume.target);
        }
      }
    }
  }

  /** An overlay has the focus, or no overlay that can be seen waits for it, save for the one whose borrower has it. */
  ghost predicate NobodyWaits(stack: seq<OverlayEntry>, s: FocusState)
    requires Names(stack, s.restore)
    reads stack
  {
    var restore := VisibleRestore(stack, s.restore);
    || (s.focused.Some? && IsOverlay(stack, s.focused.value))
    || restore.Inactive?
    || (restore.Blocked? && s.focused == Some(restore.blockedBy))
  }

  /** Where input goes: from an overlay that cannot be seen to the frontmost one that can, or, if there is none, to
      where the hidden one's focus would go; and then, unless an overlay has the focus, to one that waits for it. */
  ghost function Redirected(stack: seq<OverlayEntry>, mounted: set<Component>, s: FocusState): (r: FocusState)
    requires Names(stack, s.restore)
    reads stack
    ensures Names(stack, r.restore)
  {
    var i := if s.focused.Some? then FirstLink(Links(stack), s.focused.value) else |stack|;
    var t :=
      if i == |stack| || stack[i].IsVisible() then s
      else if Topmost(stack).Some? then Refocus(stack, mounted, s, Some(Topmost(stack).value.component), Clear)
      else Refocus(stack, mounted, s, stack[i].preFocus, Preserve);
    if t.focused.Some? && IsOverlay(stack, t.focused.value) then t else Delivered(stack, mounted, t)
  }

  lemma DeliveredSettles(stack: seq<OverlayEntry>, mounted: set<Component>, s: FocusState)
    requires Names(stack, s.restore)
    ensures NobodyWaits(stack, Delivered(stack, mounted, s))
  {
    hide OnWalk, Links;
  }

  /** The focus comes back to a visible overlay that waits for it, or goes where its handle said, unless the
      component it was lent to still has it. */
  ghost function Delivered(stack: seq<OverlayEntry>, mounted: set<Component>, s: FocusState): (r: FocusState)
    requires Names(stack, s.restore)
    reads stack
    ensures Names(stack, r.restore)
    ensures var waits := VisibleRestore(stack, s.restore);
      waits.Eligible? || (waits.Blocked? && s.focused != Some(waits.blockedBy) && waits.resume.RestoreOverlay?) ==>
        r.focused == Some(waits.overlay.component) && r.restore.Eligible?
  {
    var waits := VisibleRestore(stack, s.restore);
    if waits.Inactive? || (waits.Blocked? && s.focused == Some(waits.blockedBy)) then s
    else if waits.Blocked? && waits.resume.FocusTarget? then
      Refocus(stack, mounted, s.(restore := Inactive), waits.resume.target, Clear)
    else
      Refocus(stack, mounted, s, Some(waits.overlay.component), Clear)
  }

  /** Where an overlay's focus goes that gives it up by itself. */
  function UnfocusTarget(stack: seq<OverlayEntry>, e: OverlayEntry): Option<Component>
    reads stack, e
  {
    var top := Topmost(stack);
    if top.Some? && top.value != e then Some(top.value.component) else e.preFocus
  }
}
