/** Which component each overlay gives its focus back to, and how long such links stay sound. */
module OverlayLinks {
  import opened Options

  /** Components are known by number. */
  type Component = nat

  datatype Link = Link(component: Component, preFocus: Option<Component>)

  // ----- walking along the links -----

  function FirstLink(links: seq<Link>, c: Component): (i: nat)
    ensures i <= |links| && (i < |links| ==> links[i].component == c)
    ensures forall j :: 0 <= j < i ==> links[j].component != c
  {
    if links == [] then 0 else if links[0].component == c then 0 else 1 + FirstLink(links[1..], c)
  }

  function Next(links: seq<Link>, c: Component): Option<Component> {
    var i := FirstLink(links, c);
    if i < |links| then links[i].preFocus else None
  }

  /** The component reached from `start` after `n` steps. */
  function Walk(links: seq<Link>, start: Option<Component>, n: nat): Option<Component> {
    if n == 0 then start
    else
      var c := Walk(links, start, n - 1);
      if c.None? then None else Next(links, c.value)
  }

  ghost predicate OnWalk(links: seq<Link>, start: Option<Component>, c: Component) {
    exists n: nat :: Walk(links, start, n) == Some(c)
  }

  lemma WalkNowhere(links: seq<Link>, start: Option<Component>)
    ensures Walk(links, start, 0) == start
  {
  }

  lemma {:induction false} WalkFront(links: seq<Link>, c: Component, n: nat)
    ensures Walk(links, Some(c), n + 1) == Walk(links, Next(links, c), n)
    decreases n
  {
    if n > 0 {
      WalkFront(links, c, n - 1);
    } else {
      assert Walk(links, Some(c), 0) == Some(c);
    }
  }

  lemma {:induction false} WalkJoin(links: seq<Link>, start: Option<Component>, m: nat, n: nat)
    ensures Walk(links, Walk(links, start, m), n) == Walk(links, start, m + n)
    decreases n
  {
    if n > 0 {
      WalkJoin(links, start, m, n - 1);
    }
  }

  // ----- walks end -----

  predicate In(c: Option<Component>, visited: set<Component>, current: Option<Component>) {
    c == current || (c.Some? && c.value in visited)
  }

  lemma {:induction false} WalkStays(links: seq<Link>, start: Option<Component>, visited: set<Component>, n: nat)
    requires start.None? || start.value in visited
    requires forall c :: c in visited ==> var next := Next(links, c); next.None? || next.value in visited
    ensures var c := Walk(links, start, n); c.None? || c.value in visited
    decreases n
  {
    hide Next;
    if n > 0 {
      WalkStays(links, start, visited, n - 1);
    }
  }

  /** Everything a walk can reach. */
  ghost function Targets(links: seq<Link>, start: Option<Component>): set<Component> {
    (if start.Some? then {start.value} else {})
    + set i | 0 <= i < |links| && links[i].preFocus.Some? :: links[i].preFocus.value
  }

  lemma TargetsStart(links: seq<Link>, start: Option<Component>)
    ensures start.Some? ==> start.value in Targets(links, start)
  {
  }

  lemma TargetsStep(links: seq<Link>, start: Option<Component>, c: Component, n: nat)
    requires Walk(links, start, n) == Some(c)
    ensures var next := Next(links, c);
      && (next.Some? ==> next.value in Targets(links, start))
      && Walk(links, start, n + 1) == next
  {
  }

  // ----- sound links -----

  predicate Shows(links: seq<Link>, c: Component) {
    exists i :: 0 <= i < |links| && links[i].component == c
  }

  predicate Distinct(links: seq<Link>) {
    forall i, j :: 0 <= i < j < |links| ==> links[i].component != links[j].component
  }

  /** No overlay gets its focus back from itself, however indirectly. */
  ghost predicate Acyclic(links: seq<Link>) {
    forall i :: 0 <= i < |links| ==> !OnWalk(links, links[i].preFocus, links[i].component)
  }

  ghost predicate Sound(links: seq<Link>) {
    Distinct(links) && Acyclic(links)
  }

  lemma NextIs(links: seq<Link>, i: nat)
    requires Distinct(links) && i < |links|
    ensures Next(links, links[i].component) == links[i].preFocus
  {
  }

  // ----- changes -----

  /** A component is shown over the focused one, the overlay at a place of the stack is taken away, or neither. */
  datatype Change = Shown(component: Component, over: Option<Component>) | Removed(i: nat) | Neither

  function Retarget(link: Link, removed: Link): Link {
    if link.preFocus == Some(removed.component) then link.(preFocus := removed.preFocus) else link
  }

  /** The place, before overlay `i` was taken away, of what is now at `k`. */
  function Back(i: nat, k: nat): nat {
    if k < i then k else k + 1
  }

  function Without(links: seq<Link>, i: nat): (r: seq<Link>)
    requires i < |links|
    ensures |r| == |links| - 1
    ensures forall k: nat :: k < |r| ==> r[k] == Retarget(links[Back(i, k)], links[i])
  {
    seq(|links| - 1, k requires 0 <= k < |links| - 1 => Retarget(links[Back(i, k)], links[i]))
  }

  lemma WithoutIs(links: seq<Link>, retargeted: seq<Link>, i: nat)
    requires i < |links| == |retargeted|
    requires forall k :: 0 <= k < |links| && k != i ==> retargeted[k] == Retarget(links[k], links[i])
    ensures retargeted[..i] + retargeted[i + 1..] == Without(links, i)
  {
  }

  function After(links: seq<Link>, change: Change): seq<Link> {
    match change
    case Shown(component, over) => links + [Link(component, over)]
    case Removed(i) => if i < |links| then Without(links, i) else links
    case Neither => links
  }

  /** Each component is shown once at a time, and never over itself: neither has it the focus, nor would the focus
      come back to it when the overlays over it go. */
  ghost predicate Proper(links: seq<Link>, change: Change) {
    change.Shown? ==> !Shows(links, change.component) && !OnWalk(links, change.over, change.component)
  }

  /** After a removal, some overlay still points at what was removed. */
  predicate Dangles(links: seq<Link>, change: Change) {
    && change.Removed? && change.i < |links|
    && exists k :: 0 <= k < |links| - 1 && After(links, change)[k].preFocus == Some(links[change.i].component)
  }

  /** Exactly when: the overlay points at itself, and another one points at it. */
  lemma DanglesWhen(links: seq<Link>, i: nat)
    requires i < |links|
    ensures Dangles(links, Removed(i)) <==>
      && links[i].preFocus == Some(links[i].component)
      && exists j :: 0 <= j < |links| && j != i && links[j].preFocus == Some(links[i].component)
  {
    var r := Without(links, i);
    if links[i].preFocus == Some(links[i].component) {
      forall j | 0 <= j < |links| && j != i && links[j].preFocus == Some(links[i].component)
        ensures Dangles(links, Removed(i))
      {
        var k: nat := if j < i then j else j - 1;
        assert Back(i, k) == j && After(links, Removed(i))[k].preFocus == Some(links[i].component);
      }
    }
  }

  // ----- removing keeps walks apart -----

  /** Where a walk goes on that would have come to the removed overlay. */
  function Skip(links: seq<Link>, i: nat, c: Option<Component>): Option<Component>
    requires i < |links|
  {
    if c == Some(links[i].component) then links[i].preFocus else c
  }

  lemma NextWithout(links: seq<Link>, i: nat, c: Component)
    requires Distinct(links) && i < |links| && c != links[i].component
    ensures Next(Without(links, i), c) == Skip(links, i, Next(links, c))
  {
    var r := Without(links, i);
    var k := FirstLink(links, c);
    if k < |links| {
      assert k != i;
      var l: nat := if k < i then k else k - 1;
      assert Back(i, l) == k && r[l].component == c;
      assert Distinct(r) by { WithoutDistinct(links, i); }
      NextIs(r, l);
    }
  }

  lemma WithoutDistinct(links: seq<Link>, i: nat)
    requires Distinct(links) && i < |links|
    ensures Distinct(Without(links, i))
  {
  }

  /** A walk after a removal passes only where the walk before it passed. */
  lemma {:induction false} WalkWithout(links: seq<Link>, i: nat, start: Option<Component>, n: nat)
    requires Distinct(links) && i < |links| && links[i].preFocus != Some(links[i].component)
    ensures var c := Walk(Without(links, i), Skip(links, i, start), n);
      c.Some? ==> c.value != links[i].component && OnWalk(links, start, c.value)
    decreases n
  {
    var r, s := Without(links, i), Skip(links, i, start);
    if n == 0 {
      assert Walk(links, start, 0) == start;
      if start == Some(links[i].component) {
        NextIs(links, i);
        assert Walk(links, start, 1) == links[i].preFocus;
      }
    } else {
      WalkWithout(links, i, start, n - 1);
      var c := Walk(r, s, n - 1);
      if c.Some? {
        NextWithout(links, i, c.value);
        var m: nat :| Walk(links, start, m) == Some(c.value);
        assert Walk(links, start, m + 1) == Next(links, c.value);
        if Next(links, c.value) == Some(links[i].component) {
          NextIs(links, i);
          assert Walk(links, start, m + 2) == links[i].preFocus;
        }
      }
    }
  }

  lemma NotItself(links: seq<Link>, i: nat)
    requires Acyclic(links) && i < |links|
    ensures links[i].preFocus != Some(links[i].component)
  {
    assert Walk(links, links[i].preFocus, 0) == links[i].preFocus;
  }

  lemma RemovalStaysSound(links: seq<Link>, i: nat)
    requires Sound(links) && i < |links|
    ensures Sound(Without(links, i)) && !Dangles(links, Removed(i))
  {
    var r := Without(links, i);
    NotItself(links, i);
    DanglesWhen(links, i);
    WithoutDistinct(links, i);
    forall k | 0 <= k < |r| ensures !OnWalk(r, r[k].preFocus, r[k].component) {
      var j := Back(i, k);
      forall n: nat ensures Walk(r, r[k].preFocus, n) != Some(r[k].component) {
        WalkWithout(links, i, links[j].preFocus, n);
      }
    }
  }

  // ----- showing on the end of a chain -----

  lemma NextShown(links: seq<Link>, shown: Link, c: Component)
    requires !Shows(links, shown.component)
    ensures Next(links + [shown], c) == if c == shown.component then shown.preFocus else Next(links, c)
  {
    FirstJoin(links, shown, c);
  }

  lemma {:induction false} FirstJoin(links: seq<Link>, shown: Link, c: Component)
    ensures FirstLink(links + [shown], c) ==
      if FirstLink(links, c) < |links| then FirstLink(links, c)
      else if c == shown.component then |links| else |links| + 1
    decreases |links|
  {
    if links != [] {
      assert (links + [shown])[1..] == links[1..] + [shown];
      FirstJoin(links[1..], shown, c);
    }
  }

  /** As long as a walk goes on, it does not notice what is shown. */
  lemma {:induction false} WalkGoesOn(links: seq<Link>, shown: Link, start: Option<Component>, n: nat)
    requires !Shows(links, shown.component) && Walk(links, start, n).Some?
    ensures Walk(links + [shown], start, n) == Walk(links, start, n)
    decreases n
  {
    if n > 0 {
      WalkGoesOn(links, shown, start, n - 1);
      NextShown(links, shown, Walk(links, start, n - 1).value);
    }
  }

  lemma {:induction false} WalkPasses(links: seq<Link>, shown: Link, start: Option<Component>, n: nat)
    requires !Shows(links, shown.component) && !OnWalk(links, start, shown.component)
    ensures Walk(links + [shown], start, n) == Walk(links, start, n)
    decreases n
  {
    if n > 0 {
      WalkPasses(links, shown, start, n - 1);
      if Walk(links, start, n - 1).Some? {
        NextShown(links, shown, Walk(links, start, n - 1).value);
      }
    }
  }

  lemma {:induction false} WalkBegins(links: seq<Link>, start: Option<Component>, m: nat, n: nat)
    requires m <= n && Walk(links, start, n).Some?
    ensures Walk(links, start, m).Some?
    decreases n
  {
    if m < n {
      WalkBegins(links, start, m, n - 1);
    }
  }

  /** Nothing that was there gets its focus back from itself through what is shown. */
  lemma ShownApart(links: seq<Link>, shown: Link, i: nat, n: nat)
    requires Sound(links) && !Shows(links, shown.component) && !OnWalk(links, shown.preFocus, shown.component)
    requires i < |links|
    ensures Walk(links + [shown], links[i].preFocus, n) != Some(links[i].component)
  {
    hide Walk, Next;
    var all, start, d := links + [shown], links[i].preFocus, links[i].component;
    if OnWalk(links, start, shown.component) {
      var m: nat :| Walk(links, start, m) == Some(shown.component);
      if n <= m {
        WalkBegins(links, start, n, m);
        WalkGoesOn(links, shown, start, n);
      } else {
        WalkGoesOn(links, shown, start, m);
        WalkJoin(all, start, m, n - m);
        WalkFront(all, shown.component, n - m - 1);
        NextShown(links, shown, shown.component);
        WalkPasses(links, shown, shown.preFocus, n - m - 1);
        if Walk(links, shown.preFocus, n - m - 1) == Some(d) {
          NextIs(links, i);
          WalkFront(links, d, m);
          WalkJoin(links, shown.preFocus, n - m - 1, m + 1);
          assert false;
        }
      }
    } else {
      WalkPasses(links, shown, start, n);
    }
  }

  /** Showing a component keeps the links sound exactly if the focus would not come back to it. */
  lemma ShownStaysSound(links: seq<Link>, c: Component, over: Option<Component>)
    requires Sound(links) && !Shows(links, c)
    ensures Sound(After(links, Shown(c, over))) <==> !OnWalk(links, over, c)
  {
    var shown := Link(c, over);
    var all := links + [shown];
    assert Distinct(all);
    assert all[|links|] == shown;
    if OnWalk(links, over, c) {
      var n: nat :| Walk(links, over, n) == Some(c);
      WalkGoesOn(links, shown, over, n);
      assert OnWalk(all, all[|links|].preFocus, all[|links|].component);
    } else {
      forall k | 0 <= k < |all| ensures !OnWalk(all, all[k].preFocus, all[k].component) {
        forall n: nat ensures Walk(all, all[k].preFocus, n) != Some(all[k].component) {
          if k < |links| {
            ShownApart(links, shown, k, n);
          } else {
            WalkPasses(links, shown, over, n);
          }
        }
      }
    }
  }

  // ----- histories -----

  ghost predicate AllProper(links: seq<Link>, changes: seq<Change>)
    decreases |changes|
  {
    changes != [] ==> Proper(links, changes[0]) && AllProper(After(links, changes[0]), changes[1..])
  }

  function AfterAll(links: seq<Link>, changes: seq<Change>): seq<Link>
    decreases |changes|
  {
    if changes == [] then links else AfterAll(After(links, changes[0]), changes[1..])
  }

  /** No removal of the history leaves an overlay pointing at what it removed. */
  predicate NothingDangles(links: seq<Link>, changes: seq<Change>)
    decreases |changes|
  {
    changes != [] ==>
      !Dangles(links, changes[0]) && NothingDangles(After(links, changes[0]), changes[1..])
  }

  lemma ProperStaysSound(links: seq<Link>, change: Change)
    requires Sound(links) && Proper(links, change)
    ensures Sound(After(links, change)) && !Dangles(links, change)
  {
    match change
    case Shown(c, over) => ShownStaysSound(links, c, over);
    case Removed(i) => if i < |links| { RemovalStaysSound(links, i); }
    case Neither =>
  }

  lemma {:induction false} SoundHistory(links: seq<Link>, changes: seq<Change>)
    requires Sound(links) && AllProper(links, changes)
    ensures NothingDangles(links, changes) && Sound(AfterAll(links, changes))
    decreases |changes|
  {
    hide Sound, Dangles;
    if changes != [] {
      ProperStaysSound(links, changes[0]);
      SoundHistory(After(links, changes[0]), changes[1..]);
    }
  }

  // ----- what a cycle leads to -----

  /** What a walk reaches, a walk after a removal reaches no later. */
  lemma {:induction false} Shortcut(links: seq<Link>, j: nat, start: Option<Component>, n: nat, d: Component)
      returns (m: nat)
    requires Distinct(links) && j < |links| && links[j].preFocus != Some(links[j].component)
    requires Walk(links, start, n) == Some(d) && d != links[j].component
    ensures m <= n && Walk(Without(links, j), Skip(links, j, start), m) == Some(d)
    decreases n
  {
    hide Walk, Next, Without;
    m := 0;
    WalkNowhere(links, start);
    WalkNowhere(Without(links, j), Skip(links, j, start));
    if n > 0 {
      WalkBegins(links, start, 0, n);
      WalkFront(links, start.value, n - 1);
      m := Shortcut(links, j, Next(links, start.value), n - 1, d);
      if start.value == links[j].component {
        NextIs(links, j);
      } else {
        NextWithout(links, j, start.value);
        WalkFront(Without(links, j), start.value, m);
        m := m + 1;
      }
    }
  }

  function Unused(links: seq<Link>): (c: Component)
    ensures !Shows(links, c)
    ensures forall i :: 0 <= i < |links| ==> links[i].component < c
  {
    if links == [] then 0
    else
      var c, last := Unused(links[..|links| - 1]), links[|links| - 1].component;
      assert forall i :: 0 <= i < |links| - 1 ==> links[..|links| - 1][i] == links[i];
      if c <= last then last + 1 else c
  }

  lemma {:induction false} WalkOnSpot(links: seq<Link>, c: Component, n: nat)
    requires Next(links, c) == Some(c)
    ensures Walk(links, Some(c), n) == Some(c)
    decreases n
  {
    if n > 0 {
      WalkOnSpot(links, c, n - 1);
    }
  }

  /** An overlay that points at itself: show another over it, and take it away. */
  lemma SelfDangles(links: seq<Link>, i: nat) returns (changes: seq<Change>)
    requires Distinct(links) && i < |links| && links[i].preFocus == Some(links[i].component)
    ensures AllProper(links, changes) && !NothingDangles(links, changes)
  {
    var c, d := links[i].component, Unused(links);
    var show, remove := Shown(d, Some(c)), Removed(i);
    NextIs(links, i);
    forall n: nat ensures Walk(links, Some(c), n) != Some(d) {
      WalkOnSpot(links, c, n);
    }
    var all := After(links, show);
    assert all[i] == links[i] && all[|links|].preFocus == Some(c);
    DanglesWhen(all, i);
    changes := [show, remove];
    assert changes[1..] == [remove] && changes[1..][1..] == [];
  }

  lemma DanglesLater(links: seq<Link>, change: Change, rest: seq<Change>)
    requires Proper(links, change) && AllProper(After(links, change), rest)
    requires !NothingDangles(After(links, change), rest)
    ensures AllProper(links, [change] + rest) && !NothingDangles(links, [change] + rest)
  {
    assert ([change] + rest)[1..] == rest;
  }

  /** Links with a cycle: take away the overlays on it, until one points at itself. */
  lemma {:induction false} CycleDangles(links: seq<Link>, i: nat, n: nat) returns (changes: seq<Change>)
    requires Distinct(links) && i < |links| && Walk(links, links[i].preFocus, n) == Some(links[i].component)
    ensures AllProper(links, changes) && !NothingDangles(links, changes)
    decreases n
  {
    hide Walk, Without, AllProper, NothingDangles, Distinct;
    WalkNowhere(links, links[i].preFocus);
    WalkBegins(links, links[i].preFocus, 0, n);
    var p := links[i].preFocus.value;
    if p == links[i].component {
      changes := SelfDangles(links, i);
      return;
    }
    WalkFront(links, p, n - 1);
    WalkNowhere(links, Next(links, p));
    WalkBegins(links, Next(links, p), 0, n - 1);
    var j := FirstLink(links, p);
    if links[j].preFocus == Some(p) {
      changes := SelfDangles(links, j);
      return;
    }
    var m := Shortcut(links, j, links[j].preFocus, n - 1, links[i].component);
    WithoutDistinct(links, j);
    var k: nat := if i < j then i else i - 1;
    assert Back(j, k) == i;
    var rest := CycleDangles(Without(links, j), k, m);
    changes := [Removed(j)] + rest;
    DanglesLater(links, Removed(j), rest);
  }

  /** However the history goes on, nothing dangles, exactly if there is no cycle. */
  lemma SafeExactlyIfAcyclic(links: seq<Link>)
    requires Distinct(links)
    ensures Acyclic(links) <==> forall changes :: AllProper(links, changes) ==> NothingDangles(links, changes)
  {
    hide AllProper, NothingDangles;
    if Acyclic(links) {
      forall changes | AllProper(links, changes) ensures NothingDangles(links, changes) {
        SoundHistory(links, changes);
      }
    } else {
      var i: nat :| i < |links| && OnWalk(links, links[i].preFocus, links[i].component);
      var n: nat :| Walk(links, links[i].preFocus, n) == Some(links[i].component);
      var changes := CycleDangles(links, i, n);
    }
  }
}
