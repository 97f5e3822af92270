/** One session's event stream: numbered frames, a ring of the recent ones, and clients that come back. */
module EventStream {
  import opened Options

  const RING_SIZE := 256

  datatype Item = Item(id: nat, frame: string)

  datatype Delivery = Live(item: Item) | Replayed(item: Item)

  /** A client that attached: its watermark, its `Last-Event-ID` if that is a number, where its replay stands in
      the ring (`None` when it is over), and what was written to it. */
  datatype Client = Client(watermark: nat, after: Option<real>, replayAt: Option<nat>, received: seq<Delivery>)

  predicate Wanted(c: Client, id: nat) {
    c.after.Some? && id as real > c.after.value && id <= c.watermark
  }

  /** What the replay of a client may give that attached when `low` was the smallest id in the ring. */
  predicate Replayable(c: Client, low: int, id: nat) {
    Wanted(c, id) && id >= low
  }

  /** Replayed ids increase strictly, lie between `Last-Event-ID` and the watermark, and were in the ring; live ids
      are distinct. */
  ghost predicate Orderly(c: Client, low: int) {
    && (forall i :: 0 <= i < |c.received| && c.received[i].Replayed? ==> Replayable(c, low, c.received[i].item.id))
    && (forall i, j :: 0 <= i < j < |c.received| && c.received[i].Replayed? && c.received[j].Replayed? ==>
          c.received[i].item.id < c.received[j].item.id)
    && (forall i, j :: 0 <= i < j < |c.received| && c.received[i].Live? && c.received[j].Live? ==>
          c.received[i].item.id != c.received[j].item.id)
  }

  /** Nothing the client got live could have been replayed to it. */
  ghost predicate Apart(c: Client, low: int) {
    forall i :: 0 <= i < |c.received| && c.received[i].Live? ==> !Replayable(c, low, c.received[i].item.id)
  }

  ghost predicate LivesAbove(c: Client) {
    forall i :: 0 <= i < |c.received| && c.received[i].Live? ==> c.received[i].item.id > c.watermark
  }

  ghost predicate NoIdTwice(c: Client) {
    forall i, j :: 0 <= i < j < |c.received| ==> c.received[i].item.id != c.received[j].item.id
  }

  ghost predicate HasLive(c: Client, id: nat) {
    exists i :: 0 <= i < |c.received| && c.received[i].Live? && c.received[i].item.id == id
  }

  ghost predicate HasReplayed(c: Client, id: nat) {
    exists i :: 0 <= i < |c.received| && c.received[i].Replayed? && c.received[i].item.id == id
  }

  /** A broadcast that waits for a client: its frame, and where its walk over the clients stands. */
  datatype Walk = Walk(frame: string, position: nat)

  /** What is kept for the specification of one client: whether it attached while no broadcast was suspended, or
      none that its replay might give; the smallest id that was in the ring; whether its replay saw an entry leave
      the ring; and which ids it asked for that the ring held. */
  datatype Notes = Notes(clean: bool, safe: bool, low: int, disturbed: bool, owed: set<nat>)

  /** Whatever a client got is a frame under its own number. */
  ghost predicate Genuine(frames: seq<string>, c: Client) {
    forall i :: 0 <= i < |c.received| ==>
      var item := c.received[i].item; 1 <= item.id <= |frames| && item.frame == frames[item.id - 1]
  }

  /** A suspended broadcast has not served the clients its walk still has before it. */
  ghost predicate WalksOk(suspended: map<nat, Walk>, k: nat, c: Client) {
    forall b :: b in suspended && HasLive(c, b) ==> k < suspended[b].position
  }

  /** A replay goes on above what it gave. `bottom` is the smallest id in the ring. */
  ghost predicate ReplayOk(bottom: int, c: Client) {
    c.replayAt.Some? ==>
      forall i :: 0 <= i < |c.received| && c.received[i].Replayed? ==>
        c.received[i].item.id < bottom + c.replayAt.value
  }

  /** An undisturbed replay has given what it owes, save what it has still to come to. */
  ghost predicate OwedOk(bottom: int, top: nat, c: Client, n: Notes) {
    !n.disturbed ==>
      forall id :: id in n.owed ==> Wanted(c, id) && (HasReplayed(c, id) || Ahead(bottom, top, c, id))
  }

  predicate Ahead(bottom: int, top: nat, c: Client, id: nat) {
    c.replayAt.Some? && bottom + c.replayAt.value <= id <= top
  }

  ghost predicate ClientOk(bottom: int, frames: seq<string>, suspended: map<nat, Walk>, k: nat, c: Client, n: Notes) {
    && c.watermark <= |frames| && Genuine(frames, c) && WalksOk(suspended, k, c) && ReplayOk(bottom, c)
    && OwedOk(bottom, |frames|, c, n) && n.low <= bottom && Orderly(c, n.low)
    && (n.clean ==> LivesAbove(c) && forall b :: b in suspended ==> b > c.watermark)
    && (n.safe ==> Apart(c, n.low) && NoneReplayable(c, n.low, suspended))
  }

  /** No suspended broadcast is of a frame that the client's replay might give. */
  predicate NoneReplayable(c: Client, low: int, suspended: map<nat, Walk>) {
    forall b :: b in suspended ==> !Replayable(c, low, b)
  }

  /** The ring holds the last at most 256 frames, numbered contiguously up to the last. */
  ghost predicate RingOk(frames: seq<string>, ring: seq<Item>) {
    && |ring| == (if |frames| < RING_SIZE then |frames| else RING_SIZE)
    && forall i :: 0 <= i < |ring| ==> ring[i] == Item(|frames| - |ring| + 1 + i, frames[|frames| - |ring| + i])
  }

  function Push(ring: seq<Item>, item: Item): seq<Item> {
    if |ring| + 1 > RING_SIZE then (ring + [item])[1..] else ring + [item]
  }

  lemma PushKeeps(frames: seq<string>, ring: seq<Item>, frame: string)
    requires RingOk(frames, ring)
    ensures RingOk(frames + [frame], Push(ring, Item(|frames| + 1, frame)))
  {
    var after, pushed := frames + [frame], Push(ring, Item(|frames| + 1, frame));
    var dropped := |ring| + 1 - |pushed|;
    forall i | 0 <= i < |pushed|
      ensures pushed[i] == Item(|after| - |pushed| + 1 + i, after[|after| - |pushed| + i])
    {
      assert pushed[i] == (ring + [Item(|frames| + 1, frame)])[dropped + i];
    }
  }

  /** Numbering a frame disturbs a replay only by pushing an entry out of the ring. */
  lemma NumberKeeps(bottom: int, frames: seq<string>, suspended: map<nat, Walk>, k: nat, c: Client, n: Notes,
                    frame: string, evicts: bool)
    requires ClientOk(bottom, frames, suspended, k, c, n)
    ensures ClientOk(if evicts then bottom + 1 else bottom, frames + [frame],
                     suspended[|frames| + 1 := Walk(frame, 0)], k, c,
                     n.(disturbed := n.disturbed || (evicts && c.replayAt.Some?)))
  {
    hide Orderly;
    assert !HasLive(c, |frames| + 1);
  }

  // ----- one more delivery -----

  function With(c: Client, x: Delivery): Client {
    c.(received := c.received + [x])
  }

  lemma HasWith(c: Client, x: Delivery, id: nat)
    ensures HasLive(With(c, x), id) <==> HasLive(c, id) || (x.Live? && x.item.id == id)
    ensures HasReplayed(With(c, x), id) <==> HasReplayed(c, id) || (x.Replayed? && x.item.id == id)
  {
    var d := With(c, x);
    assert d.received[|c.received|] == x;
    assert forall i :: 0 <= i < |c.received| ==> d.received[i] == c.received[i];
  }

  lemma OrderlyWith(c: Client, x: Delivery, low: int)
    requires Orderly(c, low)
    requires x.Live? ==> !HasLive(c, x.item.id)
    requires x.Replayed? ==> Replayable(c, low, x.item.id) && forall id: nat :: HasReplayed(c, id) ==> id < x.item.id
    ensures Orderly(With(c, x), low)
  {
    assert forall i :: 0 <= i < |c.received| ==> With(c, x).received[i] == c.received[i];
    forall i | 0 <= i < |c.received| && c.received[i].Replayed? && x.Replayed?
      ensures c.received[i].item.id < x.item.id
    {
      assert HasReplayed(c, c.received[i].item.id);
    }
  }

  lemma GenuineWith(frames: seq<string>, c: Client, x: Delivery)
    requires Genuine(frames, c) && 1 <= x.item.id <= |frames| && x.item.frame == frames[x.item.id - 1]
    ensures Genuine(frames, With(c, x))
  {
  }

  lemma LivesWith(c: Client, x: Delivery, low: int)
    ensures LivesAbove(With(c, x)) <==> LivesAbove(c) && (x.Live? ==> x.item.id > c.watermark)
    ensures Apart(With(c, x), low) <==> Apart(c, low) && (x.Live? ==> !Replayable(c, low, x.item.id))
  {
    var d := With(c, x);
    assert d.received[|c.received|] == x;
    assert forall i :: 0 <= i < |c.received| ==> d.received[i] == c.received[i];
  }

  /** A broadcast that comes to a member serves it once. */
  lemma LiveKeeps(bottom: int, frames: seq<string>, suspended: map<nat, Walk>, k: nat, c: Client, n: Notes, b: nat)
    requires ClientOk(bottom, frames, suspended, k, c, n)
    requires b in suspended && 1 <= b <= |frames| && suspended[b].frame == frames[b - 1] && suspended[b].position <= k
    ensures ClientOk(bottom, frames, suspended[b := suspended[b].(position := k + 1)], k,
                     With(c, Live(Item(b, suspended[b].frame))), n)
  {
    var x := Live(Item(b, suspended[b].frame));
    OrderlyWith(c, x, n.low);
    GenuineWith(frames, c, x);
    LivesWith(c, x, n.low);
    forall id ensures HasLive(With(c, x), id) <==> HasLive(c, id) || id == b
              ensures HasReplayed(With(c, x), id) <==> HasReplayed(c, id) {
      HasWith(c, x, id);
    }
    hide Orderly, Genuine, LivesAbove, Apart, HasLive, HasReplayed;
    ReplayWith(bottom, c, x);
  }

  lemma ReplayWith(bottom: int, c: Client, x: Delivery)
    requires ReplayOk(bottom, c) && x.Live?
    ensures ReplayOk(bottom, With(c, x))
  {
  }

  /** A broadcast that moves on, or ends, leaves every client as it was. */
  lemma WalkKeeps(bottom: int, frames: seq<string>, suspended: map<nat, Walk>, later: map<nat, Walk>, k: nat,
                  c: Client, n: Notes)
    requires ClientOk(bottom, frames, suspended, k, c, n)
    requires forall b :: b in later ==> b in suspended && suspended[b].position <= later[b].position
    ensures ClientOk(bottom, frames, later, k, c, n)
  {
  }

  lemma AboveReplayed(bottom: int, c: Client, i: nat)
    requires ReplayOk(bottom, c) && c.replayAt.Some? && c.replayAt.value <= i
    ensures forall id: nat :: HasReplayed(c, id) ==> id < bottom + i
  {
    forall id: nat | HasReplayed(c, id) ensures id < bottom + i {
      var j :| 0 <= j < |c.received| && c.received[j].Replayed? && c.received[j].item.id == id;
    }
  }

  lemma ReplayGoesOn(bottom: int, c: Client, i: nat, item: Item)
    requires ReplayOk(bottom, c) && c.replayAt.Some? && c.replayAt.value <= i && item.id == bottom + i
    ensures ReplayOk(bottom, With(c, Replayed(item)).(replayAt := Some(i + 1)))
  {
  }

  lemma OwedGoesOn(bottom: int, top: nat, c: Client, n: Notes, i: nat, item: Item)
    requires OwedOk(bottom, top, c, n) && c.replayAt.Some? && c.replayAt.value <= i && item.id == bottom + i
    requires forall id: nat :: bottom + c.replayAt.value <= id < bottom + i ==> !Wanted(c, id)
    ensures OwedOk(bottom, top, With(c, Replayed(item)).(replayAt := Some(i + 1)), n)
  {
    hide HasReplayed, With;
    var d := With(c, Replayed(item)).(replayAt := Some(i + 1));
    if !n.disturbed {
      forall id | id in n.owed ensures Wanted(d, id) && (HasReplayed(d, id) || Ahead(bottom, top, d, id)) {
        HasWith(c, Replayed(item), id);
        SameHas(With(c, Replayed(item)), d, id);
        WantedWith(c, Replayed(item), Some(i + 1), id);
      }
    }
  }

  lemma WantedWith(c: Client, x: Delivery, replayAt: Option<nat>, id: nat)
    ensures Wanted(With(c, x).(replayAt := replayAt), id) == Wanted(c, id)
  {
  }

  lemma SameHas(c: Client, d: Client, id: nat)
    requires d.received == c.received
    ensures (HasLive(c, id) <==> HasLive(d, id)) && (HasReplayed(c, id) <==> HasReplayed(d, id))
  {
  }

  lemma WalksGoOn(suspended: map<nat, Walk>, k: nat, c: Client, x: Delivery, replayAt: Option<nat>)
    requires WalksOk(suspended, k, c) && x.Replayed?
    ensures WalksOk(suspended, k, With(c, x).(replayAt := replayAt))
  {
    hide HasLive, HasReplayed, With;
    var d := With(c, x).(replayAt := replayAt);
    forall b | b in suspended && HasLive(d, b) ensures k < suspended[b].position {
      HasWith(c, x, b);
      SameHas(With(c, x), d, b);
    }
  }

  /** A replay gives the next entry it wants, above all it gave. */
  lemma ReplayGives(bottom: int, frames: seq<string>, suspended: map<nat, Walk>, k: nat, c: Client, n: Notes,
                    i: nat, item: Item)
    requires ClientOk(bottom, frames, suspended, k, c, n) && c.replayAt.Some? && c.replayAt.value <= i
    requires 1 <= item.id == bottom + i <= |frames| && item.frame == frames[item.id - 1] && Wanted(c, item.id)
    requires forall id: nat :: bottom + c.replayAt.value <= id < bottom + i ==> !Wanted(c, id)
    ensures ClientOk(bottom, frames, suspended, k,
                     c.(replayAt := Some(i + 1), received := c.received + [Replayed(item)]), n)
  {
    hide Orderly, Genuine, LivesAbove, Apart, HasLive, HasReplayed, WalksOk, ReplayOk, OwedOk;
    var x := Replayed(item);
    var d := With(c, x).(replayAt := Some(i + 1));
    AboveReplayed(bottom, c, i);
    OrderlyWith(c, x, n.low);
    GenuineWith(frames, c, x);
    LivesWith(c, x, n.low);
    WalksGoOn(suspended, k, c, x, Some(i + 1));
    ReplayGoesOn(bottom, c, i, item);
    OwedGoesOn(bottom, |frames|, c, n, i, item);
    SameReceived(With(c, x), d, n.low, frames);
  }

  lemma SameReceived(c: Client, d: Client, low: int, frames: seq<string>)
    requires d.received == c.received && d.watermark == c.watermark && d.after == c.after
    ensures Orderly(c, low) <==> Orderly(d, low)
    ensures Genuine(frames, c) <==> Genuine(frames, d)
    ensures LivesAbove(c) <==> LivesAbove(d)
    ensures Apart(c, low) <==> Apart(d, low)
    ensures forall id :: (HasLive(c, id) <==> HasLive(d, id)) && (HasReplayed(c, id) <==> HasReplayed(d, id))
    ensures forall id :: Wanted(c, id) <==> Wanted(d, id)
  {
  }

  lemma ReplayEnds(bottom: int, frames: seq<string>, suspended: map<nat, Walk>, k: nat, c: Client, n: Notes)
    requires ClientOk(bottom, frames, suspended, k, c, n) && c.replayAt.Some?
    requires forall id: nat :: bottom + c.replayAt.value <= id <= |frames| ==> !Wanted(c, id)
    ensures ClientOk(bottom, frames, suspended, k, c.(replayAt := None), n)
  {
    SameReceived(c, c.(replayAt := None), n.low, frames);
    hide Orderly, Genuine, LivesAbove, Apart, HasLive, HasReplayed;
  }

  function Attached(after: Option<real>, watermark: nat): Client {
    Client(watermark, after, if after.Some? then Some(0) else None, [])
  }

  /** What an attaching client is owed: the ids it asks for that the ring holds. */
  ghost function Owed(c: Client, bottom: int): set<nat> {
    set id: nat | bottom <= id <= c.watermark && Wanted(c, id)
  }

  ghost function FirstNotes(c: Client, bottom: int, suspended: map<nat, Walk>): Notes {
    Notes(suspended == map[], NoneReplayable(c, bottom, suspended), bottom, false, Owed(c, bottom))
  }

  lemma FirstNotesAre(after: Option<real>, watermark: nat, bottom: int, suspended: map<nat, Walk>)
    ensures var n := FirstNotes(Attached(after, watermark), bottom, suspended);
      && (n.clean <==> suspended == map[]) && !n.disturbed && n.low == bottom
      && (forall id: nat :: id in n.owed <==> after.Some? && id as real > after.value && bottom <= id <= watermark)
      && (n.safe <==> forall b :: b in suspended ==>
            !(after.Some? && b as real > after.value && bottom <= b <= watermark))
  {
  }

  lemma AttachKeeps(bottom: int, frames: seq<string>, suspended: map<nat, Walk>, k: nat, after: Option<real>)
    ensures var c := Attached(after, |frames|);
      ClientOk(bottom, frames, suspended, k, c, FirstNotes(c, bottom, suspended))
  {
  }

  // ----- the server's side of one session -----

  /** Every step below runs without an `await` inside, so any order of calls is an interleaving of the server. */
  class Channel {
    var seqNo: nat
    var ring: seq<Item>
    /** Clients in the order they were added to the set; `members` are those still in it. */
    var clients: seq<Client>
    var members: set<nat>
    var aborted: set<nat>
    var suspended: map<nat, Walk>

    /** Every frame ever numbered, and the notes on every client. */
    ghost var frames: seq<string>
    ghost var notes: seq<Notes>

    constructor ()
      ensures Valid() && clients == [] && seqNo == 0 && suspended == map[] && members == {} && aborted == {}
      ensures ring == [] && frames == []
    {
      seqNo, ring, clients, members, aborted, suspended := 0, [], [], {}, {}, map[];
      frames, notes := [], [];
    }

    /** A replay under way is disturbed when a full ring lets go of an entry, and not otherwise. */
    twostate predicate Disturbed()
      reads this`notes, this`ring, this`clients
    {
      && |notes| == |old(notes)| == |old(clients)|
      && forall k :: 0 <= k < |notes| ==>
           (notes[k].disturbed <==> old(notes[k].disturbed) || (old(|ring|) >= 256 && old(clients[k].replayAt.Some?)))
    }

    ghost function Bottom(): int
      reads this`seqNo, this`ring
    {
      seqNo - |ring| + 1
    }

    ghost predicate Valid()
      reads this
    {
      && |frames| == seqNo && RingOk(frames, ring) && |notes| == |clients|
      && (forall m :: m in aborted ==> m < |clients|)
      && (forall b :: b in suspended ==>
            1 <= b <= seqNo && suspended[b].frame == frames[b - 1] && suspended[b].position <= |clients|)
      && (forall k :: 0 <= k < |clients| ==> ClientOk(Bottom(), frames, suspended, k, clients[k], notes[k]))
    }

    /** What no step takes back. */
    twostate predicate Grows()
      reads this
    {
      && old(frames) <= frames && |old(clients)| <= |clients|
      && (forall k :: 0 <= k < |old(clients)| ==>
            && old(clients[k].received) <= clients[k].received
            && clients[k].watermark == old(clients[k].watermark) && clients[k].after == old(clients[k].after)
            && (k < |old(notes)| && k < |notes| ==>
                  notes[k].(disturbed := true) == old(notes[k]).(disturbed := true)))
    }

    /** `broadcastToSession` up to its first `await`. */
    method Broadcast(forwarded: bool, frame: string)
      requires Valid()
      modifies this
      ensures Valid() && Grows()
      ensures !forwarded || old(members) == {} ==> unchanged(this)
      ensures forwarded && old(members) != {} ==>
        && frames == old(frames) + [frame] && seqNo == old(seqNo) + 1 && ring == Push(old(ring), Item(seqNo, frame))
        && (forall m :: m in old(members) && m !in aborted ==> m in members)
        && aborted == old(aborted) && members <= old(members) && Disturbed()
        && if seqNo in suspended
           then var k := suspended[seqNo].position - 1;
                && 0 <= k < |old(clients)| && k in members && k !in aborted
                && (forall m :: 0 <= m < k ==> m !in members)
                && suspended == old(suspended)[seqNo := Walk(frame, k + 1)]
                && clients == old(clients)[k := With(old(clients[k]), Live(Item(seqNo, frame)))]
           else suspended == old(suspended) && clients == old(clients)
                && forall m :: 0 <= m < |clients| ==> m !in members
    {
      hide Valid;
      if !forwarded || members == {} {
        return;
      }
      Unnumbered();
      Number(frame);
      Visit(seqNo);
    }

    lemma Unnumbered()
      requires Valid()
      ensures seqNo + 1 !in suspended
    {
    }

    /** Give a frame the next number and put it into the ring. */
    method Number(frame: string)
      requires Valid()
      modifies this`seqNo, this`ring, this`suspended, this`frames, this`notes
      ensures Valid() && Grows() && frames == old(frames) + [frame] && seqNo == old(seqNo) + 1
      ensures ring == Push(old(ring), Item(seqNo, frame)) && Disturbed()
      ensures suspended == old(suspended)[seqNo := Walk(frame, 0)]
    {
      hide ClientOk, RingOk;
      ghost var evicts := |ring| + 1 > RING_SIZE;
      PushKeeps(frames, ring, frame);
      forall k | 0 <= k < |clients|
        ensures ClientOk(if evicts then Bottom() + 1 else Bottom(), frames + [frame],
                         suspended[|frames| + 1 := Walk(frame, 0)], k, clients[k],
                         Disturb(notes[k], clients[k], evicts))
      {
        NumberKeeps(Bottom(), frames, suspended, k, clients[k], notes[k], frame, evicts);
      }
      seqNo := seqNo + 1;
      ring := ring + [Item(seqNo, frame)];
      if |ring| > RING_SIZE {
        ring := ring[1..];
      }
      suspended := suspended[seqNo := Walk(frame, 0)];
      frames := frames + [frame];
      notes := seq(|notes|, k requires 0 <= k < |notes| && |notes| == |clients| reads this =>
                              Disturb(notes[k], clients[k], evicts));
    }

    /** A broadcast goes on with its walk: it serves the next member, and waits for it, or comes to its end. */
    method Visit(b: nat)
      requires Valid() && b in suspended
      modifies this`clients, this`members, this`suspended
      ensures Valid() && Grows() && frames == old(frames) && |clients| == |old(clients)|
      ensures members <= old(members) && forall m :: m in old(members) && m !in aborted ==> m in members
      ensures if b in suspended
              then var k := suspended[b].position - 1;
                   && old(suspended[b].position) <= k < |clients| && k in members && k !in aborted
                   && suspended == old(suspended)[b := Walk(old(suspended[b].frame), k + 1)]
                   && clients == old(clients)[k := With(old(clients[k]), Live(Item(b, old(suspended[b].frame))))]
                   && forall m :: old(suspended[b].position) <= m < k ==> m !in members
              else suspended == old(suspended) - {b} && clients == old(clients)
                   && forall m :: old(suspended[b].position) <= m < |clients| ==> m !in members
    {
      hide ClientOk, RingOk;
      var walk := suspended[b];
      var k := walk.position;
      while k < |clients|
        invariant walk.position <= k
        invariant members <= old(members) && forall m :: m in old(members) && m !in aborted ==> m in members
        invariant forall m :: walk.position <= m < k ==> m !in members
        invariant clients == old(clients) && suspended == old(suspended)
      {
        if k in members {
          if k in aborted {
            members := members - {k};
          } else {
            break;
          }
        }
        k := k + 1;
      }
      if k < |clients| {
        Serve(b, k);
      } else {
        forall j | 0 <= j < |clients| ensures ClientOk(Bottom(), frames, suspended - {b}, j, clients[j], notes[j]) {
          WalkKeeps(Bottom(), frames, suspended, suspended - {b}, j, clients[j], notes[j]);
        }
        suspended := suspended - {b};
      }
    }

    method Serve(b: nat, k: nat)
      requires Valid() && b in suspended && suspended[b].position <= k < |clients|
      modifies this`clients, this`suspended
      ensures Valid() && Grows()
      ensures suspended == old(suspended)[b := Walk(old(suspended[b].frame), k + 1)]
      ensures clients == old(clients)[k := With(old(clients[k]), Live(Item(b, old(suspended[b].frame))))]
    {
      hide ClientOk, RingOk;
      ghost var later := suspended[b := suspended[b].(position := k + 1)];
      forall j | 0 <= j < |clients| && j != k ensures ClientOk(Bottom(), frames, later, j, clients[j], notes[j]) {
        WalkKeeps(Bottom(), frames, suspended, later, j, clients[j], notes[j]);
      }
      LiveKeeps(Bottom(), frames, suspended, k, clients[k], notes[k], b);
      clients := clients[k := With(clients[k], Live(Item(b, suspended[b].frame)))];
      suspended := suspended[b := Walk(suspended[b].frame, k + 1)];
    }

    /** A client attaches: it joins, notes its watermark, and starts its replay if it named a number. */
    method Attach(after: Option<real>, alreadyAborted: bool) returns (k: nat)
      requires Valid()
      modifies this
      ensures Valid() && Grows() && k == |old(clients)| && |clients| == k + 1 && k in members
      ensures clients[..k] == old(clients) && suspended == old(suspended) && frames == old(frames) && ring == old(ring)
      ensures members == old(members) + {k} && aborted == old(aborted) + if alreadyAborted then {k} else {}
      ensures clients[k].watermark == seqNo == old(seqNo) && clients[k].after == after
      ensures var n := notes[k];
        && (n.clean <==> old(suspended) == map[]) && !n.disturbed && n.low == Bottom()
        && (forall id: nat :: id in n.owed <==> after.Some? && id as real > after.value && Bottom() <= id <= seqNo)
        && (n.safe <==> forall b :: b in old(suspended) ==>
              !(after.Some? && b as real > after.value && Bottom() <= b <= seqNo))
      ensures after.None? ==> clients[k] == Attached(after, seqNo)
      ensures after.Some? ==> GoneOn(ring, Attached(after, seqNo), clients[k])
    {
      hide ClientOk, RingOk, Valid, GoneOn, FirstNotes;
      FirstNotesAre(after, seqNo, Bottom(), suspended);
      k := Join(after, alreadyAborted);
      if after.Some? {
        ReplayOn(k);
      }
    }

    method Join(after: Option<real>, alreadyAborted: bool) returns (k: nat)
      requires Valid()
      modifies this`clients, this`members, this`aborted, this`notes
      ensures Valid() && Grows() && k == |old(clients)| && clients == old(clients) + [Attached(after, seqNo)]
      ensures members == old(members) + {k} && aborted == old(aborted) + if alreadyAborted then {k} else {}
      ensures k < |notes| && notes[k] == FirstNotes(Attached(after, seqNo), Bottom(), suspended)
    {
      hide ClientOk, RingOk, FirstNotes;
      k := |clients|;
      AttachKeeps(Bottom(), frames, suspended, k, after);
      clients := clients + [Attached(after, seqNo)];
      members := members + {k};
      if alreadyAborted {
        aborted := aborted + {k};
      }
      notes := notes + [FirstNotes(Attached(after, seqNo), Bottom(), suspended)];
    }

    /** The replay goes on to the next entry its client wants, and waits, or comes to its end. The ring it walks is
        the ring as it is now. */
    method ReplayOn(k: nat)
      requires Valid() && k < |clients| && clients[k].replayAt.Some?
      modifies this`clients
      ensures Valid() && Grows() && clients == old(clients)[k := clients[k]]
      ensures GoneOn(ring, old(clients[k]), clients[k])
    {
      hide ClientOk;
      var c := clients[k];
      var i := c.replayAt.value;
      while i < |ring| && !Wanted(c, ring[i].id)
        invariant c.replayAt.value <= i
        invariant forall j :: c.replayAt.value <= j < i && j < |ring| ==> !Wanted(c, ring[j].id)
        decreases |ring| - i
      {
        i := i + 1;
      }
      forall id: nat | Bottom() + c.replayAt.value <= id < Bottom() + i && id <= seqNo ensures !Wanted(c, id) {
        assert ring[id - Bottom()].id == id;
      }
      if i < |ring| {
        ReplayGives(Bottom(), frames, suspended, k, c, notes[k], i, ring[i]);
        clients := clients[k := c.(replayAt := Some(i + 1), received := c.received + [Replayed(ring[i])])];
      } else {
        ReplayEnds(Bottom(), frames, suspended, k, c, notes[k]);
        clients := clients[k := c.(replayAt := None)];
      }
    }

    /** A client goes away. */
    method Detach(k: nat)
      requires Valid() && k < |clients|
      modifies this`members, this`aborted
      ensures Valid() && Grows() && members == old(members) - {k} && aborted == old(aborted) + {k}
    {
      hide ClientOk, RingOk;
      members := members - {k};
      aborted := aborted + {k};
    }

    /** What is replayed to a client increases strictly, above its `Last-Event-ID` and up to its watermark, and is
        genuine. A client that attached while no broadcast was suspended of a frame that it wants and the ring
        holds never gets an id twice; if none was suspended at all, what it gets live lies above its watermark. */
    lemma NoDoubleDelivery(k: nat)
      requires Valid() && k < |clients|
      ensures var c := clients[k];
        && Orderly(c, notes[k].low)
        && (notes[k].clean ==> LivesAbove(c))
        && (notes[k].clean || notes[k].safe ==> NoIdTwice(c))
        && (forall i :: 0 <= i < |c.received| ==>
              var item := c.received[i].item; 1 <= item.id <= |frames| && item.frame == frames[item.id - 1])
        && (forall i :: 0 <= i < |c.received| && c.received[i].Replayed? ==>
              c.after.Some? && c.received[i].item.id as real > c.after.value && c.received[i].item.id <= c.watermark)
    {
      hide RingOk;
    }

    /** A replay that ended without an entry leaving the ring meanwhile has given everything it was asked for. */
    lemma ReplayComplete(k: nat)
      requires Valid() && k < |clients| && clients[k].replayAt.None? && !notes[k].disturbed
      ensures forall id :: id in notes[k].owed ==> HasReplayed(clients[k], id)
    {
    }

    lemma RingIsContiguous()
      requires Valid()
      ensures |ring| == (if seqNo < 256 then seqNo else 256)
      ensures forall i :: 0 <= i < |ring| ==> ring[i].id == seqNo - |ring| + 1 + i
      ensures ring != [] ==> ring[|ring| - 1].id == seqNo
    {
    }
  }

  /** One step of a replay: the next wanted entry of the ring is given, or there is none and it is over. */
  ghost predicate GoneOn(ring: seq<Item>, c: Client, d: Client)
    requires c.replayAt.Some?
  {
    if d.replayAt.Some? then
      var i := d.replayAt.value - 1;
      && c.replayAt.value <= i < |ring| && Wanted(c, ring[i].id)
      && (forall j :: c.replayAt.value <= j < i ==> !Wanted(c, ring[j].id))
      && d == c.(replayAt := Some(i + 1), received := c.received + [Replayed(ring[i])])
    else
      && (forall j :: c.replayAt.value <= j < |ring| ==> !Wanted(c, ring[j].id))
      && d == c.(replayAt := None)
  }

  /** A client that attaches while a broadcast is suspended may get that frame twice: from the ring, and from the
      walk that comes to it after all. */
  method SuspendedBroadcastRepeats(frame: string) returns (channel: Channel, k: nat)
    ensures channel.Valid() && k < |channel.clients| && !channel.notes[k].clean
    ensures channel.clients[k].received == [Replayed(Item(1, frame)), Live(Item(1, frame))]
  {
    hide Channel.Grows, ClientOk, RingOk, Owed, Channel.Valid;
    channel := new Channel();
    var first := channel.Attach(None, false);
    channel.Broadcast(true, frame);
    assert channel.suspended == map[1 := Walk(frame, 1)] && channel.ring == [Item(1, frame)];
    k := channel.Attach(Some(0.0), false);
    assert Wanted(Attached(Some(0.0), 1), channel.ring[0].id);
    assert channel.clients[1].received == [Replayed(Item(1, frame))];
    channel.Visit(1);
  }

  /** If a broadcast is suspended of a frame that an attaching client wants and the ring holds, then letting the
      replay and that broadcast go on delivers the frame twice. */
  method UnsafeAttachRepeats(channel: Channel, after: Option<real>, b: nat) returns (k: nat)
    requires channel.Valid() && b in channel.suspended
    requires Replayable(Attached(after, channel.seqNo), channel.Bottom(), b)
    modifies channel
    ensures channel.Valid() && k == |old(channel.clients)| < |channel.clients|
    ensures HasReplayed(channel.clients[k], b) && HasLive(channel.clients[k], b)
  {
    hide ClientOk, RingOk, GoneOn, Orderly;
    k := channel.Attach(after, false);
    FinishReplay(channel, k, b);
    FinishBroadcast(channel, k, b);
  }

  function StepsLeft(ring: seq<Item>, c: Client): nat {
    if c.replayAt.None? then 0 else if c.replayAt.value < |ring| then |ring| - c.replayAt.value + 1 else 1
  }

  method FinishReplay(channel: Channel, k: nat, b: nat)
    requires channel.Valid() && k < |channel.clients| && !channel.notes[k].disturbed && b in channel.notes[k].owed
    modifies channel`clients
    ensures channel.Valid() && |channel.clients| == |old(channel.clients)| && HasReplayed(channel.clients[k], b)
  {
    hide Channel.Valid;
    while channel.clients[k].replayAt.Some?
      invariant channel.Valid() && |channel.clients| == |old(channel.clients)|
      decreases StepsLeft(channel.ring, channel.clients[k])
    {
      channel.ReplayOn(k);
    }
    channel.ReplayComplete(k);
  }

  method FinishBroadcast(channel: Channel, k: nat, b: nat)
    requires channel.Valid() && b in channel.suspended && channel.suspended[b].position <= k < |channel.clients|
    requires k in channel.members && k !in channel.aborted && HasReplayed(channel.clients[k], b)
    modifies channel`clients, channel`members, channel`suspended
    ensures channel.Valid() && |channel.clients| == |old(channel.clients)|
    ensures HasReplayed(channel.clients[k], b) && HasLive(channel.clients[k], b)
  {
    hide Channel.Valid;
    while true
      invariant channel.Valid() && |channel.clients| == |old(channel.clients)| && HasReplayed(channel.clients[k], b)
      invariant b in channel.suspended && channel.suspended[b].position <= k && k in channel.members
      decreases k - channel.suspended[b].position
    {
      ghost var c := channel.clients[k];
      channel.Visit(b);
      StillReplayed(c, channel.clients[k], b);
      if channel.suspended[b].position == k + 1 {
        var d := channel.clients[k];
        assert d.received[|d.received| - 1].item.id == b;
        return;
      }
    }
  }

  lemma StillReplayed(c: Client, d: Client, id: nat)
    requires c.received <= d.received && HasReplayed(c, id)
    ensures HasReplayed(d, id)
  {
    var i :| 0 <= i < |c.received| && c.received[i].Replayed? && c.received[i].item.id == id;
    assert d.received[i] == c.received[i];
  }

  ghost function Disturb(n: Notes, c: Client, evicts: bool): Notes {
    n.(disturbed := n.disturbed || (evicts && c.replayAt.Some?))
  }
}
