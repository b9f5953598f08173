/** What goes out with the pings, when, and to whom. */
module Delivery {
  import opened Claims
  import opened Broadcast
  import BroadcastLaws
  import opened Handlers
  import opened Invariants
  import opened NodeLaws
  import opened Network
  import opened Probing

  /** `o` is the message due j places from now. */
  predicate Waits(l: Node, o: Claim, j: nat) {
    j < |l.ring.entries| && Upcoming(l.ring)[j].msg == o
  }

  lemma QueuedWaits(l: Node, k: nat) returns (j: nat)
    requires k < |l.ring.entries|
    ensures Waits(l, l.ring.entries[k].msg, j)
  {
    var n := |l.ring.entries|;
    var c := Norm(l.ring.cur, n);
    j := if k >= c then k - c else k + n - c;
    UpcomingAt(l.ring, j);
  }

  /** The node at position q of the index is alive and not this one. */
  predicate Pingable(l: Node, q: nat) {
    && |l.nodes| > 1 && q < |l.nodes| && l.nodes[q] in l.records
    && l.records[l.nodes[q]].state == Alive && l.records[l.nodes[q]].name != l.conf.name
  }

  /** What a node needs to keep pinging. */
  predicate Ticking(l: Node) {
    && l.maxAppended >= 1
    && forall k :: 0 <= k < |l.nodes| ==> l.nodes[k] in l.records && l.records[l.nodes[k]].name == l.nodes[k]
  }

  lemma TickingProbes(l: Node)
    requires Ticking(l) && l.nodes != []
    ensures CanProbe(l)
  {
    assert Picks(l.nodes, l.cursor, 1)[0] in l.nodes;
  }

  /** A packet has room for this claim alone. */
  function Alone(size: seq<Claim> -> nat, room: int): Claim -> bool {
    (c: Claim) => size([c]) <= room
  }

  /** So there is for what a node says about itself, whatever the incarnation. */
  ghost predicate OwnFits(conf: Config, size: seq<Claim> -> nat, room: int) {
    forall d: u64 :: size([SelfClaim(conf, d)]) <= room
  }

  /** Every queued message fits into a packet of its own. */
  ghost predicate EachFits(l: Node, size: seq<Claim> -> nat, room: int) {
    RingClaims(l.ring, Alone(size, room))
  }

  lemma SingleFits(l: Node, size: seq<Claim> -> nat, room: int)
    requires EachFits(l, size, room) && |Due(l)| == 1
    ensures size(Due(l)) <= room
  {
    DueAt(l, 0);
    UpcomingAt(l.ring, 0);
    assert Due(l) == [Due(l)[0]];
    assert Alone(size, room)(Due(l)[0]);
  }

  lemma AppendFits(l: Node, size: seq<Claim> -> nat, room: int)
    requires EachFits(l, size, room)
    ensures EachFits(Append(l, size, room), size, room)
  {
    AfterClaims(l.ring, |Due(l)|, Alone(size, room));
  }

  lemma NextStep(cursor: nat, q: nat, n: nat)
    requires q < n
    ensures StepOf(cursor, q, n) == 0 ==> cursor % n == q
    ensures StepOf(cursor, q, n) > 0 ==> StepOf((cursor + 1) % n, q, n) == StepOf(cursor, q, n) - 1
  {
    var c := cursor % n;
    StepIs(cursor, q, n);
    ModAdd(cursor, 1, n);
    if c + 1 == n {
      ModUnique(c + 1, 1, 0, n);
    } else {
      ModUnique(c + 1, 0, c + 1, n);
    }
    ModUnique((c + 1) % n, 0, (c + 1) % n, n);
    StepIs((cursor + 1) % n, q, n);
  }

  lemma StepIs(cursor: nat, q: nat, n: nat)
    requires q < n
    ensures StepOf(cursor, q, n) == if q >= cursor % n then q - cursor % n else q + n - cursor % n
  {
    var c := cursor % n;
    if q >= c {
      ModUnique(q + n - c, 1, q - c, n);
    } else {
      ModUnique(q + n - c, 0, q + n - c, n);
    }
  }

  /** The ticks of w laps around n nodes. */
  function Laps(w: nat, n: nat): nat {
    if w == 0 then 0 else Laps(w - 1, n) + n
  }

  lemma {:induction false} LapsProduct(w: nat, n: nat)
    ensures Laps(w, n) == w * n
  {
    if w > 0 {
      LapsProduct(w - 1, n);
      MulOneMore(w - 1, n);
    }
  }

  lemma {:induction false} LapSaved(w: nat, w': nat, n: nat)
    requires w' < w
    ensures Laps(w', n) + n <= Laps(w, n)
    decreases w
  {
    if w' < w - 1 {
      LapSaved(w - 1, w', n);
    }
  }

  /** How long the message may still wait: a lap of pings for each message before it and
      each unit of the packet limit, and the rest of the current lap. */
  function Patience(l: Node, q: nat, j: nat): nat
    requires q < |l.nodes|
  {
    Laps(j + l.maxAppended, |l.nodes|) + StepOf(l.cursor, q, |l.nodes|)
  }

  lemma DueAt(l: Node, j: nat)
    requires j < |Due(l)|
    ensures Due(l)[j] == Upcoming(l.ring)[j].msg
  {
    MsgsAt(Upcoming(l.ring)[..Min(l.maxAppended, |l.ring.entries|)], j);
  }

  /** A ping sends the message, or brings it nearer, or asks for less next time. */
  lemma PingProgress(l: Node, o: Claim, j: nat, size: seq<Claim> -> nat, room: int) returns (j': nat)
    requires l.maxAppended >= 1 && Waits(l, o, j) && EachFits(l, size, room)
    ensures var l' := Append(l, size, room);
            || o in Appended(l, size, room)
            || (Waits(l', o, j') && j' + l'.maxAppended < j + l.maxAppended)
  {
    var k := Min(l.maxAppended, |l.ring.entries|);
    j' := j;
    if k == 1 {
      SingleFits(l, size, room);
    }
    if size(Due(l)) > room {
    } else if j < k {
      DueAt(l, j);
    } else {
      j' := j - k;
      BroadcastLaws.PeekTransaction(l.ring, k);
      var r := After(l.ring, k);
      assert Upcoming(r)[j'] == Upcoming(l.ring)[j];
      assert |Upcoming(r)| == |r.entries|;
    }
  }

  lemma PickIsNode(l: Node, q: nat)
    requires Pingable(l, q)
    ensures Picks(l.nodes, l.cursor, 1)[0] == l.nodes[l.cursor % |l.nodes|]
  {}

  lemma PassedOver(l: Node, q: nat, j: nat)
    requires Pingable(l, q) && CanProbe(l) && !Probes(l)
    ensures var l' := l.(cursor := NextCursor(l.nodes, l.cursor, 1));
            Patience(l', q, j) == Patience(l, q, j) - 1
  {
    PickIsNode(l, q);
    NextStep(l.cursor, q, |l.nodes|);
  }

  lemma Pinged(l: Node, l': Node, q: nat, j: nat, j': nat)
    requires q < |l.nodes| && l'.nodes == l.nodes && j' + l'.maxAppended < j + l.maxAppended
    ensures Patience(l', q, j') < Patience(l, q, j)
  {
    StepReaches(l'.cursor, q, |l.nodes|);
    LapSaved(j + l.maxAppended, j' + l'.maxAppended, |l.nodes|);
  }

  /** A tick of the probe timer sends the message or uses up some of the patience. */
  lemma TickProgress(l: Node, q: nat, o: Claim, j: nat, size: seq<Claim> -> nat, room: int) returns (j': nat)
    requires Ticking(l) && CanProbe(l) && Pingable(l, q) && Waits(l, o, j) && EachFits(l, size, room)
    ensures var l' := Probe(l, size, room);
            && Pingable(l', q) && Ticking(l') && EachFits(l', size, room)
            && (|| News(Target(l), o) in Sent(l, ProbeTick(size, room))
                || (Waits(l', o, j') && Patience(l', q, j') < Patience(l, q, j)))
  {
    var l1, l' := l.(cursor := NextCursor(l.nodes, l.cursor, 1)), Probe(l, size, room);
    j' := j;
    AppendFits(l1, size, room);
    if Probes(l) {
      j' := PingProgress(l1, o, j, size, room);
      assert Appended(l1, size, room) == Appended(l, size, room);
      if o !in Appended(l, size, room) {
        Pinged(l, l', q, j, j');
      }
    } else {
      PassedOver(l, q, j);
    }
  }

  // ----- a node left to its probe timer -----

  /** The node after t ticks. */
  function Ticked(l: Node, size: seq<Claim> -> nat, room: int, t: nat): Node
    decreases t
  {
    if t == 0 then l
    else
      var m := Ticked(l, size, room, t - 1);
      if CanProbe(m) then Probe(m, size, room) else m
  }

  /** What the next tick sends. */
  function TickSends(l: Node, size: seq<Claim> -> nat, room: int): set<Packet> {
    if CanProbe(l) then Sent(l, ProbeTick(size, room)) else {}
  }

  /** Ticks touch only the cursor, the queue, its limit and the pending probes. */
  predicate SameBeliefs(l: Node, m: Node) {
    && m.conf == l.conf && m.records == l.records && m.nodes == l.nodes && m.nodeNum == l.nodeNum
    && m.dominant == l.dominant
  }

  lemma TickKeeps(l: Node, size: seq<Claim> -> nat, room: int)
    requires Ticking(l) && |l.nodes| > 1
    ensures CanProbe(l)
    ensures var m := Probe(l, size, room);
            SameBeliefs(l, m) && Ticking(m) && m.cursor == (l.cursor + 1) % |l.nodes|
  {
    TickingProbes(l);
  }

  lemma OneOn(c: nat, c': nat, n: nat)
    requires n > 0 && c' % n == c % n
    ensures ((c' + 1) % n) % n == (c + 1) % n
  {
    ModAdd(c', 1, n);
    ModAdd(c, 1, n);
    ModAdd(c' + 1, 0, n);
  }

  /** Nothing but ticks lies between l and m, and the walk is c places on from where it began. */
  predicate Walked(l: Node, m: Node, c: nat)
    requires l.nodes != []
  {
    SameBeliefs(l, m) && Ticking(m) && m.cursor % |l.nodes| == c % |l.nodes|
  }

  lemma WalksOn(l: Node, m: Node, c: nat, size: seq<Claim> -> nat, room: int)
    requires |l.nodes| > 1 && Walked(l, m, c)
    ensures CanProbe(m) && Walked(l, Probe(m, size, room), c + 1)
  {
    TickKeeps(m, size, room);
    OneOn(c, m.cursor, |l.nodes|);
  }

  lemma {:induction false} TickedKeeps(l: Node, size: seq<Claim> -> nat, room: int, t: nat)
    requires Ticking(l) && |l.nodes| > 1
    ensures Walked(l, Ticked(l, size, room, t), l.cursor + t)
    decreases t
  {
    if t > 0 {
      TickedKeeps(l, size, room, t - 1);
      WalksOn(l, Ticked(l, size, room, t - 1), l.cursor + t - 1, size, room);
    }
  }

  /** What tick t sends, and to whom. */
  lemma TickSendsTo(l: Node, size: seq<Claim> -> nat, room: int, t: nat)
    requires Ticking(l) && |l.nodes| > 1
    ensures var m, i := Ticked(l, size, room, t), (l.cursor + t) % |l.nodes|;
            TickSends(m, size, room) ==
            if Pingable(l, i) then {Ping(l.nodes[i], l.conf.name)} + NewsFor(l.nodes[i], Appended(m, size, room))
            else {}
  {
    TickedKeeps(l, size, room, t);
    TickKeeps(Ticked(l, size, room, t), size, room);
  }

  lemma WalkMeets(cursor: nat, t: nat, q: nat, n: nat)
    requires q < n
    ensures (cursor + t) % n == q <==> t % n == StepOf(cursor, q, n)
  {
    var s, r := StepOf(cursor, q, n), t % n;
    StepReaches(cursor, q, n);
    ModAdd(t, cursor, n);
    if r < s {
      PicksDiffer(cursor, r, s, n);
    } else if s < r {
      PicksDiffer(cursor, s, r, n);
    }
  }

  /** Left to its probe timer a node pings the one at position q exactly at the ticks at
      which the walk stands there, and what it then appends goes there and nowhere else. */
  lemma WhenPinged(l: Node, q: nat, o: Claim, size: seq<Claim> -> nat, room: int, t: nat)
    requires Ticking(l) && Distinct(l.nodes) && Pingable(l, q)
    ensures var m, turn := Ticked(l, size, room, t), t % |l.nodes| == StepOf(l.cursor, q, |l.nodes|);
            && (Ping(l.nodes[q], l.conf.name) in TickSends(m, size, room) <==> turn)
            && (News(l.nodes[q], o) in TickSends(m, size, room) <==> turn && o in Appended(m, size, room))
  {
    TickSendsTo(l, size, room, t);
    WalkMeets(l.cursor, t, q, |l.nodes|);
  }

  // ----- draining -----

  lemma {:induction false} PopsSpend(r: Ring, k: nat)
    requires WellFormed(r) && k <= |r.entries|
    ensures WellFormed(After(r, k))
    ensures BroadcastLaws.Total(Upcoming(After(r, k))) == BroadcastLaws.Total(Upcoming(r)) - k
  {
    AfterKeepsWellFormed(r, k);
    BroadcastLaws.UpcomingSound(r);
    BroadcastLaws.RingIsLine(r, k);
    AtLeastOneEach(Upcoming(r));
    if r.entries != [] {
      BroadcastLaws.SpentIsServed(Upcoming(r), k, r.entries[0].msg.name);
    }
  }

  lemma {:induction false} AtLeastOneEach(f: seq<Entry>)
    requires BroadcastLaws.Sound(f)
    ensures |f| <= BroadcastLaws.Total(f)
  {
    if f != [] {
      AtLeastOneEach(f[1..]);
    }
  }

  /** What keeps the queue from being empty: the sends left and the packet limit. */
  function Load(l: Node): nat {
    BroadcastLaws.Total(Upcoming(l.ring)) + l.maxAppended
  }

  /** How many ticks it may take until the queue is empty and position q comes up. */
  function Strain(l: Node, q: nat): nat
    requires q < |l.nodes|
  {
    Laps(Load(l), |l.nodes|) + StepOf(l.cursor, q, |l.nodes|)
  }

  /** The queue is empty and the next to be pinged is the node at position q. */
  predicate Ready(l: Node, q: nat) {
    l.ring.entries == [] && Pingable(l, q) && StepOf(l.cursor, q, |l.nodes|) == 0
  }

  lemma PingEases(l: Node, size: seq<Claim> -> nat, room: int)
    requires l.maxAppended >= 1 && WellFormed(l.ring) && EachFits(l, size, room)
    ensures var m := Append(l, size, room);
            && WellFormed(m.ring) && EachFits(m, size, room)
            && if l.ring.entries == [] then m == l else Load(m) < Load(l)
  {
    var k := Min(l.maxAppended, |l.ring.entries|);
    if k == 1 {
      SingleFits(l, size, room);
    }
    AppendFits(l, size, room);
    PopsSpend(l.ring, k);
  }

  lemma LapEases(l: Node, m: Node, q: nat)
    requires q < |l.nodes| && m.nodes == l.nodes && Load(m) < Load(l)
    ensures Strain(m, q) < Strain(l, q)
  {
    StepReaches(m.cursor, q, |l.nodes|);
    LapSaved(Load(l), Load(m), |l.nodes|);
  }

  lemma StepEases(l: Node, m: Node, q: nat)
    requires q < |l.nodes| && m.nodes == l.nodes && Load(m) == Load(l)
    requires StepOf(l.cursor, q, |l.nodes|) > 0 && m.cursor == (l.cursor + 1) % |l.nodes|
    ensures Strain(m, q) < Strain(l, q)
  {
    NextStep(l.cursor, q, |l.nodes|);
  }

  /** What draining needs of a node, and each tick keeps. */
  ghost predicate Drains(l: Node, q: nat, size: seq<Claim> -> nat, room: int) {
    Ticking(l) && Pingable(l, q) && WellFormed(l.ring) && EachFits(l, size, room)
  }

  lemma TickEases(l: Node, q: nat, size: seq<Claim> -> nat, room: int)
    requires Drains(l, q, size, room) && !Ready(l, q)
    ensures CanProbe(l)
    ensures var m := Probe(l, size, room); Drains(m, q, size, room) && Strain(m, q) < Strain(l, q)
  {
    var m := Probe(l, size, room);
    TickKeeps(l, size, room);
    PickIsNode(l, q);
    NextStep(l.cursor, q, |l.nodes|);
    PingEases(l.(cursor := NextCursor(l.nodes, l.cursor, 1)), size, room);
    if l.ring.entries != [] && Probes(l) {
      LapEases(l, m, q);
    } else {
      StepEases(l, m, q);
    }
  }

  lemma TickedAfterOne(l: Node, size: seq<Claim> -> nat, room: int, t: nat)
    requires CanProbe(l)
    ensures Ticked(l, size, room, t + 1) == Ticked(Probe(l, size, room), size, room, t)
    decreases t
  {
    if t > 0 {
      TickedAfterOne(l, size, room, t - 1);
    }
  }

  /** Left to its probe timer a node empties its queue, and the position comes up. */
  lemma {:induction false} TicksDrain(l: Node, q: nat, size: seq<Claim> -> nat, room: int) returns (t: nat)
    requires Drains(l, q, size, room)
    ensures t <= Strain(l, q) && Ready(Ticked(l, size, room, t), q)
    decreases Strain(l, q)
  {
    if Ready(l, q) {
      t := 0;
    } else {
      TickEases(l, q, size, room);
      var rest := TicksDrain(Probe(l, size, room), q, size, room);
      TickedAfterOne(l, size, room, rest);
      t := rest + 1;
    }
  }

  lemma {:induction false} EmptyStaysEmpty(l: Node, size: seq<Claim> -> nat, room: int, t: nat)
    requires l.ring.entries == []
    ensures Ticked(l, size, room, t).ring.entries == []
    decreases t
  {
    if t > 0 {
      EmptyStaysEmpty(l, size, room, t - 1);
    }
  }

  lemma LapAround(c: nat, c1: nat, c2: nat, n: nat)
    requires n > 0 && c1 == (c + 1) % n && c2 % n == (c1 + n - 1) % n
    ensures c2 % n == c % n
  {
    ModAdd(c + 1, n - 1, n);
    ModShift(c, 1, n);
  }

  /** Having pinged, an empty node is ready again after the rest of a lap. */
  lemma ReadyAgain(l: Node, q: nat, size: seq<Claim> -> nat, room: int)
    requires Ticking(l) && Ready(l, q)
    ensures CanProbe(l) && Ready(Ticked(Probe(l, size, room), size, room, |l.nodes| - 1), q)
  {
    var n := |l.nodes|;
    TickKeeps(l, size, room);
    var m := Probe(l, size, room);
    TickedKeeps(m, size, room, n - 1);
    EmptyStaysEmpty(m, size, room, n - 1);
    var m' := Ticked(m, size, room, n - 1);
    LapAround(l.cursor, m.cursor, m'.cursor, n);
    StepIs(l.cursor, q, n);
    StepIs(m'.cursor, q, n);
  }
}
