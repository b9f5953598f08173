/** An alert that is handled at once: does the answer ever go to the peer that sent it? */
module PromptAnswers {
  import opened Claims
  import opened Broadcast
  import BroadcastLaws
  import opened Handlers
  import opened Invariants
  import opened NodeLaws
  import opened Network
  import opened Probing
  import opened Delivery

  // ----- a queue that fits into a packet wears down by one send a ping -----

  /** cs is some of ms, in any order. */
  ghost predicate Selected(cs: seq<Claim>, ms: seq<Claim>) {
    multiset(cs) <= multiset(ms)
  }

  /** A packet has room for these messages, or some of them. */
  ghost predicate Room(ms: seq<Claim>, size: seq<Claim> -> nat, room: int) {
    forall cs {:trigger Selected(cs, ms)} :: cs != [] && Selected(cs, ms) ==> size(cs) <= room
  }

  /** The queue fits into one packet. */
  ghost predicate Fits(l: Node, size: seq<Claim> -> nat, room: int) {
    |l.ring.entries| <= l.maxAppended && Room(Msgs(Upcoming(l.ring)), size, room)
  }

  /** The queue after k pings. */
  function Worn(f: seq<Entry>, k: nat): seq<Entry>
    decreases k
  {
    if k == 0 then f else BroadcastLaws.Survivors(Worn(f, k - 1))
  }

  lemma InLineAfter(e: Entry, f: seq<Entry>, name: Name)
    ensures BroadcastLaws.InLine([e] + f, name) <==> e.msg.name == name || BroadcastLaws.InLine(f, name)
  {
    assert ([e] + f)[1..] == f;
  }

  lemma {:induction false} SurvivorsAddNothing(f: seq<Entry>, name: Name)
    requires !BroadcastLaws.InLine(f, name)
    ensures !BroadcastLaws.InLine(BroadcastLaws.Survivors(f), name)
  {
    if f != [] {
      SurvivorsAddNothing(f[1..], name);
      InLineAfter(Entry(f[0].msg, f[0].times - if f[0].times > 1 then 1 else 0), BroadcastLaws.Survivors(f[1..]), name);
      assert [] + BroadcastLaws.Survivors(f[1..]) == BroadcastLaws.Survivors(f[1..]);
    }
  }

  lemma {:induction false} SoundSurvivors(f: seq<Entry>)
    requires BroadcastLaws.Sound(f)
    ensures BroadcastLaws.Sound(BroadcastLaws.Survivors(f))
  {
    if f != [] {
      SoundSurvivors(f[1..]);
      SurvivorsAddNothing(f[1..], f[0].msg.name);
      var rest := BroadcastLaws.Survivors(f[1..]);
      if f[0].times > 1 {
        assert BroadcastLaws.Survivors(f)[1..] == rest;
      } else {
        assert BroadcastLaws.Survivors(f) == rest;
      }
    }
  }

  lemma {:induction false} ShorterSurvivors(f: seq<Entry>)
    ensures |BroadcastLaws.Survivors(f)| <= |f|
  {
    if f != [] {
      ShorterSurvivors(f[1..]);
    }
  }

  lemma {:induction false} SurvivorsSelect(f: seq<Entry>)
    ensures Selected(Msgs(BroadcastLaws.Survivors(f)), Msgs(f))
  {
    if f != [] {
      SurvivorsSelect(f[1..]);
      var rest := BroadcastLaws.Survivors(f[1..]);
      assert Msgs(f) == [f[0].msg] + Msgs(f[1..]);
      if f[0].times > 1 {
        assert BroadcastLaws.Survivors(f) == [Entry(f[0].msg, f[0].times - 1)] + rest;
        assert Msgs(BroadcastLaws.Survivors(f)) == [f[0].msg] + Msgs(rest);
      } else {
        assert BroadcastLaws.Survivors(f) == rest;
      }
    }
  }

  lemma StillSelected(g: seq<Entry>, ms: seq<Claim>)
    requires Selected(Msgs(g), ms)
    ensures Selected(Msgs(BroadcastLaws.Survivors(g)), ms)
  {
    SurvivorsSelect(g);
  }

  lemma {:induction false} WornSelects(f: seq<Entry>, k: nat) returns (g: seq<Entry>)
    ensures g == Worn(f, k) && Selected(Msgs(g), Msgs(f))
    decreases k
  {
    if k == 0 {
      g := f;
    } else {
      g := WornSelects(f, k - 1);
      StillSelected(g, Msgs(f));
      g := BroadcastLaws.Survivors(g);
    }
  }

  lemma {:induction false} WornShorter(f: seq<Entry>, k: nat)
    ensures |Worn(f, k)| <= |f|
    decreases k
  {
    if k > 0 {
      WornShorter(f, k - 1);
      ShorterSurvivors(Worn(f, k - 1));
    }
  }

  lemma {:induction false} WornSound(f: seq<Entry>, k: nat)
    requires BroadcastLaws.Sound(f)
    ensures BroadcastLaws.Sound(Worn(f, k))
    decreases k
  {
    if k > 0 {
      WornSound(f, k - 1);
      SoundSurvivors(Worn(f, k - 1));
    }
  }

  lemma HeldInLine(f: seq<Entry>, e: Entry)
    requires e in f
    ensures BroadcastLaws.InLine(f, e.msg.name)
  {
    var k :| 0 <= k < |f| && f[k] == e;
    BroadcastLaws.InLineAt(f, k);
  }

  lemma {:induction false} SoundBudget(f: seq<Entry>, e: Entry)
    requires BroadcastLaws.Sound(f) && e in f
    ensures e.times >= 1
  {
    if e != f[0] {
      SoundBudget(f[1..], e);
    }
  }

  /** A ping that carries the whole queue costs each message one send. */
  lemma {:induction false} PingWears(f: seq<Entry>, o: Claim, b: nat)
    requires BroadcastLaws.Sound(f) && Entry(o, b) in f
    ensures if b > 1 then Entry(o, b - 1) in BroadcastLaws.Survivors(f)
            else !BroadcastLaws.InLine(BroadcastLaws.Survivors(f), o.name)
  {
    var rest := BroadcastLaws.Survivors(f[1..]);
    if f[0] == Entry(o, b) {
      SurvivorsAddNothing(f[1..], o.name);
      assert [] + rest == rest;
    } else {
      HeldInLine(f[1..], Entry(o, b));
      PingWears(f[1..], o, b);
      InLineAfter(Entry(f[0].msg, f[0].times - 1), rest, o.name);
      assert [] + rest == rest;
    }
  }

  /** o is in line with b sends left, or, if that is none, not at all. */
  predicate Left(f: seq<Entry>, o: Claim, b: nat) {
    if b > 0 then Entry(o, b) in f else !BroadcastLaws.InLine(f, o.name)
  }

  lemma OneSendLess(f: seq<Entry>, o: Claim, b: nat)
    requires BroadcastLaws.Sound(f) && Left(f, o, b)
    ensures Left(BroadcastLaws.Survivors(f), o, Max(b - 1, 0))
  {
    if b > 0 {
      PingWears(f, o, b);
    } else {
      SurvivorsAddNothing(f, o.name);
    }
  }

  lemma {:induction false} WornHolds(f: seq<Entry>, o: Claim, b: nat, k: nat)
    requires BroadcastLaws.Sound(f) && Left(f, o, b)
    ensures Left(Worn(f, k), o, Max(b - k, 0))
    decreases k
  {
    if k > 0 {
      WornHolds(f, o, b, k - 1);
      WornSound(f, k - 1);
      OneSendLess(Worn(f, k - 1), o, Max(b - (k - 1), 0));
    }
  }

  // ----- ticks -----

  /** How many of the first t ticks ping someone. */
  function Pings(l: Node, t: nat): nat
    requires l.nodes != []
  {
    if t == 0 then 0
    else Pings(l, t - 1) + if Pingable(l, (l.cursor + t - 1) % |l.nodes|) then 1 else 0
  }

  lemma {:induction false} PingsGrow(l: Node, s: nat, t: nat)
    requires l.nodes != [] && s <= t
    ensures Pings(l, s) <= Pings(l, t)
    decreases t
  {
    if s < t {
      PingsGrow(l, s, t - 1);
    }
  }

  /** The next ping carries the whole queue. */
  predicate Goes(m: Node, size: seq<Claim> -> nat, room: int) {
    && |m.ring.entries| <= m.maxAppended
    && (m.ring.entries != [] ==> size(Msgs(Upcoming(m.ring))) <= room)
  }

  lemma WholeQueueGoes(m: Node, size: seq<Claim> -> nat, room: int)
    requires Goes(m, size, room)
    ensures Appended(m, size, room) == Msgs(Upcoming(m.ring))
    ensures var m' := Append(m, size, room);
            Upcoming(m'.ring) == BroadcastLaws.Survivors(Upcoming(m.ring)) && m'.maxAppended == m.maxAppended
  {
    var f, n := Upcoming(m.ring), |m.ring.entries|;
    assert f[..n] == f && f[n..] == [];
    BroadcastLaws.PeekTransaction(m.ring, n);
  }

  /** The queue of m', worn by one ping if m's walk stands at a node to ping. */
  ghost predicate WornOnce(m: Node, m': Node)
    requires m.nodes != []
  {
    Upcoming(m'.ring) ==
    if Pingable(m, m.cursor % |m.nodes|) then BroadcastLaws.Survivors(Upcoming(m.ring)) else Upcoming(m.ring)
  }

  lemma TickWears(m: Node, size: seq<Claim> -> nat, room: int)
    requires Ticking(m) && |m.nodes| > 1 && Goes(m, size, room)
    ensures CanProbe(m)
    ensures var m' := Probe(m, size, room);
            m'.maxAppended == m.maxAppended && WornOnce(m, m')
  {
    TickKeeps(m, size, room);
    WholeQueueGoes(m.(cursor := NextCursor(m.nodes, m.cursor, 1)), size, room);
  }

  /** The queue of l after t ticks. */
  function QueueAfter(l: Node, t: nat): seq<Entry>
    requires l.nodes != []
  {
    Worn(Upcoming(l.ring), Pings(l, t))
  }

  /** m sends what l would after t ticks. */
  ghost predicate WornBy(l: Node, m: Node, t: nat)
    requires l.nodes != []
  {
    m.maxAppended == l.maxAppended && Upcoming(m.ring) == QueueAfter(l, t)
  }

  lemma WornStillFits(l: Node, m: Node, t: nat, size: seq<Claim> -> nat, room: int)
    requires l.nodes != [] && Fits(l, size, room) && WornBy(l, m, t)
    ensures Goes(m, size, room)
  {
    var _ := WornSelects(Upcoming(l.ring), Pings(l, t));
    WornShorter(Upcoming(l.ring), Pings(l, t));
    assert |Upcoming(m.ring)| == |m.ring.entries| && |Upcoming(l.ring)| == |l.ring.entries|;
  }

  lemma OneMorePing(l: Node, m: Node, t: nat)
    requires |l.nodes| > 1 && Walked(l, m, l.cursor + t)
    ensures QueueAfter(l, t + 1) ==
            if Pingable(m, m.cursor % |m.nodes|) then BroadcastLaws.Survivors(QueueAfter(l, t)) else QueueAfter(l, t)
  {
    assert Pingable(m, m.cursor % |m.nodes|) == Pingable(l, (l.cursor + t) % |l.nodes|);
  }

  lemma WearsOn(l: Node, m: Node, t: nat, size: seq<Claim> -> nat, room: int)
    requires |l.nodes| > 1 && Walked(l, m, l.cursor + t) && WornBy(l, m, t) && Goes(m, size, room)
    ensures CanProbe(m) && WornBy(l, Probe(m, size, room), t + 1)
  {
    TickWears(m, size, room);
    OneMorePing(l, m, t);
  }

  lemma TickedWearsOn(l: Node, m: Node, t: nat, size: seq<Claim> -> nat, room: int)
    requires Ticking(l) && |l.nodes| > 1 && Fits(l, size, room)
    requires m == Ticked(l, size, room, t) && WornBy(l, m, t)
    ensures CanProbe(m) && WornBy(l, Probe(m, size, room), t + 1)
  {
    WornStillFits(l, m, t, size, room);
    TickedKeeps(l, size, room, t);
    WearsOn(l, m, t, size, room);
  }

  lemma {:induction false} TicksWear(l: Node, size: seq<Claim> -> nat, room: int, t: nat) returns (m: Node)
    requires Ticking(l) && |l.nodes| > 1 && Fits(l, size, room)
    ensures m == Ticked(l, size, room, t) && WornBy(l, m, t)
    decreases t
  {
    if t == 0 {
      m := l;
    } else {
      m := TicksWear(l, size, room, t - 1);
      TickedWearsOn(l, m, t - 1, size, room);
      m := Probe(m, size, room);
    }
  }

  lemma {:induction false} MsgsHold(f: seq<Entry>, o: Claim)
    ensures o in Msgs(f) <==> exists b :: Entry(o, b) in f
  {
    if f != [] {
      MsgsHold(f[1..], o);
      if o in Msgs(f) {
        if f[0].msg == o {
          assert Entry(o, f[0].times) in f;
        } else {
          assert o in Msgs(f[1..]);
          var b :| Entry(o, b) in f[1..];
          assert Entry(o, b) in f;
        }
      }
      if b :| Entry(o, b) in f {
        assert f[0] == Entry(o, b) || Entry(o, b) in f[1..];
        assert Msgs(f)[1..] == Msgs(f[1..]);
        if f[0] == Entry(o, b) {
          assert Msgs(f)[0] == o;
        }
      }
    }
  }

  lemma InUpcoming(r: Ring, e: Entry)
    requires e in r.entries
    ensures e in Upcoming(r)
  {
    var c := Norm(r.cur, |r.entries|);
    assert r.entries == r.entries[..c] + r.entries[c..];
  }

  lemma SendsLeft(l: Node, o: Claim, b: nat, t: nat)
    requires l.nodes != [] && WellFormed(l.ring) && Entry(o, b) in l.ring.entries
    ensures Left(QueueAfter(l, t), o, Max(b - Pings(l, t), 0))
  {
    BroadcastLaws.UpcomingSound(l.ring);
    InUpcoming(l.ring, Entry(o, b));
    SoundBudget(Upcoming(l.ring), Entry(o, b));
    WornHolds(Upcoming(l.ring), o, b, Pings(l, t));
  }

  lemma CarriedIfLeft(f: seq<Entry>, o: Claim, b: nat)
    requires Left(f, o, b)
    ensures o in Msgs(f) <==> b > 0
  {
    MsgsHold(f, o);
    if b' :| Entry(o, b') in f {
      HeldInLine(f, Entry(o, b'));
    }
  }

  lemma CarriedByWorn(l: Node, m: Node, o: Claim, b: nat, size: seq<Claim> -> nat, room: int, t: nat)
    requires l.nodes != [] && WornBy(l, m, t) && Goes(m, size, room)
    requires WellFormed(l.ring) && Entry(o, b) in l.ring.entries
    ensures o in Appended(m, size, room) <==> Pings(l, t) < b
  {
    WholeQueueGoes(m, size, room);
    SendsLeft(l, o, b, t);
    CarriedIfLeft(Upcoming(m.ring), o, Max(b - Pings(l, t), 0));
  }

  /** A message with b sends left, in a queue that fits, is in exactly the next b pings. */
  lemma CarriedByNextPings(l: Node, o: Claim, b: nat, size: seq<Claim> -> nat, room: int, t: nat)
    requires Ticking(l) && |l.nodes| > 1 && Fits(l, size, room)
    requires WellFormed(l.ring) && Entry(o, b) in l.ring.entries
    ensures o in Appended(Ticked(l, size, room, t), size, room) <==> Pings(l, t) < b
  {
    var m := TicksWear(l, size, room, t);
    WornStillFits(l, m, t, size, room);
    CarriedByWorn(l, m, o, b, size, room, t);
  }

  /** Some tick, if nothing but ticks happens, sends o to `to`. */
  ghost predicate EverSentTo(l: Node, to: Name, o: Claim, size: seq<Claim> -> nat, room: int) {
    exists t: nat :: News(to, o) in TickSends(Ticked(l, size, room, t), size, room)
  }

  /** Left to its probe timer, a node sends a message to the one at position q exactly if
      fewer others are pinged before that one comes up than the message has sends left. */
  lemma WhenSentTo(l: Node, q: nat, o: Claim, b: nat, size: seq<Claim> -> nat, room: int)
    requires Ticking(l) && Distinct(l.nodes) && Pingable(l, q) && Fits(l, size, room)
    requires WellFormed(l.ring) && Entry(o, b) in l.ring.entries
    ensures EverSentTo(l, l.nodes[q], o, size, room) <==> Pings(l, StepOf(l.cursor, q, |l.nodes|)) < b
  {
    var s := StepOf(l.cursor, q, |l.nodes|);
    if EverSentTo(l, l.nodes[q], o, size, room) {
      var t: nat :| News(l.nodes[q], o) in TickSends(Ticked(l, size, room, t), size, room);
      WhenPinged(l, q, o, size, room, t);
      CarriedByNextPings(l, o, b, size, room, t);
      ModAtMost(t, |l.nodes|);
      PingsGrow(l, s, t);
    }
    if Pings(l, s) < b {
      SentAtFirstTurn(l, q, o, b, size, room);
    }
  }

  lemma ModAtMost(t: nat, n: nat)
    requires n > 0
    ensures t % n <= t
  {}

  lemma SentAtFirstTurn(l: Node, q: nat, o: Claim, b: nat, size: seq<Claim> -> nat, room: int)
    requires Ticking(l) && Distinct(l.nodes) && Pingable(l, q) && Fits(l, size, room)
    requires WellFormed(l.ring) && Entry(o, b) in l.ring.entries
    requires Pings(l, StepOf(l.cursor, q, |l.nodes|)) < b
    ensures News(l.nodes[q], o) in TickSends(Ticked(l, size, room, StepOf(l.cursor, q, |l.nodes|)), size, room)
  {
    var s := StepOf(l.cursor, q, |l.nodes|);
    StepReaches(l.cursor, q, |l.nodes|);
    ModUnique(s, 0, s, |l.nodes|);
    CarriedByNextPings(l, o, b, size, room, s);
    WhenPinged(l, q, o, size, room, s);
  }

  // ----- a cluster that is all alive -----

  /** Everyone listed is alive; the node itself is at position k. */
  ghost predicate AllAlive(l: Node, k: nat) {
    && k < |l.nodes| && l.nodes[k] == l.conf.name && Distinct(l.nodes)
    && forall i :: 0 <= i < |l.nodes| ==> l.nodes[i] in l.records && l.records[l.nodes[i]].state == Alive
  }

  lemma OthersPingable(l: Node, k: nat, i: nat)
    requires Ticking(l) && AllAlive(l, k) && |l.nodes| > 1 && i < |l.nodes|
    ensures Pingable(l, i) <==> i != k
  {}

  lemma {:induction false} LapPings(l: Node, k: nat, t: nat)
    requires Ticking(l) && AllAlive(l, k) && |l.nodes| > 1 && t <= |l.nodes|
    ensures Pings(l, t) == t - if StepOf(l.cursor, k, |l.nodes|) < t then 1 else 0
    decreases t
  {
    if t > 0 {
      var n := |l.nodes|;
      LapPings(l, k, t - 1);
      OthersPingable(l, k, (l.cursor + t - 1) % n);
      WalkMeets(l.cursor, t - 1, k, n);
      ModUnique(t - 1, 0, t - 1, n);
    }
  }

  lemma {:induction false} TenOutgrows(k: nat)
    requires k >= 2
    ensures Pow(10, k - 1) > 3 * k
  {
    if k == 2 {
      assert Pow(10, 1) == 10 * Pow(10, 0);
    } else {
      TenOutgrows(k - 1);
      assert Pow(10, k - 1) == 10 * Pow(10, k - 2);
    }
  }

  /** Three sends per digit suffice for the others of a cluster of four, and no more. */
  lemma SendsForOthers(n: u32)
    requires n >= 2
    ensures n - 2 < Times(n) <==> n <= 4
  {
    var k := Times(n) / 3;
    if k >= 2 {
      TenOutgrows(k);
    }
  }

  /** What a node answers to c: the next incarnation after both. */
  function Retort(l: Node, c: Claim): Claim
    requires Max(l.dominant, c.dominant) < U64 - 1
  {
    SelfClaim(l.conf, Max(l.dominant, c.dominant) + 1)
  }

  lemma AlertQueues(l: Node, c: Claim, ch: Choice)
    requires WellFormed(l.ring) && c.name == l.conf.name && c.state == Dead
    requires Max(l.dominant, c.dominant) < U64 - 1
    requires forall e :: e in l.ring.entries && e.msg.name == l.conf.name ==> e.msg.dominant <= l.dominant
    ensures var m := PongAlert(l, c, ch);
            && WellFormed(m.ring)
            && Entry(Retort(l, c), Times(l.nodeNum)) in m.ring.entries
  {
    var o := Retort(l, c);
    ObjectionOutranks(l.dominant, c.dominant);
    PushKeepsWellFormed(l.ring, o, l.nodeNum, ch.at);
    var i := Index(l.ring.entries, o.name);
    if i < |l.ring.entries| {
      assert l.ring.entries[i] in l.ring.entries;
      assert PushRing(l.ring, o, l.nodeNum, ch.at).entries[i] == Entry(o, Times(l.nodeNum));
    } else {
      var p := Min(ch.at, |l.ring.entries|);
      assert PushRing(l.ring, o, l.nodeNum, ch.at).entries[p] == Entry(o, Times(l.nodeNum));
    }
  }

  /** Just after the peer was pinged, all the others come first. */
  lemma OthersFirst(l: Node, q: nat, k: nat)
    requires Ticking(l) && AllAlive(l, k) && Pingable(l, q) && StepOf(l.cursor, q, |l.nodes|) == |l.nodes| - 1
    ensures Pings(l, |l.nodes| - 1) == |l.nodes| - 2
  {
    LapPings(l, k, |l.nodes| - 1);
    StepReaches(l.cursor, k, |l.nodes|);
    StepReaches(l.cursor, q, |l.nodes|);
    OthersPingable(l, k, q);
  }

  lemma AlertKeepsWalk(l: Node, c: Claim, ch: Choice, q: nat, k: nat)
    requires Ticking(l) && AllAlive(l, k) && Pingable(l, q)
    ensures var m := PongAlert(l, c, ch);
            Ticking(m) && AllAlive(m, k) && Pingable(m, q) && m.nodes == l.nodes && m.cursor == l.cursor
  {}

  /** An alert handled at once, in a cluster that is all alive: the node has just pinged the
      peer at position q and now comes to all the others first. Its own pings ever take the
      answer to that peer exactly if it has more sends than there are others, which, if the
      counter is right, means a cluster of at most four. */
  lemma PromptAnswerReaches(l: Node, q: nat, k: nat, c: Claim, size: seq<Claim> -> nat, room: int, ch: Choice)
    requires Ticking(l) && AllAlive(l, k) && Pingable(l, q) && StepOf(l.cursor, q, |l.nodes|) == |l.nodes| - 1
    requires WellFormed(l.ring)
    requires c.name == l.conf.name && c.state == Dead && Max(l.dominant, c.dominant) < U64 - 1
    requires forall e :: e in l.ring.entries && e.msg.name == l.conf.name ==> e.msg.dominant <= l.dominant
    requires Fits(PongAlert(l, c, ch), size, room)
    ensures var reaches := EverSentTo(PongAlert(l, c, ch), l.nodes[q], Retort(l, c), size, room);
            && (reaches <==> |l.nodes| - 2 < Times(l.nodeNum))
            && (l.nodeNum == |l.nodes| ==> (reaches <==> |l.nodes| <= 4))
  {
    var m := PongAlert(l, c, ch);
    AlertQueues(l, c, ch);
    AlertKeepsWalk(l, c, ch, q, k);
    OthersFirst(m, q, k);
    WhenSentTo(m, q, Retort(l, c), Times(l.nodeNum), size, room);
    if l.nodeNum == |l.nodes| {
      SendsForOthers(l.nodeNum);
    }
  }

  /** Five nodes that are all alive; this one, the first, has just pinged the second. */
  function Five(conf: Config, names: seq<Name>): Node
    requires |names| == 5 && names[0] == conf.name
  {
    Boot(conf, 2).(
      records := map m | m in names :: Claim(m, conf.address, 1, Alive, None),
      nodes := names, nodeNum := 5, dominant := 1)
  }

  lemma NoLonger(cs: seq<Claim>, ms: seq<Claim>)
    requires Selected(cs, ms)
    ensures |cs| <= |ms|
  {
    var rest := multiset(ms) - multiset(cs);
    assert multiset(ms) == multiset(cs) + rest;
    assert |multiset(ms)| == |ms| && |multiset(cs)| == |cs|;
  }

  /** An encoding of a hundred bytes a claim, and packets that hold fourteen: told at once
      that it is dead, the first of five never pings the answer to the second. */
  lemma NeverReachesAmongFive(conf: Config, names: seq<Name>, ch: Choice)
    requires |names| == 5 && names[0] == conf.name && Distinct(names)
    ensures var size := (cs: seq<Claim>) => 100 * |cs|;
            !EverSentTo(PongAlert(Five(conf, names), Conviction(SelfClaim(conf, 1)), ch), names[1],
                        SelfClaim(conf, 2), size, 1400)
  {
    var l, c, size := Five(conf, names), Conviction(SelfClaim(conf, 1)), (cs: seq<Claim>) => 100 * |cs|;
    var m := PongAlert(l, c, ch);
    assert |Msgs(Upcoming(m.ring))| == 1;
    forall cs | cs != [] && Selected(cs, Msgs(Upcoming(m.ring))) ensures size(cs) <= 1400 {
      NoLonger(cs, Msgs(Upcoming(m.ring)));
    }
    StepIs(l.cursor, 1, 5);
    PromptAnswerReaches(l, 1, 0, c, size, 1400, ch);
  }
}
