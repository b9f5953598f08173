/** What a network can still do from any state it reaches: a node that is falsely held
    dead can clear itself, if the alert that tells it so arrives late enough. */
module NetworkLiveness {
  import opened Claims
  import opened Broadcast
  import opened Handlers
  import opened Invariants
  import opened NodeLaws
  import opened Network
  import opened NetworkSafety
  import opened NetworkLaws
  import opened Probing
  import opened Delivery

  predicate CanContinue(net: Net, acts: seq<Act>)
    decreases |acts|
  {
    acts == [] || (Possible(net, acts[0]) && CanContinue(Next(net, acts[0]), acts[1..]))
  }

  function Continue(net: Net, acts: seq<Act>): Net
    requires CanContinue(net, acts)
    decreases |acts|
  {
    if acts == [] then net else Continue(Next(net, acts[0]), acts[1..])
  }

  lemma ContinueFirst(net: Net, a: Act, rest: seq<Act>)
    requires Possible(net, a) && CanContinue(Next(net, a), rest)
    ensures CanContinue(net, [a] + rest)
    ensures Continue(net, [a] + rest) == Continue(Next(net, a), rest)
  {
    assert ([a] + rest)[1..] == rest;
  }

  lemma {:induction false} ContinueThen(net: Net, acts: seq<Act>, a: Act)
    requires CanContinue(net, acts) && Possible(Continue(net, acts), a)
    ensures CanContinue(net, acts + [a])
    ensures Continue(net, acts + [a]) == Next(Continue(net, acts), a)
    decreases |acts|
  {
    if acts == [] {
      ContinueFirst(net, a, []);
      assert acts + [a] == [a] + [];
    } else {
      ContinueThen(Next(net, acts[0]), acts[1..], a);
      ContinueFirst(net, acts[0], acts[1..] + [a]);
      assert acts + [a] == [acts[0]] + (acts[1..] + [a]);
    }
  }

  lemma FirstActFirst(first: seq<Act>, rest: seq<Act>)
    requires first != []
    ensures first + rest == [first[0]] + (first[1..] + rest)
  {}

  lemma {:induction false} ContinueConcat(net: Net, first: seq<Act>, rest: seq<Act>)
    requires CanContinue(net, first) && CanContinue(Continue(net, first), rest)
    ensures CanContinue(net, first + rest)
    ensures Continue(net, first + rest) == Continue(Continue(net, first), rest)
    decreases |first|
  {
    if first == [] {
      assert first + rest == rest;
    } else {
      var a, later := first[0], first[1..];
      ContinueConcat(Next(net, a), later, rest);
      ContinueFirst(net, a, later + rest);
      FirstActFirst(first, rest);
    }
  }

  // ----- ticks -----

  function Tick(n: Name, size: seq<Claim> -> nat, room: int, ch: Choice): Act {
    Do(n, ProbeTick(size, room), ch)
  }

  function Ticks(n: Name, size: seq<Claim> -> nat, room: int, ch: Choice, t: nat): (acts: seq<Act>)
    ensures |acts| == t
    decreases t
  {
    if t == 0 then [] else Ticks(n, size, room, ch, t - 1) + [Tick(n, size, room, ch)]
  }

  /** Only n has moved, and what was in flight still is. */
  ghost predicate OnlyMoved(net: Net, net': Net, n: Name) {
    && n in net'.nodes && net.soup <= net'.soup
    && forall m :: m in net.nodes && m != n ==> m in net'.nodes && net'.nodes[m] == net.nodes[m]
  }

  lemma OnlyMovedThen(net: Net, mid: Net, net': Net, n: Name)
    requires OnlyMoved(net, mid, n) && OnlyMoved(mid, net', n)
    ensures OnlyMoved(net, net', n)
  {}

  lemma TickNext(net: Net, n: Name, size: seq<Claim> -> nat, room: int, ch: Choice)
    requires n in net.nodes && CanProbe(net.nodes[n])
    ensures var a := Tick(n, size, room, ch);
            && Possible(net, a) && OnlyMoved(net, Next(net, a), n)
            && Next(net, a).nodes[n] == Probe(net.nodes[n], size, room)
            && TickSends(net.nodes[n], size, room) <= Next(net, a).soup
  {}

  lemma {:induction false} TicksRun(net: Net, n: Name, size: seq<Claim> -> nat, room: int, ch: Choice, t: nat)
    requires n in net.nodes && Ticking(net.nodes[n]) && |net.nodes[n].nodes| > 1
    ensures CanContinue(net, Ticks(n, size, room, ch, t))
    ensures var net' := Continue(net, Ticks(n, size, room, ch, t));
            OnlyMoved(net, net', n) && net'.nodes[n] == Ticked(net.nodes[n], size, room, t)
    decreases t
  {
    if t > 0 {
      TicksRun(net, n, size, room, ch, t - 1);
      var mid := Continue(net, Ticks(n, size, room, ch, t - 1));
      TickedKeeps(net.nodes[n], size, room, t - 1);
      TickKeeps(mid.nodes[n], size, room);
      TickNext(mid, n, size, room, ch);
      ContinueThen(net, Ticks(n, size, room, ch, t - 1), Tick(n, size, room, ch));
      OnlyMovedThen(net, mid, Next(mid, Tick(n, size, room, ch)), n);
    }
  }

  /** t ticks, and what the one after them sends. */
  lemma TicksThenSend(net: Net, n: Name, size: seq<Claim> -> nat, room: int, ch: Choice, t: nat)
    requires n in net.nodes && Ticking(net.nodes[n]) && |net.nodes[n].nodes| > 1
    ensures CanContinue(net, Ticks(n, size, room, ch, t + 1))
    ensures var net' := Continue(net, Ticks(n, size, room, ch, t + 1));
            && OnlyMoved(net, net', n) && net'.nodes[n] == Ticked(net.nodes[n], size, room, t + 1)
            && TickSends(Ticked(net.nodes[n], size, room, t), size, room) <= net'.soup
  {
    TicksRun(net, n, size, room, ch, t);
    TicksRun(net, n, size, room, ch, t + 1);
    var mid := Continue(net, Ticks(n, size, room, ch, t));
    TickedKeeps(net.nodes[n], size, room, t);
    TickKeeps(mid.nodes[n], size, room);
    TickNext(mid, n, size, room, ch);
    ContinueThen(net, Ticks(n, size, room, ch, t), Tick(n, size, room, ch));
  }

  /** When a queued message leaves, by the node's own ticks alone. */
  lemma {:induction false} SentByTick(l: Node, q: nat, o: Claim, j: nat,
                                      size: seq<Claim> -> nat, room: int) returns (t: nat, to: Name)
    requires Ticking(l) && EachFits(l, size, room) && Pingable(l, q) && Waits(l, o, j)
    ensures t <= Patience(l, q, j) && News(to, o) in TickSends(Ticked(l, size, room, t), size, room)
    decreases Patience(l, q, j)
  {
    TickKeeps(l, size, room);
    var j' := TickProgress(l, q, o, j, size, room);
    if News(Target(l), o) in Sent(l, ProbeTick(size, room)) {
      t, to := 0, Target(l);
    } else {
      t, to := SentByTick(Probe(l, size, room), q, o, j', size, room);
      TickedAfterOne(l, size, room, t);
      t := t + 1;
    }
  }

  /** A lap of the index for every message queued and every unit of the packet limit. */
  function Turns(l: Node): nat {
    Laps(|l.ring.entries| + l.maxAppended, |l.nodes|)
  }

  lemma PatienceBounded(l: Node, q: nat, j: nat)
    requires q < |l.nodes| && j < |l.ring.entries|
    ensures Patience(l, q, j) < Turns(l)
  {
    StepReaches(l.cursor, q, |l.nodes|);
    LapSaved(|l.ring.entries| + l.maxAppended, j + l.maxAppended, |l.nodes|);
  }

  lemma QueuedLeaves(l: Node, q: nat, k: nat, size: seq<Claim> -> nat, room: int) returns (t: nat, to: Name)
    requires Ticking(l) && EachFits(l, size, room) && Pingable(l, q) && k < |l.ring.entries|
    ensures t < Turns(l)
    ensures News(to, l.ring.entries[k].msg) in TickSends(Ticked(l, size, room, t), size, room)
  {
    var j := QueuedWaits(l, k);
    t, to := SentByTick(l, q, l.ring.entries[k].msg, j, size, room);
    PatienceBounded(l, q, j);
  }

  /** A queued message is sent, to one node at least: within `Turns` ticks it is in flight,
      whatever packets are too big, so long as each message fits by itself. */
  lemma QueuedIsSent(net: Net, n: Name, q: nat, k: nat,
                     size: seq<Claim> -> nat, room: int, ch: Choice) returns (t: nat, to: Name)
    requires n in net.nodes && Ticking(net.nodes[n]) && EachFits(net.nodes[n], size, room)
    requires Pingable(net.nodes[n], q) && k < |net.nodes[n].ring.entries|
    ensures t < Turns(net.nodes[n])
    ensures CanContinue(net, Ticks(n, size, room, ch, t + 1))
    ensures News(to, net.nodes[n].ring.entries[k].msg) in Continue(net, Ticks(n, size, room, ch, t + 1)).soup
  {
    t, to := QueuedLeaves(net.nodes[n], q, k, size, room);
    TicksThenSend(net, n, size, room, ch, t);
  }

  // ----- a node that is falsely held dead -----

  lemma PeerIsListed(l: Node, p: Name) returns (q: nat)
    requires Inv(l) && Started(l) && p != l.conf.name
    requires Knows(l, p) && l.records[p].state == Alive
    ensures Pingable(l, q) && l.nodes[q] == p && Ticking(l)
  {
    q :| 0 <= q < |l.nodes| && l.nodes[q] == p;
    var k :| 0 <= k < |l.nodes| && l.nodes[k] == l.conf.name;
  }

  /** p lists n as alive under an incarnation above d. */
  predicate Cleared(net: Net, n: Name, p: Name, d: u64) {
    && p in net.nodes && n in net.nodes[p].nodes && Knows(net.nodes[p], n)
    && net.nodes[p].records[n].state == Alive && net.nodes[p].records[n].dominant > d
  }

  lemma ReadySends(l: Node, q: nat, size: seq<Claim> -> nat, room: int)
    requires Ticking(l) && Pingable(l, q) && StepOf(l.cursor, q, |l.nodes|) == 0
    ensures TickSends(l, size, room) ==
            {Ping(l.nodes[q], l.conf.name)} + NewsFor(l.nodes[q], Appended(l, size, room))
  {
    StepReaches(l.cursor, q, |l.nodes|);
    assert Ticked(l, size, room, 0) == l;
    TickSendsTo(l, size, room, 0);
  }

  /** From any state: tick until the queue is empty and p has been pinged. */
  lemma PeerGetsPinged(net: Net, n: Name, p: Name, q: nat,
                       size: seq<Claim> -> nat, room: int, ch: Choice) returns (t: nat)
    requires n in net.nodes && net.nodes[n].conf.name == n
    requires Drains(net.nodes[n], q, size, room) && net.nodes[n].nodes[q] == p
    ensures t <= Strain(net.nodes[n], q) && Ready(Ticked(net.nodes[n], size, room, t), q)
    ensures CanContinue(net, Ticks(n, size, room, ch, t + 1))
    ensures var net' := Continue(net, Ticks(n, size, room, ch, t + 1));
            && OnlyMoved(net, net', n) && Ping(p, n) in net'.soup
            && net'.nodes[n] == Ticked(net.nodes[n], size, room, t + 1)
  {
    t := TicksDrain(net.nodes[n], q, size, room);
    TickedKeeps(net.nodes[n], size, room, t);
    ReadySends(Ticked(net.nodes[n], size, room, t), q, size, room);
    TicksThenSend(net, n, size, room, ch, t);
  }

  /** n lists p, at position q, as alive; p holds n dead; neither has used up its incarnations. */
  predicate FalselyDead(net: Net, n: Name, p: Name, q: nat) {
    && n in net.nodes && p in net.nodes && p != n && net.nodes[n].conf.name == n
    && Ticking(net.nodes[n]) && Pingable(net.nodes[n], q) && net.nodes[n].nodes[q] == p
    && IsDead(net.nodes[p], n) && net.nodes[p].records[n].name == n
    && Max(net.nodes[n].dominant, net.nodes[p].records[n].dominant) < U64 - 1
  }

  /** What n objects with once it hears of it. */
  function Objector(net: Net, n: Name, p: Name): Claim
    requires n in net.nodes && p in net.nodes && Knows(net.nodes[p], n)
    requires Max(net.nodes[n].dominant, net.nodes[p].records[n].dominant) < U64 - 1
  {
    SelfClaim(net.nodes[n].conf, Max(net.nodes[n].dominant, net.nodes[p].records[n].dominant) + 1)
  }

  /** Ticks of n change neither what it says of p nor what p says of it. */
  lemma StillFalselyDead(net: Net, net': Net, n: Name, p: Name, q: nat)
    requires FalselyDead(net, n, p, q) && OnlyMoved(net, net', n)
    requires SameBeliefs(net.nodes[n], net'.nodes[n]) && Ticking(net'.nodes[n])
    ensures FalselyDead(net', n, p, q) && net'.nodes[p] == net.nodes[p]
    ensures Objector(net', n, p) == Objector(net, n, p)
  {}

  // ----- the alert -----

  lemma AnswerNext(net: Net, n: Name, p: Name, q: nat)
    requires FalselyDead(net, n, p, q) && Ping(p, n) in net.soup
    ensures var a, net' := Answer(p, n), Next(net, Answer(p, n));
            && Possible(net, a) && net'.nodes == net.nodes && OnlyMoved(net, net', n)
            && Pong(n, net.nodes[p].records[n]) in net'.soup
  {}

  lemma AnswerKeeps(net: Net, net': Net, n: Name, p: Name, q: nat)
    requires FalselyDead(net, n, p, q) && net'.nodes == net.nodes
    ensures FalselyDead(net', n, p, q) && Objector(net', n, p) == Objector(net, n, p)
  {}

  /** After `mid`, a state in which n has pinged p, p answers. */
  lemma PeerAnswers(net: Net, mid: Net, n: Name, p: Name, q: nat)
    requires FalselyDead(net, n, p, q) && OnlyMoved(net, mid, n) && Ping(p, n) in mid.soup
    requires SameBeliefs(net.nodes[n], mid.nodes[n]) && Ticking(mid.nodes[n])
    ensures var net' := Next(mid, Answer(p, n));
            && Possible(mid, Answer(p, n)) && OnlyMoved(net, net', n) && FalselyDead(net', n, p, q)
            && net'.nodes[p] == net.nodes[p] && net'.nodes[n] == mid.nodes[n]
            && Pong(n, net.nodes[p].records[n]) in net'.soup
    ensures Objector(Next(mid, Answer(p, n)), n, p) == Objector(net, n, p)
  {
    StillFalselyDead(net, mid, n, p, q);
    AnswerNext(mid, n, p, q);
    AnswerKeeps(mid, Next(mid, Answer(p, n)), n, p, q);
    OnlyMovedThen(net, mid, Next(mid, Answer(p, n)), n);
  }

  /** Ticks until p is pinged, and p's answer: it holds n dead, and says so. */
  function Asking(n: Name, p: Name, t: nat, size: seq<Claim> -> nat, room: int, ch: Choice): seq<Act> {
    Ticks(n, size, room, ch, t + 1) + [Answer(p, n)]
  }

  lemma AlertIsSent(net: Net, n: Name, p: Name, q: nat,
                    size: seq<Claim> -> nat, room: int, ch: Choice) returns (t: nat)
    requires FalselyDead(net, n, p, q) && Drains(net.nodes[n], q, size, room)
    ensures t <= Strain(net.nodes[n], q) && Ready(Ticked(net.nodes[n], size, room, t), q)
    ensures CanContinue(net, Asking(n, p, t, size, room, ch))
    ensures OnlyMoved(net, Continue(net, Asking(n, p, t, size, room, ch)), n)
    ensures var net' := Continue(net, Asking(n, p, t, size, room, ch));
            && FalselyDead(net', n, p, q) && Objector(net', n, p) == Objector(net, n, p)
            && net'.nodes[p] == net.nodes[p] && net'.nodes[n] == Ticked(net.nodes[n], size, room, t + 1)
            && Pong(n, net.nodes[p].records[n]) in net'.soup
  {
    t := PeerGetsPinged(net, n, p, q, size, room, ch);
    var mid := Continue(net, Ticks(n, size, room, ch, t + 1));
    TickedKeeps(net.nodes[n], size, room, t + 1);
    PeerAnswers(net, mid, n, p, q);
    ContinueThen(net, Ticks(n, size, room, ch, t + 1), Answer(p, n));
  }

  // ----- the answer to the alert -----

  /** An alert to a node with an empty queue: the answer is all it then sends. */
  lemma AlertFillsQueue(m: Node, c: Claim, size: seq<Claim> -> nat, room: int, ch: Choice)
    requires m.ring.entries == [] && m.maxAppended >= 1 && OwnFits(m.conf, size, room)
    requires c.name == m.conf.name && c.state == Dead && Max(m.dominant, c.dominant) < U64 - 1
    ensures var o := SelfClaim(m.conf, Max(m.dominant, c.dominant) + 1);
            Appended(PongAlert(m, c, ch), size, room) == [o]
  {
    ObjectionOutranks(m.dominant, c.dominant);
    var o, m' := SelfClaim(m.conf, Max(m.dominant, c.dominant) + 1), PongAlert(m, c, ch);
    assert m'.ring.entries == [Entry(o, Times(m.nodeNum))];
    assert Upcoming(m'.ring) == m'.ring.entries;
    assert Upcoming(m'.ring)[..1] == [m'.ring.entries[0]];
    assert Due(m') == [o];
    assert size([o]) <= room;
  }

  lemma NewsOfFirst(to: Name, cs: seq<Claim>)
    requires cs != []
    ensures News(to, cs[0]) in NewsFor(to, cs)
  {}

  /** The alert arrives when the queue is empty and q is next: the answer goes there. */
  lemma AlertThenSend(m: Node, q: nat, c: Claim, size: seq<Claim> -> nat, room: int, ch: Choice)
    requires Ticking(m) && Ready(m, q) && OwnFits(m.conf, size, room)
    requires c.name == m.conf.name && c.state == Dead && Max(m.dominant, c.dominant) < U64 - 1
    ensures var m' := PongAlert(m, c, ch);
            && Ticking(m') && Pingable(m', q) && m'.nodes == m.nodes
            && News(m.nodes[q], SelfClaim(m.conf, Max(m.dominant, c.dominant) + 1)) in TickSends(m', size, room)
  {
    var m' := PongAlert(m, c, ch);
    assert m'.cursor == m.cursor && m'.nodes == m.nodes && m'.records == m.records && m'.conf == m.conf;
    AlertFillsQueue(m, c, size, room, ch);
    ReadySends(m', q, size, room);
    NewsOfFirst(m.nodes[q], Appended(m', size, room));
  }

  lemma AlertNext(net: Net, n: Name, c: Claim, ch: Choice)
    requires n in net.nodes && Pong(n, c) in net.soup
    ensures var alert := Do(n, Alert(c), ch);
            && Possible(net, alert) && OnlyMoved(net, Next(net, alert), n)
            && Next(net, alert).nodes[n] == PongAlert(net.nodes[n], c, ch)
  {}

  function Answering(n: Name, c: Claim, size: seq<Claim> -> nat, room: int, ch: Choice): seq<Act> {
    [Do(n, Alert(c), ch)] + Ticks(n, size, room, ch, 1)
  }

  lemma AlertThenPing(net: Net, n: Name, p: Name, q: nat, c: Claim,
                      size: seq<Claim> -> nat, room: int, ch: Choice)
    requires FalselyDead(net, n, p, q) && Ready(net.nodes[n], q) && OwnFits(net.nodes[n].conf, size, room)
    requires Pong(n, c) in net.soup && c == net.nodes[p].records[n]
    ensures CanContinue(net, Answering(n, c, size, room, ch))
    ensures var net' := Continue(net, Answering(n, c, size, room, ch));
            OnlyMoved(net, net', n) && News(p, Objector(net, n, p)) in net'.soup
  {
    var net' := Next(net, Do(n, Alert(c), ch));
    AlertNext(net, n, c, ch);
    AlertThenSend(net.nodes[n], q, c, size, room, ch);
    assert Ticked(net'.nodes[n], size, room, 0) == net'.nodes[n];
    TicksThenSend(net', n, size, room, ch, 0);
    ContinueFirst(net, Do(n, Alert(c), ch), Ticks(n, size, room, ch, 1));
    OnlyMovedThen(net, net', Continue(net', Ticks(n, size, room, ch, 1)), n);
  }

  lemma TakesBackOnReceipt(net: Net, n: Name, p: Name, o: Claim, ch: Choice)
    requires p in net.nodes && News(p, o) in net.soup && o.name == n && o.state == Alive
    requires IsDead(net.nodes[p], n) && net.nodes[p].records[n].dominant < o.dominant
    ensures var back := Do(p, Receive(o, true), ch);
            Possible(net, back) && Cleared(Next(net, back), n, p, net.nodes[p].records[n].dominant)
  {}

  function Heard(n: Name, p: Name, c: Claim, o: Claim, size: seq<Claim> -> nat, room: int, ch: Choice): seq<Act> {
    Answering(n, c, size, room, ch) + [Do(p, Receive(o, true), ch)]
  }

  lemma AlertThenHeard(net: Net, n: Name, p: Name, q: nat, c: Claim,
                       size: seq<Claim> -> nat, room: int, ch: Choice)
    requires FalselyDead(net, n, p, q) && Ready(net.nodes[n], q) && OwnFits(net.nodes[n].conf, size, room)
    requires Pong(n, c) in net.soup && c == net.nodes[p].records[n]
    ensures var acts := Heard(n, p, c, Objector(net, n, p), size, room, ch);
            CanContinue(net, acts) && Cleared(Continue(net, acts), n, p, c.dominant)
  {
    AlertThenPing(net, n, p, q, c, size, room, ch);
    var mid := Continue(net, Answering(n, c, size, room, ch));
    TakesBackOnReceipt(mid, n, p, Objector(net, n, p), ch);
    ContinueThen(net, Answering(n, c, size, room, ch), Do(p, Receive(Objector(net, n, p), true), ch));
  }

  // ----- all of it -----

  /** The alert a lap late, the answer in the ping that follows, and its receipt. */
  function Late(n: Name, p: Name, lap: nat, c: Claim, o: Claim,
                size: seq<Claim> -> nat, room: int, ch: Choice): seq<Act> {
    Ticks(n, size, room, ch, lap) + Heard(n, p, c, o, size, room, ch)
  }

  lemma LateAlertHeals(net: Net, n: Name, p: Name, q: nat, c: Claim, lap: nat,
                       size: seq<Claim> -> nat, room: int, ch: Choice)
    requires FalselyDead(net, n, p, q) && Ready(Ticked(net.nodes[n], size, room, lap), q)
    requires OwnFits(net.nodes[n].conf, size, room)
    requires Pong(n, c) in net.soup && c == net.nodes[p].records[n]
    ensures var acts := Late(n, p, lap, c, Objector(net, n, p), size, room, ch);
            CanContinue(net, acts) && Cleared(Continue(net, acts), n, p, c.dominant)
  {
    TicksRun(net, n, size, room, ch, lap);
    TickedKeeps(net.nodes[n], size, room, lap);
    var mid := Continue(net, Ticks(n, size, room, ch, lap));
    StillFalselyDead(net, mid, n, p, q);
    AlertThenHeard(mid, n, p, q, c, size, room, ch);
    ContinueConcat(net, Ticks(n, size, room, ch, lap), Heard(n, p, c, Objector(net, n, p), size, room, ch));
  }

  /** n ticks until p has been pinged and answers; n ticks on for the rest of a lap; the
      alert arrives; n pings p, which hears the answer. */
  function Healing(n: Name, p: Name, t: nat, lap: nat, c: Claim, o: Claim,
                   size: seq<Claim> -> nat, room: int, ch: Choice): (acts: seq<Act>)
    ensures |acts| == t + lap + 5
  {
    Asking(n, p, t, size, room, ch) + Late(n, p, lap, c, o, size, room, ch)
  }

  lemma ReadyALapOn(l: Node, q: nat, t: nat, size: seq<Claim> -> nat, room: int)
    requires Ticking(l) && |l.nodes| > 1 && Ready(Ticked(l, size, room, t), q)
    ensures Ready(Ticked(Ticked(l, size, room, t + 1), size, room, |l.nodes| - 1), q)
  {
    TickedKeeps(l, size, room, t);
    ReadyAgain(Ticked(l, size, room, t), q, size, room);
  }

  lemma HealingWorks(net: Net, n: Name, p: Name, q: nat,
                     size: seq<Claim> -> nat, room: int, ch: Choice) returns (t: nat)
    requires FalselyDead(net, n, p, q) && Drains(net.nodes[n], q, size, room)
    requires OwnFits(net.nodes[n].conf, size, room)
    ensures t <= Strain(net.nodes[n], q)
    ensures var c := net.nodes[p].records[n];
            var acts := Healing(n, p, t, |net.nodes[n].nodes| - 1, c, Objector(net, n, p), size, room, ch);
            CanContinue(net, acts) && Cleared(Continue(net, acts), n, p, c.dominant)
  {
    var l, c, lap := net.nodes[n], net.nodes[p].records[n], |net.nodes[n].nodes| - 1;
    t := AlertIsSent(net, n, p, q, size, room, ch);
    ReadyALapOn(l, q, t, size, room);
    LateAlertHeals(Continue(net, Asking(n, p, t, size, room, ch)), n, p, q, c, lap, size, room, ch);
    ContinueConcat(net, Asking(n, p, t, size, room, ch), Late(n, p, lap, c, Objector(net, n, p), size, room, ch));
  }

  /** A bound on the ticks until p is pinged with nothing left in the queue: a lap for each
      send that is left and each unit of the packet limit, and one more. */
  function Wait(l: Node): nat {
    Laps(Load(l) + 1, |l.nodes|)
  }

  lemma StrainBounded(l: Node, q: nat)
    requires q < |l.nodes|
    ensures Strain(l, q) < Wait(l)
  {
    StepReaches(l.cursor, q, |l.nodes|);
  }

  lemma SafeNode(net: Net, n: Name)
    requires Safe(net) && n in net.nodes
    ensures NodeSafe(net.nodes[n], net.issued) && net.nodes[n].conf.name == n
  {}

  lemma SafeHolder(l: Node, issued: map<Name, set<u64>>, n: Name)
    requires NodeSafe(l, issued) && IsDead(l, n)
    ensures l.records[n].name == n && l.records[n].dominant in IssuedBy(issued, n)
  {
    assert GenuineIn(issued)(l.records[n]);
  }

  lemma BelowLast(a: u64, b: u64, issued: set<u64>)
    requires a in issued && b in issued && LastIncarnation !in issued
    ensures Max(a, b) < U64 - 1
  {}

  /** What a safe state says of the two. */
  lemma SafeFalselyDead(net: Net, n: Name, p: Name) returns (q: nat)
    requires Safe(net) && n in net.nodes && p in net.nodes && p != n && IsDead(net.nodes[p], n)
    requires Knows(net.nodes[n], p) && net.nodes[n].records[p].state == Alive
    requires LastIncarnation !in IssuedBy(net.issued, n)
    ensures FalselyDead(net, n, p, q) && WellFormed(net.nodes[n].ring)
  {
    SafeNode(net, n);
    SafeNode(net, p);
    SafeHolder(net.nodes[p], net.issued, n);
    BelowLast(net.nodes[n].dominant, net.nodes[p].records[n].dominant, IssuedBy(net.issued, n));
    q := PeerIsListed(net.nodes[n], p);
  }

  /** The acts heal: they are possible one after the other, each packet going to whom it
      was sent, and after them p has taken n back. */
  ghost predicate Heals(net: Net, n: Name, p: Name, t: nat, size: seq<Claim> -> nat, room: int, ch: Choice)
    requires n in net.nodes && p in net.nodes && Knows(net.nodes[p], n) && net.nodes[n].nodes != []
  {
    && Max(net.nodes[n].dominant, net.nodes[p].records[n].dominant) < U64 - 1
    && var c := net.nodes[p].records[n];
       var acts := Healing(n, p, t, |net.nodes[n].nodes| - 1, c, Objector(net, n, p), size, room, ch);
       CanContinue(net, acts) && Cleared(Continue(net, acts), n, p, c.dominant)
  }

  /** A peer that falsely holds a node dead takes it back: from any safe state there is a way
      on, of ticks at the node, one answer and two deliveries, after which that peer lists the
      node as alive under a newer incarnation. The alert has to arrive a lap late, when the
      queue is empty and the peer is next. */
  lemma DeadAlertHeals(net: Net, n: Name, p: Name, size: seq<Claim> -> nat, room: int, ch: Choice)
    returns (t: nat)
    requires Safe(net) && n in net.nodes && p in net.nodes && p != n
    requires IsDead(net.nodes[p], n) && EachFits(net.nodes[n], size, room) && OwnFits(net.nodes[n].conf, size, room)
    requires Knows(net.nodes[n], p) && net.nodes[n].records[p].state == Alive
    requires LastIncarnation !in IssuedBy(net.issued, n)
    ensures t < Wait(net.nodes[n]) && net.nodes[n].nodes != [] && Heals(net, n, p, t, size, room, ch)
  {
    var q := SafeFalselyDead(net, n, p);
    t := HealingWorks(net, n, p, q, size, room, ch);
    StrainBounded(net.nodes[n], q);
  }

  /** The same of every state a run reaches, unless it has taken 2^64 - 1 steps. */
  lemma RunsCanHeal(nets: seq<Net>, acts: seq<Act>, i: nat, n: Name, p: Name,
                    size: seq<Claim> -> nat, room: int, ch: Choice) returns (t: nat)
    requires IsRun(nets, acts) && i < |nets| && i < U64 - 1
    requires n in nets[i].nodes && p in nets[i].nodes && p != n && IsDead(nets[i].nodes[p], n)
    requires EachFits(nets[i].nodes[n], size, room) && OwnFits(nets[i].nodes[n].conf, size, room)
    requires Knows(nets[i].nodes[n], p) && nets[i].nodes[n].records[p].state == Alive
    ensures t < Wait(nets[i].nodes[n]) && nets[i].nodes[n].nodes != []
    ensures Heals(nets[i], n, p, t, size, room, ch)
  {
    ReachableIsSafe(nets, acts, i);
    IncarnationsGrowSlowly(nets, acts, i, n);
    t := DeadAlertHeals(nets[i], n, p, size, room, ch);
  }
}
