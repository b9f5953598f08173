/** An alert that is handled at once: a third node takes the answer to the peer. */
module PassedOn {
  import opened Claims
  import opened Broadcast
  import opened Handlers
  import opened NodeLaws
  import opened Network
  import opened NetworkSafety
  import opened NetworkLiveness
  import opened Probing
  import opened Delivery
  import opened PromptAnswers

  // ----- the node that was told it is dead -----

  lemma SameWalk(l: Node, m: Node, q: nat)
    requires q < |l.nodes| && SameBeliefs(l, m) && m.cursor % |l.nodes| == l.cursor % |l.nodes|
    ensures StepOf(m.cursor, q, |m.nodes|) == StepOf(l.cursor, q, |l.nodes|)
  {}

  lemma {:induction false} SamePings(l: Node, m: Node, t: nat)
    requires l.nodes != [] && m.nodes == l.nodes && m.records == l.records && m.conf == l.conf
    requires m.cursor % |l.nodes| == l.cursor % |l.nodes|
    ensures Pings(m, t) == Pings(l, t)
    decreases t
  {
    if t > 0 {
      SamePings(l, m, t - 1);
      ModAdd(l.cursor, t - 1, |l.nodes|);
      ModAdd(m.cursor, t - 1, |l.nodes|);
    }
  }

  /** How many nodes come between those at q and s, in the order in which they are pinged. */
  function PingedBetween(l: Node, q: nat, s: nat): nat
    requires q < |l.nodes| && s < |l.nodes|
  {
    Pings(l.(cursor := q + 1), StepOf(q + 1, s, |l.nodes|))
  }

  lemma OnlyChoice(cs: seq<Claim>, o: Claim)
    requires cs != [] && Selected(cs, [o])
    ensures cs == [o]
  {
    NoLonger(cs, [o]);
    assert cs[0] in multiset(cs);
  }

  lemma OneMessageFits(m: Node, o: Claim, b: nat, size: seq<Claim> -> nat, room: int)
    requires m.ring.entries == [Entry(o, b)] && m.maxAppended >= 1 && size([o]) <= room
    ensures Fits(m, size, room)
  {
    var ms := Msgs(Upcoming(m.ring));
    assert Upcoming(m.ring) == m.ring.entries;
    assert ms == [o];
    forall cs | cs != [] && Selected(cs, ms) ensures size(cs) <= room {
      OnlyChoice(cs, o);
    }
  }

  /** The alert at a node with an empty queue: o waits alone, with all its sends. */
  lemma AlertAlone(m: Node, c: Claim, size: seq<Claim> -> nat, room: int, ch: Choice)
    requires m.ring.entries == [] && m.maxAppended >= 1 && OwnFits(m.conf, size, room)
    requires c.name == m.conf.name && c.state == Dead && Max(m.dominant, c.dominant) < U64 - 1
    ensures var m' := PongAlert(m, c, ch);
            && Entry(Retort(m, c), Times(m.nodeNum)) in m'.ring.entries
            && WellFormed(m'.ring) && Fits(m', size, room)
  {
    AlertQueues(m, c, ch);
    var m' := PongAlert(m, c, ch);
    assert m'.ring.entries == [Entry(Retort(m, c), Times(m.nodeNum))];
    assert size([SelfClaim(m.conf, Max(m.dominant, c.dominant) + 1)]) <= room;
    OneMessageFits(m', Retort(m, c), Times(m.nodeNum), size, room);
  }

  lemma AlertKeeps(m: Node, c: Claim, ch: Choice)
    requires Ticking(m)
    ensures var m' := PongAlert(m, c, ch);
            && Ticking(m') && m'.nodes == m.nodes && m'.records == m.records
            && m'.conf == m.conf && m'.cursor == m.cursor
  {}

  /** Told at once, the node sends the answer to the one at position s when its turn comes,
      if fewer are pinged before than the answer has sends. */
  lemma AnswerInTurn(m: Node, s: nat, c: Claim, size: seq<Claim> -> nat, room: int, ch: Choice)
    requires Ticking(m) && Distinct(m.nodes) && Pingable(m, s) && m.ring.entries == [] && OwnFits(m.conf, size, room)
    requires c.name == m.conf.name && c.state == Dead && Max(m.dominant, c.dominant) < U64 - 1
    requires Pings(m, StepOf(m.cursor, s, |m.nodes|)) < Times(m.nodeNum)
    ensures News(m.nodes[s], Retort(m, c)) in
              TickSends(Ticked(PongAlert(m, c, ch), size, room, StepOf(m.cursor, s, |m.nodes|)), size, room)
  {
    AlertKeeps(m, c, ch);
    AlertAlone(m, c, size, room, ch);
    SamePings(m, PongAlert(m, c, ch), StepOf(m.cursor, s, |m.nodes|));
    SentAtFirstTurn(PongAlert(m, c, ch), s, Retort(m, c), Times(m.nodeNum), size, room);
  }

  // ----- the third node -----

  /** o is news about another node. */
  predicate IsNews(l: Node, o: Claim) {
    && o.state == Alive && o.name != l.conf.name
    && (if Knows(l, o.name) then l.records[o.name].dominant else 0) < o.dominant
  }

  /** An idle node that is just about to ping position r hears news: it pings it on. */
  lemma HearsAndPasses(l: Node, r: nat, o: Claim, size: seq<Claim> -> nat, room: int, ch: Choice)
    requires Ticking(l) && Ready(l, r) && l.cursor == r && l.nodes[r] != o.name
    requires IsNews(l, o) && size([o]) <= room
    ensures var m := Merge(l, o, true, ch);
            && Ticking(m) && |m.nodes| > 1 && News(l.nodes[r], o) in TickSends(m, size, room)
  {
    var m := Merge(l, o, true, ch);
    assert Pingable(m, r) && m.nodes[r] == l.nodes[r] && m.cursor == r;
    StepIs(m.cursor, r, |m.nodes|);
    ModUnique(r, 0, r, |m.nodes|);
    ReadySends(m, r, size, room);
    assert m.ring.entries == [Entry(o, m.ring.entries[0].times)];
    assert Upcoming(m.ring) == m.ring.entries;
    assert Upcoming(m.ring)[..1] == [m.ring.entries[0]];
    assert Due(m) == [o];
    NewsOfFirst(l.nodes[r], Appended(m, size, room));
  }

  // ----- the three in a network -----

  /** x is idle and its next ping goes to p, at position r of its index. */
  ghost predicate Waiting(net: Net, x: Name, p: Name, r: nat) {
    && x in net.nodes && net.nodes[x].conf.name == x && Ticking(net.nodes[x])
    && Ready(net.nodes[x], r) && net.nodes[x].cursor == r && net.nodes[x].nodes[r] == p
  }

  lemma CursorInRange(l: Node, size: seq<Claim> -> nat, room: int, t: nat)
    requires Ticking(l) && |l.nodes| > 1 && t > 0
    ensures Ticked(l, size, room, t).cursor < |l.nodes|
  {
    TickedKeeps(l, size, room, t - 1);
    TickKeeps(Ticked(l, size, room, t - 1), size, room);
  }

  lemma ReadyAtCursor(l: Node, r: nat)
    requires Ready(l, r) && l.cursor < |l.nodes|
    ensures l.cursor == r
  {
    NextStep(l.cursor, r, |l.nodes|);
    ModUnique(l.cursor, 0, l.cursor, |l.nodes|);
  }

  /** x ticks until it is idle and has come around to p again. */
  function GettingIdle(x: Name, t: nat, lap: nat, size: seq<Claim> -> nat, room: int, ch: Choice): seq<Act> {
    Ticks(x, size, room, ch, t + 1) + Ticks(x, size, room, ch, lap)
  }

  lemma ThirdGetsIdle(net: Net, x: Name, p: Name, r: nat,
                      size: seq<Claim> -> nat, room: int, ch: Choice) returns (t: nat)
    requires x in net.nodes && net.nodes[x].conf.name == x
    requires Drains(net.nodes[x], r, size, room) && net.nodes[x].nodes[r] == p
    ensures t <= Strain(net.nodes[x], r)
    ensures var acts := GettingIdle(x, t, |net.nodes[x].nodes| - 1, size, room, ch);
            && CanContinue(net, acts) && OnlyMoved(net, Continue(net, acts), x)
            && Waiting(Continue(net, acts), x, p, r) && SameBeliefs(net.nodes[x], Continue(net, acts).nodes[x])
  {
    var l, lap := net.nodes[x], |net.nodes[x].nodes| - 1;
    t := PeerGetsPinged(net, x, p, r, size, room, ch);
    var mid := Continue(net, Ticks(x, size, room, ch, t + 1));
    TickedKeeps(l, size, room, t + 1);
    TicksRun(mid, x, size, room, ch, lap);
    TickedKeeps(mid.nodes[x], size, room, lap);
    CursorInRange(mid.nodes[x], size, room, lap);
    ReadyALapOn(l, r, t, size, room);
    var net' := Continue(mid, Ticks(x, size, room, ch, lap));
    ReadyAtCursor(net'.nodes[x], r);
    OnlyMovedThen(net, mid, net', x);
    ContinueConcat(net, Ticks(x, size, room, ch, t + 1), Ticks(x, size, room, ch, lap));
  }

  /** x hears o and pings it on to p, which hears it too. */
  function Passing(x: Name, p: Name, o: Claim, size: seq<Claim> -> nat, room: int, ch: Choice): seq<Act> {
    [Do(x, Receive(o, true), ch)] + (Ticks(x, size, room, ch, 1) + [Do(p, Receive(o, true), ch)])
  }

  lemma ReceiveNext(net: Net, x: Name, o: Claim, ch: Choice)
    requires x in net.nodes && News(x, o) in net.soup && o.state == Alive
    ensures var a := Do(x, Receive(o, true), ch);
            && Possible(net, a) && OnlyMoved(net, Next(net, a), x)
            && Next(net, a).nodes[x] == Merge(net.nodes[x], o, true, ch)
  {}

  lemma PassedToPeer(net: Net, x: Name, p: Name, r: nat, o: Claim,
                     size: seq<Claim> -> nat, room: int, ch: Choice)
    requires Waiting(net, x, p, r) && p != x && p in net.nodes && p != o.name && News(x, o) in net.soup
    requires IsNews(net.nodes[x], o) && size([o]) <= room
    requires IsDead(net.nodes[p], o.name) && net.nodes[p].records[o.name].dominant < o.dominant
    ensures CanContinue(net, Passing(x, p, o, size, room, ch))
    ensures Cleared(Continue(net, Passing(x, p, o, size, room, ch)), o.name, p, net.nodes[p].records[o.name].dominant)
  {
    var hear, tell := Do(x, Receive(o, true), ch), Do(p, Receive(o, true), ch);
    ReceiveNext(net, x, o, ch);
    HearsAndPasses(net.nodes[x], r, o, size, room, ch);
    var net1 := Next(net, hear);
    TicksThenSend(net1, x, size, room, ch, 0);
    assert Ticked(net1.nodes[x], size, room, 0) == net1.nodes[x];
    var net2 := Continue(net1, Ticks(x, size, room, ch, 1));
    TakesBackOnReceipt(net2, o.name, p, o, ch);
    ContinueThen(net1, Ticks(x, size, room, ch, 1), tell);
    ContinueFirst(net, hear, Ticks(x, size, room, ch, 1) + [tell]);
  }

  /** The alert, handled at once, and n's ticks until x has been pinged. */
  function Telling(n: Name, c: Claim, t: nat, size: seq<Claim> -> nat, room: int, ch: Choice): seq<Act> {
    [Do(n, Alert(c), ch)] + Ticks(n, size, room, ch, t + 1)
  }

  lemma ThirdIsTold(net: Net, n: Name, s: nat, c: Claim, size: seq<Claim> -> nat, room: int, ch: Choice)
    requires n in net.nodes && Pong(n, c) in net.soup && c.name == net.nodes[n].conf.name && c.state == Dead
    requires Ticking(net.nodes[n]) && Distinct(net.nodes[n].nodes) && Pingable(net.nodes[n], s)
    requires net.nodes[n].ring.entries == [] && OwnFits(net.nodes[n].conf, size, room)
    requires Max(net.nodes[n].dominant, c.dominant) < U64 - 1
    requires Pings(net.nodes[n], StepOf(net.nodes[n].cursor, s, |net.nodes[n].nodes|)) < Times(net.nodes[n].nodeNum)
    ensures var m := net.nodes[n];
            var acts := Telling(n, c, StepOf(m.cursor, s, |m.nodes|), size, room, ch);
            && CanContinue(net, acts) && OnlyMoved(net, Continue(net, acts), n)
            && News(m.nodes[s], Retort(m, c)) in Continue(net, acts).soup
  {
    var m, alert := net.nodes[n], Do(n, Alert(c), ch);
    var t := StepOf(m.cursor, s, |m.nodes|);
    var net' := Next(net, alert);
    AlertNext(net, n, c, ch);
    AlertKeeps(m, c, ch);
    AnswerInTurn(m, s, c, size, room, ch);
    TicksThenSend(net', n, size, room, ch, t);
    OnlyMovedThen(net, net', Continue(net', Ticks(n, size, room, ch, t + 1)), n);
    ContinueFirst(net, alert, Ticks(n, size, room, ch, t + 1));
  }

  /** From the peer's answer on: told, n tells x, and x tells p. */
  function Relay(n: Name, p: Name, x: Name, c: Claim, o: Claim, t: nat,
                 size: seq<Claim> -> nat, room: int, ch: Choice): seq<Act> {
    Telling(n, c, t, size, room, ch) + Passing(x, p, o, size, room, ch)
  }

  lemma Relayed(net: Net, n: Name, p: Name, x: Name, q: nat, s: nat, r: nat, c: Claim,
                size: seq<Claim> -> nat, room: int, ch: Choice)
    requires FalselyDead(net, n, p, q) && c == net.nodes[p].records[n] && Pong(n, c) in net.soup
    requires Distinct(net.nodes[n].nodes) && Pingable(net.nodes[n], s) && net.nodes[n].nodes[s] == x
    requires net.nodes[n].ring.entries == [] && OwnFits(net.nodes[n].conf, size, room)
    requires Pings(net.nodes[n], StepOf(net.nodes[n].cursor, s, |net.nodes[n].nodes|)) < Times(net.nodes[n].nodeNum)
    requires x != n && x != p && Waiting(net, x, p, r) && IsNews(net.nodes[x], Objector(net, n, p))
    ensures var m := net.nodes[n];
            var acts := Relay(n, p, x, c, Objector(net, n, p), StepOf(m.cursor, s, |m.nodes|), size, room, ch);
            CanContinue(net, acts) && Cleared(Continue(net, acts), n, p, c.dominant)
  {
    var m, o := net.nodes[n], Objector(net, n, p);
    var t := StepOf(m.cursor, s, |m.nodes|);
    ThirdIsTold(net, n, s, c, size, room, ch);
    var mid := Continue(net, Telling(n, c, t, size, room, ch));
    assert o == SelfClaim(m.conf, o.dominant) && size([SelfClaim(m.conf, o.dominant)]) <= room;
    PassedToPeer(mid, x, p, r, o, size, room, ch);
    ContinueConcat(net, Telling(n, c, t, size, room, ch), Passing(x, p, o, size, room, ch));
  }

  // ----- all of it -----

  lemma OnePast(c: nat, q: nat, n: nat)
    requires q < n && c % n == q
    ensures ((c + 1) % n) % n == (q + 1) % n
  {
    ModUnique(q, 0, q, n);
    OneOn(q, c, n);
  }

  lemma WhoComesNext(l: Node, m: Node, q: nat, s: nat)
    requires q < |l.nodes| && s < |l.nodes| && SameBeliefs(l, m) && m.cursor % |l.nodes| == (q + 1) % |l.nodes|
    ensures Pings(m, StepOf(m.cursor, s, |m.nodes|)) == PingedBetween(l, q, s)
  {
    var l' := l.(cursor := q + 1);
    SameWalk(l', m, s);
    SamePings(l', m, StepOf(q + 1, s, |l.nodes|));
  }

  /** The node has just pinged position q with an empty queue: who comes next. */
  lemma JustPinged(l: Node, q: nat, s: nat, t: nat, size: seq<Claim> -> nat, room: int)
    requires Ticking(l) && Pingable(l, q) && s < |l.nodes| && Ready(Ticked(l, size, room, t), q)
    ensures var m := Ticked(l, size, room, t + 1);
            && SameBeliefs(l, m) && Ticking(m) && m.ring.entries == []
            && Pings(m, StepOf(m.cursor, s, |m.nodes|)) == PingedBetween(l, q, s)
  {
    var m0 := Ticked(l, size, room, t);
    TickedKeeps(l, size, room, t);
    TickKeeps(m0, size, room);
    NextStep(m0.cursor, q, |l.nodes|);
    OnePast(m0.cursor, q, |l.nodes|);
    WhoComesNext(l, Probe(m0, size, room), q, s);
    assert Probe(m0, size, room).ring.entries == [];
  }

  /** x can help: it lists p as alive, what n has to say is news to it, and n pings it, at
      position s, before it has pinged too many others after p, at position q. */
  predicate CanHelp(net: Net, n: Name, p: Name, x: Name, q: nat, s: nat, r: nat) {
    && FalselyDead(net, n, p, q)
    && x in net.nodes && x != n && x != p && net.nodes[x].conf.name == x
    && Pingable(net.nodes[n], s) && net.nodes[n].nodes[s] == x
    && PingedBetween(net.nodes[n], q, s) < Times(net.nodes[n].nodeNum)
    && Pingable(net.nodes[x], r) && net.nodes[x].nodes[r] == p
    && IsNews(net.nodes[x], Objector(net, n, p))
  }

  lemma IdleStillHelps(net: Net, net': Net, n: Name, p: Name, x: Name, q: nat, s: nat, r: nat)
    requires CanHelp(net, n, p, x, q, s, r) && OnlyMoved(net, net', x) && SameBeliefs(net.nodes[x], net'.nodes[x])
    ensures CanHelp(net', n, p, x, q, s, r) && net'.nodes[n] == net.nodes[n] && net'.nodes[p] == net.nodes[p]
    ensures Objector(net', n, p) == Objector(net, n, p)
  {}

  /** x gets idle; n ticks until p has been pinged and answers; n is told at once, tells x
      in x's turn, and x tells p. */
  function HealingByThird(n: Name, p: Name, x: Name, c: Claim, o: Claim, idle: nat, lap: nat, t: nat, turn: nat,
                          size: seq<Claim> -> nat, room: int, ch: Choice): seq<Act>
  {
    GettingIdle(x, idle, lap, size, room, ch)
    + (Asking(n, p, t, size, room, ch) + Relay(n, p, x, c, o, turn, size, room, ch))
  }

  /** From where x is idle. */
  lemma IdleThirdHeals(net: Net, n: Name, p: Name, x: Name, q: nat, s: nat, r: nat,
                       size: seq<Claim> -> nat, room: int, ch: Choice) returns (t: nat, turn: nat)
    requires CanHelp(net, n, p, x, q, s, r) && Waiting(net, x, p, r) && Distinct(net.nodes[n].nodes)
    requires Drains(net.nodes[n], q, size, room) && OwnFits(net.nodes[n].conf, size, room)
    ensures t <= Strain(net.nodes[n], q) && turn < |net.nodes[n].nodes|
    ensures var c := net.nodes[p].records[n];
            var acts := Asking(n, p, t, size, room, ch) + Relay(n, p, x, c, Objector(net, n, p), turn, size, room, ch);
            CanContinue(net, acts) && Cleared(Continue(net, acts), n, p, c.dominant)
  {
    var l, c := net.nodes[n], net.nodes[p].records[n];
    t := AlertIsSent(net, n, p, q, size, room, ch);
    var mid := Continue(net, Asking(n, p, t, size, room, ch));
    JustPinged(l, q, s, t, size, room);
    assert mid.nodes[x] == net.nodes[x];
    turn := StepOf(mid.nodes[n].cursor, s, |l.nodes|);
    StepReaches(mid.nodes[n].cursor, s, |l.nodes|);
    Relayed(mid, n, p, x, q, s, r, c, size, room, ch);
    ContinueConcat(net, Asking(n, p, t, size, room, ch), Relay(n, p, x, c, Objector(net, n, p), turn, size, room, ch));
  }

  /** The acts heal. */
  ghost predicate HealsByThird(net: Net, n: Name, p: Name, x: Name, idle: nat, t: nat, turn: nat,
                               size: seq<Claim> -> nat, room: int, ch: Choice)
    requires n in net.nodes && p in net.nodes && x in net.nodes && Knows(net.nodes[p], n)
    requires net.nodes[x].nodes != []
  {
    && Max(net.nodes[n].dominant, net.nodes[p].records[n].dominant) < U64 - 1
    && var c := net.nodes[p].records[n];
       var acts := HealingByThird(n, p, x, c, Objector(net, n, p), idle, |net.nodes[x].nodes| - 1, t, turn,
                                  size, room, ch);
       CanContinue(net, acts) && Cleared(Continue(net, acts), n, p, c.dominant)
  }

  lemma ThirdHeals(net: Net, n: Name, p: Name, x: Name, q: nat, s: nat, r: nat,
                   size: seq<Claim> -> nat, room: int, ch: Choice) returns (idle: nat, t: nat, turn: nat)
    requires CanHelp(net, n, p, x, q, s, r) && Distinct(net.nodes[n].nodes)
    requires Drains(net.nodes[n], q, size, room) && Drains(net.nodes[x], r, size, room)
    requires OwnFits(net.nodes[n].conf, size, room)
    ensures idle <= Strain(net.nodes[x], r) && t <= Strain(net.nodes[n], q) && turn < |net.nodes[n].nodes|
    ensures HealsByThird(net, n, p, x, idle, t, turn, size, room, ch)
  {
    var lap, c := |net.nodes[x].nodes| - 1, net.nodes[p].records[n];
    idle := ThirdGetsIdle(net, x, p, r, size, room, ch);
    var mid := Continue(net, GettingIdle(x, idle, lap, size, room, ch));
    IdleStillHelps(net, mid, n, p, x, q, s, r);
    t, turn := IdleThirdHeals(mid, n, p, x, q, s, r, size, room, ch);
    ContinueConcat(net, GettingIdle(x, idle, lap, size, room, ch),
                   Asking(n, p, t, size, room, ch) + Relay(n, p, x, c, Objector(net, n, p), turn, size, room, ch));
  }

  lemma SafeHelper(net: Net, n: Name, p: Name, x: Name) returns (r: nat)
    requires Safe(net) && x in net.nodes && x != p && Knows(net.nodes[x], p) && net.nodes[x].records[p].state == Alive
    ensures net.nodes[x].conf.name == x && Ticking(net.nodes[x]) && WellFormed(net.nodes[x].ring)
    ensures Pingable(net.nodes[x], r) && net.nodes[x].nodes[r] == p
  {
    SafeNode(net, x);
    r := PeerIsListed(net.nodes[x], p);
  }

  lemma ListedAlive(l: Node, q: nat, p: Name)
    requires Pingable(l, q) && l.nodes[q] == p
    ensures Knows(l, p) && l.records[p].state == Alive
  {}

  lemma PlaceIsUnique(nodes: seq<Name>, i: nat, j: nat)
    requires Distinct(nodes) && i < |nodes| && j < |nodes| && nodes[i] == nodes[j]
    ensures i == j
  {}

  lemma SafeAt(net: Net, n: Name, p: Name, q: nat)
    requires Safe(net) && n in net.nodes && p in net.nodes && p != n && IsDead(net.nodes[p], n)
    requires Knows(net.nodes[n], p) && net.nodes[n].records[p].state == Alive
    requires LastIncarnation !in IssuedBy(net.issued, n)
    requires q < |net.nodes[n].nodes| && net.nodes[n].nodes[q] == p
    ensures FalselyDead(net, n, p, q) && WellFormed(net.nodes[n].ring) && Distinct(net.nodes[n].nodes)
  {
    SafeNode(net, n);
    var q' := SafeFalselyDead(net, n, p);
    PlaceIsUnique(net.nodes[n].nodes, q, q');
  }

  /** n, in state l, lists p at position q and x at s, and pings x soon enough after p; x, in
      state l', lists p and has no newer word of n than l and c have. */
  predicate WouldHelp(l: Node, c: Claim, l': Node, p: Name, x: Name, q: nat, s: nat) {
    && Pingable(l, q) && l.nodes[q] == p && Pingable(l, s) && l.nodes[s] == x
    && PingedBetween(l, q, s) < Times(l.nodeNum)
    && Knows(l', p) && l'.records[p].state == Alive
    && (Knows(l', l.conf.name) ==> l'.records[l.conf.name].dominant <= Max(l.dominant, c.dominant))
  }

  lemma SafeCanHelp(net: Net, n: Name, p: Name, x: Name, q: nat, s: nat) returns (r: nat)
    requires Safe(net) && n in net.nodes && p in net.nodes && x in net.nodes && n != p && n != x && p != x
    requires IsDead(net.nodes[p], n) && LastIncarnation !in IssuedBy(net.issued, n)
    requires WouldHelp(net.nodes[n], net.nodes[p].records[n], net.nodes[x], p, x, q, s)
    ensures CanHelp(net, n, p, x, q, s, r) && Distinct(net.nodes[n].nodes)
    ensures WellFormed(net.nodes[n].ring) && Ticking(net.nodes[x]) && WellFormed(net.nodes[x].ring)
  {
    ListedAlive(net.nodes[n], q, p);
    SafeAt(net, n, p, q);
    r := SafeHelper(net, n, p, x);
  }

  /** With an alert that is handled at once, a peer that falsely holds a node dead takes it
      back with the help of a third: from any safe state there is a way on after which that
      peer lists the node as alive under a newer incarnation, if the third lists the peer,
      has no newer word of the node, and is pinged soon enough after the peer. The first one
      pinged after the peer always is. */
  lemma PromptAlertHeals(net: Net, n: Name, p: Name, x: Name, q: nat, s: nat,
                         size: seq<Claim> -> nat, room: int, ch: Choice) returns (idle: nat, t: nat, turn: nat)
    requires Safe(net) && n in net.nodes && p in net.nodes && x in net.nodes && n != p && n != x && p != x
    requires IsDead(net.nodes[p], n) && LastIncarnation !in IssuedBy(net.issued, n)
    requires WouldHelp(net.nodes[n], net.nodes[p].records[n], net.nodes[x], p, x, q, s)
    requires EachFits(net.nodes[n], size, room) && EachFits(net.nodes[x], size, room)
    requires OwnFits(net.nodes[n].conf, size, room)
    ensures idle < Wait(net.nodes[x]) && t < Wait(net.nodes[n]) && turn < |net.nodes[n].nodes|
    ensures net.nodes[x].nodes != [] && HealsByThird(net, n, p, x, idle, t, turn, size, room, ch)
  {
    SafeNode(net, n);
    var r := SafeCanHelp(net, n, p, x, q, s);
    idle, t, turn := ThirdHeals(net, n, p, x, q, s, r, size, room, ch);
    StrainBounded(net.nodes[x], r);
    StrainBounded(net.nodes[n], q);
  }
}
