/** A run of the network in which a node issues the same incarnation twice. */
module IssuedAgain {
  import opened Claims
  import opened Broadcast
  import opened Suspicions
  import opened Handlers
  import opened NodeLaws
  import opened Network
  import opened NetworkSafety
  import opened NetworkLiveness
  import opened Delivery

  // ----- runs from acts -----

  /** The states acts lead through. */
  function Trace(net: Net, acts: seq<Act>): (nets: seq<Net>)
    requires CanContinue(net, acts)
    ensures |nets| == |acts| + 1 && nets[0] == net
    decreases |acts|
  {
    if acts == [] then [net] else [net] + Trace(Next(net, acts[0]), acts[1..])
  }

  lemma {:induction false} TraceLeads(net: Net, acts: seq<Act>, k: nat)
    requires CanContinue(net, acts) && k < |acts|
    ensures Leads(Trace(net, acts)[k], acts[k], Trace(net, acts)[k + 1])
    decreases |acts|
  {
    if k > 0 {
      TraceLeads(Next(net, acts[0]), acts[1..], k - 1);
    }
  }

  lemma {:induction false} TraceRuns(acts: seq<Act>, k: nat)
    requires CanContinue(EmptyNet, acts) && k <= |acts|
    ensures RunsTo(Trace(EmptyNet, acts), acts, k)
    decreases k
  {
    if k > 0 {
      TraceRuns(acts, k - 1);
      TraceLeads(EmptyNet, acts, k - 1);
    }
  }

  lemma {:induction false} TraceAt(net: Net, first: seq<Act>, rest: seq<Act>)
    requires CanContinue(net, first) && CanContinue(net, first + rest)
    ensures Trace(net, first + rest)[|first|] == Continue(net, first)
    decreases |first|
  {
    if first != [] {
      FirstActFirst(first, rest);
      assert (first + rest)[1..] == first[1..] + rest && (first + rest)[0] == first[0];
      TraceAt(Next(net, first[0]), first[1..], rest);
    }
  }

  // ----- a queue with one message -----

  /** The queue holds c, with at least b sends left, and nothing else. */
  predicate Solo(r: Ring, c: Claim, b: nat) {
    |r.entries| == 1 && r.entries[0].msg == c && r.entries[0].times >= b
  }

  lemma PushEmpty(r: Ring, c: Claim, nodeNum: u32, at: nat)
    requires r.entries == []
    ensures Solo(PushRing(r, c, nodeNum, at), c, 3)
  {}

  lemma PushSame(r: Ring, was: Claim, c: Claim, nodeNum: u32, at: nat)
    requires Solo(r, was, 1) && c.name == was.name
    ensures if Newer(c, was) then Solo(PushRing(r, c, nodeNum, at), c, 3) else PushRing(r, c, nodeNum, at) == r
  {}

  lemma SoloSent(l: Node, c: Claim, b: nat, size: seq<Claim> -> nat, room: int)
    requires Solo(l.ring, c, b) && b >= 2 && l.maxAppended >= 1 && size([c]) <= room
    ensures Appended(l, size, room) == [c]
    ensures var m := Append(l, size, room); Solo(m.ring, c, b - 1) && m.maxAppended == l.maxAppended
  {
    assert Upcoming(l.ring) == l.ring.entries;
    assert Upcoming(l.ring)[..1] == [l.ring.entries[0]];
    assert Due(l) == [c];
    assert After(l.ring, 1) == PopRing(l.ring).1 by {
      assert After(PopRing(l.ring).1, 0) == PopRing(l.ring).1;
    }
  }

  // ----- a node that lists itself and one other -----

  predicate Pair(l: Node, self: Name, other: Name) {
    && self != other && l.conf.name == self && l.nodes == [self, other] && l.maxAppended >= 1
    && self in l.records && l.records[self].name == self
    && other in l.records && l.records[other].name == other && l.records[other].state == Alive
  }

  lemma PairPings(l: Node, self: Name, other: Name, size: seq<Claim> -> nat, room: int)
    requires Pair(l, self, other) && l.cursor == 1
    ensures CanProbe(l)
    ensures TickSends(l, size, room) == {Ping(other, self)} + NewsFor(other, Appended(l, size, room))
    ensures Probe(l, size, room) == ProbeNode(l.(cursor := 0), l.records[other], size, room)
  {}

  lemma PairPasses(l: Node, self: Name, other: Name, size: seq<Claim> -> nat, room: int)
    requires Pair(l, self, other) && l.cursor == 0
    ensures CanProbe(l)
    ensures Probe(l, size, room) == l.(cursor := 1)
  {}

  // ----- the node: one record of itself, one live peer -----

  predicate Itself(l: Node, cn: Config, p: Name, own: Claim, d: u64, cursor: nat) {
    Pair(l, cn.name, p) && l.conf == cn && l.records[cn.name] == own && l.dominant == d && l.cursor == cursor
  }

  lemma HearsOfPeer(cn: Config, cp: Config, ch: Choice)
    requires cn.name != cp.name
    ensures var l := Merge(Start(Boot(cn, 1), ch), SelfClaim(cp, 1), false, ch);
            Itself(l, cn, cp.name, SelfClaim(cn, 1), 1, 1) && l.ring.entries == []
  {}

  lemma PingsEmpty(l: Node, cn: Config, p: Name, own: Claim, d: u64, size: seq<Claim> -> nat, room: int)
    requires Itself(l, cn, p, own, d, 1) && l.ring.entries == []
    ensures CanProbe(l) && Ping(p, cn.name) in TickSends(l, size, room)
    ensures var m := Probe(l, size, room); Itself(m, cn, p, own, d, 0) && m.ring.entries == []
  {
    PairPings(l, cn.name, p, size, room);
  }

  lemma IssuesNext(l: Node, cn: Config, p: Name, own: Claim, d: u64, cursor: nat, k: u64)
    requires Itself(l, cn, p, own, d, cursor) && k <= d < U64 - 1
    ensures Issued(l, Alert(Conviction(SelfClaim(cn, k)))) == {d + 1}
  {
    ObjectionOutranks(d, k);
  }

  lemma ObjectionAlone(r: Ring, was: Claim, o: Claim, nodeNum: u32, at: nat)
    requires r.entries == [] || (Solo(r, was, 1) && o.name == was.name && Newer(o, was))
    ensures Solo(PushRing(r, o, nodeNum, at), o, 3)
  {
    if r.entries == [] {
      PushEmpty(r, o, nodeNum, at);
    } else {
      PushSame(r, was, o, nodeNum, at);
    }
  }

  lemma ObjectsAt(l: Node, cn: Config, p: Name, own: Claim, d: u64, cursor: nat, k: u64, ch: Choice)
    requires Itself(l, cn, p, own, d, cursor) && k <= d < U64 - 1
    requires l.ring.entries == [] || Solo(l.ring, SelfClaim(cn, d), 1)
    ensures var m := PongAlert(l, Conviction(SelfClaim(cn, k)), ch);
            Itself(m, cn, p, own, d + 1, cursor) && Solo(m.ring, SelfClaim(cn, d + 1), 3)
  {
    ObjectionOutranks(d, k);
    var o := SelfClaim(cn, d + 1);
    ObjectionAlone(l.ring, SelfClaim(cn, d), o, l.nodeNum, ch.at);
    assert PongAlert(l, Conviction(SelfClaim(cn, k)), ch) ==
           l.(dominant := d + 1, ring := PushRing(l.ring, o, l.nodeNum, ch.at));
  }

  /** Two ticks of a node with one message: it goes to the peer. */
  lemma TwoTicks(l: Node, self: Name, other: Name, c: Claim, size: seq<Claim> -> nat, room: int)
    requires Pair(l, self, other) && l.cursor == 0 && Solo(l.ring, c, 3) && size([c]) <= room
    ensures CanProbe(l)
    ensures var m := Probe(l, size, room);
            && CanProbe(m) && TickSends(m, size, room) == {Ping(other, self), News(other, c)}
            && var m' := Probe(m, size, room);
               && Pair(m', self, other) && SameBeliefs(l, m') && m'.cursor == 0 && Solo(m'.ring, c, 2)
               && m'.suspicions == l.suspicions && m'.armed == l.armed && l.records[other] in m'.probing
  {
    PairPasses(l, self, other, size, room);
    var m := Probe(l, size, room);
    PairPings(m, self, other, size, room);
    SoloSent(m, c, 3, size, room);
    SoloSent(m.(cursor := 0), c, 3, size, room);
    assert NewsFor(other, [c]) == {News(other, c)} by {
      assert [c][0] == c;
    }
  }

  /** Its own older claim comes back: what it last issued is forgotten. */
  lemma FallsBack(l: Node, cn: Config, p: Name, own: Claim, d: u64, cursor: nat, k: u64, ch: Choice)
    requires Itself(l, cn, p, own, d, cursor) && own.dominant < k < d && Solo(l.ring, SelfClaim(cn, d), 3)
    requires own.name == cn.name && own.state == Alive
    ensures var m := Merge(l, SelfClaim(cn, k), true, ch);
            Itself(m, cn, p, SelfClaim(cn, k), k, cursor) && Solo(m.ring, SelfClaim(cn, d), 3)
  {
    PushSame(l.ring, SelfClaim(cn, d), SelfClaim(cn, k), l.nodeNum, ch.at);
  }

  // ----- the peer: it takes the node for dead, twice -----

  /** The peer lists the node under c, does not suspect it and has only c to send. */
  predicate Trusts(l: Node, p: Name, n: Name, c: Claim, cursor: nat) {
    && Pair(l, p, n) && l.records[n] == c && c.name == n && c.state == Alive && n !in l.suspicions
    && l.cursor == cursor && Solo(l.ring, c, 2)
  }

  predicate Mourns(l: Node, p: Name, n: Name, c: Claim, cursor: nat) {
    && p != n && l.conf.name == p && l.nodes == [p] && l.maxAppended >= 1 && l.cursor == cursor
    && p in l.records && l.records[p].name == p
    && IsDead(l, n) && l.records[n] == Conviction(c) && n !in l.suspicions && Solo(l.ring, Conviction(c), 3)
  }

  lemma PeerHears(cn: Config, cp: Config, ch: Choice)
    requires cn.name != cp.name
    ensures var l := Merge(Start(Boot(cp, 1), ch), SelfClaim(cn, 1), true, ch);
            Trusts(l, cp.name, cn.name, SelfClaim(cn, 1), 1) && Solo(l.ring, SelfClaim(cn, 1), 3)
  {
    var l := Start(Boot(cp, 1), ch);
    PushEmpty(l.ring, SelfClaim(cn, 1), Add1(l.nodeNum), ch.at);
  }

  lemma PeerPings(l: Node, p: Name, n: Name, c: Claim, size: seq<Claim> -> nat, room: int)
    requires Trusts(l, p, n, c, 1) && Solo(l.ring, c, 3) && size([c]) <= room
    ensures CanProbe(l)
    ensures var m := Probe(l, size, room); Trusts(m, p, n, c, 0) && c in m.probing
  {
    PairPings(l, p, n, size, room);
    SoloSent(l.(cursor := 0), c, 3, size, room);
  }

  lemma PeerSuspects(l: Node, p: Name, n: Name, c: Claim, cursor: nat, ch: Choice)
    requires Trusts(l, p, n, c, cursor)
    ensures var m := SuspectNode(l, c, ch);
            && Conviction(c) in m.armed
            && Pair(m, p, n) && m.cursor == cursor && m.records[n] == c && Solo(m.ring, c, 2)
  {
    PushSame(l.ring, c, c, l.nodeNum, ch.at);
  }

  lemma PeerConvicts(l: Node, p: Name, n: Name, c: Claim, cursor: nat, ch: Choice)
    requires Pair(l, p, n) && l.cursor == cursor && l.records[n] == c && c.name == n && Solo(l.ring, c, 2)
    ensures Mourns(DeadNode(l, Conviction(c), ch), p, n, c, cursor)
  {
    var d := Conviction(c);
    PushSame(l.ring, c, d, Bury(l, d, ch).nodeNum, ch.at);
    assert SwapRemove([p, n], n) == [p] by {
      assert Position([p, n], n) == 1 by { assert [p, n][1..] == [n]; }
    }
  }

  lemma PeerTakesBack(l: Node, p: Name, n: Name, c: Claim, cursor: nat, c': Claim, ch: Choice)
    requires Mourns(l, p, n, c, cursor) && c'.name == n && c'.state == Alive && c'.dominant > c.dominant && c.name == n
    ensures var m := Merge(l, c', true, ch); Trusts(m, p, n, c', cursor) && Solo(m.ring, c', 3)
  {
    PushSame(l.ring, Conviction(c), c', Add1(l.nodeNum), ch.at);
  }

  // ----- the two in a network -----

  lemma DoNext(net: Net, n: Name, i: Input, ch: Choice)
    requires Possible(net, Do(n, i, ch))
    ensures var net' := Next(net, Do(n, i, ch));
            && OnlyMoved(net, net', n) && net'.nodes[n] == Handle(net.nodes[n], i, ch)
            && Sent(net.nodes[n], i) <= net'.soup
  {}

  /** n and p are in the states l and m. */
  predicate Both(net: Net, n: Name, p: Name, l: Node, m: Node) {
    n in net.nodes && p in net.nodes && net.nodes[n] == l && net.nodes[p] == m
  }

  lemma TheyStart(cn: Config, cp: Config, ch: Choice)
    requires cn.name != cp.name
    ensures var acts := [Join(cn, 1, ch), Join(cp, 1, ch)];
            && CanContinue(EmptyNet, acts)
            && Both(Continue(EmptyNet, acts), cn.name, cp.name, Start(Boot(cn, 1), ch), Start(Boot(cp, 1), ch))
  {
    var first, second := Join(cn, 1, ch), Join(cp, 1, ch);
    var net := Next(EmptyNet, first);
    assert Both(Next(net, second), cn.name, cp.name, Start(Boot(cn, 1), ch), Start(Boot(cp, 1), ch));
    ContinueFirst(net, second, []);
    ContinueFirst(EmptyNet, first, [second]);
  }

  /** `from` sends its records to `to`, which hears what `from` says about itself. */
  function Introduction(from: Name, to: Name, c: Claim, needBc: bool, ch: Choice): seq<Act> {
    [Sync(from, to), Do(to, Receive(c, needBc), ch)]
  }

  lemma SyncNext(net: Net, n: Name, to: Name, about: Name)
    requires n in net.nodes && about in net.nodes[n].records
    ensures var net' := Next(net, Sync(n, to));
            net'.nodes == net.nodes && net.soup <= net'.soup && News(to, net.nodes[n].records[about]) in net'.soup
  {}

  lemma Introduced(net: Net, from: Name, to: Name, c: Claim, needBc: bool, ch: Choice)
    requires from in net.nodes && to in net.nodes && from != to && c.state == Alive
    requires from in net.nodes[from].records && net.nodes[from].records[from] == c
    ensures CanContinue(net, Introduction(from, to, c, needBc, ch))
    ensures Both(Continue(net, Introduction(from, to, c, needBc, ch)), from, to,
                 net.nodes[from], Merge(net.nodes[to], c, needBc, ch))
  {
    var net' := Next(net, Sync(from, to));
    SyncNext(net, from, to, from);
    DoNext(net', to, Receive(c, needBc), ch);
    ContinueFirst(net', Do(to, Receive(c, needBc), ch), []);
    ContinueFirst(net, Sync(from, to), [Do(to, Receive(c, needBc), ch)]);
  }

  /** Both start and get to know each other. */
  function Meeting(cn: Config, cp: Config, ch: Choice): seq<Act> {
    [Join(cn, 1, ch), Join(cp, 1, ch)]
    + (Introduction(cp.name, cn.name, SelfClaim(cp, 1), false, ch)
       + Introduction(cn.name, cp.name, SelfClaim(cn, 1), true, ch))
  }

  lemma Meet(cn: Config, cp: Config, ch: Choice)
    requires cn.name != cp.name
    ensures CanContinue(EmptyNet, Meeting(cn, cp, ch))
    ensures var net := Continue(EmptyNet, Meeting(cn, cp, ch));
            && cn.name in net.nodes && cp.name in net.nodes
            && Itself(net.nodes[cn.name], cn, cp.name, SelfClaim(cn, 1), 1, 1) && net.nodes[cn.name].ring.entries == []
            && Trusts(net.nodes[cp.name], cp.name, cn.name, SelfClaim(cn, 1), 1)
            && Solo(net.nodes[cp.name].ring, SelfClaim(cn, 1), 3)
  {
    var n, p, joins := cn.name, cp.name, [Join(cn, 1, ch), Join(cp, 1, ch)];
    var there := Introduction(p, n, SelfClaim(cp, 1), false, ch);
    var back := Introduction(n, p, SelfClaim(cn, 1), true, ch);
    TheyStart(cn, cp, ch);
    HearsOfPeer(cn, cp, ch);
    PeerHears(cn, cp, ch);
    var net1 := Continue(EmptyNet, joins);
    Introduced(net1, p, n, SelfClaim(cp, 1), false, ch);
    Introduced(Continue(net1, there), n, p, SelfClaim(cn, 1), true, ch);
    ContinueConcat(net1, there, back);
    ContinueConcat(EmptyNet, joins, there + back);
  }

  /** The peer's probe times out and its suspicion convicts. */
  function Burying(p: Name, c: Claim, ch: Choice): seq<Act> {
    [Do(p, Timeout(c), ch), Do(p, Convict(Conviction(c)), ch)]
  }

  lemma Buries(net: Net, p: Name, n: Name, c: Claim, cursor: nat, ch: Choice)
    requires p in net.nodes && Trusts(net.nodes[p], p, n, c, cursor) && c in net.nodes[p].probing
    ensures CanContinue(net, Burying(p, c, ch))
    ensures var net' := Continue(net, Burying(p, c, ch));
            OnlyMoved(net, net', p) && Mourns(net'.nodes[p], p, n, c, cursor)
  {
    var acts := Burying(p, c, ch);
    DoNext(net, p, acts[0].i, ch);
    PeerSuspects(net.nodes[p], p, n, c, cursor, ch);
    var net1 := Next(net, acts[0]);
    DoNext(net1, p, acts[1].i, ch);
    PeerConvicts(net1.nodes[p], p, n, c, cursor, ch);
    OnlyMovedThen(net, net1, Next(net1, acts[1]), p);
    ContinueFirst(net1, acts[1], []);
    ContinueFirst(net, acts[0], acts[1..]);
  }

  lemma TwoTicksNext(net: Net, n: Name, other: Name, c: Claim, size: seq<Claim> -> nat, room: int, ch: Choice)
    requires n in net.nodes && Pair(net.nodes[n], n, other) && net.nodes[n].cursor == 0
    requires Solo(net.nodes[n].ring, c, 3) && size([c]) <= room
    ensures var acts := [Tick(n, size, room, ch), Tick(n, size, room, ch)];
            && CanContinue(net, acts)
            && var net' := Continue(net, acts);
               && OnlyMoved(net, net', n) && Ping(other, n) in net'.soup && News(other, c) in net'.soup
               && var l, m := net.nodes[n], net'.nodes[n];
                  && Pair(m, n, other) && SameBeliefs(l, m) && m.cursor == 0 && Solo(m.ring, c, 2)
                  && m.suspicions == l.suspicions && l.records[other] in m.probing
  {
    var tick := Tick(n, size, room, ch);
    TwoTicks(net.nodes[n], n, other, c, size, room);
    TickNext(net, n, size, room, ch);
    var net1 := Next(net, tick);
    TickNext(net1, n, size, room, ch);
    OnlyMovedThen(net, net1, Next(net1, tick), n);
    ContinueFirst(net1, tick, []);
    ContinueFirst(net, tick, [tick]);
  }

  /** A mourning peer, asked, says that the node is dead. */
  lemma MournerAnswers(net: Net, p: Name, n: Name, c: Claim)
    requires p in net.nodes && Mourns(net.nodes[p], p, n, c, 0) && Ping(p, n) in net.soup
    ensures var net' := Next(net, Answer(p, n));
            && Possible(net, Answer(p, n)) && net'.nodes == net.nodes
            && net.soup <= net'.soup && Pong(n, Conviction(c)) in net'.soup
  {}

  function Told(n: Name, c: Claim, ch: Choice): Act {
    Do(n, Alert(Conviction(c)), ch)
  }

  /** First the peer takes the node for dead at 1, and tells it so. */
  function Opening(cn: Config, cp: Config, size: seq<Claim> -> nat, room: int, ch: Choice): seq<Act> {
    [Tick(cp.name, size, room, ch)] + (Burying(cp.name, SelfClaim(cn, 1), ch)
    + ([Tick(cn.name, size, room, ch), Answer(cp.name, cn.name)] + [Told(cn.name, SelfClaim(cn, 1), ch)]))
  }

  /** The node has objected with 2, which waits; the peer holds it dead at 1. */
  ghost predicate Opened(net: Net, cn: Config, p: Name) {
    && cn.name in net.nodes && p in net.nodes && p != cn.name
    && Itself(net.nodes[cn.name], cn, p, SelfClaim(cn, 1), 2, 0) && Solo(net.nodes[cn.name].ring, SelfClaim(cn, 2), 3)
    && Mourns(net.nodes[p], p, cn.name, SelfClaim(cn, 1), 0)
  }

  lemma FirstPing(net: Net, cn: Config, p: Name, size: seq<Claim> -> nat, room: int, ch: Choice)
    requires cn.name in net.nodes && p in net.nodes && p != cn.name
    requires Itself(net.nodes[cn.name], cn, p, SelfClaim(cn, 1), 1, 1) && net.nodes[cn.name].ring.entries == []
    requires Mourns(net.nodes[p], p, cn.name, SelfClaim(cn, 1), 0)
    ensures var acts := [Tick(cn.name, size, room, ch), Answer(p, cn.name)];
            && CanContinue(net, acts)
            && var net', n := Continue(net, acts), cn.name;
               && OnlyMoved(net, net', n) && Pong(n, Conviction(SelfClaim(cn, 1))) in net'.soup
               && Itself(net'.nodes[n], cn, p, SelfClaim(cn, 1), 1, 0) && net'.nodes[n].ring.entries == []
  {
    var n, tick := cn.name, Tick(cn.name, size, room, ch);
    PingsEmpty(net.nodes[n], cn, p, SelfClaim(cn, 1), 1, size, room);
    TickNext(net, n, size, room, ch);
    var net1 := Next(net, tick);
    MournerAnswers(net1, p, n, SelfClaim(cn, 1));
    OnlyMovedThen(net, net1, Next(net1, Answer(p, n)), n);
    ContinueFirst(net1, Answer(p, n), []);
    ContinueFirst(net, tick, [Answer(p, n)]);
  }

  lemma FirstObjection(net: Net, cn: Config, p: Name, size: seq<Claim> -> nat, room: int, ch: Choice)
    requires cn.name in net.nodes && p in net.nodes && p != cn.name
    requires Itself(net.nodes[cn.name], cn, p, SelfClaim(cn, 1), 1, 1) && net.nodes[cn.name].ring.entries == []
    requires Mourns(net.nodes[p], p, cn.name, SelfClaim(cn, 1), 0)
    ensures var acts := [Tick(cn.name, size, room, ch), Answer(p, cn.name)] + [Told(cn.name, SelfClaim(cn, 1), ch)];
            CanContinue(net, acts) && Opened(Continue(net, acts), cn, p)
  {
    var n, asked := cn.name, [Tick(cn.name, size, room, ch), Answer(p, cn.name)];
    FirstPing(net, cn, p, size, room, ch);
    var net' := Continue(net, asked);
    DoNext(net', n, Told(n, SelfClaim(cn, 1), ch).i, ch);
    ObjectsAt(net'.nodes[n], cn, p, SelfClaim(cn, 1), 1, 0, 1, ch);
    ContinueThen(net, asked, Told(n, SelfClaim(cn, 1), ch));
  }

  lemma Open(net: Net, cn: Config, cp: Config, size: seq<Claim> -> nat, room: int, ch: Choice)
    requires cn.name in net.nodes && cp.name in net.nodes && cp.name != cn.name && OwnFits(cn, size, room)
    requires Itself(net.nodes[cn.name], cn, cp.name, SelfClaim(cn, 1), 1, 1) && net.nodes[cn.name].ring.entries == []
    requires Trusts(net.nodes[cp.name], cp.name, cn.name, SelfClaim(cn, 1), 1)
    requires Solo(net.nodes[cp.name].ring, SelfClaim(cn, 1), 3)
    ensures CanContinue(net, Opening(cn, cp, size, room, ch))
    ensures Opened(Continue(net, Opening(cn, cp, size, room, ch)), cn, cp.name)
  {
    var n, p, c, tick := cn.name, cp.name, SelfClaim(cn, 1), Tick(cp.name, size, room, ch);
    PeerPings(net.nodes[p], p, n, c, size, room);
    TickNext(net, p, size, room, ch);
    var net1 := Next(net, tick);
    Buries(net1, p, n, c, 0, ch);
    var net2 := Continue(net1, Burying(p, c, ch));
    FirstObjection(net2, cn, p, size, room, ch);
    var last := [Tick(n, size, room, ch), Answer(p, n)] + [Told(n, c, ch)];
    ContinueConcat(net1, Burying(p, c, ch), last);
    ContinueFirst(net, tick, Burying(p, c, ch) + last);
  }

  /** A ping with the queued claim to a peer that holds the node dead, and its answer. */
  function Exchange(n: Name, p: Name, size: seq<Claim> -> nat, room: int, ch: Choice): seq<Act> {
    [Tick(n, size, room, ch), Tick(n, size, room, ch)] + [Answer(p, n)]
  }

  lemma Exchanged(net: Net, n: Name, p: Name, c: Claim, dead: Claim, size: seq<Claim> -> nat, room: int, ch: Choice)
    requires n in net.nodes && p in net.nodes && p != n && size([c]) <= room
    requires Pair(net.nodes[n], n, p) && net.nodes[n].cursor == 0 && Solo(net.nodes[n].ring, c, 3)
    requires Mourns(net.nodes[p], p, n, dead, 0)
    ensures CanContinue(net, Exchange(n, p, size, room, ch))
    ensures var net' := Continue(net, Exchange(n, p, size, room, ch));
            && OnlyMoved(net, net', n) && News(p, c) in net'.soup && Pong(n, Conviction(dead)) in net'.soup
            && var l, m := net.nodes[n], net'.nodes[n];
               Pair(m, n, p) && SameBeliefs(l, m) && m.cursor == 0 && Solo(m.ring, c, 2)
  {
    var ticks := [Tick(n, size, room, ch), Tick(n, size, room, ch)];
    TwoTicksNext(net, n, p, c, size, room, ch);
    var mid := Continue(net, ticks);
    MournerAnswers(mid, p, n, dead);
    ContinueThen(net, ticks, Answer(p, n));
    OnlyMovedThen(net, mid, Next(mid, Answer(p, n)), n);
  }

  /** The peer hears of 2 and spreads it, back to the node. */
  function Return(cn: Config, p: Name, size: seq<Claim> -> nat, room: int, ch: Choice): seq<Act> {
    [Do(p, Receive(SelfClaim(cn, 2), true), ch)]
    + ([Tick(p, size, room, ch), Tick(p, size, room, ch)] + [Do(cn.name, Receive(SelfClaim(cn, 2), true), ch)])
  }

  lemma Returned(net: Net, cn: Config, p: Name, size: seq<Claim> -> nat, room: int, ch: Choice)
    requires cn.name in net.nodes && p in net.nodes && p != cn.name && OwnFits(cn, size, room)
    requires Itself(net.nodes[cn.name], cn, p, SelfClaim(cn, 1), 3, 0)
    requires Solo(net.nodes[cn.name].ring, SelfClaim(cn, 3), 3)
    requires Mourns(net.nodes[p], p, cn.name, SelfClaim(cn, 1), 0) && News(p, SelfClaim(cn, 2)) in net.soup
    ensures CanContinue(net, Return(cn, p, size, room, ch))
    ensures var net' := Continue(net, Return(cn, p, size, room, ch));
            && cn.name in net'.nodes && p in net'.nodes
            && Itself(net'.nodes[cn.name], cn, p, SelfClaim(cn, 2), 2, 0)
            && Solo(net'.nodes[cn.name].ring, SelfClaim(cn, 3), 3)
            && Trusts(net'.nodes[p], p, cn.name, SelfClaim(cn, 2), 0) && SelfClaim(cn, 2) in net'.nodes[p].probing
  {
    var n, c := cn.name, SelfClaim(cn, 2);
    var hear, ticks := Do(p, Receive(c, true), ch), [Tick(p, size, room, ch), Tick(p, size, room, ch)];
    var back := Do(n, Receive(c, true), ch);
    DoNext(net, p, hear.i, ch);
    PeerTakesBack(net.nodes[p], p, n, SelfClaim(cn, 1), 0, c, ch);
    var net1 := Next(net, hear);
    TwoTicksNext(net1, p, n, c, size, room, ch);
    var net2 := Continue(net1, ticks);
    DoNext(net2, n, back.i, ch);
    FallsBack(net2.nodes[n], cn, p, SelfClaim(cn, 1), 3, 0, 2, ch);
    ContinueThen(net1, ticks, back);
    ContinueFirst(net, hear, ticks + [back]);
  }

  // ----- the whole run -----

  /** Up to the objection with 3. */
  function Before(cn: Config, cp: Config, size: seq<Claim> -> nat, room: int, ch: Choice): seq<Act> {
    Meeting(cn, cp, ch) + (Opening(cn, cp, size, room, ch) + Exchange(cn.name, cp.name, size, room, ch))
  }

  lemma BeforeRuns(cn: Config, cp: Config, size: seq<Claim> -> nat, room: int, ch: Choice)
    requires cn.name != cp.name && OwnFits(cn, size, room)
    ensures CanContinue(EmptyNet, Before(cn, cp, size, room, ch))
    ensures var net, n, p := Continue(EmptyNet, Before(cn, cp, size, room, ch)), cn.name, cp.name;
            && n in net.nodes && p in net.nodes
            && Itself(net.nodes[n], cn, p, SelfClaim(cn, 1), 2, 0) && Solo(net.nodes[n].ring, SelfClaim(cn, 2), 2)
            && Mourns(net.nodes[p], p, n, SelfClaim(cn, 1), 0)
            && News(p, SelfClaim(cn, 2)) in net.soup && Pong(n, Conviction(SelfClaim(cn, 1))) in net.soup
  {
    Meet(cn, cp, ch);
    var net1 := Continue(EmptyNet, Meeting(cn, cp, ch));
    Open(net1, cn, cp, size, room, ch);
    var net2 := Continue(net1, Opening(cn, cp, size, room, ch));
    Exchanged(net2, cn.name, cp.name, SelfClaim(cn, 2), SelfClaim(cn, 1), size, room, ch);
    ContinueConcat(net1, Opening(cn, cp, size, room, ch), Exchange(cn.name, cp.name, size, room, ch));
    ContinueConcat(EmptyNet, Meeting(cn, cp, ch),
                   Opening(cn, cp, size, room, ch) + Exchange(cn.name, cp.name, size, room, ch));
  }

  /** From there to the second objection with 3. */
  function Between(cn: Config, p: Name, size: seq<Claim> -> nat, room: int, ch: Choice): seq<Act> {
    Return(cn, p, size, room, ch) + (Burying(p, SelfClaim(cn, 2), ch) + Exchange(cn.name, p, size, room, ch))
  }

  lemma BetweenRuns(net: Net, cn: Config, p: Name, size: seq<Claim> -> nat, room: int, ch: Choice)
    requires cn.name in net.nodes && p in net.nodes && p != cn.name && OwnFits(cn, size, room)
    requires Itself(net.nodes[cn.name], cn, p, SelfClaim(cn, 1), 3, 0)
    requires Solo(net.nodes[cn.name].ring, SelfClaim(cn, 3), 3)
    requires Mourns(net.nodes[p], p, cn.name, SelfClaim(cn, 1), 0) && News(p, SelfClaim(cn, 2)) in net.soup
    ensures CanContinue(net, Between(cn, p, size, room, ch))
    ensures var net' := Continue(net, Between(cn, p, size, room, ch));
            && cn.name in net'.nodes && Itself(net'.nodes[cn.name], cn, p, SelfClaim(cn, 2), 2, 0)
            && Pong(cn.name, Conviction(SelfClaim(cn, 2))) in net'.soup
  {
    var n, c := cn.name, SelfClaim(cn, 2);
    Returned(net, cn, p, size, room, ch);
    var net1 := Continue(net, Return(cn, p, size, room, ch));
    Buries(net1, p, n, c, 0, ch);
    var net2 := Continue(net1, Burying(p, c, ch));
    Exchanged(net2, n, p, SelfClaim(cn, 3), c, size, room, ch);
    ContinueConcat(net1, Burying(p, c, ch), Exchange(n, p, size, room, ch));
    ContinueConcat(net, Return(cn, p, size, room, ch), Burying(p, c, ch) + Exchange(n, p, size, room, ch));
  }

  /** Step i of a run is taken by n and issues d. */
  predicate Issues(nets: seq<Net>, acts: seq<Act>, i: nat, n: Name, d: u64)
    requires i < |acts| && i < |nets|
  {
    acts[i].Do? && acts[i].n == n && n in nets[i].nodes && Issued(nets[i].nodes[n], acts[i].i) == {d}
  }

  lemma IssuedAtTold(net: Net, cn: Config, p: Name, own: Claim, k: u64, ch: Choice)
    requires cn.name in net.nodes && Itself(net.nodes[cn.name], cn, p, own, 2, 0) && k <= 2
    requires Pong(cn.name, Conviction(SelfClaim(cn, k))) in net.soup
    ensures var a := Told(cn.name, SelfClaim(cn, k), ch);
            && Possible(net, a) && Issued(net.nodes[cn.name], a.i) == {3}
  {
    IssuesNext(net.nodes[cn.name], cn, p, own, 2, 0, k);
  }

  /** All of it: two objections with 3 and what lies before and between them. */
  lemma RunsTwice(cn: Config, cp: Config, size: seq<Claim> -> nat, room: int, ch: Choice)
    requires cn.name != cp.name && OwnFits(cn, size, room)
    ensures var x, y := Before(cn, cp, size, room, ch), Between(cn, cp.name, size, room, ch);
            var a, b := Told(cn.name, SelfClaim(cn, 1), ch), Told(cn.name, SelfClaim(cn, 2), ch);
            && CanContinue(EmptyNet, x) && CanContinue(EmptyNet, (x + [a]) + y)
            && CanContinue(EmptyNet, ((x + [a]) + y) + [b])
            && var first, second := Continue(EmptyNet, x), Continue(EmptyNet, (x + [a]) + y);
               && cn.name in first.nodes && Issued(first.nodes[cn.name], a.i) == {3}
               && cn.name in second.nodes && Issued(second.nodes[cn.name], b.i) == {3}
  {
    var n, p := cn.name, cp.name;
    var x, y := Before(cn, cp, size, room, ch), Between(cn, p, size, room, ch);
    var a, b := Told(n, SelfClaim(cn, 1), ch), Told(n, SelfClaim(cn, 2), ch);
    BeforeRuns(cn, cp, size, room, ch);
    var first := Continue(EmptyNet, x);
    IssuedAtTold(first, cn, p, SelfClaim(cn, 1), 1, ch);
    ObjectsAt(first.nodes[n], cn, p, SelfClaim(cn, 1), 2, 0, 1, ch);
    DoNext(first, n, a.i, ch);
    ContinueThen(EmptyNet, x, a);
    BetweenRuns(Next(first, a), cn, p, size, room, ch);
    ContinueConcat(EmptyNet, x + [a], y);
    var second := Continue(EmptyNet, (x + [a]) + y);
    IssuedAtTold(second, cn, p, SelfClaim(cn, 2), 2, ch);
    ContinueThen(EmptyNet, (x + [a]) + y, b);
  }

  /** The state of a run after its first acts. */
  lemma StateAfter(acts: seq<Act>, first: seq<Act>, rest: seq<Act>)
    requires acts == first + rest && CanContinue(EmptyNet, first) && CanContinue(EmptyNet, acts)
    ensures |first| <= |acts| && Trace(EmptyNet, acts)[|first|] == Continue(EmptyNet, first)
  {
    TraceAt(EmptyNet, first, rest);
  }

  lemma Regroup(x: seq<Act>, a: Act, y: seq<Act>, b: Act)
    ensures ((x + [a]) + y) + [b] == x + ([a] + y + [b])
  {}

  /** An incarnation issued twice by a node that never restarts, in a run in which every
      claim it hears was sent to it: having objected with 2 and with 3, it hears its own 2
      from its peer, falls back behind 3, and objects with 3 again. */
  lemma IssuedTwiceInARun(cn: Config, cp: Config, size: seq<Claim> -> nat, room: int, ch: Choice)
    returns (nets: seq<Net>, acts: seq<Act>, i: nat, j: nat)
    requires cn.name != cp.name && OwnFits(cn, size, room)
    ensures IsRun(nets, acts) && i < j < |acts|
    ensures Issues(nets, acts, i, cn.name, 3) && Issues(nets, acts, j, cn.name, 3)
    ensures forall k :: i <= k < j ==> !acts[k].Join?
  {
    var x, y := Before(cn, cp, size, room, ch), Between(cn, cp.name, size, room, ch);
    var a, b := Told(cn.name, SelfClaim(cn, 1), ch), Told(cn.name, SelfClaim(cn, 2), ch);
    RunsTwice(cn, cp, size, room, ch);
    acts := ((x + [a]) + y) + [b];
    nets := Trace(EmptyNet, acts);
    i, j := |x|, |x| + 1 + |y|;
    TraceRuns(acts, |acts|);
    Regroup(x, a, y, b);
    StateAfter(acts, x, [a] + y + [b]);
    StateAfter(acts, (x + [a]) + y, [b]);
  }
}
