/** Many nodes and the packets in flight between them.

    A packet counts as the claims it carries, each under the addressee's name. What was
    ever sent to a node may be delivered to it any number of times, in any order, or
    never, so loss, duplication, delay and reordering are all covered; a crash is a
    later restart, with only the network's memory of the crashed node left. */
module Network {
  import opened Claims
  import opened Broadcast
  import opened Suspicions
  import opened Handlers
  import opened Invariants
  import opened NodeLaws

  datatype Packet =
    | Ping(to: Name, from: Name)
    | News(to: Name, c: Claim)  // gossip appended to a ping, or part of a record map
    | Pong(to: Name, c: Claim)  // a pong that carries a dead alert

  /** `issued` remembers the incarnations each name has ever announced for itself. */
  datatype Net = Net(nodes: map<Name, Node>, soup: set<Packet>, issued: map<Name, set<u64>>)

  datatype Act =
    | Join(conf: Config, cursor: nat, ch: Choice)  // start, or restart after a crash
    | Do(n: Name, i: Input, ch: Choice)            // one handler runs at n
    | Sync(n: Name, to: Name)                      // n sends its whole record map
    | Answer(n: Name, from: Name)                  // n answers a ping from `from`

  const EmptyNet: Net := Net(map[], {}, map[])

  function IssuedBy(issued: map<Name, set<u64>>, n: Name): set<u64> {
    if n in issued then issued[n] else {}
  }

  predicate Possible(net: Net, a: Act) {
    match a
    case Join(_, _, _) => true
    case Do(n, i, _) =>
      && n in net.nodes && Enabled(net.nodes[n], i)
      && (i.Receive? ==> News(n, i.c) in net.soup)
      && (i.Alert? ==> Pong(n, i.c) in net.soup)
    case Sync(n, _) => n in net.nodes
    case Answer(n, from) => n in net.nodes && Ping(n, from) in net.soup
  }

  /** Whom a probe pings: the node picked. */
  function Target(l: Node): Name
    requires CanProbe(l)
  {
    l.records[Picks(l.nodes, l.cursor, 1)[0]].name
  }

  function NewsFor(to: Name, cs: seq<Claim>): set<Packet> {
    set k | 0 <= k < |cs| :: News(to, cs[k])
  }

  /** What a step sends: a ping, and the gossip appended to it. */
  function Sent(l: Node, i: Input): set<Packet>
    requires Enabled(l, i)
  {
    if i.ProbeTick? && Probes(l) then
      {Ping(Target(l), l.conf.name)} + NewsFor(Target(l), Appended(l, i.size, i.room))
    else {}
  }

  function Next(net: Net, a: Act): Net
    requires Possible(net, a)
  {
    match a
    case Join(conf, cursor, ch) =>
      Net(net.nodes[conf.name := Start(Boot(conf, cursor), ch)], net.soup,
          net.issued[conf.name := IssuedBy(net.issued, conf.name) + {1}])
    case Do(n, i, ch) =>
      var l := net.nodes[n];
      Net(net.nodes[n := Handle(l, i, ch)], net.soup + Sent(l, i),
          net.issued[n := IssuedBy(net.issued, n) + Issued(l, i)])
    case Sync(n, to) =>
      var l := net.nodes[n];
      net.(soup := net.soup + set m | m in l.records :: News(to, l.records[m]))
    case Answer(n, from) =>
      match DeadAlert(net.nodes[n], from)
      case None => net
      case Some(c) => net.(soup := net.soup + {Pong(from, c)})
  }

  // ----- what holds of every claim a node holds -----

  ghost predicate RingClaims(r: Ring, p: Claim -> bool) {
    forall k :: 0 <= k < |r.entries| ==> p(r.entries[k].msg)
  }

  ghost predicate AllClaims(l: Node, p: Claim -> bool) {
    && (forall n :: n in l.records ==> p(l.records[n]))
    && RingClaims(l.ring, p)
    && (forall n :: n in l.suspicions ==> p(l.suspicions[n].accused))
    && (forall c :: c in l.armed ==> p(c))
    && (forall c :: c in l.probing ==> p(c))
  }

  ghost predicate KeptByConviction(p: Claim -> bool) {
    forall c :: p(c) ==> p(Conviction(c))
  }

  lemma PushClaims(r: Ring, c: Claim, nodeNum: u32, at: nat, p: Claim -> bool)
    requires p(c) && RingClaims(r, p)
    ensures RingClaims(PushRing(r, c, nodeNum, at), p)
  {}

  lemma {:induction false} AfterClaims(r: Ring, n: nat, p: Claim -> bool)
    requires RingClaims(r, p)
    ensures RingClaims(After(r, n), p)
    decreases n
  {
    if n > 0 {
      assert RingClaims(PopRing(r).1, p);
      AfterClaims(PopRing(r).1, n - 1, p);
    }
  }

  lemma ObjectClaims(l: Node, accused: u64, ch: Choice, p: Claim -> bool)
    requires AllClaims(l, p) && p(SelfClaim(l.conf, ObjectionDominant(l.dominant, accused)))
    ensures AllClaims(Object(l, accused, ch), p)
  {
    PushClaims(l.ring, SelfClaim(l.conf, ObjectionDominant(l.dominant, accused)), l.nodeNum, ch.at, p);
  }

  lemma AdmitClaims(l: Node, a: Claim, needBc: bool, ch: Choice, p: Claim -> bool)
    requires AllClaims(l, p) && p(a)
    ensures AllClaims(Admit(l, a, needBc, ch), p)
  {
    PushClaims(l.ring, a, l.nodeNum, ch.at, p);
    PushClaims(l.ring, a, Add1(l.nodeNum), ch.at, p);
  }

  lemma BuryClaims(l: Node, d: Claim, ch: Choice, p: Claim -> bool)
    requires AllClaims(l, p) && p(d)
    ensures AllClaims(Bury(l, d, ch), p)
  {
    PushClaims(l.ring, d, Bury(l, d, ch).nodeNum, ch.at, p);
  }

  lemma AccuseClaims(l: Node, s: Claim, ch: Choice, p: Claim -> bool)
    requires AllClaims(l, p) && p(s) && p(Conviction(s))
    requires s.name == l.conf.name ==> p(SelfClaim(l.conf, ObjectionDominant(l.dominant, s.dominant)))
    ensures AllClaims(Accuse(l, s, ch), p)
  {
    PushClaims(l.ring, s, l.nodeNum, ch.at, p);
    if s.name == l.conf.name {
      ObjectClaims(l, s.dominant, ch, p);
    }
  }

  lemma DeadClaims(l: Node, d: Claim, ch: Choice, p: Claim -> bool)
    requires AllClaims(l, p) && p(d)
    requires DeadObjection(l, d).Some? ==> p(SelfClaim(l.conf, ObjectionDominant(l.dominant, d.dominant)))
    ensures AllClaims(DeadNode(l, d, ch), p)
  {
    if !Knows(l, d.name) || d.dominant < l.records[d.name].dominant {
    } else if IsDead(l, d.name) {
    } else if d.name == l.conf.name {
      ObjectClaims(Pass(l, d.name), d.dominant, ch, p);
    } else {
      BuryClaims(l, d, ch, p);
    }
  }

  lemma SuspectClaims(l: Node, s: Claim, ch: Choice, p: Claim -> bool)
    requires AllClaims(l, p) && p(s) && KeptByConviction(p)
    requires SuspectObjection(l, s).Some? ==>
               p(SelfClaim(l.conf, ObjectionDominant(l.dominant, SuspectObjection(l, s).value)))
    ensures AllClaims(SuspectNode(l, s, ch), p)
  {
    if !Knows(l, s.name) || s.dominant < l.records[s.name].dominant {
    } else if s.name in l.suspicions {
      var l1 := Confirm(l, s.name, s.from);
      var accused := l1.suspicions[s.name].accused;
      assert p(accused);
      if Convicts(l1.suspicions[s.name]) {
        DeadClaims(l1, Conviction(accused), ch, p);
      } else {
        PushClaims(l.ring, s, l.nodeNum, ch.at, p);
      }
    } else if l.records[s.name].state == Alive {
      AccuseClaims(l, s, ch, p);
    }
  }

  lemma ProbeClaims(l: Node, size: seq<Claim> -> nat, room: int, p: Claim -> bool)
    requires CanProbe(l) && AllClaims(l, p)
    ensures AllClaims(Probe(l, size, room), p)
  {
    var l1 := l.(cursor := NextCursor(l.nodes, l.cursor, 1));
    assert Due(l1) == Due(l);
    AfterClaims(l.ring, |Due(l)|, p);
    assert AllClaims(Append(l1, size, room), p);
  }

  /** Every claim a node holds after a step it held before, or was handed, or issued
      itself, or is the conviction of such a claim. */
  lemma HandleClaims(l: Node, i: Input, ch: Choice, p: Claim -> bool)
    requires Enabled(l, i) && AllClaims(l, p) && KeptByConviction(p)
    requires i.Receive? || i.Alert? ==> p(i.c)
    requires Objection(l, i).Some? ==>
               p(SelfClaim(l.conf, ObjectionDominant(l.dominant, Objection(l, i).value)))
    ensures AllClaims(Handle(l, i, ch), p)
  {
    match i {
      case Receive(c, needBc) =>
        match c.state {
          case Alive => AdmitClaims(l, c, needBc, ch, p);
          case Suspect => SuspectClaims(l, c, ch, p);
          case Dead => DeadClaims(l, c, ch, p);
        }
      case Alert(c) =>
        if Objection(l, i).Some? {
          ObjectClaims(l, c.dominant, ch, p);
        }
      case Convict(c) => DeadClaims(l, c, ch, p);
      case Timeout(c) => SuspectClaims(l, c, ch, p);
      case ProbeTick(size, room) => ProbeClaims(l, size, room, p);
    }
  }

  lemma {:induction false} MsgsAt(f: seq<Entry>, k: nat)
    requires k < |f|
    ensures Msgs(f)[k] == f[k].msg
  {
    if k > 0 {
      MsgsAt(f[1..], k - 1);
    }
  }

  /** Every claim some packet carries. */
  ghost predicate InFlight(soup: set<Packet>, p: Claim -> bool) {
    forall k :: k in soup && !k.Ping? ==> p(k.c)
  }

  lemma InFlightWeaken(soup: set<Packet>, p: Claim -> bool, q: Claim -> bool)
    requires InFlight(soup, p) && forall c :: p(c) ==> q(c)
    ensures InFlight(soup, q)
  {}

  /** What a node hears was in flight. */
  lemma HeardWasSent(net: Net, a: Act, p: Claim -> bool)
    requires Possible(net, a) && a.Do? && InFlight(net.soup, p)
    ensures a.i.Receive? || a.i.Alert? ==> p(a.i.c)
  {
    if a.i.Receive? {
      assert News(a.n, a.i.c) in net.soup;
    } else if a.i.Alert? {
      assert Pong(a.n, a.i.c) in net.soup;
    }
  }

  lemma SentClaims(l: Node, i: Input, p: Claim -> bool)
    requires Enabled(l, i) && AllClaims(l, p)
    ensures InFlight(Sent(l, i), p)
  {
    if i.ProbeTick? {
      var f := Upcoming(l.ring)[..Min(l.maxAppended, |l.ring.entries|)];
      forall k | 0 <= k < |f| ensures p(Msgs(f)[k]) {
        MsgsAt(f, k);
        UpcomingAt(l.ring, k);
      }
    }
  }

  ghost predicate Everywhere(net: Net, p: Claim -> bool) {
    && (forall n :: n in net.nodes ==> AllClaims(net.nodes[n], p))
    && InFlight(net.soup, p)
  }

  lemma SoupClaims(net: Net, a: Act, p: Claim -> bool)
    requires Possible(net, a) && Everywhere(net, p)
    ensures InFlight(Next(net, a).soup, p)
  {
    match a {
      case Join(_, _, _) =>
      case Do(n, i, _) => SentClaims(net.nodes[n], i, p);
      case Sync(n, _) => assert AllClaims(net.nodes[n], p);
      case Answer(n, _) => assert AllClaims(net.nodes[n], p);
    }
  }

  /** A step leaves every node alone but the one that takes it. */
  lemma OneNodeMoves(net: Net, a: Act, n: Name)
    requires Possible(net, a) && n in net.nodes && !(a.Join? && a.conf.name == n)
    ensures n in Next(net, a).nodes
    ensures Next(net, a).nodes[n] ==
            if a.Do? && a.n == n then Handle(net.nodes[n], a.i, a.ch) else net.nodes[n]
  {}

  lemma NobodyElseAppears(net: Net, a: Act, n: Name)
    requires Possible(net, a) && n in Next(net, a).nodes && !(a.Join? && a.conf.name == n)
    ensures n in net.nodes
  {}

  /** A name announces an incarnation by starting or by objecting. */
  lemma WhatIsIssued(net: Net, a: Act, n: Name, d: u64)
    requires Possible(net, a) && d in IssuedBy(Next(net, a).issued, n)
    ensures || d in IssuedBy(net.issued, n)
            || (a.Join? && d == 1)
            || (a.Do? && a.n == n && d in Issued(net.nodes[n], a.i))
  {}

  /** A pong is sent by an answer, and carries the alert of the node that answers. */
  lemma PongsAreAnswers(net: Net, a: Act, to: Name, c: Claim)
    requires Possible(net, a) && Pong(to, c) in Next(net, a).soup
    ensures || Pong(to, c) in net.soup
            || (a.Answer? && a.from == to && DeadAlert(net.nodes[a.n], to) == Some(c))
  {}
}
