/** What each handler does, told by what can be seen before it runs. */
module HandlerLaws {
  import opened Claims
  import opened Broadcast
  import opened Suspicions
  import opened Handlers
  import opened Invariants
  import opened NodeLaws
  import opened Incarnations

  /** The claim is about a node on record, at its incarnation or above. */
  predicate Counts(l: Node, c: Claim) {
    c.name in l.records && c.dominant >= l.records[c.name].dominant
  }

  // ----- deaths -----

  lemma TwoLess(n: u32)
    ensures Sub1(Sub1(n)) == (n - 2) % U32
  {
    ModStep(n - 1, -1);
  }

  lemma BurialCostsTwo(l: Node, d: Claim, ch: Choice)
    requires IndexCoherent(l) && Fatal(l, d)
    ensures DeadNode(l, d, ch).nodeNum == (l.nodeNum - 2) % U32
  {
    assert d.name in l.nodes;
    TwoLess(l.nodeNum);
  }

  /** A dead claim that counts costs the counter one, and one more if it buries a listed
      node, and ends a suspicion of its subject; it goes on record, unlists and is told to
      the application only if it buries. Any other changes nothing. */
  lemma WhatADeathCosts(l: Node, d: Claim, ch: Choice)
    requires Inv(l) && d.state == Dead
    ensures var l' := DeadNode(l, d, ch);
            if Counts(l, d) then
              && l'.passes == l.passes + 1 && d.name !in l'.suspicions
              && l'.nodeNum == (l.nodeNum - if Fatal(l, d) then 2 else 1) % U32
              && l'.records == (if Fatal(l, d) then l.records[d.name := d] else l.records)
              && l'.log == (if Fatal(l, d) then l.log + [Left(d.name)] else l.log)
              && (if Fatal(l, d) then d.name !in l'.nodes else l'.nodes == l.nodes)
            else l' == l
  {
    if Fatal(l, d) {
      BurialCostsTwo(l, d, ch);
      SwapRemoveIsRemoval(l.nodes, d.name);
    }
  }

  /** With this reporter the suspicion has as many distinct ones as it needs. */
  predicate Enough(d: Doubt, from: Option<Name>) {
    |d.who + {from}| >= d.need
  }

  lemma ReporterCounted(d: Doubt, from: Option<Name>)
    requires d.confirm == |d.who|
    ensures Confirmed(d, from) == Doubt(d.need, |d.who + {from}|, d.who + {from}, d.accused)
    ensures Convicts(Confirmed(d, from)) <==> Enough(d, from)
  {
    if from in d.who {
      assert d.who + {from} == d.who;
    }
  }

  /** The death a report brings about. */
  function ReportedDeath(l: Node, s: Claim): Option<Claim> {
    if Counts(l, s) && s.name in l.suspicions && Enough(l.suspicions[s.name], s.from)
    then Some(Conviction(l.suspicions[s.name].accused)) else None
  }

  /** The dead claim a step handles, if any. */
  function DeathIn(l: Node, i: Input): Option<Claim> {
    match i
    case Receive(c, _) =>
      if c.state == Dead then Some(c) else if c.state == Suspect then ReportedDeath(l, c) else None
    case Convict(c) => Some(c)
    case Timeout(c) => ReportedDeath(l, c)
    case Alert(_) => None
    case ProbeTick(_, _) => None
  }

  function DeathsOf(l: Node, i: Input): nat {
    match DeathIn(l, i)
    case None => 0
    case Some(d) => if Counts(l, d) then 1 else 0
  }

  lemma ReportPasses(l: Node, s: Claim, ch: Choice)
    requires Inv(l) && s.state != Dead
    ensures SuspectNode(l, s, ch).passes == l.passes + if ReportedDeath(l, s).Some? then 1 else 0
    ensures ReportedDeath(l, s).Some? ==> Counts(l, ReportedDeath(l, s).value)
  {
    if Counts(l, s) && s.name in l.suspicions {
      ReporterCounted(l.suspicions[s.name], s.from);
      var l1 := Confirm(l, s.name, s.from);
      ConfirmKeeps(l, s.name, s.from);
      if Enough(l.suspicions[s.name], s.from) {
        WhatADeathCosts(l1, Conviction(l1.suspicions[s.name].accused), ch);
      }
    }
  }

  /** `passes` counts the dead claims that were at or above the record. */
  lemma HandleCounts(l: Node, i: Input, ch: Choice)
    requires Inv(l) && Enabled(l, i)
    ensures Handle(l, i, ch).passes == l.passes + DeathsOf(l, i)
  {
    match i {
      case Receive(c, _) =>
        if c.state == Dead {
          WhatADeathCosts(l, c, ch);
        } else if c.state == Suspect {
          ReportPasses(l, c, ch);
        }
      case Convict(c) => WhatADeathCosts(l, c, ch);
      case Timeout(c) => ReportPasses(l, c, ch);
      case Alert(_) =>
      case ProbeTick(size, room) => AppendKeeps(l.(cursor := NextCursor(l.nodes, l.cursor, 1)), size, room);
    }
  }

  // ----- a whole life -----

  function Lived(l: Node, steps: seq<Step>): Node
    requires CanLive(l, steps)
    decreases |steps|
  {
    if steps == [] then l else Lived(Handle(l, steps[0].i, steps[0].ch), steps[1..])
  }

  function DeathsCounted(l: Node, steps: seq<Step>): nat
    requires CanLive(l, steps)
    decreases |steps|
  {
    if steps == [] then 0
    else DeathsOf(l, steps[0].i) + DeathsCounted(Handle(l, steps[0].i, steps[0].ch), steps[1..])
  }

  lemma {:induction false} LifeCounts(l: Node, steps: seq<Step>)
    requires Inv(l) && CanLive(l, steps)
    ensures Inv(Lived(l, steps)) && Lived(l, steps).passes == l.passes + DeathsCounted(l, steps)
    decreases |steps|
  {
    if steps != [] {
      HandleKeeps(l, steps[0].i, steps[0].ch);
      HandleCounts(l, steps[0].i, steps[0].ch);
      LifeCounts(Handle(l, steps[0].i, steps[0].ch), steps[1..]);
    }
  }

  /** Over any life from the start the counter is, modulo 2^32, the number of listed nodes
      minus the number of dead claims that were at or above the record. */
  lemma CounterOverALife(conf: Config, cursor: nat, ch: Choice, steps: seq<Step>)
    requires CanLive(Start(Boot(conf, cursor), ch), steps)
    ensures var l := Start(Boot(conf, cursor), ch);
            Lived(l, steps).nodeNum == (|Lived(l, steps).nodes| - DeathsCounted(l, steps)) % U32
  {
    StartKeeps(conf, cursor, ch);
    LifeCounts(Start(Boot(conf, cursor), ch), steps);
  }

  // ----- what news costs the network -----

  /** Three times the ceiling logarithm of the cluster's size, taken as two at least. */
  predicate IsGrant(times: nat, nodeNum: u32) {
    times % 3 == 0 && IsCeilLog(10, Max(nodeNum, 2), times / 3)
  }

  /** Nothing queued about the claim's subject is as new. */
  predicate Unheard(l: Node, c: Claim) {
    forall k :: 0 <= k < |l.ring.entries| && l.ring.entries[k].msg.name == c.name ==> Newer(c, l.ring.entries[k].msg)
  }

  /** c is queued with all the sends a cluster of this size calls for. */
  ghost predicate Granted(l: Node, c: Claim) {
    exists k :: 0 <= k < |l.ring.entries| && l.ring.entries[k].msg == c && IsGrant(l.ring.entries[k].times, l.nodeNum)
  }

  lemma PushGrants(l: Node, c: Claim, at: nat)
    requires Unheard(l, c)
    ensures Granted(Push(l, c, at), c)
  {
    var i := Index(l.ring.entries, c.name);
    var k := if i == |l.ring.entries| then Min(at, i) else i;
    var e := Push(l, c, at).ring.entries;
    assert e[k] == Entry(c, Times(l.nodeNum)) && IsGrant(e[k].times, l.nodeNum);
  }

  // ----- suspicions -----

  /** A message about the claim's subject, no older, is queued. */
  ghost predicate Spreads(l: Node, c: Claim) {
    exists k :: 0 <= k < |l.ring.entries| && l.ring.entries[k].msg.name == c.name && AtLeast(l.ring.entries[k].msg, c)
  }

  lemma PushSpreads(l: Node, c: Claim, at: nat)
    ensures Spreads(Push(l, c, at), c)
  {
    var k := PushHolds(l.ring, c, l.nodeNum, at);
    assert Push(l, c, at).ring.entries[k].msg.name == c.name;
  }

  /** All a node believes, has told and has armed. */
  predicate SameStanding(l: Node, m: Node) {
    && m.conf == l.conf && m.records == l.records && m.nodes == l.nodes && m.nodeNum == l.nodeNum
    && m.dominant == l.dominant && m.armed == l.armed && m.probing == l.probing && m.log == l.log
    && m.passes == l.passes && m.cursor == l.cursor && m.maxAppended == l.maxAppended
  }

  /** A report that does not make the reporters enough is counted and passed on, and nothing
      else comes of it. */
  lemma TooFewReports(l: Node, s: Claim, ch: Choice)
    requires Inv(l) && Counts(l, s) && s.name in l.suspicions && !Enough(l.suspicions[s.name], s.from)
    ensures var l', d := SuspectNode(l, s, ch), l.suspicions[s.name];
            && SameStanding(l, l') && Spreads(l', s) && (Unheard(l, s) ==> Granted(l', s))
            && l'.suspicions ==
               l.suspicions[s.name := Doubt(d.need, |d.who + {s.from}|, d.who + {s.from}, d.accused)]
  {
    ReporterCounted(l.suspicions[s.name], s.from);
    PushSpreads(Confirm(l, s.name, s.from), s, ch.at);
    if Unheard(l, s) {
      PushGrants(Confirm(l, s.name, s.from), s, ch.at);
    }
  }

  /** A report convicts exactly if it is not outdated, there is a suspicion, and it makes the
      distinct reporters enough. */
  lemma WhenReportsConvict(l: Node, s: Claim, ch: Choice)
    requires Inv(l) && s.state != Dead && s.name != l.conf.name && !IsDead(l, s.name)
    ensures IsDead(SuspectNode(l, s, ch), s.name) <==> ReportedDeath(l, s).Some?
  {
    if Counts(l, s) && s.name in l.suspicions {
      ReporterCounted(l.suspicions[s.name], s.from);
      if Enough(l.suspicions[s.name], s.from) {
        ReportsConvict(l, s, ch);
      } else {
        TooFewReports(l, s, ch);
      }
    }
  }

  /** A first suspicion, of a live record, puts the claim on record, asks for as many
      reporters as the ceiling logarithm of the counter, and arms its conviction; the claim is
      passed on, or, if it is about this node, objected to. */
  lemma FirstSuspicion(l: Node, s: Claim, ch: Choice)
    requires Inv(l) && Counts(l, s) && s.name !in l.suspicions && l.records[s.name].state == Alive
    ensures var l' := SuspectNode(l, s, ch);
            && l'.records == l.records[s.name := s] && l'.nodes == l.nodes && l'.nodeNum == l.nodeNum
            && l'.log == l.log && l'.passes == l.passes && l'.probing == l.probing
            && l'.armed == l.armed + {Claim(s.name, s.address, s.dominant, Dead, s.from)}
            && s.name in l'.suspicions && l'.suspicions == l.suspicions[s.name := l'.suspicions[s.name]]
            && var d := l'.suspicions[s.name];
               && d == Doubt(d.need, 0, {}, s) && IsNeed(l.nodeNum, ch.need, d.need)
    ensures var l' := SuspectNode(l, s, ch);
            if s.name == l.conf.name then
              var o := SelfClaim(l.conf, ObjectionDominant(l.dominant, s.dominant));
              l'.dominant == o.dominant && Spreads(l', o) && (Unheard(l, o) ==> Granted(l', o))
            else l'.dominant == l.dominant && Spreads(l', s) && (Unheard(l, s) ==> Granted(l', s))
  {
    var l', o := SuspectNode(l, s, ch), SelfClaim(l.conf, ObjectionDominant(l.dominant, s.dominant));
    var c := if s.name == l.conf.name then o else s;
    PushSpreads(l, c, ch.at);
    assert l'.ring == Push(l, c, ch.at).ring;
    if Unheard(l, c) {
      PushGrants(l, c, ch.at);
    }
  }

  /** Every other suspicion changes nothing. */
  lemma IdleSuspicion(l: Node, s: Claim, ch: Choice)
    requires Inv(l)
    requires !Counts(l, s) || (s.name !in l.suspicions && l.records[s.name].state != Alive)
    ensures SuspectNode(l, s, ch) == l
  {}

  // ----- alive claims, alerts -----

  /** An alive claim is news exactly if it exceeds the record. It then goes on record, ends
      a suspicion, lists a node that was unknown or dead last of all and tells the application,
      unless that node is this one, whose incarnation it then is. Else it changes nothing. */
  lemma WhatAnAliveClaimDoes(l: Node, a: Claim, needBc: bool, ch: Choice)
    ensures var l', up, self := AliveNode(l, a, needBc, ch), a.name !in l.records || l.records[a.name].state == Dead,
                                a.name == l.conf.name;
            if a.dominant > Floor(l.records, a.name) then
              && l'.records == l.records[a.name := a] && l'.suspicions == l.suspicions - {a.name}
              && l'.nodes == (if up then l.nodes + [a.name] else l.nodes)
              && l'.nodeNum == (if up then (l.nodeNum + 1) % U32 else l.nodeNum)
              && l'.log == (if up && !self then l.log + [Joined(a.name)] else l.log)
              && l'.dominant == (if self then a.dominant else l.dominant)
              && l'.armed == l.armed && l'.passes == l.passes && (!needBc ==> l'.ring == l.ring)
            else l' == l
  {}

  /** After Join's local work a node knows and lists itself, alive at incarnation 1, and has
      nothing to send and nothing to tell. */
  lemma FirstState(conf: Config, cursor: nat, ch: Choice)
    ensures var l := Start(Boot(conf, cursor), ch);
            && l.conf == conf && l.records == map[conf.name := Claim(conf.name, conf.address, 1, Alive, None)]
            && l.nodes == [conf.name] && l.nodeNum == 1 && l.dominant == 1 && l.ring.entries == []
            && l.suspicions == map[] && l.armed == {} && l.probing == {} && l.log == [] && l.passes == 0
            && l.maxAppended == 10 && l.cursor == cursor
  {}

  /** Only a dead claim about this node is objected to, and then there is one objection. */
  lemma WhenAlertsAreAnswered(l: Node, c: Claim, ch: Choice)
    requires Max(l.dominant, c.dominant) < U64 - 1
    ensures if c.name == l.conf.name && c.state == Dead
            then Answers(l, PongAlert(l, c, ch), c.dominant, l.nodeNum, ch)
            else PongAlert(l, c, ch) == l
  {
    ObjectionOutranks(l.dominant, c.dominant);
  }

  // ----- the sends of news -----

  lemma AliveGrants(l: Node, a: Claim, ch: Choice)
    requires Unheard(l, a) && a.dominant > Floor(l.records, a.name)
    ensures Granted(AliveNode(l, a, true, ch), a)
  {
    var l' := AliveNode(l, a, true, ch);
    PushGrants(l.(nodeNum := l'.nodeNum), a, ch.at);
    assert l'.ring == Push(l.(nodeNum := l'.nodeNum), a, ch.at).ring;
  }

  lemma BuryGrants(l: Node, d: Claim, ch: Choice)
    requires Unheard(l, d) && Fatal(l, d)
    ensures Granted(DeadNode(l, d, ch), d)
  {
    var l' := DeadNode(l, d, ch);
    PushGrants(l.(nodeNum := l'.nodeNum), d, ch.at);
    assert l'.ring == Push(l.(nodeNum := l'.nodeNum), d, ch.at).ring;
  }

  lemma SuspectGrants(l: Node, s: Claim, ch: Choice, n: Name)
    requires Inv(l) && n in SuspectNode(l, s, ch).records && n != l.conf.name && s.state != Dead
    requires Knows(l, n) ==> SuspectNode(l, s, ch).records[n] != l.records[n]
    requires Unheard(l, SuspectNode(l, s, ch).records[n])
    ensures Granted(SuspectNode(l, s, ch), SuspectNode(l, s, ch).records[n])
  {
    if s.name in l.suspicions {
      var l1 := Confirm(l, s.name, s.from);
      BuryGrants(l1, Conviction(l1.suspicions[s.name].accused), ch);
    } else {
      PushGrants(l, s, ch.at);
      assert SuspectNode(l, s, ch).ring == Push(l, s, ch.at).ring;
    }
  }

  /** A record that a step changes goes out as it is, with all the sends a cluster of the
      size then counted calls for, unless the queue already held word as new. Of itself a node
      passes on what it takes over, and objects to what it is accused of. */
  lemma NewsGetsItsSends(l: Node, i: Input, ch: Choice, n: Name)
    requires Inv(l) && Enabled(l, i) && (i.Receive? ==> i.needBc) && n in Handle(l, i, ch).records
    requires n == l.conf.name ==> i.Receive? && i.c.state == Alive
    requires Knows(l, n) ==> Handle(l, i, ch).records[n] != l.records[n]
    requires Unheard(l, Handle(l, i, ch).records[n])
    ensures Granted(Handle(l, i, ch), Handle(l, i, ch).records[n])
  {
    match i {
      case Receive(c, _) =>
        match c.state {
          case Alive => AliveGrants(l, c, ch);
          case Suspect => SuspectGrants(l, c, ch, n);
          case Dead => BuryGrants(l, c, ch);
        }
      case Alert(_) =>
      case Convict(c) => BuryGrants(l, c, ch);
      case Timeout(c) => SuspectGrants(l, c, ch, n);
      case ProbeTick(size, room) => AppendKeeps(l.(cursor := NextCursor(l.nodes, l.cursor, 1)), size, room);
    }
  }

  // ----- whom a step is about -----

  /** What a node says of n: its record, its place in the index, its suspicion. */
  ghost predicate SameAbout(l: Node, m: Node, n: Name) {
    && (n in m.records <==> n in l.records) && (n in l.records ==> m.records[n] == l.records[n])
    && (n in m.suspicions <==> n in l.suspicions) && (n in l.suspicions ==> m.suspicions[n] == l.suspicions[n])
    && (n in m.nodes <==> n in l.nodes)
  }

  lemma AliveIsLocal(l: Node, a: Claim, needBc: bool, ch: Choice, n: Name)
    requires n != a.name
    ensures SameAbout(l, AliveNode(l, a, needBc, ch), n)
  {}

  lemma DeadIsLocal(l: Node, d: Claim, ch: Choice, n: Name)
    requires IndexCoherent(l) && n != d.name
    ensures SameAbout(l, DeadNode(l, d, ch), n)
  {
    SwapRemoveIsRemoval(l.nodes, d.name);
  }

  lemma SuspectIsLocal(l: Node, s: Claim, ch: Choice, n: Name)
    requires IndexCoherent(l) && SuspicionsCoherent(l) && n != s.name
    ensures SameAbout(l, SuspectNode(l, s, ch), n)
  {
    if Counts(l, s) && s.name in l.suspicions {
      var l1 := Confirm(l, s.name, s.from);
      DeadIsLocal(l1, Conviction(l1.suspicions[s.name].accused), ch, n);
    }
  }

  /** A step changes what the node says of the claim's subject and of nobody else. */
  lemma HandleIsLocal(l: Node, i: Input, ch: Choice, n: Name)
    requires Inv(l) && Enabled(l, i) && (!i.ProbeTick? ==> n != i.c.name)
    ensures SameAbout(l, Handle(l, i, ch), n)
  {
    match i {
      case Receive(c, needBc) =>
        match c.state {
          case Alive => AliveIsLocal(l, c, needBc, ch, n);
          case Suspect => SuspectIsLocal(l, c, ch, n);
          case Dead => DeadIsLocal(l, c, ch, n);
        }
      case Alert(c) =>
      case Convict(c) => DeadIsLocal(l, c, ch, n);
      case Timeout(c) => SuspectIsLocal(l, c, ch, n);
      case ProbeTick(size, room) => AppendKeeps(l.(cursor := NextCursor(l.nodes, l.cursor, 1)), size, room);
    }
  }

  lemma DeadKeepsTimers(l: Node, d: Claim, ch: Choice)
    ensures var l' := DeadNode(l, d, ch); l'.armed == l.armed && l'.probing == l.probing && l'.cursor == l.cursor
    ensures DeadNode(l, d, ch).maxAppended == l.maxAppended
  {}

  lemma SuspectKeepsTimers(l: Node, s: Claim, ch: Choice)
    ensures var l' := SuspectNode(l, s, ch); l.armed <= l'.armed && l'.probing == l.probing && l'.cursor == l.cursor
    ensures SuspectNode(l, s, ch).maxAppended == l.maxAppended
  {
    if Counts(l, s) && s.name in l.suspicions {
      var l1 := Confirm(l, s.name, s.from);
      DeadKeepsTimers(l1, Conviction(l1.suspicions[s.name].accused), ch);
    }
  }

  /** No timer is ever lost; only the probe ticker picks, arms a probe or shrinks the limit. */
  lemma HandleKeepsTimers(l: Node, i: Input, ch: Choice)
    requires Enabled(l, i)
    ensures var l' := Handle(l, i, ch);
            && l.armed <= l'.armed && l.probing <= l'.probing
            && (!i.ProbeTick? ==>
                 l'.probing == l.probing && l'.cursor == l.cursor && l'.maxAppended == l.maxAppended)
  {
    match i {
      case Receive(c, _) =>
        match c.state {
          case Alive =>
          case Suspect => SuspectKeepsTimers(l, c, ch);
          case Dead => DeadKeepsTimers(l, c, ch);
        }
      case Alert(_) =>
      case Convict(c) => DeadKeepsTimers(l, c, ch);
      case Timeout(c) => SuspectKeepsTimers(l, c, ch);
      case ProbeTick(_, _) =>
    }
  }

  // ----- the index -----

  /** Every name that stays keeps its position; the last one takes the place of the removed. */
  lemma RemovalPlaces(nodes: seq<Name>, name: Name, j: nat)
    requires Distinct(nodes) && j < |SwapRemove(nodes, name)|
    ensures |SwapRemove(nodes, name)| <= |nodes|
    ensures SwapRemove(nodes, name)[j] == if nodes[j] == name then nodes[|nodes| - 1] else nodes[j]
  {
    SwapRemoveIsRemoval(nodes, name);
    PositionFinds(nodes, name);
  }

  // ----- the packet limit -----

  /** No packet of the life is too big. */
  predicate NeverTooBig(l: Node, steps: seq<Step>)
    requires CanLive(l, steps)
    decreases |steps|
  {
    steps == []
    || (&& (steps[0].i.ProbeTick? ==> steps[0].i.size(Due(l)) <= steps[0].i.room)
        && NeverTooBig(Handle(l, steps[0].i, steps[0].ch), steps[1..]))
  }

  lemma {:induction false} LimitStays(l: Node, steps: seq<Step>)
    requires CanLive(l, steps) && NeverTooBig(l, steps)
    ensures Lived(l, steps).maxAppended == l.maxAppended
    decreases |steps|
  {
    if steps != [] {
      HandleKeepsTimers(l, steps[0].i, steps[0].ch);
      LimitStays(Handle(l, steps[0].i, steps[0].ch), steps[1..]);
    }
  }

  /** Until a packet is too big, a ping carries up to ten of the queued messages. */
  lemma PingsCarryTen(conf: Config, cursor: nat, ch: Choice, steps: seq<Step>, size: seq<Claim> -> nat, room: int)
    requires CanLive(Start(Boot(conf, cursor), ch), steps) && NeverTooBig(Start(Boot(conf, cursor), ch), steps)
    ensures var l := Lived(Start(Boot(conf, cursor), ch), steps);
            size(Due(l)) <= room ==> |Appended(l, size, room)| == Min(10, |l.ring.entries|)
  {
    LimitStays(Start(Boot(conf, cursor), ch), steps);
  }
}
