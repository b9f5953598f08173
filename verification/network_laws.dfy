/** Consequences for whole runs: bounded flapping, refutation end to end, and what
    the failure detector of this program never does. */
module NetworkLaws {
  import opened Claims
  import opened Broadcast
  import opened Suspicions
  import opened Handlers
  import opened Invariants
  import opened NodeLaws
  import HandlerLaws
  import opened Network
  import opened NetworkSafety

  // ----- flapping -----

  function Upto(s: set<u64>, d: u64): set<u64> {
    set x | x in s && x <= d
  }

  lemma UptoGrows(s: set<u64>, d: u64, s': set<u64>, d': u64)
    requires s <= s' && d <= d'
    ensures |Upto(s, d)| + (if d < d' && d' in s' then 1 else 0) <= |Upto(s', d')|
  {
    var a, b := Upto(s, d), Upto(s', d');
    if d < d' && d' in s' {
      assert b == (a + {d'}) + (b - (a + {d'}));
    } else {
      assert b == a + (b - a);
    }
  }

  /** As many joins were announced as the node's incarnations up to the one on record. */
  ghost predicate JoinsBounded(l: Node, subject: Name, issued: set<u64>) {
    Joins(l.log, subject) <= if Knows(l, subject) then |Upto(issued, l.records[subject].dominant)| else 0
  }

  /** The only handler that announces a join is an alive claim that raises the record. */
  ghost predicate LogStep(l: Node, l': Node) {
    || l'.log == l.log
    || (|l'.log| == |l.log| + 1 && l'.log[..|l.log|] == l.log && l'.log[|l.log|].Left?)
    || (&& |l'.log| == |l.log| + 1 && l'.log[..|l.log|] == l.log && l'.log[|l.log|].Joined?
        && var n := l'.log[|l.log|].name;
           Knows(l', n) && (Knows(l, n) ==> l.records[n].dominant < l'.records[n].dominant))
  }

  lemma DeadLogStep(l: Node, d: Claim, ch: Choice)
    ensures LogStep(l, DeadNode(l, d, ch))
  {}

  lemma SuspectLogStep(l: Node, s: Claim, ch: Choice)
    ensures LogStep(l, SuspectNode(l, s, ch))
  {
    if Knows(l, s.name) && s.dominant >= l.records[s.name].dominant && s.name in l.suspicions {
      var l1 := Confirm(l, s.name, s.from);
      DeadLogStep(l1, Conviction(l1.suspicions[s.name].accused), ch);
    }
  }

  lemma AliveLogStep(l: Node, a: Claim, needBc: bool, ch: Choice)
    ensures LogStep(l, AliveNode(l, a, needBc, ch))
  {}

  lemma HandleLogStep(l: Node, i: Input, ch: Choice)
    requires Enabled(l, i)
    ensures LogStep(l, Handle(l, i, ch))
  {
    match i {
      case Receive(c, needBc) =>
        match c.state {
          case Alive => AliveLogStep(l, c, needBc, ch);
          case Suspect => SuspectLogStep(l, c, ch);
          case Dead => DeadLogStep(l, c, ch);
        }
      case Alert(c) =>
      case Convict(c) => DeadLogStep(l, c, ch);
      case Timeout(c) => SuspectLogStep(l, c, ch);
      case ProbeTick(_, _) =>
    }
  }

  lemma JoinsStayBounded(l: Node, l': Node, subject: Name, s: set<u64>, s': set<u64>)
    requires JoinsBounded(l, subject, s) && LogStep(l, l') && NoRecordLowered(l, l') && s <= s'
    requires Knows(l', subject) ==> l'.records[subject].dominant in s'
    ensures JoinsBounded(l', subject, s')
  {
    if Knows(l, subject) {
      assert AtLeast(l'.records[subject], l.records[subject]);
      UptoGrows(s, l.records[subject].dominant, s', l'.records[subject].dominant);
    } else if Knows(l', subject) {
      var d := l'.records[subject].dominant;
      assert d in Upto(s', d);
      assert Upto(s', d) == {d} + (Upto(s', d) - {d});
    }
    if l'.log != l.log {
      assert Joins(l'.log, subject) ==
             Joins(l.log, subject) + if l'.log[|l.log|] == Joined(subject) then 1 else 0;
    }
  }

  lemma FlappingStep(net: Net, a: Act, n: Name, subject: Name)
    requires Safe(net) && Possible(net, a) && n in net.nodes && !(a.Join? && a.conf.name == n)
    requires JoinsBounded(net.nodes[n], subject, IssuedBy(net.issued, subject))
    ensures n in Next(net, a).nodes
    ensures JoinsBounded(Next(net, a).nodes[n], subject, IssuedBy(Next(net, a).issued, subject))
  {
    StepKeepsRecords(net, a, n);
    StepNodeSafe(net, a, n);
    OneNodeMoves(net, a, n);
    IssuedOnlyGrows(net, a);
    var l, l', issued' := net.nodes[n], Next(net, a).nodes[n], Next(net, a).issued;
    if a.Do? && a.n == n {
      HandleLogStep(l, a.i, a.ch);
    }
    assert Knows(l', subject) ==> GenuineIn(issued')(l'.records[subject]);
    JoinsStayBounded(l, l', subject, IssuedBy(net.issued, subject), IssuedBy(issued', subject));
  }

  lemma FirstLog(conf: Config, cursor: nat, ch: Choice, subject: Name, issued: set<u64>)
    ensures JoinsBounded(Start(Boot(conf, cursor), ch), subject, issued)
  {
    assert Start(Boot(conf, cursor), ch).log == [];
  }

  lemma JoinsBoundedStep(net: Net, a: Act, n: Name, subject: Name)
    requires Safe(net) && Possible(net, a) && n in Next(net, a).nodes
    requires n in net.nodes ==> JoinsBounded(net.nodes[n], subject, IssuedBy(net.issued, subject))
    ensures JoinsBounded(Next(net, a).nodes[n], subject, IssuedBy(Next(net, a).issued, subject))
  {
    if a.Join? && a.conf.name == n {
      FirstLog(a.conf, a.cursor, a.ch, subject, IssuedBy(Next(net, a).issued, subject));
    } else {
      NobodyElseAppears(net, a, n);
      FlappingStep(net, a, n, subject);
    }
  }

  ghost predicate Bounded(net: Net) {
    forall n, subject :: n in net.nodes ==>
      JoinsBounded(net.nodes[n], subject, IssuedBy(net.issued, subject))
  }

  lemma StepBounded(net: Net, a: Act, net': Net)
    requires Safe(net) && Bounded(net) && Leads(net, a, net')
    ensures Bounded(net')
  {
    forall n, subject | n in net'.nodes
      ensures JoinsBounded(net'.nodes[n], subject, IssuedBy(net'.issued, subject))
    {
      JoinsBoundedStep(net, a, n, subject);
    }
  }

  lemma {:induction false} RunIsBounded(nets: seq<Net>, acts: seq<Act>, i: nat)
    requires i < |nets| && i <= |acts| && RunsTo(nets, acts, i)
    ensures Bounded(nets[i])
  {
    if i > 0 {
      RunIsBounded(nets, acts, i - 1);
      RunIsSafe(nets, acts, i - 1);
      StepBounded(nets[i - 1], acts[i - 1], nets[i]);
    }
  }

  lemma BoundMeansFew(l: Node, subject: Name, s: set<u64>)
    requires JoinsBounded(l, subject, s)
    ensures Joins(l.log, subject) <= |s|
  {
    if Knows(l, subject) {
      var u := Upto(s, l.records[subject].dominant);
      assert s == u + (s - u);
    }
  }

  /** Since it last started, a node has announced at most one join of another, and at
      most one leave, per incarnation that other ever issued. */
  lemma FlappingIsBounded(nets: seq<Net>, acts: seq<Act>, i: nat, n: Name, subject: Name)
    requires IsRun(nets, acts) && i < |nets| && n in nets[i].nodes && subject != n
    ensures Leaves(nets[i].nodes[n].log, subject) <= Joins(nets[i].nodes[n].log, subject)
    ensures Joins(nets[i].nodes[n].log, subject) <= |IssuedBy(nets[i].issued, subject)|
  {
    RunPrefix(nets, acts, |acts|, i);
    RunIsBounded(nets, acts, i);
    RunIsSafe(nets, acts, i);
    BoundMeansFew(nets[i].nodes[n], subject, IssuedBy(nets[i].issued, subject));
    JoinsMinusLeaves(nets[i].nodes[n], subject);
  }

  // ----- suspicion never spreads -----

  /** The claims these nodes make: never "suspect", never with a reporter. */
  predicate Plain(c: Claim) {
    c.state != Suspect && c.from == None
  }

  predicate Unconfirmed(d: Doubt) {
    || (d.who == {} && d.confirm == 0)
    || (d.who == {None} && d.confirm == 1)
  }

  ghost predicate Silent(l: Node) {
    && AllClaims(l, Plain)
    && forall n :: n in l.suspicions ==> Unconfirmed(l.suspicions[n])
  }

  ghost predicate OwnAlive(l: Node) {
    forall k :: 0 <= k < |l.ring.entries| ==>
      l.ring.entries[k].msg.name == l.conf.name ==> l.ring.entries[k].msg.state == Alive
  }

  ghost predicate Quiet(net: Net) {
    && (forall n :: n in net.nodes ==> Silent(net.nodes[n]) && OwnAlive(net.nodes[n]))
    && InFlight(net.soup, Plain)
  }

  lemma DeadSilent(l: Node, d: Claim, ch: Choice)
    requires forall n :: n in l.suspicions ==> Unconfirmed(l.suspicions[n])
    ensures var l' := DeadNode(l, d, ch);
            forall n :: n in l'.suspicions ==> Unconfirmed(l'.suspicions[n])
  {}

  lemma SuspectSilent(l: Node, s: Claim, ch: Choice)
    requires Silent(l) && Plain(s)
    ensures var l' := SuspectNode(l, s, ch);
            forall n :: n in l'.suspicions ==> Unconfirmed(l'.suspicions[n])
  {
    if Knows(l, s.name) && s.dominant >= l.records[s.name].dominant && s.name in l.suspicions {
      var l1 := Confirm(l, s.name, s.from);
      DeadSilent(l1, Conviction(l1.suspicions[s.name].accused), ch);
    }
  }

  lemma HandleSilent(l: Node, i: Input, ch: Choice)
    requires Enabled(l, i) && Silent(l) && (i.Receive? || i.Alert? ==> Plain(i.c))
    ensures Silent(Handle(l, i, ch))
  {
    HandleClaims(l, i, ch, Plain);
    HandleUnconfirmed(l, i, ch);
  }

  lemma HandleUnconfirmed(l: Node, i: Input, ch: Choice)
    requires Enabled(l, i) && Silent(l) && (i.Receive? || i.Alert? ==> Plain(i.c))
    ensures var l' := Handle(l, i, ch);
            forall n :: n in l'.suspicions ==> Unconfirmed(l'.suspicions[n])
  {
    match i {
      case Receive(c, _) =>
        if c.state == Dead {
          DeadSilent(l, c, ch);
        }
      case Convict(c) => DeadSilent(l, c, ch);
      case Timeout(c) =>
        assert Plain(c);
        SuspectSilent(l, c, ch);
      case Alert(_) =>
      case ProbeTick(_, _) =>
    }
  }

  // a node's queue never says anything but "alive" about itself

  lemma PushOwnAlive(l: Node, r: Ring, c: Claim, nodeNum: u32, at: nat)
    requires l.ring == r && OwnAlive(l) && (c.name == l.conf.name ==> c.state == Alive)
    ensures OwnAlive(l.(ring := PushRing(r, c, nodeNum, at)))
  {}

  lemma {:induction false} AfterOwnAlive(l: Node, n: nat)
    requires OwnAlive(l)
    ensures OwnAlive(l.(ring := After(l.ring, n)))
    decreases n
  {
    if n > 0 {
      var l1 := l.(ring := PopRing(l.ring).1);
      assert OwnAlive(l1);
      AfterOwnAlive(l1, n - 1);
    }
  }

  lemma DeadOwnAlive(l: Node, d: Claim, ch: Choice)
    requires OwnAlive(l)
    ensures OwnAlive(DeadNode(l, d, ch))
  {
    var l' := DeadNode(l, d, ch);
    if l'.log != l.log {
      PushOwnAlive(l, l.ring, d, l'.nodeNum, ch.at);
    } else {
      PushOwnAlive(l, l.ring, SelfClaim(l.conf, ObjectionDominant(l.dominant, d.dominant)), Sub1(l.nodeNum), ch.at);
    }
  }

  lemma SuspectOwnAlive(l: Node, s: Claim, ch: Choice)
    requires OwnAlive(l) && s.state == Alive
    ensures OwnAlive(SuspectNode(l, s, ch))
  {
    PushOwnAlive(l, l.ring, s, l.nodeNum, ch.at);
    PushOwnAlive(l, l.ring, SelfClaim(l.conf, ObjectionDominant(l.dominant, s.dominant)), l.nodeNum, ch.at);
    if Knows(l, s.name) && s.dominant >= l.records[s.name].dominant && s.name in l.suspicions {
      var l1 := Confirm(l, s.name, s.from);
      DeadOwnAlive(l1, Conviction(l1.suspicions[s.name].accused), ch);
    }
  }

  lemma AliveOwnAlive(l: Node, a: Claim, needBc: bool, ch: Choice)
    requires OwnAlive(l) && a.state == Alive
    ensures OwnAlive(AliveNode(l, a, needBc, ch))
  {
    PushOwnAlive(l, l.ring, a, AliveNode(l, a, needBc, ch).nodeNum, ch.at);
  }

  lemma AlertOwnAlive(l: Node, c: Claim, ch: Choice)
    requires OwnAlive(l)
    ensures OwnAlive(PongAlert(l, c, ch))
  {
    PushOwnAlive(l, l.ring, SelfClaim(l.conf, ObjectionDominant(l.dominant, c.dominant)), l.nodeNum, ch.at);
  }

  lemma ProbeOwnAlive(l: Node, size: seq<Claim> -> nat, room: int)
    requires CanProbe(l) && OwnAlive(l)
    ensures OwnAlive(Probe(l, size, room))
  {
    AfterOwnAlive(l, |Due(l)|);
  }

  lemma HandleOwnAlive(l: Node, i: Input, ch: Choice)
    requires Enabled(l, i) && Inv(l) && OwnAlive(l) && (i.Receive? ==> Plain(i.c))
    ensures OwnAlive(Handle(l, i, ch))
  {
    match i {
      case Receive(c, needBc) =>
        if c.state == Dead {
          DeadOwnAlive(l, c, ch);
        } else {
          AliveOwnAlive(l, c, needBc, ch);
        }
      case Alert(c) => AlertOwnAlive(l, c, ch);
      case Convict(c) => DeadOwnAlive(l, c, ch);
      case Timeout(c) => SuspectOwnAlive(l, c, ch);
      case ProbeTick(size, room) => ProbeOwnAlive(l, size, room);
    }
  }

  lemma StartQuiet(conf: Config, cursor: nat, ch: Choice)
    ensures Silent(Start(Boot(conf, cursor), ch)) && OwnAlive(Start(Boot(conf, cursor), ch))
  {}

  lemma HandleQuiet(l: Node, i: Input, ch: Choice)
    requires Enabled(l, i) && Inv(l) && Silent(l) && OwnAlive(l) && (i.Receive? || i.Alert? ==> Plain(i.c))
    ensures Silent(Handle(l, i, ch)) && OwnAlive(Handle(l, i, ch))
  {
    HandleSilent(l, i, ch);
    HandleOwnAlive(l, i, ch);
  }

  lemma StepNodeQuiet(net: Net, a: Act, n: Name)
    requires Possible(net, a) && n in Next(net, a).nodes
    requires a.Do? && a.n == n ==> (a.i.Receive? || a.i.Alert? ==> Plain(a.i.c))
    requires n in net.nodes ==> Inv(net.nodes[n]) && Silent(net.nodes[n]) && OwnAlive(net.nodes[n])
    ensures Silent(Next(net, a).nodes[n]) && OwnAlive(Next(net, a).nodes[n])
  {
    if a.Join? && a.conf.name == n {
      StartQuiet(a.conf, a.cursor, a.ch);
    } else {
      OneNodeMoves(net, a, n);
      if a.Do? && a.n == n {
        HandleQuiet(net.nodes[n], a.i, a.ch);
      }
    }
  }

  lemma QuietNode(net: Net, a: Act, n: Name)
    requires Safe(net) && Quiet(net) && Possible(net, a) && n in Next(net, a).nodes
    ensures Silent(Next(net, a).nodes[n]) && OwnAlive(Next(net, a).nodes[n])
  {
    assert n in net.nodes ==> NodeSafe(net.nodes[n], net.issued);
    if a.Do? {
      HeardWasSent(net, a, Plain);
    }
    StepNodeQuiet(net, a, n);
  }

  lemma QuietSoup(net: Net, a: Act)
    requires Quiet(net) && Possible(net, a)
    ensures InFlight(Next(net, a).soup, Plain)
  {
    forall n | n in net.nodes ensures AllClaims(net.nodes[n], Plain) {
      assert Silent(net.nodes[n]);
    }
    SoupClaims(net, a, Plain);
  }

  lemma StepQuiet(net: Net, a: Act)
    requires Safe(net) && Quiet(net) && Possible(net, a)
    ensures Quiet(Next(net, a))
  {
    QuietSoup(net, a);
    forall n | n in Next(net, a).nodes ensures Silent(Next(net, a).nodes[n]) && OwnAlive(Next(net, a).nodes[n]) {
      QuietNode(net, a, n);
    }
  }

  lemma LeadsQuiet(net: Net, a: Act, net': Net)
    requires Safe(net) && Quiet(net) && Leads(net, a, net')
    ensures Quiet(net')
  {
    StepQuiet(net, a);
  }

  lemma {:induction false} RunIsQuiet(nets: seq<Net>, acts: seq<Act>, i: nat)
    requires i < |nets| && i <= |acts| && RunsTo(nets, acts, i)
    ensures Quiet(nets[i])
  {
    if i > 0 {
      RunIsQuiet(nets, acts, i - 1);
      RunIsSafe(nets, acts, i - 1);
      LeadsQuiet(nets[i - 1], acts[i - 1], nets[i]);
    }
  }

  lemma ReachableIsQuiet(nets: seq<Net>, acts: seq<Act>, i: nat)
    requires IsRun(nets, acts) && i < |nets|
    ensures Quiet(nets[i])
  {
    RunPrefix(nets, acts, |acts|, i);
    RunIsQuiet(nets, acts, i);
  }

  /** No node of a network of these nodes ever learns of another's suspicion: no
      record, message or claim in flight is ever in the suspect state, and no
      suspicion that needs two reporters is ever confirmed by reports. */
  lemma SuspicionNeverSpreads(nets: seq<Net>, acts: seq<Act>, i: nat, n: Name, subject: Name)
    requires IsRun(nets, acts) && i < |nets| && n in nets[i].nodes
    ensures forall k :: k in nets[i].soup && !k.Ping? ==> k.c.state != Suspect
    ensures subject in nets[i].nodes[n].records ==> nets[i].nodes[n].records[subject].state != Suspect
    ensures subject in nets[i].nodes[n].suspicions && nets[i].nodes[n].suspicions[subject].need >= 2 ==>
              !Convicts(nets[i].nodes[n].suspicions[subject])
  {
    ReachableIsQuiet(nets, acts, i);
    assert Silent(nets[i].nodes[n]);
    assert AllClaims(nets[i].nodes[n], Plain);
  }

  lemma OneReporterIsFew(d: Doubt)
    requires Unconfirmed(d) && d.need >= 2
    ensures !HandlerLaws.Enough(d, None)
  {
    assert d.who + {None} == {None};
  }

  /** Nobody is recorded dead, unlisted or announced as gone. */
  ghost predicate SparesAll(l: Node, l': Node) {
    && l'.nodes == l.nodes && l'.log == l.log && l'.passes == l.passes
    && forall m :: IsDead(l', m) ==> IsDead(l, m)
  }

  lemma TimeoutAtNode(l: Node, c: Claim, ch: Choice)
    requires Inv(l) && Silent(l) && c in l.probing && (c.name in l.suspicions ==> l.suspicions[c.name].need >= 2)
    ensures SparesAll(l, SuspectNode(l, c, ch))
    ensures c.name in l.suspicions ==> SuspectNode(l, c, ch).records == l.records
  {
    assert Plain(c);
    if HandlerLaws.Counts(l, c) && c.name in l.suspicions {
      OneReporterIsFew(l.suspicions[c.name]);
      HandlerLaws.TooFewReports(l, c, ch);
    } else if HandlerLaws.Counts(l, c) && l.records[c.name].state == Alive {
      HandlerLaws.FirstSuspicion(l, c, ch);
    } else {
      HandlerLaws.IdleSuspicion(l, c, ch);
    }
  }

  lemma ReachableNode(nets: seq<Net>, acts: seq<Act>, i: nat, n: Name)
    requires IsRun(nets, acts) && i < |nets| && n in nets[i].nodes
    ensures Inv(nets[i].nodes[n]) && Silent(nets[i].nodes[n])
  {
    ReachableIsQuiet(nets, acts, i);
    ReachableIsSafe(nets, acts, i);
    assert NodeSafe(nets[i].nodes[n], nets[i].issued);
  }

  /** A probe that times out, at a node whose suspicion of the target, if it has one, needs two
      reporters or more, convicts nobody: so it is in every reachable state, however often it
      happens. */
  lemma TimeoutsNeverConvict(nets: seq<Net>, acts: seq<Act>, i: nat, n: Name, c: Claim, ch: Choice)
    requires IsRun(nets, acts) && i < |nets| && n in nets[i].nodes && c in nets[i].nodes[n].probing
    requires c.name in nets[i].nodes[n].suspicions ==> nets[i].nodes[n].suspicions[c.name].need >= 2
    ensures SparesAll(nets[i].nodes[n], Handle(nets[i].nodes[n], Timeout(c), ch))
    ensures c.name in nets[i].nodes[n].suspicions ==>
              Handle(nets[i].nodes[n], Timeout(c), ch).records == nets[i].nodes[n].records
  {
    ReachableNode(nets, acts, i, n);
    TimeoutAtNode(nets[i].nodes[n], c, ch);
  }

  // ----- alerts -----

  /** A pong carries nothing but word that its addressee is dead. */
  ghost predicate PongsTellDeaths(soup: set<Packet>) {
    forall k :: k in soup && k.Pong? ==> k.c.state == Dead && k.c.name == k.to
  }

  lemma AlertTellsDeath(l: Node, from: Name)
    requires Inv(l)
    ensures DeadAlert(l, from).Some? <==> from in l.records && l.records[from].state == Dead
    ensures DeadAlert(l, from).Some? ==>
              DeadAlert(l, from).value == l.records[from] && l.records[from].name == from
  {}

  lemma StepTellsDeaths(net: Net, a: Act, net': Net)
    requires Safe(net) && Leads(net, a, net') && PongsTellDeaths(net.soup)
    ensures PongsTellDeaths(net'.soup)
  {
    forall k | k in net'.soup && k.Pong? ensures k.c.state == Dead && k.c.name == k.to {
      PongTellsDeath(net, a, k.to, k.c);
    }
  }

  lemma PongTellsDeath(net: Net, a: Act, to: Name, c: Claim)
    requires Safe(net) && Possible(net, a) && PongsTellDeaths(net.soup) && Pong(to, c) in Next(net, a).soup
    ensures c.state == Dead && c.name == to
  {
    PongsAreAnswers(net, a, to, c);
    if Pong(to, c) !in net.soup {
      assert NodeSafe(net.nodes[a.n], net.issued);
      AlertTellsDeath(net.nodes[a.n], to);
    }
  }

  lemma {:induction false} RunTellsDeaths(nets: seq<Net>, acts: seq<Act>, i: nat)
    requires i < |nets| && i <= |acts| && RunsTo(nets, acts, i)
    ensures PongsTellDeaths(nets[i].soup)
  {
    if i > 0 {
      RunTellsDeaths(nets, acts, i - 1);
      RunIsSafe(nets, acts, i - 1);
      StepTellsDeaths(nets[i - 1], acts[i - 1], nets[i]);
    }
  }

  /** In every reachable state every alert in flight tells its addressee that it is dead, so
      whoever receives one objects. */
  lemma AlertsTellDeaths(nets: seq<Net>, acts: seq<Act>, i: nat)
    requires IsRun(nets, acts) && i < |nets|
    ensures forall to, c :: Pong(to, c) in nets[i].soup ==> c.state == Dead && c.name == to
  {
    RunPrefix(nets, acts, |acts|, i);
    RunTellsDeaths(nets, acts, i);
  }

  // ----- refutation, end to end -----

  /** `o` is an alive claim about `l` itself, queued at `l`, that outranks `accused`. */
  ghost predicate Refutes(l: Node, accused: u64, o: Claim) {
    && (exists k :: 0 <= k < |l.ring.entries| && l.ring.entries[k].msg == o)
    && o.name == l.conf.name && o.state == Alive && o.dominant > accused
  }

  lemma RefuterFound(l: Node, accused: u64) returns (o: Claim)
    requires OwnAlive(l) && Announces(l, accused)
    ensures Refutes(l, accused, o)
  {
    var k :| 0 <= k < |l.ring.entries| && l.ring.entries[k].msg.name == l.conf.name
             && l.ring.entries[k].msg.dominant > accused;
    o := l.ring.entries[k].msg;
  }

  lemma AnsweredAtNode(l: Node, i: Input, ch: Choice, issued: map<Name, set<u64>>) returns (o: Claim)
    requires Enabled(l, i) && NodeSafe(l, issued) && Silent(l) && OwnAlive(l)
    requires i.Receive? || i.Alert? ==> Plain(i.c) && GenuineIn(issued)(i.c)
    requires Objection(l, i).Some? && LastIncarnation !in IssuedBy(issued, l.conf.name)
    ensures Refutes(Handle(l, i, ch), Objection(l, i).value, o)
  {
    ObjectionIsGenuine(l, i, issued);
    ObjectionIsQueued(l, i, ch);
    HandleQuiet(l, i, ch);
    o := RefuterFound(Handle(l, i, ch), Objection(l, i).value);
  }

  /** Whatever makes a node object to incarnation k of its own death or suspicion, its
      queue then holds an alive claim about itself that outranks k. */
  lemma StepIsAnswered(net: Net, a: Act) returns (o: Claim)
    requires Safe(net) && Quiet(net) && Possible(net, a) && a.Do? && Objection(net.nodes[a.n], a.i).Some?
    requires LastIncarnation !in IssuedBy(net.issued, a.n)
    ensures a.n in Next(net, a).nodes
    ensures Refutes(Next(net, a).nodes[a.n], Objection(net.nodes[a.n], a.i).value, o)
  {
    OneNodeMoves(net, a, a.n);
    HeardWasSent(net, a, Plain);
    HeardWasSent(net, a, GenuineIn(net.issued));
    assert NodeSafe(net.nodes[a.n], net.issued) && Silent(net.nodes[a.n]);
    o := AnsweredAtNode(net.nodes[a.n], a.i, a.ch, net.issued);
  }

  /** The same of every state a run reaches, unless it has taken 2^64 - 1 steps. */
  lemma ObjectionIsAnswered(nets: seq<Net>, acts: seq<Act>, i: nat, a: Act) returns (o: Claim)
    requires IsRun(nets, acts) && i < |nets| && i < U64 - 1
    requires Possible(nets[i], a) && a.Do? && Objection(nets[i].nodes[a.n], a.i).Some?
    ensures a.n in Next(nets[i], a).nodes
    ensures Refutes(Next(nets[i], a).nodes[a.n], Objection(nets[i].nodes[a.n], a.i).value, o)
  {
    ReachableIsSafe(nets, acts, i);
    ReachableIsQuiet(nets, acts, i);
    IncarnationsGrowSlowly(nets, acts, i, a.n);
    o := StepIsAnswered(nets[i], a);
  }

  /** Any peer still at k or below that is delivered such a claim, by whatever way it
      came, then lists its subject as alive under that claim and suspects it no more. */
  lemma RefutationIsHeard(net: Net, n: Name, accused: u64, o: Claim, p: Name, needBc: bool, ch: Choice)
    requires Safe(net) && n in net.nodes && Refutes(net.nodes[n], accused, o)
    requires News(p, o) in net.soup && p in net.nodes
    requires Knows(net.nodes[p], n) ==> net.nodes[p].records[n].dominant <= accused
    ensures var a := Do(p, Receive(o, needBc), ch);
            && Possible(net, a) && p in Next(net, a).nodes
            && var peer := Next(net, a).nodes[p];
               && n in peer.nodes && n !in peer.suspicions
               && Knows(peer, n) && peer.records[n] == o
  {
    assert NodeSafe(net.nodes[p], net.issued);
    RefutationWins(net.nodes[p], o, accused, needBc, ch);
  }
}
