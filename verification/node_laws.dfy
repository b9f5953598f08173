/** What the invariants mean for one node: late convictions, notifications,
    objections, and what a probe may rely on. */
module NodeLaws {
  import opened Claims
  import opened Broadcast
  import opened Suspicions
  import opened Handlers
  import opened Invariants

  // ----- this node itself -----

  /** After Join's local work a node lists itself as alive, for good. */
  ghost predicate Started(l: Node) {
    l.conf.name in l.nodes
  }

  lemma StartKeeps(conf: Config, cursor: nat, ch: Choice)
    ensures Inv(Boot(conf, cursor))
    ensures var l := Start(Boot(conf, cursor), ch); Inv(l) && Started(l) && l.dominant == 1
  {
    var l := Boot(conf, cursor);
    AliveKeeps(l.(dominant := 1), SelfClaim(conf, 1), false, ch);
  }

  lemma DeadKeepsStarted(l: Node, d: Claim, ch: Choice)
    requires Inv(l) && Started(l) && d.state == Dead
    ensures Started(DeadNode(l, d, ch))
  {
    DeadKeeps(l, d, ch);
    assert DeadNode(l, d, ch).records[l.conf.name] == l.records[l.conf.name];
  }

  lemma SuspectKeepsStarted(l: Node, s: Claim, ch: Choice)
    requires Inv(l) && Started(l) && s.state != Dead
    ensures Started(SuspectNode(l, s, ch))
  {
    SuspectKeeps(l, s, ch);
    if Knows(l, s.name) && s.dominant >= l.records[s.name].dominant && s.name in l.suspicions {
      var l1 := Confirm(l, s.name, s.from);
      ConfirmKeeps(l, s.name, s.from);
      DeadKeepsStarted(l1, Conviction(l1.suspicions[s.name].accused), ch);
    }
  }

  lemma HandleKeepsStarted(l: Node, i: Input, ch: Choice)
    requires Inv(l) && Enabled(l, i) && Started(l)
    ensures Started(Handle(l, i, ch))
  {
    match i {
      case Receive(c, needBc) =>
        match c.state {
          case Alive =>
          case Suspect => SuspectKeepsStarted(l, c, ch);
          case Dead => DeadKeepsStarted(l, c, ch);
        }
      case Alert(c) =>
      case Convict(c) => DeadKeepsStarted(l, c, ch);
      case Timeout(c) => SuspectKeepsStarted(l, c, ch);
      case ProbeTick(size, room) =>
        AppendKeeps(l.(cursor := NextCursor(l.nodes, l.cursor, 1)), size, room);
    }
  }

  /** probe() never finds the index empty nor a listed node without a record. */
  lemma ProbeHasTarget(l: Node)
    requires Inv(l) && Started(l)
    ensures CanProbe(l)
  {
    var name := Picks(l.nodes, l.cursor, 1)[0];
    assert name in l.nodes;
  }

  // ----- convictions -----

  /** A conviction about another node changes a record exactly when its suspicion is
      still in force; otherwise it only wears down the node counter, and if the record has
      moved on to a newer incarnation it does nothing at all. */
  lemma ConvictionsActOnce(l: Node, c: Claim, ch: Choice)
    requires Inv(l) && c in l.armed && c.name != l.conf.name
    ensures var l' := DeadNode(l, c, ch);
            if Pending(l, c) then
              && c.name in l'.records && l'.records[c.name] == c && c.name !in l'.nodes
              && c.name !in l'.suspicions && l'.log == l.log + [Left(c.name)]
            else
              && l' == l.(nodeNum := l'.nodeNum, passes := l'.passes)
              && c.name in l.records && (l' == l <==> c.dominant < l.records[c.name].dominant)
  {
    DeadKeeps(l, c, ch);
    if !Pending(l, c) && IsDead(l, c.name) {
      assert l.suspicions - {c.name} == l.suspicions;
    }
  }

  ghost predicate Gone(l: Node, n: Name) {
    && IsDead(l, n) && n !in l.nodes && n !in l.suspicions
    && l.log != [] && l.log[|l.log| - 1] == Left(n)
  }

  /** A suspicion in force has a timer, and that timer convicts. */
  lemma SuspicionConvicts(l: Node, n: Name, ch: Choice)
    requires Inv(l) && n in l.suspicions && n != l.conf.name
    ensures var i := Convict(Conviction(l.suspicions[n].accused));
            Enabled(l, i) && Gone(Handle(l, i, ch), n)
  {
    ConvictionsActOnce(l, Conviction(l.suspicions[n].accused), ch);
  }

  /** Failure detection: a probed node that does not answer, and is heard of from
      nobody, is suspected and then recorded as gone. */
  lemma SilentNodeIsRemoved(l: Node, size: seq<Claim> -> nat, room: int, ch: Choice, ch': Choice)
    requires Inv(l) && CanProbe(l) && Probes(l)
    requires Picks(l.nodes, l.cursor, 1)[0] !in l.suspicions
    ensures var n := Picks(l.nodes, l.cursor, 1)[0];
            var probed := Probe(l, size, room);
            && Enabled(probed, Timeout(l.records[n]))
            && (var suspected := Handle(probed, Timeout(l.records[n]), ch);
                && n in suspected.suspicions
                && Enabled(suspected, Convict(Conviction(l.records[n])))
                && Gone(Handle(suspected, Convict(Conviction(l.records[n])), ch'), n))
  {
    var n := Picks(l.nodes, l.cursor, 1)[0];
    var probed := Probe(l, size, room);
    ProbeKeeps(l, size, room);
    AppendKeeps(l.(cursor := NextCursor(l.nodes, l.cursor, 1)), size, room);
    SuspectKeeps(probed, l.records[n], ch);
    SuspicionConvicts(SuspectNode(probed, l.records[n], ch), n, ch');
  }

  /** Enough reports convict on the spot: the accused node is recorded dead, unlisted,
      cleared of suspicion and announced as gone. */
  lemma ReportsConvict(l: Node, s: Claim, ch: Choice)
    requires Inv(l) && s.state != Dead && s.name in l.suspicions && s.name != l.conf.name
    requires s.dominant >= l.records[s.name].dominant && Convicts(Confirmed(l.suspicions[s.name], s.from))
    ensures Gone(SuspectNode(l, s, ch), s.name)
  {
    SuspectKeeps(l, s, ch);
  }

  /** Once its suspicion is gone, a conviction stays harmless through every later step. */
  lemma SpentStaysSpent(l: Node, c: Claim, i: Input, ch: Choice)
    requires Inv(l) && Enabled(l, i) && Spent(l, c)
    ensures Spent(Handle(l, i, ch), c)
  {
    HandleKeeps(l, i, ch);
    assert AtLeast(Handle(l, i, ch).records[c.name], l.records[c.name]);
  }

  // ----- spreading the news -----

  lemma PushHolds(r: Ring, c: Claim, nodeNum: u32, at: nat) returns (k: nat)
    ensures var r' := PushRing(r, c, nodeNum, at);
            k < |r'.entries| && r'.entries[k].msg.name == c.name && AtLeast(r'.entries[k].msg, c)
  {
    var i := Index(r.entries, c.name);
    k := if i == |r.entries| then Min(at, |r.entries|) else i;
  }

  ghost predicate Informs(l: Node, n: Name) {
    exists k :: 0 <= k < |l.ring.entries| && n in l.records
             && l.ring.entries[k].msg.name == n && AtLeast(l.ring.entries[k].msg, l.records[n])
  }

  lemma DeadNews(l: Node, d: Claim, ch: Choice, n: Name)
    requires n in DeadNode(l, d, ch).records
    requires Knows(l, n) ==> DeadNode(l, d, ch).records[n] != l.records[n]
    ensures Informs(DeadNode(l, d, ch), n)
  {
    var k := PushHolds(l.ring, d, DeadNode(l, d, ch).nodeNum, ch.at);
    assert DeadNode(l, d, ch).ring.entries[k].msg.name == n;
  }

  lemma AccuseNews(l: Node, s: Claim, ch: Choice)
    requires s.name == l.conf.name ==> Max(l.dominant, s.dominant) < U64 - 1
    ensures Informs(Accuse(l, s, ch), s.name)
  {
    if s.name == l.conf.name {
      ObjectionOutranks(l.dominant, s.dominant);
      var k := PushHolds(l.ring, SelfClaim(l.conf, Max(l.dominant, s.dominant) + 1), l.nodeNum, ch.at);
      assert Accuse(l, s, ch).ring.entries[k].msg.name == s.name;
    } else {
      var k := PushHolds(l.ring, s, l.nodeNum, ch.at);
      assert Accuse(l, s, ch).ring.entries[k].msg.name == s.name;
    }
  }

  lemma SuspectNews(l: Node, s: Claim, ch: Choice, n: Name)
    requires n == l.conf.name && SuspectObjection(l, s).Some? ==>
               Max(l.dominant, SuspectObjection(l, s).value) < U64 - 1
    requires n in SuspectNode(l, s, ch).records
    requires Knows(l, n) ==> SuspectNode(l, s, ch).records[n] != l.records[n]
    ensures Informs(SuspectNode(l, s, ch), n)
  {
    if s.name in l.suspicions {
      var l1 := Confirm(l, s.name, s.from);
      DeadNews(l1, Conviction(l1.suspicions[s.name].accused), ch, n);
    } else {
      AccuseNews(l, s, ch);
    }
  }

  lemma AliveNews(l: Node, a: Claim, ch: Choice, n: Name)
    requires n in AliveNode(l, a, true, ch).records
    requires Knows(l, n) ==> AliveNode(l, a, true, ch).records[n] != l.records[n]
    ensures Informs(AliveNode(l, a, true, ch), n)
  {
    var k := PushHolds(l.ring, a, AliveNode(l, a, true, ch).nodeNum, ch.at);
    assert AliveNode(l, a, true, ch).ring.entries[k].msg.name == n;
  }

  /** Whatever step changes a node's record, of another or of itself, the node then has a
      message in its queue about it that is no older; except for what a joining node merges. */
  lemma NewsIsQueued(l: Node, i: Input, ch: Choice, n: Name)
    requires Enabled(l, i) && (i.Receive? ==> i.needBc)
    requires n == l.conf.name && Objection(l, i).Some? ==> Max(l.dominant, Objection(l, i).value) < U64 - 1
    requires n in Handle(l, i, ch).records
    requires Knows(l, n) ==> Handle(l, i, ch).records[n] != l.records[n]
    ensures Informs(Handle(l, i, ch), n)
  {
    match i {
      case Receive(c, _) =>
        match c.state {
          case Alive => AliveNews(l, c, ch, n);
          case Suspect => SuspectNews(l, c, ch, n);
          case Dead => DeadNews(l, c, ch, n);
        }
      case Alert(_) =>
      case Convict(c) => DeadNews(l, c, ch, n);
      case Timeout(c) => SuspectNews(l, c, ch, n);
      case ProbeTick(_, _) =>
    }
  }

  /** The incarnation an alive claim about `n` has to exceed. */
  function Floor(records: map<Name, Claim>, n: Name): u64 {
    if n in records then records[n].dominant else 0
  }

  // ----- notifications -----

  function Joins(log: seq<Event>, n: Name): nat {
    if log == [] then 0
    else Joins(log[..|log| - 1], n) + if log[|log| - 1] == Joined(n) then 1 else 0
  }

  function Leaves(log: seq<Event>, n: Name): nat {
    if log == [] then 0
    else Leaves(log[..|log| - 1], n) + if log[|log| - 1] == Left(n) then 1 else 0
  }

  lemma {:induction false} AlternationBalances(log: seq<Event>, n: Name)
    requires Alternates(log, n)
    ensures Joins(log, n) - Leaves(log, n) == if Present(log, n) then 1 else 0
  {
    if log != [] {
      AlternationBalances(log[..|log| - 1], n);
    }
  }

  /** The application has been told of one more join than leave of `n` exactly while
      `n` is listed, and of equally many otherwise. */
  lemma JoinsMinusLeaves(l: Node, n: Name)
    requires Inv(l) && n != l.conf.name
    ensures Joins(l.log, n) - Leaves(l.log, n) == if n in l.nodes then 1 else 0
  {
    AlternationBalances(l.log, n);
  }

  // ----- objections -----

  /** An objection outranks both the accusation and everything this node issued
      before exactly when neither is the last 64-bit incarnation; it is then the
      next incarnation after both. */
  lemma ObjectionOutranks(dominant: u64, accused: u64)
    ensures ObjectionDominant(dominant, accused) > Max(dominant, accused) <==> Max(dominant, accused) < U64 - 1
    ensures Max(dominant, accused) < U64 - 1 ==>
              ObjectionDominant(dominant, accused) == Max(dominant, accused) + 1
  {}

  /** Which incarnation, if any, a dead claim makes this node object to. */
  function DeadObjection(l: Node, d: Claim): Option<u64> {
    if d.name == l.conf.name && Knows(l, d.name) && !IsDead(l, d.name)
       && d.dominant >= l.records[d.name].dominant
    then Some(d.dominant) else None
  }

  function SuspectObjection(l: Node, s: Claim): Option<u64> {
    if !Knows(l, s.name) || s.dominant < l.records[s.name].dominant then None
    else if s.name in l.suspicions then
      var l1 := Confirm(l, s.name, s.from);
      var doubt := l1.suspicions[s.name];
      if Convicts(doubt) then DeadObjection(l1, Conviction(doubt.accused)) else None
    else if s.name == l.conf.name && l.records[s.name].state == Alive then Some(s.dominant)
    else None
  }

  function Objection(l: Node, i: Input): Option<u64> {
    match i
    case Receive(c, _) =>
      (match c.state
       case Alive => None
       case Suspect => SuspectObjection(l, c)
       case Dead => DeadObjection(l, c))
    case Alert(c) => if c.name == l.conf.name && c.state == Dead then Some(c.dominant) else None
    case Convict(c) => DeadObjection(l, c)
    case Timeout(c) => SuspectObjection(l, c)
    case ProbeTick(_, _) => None
  }

  /** The incarnation a step issues, if it issues one. */
  function Issued(l: Node, i: Input): set<u64> {
    match Objection(l, i)
    case None => {}
    case Some(k) => {ObjectionDominant(l.dominant, k)}
  }

  ghost predicate Announces(l: Node, accused: u64) {
    exists k :: 0 <= k < |l.ring.entries| && l.ring.entries[k].msg.name == l.conf.name
             && l.ring.entries[k].msg.dominant > accused
  }

  lemma ObjectAnnounces(l: Node, accused: u64, ch: Choice)
    requires Max(l.dominant, accused) < U64 - 1
    ensures Announces(Object(l, accused, ch), accused)
  {
    var o := SelfClaim(l.conf, ObjectionDominant(l.dominant, accused));
    ObjectionOutranks(l.dominant, accused);
    var j := PushHolds(l.ring, o, l.nodeNum, ch.at);
    assert Object(l, accused, ch).ring.entries[j].msg.dominant > accused;
  }

  lemma DeadAnnounces(l: Node, d: Claim, ch: Choice)
    requires DeadObjection(l, d).Some? && Max(l.dominant, d.dominant) < U64 - 1
    ensures Announces(DeadNode(l, d, ch), d.dominant)
  {
    ObjectAnnounces(Pass(l, d.name), d.dominant, ch);
  }

  lemma SuspectAnnounces(l: Node, s: Claim, ch: Choice)
    requires SuspectObjection(l, s).Some? && Max(l.dominant, SuspectObjection(l, s).value) < U64 - 1
    ensures Announces(SuspectNode(l, s, ch), SuspectObjection(l, s).value)
  {
    if s.name in l.suspicions {
      var l1 := Confirm(l, s.name, s.from);
      DeadAnnounces(l1, Conviction(l1.suspicions[s.name].accused), ch);
    } else {
      ObjectAnnounces(l, s.dominant, ch);
      var e := Object(l, s.dominant, ch).ring.entries;
      var k :| 0 <= k < |e| && e[k].msg.name == l.conf.name && e[k].msg.dominant > s.dominant;
      assert SuspectNode(l, s, ch).ring.entries[k] == e[k];
    }
  }

  /** Whatever step makes a node object, its queue then holds a claim about itself
      that outranks the accusation. */
  lemma ObjectionIsQueued(l: Node, i: Input, ch: Choice)
    requires Enabled(l, i) && Objection(l, i).Some?
    requires Max(l.dominant, Objection(l, i).value) < U64 - 1
    ensures Announces(Handle(l, i, ch), Objection(l, i).value)
  {
    match i {
      case Receive(c, _) =>
        if c.state == Suspect {
          SuspectAnnounces(l, c, ch);
        } else {
          DeadAnnounces(l, c, ch);
        }
      case Alert(c) => ObjectAnnounces(l, c.dominant, ch);
      case Convict(c) => DeadAnnounces(l, c, ch);
      case Timeout(c) => SuspectAnnounces(l, c, ch);
    }
  }

  /** The objection to `accused`: the next incarnation after it and after all of this
      node's own, remembered and queued; nothing else the node believes changes. */
  predicate Answers(l: Node, l': Node, accused: u64, nodeNum: u32, ch: Choice) {
    var d := Max(l.dominant, accused) + 1;
    && d < U64 && l'.dominant == d
    && l'.ring == PushRing(l.ring, SelfClaim(l.conf, d), nodeNum, ch.at)
    && l'.records == l.records && l'.nodes == l.nodes && l'.log == l.log && l'.armed == l.armed
  }

  /** A node objects to the news of its own death unless the news is older than its own
      record; to a dead alert it always objects. */
  lemma WhenDeathIsAnswered(l: Node, d: Claim, ch: Choice)
    requires Inv(l) && Started(l) && d.name == l.conf.name && d.state == Dead
    requires Max(l.dominant, d.dominant) < U64 - 1
    ensures if d.dominant < l.records[d.name].dominant then DeadNode(l, d, ch) == l
            else Answers(l, DeadNode(l, d, ch), d.dominant, Sub1(l.nodeNum), ch)
    ensures Answers(l, PongAlert(l, d, ch), d.dominant, l.nodeNum, ch)
  {
    ObjectionOutranks(l.dominant, d.dominant);
    assert !IsDead(l, d.name);
  }

  /** Refutation wins: a peer whose record is at or below the accusation takes the
      objector back, whatever it believed, and stops suspecting it. */
  lemma RefutationWins(peer: Node, o: Claim, accused: u64, needBc: bool, ch: Choice)
    requires Inv(peer) && o.state == Alive && o.dominant > accused
    requires Knows(peer, o.name) ==> peer.records[o.name].dominant <= accused
    ensures var p := AliveNode(peer, o, needBc, ch);
            && o.name in p.records && p.records[o.name] == o
            && o.name in p.nodes && o.name !in p.suspicions
  {
    AliveKeeps(peer, o, needBc, ch);
  }
}
