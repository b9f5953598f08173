/** What every handler keeps, and what it never undoes. */
module Invariants {
  import opened Claims
  import opened Broadcast
  import opened Suspicions
  import opened Handlers

  /** The alive index lists, once each, exactly the nodes whose record is not dead. */
  ghost predicate IndexCoherent(l: Node) {
    && Distinct(l.nodes)
    && (forall n :: n in l.nodes <==> n in l.records && l.records[n].state != Dead)
    && (forall n :: n in l.records ==> l.records[n].name == n)
  }

  /** A suspicion accuses a listed node of being dead at its current incarnation, counts its
      distinct reporters, and has a timer to convict it. */
  ghost predicate SuspicionsCoherent(l: Node) {
    forall n :: n in l.suspicions ==>
      && n in l.records && l.records[n].state != Dead
      && l.suspicions[n].accused.name == n
      && l.suspicions[n].confirm == |l.suspicions[n].who|
      && l.suspicions[n].accused.dominant == l.records[n].dominant
      && Conviction(l.suspicions[n].accused) in l.armed
  }

  /** A conviction that can no longer change a record. */
  ghost predicate Spent(l: Node, c: Claim) {
    && c.name in l.records
    && (|| c.dominant < l.records[c.name].dominant
        || (c.dominant == l.records[c.name].dominant && l.records[c.name].state == Dead))
  }

  ghost predicate Pending(l: Node, c: Claim) {
    c.name in l.suspicions && Conviction(l.suspicions[c.name].accused) == c
  }

  /** Every conviction ever handed to a timer is that of the suspicion now in force,
      or spent: a timer that fires late, or again, finds nothing to convict. */
  ghost predicate ConvictionsCoherent(l: Node) {
    forall c :: c in l.armed ==>
      && c.state == Dead
      && (c.name != l.conf.name ==> Pending(l, c) || Spent(l, c))
  }

  ghost predicate ProbesCoherent(l: Node) {
    forall c :: c in l.probing ==> c.state == Alive && c.name in l.records && c.name != l.conf.name
  }

  /** node_num_, modulo its width: every dead claim that passes the check costs one
      more than the removal does. */
  ghost predicate CounterLaw(l: Node) {
    l.nodeNum == (|l.nodes| - l.passes) % U32
  }

  /** Did the last notification about `n` say it joined? */
  predicate Present(log: seq<Event>, n: Name) {
    if log == [] then false
    else if log[|log| - 1].name == n then log[|log| - 1].Joined?
    else Present(log[..|log| - 1], n)
  }

  /** Joins and leaves of `n` alternate, a join first. */
  predicate Alternates(log: seq<Event>, n: Name) {
    log == []
    || (&& Alternates(log[..|log| - 1], n)
        && (log[|log| - 1].name == n ==> log[|log| - 1].Joined? != Present(log[..|log| - 1], n)))
  }

  ghost predicate LogCoherent(l: Node) {
    && (forall n :: n != l.conf.name ==> Alternates(l.log, n) && Present(l.log, n) == (n in l.nodes))
    && (forall i :: 0 <= i < |l.log| ==> l.log[i].name != l.conf.name)
  }

  ghost predicate QueueCoherent(l: Node) {
    WellFormed(l.ring) && l.maxAppended >= 1
  }

  ghost predicate Inv(l: Node) {
    && IndexCoherent(l) && SuspicionsCoherent(l) && ConvictionsCoherent(l) && ProbesCoherent(l)
    && CounterLaw(l) && LogCoherent(l) && QueueCoherent(l)
  }

  /** No record is forgotten or lowered in the order (incarnation, Alive < Suspect < Dead). */
  ghost predicate NoRecordLowered(l: Node, l': Node) {
    forall n :: n in l.records ==> n in l'.records && AtLeast(l'.records[n], l.records[n])
  }

  // ----- pieces -----

  lemma ModStep(a: int, k: int)
    ensures (a % U32 + k) % U32 == (a + k) % U32
  {}

  ghost predicate LogAppended(log: seq<Event>, e: Event, n: Name) {
    && Present(log + [e], n) == (if e.name == n then e.Joined? else Present(log, n))
    && Alternates(log + [e], n) ==
       (Alternates(log, n) && (e.name == n ==> e.Joined? != Present(log, n)))
  }

  lemma LogAppend(log: seq<Event>, e: Event, n: Name)
    ensures LogAppended(log, e, n)
  {
    assert (log + [e])[..|log|] == log;
  }

  lemma {:induction false} PositionIsFirst(nodes: seq<Name>, name: Name, j: nat)
    requires j < Position(nodes, name)
    ensures nodes[j] != name
  {
    if j > 0 {
      PositionIsFirst(nodes[1..], name, j - 1);
    }
  }

  lemma PositionFinds(nodes: seq<Name>, name: Name)
    ensures name in nodes <==> Position(nodes, name) < |nodes|
  {
    if name in nodes && Position(nodes, name) == |nodes| {
      var j :| 0 <= j < |nodes| && nodes[j] == name;
      PositionIsFirst(nodes, name, j);
    }
  }

  lemma {:induction false} PositionReaches(nodes: seq<Name>, name: Name, i: nat)
    requires i <= Position(nodes, name) && i < |nodes|
    ensures nodes[i] == name <==> Position(nodes, name) == i
  {
    if i > 0 {
      PositionReaches(nodes[1..], name, i - 1);
    }
  }

  /** The swap-removal takes out that name and no other. */
  lemma SwapRemoveIsRemoval(nodes: seq<Name>, name: Name)
    requires Distinct(nodes)
    ensures var s := SwapRemove(nodes, name);
            && Distinct(s)
            && (forall n :: n in s <==> n in nodes && n != name)
            && |s| == |nodes| - (if name in nodes then 1 else 0)
  {
    PositionFinds(nodes, name);
    var i, s := Position(nodes, name), SwapRemove(nodes, name);
    if i < |nodes| {
      var last := |nodes| - 1;
      forall n | n in nodes && n != name ensures n in s {
        var j :| 0 <= j < |nodes| && nodes[j] == n;
        assert n == s[if j == last then i else j];
      }
      forall n | n in s ensures n in nodes && n != name {
        var j :| 0 <= j < |s| && s[j] == n;
        assert n == nodes[if j == i then last else j];
      }
    }
  }

  // ----- objections -----

  lemma ObjectKeepsQueue(l: Node, accused: u64, ch: Choice)
    requires QueueCoherent(l)
    ensures QueueCoherent(Object(l, accused, ch))
  {
    var d := ObjectionDominant(l.dominant, accused);
    PushKeepsWellFormed(l.ring, SelfClaim(l.conf, d), l.nodeNum, ch.at);
  }

  lemma ObjectKeeps(l: Node, accused: u64, ch: Choice)
    requires Inv(l)
    ensures Inv(Object(l, accused, ch))
  {
    ObjectKeepsQueue(l, accused, ch);
  }

  // ----- accepted alive claims -----

  ghost predicate Fresh(l: Node, a: Claim) {
    a.state == Alive && (Knows(l, a.name) ==> a.dominant > l.records[a.name].dominant)
  }

  lemma AdmitKeepsIndex(l: Node, a: Claim, needBc: bool, ch: Choice)
    requires IndexCoherent(l) && Fresh(l, a)
    ensures IndexCoherent(Admit(l, a, needBc, ch)) && NoRecordLowered(l, Admit(l, a, needBc, ch))
  {}

  lemma AdmitKeepsSuspicions(l: Node, a: Claim, needBc: bool, ch: Choice)
    requires IndexCoherent(l) && SuspicionsCoherent(l) && Fresh(l, a)
    ensures SuspicionsCoherent(Admit(l, a, needBc, ch))
  {}

  lemma AdmitKeepsConvictions(l: Node, a: Claim, needBc: bool, ch: Choice)
    requires SuspicionsCoherent(l) && ConvictionsCoherent(l) && ProbesCoherent(l) && Fresh(l, a)
    ensures ConvictionsCoherent(Admit(l, a, needBc, ch)) && ProbesCoherent(Admit(l, a, needBc, ch))
  {}

  lemma AdmitKeepsCounter(l: Node, a: Claim, needBc: bool, ch: Choice)
    requires IndexCoherent(l) && CounterLaw(l) && Fresh(l, a)
    ensures CounterLaw(Admit(l, a, needBc, ch))
  {
    ModStep(|l.nodes| - l.passes, 1);
  }

  lemma AdmitKeepsLog(l: Node, a: Claim, needBc: bool, ch: Choice)
    requires IndexCoherent(l) && LogCoherent(l) && Fresh(l, a)
    ensures LogCoherent(Admit(l, a, needBc, ch))
  {
    var l' := Admit(l, a, needBc, ch);
    forall n ensures LogAppended(l.log, Joined(a.name), n) {
      LogAppend(l.log, Joined(a.name), n);
    }
    if ComesUp(l, a.name) {
      assert l'.nodes == l.nodes + [a.name];
      assert a.name != l.conf.name ==> l'.log == l.log + [Joined(a.name)];
    } else {
      assert l'.nodes == l.nodes && l'.log == l.log;
    }
  }

  lemma AdmitKeepsQueue(l: Node, a: Claim, needBc: bool, ch: Choice)
    requires QueueCoherent(l)
    ensures QueueCoherent(Admit(l, a, needBc, ch))
  {
    PushKeepsWellFormed(l.ring, a, l.nodeNum, ch.at);
    PushKeepsWellFormed(l.ring, a, Add1(l.nodeNum), ch.at);
  }

  lemma AliveKeeps(l: Node, a: Claim, needBc: bool, ch: Choice)
    requires Inv(l) && a.state == Alive
    ensures Inv(AliveNode(l, a, needBc, ch)) && NoRecordLowered(l, AliveNode(l, a, needBc, ch))
  {
    if AliveNode(l, a, needBc, ch) != l {
      AdmitKeepsIndex(l, a, needBc, ch);
      AdmitKeepsSuspicions(l, a, needBc, ch);
      AdmitKeepsConvictions(l, a, needBc, ch);
      AdmitKeepsCounter(l, a, needBc, ch);
      AdmitKeepsLog(l, a, needBc, ch);
      AdmitKeepsQueue(l, a, needBc, ch);
    }
  }

  // ----- accepted dead claims -----

  ghost predicate Fatal(l: Node, d: Claim) {
    && d.state == Dead && d.name != l.conf.name
    && Knows(l, d.name) && !IsDead(l, d.name) && d.dominant >= l.records[d.name].dominant
  }

  lemma BuryKeepsIndex(l: Node, d: Claim, ch: Choice)
    requires IndexCoherent(l) && Fatal(l, d)
    ensures IndexCoherent(Bury(l, d, ch)) && NoRecordLowered(l, Bury(l, d, ch))
  {
    SwapRemoveIsRemoval(l.nodes, d.name);
  }

  lemma BuryKeepsSuspicions(l: Node, d: Claim, ch: Choice)
    requires IndexCoherent(l) && SuspicionsCoherent(l) && Fatal(l, d)
    ensures SuspicionsCoherent(Bury(l, d, ch))
  {}

  lemma BuryKeepsConvictions(l: Node, d: Claim, ch: Choice)
    requires SuspicionsCoherent(l) && ConvictionsCoherent(l) && ProbesCoherent(l) && Fatal(l, d)
    ensures ConvictionsCoherent(Bury(l, d, ch)) && ProbesCoherent(Bury(l, d, ch))
  {}

  lemma BuryKeepsCounter(l: Node, d: Claim, ch: Choice)
    requires IndexCoherent(l) && CounterLaw(l) && Fatal(l, d)
    ensures CounterLaw(Bury(l, d, ch))
  {
    var l' := Bury(l, d, ch);
    SwapRemoveIsRemoval(l.nodes, d.name);
    assert |l'.nodes| - l'.passes == |l.nodes| - l.passes - 2;
    assert l'.nodeNum == Sub1(Sub1(l.nodeNum));
    ModStep(|l.nodes| - l.passes, -1);
    ModStep(|l.nodes| - l.passes - 1, -1);
  }

  lemma BuryKeepsLog(l: Node, d: Claim, ch: Choice)
    requires IndexCoherent(l) && LogCoherent(l) && Fatal(l, d)
    ensures LogCoherent(Bury(l, d, ch))
  {
    SwapRemoveIsRemoval(l.nodes, d.name);
    forall n ensures LogAppended(l.log, Left(d.name), n) {
      LogAppend(l.log, Left(d.name), n);
    }
  }

  lemma BuryKeepsQueue(l: Node, d: Claim, ch: Choice)
    requires QueueCoherent(l)
    ensures QueueCoherent(Bury(l, d, ch))
  {
    PushKeepsWellFormed(l.ring, d, Bury(l, d, ch).nodeNum, ch.at);
  }

  /** A dead claim that buries nobody: the record is dead already, or is our own. */
  lemma PassKeeps(l: Node, name: Name)
    requires Inv(l) && (IsDead(l, name) || name == l.conf.name)
    ensures Inv(Pass(l, name))
  {
    ModStep(|l.nodes| - l.passes, -1);
  }

  lemma DeadKeeps(l: Node, d: Claim, ch: Choice)
    requires Inv(l) && d.state == Dead
    ensures Inv(DeadNode(l, d, ch)) && NoRecordLowered(l, DeadNode(l, d, ch))
  {
    if !Knows(l, d.name) || d.dominant < l.records[d.name].dominant {
    } else if IsDead(l, d.name) {
      PassKeeps(l, d.name);
    } else if d.name == l.conf.name {
      PassKeeps(l, d.name);
      ObjectKeeps(Pass(l, d.name), d.dominant, ch);
    } else {
      BuryKeepsIndex(l, d, ch);
      BuryKeepsSuspicions(l, d, ch);
      BuryKeepsConvictions(l, d, ch);
      BuryKeepsCounter(l, d, ch);
      BuryKeepsLog(l, d, ch);
      BuryKeepsQueue(l, d, ch);
    }
  }

  // ----- suspicions -----

  ghost predicate Accusable(l: Node, s: Claim) {
    && s.state != Dead && s.name !in l.suspicions
    && Knows(l, s.name) && l.records[s.name].state == Alive && s.dominant >= l.records[s.name].dominant
  }

  lemma AccuseKeepsRecords(l: Node, s: Claim, ch: Choice)
    requires IndexCoherent(l) && SuspicionsCoherent(l) && Accusable(l, s)
    ensures var l' := Accuse(l, s, ch);
            IndexCoherent(l') && NoRecordLowered(l, l') && SuspicionsCoherent(l')
  {}

  lemma AccuseKeepsConvictions(l: Node, s: Claim, ch: Choice)
    requires ConvictionsCoherent(l) && ProbesCoherent(l) && Accusable(l, s)
    ensures ConvictionsCoherent(Accuse(l, s, ch)) && ProbesCoherent(Accuse(l, s, ch))
  {}

  lemma AccuseKeepsRest(l: Node, s: Claim, ch: Choice)
    requires CounterLaw(l) && LogCoherent(l) && QueueCoherent(l)
    ensures var l' := Accuse(l, s, ch); CounterLaw(l') && LogCoherent(l') && QueueCoherent(l')
  {
    PushKeepsWellFormed(l.ring, s, l.nodeNum, ch.at);
    ObjectKeepsQueue(l, s.dominant, ch);
  }

  lemma ConfirmKeeps(l: Node, name: Name, from: Option<Name>)
    requires Inv(l) && name in l.suspicions
    ensures Inv(Confirm(l, name, from))
  {}

  lemma PushKeeps(l: Node, c: Claim, at: nat)
    requires Inv(l)
    ensures Inv(Push(l, c, at))
  {
    PushKeepsWellFormed(l.ring, c, l.nodeNum, at);
  }

  lemma SuspectKeeps(l: Node, s: Claim, ch: Choice)
    requires Inv(l) && s.state != Dead
    ensures Inv(SuspectNode(l, s, ch)) && NoRecordLowered(l, SuspectNode(l, s, ch))
  {
    if !Knows(l, s.name) || s.dominant < l.records[s.name].dominant {
    } else if s.name in l.suspicions {
      var l1 := Confirm(l, s.name, s.from);
      ConfirmKeeps(l, s.name, s.from);
      PushKeeps(l1, s, ch.at);
      DeadKeeps(l1, Conviction(l1.suspicions[s.name].accused), ch);
    } else if l.records[s.name].state == Alive {
      AccuseKeepsRecords(l, s, ch);
      AccuseKeepsConvictions(l, s, ch);
      AccuseKeepsRest(l, s, ch);
    }
  }

  // ----- probe -----

  lemma AppendKeeps(l: Node, size: seq<Claim> -> nat, room: int)
    requires QueueCoherent(l)
    ensures var l' := Append(l, size, room);
            QueueCoherent(l') && l' == l.(ring := l'.ring, maxAppended := l'.maxAppended)
  {
    AfterKeepsWellFormed(l.ring, |Due(l)|);
  }

  lemma ProbeRecordKeeps(l: Node, target: Claim)
    requires Inv(l) && target.name in l.records && target.state == Alive && target.name != l.conf.name
    ensures Inv(l.(probing := l.probing + {target}))
  {}

  lemma RingMaxCursorKeep(l: Node, ring: Ring, maxAppended: nat, cursor: nat)
    requires Inv(l) && WellFormed(ring) && maxAppended >= 1
    ensures var l' := l.(ring := ring, maxAppended := maxAppended, cursor := cursor);
            Inv(l') && NoRecordLowered(l, l')
  {}

  lemma ProbeKeeps(l: Node, size: seq<Claim> -> nat, room: int)
    requires Inv(l) && CanProbe(l)
    ensures Inv(Probe(l, size, room)) && NoRecordLowered(l, Probe(l, size, room))
  {
    var name, cursor := Picks(l.nodes, l.cursor, 1)[0], NextCursor(l.nodes, l.cursor, 1);
    var l1 := l.(cursor := cursor);
    var l2 := Append(l1, size, room);
    assert l.records[name].name == name;
    AppendKeeps(l1, size, room);
    RingMaxCursorKeep(l, l.ring, l.maxAppended, cursor);
    RingMaxCursorKeep(l, l2.ring, l2.maxAppended, cursor);
    if Probes(l) {
      ProbeRecordKeeps(l2, l.records[name]);
    }
  }

  // ----- every step -----

  lemma HandleKeeps(l: Node, i: Input, ch: Choice)
    requires Inv(l) && Enabled(l, i)
    ensures Inv(Handle(l, i, ch)) && NoRecordLowered(l, Handle(l, i, ch))
  {
    match i {
      case Receive(c, needBc) =>
        match c.state {
          case Alive => AliveKeeps(l, c, needBc, ch);
          case Suspect => SuspectKeeps(l, c, ch);
          case Dead => DeadKeeps(l, c, ch);
        }
      case Alert(c) => ObjectKeeps(l, c.dominant, ch);
      case Convict(c) => DeadKeeps(l, c, ch);
      case Timeout(c) => SuspectKeeps(l, c, ch);
      case ProbeTick(size, room) => ProbeKeeps(l, size, room);
    }
  }

  lemma {:induction false} MergeStatesKeeps(l: Node, cs: seq<Claim>, needBc: bool, chs: seq<Choice>)
    requires Inv(l) && |chs| == |cs|
    ensures Inv(MergeStates(l, cs, needBc, chs)) && NoRecordLowered(l, MergeStates(l, cs, needBc, chs))
  {
    if cs != [] {
      var last := |cs| - 1;
      var before := MergeStates(l, cs[..last], needBc, chs[..last]);
      MergeStatesKeeps(l, cs[..last], needBc, chs[..last]);
      HandleKeeps(before, Receive(cs[last], needBc), chs[last]);
      NoRecordLoweredTransitive(l, before, Merge(before, cs[last], needBc, chs[last]));
    }
  }

  lemma NoRecordLoweredTransitive(a: Node, b: Node, c: Node)
    requires NoRecordLowered(a, b) && NoRecordLowered(b, c)
    ensures NoRecordLowered(a, c)
  {}
}
