/** dominant_, the incarnation a node last announced for itself: what keeps it ahead,
    when it falls back, and when an objection is new. */
module Incarnations {
  import opened Claims
  import opened Broadcast
  import opened Suspicions
  import opened Handlers
  import opened Invariants
  import opened NodeLaws

  /** dominant_ is never behind the node's record of itself. */
  predicate OwnIncarnation(l: Node) {
    Knows(l, l.conf.name) ==> l.records[l.conf.name].dominant <= l.dominant
  }

  lemma DeadKeepsOwnIncarnation(l: Node, d: Claim, ch: Choice)
    requires OwnIncarnation(l)
    requires DeadObjection(l, d).Some? ==> Max(l.dominant, d.dominant) < U64 - 1
    ensures OwnIncarnation(DeadNode(l, d, ch))
  {
    if DeadObjection(l, d).Some? {
      ObjectKeepsOwnIncarnation(Pass(l, d.name), d.dominant, ch);
    }
  }

  lemma AccuseKeepsOwnIncarnation(l: Node, s: Claim, ch: Choice)
    requires OwnIncarnation(l)
    requires s.name == l.conf.name ==> Max(l.dominant, s.dominant) < U64 - 1
    ensures OwnIncarnation(Accuse(l, s, ch))
  {
    if s.name == l.conf.name {
      ObjectionOutranks(l.dominant, s.dominant);
    }
  }

  lemma SuspectKeepsOwnIncarnation(l: Node, s: Claim, ch: Choice)
    requires OwnIncarnation(l)
    requires SuspectObjection(l, s).Some? ==> Max(l.dominant, SuspectObjection(l, s).value) < U64 - 1
    ensures OwnIncarnation(SuspectNode(l, s, ch))
  {
    if !Knows(l, s.name) || s.dominant < l.records[s.name].dominant {
    } else if s.name in l.suspicions {
      var l1 := Confirm(l, s.name, s.from);
      if Convicts(l1.suspicions[s.name]) {
        DeadKeepsOwnIncarnation(l1, Conviction(l1.suspicions[s.name].accused), ch);
      }
    } else if l.records[s.name].state == Alive {
      AccuseKeepsOwnIncarnation(l, s, ch);
    }
  }

  lemma AliveKeepsOwnIncarnation(l: Node, a: Claim, needBc: bool, ch: Choice)
    requires OwnIncarnation(l)
    ensures OwnIncarnation(AliveNode(l, a, needBc, ch))
  {}

  lemma ObjectKeepsOwnIncarnation(l: Node, accused: u64, ch: Choice)
    requires OwnIncarnation(l) && Max(l.dominant, accused) < U64 - 1
    ensures OwnIncarnation(Object(l, accused, ch))
  {
    ObjectionOutranks(l.dominant, accused);
  }

  lemma HandleKeepsOwnIncarnation(l: Node, i: Input, ch: Choice)
    requires Enabled(l, i) && OwnIncarnation(l)
    requires Objection(l, i).Some? ==> Max(l.dominant, Objection(l, i).value) < U64 - 1
    ensures OwnIncarnation(Handle(l, i, ch))
  {
    match i {
      case Receive(c, needBc) =>
        match c.state {
          case Alive => AliveKeepsOwnIncarnation(l, c, needBc, ch);
          case Suspect => SuspectKeepsOwnIncarnation(l, c, ch);
          case Dead => DeadKeepsOwnIncarnation(l, c, ch);
        }
      case Alert(c) =>
        if Objection(l, i).Some? {
          ObjectKeepsOwnIncarnation(l, c.dominant, ch);
        }
      case Convict(c) => DeadKeepsOwnIncarnation(l, c, ch);
      case Timeout(c) => SuspectKeepsOwnIncarnation(l, c, ch);
      case ProbeTick(size, room) =>
    }
  }

  // ----- when dominant_ falls -----

  lemma DeadDominant(l: Node, d: Claim, ch: Choice)
    ensures DeadNode(l, d, ch).dominant ==
            match DeadObjection(l, d) case None => l.dominant case Some(k) => ObjectionDominant(l.dominant, k)
  {}

  lemma SuspectDominant(l: Node, s: Claim, ch: Choice)
    ensures SuspectNode(l, s, ch).dominant ==
            match SuspectObjection(l, s) case None => l.dominant case Some(k) => ObjectionDominant(l.dominant, k)
  {
    if Knows(l, s.name) && s.dominant >= l.records[s.name].dominant && s.name in l.suspicions {
      var l1 := Confirm(l, s.name, s.from);
      DeadDominant(l1, Conviction(l1.suspicions[s.name].accused), ch);
    }
  }

  /** An alive claim about this node that exceeds its own record, which is then taken over. */
  predicate HearsItself(l: Node, i: Input) {
    && i.Receive? && i.c.state == Alive && i.c.name == l.conf.name
    && Floor(l.records, l.conf.name) < i.c.dominant
  }

  lemma HandleDominant(l: Node, i: Input, ch: Choice)
    requires Enabled(l, i)
    ensures Handle(l, i, ch).conf == l.conf
    ensures Handle(l, i, ch).dominant ==
            match Objection(l, i)
            case Some(k) => ObjectionDominant(l.dominant, k)
            case None => if HearsItself(l, i) then i.c.dominant else l.dominant
  {
    match i {
      case Receive(c, _) =>
        if c.state == Suspect {
          SuspectDominant(l, c, ch);
        } else if c.state == Dead {
          DeadDominant(l, c, ch);
        }
      case Alert(c) =>
      case Convict(c) => DeadDominant(l, c, ch);
      case Timeout(c) => SuspectDominant(l, c, ch);
      case ProbeTick(_, _) =>
    }
  }

  /** A claim about this node that it issued before its last objection, or in an earlier
      life, and has not recorded: it comes back as news and lowers dominant_. */
  predicate Sinks(l: Node, i: Input) {
    HearsItself(l, i) && i.c.dominant < l.dominant
  }

  /** An objection whose 64-bit increments wrap around to less. */
  predicate Wraps(dominant: u64, accused: u64) {
    || (dominant == U64 - 1 && accused != U64 - 2)
    || (accused == U64 - 1 && dominant > 0)
  }

  lemma WhenObjectionWraps(dominant: u64, accused: u64)
    ensures ObjectionDominant(dominant, accused) < dominant <==> Wraps(dominant, accused)
  {}

  /** Exactly when a step lowers dominant_. */
  lemma WhenOwnIncarnationFalls(l: Node, i: Input, ch: Choice)
    requires Enabled(l, i)
    ensures Handle(l, i, ch).dominant < l.dominant
            <==> Sinks(l, i) || (Objection(l, i).Some? && Wraps(l.dominant, Objection(l, i).value))
  {
    HandleDominant(l, i, ch);
    if Objection(l, i).Some? {
      WhenObjectionWraps(l.dominant, Objection(l, i).value);
    }
  }

  // ----- lives of a node -----

  datatype Step = Step(i: Input, ch: Choice)

  predicate CanLive(l: Node, steps: seq<Step>)
    decreases |steps|
  {
    steps == []
    || (Enabled(l, steps[0].i) && CanLive(Handle(l, steps[0].i, steps[0].ch), steps[1..]))
  }

  /** The incarnations the objections of a life are issued under, in order. */
  function Objections(l: Node, steps: seq<Step>): seq<u64>
    requires CanLive(l, steps)
    decreases |steps|
  {
    if steps == [] then []
    else
      var rest := Objections(Handle(l, steps[0].i, steps[0].ch), steps[1..]);
      match Objection(l, steps[0].i)
      case None => rest
      case Some(k) => [ObjectionDominant(l.dominant, k)] + rest
  }

  /** No step of the life lowers dominant_. */
  predicate NeverSinks(l: Node, steps: seq<Step>)
    requires CanLive(l, steps)
    decreases |steps|
  {
    steps == []
    || (&& !Sinks(l, steps[0].i)
        && (Objection(l, steps[0].i).Some? ==> Max(l.dominant, Objection(l, steps[0].i).value) < U64 - 1)
        && NeverSinks(Handle(l, steps[0].i, steps[0].ch), steps[1..]))
  }

  ghost predicate Ascending(s: seq<u64>) {
    forall i, j :: 0 <= i < j < |s| ==> s[i] < s[j]
  }

  /** While no claim sinks it, a node never issues an incarnation twice: each objection
      exceeds where the node stood and everything it issued before. */
  lemma {:induction false} ObjectionsAreNew(l: Node, steps: seq<Step>)
    requires CanLive(l, steps) && NeverSinks(l, steps)
    ensures Ascending([l.dominant] + Objections(l, steps))
    decreases |steps|
  {
    if steps != [] {
      var i, l' := steps[0].i, Handle(l, steps[0].i, steps[0].ch);
      HandleDominant(l, i, steps[0].ch);
      ObjectionsAreNew(l', steps[1..]);
      var rest := [l'.dominant] + Objections(l', steps[1..]);
      forall k | 0 <= k < |rest| ensures rest[k] >= l'.dominant {
        assert rest[0] == l'.dominant;
      }
      if Objection(l, i).Some? {
        ObjectionOutranks(l.dominant, Objection(l, i).value);
        assert [l.dominant] + Objections(l, steps) == [l.dominant] + rest;
      } else {
        assert [l.dominant] + Objections(l, steps) == [l.dominant] + rest[1..];
      }
    }
  }

  lemma ObjectsTo(l: Node, d: Claim, ch: Choice)
    requires Knows(l, l.conf.name) && !IsDead(l, l.conf.name) && d.name == l.conf.name && d.state == Dead
    requires l.records[d.name].dominant <= d.dominant
    requires Max(l.dominant, d.dominant) < U64 - 1
    ensures Objection(l, Receive(d, true)) == Some(d.dominant)
    ensures ObjectionDominant(l.dominant, d.dominant) == Max(l.dominant, d.dominant) + 1
    ensures var l' := Handle(l, Receive(d, true), ch);
            && l'.dominant == Max(l.dominant, d.dominant) + 1
            && l'.records == l.records && l'.conf == l.conf
  {}

  function Hears(c: Claim, ch: Choice): Step {
    Step(Receive(c, true), ch)
  }

  lemma FirstStep(l: Node, s: Step, rest: seq<Step>)
    requires Enabled(l, s.i) && CanLive(Handle(l, s.i, s.ch), rest)
    ensures CanLive(l, [s] + rest)
    ensures Objections(l, [s] + rest) ==
            (match Objection(l, s.i) case None => [] case Some(k) => [ObjectionDominant(l.dominant, k)])
            + Objections(Handle(l, s.i, s.ch), rest)
  {
    assert ([s] + rest)[1..] == rest;
  }

  /** A node at incarnation 3 on whom its own second one comes back: it falls to that
      and, told it is dead at 2, issues 3. */
  lemma SecondThree(l: Node, conf: Config, ch: Choice)
    requires l.conf == conf && Knows(l, conf.name) && l.records[conf.name] == SelfClaim(conf, 1)
    requires l.dominant == 3
    ensures var own := SelfClaim(conf, 2);
            var steps := [Hears(own, ch)] + ([Hears(Conviction(own), ch)] + []);
            CanLive(l, steps) && Objections(l, steps) == [3]
  {
    var own := SelfClaim(conf, 2);
    var l' := Handle(l, Receive(own, true), ch);
    assert l'.dominant == 2 && l'.conf == conf && Knows(l', conf.name) && l'.records[conf.name] == own;
    ObjectsTo(l', Conviction(own), ch);
    FirstStep(l', Hears(Conviction(own), ch), []);
    FirstStep(l, Hears(own, ch), [Hears(Conviction(own), ch)] + []);
  }

  lemma TwoThrees(l: Node, conf: Config, ch: Choice)
    requires l.conf == conf && Knows(l, conf.name) && l.records[conf.name] == SelfClaim(conf, 1)
    requires l.dominant == 1
    ensures var dead, own := Conviction(SelfClaim(conf, 1)), SelfClaim(conf, 2);
            var last := [Hears(own, ch)] + ([Hears(Conviction(own), ch)] + []);
            var steps := [Hears(dead, ch)] + ([Hears(dead, ch)] + last);
            CanLive(l, steps) && Objections(l, steps) == [2, 3, 3]
  {
    var dead, own := Conviction(SelfClaim(conf, 1)), SelfClaim(conf, 2);
    var last := [Hears(own, ch)] + ([Hears(Conviction(own), ch)] + []);
    ObjectsTo(l, dead, ch);
    var l1 := Handle(l, Receive(dead, true), ch);
    ObjectsTo(l1, dead, ch);
    SecondThree(Handle(l1, Receive(dead, true), ch), conf, ch);
    FirstStep(l1, Hears(dead, ch), last);
    FirstStep(l, Hears(dead, ch), [Hears(dead, ch)] + last);
  }

  /** An incarnation issued twice. Having objected twice, a node whose first objection
      comes back falls behind its second, and objects under that one again. */
  lemma IssuedTwice(conf: Config, cursor: nat, ch: Choice)
    ensures var l := Start(Boot(conf, cursor), ch);
            var dead, own := Conviction(SelfClaim(conf, 1)), SelfClaim(conf, 2);
            var steps := [Hears(dead, ch), Hears(dead, ch), Hears(own, ch), Hears(Conviction(own), ch)];
            CanLive(l, steps) && Objections(l, steps) == [2, 3, 3]
  {
    var dead, own := Conviction(SelfClaim(conf, 1)), SelfClaim(conf, 2);
    TwoThrees(Start(Boot(conf, cursor), ch), conf, ch);
    assert [Hears(dead, ch)] + ([Hears(dead, ch)] + ([Hears(own, ch)] + ([Hears(Conviction(own), ch)] + [])))
        == [Hears(dead, ch), Hears(dead, ch), Hears(own, ch), Hears(Conviction(own), ch)];
  }
}
