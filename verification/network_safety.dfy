/** What holds in every state a network of these nodes can reach. */
module NetworkSafety {
  import opened Claims
  import opened Broadcast
  import opened Suspicions
  import opened Handlers
  import opened Invariants
  import opened NodeLaws
  import opened Incarnations
  import opened Network

  ghost predicate Leads(net: Net, a: Act, net': Net) {
    Possible(net, a) && net' == Next(net, a)
  }

  /** The first k steps of a run from the empty network. */
  ghost predicate RunsTo(nets: seq<Net>, acts: seq<Act>, k: nat)
    requires k < |nets| && k <= |acts|
  {
    if k == 0 then nets[0] == EmptyNet
    else RunsTo(nets, acts, k - 1) && Leads(nets[k - 1], acts[k - 1], nets[k])
  }

  ghost predicate IsRun(nets: seq<Net>, acts: seq<Act>) {
    |nets| == |acts| + 1 && RunsTo(nets, acts, |acts|)
  }

  lemma {:induction false} RunPrefix(nets: seq<Net>, acts: seq<Act>, k: nat, i: nat)
    requires i <= k < |nets| && k <= |acts| && RunsTo(nets, acts, k)
    ensures RunsTo(nets, acts, i)
    decreases k
  {
    if i < k {
      RunPrefix(nets, acts, k - 1, i);
    }
  }

  // ----- provenance -----

  /** A claim whose incarnation its subject really announced. */
  function GenuineIn(issued: map<Name, set<u64>>): Claim -> bool {
    (c: Claim) => c.dominant in IssuedBy(issued, c.name)
  }

  const LastIncarnation: u64 := U64 - 1

  ghost predicate NodeSafe(l: Node, issued: map<Name, set<u64>>) {
    && Inv(l) && Started(l)
    && AllClaims(l, GenuineIn(issued))
    && l.dominant in IssuedBy(issued, l.conf.name)
    && (LastIncarnation !in IssuedBy(issued, l.conf.name) ==> OwnIncarnation(l))
  }

  ghost predicate Safe(net: Net) {
    && (forall n :: n in net.nodes ==> net.nodes[n].conf.name == n && NodeSafe(net.nodes[n], net.issued))
    && InFlight(net.soup, GenuineIn(net.issued))
  }

  ghost predicate IssuedGrows(a: map<Name, set<u64>>, b: map<Name, set<u64>>) {
    forall n: Name :: IssuedBy(a, n) <= IssuedBy(b, n)
  }

  lemma AllClaimsWeaken(l: Node, p: Claim -> bool, q: Claim -> bool)
    requires AllClaims(l, p) && forall c :: p(c) ==> q(c)
    ensures AllClaims(l, q)
  {}

  /** Nodes only ever object to incarnations they once issued. */
  lemma ObjectionIsGenuine(l: Node, i: Input, issued: map<Name, set<u64>>)
    requires Enabled(l, i) && AllClaims(l, GenuineIn(issued)) && Objection(l, i).Some?
    requires i.Receive? || i.Alert? ==> GenuineIn(issued)(i.c)
    ensures Objection(l, i).value in IssuedBy(issued, l.conf.name)
  {
    if i.Timeout? {
      assert GenuineIn(issued)(i.c);
    } else if i.Convict? {
      assert GenuineIn(issued)(i.c);
    }
    if i.Timeout? || (i.Receive? && i.c.state == Suspect) {
      var s := i.c;
      if s.name in l.suspicions {
        assert GenuineIn(issued)(l.suspicions[s.name].accused);
      }
    }
  }

  lemma DominantIsIssued(l: Node, i: Input, ch: Choice)
    requires Enabled(l, i)
    ensures var d := Handle(l, i, ch).dominant;
            || d == l.dominant || d in Issued(l, i)
            || (i.Receive? && i.c.name == l.conf.name && d == i.c.dominant)
    ensures Handle(l, i, ch).conf == l.conf
  {
    HandleDominant(l, i, ch);
  }

  lemma HandleSafeIncarnation(l: Node, i: Input, ch: Choice, issued: map<Name, set<u64>>)
    requires Enabled(l, i) && AllClaims(l, GenuineIn(issued)) && OwnIncarnation(l)
    requires l.dominant in IssuedBy(issued, l.conf.name)
    requires i.Receive? || i.Alert? ==> GenuineIn(issued)(i.c)
    requires LastIncarnation !in IssuedBy(issued, l.conf.name)
    ensures OwnIncarnation(Handle(l, i, ch))
  {
    if Objection(l, i).Some? {
      ObjectionIsGenuine(l, i, issued);
    }
    HandleKeepsOwnIncarnation(l, i, ch);
  }

  lemma HandleSafe(l: Node, i: Input, ch: Choice, issued: map<Name, set<u64>>, issued': map<Name, set<u64>>)
    requires Enabled(l, i) && NodeSafe(l, issued) && IssuedGrows(issued, issued')
    requires i.Receive? || i.Alert? ==> GenuineIn(issued)(i.c)
    requires Issued(l, i) <= IssuedBy(issued', l.conf.name)
    ensures NodeSafe(Handle(l, i, ch), issued')
  {
    AllClaimsWeaken(l, GenuineIn(issued), GenuineIn(issued'));
    HandleClaims(l, i, ch, GenuineIn(issued'));
    HandleKeeps(l, i, ch);
    HandleKeepsStarted(l, i, ch);
    DominantIsIssued(l, i, ch);
    if LastIncarnation !in IssuedBy(issued', l.conf.name) {
      HandleSafeIncarnation(l, i, ch, issued);
    }
  }

  lemma StartSafe(conf: Config, cursor: nat, ch: Choice, issued: map<Name, set<u64>>)
    requires 1 in IssuedBy(issued, conf.name)
    ensures NodeSafe(Start(Boot(conf, cursor), ch), issued)
  {
    StartKeeps(conf, cursor, ch);
    var boot := Boot(conf, cursor).(dominant := 1);
    AdmitClaims(boot, SelfClaim(conf, 1), false, ch, GenuineIn(issued));
  }

  lemma StaysSafe(l: Node, issued: map<Name, set<u64>>, issued': map<Name, set<u64>>)
    requires NodeSafe(l, issued) && IssuedGrows(issued, issued')
    ensures NodeSafe(l, issued')
  {
    AllClaimsWeaken(l, GenuineIn(issued), GenuineIn(issued'));
  }

  lemma IssuedOnlyGrows(net: Net, a: Act)
    requires Possible(net, a)
    ensures IssuedGrows(net.issued, Next(net, a).issued)
  {}

  lemma SoupSafe(net: Net, a: Act)
    requires Safe(net) && Possible(net, a)
    ensures InFlight(Next(net, a).soup, GenuineIn(Next(net, a).issued))
  {
    IssuedOnlyGrows(net, a);
    SoupGenuine(net, a);
    InFlightWeaken(Next(net, a).soup, GenuineIn(net.issued), GenuineIn(Next(net, a).issued));
  }

  lemma SoupGenuine(net: Net, a: Act)
    requires Safe(net) && Possible(net, a)
    ensures InFlight(Next(net, a).soup, GenuineIn(net.issued))
  {
    forall n | n in net.nodes ensures AllClaims(net.nodes[n], GenuineIn(net.issued)) {
      assert NodeSafe(net.nodes[n], net.issued);
    }
    SoupClaims(net, a, GenuineIn(net.issued));
  }

  lemma MovingNodeSafe(net: Net, a: Act)
    requires Safe(net) && Possible(net, a) && a.Do?
    ensures Handle(net.nodes[a.n], a.i, a.ch).conf.name == a.n
    ensures NodeSafe(Handle(net.nodes[a.n], a.i, a.ch), Next(net, a).issued)
  {
    IssuedOnlyGrows(net, a);
    HeardWasSent(net, a, GenuineIn(net.issued));
    HandleSafe(net.nodes[a.n], a.i, a.ch, net.issued, Next(net, a).issued);
    DominantIsIssued(net.nodes[a.n], a.i, a.ch);
  }

  lemma OtherNodeSafe(net: Net, a: Act, n: Name)
    requires Safe(net) && Possible(net, a) && n in net.nodes
    ensures net.nodes[n].conf.name == n && NodeSafe(net.nodes[n], Next(net, a).issued)
  {
    IssuedOnlyGrows(net, a);
    StaysSafe(net.nodes[n], net.issued, Next(net, a).issued);
  }

  lemma StepNodeSafe(net: Net, a: Act, n: Name)
    requires Safe(net) && Possible(net, a) && n in Next(net, a).nodes
    ensures Next(net, a).nodes[n].conf.name == n && NodeSafe(Next(net, a).nodes[n], Next(net, a).issued)
  {
    if a.Join? && a.conf.name == n {
      StartSafe(a.conf, a.cursor, a.ch, Next(net, a).issued);
    } else {
      OneNodeMoves(net, a, n);
      if a.Do? && a.n == n {
        MovingNodeSafe(net, a);
      } else {
        OtherNodeSafe(net, a, n);
      }
    }
  }

  lemma StepSafe(net: Net, a: Act)
    requires Safe(net) && Possible(net, a)
    ensures Safe(Next(net, a))
  {
    SoupSafe(net, a);
    forall n | n in Next(net, a).nodes
      ensures Next(net, a).nodes[n].conf.name == n && NodeSafe(Next(net, a).nodes[n], Next(net, a).issued)
    {
      StepNodeSafe(net, a, n);
    }
  }

  lemma {:induction false} RunIsSafe(nets: seq<Net>, acts: seq<Act>, i: nat)
    requires i < |nets| && i <= |acts| && RunsTo(nets, acts, i)
    ensures Safe(nets[i])
  {
    if i > 0 {
      RunIsSafe(nets, acts, i - 1);
      StepSafe(nets[i - 1], acts[i - 1]);
    }
  }

  /** In every reachable state, whatever is lost, repeated or reordered and whoever
      restarts: every record, queued message, suspicion, conviction and claim in
      flight carries an incarnation its subject issued, and every node invariant holds. */
  lemma ReachableIsSafe(nets: seq<Net>, acts: seq<Act>, i: nat)
    requires IsRun(nets, acts) && i < |nets|
    ensures Safe(nets[i])
  {
    RunPrefix(nets, acts, |acts|, i);
    RunIsSafe(nets, acts, i);
  }

  lemma StepKeepsRecords(net: Net, a: Act, n: Name)
    requires Safe(net) && Possible(net, a) && n in net.nodes && !(a.Join? && a.conf.name == n)
    ensures n in Next(net, a).nodes && NoRecordLowered(net.nodes[n], Next(net, a).nodes[n])
  {
    OneNodeMoves(net, a, n);
    if a.Do? && a.n == n {
      HandleKeeps(net.nodes[n], a.i, a.ch);
    }
  }

  ghost predicate TakesBack(l: Node, l': Node, subject: Name, issued: map<Name, set<u64>>) {
    && Knows(l, subject) && Knows(l', subject)
    && l.records[subject].dominant < l'.records[subject].dominant
    && l'.records[subject].dominant in IssuedBy(issued, subject)
  }

  lemma TakenBack(l: Node, l': Node, subject: Name, issued: map<Name, set<u64>>)
    requires NoRecordLowered(l, l') && NodeSafe(l', issued)
    requires IsDead(l, subject) && !IsDead(l', subject)
    ensures TakesBack(l, l', subject, issued)
  {
    assert AtLeast(l'.records[subject], l.records[subject]);
    assert GenuineIn(issued)(l'.records[subject]);
  }

  /** A peer takes a dead node back only on a higher incarnation, and one that node issued. */
  lemma ReturnNeedsNewIncarnation(net: Net, a: Act, n: Name, subject: Name)
    requires Safe(net) && Possible(net, a) && n in net.nodes && !(a.Join? && a.conf.name == n)
    requires IsDead(net.nodes[n], subject)
    ensures n in Next(net, a).nodes
    ensures !IsDead(Next(net, a).nodes[n], subject) ==>
              TakesBack(net.nodes[n], Next(net, a).nodes[n], subject, Next(net, a).issued)
  {
    StepKeepsRecords(net, a, n);
    StepNodeSafe(net, a, n);
    if !IsDead(Next(net, a).nodes[n], subject) {
      TakenBack(net.nodes[n], Next(net, a).nodes[n], subject, Next(net, a).issued);
    }
  }

  ghost predicate KeepsRecords(net: Net, net': Net, n: Name) {
    n in net.nodes && n in net'.nodes && NoRecordLowered(net.nodes[n], net'.nodes[n])
  }

  lemma KeepsRecordsThen(net: Net, mid: Net, net': Net, n: Name)
    requires KeepsRecords(net, mid, n) && KeepsRecords(mid, net', n)
    ensures KeepsRecords(net, net', n)
  {
    NoRecordLoweredTransitive(net.nodes[n], mid.nodes[n], net'.nodes[n]);
  }

  lemma StepInRun(nets: seq<Net>, acts: seq<Act>, j: nat, n: Name)
    requires 0 < j < |nets| && j <= |acts| && RunsTo(nets, acts, j) && n in nets[j - 1].nodes
    requires !(acts[j - 1].Join? && acts[j - 1].conf.name == n)
    ensures KeepsRecords(nets[j - 1], nets[j], n)
  {
    RunIsSafe(nets, acts, j - 1);
    StepKeepsRecords(nets[j - 1], acts[j - 1], n);
  }

  lemma {:induction false} RunKeepsRecords(nets: seq<Net>, acts: seq<Act>, i: nat, j: nat, n: Name)
    requires i <= j < |nets| && j <= |acts| && RunsTo(nets, acts, j) && n in nets[i].nodes
    requires forall k :: i <= k < j ==> !(acts[k].Join? && acts[k].conf.name == n)
    ensures KeepsRecords(nets[i], nets[j], n)
    decreases j - i
  {
    if i < j {
      RunKeepsRecords(nets, acts, i, j - 1, n);
      StepInRun(nets, acts, j, n);
      KeepsRecordsThen(nets[i], nets[j - 1], nets[j], n);
    }
  }

  /** While a node does not restart, none of its records is forgotten or lowered. */
  lemma RecordsNeverFall(nets: seq<Net>, acts: seq<Act>, i: nat, j: nat, n: Name)
    requires IsRun(nets, acts) && i <= j < |nets| && n in nets[i].nodes
    requires forall k :: i <= k < j ==> !(acts[k].Join? && acts[k].conf.name == n)
    ensures n in nets[j].nodes && NoRecordLowered(nets[i].nodes[n], nets[j].nodes[n])
  {
    RunPrefix(nets, acts, |acts|, j);
    RunKeepsRecords(nets, acts, i, j, n);
  }

  // ----- who hears what -----

  /** The act sends c to `to`: with a ping, or with all records. */
  predicate SendsTo(net: Net, a: Act, to: Name, c: Claim) {
    && Possible(net, a)
    && match a
       case Do(n, ProbeTick(size, room), _) =>
         var l := net.nodes[n]; Probes(l) && Target(l) == to && c in Appended(l, size, room)
       case Sync(n, m) => m == to && c.name in net.nodes[n].records && c == net.nodes[n].records[c.name]
       case _ => false
  }

  lemma ProbeSends(net: Net, n: Name, i: Input, ch: Choice, to: Name, c: Claim)
    requires Possible(net, Do(n, i, ch)) && News(to, c) in Sent(net.nodes[n], i)
    ensures SendsTo(net, Do(n, i, ch), to, c)
  {}

  lemma SyncSends(net: Net, n: Name, m: Name, to: Name, c: Claim)
    requires n in net.nodes && (forall k :: k in net.nodes[n].records ==> net.nodes[n].records[k].name == k)
    requires News(to, c) in Next(net, Sync(n, m)).soup && News(to, c) !in net.soup
    ensures SendsTo(net, Sync(n, m), to, c)
  {}

  lemma NewsIsSent(net: Net, a: Act, to: Name, c: Claim)
    requires Safe(net) && Possible(net, a) && News(to, c) in Next(net, a).soup && News(to, c) !in net.soup
    ensures SendsTo(net, a, to, c)
  {
    match a {
      case Do(n, i, ch) => ProbeSends(net, n, i, ch, to, c);
      case Sync(n, m) =>
        assert NodeSafe(net.nodes[n], net.issued);
        SyncSends(net, n, m, to, c);
      case Join(_, _, _) =>
      case Answer(_, _) =>
    }
  }

  lemma LastSent(nets: seq<Net>, acts: seq<Act>, i: nat, to: Name, c: Claim)
    requires 0 < i < |nets| && i <= |acts| && RunsTo(nets, acts, i)
    requires News(to, c) in nets[i].soup && News(to, c) !in nets[i - 1].soup
    ensures SendsTo(nets[i - 1], acts[i - 1], to, c)
  {
    RunIsSafe(nets, acts, i - 1);
    NewsIsSent(nets[i - 1], acts[i - 1], to, c);
  }

  lemma {:induction false} NewsCameFrom(nets: seq<Net>, acts: seq<Act>, i: nat, to: Name, c: Claim) returns (j: nat)
    requires i < |nets| && i <= |acts| && RunsTo(nets, acts, i) && News(to, c) in nets[i].soup
    ensures j < i && SendsTo(nets[j], acts[j], to, c)
  {
    if News(to, c) in nets[i - 1].soup {
      j := NewsCameFrom(nets, acts, i - 1, to, c);
    } else {
      LastSent(nets, acts, i, to, c);
      j := i - 1;
    }
  }

  /** Whatever claim a node receives in a run, some node sent it to that node before. */
  lemma HeardWasSentToIt(nets: seq<Net>, acts: seq<Act>, i: nat) returns (j: nat)
    requires IsRun(nets, acts) && i < |acts| && acts[i].Do? && acts[i].i.Receive?
    ensures j < i && SendsTo(nets[j], acts[j], acts[i].n, acts[i].i.c)
  {
    RunPrefix(nets, acts, |acts|, i + 1);
    j := NewsCameFrom(nets, acts, i, acts[i].n, acts[i].i.c);
  }

  // ----- how far incarnations get -----

  ghost predicate IssuedWithin(issued: map<Name, set<u64>>, k: nat) {
    forall n, d :: d in IssuedBy(issued, n) ==> 1 <= d <= k
  }

  lemma NodeIssuesNext(l: Node, i: Input, issued: map<Name, set<u64>>, k: nat, d: u64)
    requires Enabled(l, i) && NodeSafe(l, issued) && (i.Receive? || i.Alert? ==> GenuineIn(issued)(i.c))
    requires IssuedWithin(issued, k) && k < U64 - 1 && d in Issued(l, i)
    ensures 1 <= d <= k + 1
  {
    ObjectionIsGenuine(l, i, issued);
    ObjectionOutranks(l.dominant, Objection(l, i).value);
  }

  lemma IncarnationNext(net: Net, a: Act, k: nat, n: Name, d: u64)
    requires Safe(net) && Possible(net, a) && IssuedWithin(net.issued, k) && k < U64 - 1
    requires d in IssuedBy(Next(net, a).issued, n)
    ensures 1 <= d <= k + 1
  {
    WhatIsIssued(net, a, n, d);
    if d !in IssuedBy(net.issued, n) && a.Do? {
      HeardWasSent(net, a, GenuineIn(net.issued));
      NodeIssuesNext(net.nodes[n], a.i, net.issued, k, d);
    }
  }

  lemma StepIssuesNext(net: Net, a: Act, net': Net, k: nat)
    requires Safe(net) && Leads(net, a, net') && IssuedWithin(net.issued, k) && k < U64 - 1
    ensures IssuedWithin(net'.issued, k + 1)
  {
    forall n, d | d in IssuedBy(net'.issued, n) ensures 1 <= d <= k + 1 {
      IncarnationNext(net, a, k, n, d);
    }
  }

  lemma {:induction false} RunIssues(nets: seq<Net>, acts: seq<Act>, i: nat)
    requires i < |nets| && i <= |acts| && RunsTo(nets, acts, i) && i < U64
    ensures IssuedWithin(nets[i].issued, i)
  {
    if i > 0 {
      RunIssues(nets, acts, i - 1);
      RunIsSafe(nets, acts, i - 1);
      StepIssuesNext(nets[i - 1], acts[i - 1], nets[i], i - 1);
    }
  }

  /** After i steps no node has issued an incarnation above i, so in runs of fewer than
      2^64 - 1 steps the last one is never reached, and dominant_ never falls behind the
      node's own record. */
  lemma IncarnationsGrowSlowly(nets: seq<Net>, acts: seq<Act>, i: nat, n: Name)
    requires IsRun(nets, acts) && i < |nets| && i < U64 - 1
    ensures forall d :: d in IssuedBy(nets[i].issued, n) ==> 1 <= d <= i
    ensures LastIncarnation !in IssuedBy(nets[i].issued, n)
    ensures n in nets[i].nodes ==> OwnIncarnation(nets[i].nodes[n])
  {
    RunPrefix(nets, acts, |acts|, i);
    RunIssues(nets, acts, i);
    RunIsSafe(nets, acts, i);
    assert n in nets[i].nodes ==> NodeSafe(nets[i].nodes[n], nets[i].issued);
  }
}
