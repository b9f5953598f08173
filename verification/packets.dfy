/** A packet handled as a whole is its claims handled one after the other. */
module Packets {
  import opened Claims
  import opened Handlers
  import opened Network
  import opened NetworkLiveness

  /** n receives the claims of a packet, in order. */
  function Delivered(n: Name, cs: seq<Claim>, needBc: bool, chs: seq<Choice>): seq<Act>
    requires |chs| == |cs|
  {
    if cs == [] then []
    else
      var last := |cs| - 1;
      Delivered(n, cs[..last], needBc, chs[..last]) + [Do(n, Receive(cs[last], needBc), chs[last])]
  }

  ghost predicate SentTo(net: Net, n: Name, cs: seq<Claim>) {
    forall k :: 0 <= k < |cs| ==> News(n, cs[k]) in net.soup
  }

  /** What the steps of n leave behind: its new state, and nothing else. */
  ghost predicate OnlyBecomes(net: Net, net': Net, n: Name, l: Node) {
    net'.nodes == net.nodes[n := l] && net'.soup == net.soup
  }

  lemma ReceiveBecomes(net: Net, n: Name, c: Claim, needBc: bool, ch: Choice)
    requires n in net.nodes && News(n, c) in net.soup
    ensures var a := Do(n, Receive(c, needBc), ch);
            Possible(net, a) && OnlyBecomes(net, Next(net, a), n, Merge(net.nodes[n], c, needBc, ch))
  {}

  lemma {:induction false} DeliveredMerges(net: Net, n: Name, cs: seq<Claim>, needBc: bool, chs: seq<Choice>)
    requires n in net.nodes && SentTo(net, n, cs) && |chs| == |cs|
    ensures CanContinue(net, Delivered(n, cs, needBc, chs))
    ensures OnlyBecomes(net, Continue(net, Delivered(n, cs, needBc, chs)), n,
                        MergeStates(net.nodes[n], cs, needBc, chs))
  {
    if cs == [] {
      assert net.nodes[n := net.nodes[n]] == net.nodes;
    } else {
      var last := |cs| - 1;
      DeliveredMerges(net, n, cs[..last], needBc, chs[..last]);
      var mid := Continue(net, Delivered(n, cs[..last], needBc, chs[..last]));
      ReceiveBecomes(mid, n, cs[last], needBc, chs[last]);
      ContinueThen(net, Delivered(n, cs[..last], needBc, chs[..last]), Do(n, Receive(cs[last], needBc), chs[last]));
    }
  }

  /** The pong a ping from `from` is answered with, if it carries an alert. */
  function Ponged(l: Node, from: Name): set<Packet> {
    match DeadAlert(l, from)
    case None => {}
    case Some(c) => {Pong(from, c)}
  }

  /** A ping handled as a whole: answered by the record the node had before, and its claims
      merged. That is what the answer and the single claims lead to, one act at a time. */
  lemma PingIsItsSteps(net: Net, n: Name, from: Name, cs: seq<Claim>, chs: seq<Choice>)
    requires n in net.nodes && Ping(n, from) in net.soup && SentTo(net, n, cs) && |chs| == |cs|
    ensures var acts := [Answer(n, from)] + Delivered(n, cs, true, chs);
            && CanContinue(net, acts)
            && Continue(net, acts).nodes == net.nodes[n := MergeStates(net.nodes[n], cs, true, chs)]
            && Continue(net, acts).soup == net.soup + Ponged(net.nodes[n], from)
  {
    var net' := Next(net, Answer(n, from));
    assert net'.nodes == net.nodes && net'.soup == net.soup + Ponged(net.nodes[n], from);
    DeliveredMerges(net', n, cs, true, chs);
    ContinueFirst(net, Answer(n, from), Delivered(n, cs, true, chs));
  }

  function AllRecords(l: Node, to: Name): set<Packet> {
    set m | m in l.records :: News(to, l.records[m])
  }

  /** A state sync served as a whole: the claims merged, then all records sent back. */
  lemma SyncIsItsSteps(net: Net, n: Name, to: Name, cs: seq<Claim>, chs: seq<Choice>)
    requires n in net.nodes && SentTo(net, n, cs) && |chs| == |cs|
    ensures var acts, l := Delivered(n, cs, true, chs) + [Sync(n, to)], MergeStates(net.nodes[n], cs, true, chs);
            && CanContinue(net, acts)
            && Continue(net, acts).nodes == net.nodes[n := l]
            && Continue(net, acts).soup == net.soup + AllRecords(l, to)
  {
    DeliveredMerges(net, n, cs, true, chs);
    ContinueThen(net, Delivered(n, cs, true, chs), Sync(n, to));
  }
}
