/** What each handler of src/gossiper.hpp does to a node, as a function from the
    node's state to the next. `Gossiper` is proved against these functions; the
    invariants and the network are proved about them. */
module Handlers {
  import opened Claims
  import opened Broadcast
  import opened Suspicions

  datatype Event = Joined(name: Name) | Left(name: Name)

  datatype Config = Config(name: Name, address: Address)

  /** What a handler does not decide itself: where the hash table puts a new queue
      entry, and what converting log2(0) yields. */
  datatype Choice = Choice(at: nat, need: nat)

  datatype Node = Node(
    conf: Config,
    records: map<Name, Claim>,       // node_map_
    nodes: seq<Name>,                // nodes_
    nodeNum: u32,                    // node_num_
    suspicions: map<Name, Doubt>,    // suspicions_
    ring: Ring,                      // bc_queue_
    dominant: u64,                   // dominant_
    maxAppended: nat,                // MAX_APPENDED_MSG_
    cursor: nat,                     // roundrobinNode's static cursor
    armed: set<Claim>,               // convictions handed to timers; any may fire, any time, again and again
    probing: set<Claim>,             // copies held by probes whose timeouts may fire
    log: seq<Event>,                 // notifications delivered
    passes: nat)                     // dead claims that passed the Dominant check

  function Boot(conf: Config, cursor: nat): Node {
    Node(conf, map[], [], 0, map[], Ring([], 0), 0, 10, cursor, {}, {}, [], 0)
  }

  function Add1(n: u32): u32 { (n + 1) % U32 }
  function Sub1(n: u32): u32 { (n - 1) % U32 }

  function Push(l: Node, c: Claim, at: nat): Node {
    l.(ring := PushRing(l.ring, c, l.nodeNum, at))
  }

  function NextDominant(d: u64, shift: u64): u64 {
    (d + shift) % U64
  }

  /** The incarnation an objection to `accused` is issued under. */
  function ObjectionDominant(dominant: u64, accused: u64): u64 {
    var d := NextDominant(dominant, 1);
    if accused >= d then NextDominant(d, (accused - d + 1) % U64) else d
  }

  function SelfClaim(conf: Config, dominant: u64): Claim {
    Claim(conf.name, conf.address, dominant, Alive, None)
  }

  /** `fuckyou`: object to an accusation against this node. */
  function Object(l: Node, accused: u64, ch: Choice): Node {
    var d := ObjectionDominant(l.dominant, accused);
    Push(l.(dominant := d), SelfClaim(l.conf, d), ch.at)
  }

  predicate Knows(l: Node, name: Name) {
    name in l.records
  }

  predicate IsDead(l: Node, name: Name) {
    name in l.records && l.records[name].state == Dead
  }

  /** Is the node new, or known to be dead? */
  predicate ComesUp(l: Node, name: Name) {
    !Knows(l, name) || IsDead(l, name)
  }

  function RecordAlive(l: Node, a: Claim): Node {
    var l1 := if ComesUp(l, a.name) then l.(nodes := l.nodes + [a.name], nodeNum := Add1(l.nodeNum)) else l;
    l1.(records := l.records[a.name := a], suspicions := l.suspicions - {a.name})
  }

  /** An accepted alive claim. */
  function Admit(l: Node, a: Claim, needBc: bool, ch: Choice): Node {
    var l2 := RecordAlive(l, a);
    var l3 := if needBc then Push(l2, a, ch.at) else l2;
    if a.name == l.conf.name then l3.(dominant := a.dominant)
    else if ComesUp(l, a.name) then l3.(log := l.log + [Joined(a.name)])
    else l3
  }

  function AliveNode(l: Node, a: Claim, needBc: bool, ch: Choice): Node {
    if a.dominant <= (if Knows(l, a.name) then l.records[a.name].dominant else 0) then l
    else Admit(l, a, needBc, ch)
  }

  function Position(nodes: seq<Name>, name: Name): (i: nat)
    ensures i <= |nodes|
    ensures i < |nodes| ==> nodes[i] == name
  {
    if nodes == [] then 0 else if nodes[0] == name then 0 else 1 + Position(nodes[1..], name)
  }

  /** Swap the first occurrence with the last element and drop it. */
  function SwapRemove(nodes: seq<Name>, name: Name): seq<Name> {
    var i := Position(nodes, name);
    if i == |nodes| then nodes
    else nodes[i := nodes[|nodes| - 1]][..|nodes| - 1]
  }

  function RemoveNode(l: Node, name: Name): Node {
    if name in l.nodes then l.(nodes := SwapRemove(l.nodes, name), nodeNum := Sub1(l.nodeNum)) else l
  }

  /** A dead claim that passed the Dominant check. */
  function Pass(l: Node, name: Name): Node {
    l.(suspicions := l.suspicions - {name}, nodeNum := Sub1(l.nodeNum), passes := l.passes + 1)
  }

  /** An accepted dead claim about another node. */
  function Bury(l: Node, d: Claim, ch: Choice): Node {
    var l1 := Pass(l, d.name);
    var l2 := RemoveNode(l1.(records := l.records[d.name := d]), d.name);
    Push(l2, d, ch.at).(log := l.log + [Left(d.name)])
  }

  function DeadNode(l: Node, d: Claim, ch: Choice): Node {
    if !Knows(l, d.name) || d.dominant < l.records[d.name].dominant then l
    else if IsDead(l, d.name) then Pass(l, d.name)
    else if d.name == l.conf.name then Object(Pass(l, d.name), d.dominant, ch)
    else Bury(l, d, ch)
  }

  function Conviction(s: Claim): Claim {
    s.(state := Dead)
  }

  function Confirm(l: Node, name: Name, from: Option<Name>): Node
    requires name in l.suspicions
  {
    l.(suspicions := l.suspicions[name := Confirmed(l.suspicions[name], from)])
  }

  function RecordSuspicion(l: Node, s: Claim, ch: Choice): Node {
    l.(records := l.records[s.name := s],
       suspicions := l.suspicions[s.name := NewDoubt(l.nodeNum, ch.need, s)],
       armed := l.armed + {Conviction(s)})
  }

  /** A suspicion against a node that had none. */
  function Accuse(l: Node, s: Claim, ch: Choice): Node {
    RecordSuspicion(if s.name == l.conf.name then Object(l, s.dominant, ch) else Push(l, s, ch.at), s, ch)
  }

  function SuspectNode(l: Node, s: Claim, ch: Choice): Node {
    if !Knows(l, s.name) || s.dominant < l.records[s.name].dominant then l
    else if s.name in l.suspicions then
      var l1 := Confirm(l, s.name, s.from);
      var doubt := l1.suspicions[s.name];
      if Convicts(doubt) then DeadNode(l1, Conviction(doubt.accused), ch) else Push(l1, s, ch.at)
    else if l.records[s.name].state != Alive then l
    else Accuse(l, s, ch)
  }

  /** One claim of a received list. */
  function Merge(l: Node, c: Claim, needBc: bool, ch: Choice): Node {
    match c.state
    case Alive => AliveNode(l, c, needBc, ch)
    case Suspect => SuspectNode(l, c, ch)
    case Dead => DeadNode(l, c, ch)
  }

  function MergeStates(l: Node, cs: seq<Claim>, needBc: bool, chs: seq<Choice>): Node
    requires |chs| == |cs|
  {
    if cs == [] then l
    else
      var last := |cs| - 1;
      Merge(MergeStates(l, cs[..last], needBc, chs[..last]), cs[last], needBc, chs[last])
  }

  /** The dead alert a ping from `from` is answered with. */
  function DeadAlert(l: Node, from: Name): Option<Claim> {
    if IsDead(l, from) then Some(l.records[from]) else None
  }

  /** A pong that carries a claim. */
  function PongAlert(l: Node, c: Claim, ch: Choice): Node {
    if c.name == l.conf.name && c.state == Dead then Object(l, c.dominant, ch) else l
  }

  function Shrunk(maxAppended: nat): nat {
    if maxAppended == 1 then 1 else maxAppended / 2
  }

  /** The messages a ping would carry: the next ones due, as many as allowed. */
  function Due(l: Node): seq<Claim> {
    Msgs(Upcoming(l.ring)[..Min(l.maxAppended, |l.ring.entries|)])
  }

  function Appended(l: Node, size: seq<Claim> -> nat, room: int): seq<Claim> {
    if Due(l) == [] || size(Due(l)) > room then [] else Due(l)
  }

  function Append(l: Node, size: seq<Claim> -> nat, room: int): Node {
    if Due(l) == [] then l
    else if size(Due(l)) > room then l.(maxAppended := Shrunk(l.maxAppended))
    else l.(ring := After(l.ring, |Due(l)|))
  }

  // ----- probing -----

  function Pick(nodes: seq<Name>, cursor: nat, i: nat): Name
    requires nodes != []
  {
    nodes[(cursor + i) % |nodes|]
  }

  function Picks(nodes: seq<Name>, cursor: nat, num: nat): seq<Name> {
    if |nodes| <= num then nodes
    else seq(num, i requires 0 <= i < num => Pick(nodes, cursor, i))
  }

  function NextCursor(nodes: seq<Name>, cursor: nat, num: nat): nat {
    if |nodes| <= num then cursor else (cursor + num) % |nodes|
  }

  predicate CanProbe(l: Node) {
    l.nodes != [] && Picks(l.nodes, l.cursor, 1)[0] in l.records
  }

  predicate Probes(l: Node)
    requires CanProbe(l)
  {
    var target := l.records[Picks(l.nodes, l.cursor, 1)[0]];
    target.state == Alive && target.name != l.conf.name
  }

  function ProbeNode(l: Node, target: Claim, size: seq<Claim> -> nat, room: int): Node {
    Append(l, size, room).(probing := l.probing + {target})
  }

  function Probe(l: Node, size: seq<Claim> -> nat, room: int): Node
    requires CanProbe(l)
  {
    var target := l.records[Picks(l.nodes, l.cursor, 1)[0]];
    var l1 := l.(cursor := NextCursor(l.nodes, l.cursor, 1));
    if Probes(l) then ProbeNode(l1, target, size, room) else l1
  }

  /** Join's local work: incarnation dominant_ + 1, announced to itself. */
  function Start(l: Node, ch: Choice): Node {
    var d := NextDominant(l.dominant, 1);
    AliveNode(l.(dominant := d), SelfClaim(l.conf, d), false, ch)
  }

  // ----- one node's steps -----

  datatype Input =
    | Receive(c: Claim, needBc: bool)
    | Alert(c: Claim)
    | Convict(c: Claim)
    | Timeout(c: Claim)
    | ProbeTick(size: seq<Claim> -> nat, room: int)

  predicate Enabled(l: Node, i: Input) {
    match i
    case Convict(c) => c in l.armed
    case Timeout(c) => c in l.probing
    case ProbeTick(_, _) => CanProbe(l)
    case _ => true
  }

  function Handle(l: Node, i: Input, ch: Choice): Node
    requires Enabled(l, i)
  {
    match i
    case Receive(c, needBc) => Merge(l, c, needBc, ch)
    case Alert(c) => PongAlert(l, c, ch)
    case Convict(c) => DeadNode(l, c, ch)
    case Timeout(c) => SuspectNode(l, c, ch)
    case ProbeTick(size, room) => Probe(l, size, room)
  }
}
