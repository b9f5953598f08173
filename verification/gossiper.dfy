/** The class of src/gossiper.hpp: its handlers as they change its fields, each
    proved to take the state to what `Handlers` says. */
module Gossip {
  import opened Claims
  import opened Broadcast
  import opened Suspicions
  import opened Handlers
  import opened Strings
  import Invariants

  class Gossiper {
    const conf: Config
    const host: string
    const port: string
    var records: map<Name, Claim>
    var nodes: seq<Name>
    var nodeNum: u32
    var suspicions: map<Name, Suspicion>
    const queue: BroadcastQueue
    var dominant: u64
    var maxAppended: nat
    var cursor: nat
    // what the environment holds for this node: armed timers, probes under way, notifications
    var armed: set<Claim>
    var probing: set<Claim>
    var log: seq<Event>
    ghost var passes: nat

    ghost predicate Valid()
      reads this, queue
    {
      && queue.Valid() && queue.Aligned() && queue.peeked == 0
      && OneTimerEach()
    }

    ghost predicate OneTimerEach()
      reads this`suspicions
    {
      forall m, n :: m in suspicions && n in suspicions && m != n ==> suspicions[m] != suspicions[n]
    }

    ghost function State(): Node
      requires queue.cur <= |queue.entries|
      reads this, queue, suspicions.Values
    {
      Node(conf, records, nodes, nodeNum, map n | n in suspicions :: suspicions[n].View(),
           queue.Contents(), dominant, maxAppended, cursor, armed, probing, log, passes)
    }

    constructor (conf: Config, host: string, port: string, cursor: nat)
      ensures Valid() && fresh(queue) && suspicions == map[]
      ensures State() == Boot(conf, cursor)
    {
      this.conf, this.host, this.port := conf, host, port;
      records, nodes, nodeNum, suspicions := map[], [], 0, map[];
      queue := new BroadcastQueue();
      dominant, maxAppended, this.cursor := 0, 10, cursor;
      armed, probing, log, passes := {}, {}, [], 0;
    }

    method GetNodeState(name: Name) returns (state: Option<Claim>)
      ensures state == if name in records then Some(records[name]) else None
    {
      state := if name in records then Some(records[name]) else None;
    }

    method UpdateNodeState(name: Name, from: Claim)
      requires Valid() && name in records
      modifies this`records
      ensures Valid() && State() == old(State()).(records := old(State()).records[name := from])
    {
      records := records[name := from];
    }

    method AddNodeState(name: Name, state: Claim)
      requires Valid()
      modifies this`records, this`nodes, this`nodeNum
      ensures Valid()
      ensures State() == old(State()).(
                records := old(State()).records[name := state],
                nodes := old(State()).nodes + [name],
                nodeNum := Add1(old(State()).nodeNum))
    {
      records := records[name := state];
      nodes := nodes + [name];
      nodeNum := Add1(nodeNum);
    }

    method RemoveNodeState(name: Name)
      requires Valid()
      modifies this`nodes, this`nodeNum
      ensures Valid() && State() == RemoveNode(old(State()), name)
    {
      var num := |nodes|;
      Invariants.PositionFinds(nodes, name);
      for i := 0 to num
        invariant nodes == old(nodes) && nodeNum == old(nodeNum)
        invariant Position(nodes, name) >= i
      {
        Invariants.PositionReaches(nodes, name, i);
        if nodes[i] == name {
          nodes := nodes[i := nodes[num - 1]][num - 1 := nodes[i]];
          nodes := nodes[..num - 1];
          nodeNum := Sub1(nodeNum);
          break;
        }
      }
    }

    method EraseSuspicion(name: Name)
      requires Valid()
      modifies this`suspicions
      ensures Valid() && suspicions == old(suspicions) - {name}
      ensures State() == old(State()).(suspicions := old(State()).suspicions - {name})
    {
      suspicions := suspicions - {name};
    }

    /** Erase the suspicion and take one off the counter. */
    method PassDominantCheck(name: Name)
      requires Valid()
      modifies this`suspicions, this`nodeNum, this`passes
      ensures Valid() && suspicions == old(suspicions) - {name}
      ensures State() == Pass(old(State()), name)
    {
      EraseSuspicion(name);
      nodeNum := Sub1(nodeNum);
      passes := passes + 1;
    }

    method Notify(e: Event)
      requires Valid()
      modifies this`log
      ensures Valid() && State() == old(State()).(log := old(State()).log + [e])
    {
      log := log + [e];
    }

    method SetDominant(d: u64)
      requires Valid()
      modifies this`dominant
      ensures Valid() && State() == old(State()).(dominant := d)
    {
      dominant := d;
    }

    method PushMsg(c: Claim, ch: Choice)
      requires Valid()
      modifies queue
      ensures Valid() && State() == Push(old(State()), c, ch.at)
    {
      queue.Push(c, nodeNum, ch.at);
    }

    method NextIncarnation(shift: u64) returns (d: u64)
      requires Valid()
      modifies this`dominant
      ensures d == NextDominant(old(dominant), shift)
      ensures Valid() && State() == old(State()).(dominant := d)
    {
      dominant := (dominant + shift) % U64;
      d := dominant;
    }

    /** `fuckyou` */
    method ObjectTo(accused: u64, ch: Choice)
      requires Valid()
      modifies this`dominant, queue
      ensures Valid() && State() == Object(old(State()), accused, ch)
    {
      var d := NextIncarnation(1);
      if accused >= d {
        d := NextIncarnation((accused - d + 1) % U64);
      }
      PushMsg(Claim(conf.name, conf.address, d, Alive, None), ch);
    }

    method TakeAliveRecord(a: Claim, state: Claim)
      requires Valid()
      requires state.state == Dead <==> ComesUp(State(), a.name)
      modifies this`records, this`nodes, this`nodeNum, this`suspicions
      ensures Valid() && suspicions == old(suspicions) - {a.name}
      ensures State() == RecordAlive(old(State()), a)
    {
      if state.state == Dead {
        AddNodeState(a.name, state);
      }
      UpdateNodeState(a.name, a);
      EraseSuspicion(a.name);
    }

    method AliveNode(a: Claim, needBc: bool, ch: Choice)
      requires Valid() && a.state == Alive
      modifies this, queue
      ensures Valid() && State() == Handlers.AliveNode(old(State()), a, needBc, ch)
      ensures suspicions.Values <= old(suspicions).Values
    {
      var found := GetNodeState(a.name);
      var state := if found.Some? then found.value else a.(dominant := 0, state := Dead);
      if a.dominant <= state.dominant {
        return;
      }
      var needNotify := state.state == Dead;
      TakeAliveRecord(a, state);
      if needBc {
        PushMsg(a, ch);
      }
      if a.name == conf.name {
        SetDominant(a.dominant);
      }
      if needNotify && a.name != conf.name {
        Notify(Joined(a.name));
      }
    }

    method DeadNode(d: Claim, ch: Choice)
      requires Valid() && d.state == Dead
      modifies this, queue
      ensures Valid() && State() == Handlers.DeadNode(old(State()), d, ch)
      ensures suspicions.Values <= old(suspicions).Values
    {
      var found := GetNodeState(d.name);
      if found == None || d.dominant < found.value.dominant {
        return;
      }
      PassDominantCheck(d.name);
      if found.value.state == Dead {
        return;
      }
      if d.name == conf.name {
        ObjectTo(d.dominant, ch);
        return;
      }
      UpdateNodeState(d.name, d);
      RemoveNodeState(d.name);
      PushMsg(d, ch);
      Notify(Left(d.name));
    }

    method ConfirmSuspicion(s: Claim) returns (convicted: bool)
      requires Valid() && s.name in suspicions
      modifies suspicions[s.name]
      ensures Valid() && State() == Confirm(old(State()), s.name, s.from)
      ensures convicted == Convicts(State().suspicions[s.name])
    {
      convicted := suspicions[s.name].Confirm(s.from);
    }

    method SetUpSuspicion(s: Claim, ch: Choice)
      requires Valid() && s.name in records && s.name !in suspicions
      modifies this`records, this`suspicions, this`armed
      ensures Valid() && State() == RecordSuspicion(old(State()), s, ch)
      ensures fresh(suspicions.Values - old(suspicions).Values)
    {
      UpdateNodeState(s.name, s);
      var sus := new Suspicion(nodeNum, ch.need, s);
      suspicions := suspicions[s.name := sus];
      armed := armed + {Conviction(s)};
    }

    method SuspectNode(s: Claim, ch: Choice)
      requires Valid() && s.state != Dead
      modifies this, queue, suspicions.Values
      ensures Valid() && State() == Handlers.SuspectNode(old(State()), s, ch)
      ensures fresh(suspicions.Values - old(suspicions).Values)
    {
      var found := GetNodeState(s.name);
      if found == None || s.dominant < found.value.dominant {
        return;
      }
      if s.name in suspicions {
        var convicted := ConfirmSuspicion(s);
        if convicted {
          DeadNode(Conviction(suspicions[s.name].accused), ch);
        } else {
          PushMsg(s, ch);
        }
        return;
      }
      if found.value.state != Alive {
        return;
      }
      if conf.name == s.name {
        ObjectTo(s.dominant, ch);
      } else {
        PushMsg(s, ch);
      }
      SetUpSuspicion(s, ch);
    }

    // ----- what the event loop calls -----

    /** One claim of a received list. */
    method Merge(c: Claim, needBc: bool, ch: Choice)
      requires Valid()
      modifies this, queue, suspicions.Values
      ensures Valid() && State() == Handle(old(State()), Receive(c, needBc), ch)
      ensures fresh(suspicions.Values - old(suspicions).Values)
    {
      match c.state {
        case Alive => AliveNode(c, needBc, ch);
        case Suspect => SuspectNode(c, ch);
        case Dead => DeadNode(c, ch);
      }
    }

    method MergeStates(remote: seq<Claim>, needBc: bool, chs: seq<Choice>)
      requires Valid() && |chs| == |remote|
      modifies this, queue, suspicions.Values
      ensures Valid() && State() == Handlers.MergeStates(old(State()), remote, needBc, chs)
      ensures fresh(suspicions.Values - old(suspicions).Values)
    {
      for i := 0 to |remote|
        invariant Valid() && fresh(suspicions.Values - old(suspicions).Values)
        invariant State() == Handlers.MergeStates(old(State()), remote[..i], needBc, chs[..i])
      {
        assert remote[..i + 1][..i] == remote[..i] && chs[..i + 1][..i] == chs[..i];
        Merge(remote[i], needBc, chs[i]);
      }
      assert remote[..|remote|] == remote && chs[..|chs|] == chs;
    }

    /** The callback a suspicion's timer runs; nothing stops it from running again. */
    method Convict(c: Claim, ch: Choice)
      requires Valid() && c in armed && c.state == Dead
      modifies this, queue
      ensures Valid() && State() == Handle(old(State()), Handlers.Convict(c), ch)
      ensures suspicions.Values <= old(suspicions).Values
    {
      DeadNode(c, ch);
    }

    /** No pong came back for the probed copy. */
    method ProbeTimeout(c: Claim, ch: Choice)
      requires Valid() && c in probing && c.state != Dead
      modifies this, queue, suspicions.Values
      ensures Valid() && State() == Handle(old(State()), Timeout(c), ch)
      ensures fresh(suspicions.Values - old(suspicions).Values)
    {
      SuspectNode(c, ch);
    }

    /** A claim appended to a pong. */
    method OnPong(c: Claim, ch: Choice)
      requires Valid()
      modifies this`dominant, queue
      ensures Valid() && State() == Handle(old(State()), Alert(c), ch)
    {
      if c.name == conf.name && c.state == Dead {
        ObjectTo(c.dominant, ch);
      }
    }

    /** Merge what came with the ping; answer with what was known of its sender before. */
    method HandlePing(from: Name, packet: seq<Claim>, chs: seq<Choice>) returns (alert: Option<Claim>)
      requires Valid() && |chs| == |packet|
      modifies this, queue, suspicions.Values
      ensures Valid() && State() == Handlers.MergeStates(old(State()), packet, true, chs)
      ensures alert == DeadAlert(old(State()), from)
      ensures alert.Some? <==> from in old(records) && old(records)[from].state == Dead
      ensures alert.Some? ==> alert.value == old(records)[from]
      ensures fresh(suspicions.Values - old(suspicions).Values)
    {
      var ns := GetNodeState(from);
      MergeStates(packet, true, chs);
      alert := if ns.Some? && ns.value.state == Dead then ns else None;
    }

    /** A state sync served: merge, then reply with everything. */
    method HandleSync(remote: seq<Claim>, chs: seq<Choice>) returns (reply: map<Name, Claim>)
      requires Valid() && |chs| == |remote|
      modifies this, queue, suspicions.Values
      ensures Valid() && State() == Handlers.MergeStates(old(State()), remote, true, chs)
      ensures reply == State().records
      ensures fresh(suspicions.Values - old(suspicions).Values)
    {
      MergeStates(remote, true, chs);
      reply := records;
    }

    /** Join up to the point where the io thread starts. `reply` is what the peer
        answers to the sync, `None` if the sync fails. */
    method Join(peer: string, reply: Option<seq<Claim>>, ch: Choice, chs: seq<Choice>) returns (accepted: bool)
      requires Valid() && (reply.Some? ==> |chs| == |reply.value|)
      modifies this, queue, suspicions.Values
      ensures Valid() && (accepted <==> |Pieces(peer, ":")| == 2)
      ensures fresh(suspicions.Values - old(suspicions).Values)
      ensures !accepted ==> State() == old(State())
      ensures accepted && (Pieces(peer, ":") == [host, port] || reply == None) ==>
                State() == Start(old(State()), ch)
      ensures accepted && Pieces(peer, ":") != [host, port] && reply.Some? ==>
                State() == Handlers.MergeStates(Start(old(State()), ch), reply.value, false, chs)
    {
      var vec := Split(peer, ":");
      accepted := |vec| == 2;
      if !accepted {
        return;
      }
      var d := NextIncarnation(1);
      AliveNode(Claim(conf.name, conf.address, d, Alive, None), false, ch);
      if (vec[0] != host || port != vec[1]) && reply.Some? {
        MergeStates(reply.value, false, chs);
      }
    }

    // ----- probing and sending -----

    method RoundRobinNode(num: nat) returns (rst: seq<Name>)
      requires Valid()
      modifies this`cursor
      ensures rst == Picks(nodes, old(cursor), num)
      ensures Valid() && State() == old(State()).(cursor := NextCursor(nodes, old(cursor), num))
    {
      var size := |nodes|;
      if size <= num {
        rst := nodes;
      } else {
        rst := [];
        for i := 0 to num
          invariant |rst| == i && forall k :: 0 <= k < i ==> rst[k] == Pick(nodes, cursor, k)
        {
          rst := rst + [nodes[(cursor + i) % size]];
        }
        cursor := (cursor + num) % size;
      }
    }

    method ShrinkMaxAppendedMsg()
      requires Valid()
      modifies this`maxAppended
      ensures Valid() && State() == old(State()).(maxAppended := Shrunk(old(maxAppended)))
    {
      if maxAppended != 1 {
        maxAppended := maxAppended / 2;
      }
    }

    /** The messages peeked so far. */
    ghost predicate HavePeeked(msgs: seq<Claim>)
      reads this, queue
    {
      && queue.Valid() && queue.Aligned()
      && queue.peeked == |msgs| <= |queue.entries|
      && msgs == Msgs(Upcoming(queue.Contents())[..|msgs|])
    }

    method PeekNext(ghost msgs: seq<Claim>) returns (node: Option<Claim>)
      requires HavePeeked(msgs)
      modifies queue`peek, queue`peeked
      ensures queue.Valid() && queue.Contents() == old(queue.Contents())
      ensures node == None <==> |msgs| == |queue.entries|
      ensures HavePeeked(if node == None then msgs else msgs + [node.value])
    {
      MsgsNext(Upcoming(queue.Contents()), |msgs|);
      node := queue.Peek();
    }

    /** Peek as many messages as one ping may carry. */
    method PeekDue() returns (msgs: seq<Claim>)
      requires Valid()
      modifies queue`peek, queue`peeked
      ensures queue.Valid() && queue.Aligned() && queue.peeked == |msgs|
      ensures msgs == Due(old(State())) && State() == old(State())
    {
      var left := maxAppended;
      msgs := [];
      while left > 0
        invariant HavePeeked(msgs) && queue.Contents() == old(queue.Contents())
        invariant |msgs| == maxAppended - left
        decreases left
      {
        var node := PeekNext(msgs);
        if node == None {
          break;
        }
        msgs := msgs + [node.value];
        left := left - 1;
      }
      assert |msgs| == Min(maxAppended, |queue.entries|);
    }

    method SendPeeked()
      requires queue.Valid() && OneTimerEach()
      modifies queue
      ensures Valid() && State() == old(State()).(ring := After(old(State()).ring, old(queue.peeked)))
    {
      queue.ApplyPeek();
    }

    method GiveUpPeeked()
      requires queue.Valid() && OneTimerEach()
      modifies queue
      ensures Valid() && State() == old(State())
    {
      queue.ResetPeek();
    }

    /** Send all the messages that are due, or, when they do not fit, none. */
    method AppendGossipMsg(size: seq<Claim> -> nat, room: int) returns (packet: seq<Claim>)
      requires Valid()
      modifies this`maxAppended, queue
      ensures Valid() && State() == Append(old(State()), size, room)
      ensures packet == Appended(old(State()), size, room)
    {
      packet := PeekDue();
      if packet == [] {
        return;
      }
      if size(packet) > room {
        GiveUpPeeked();
        ShrinkMaxAppendedMsg();
        return [];
      }
      SendPeeked();
    }

    method ProbeNode(node: Claim, size: seq<Claim> -> nat, room: int) returns (packet: seq<Claim>)
      requires Valid()
      modifies this`maxAppended, this`probing, queue
      ensures Valid() && State() == Handlers.ProbeNode(old(State()), node, size, room)
      ensures packet == Appended(old(State()), size, room)
    {
      packet := AppendGossipMsg(size, room);
      probing := probing + {node};
    }

    /** The record of the node whose turn it is. */
    method PickNode() returns (node: Claim)
      requires Valid() && CanProbe(State())
      modifies this`cursor
      ensures node == old(State()).records[Picks(nodes, old(cursor), 1)[0]]
      ensures Valid() && State() == old(State()).(cursor := NextCursor(nodes, old(cursor), 1))
    {
      var candi := RoundRobinNode(1);
      var found := GetNodeState(candi[0]);
      node := found.value;
    }

    /** The probe ticker: pick a node and, if it is a live other one, ping it. */
    method ProbeTick(size: seq<Claim> -> nat, room: int) returns (packet: seq<Claim>)
      requires Valid() && CanProbe(State())
      modifies this`cursor, this`maxAppended, this`probing, queue
      ensures Valid() && State() == Probe(old(State()), size, room)
      ensures packet == if Probes(old(State())) then Appended(old(State()), size, room) else []
    {
      packet := [];
      var node := PickNode();
      if node.state == Alive && node.name != conf.name {
        packet := ProbeNode(node, size, room);
      }
    }
  }
}
