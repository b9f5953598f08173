# Verified model of cpp_gossip

cpp_gossip keeps a cluster's membership: every node probes its peers, spreads claims of the
form "node n was alive / suspect / dead at incarnation d", and tells its application who
joined and who left. This project models that program in Dafny and proves what it does keep,
over whole runs and for networks of any size. It covers three parts.

**The gossip protocol** (`src/gossiper.hpp`, `src/suspicion.hpp`).

- `handlers.dfy` says what each handler does to a node's state, as a function.
- `gossiper.dfy` is the class with the source's fields and loops; every method is proved to
  take the state to exactly what the handler function says.
- `handler_laws.dfy` says what each handler does by what can be seen before it runs: when a
  claim counts, what it changes, and what it leaves alone.
- `invariants.dfy` and `node_laws.dfy` prove what every handler keeps: the alive index, the
  suspicions, the convictions still held by timers, the counter and the notification log.
- `incarnations.dfy` is about the number a node announces for itself, `record_order.dfy` about
  the order in which claims are heard.
- `network.dfy`, `network_safety.dfy` and `network_laws.dfy` put any number of such nodes
  in a network that loses, repeats, delays and reorders, with crashes and restarts, and prove
  invariants of every reachable state.
- `delivery.dfy` and `prompt_answers.dfy` say what a node's pings carry, and to whom;
  `network_liveness.dfy` and `passed_on.dfy` prove from that what a network can still do from
  any state it reaches, `issued_again.dfy` what one particular run does; `packets.dfy` takes a
  packet handled as a whole apart into such steps.

**The retransmission queue** (`src/broadcast.hpp`). `broadcast.dfy` is the class, with its two
cursors; `broadcast_laws.dfy` proves that the cyclic list with a cursor is a first-in
first-out line, and from that fairness, draining, the peek transaction, supersession and the
conservation of send budgets. `probing.dfy` does the same for the round-robin probe.

**The vendored asio buffers and `Split`**. `buffers_iterator.dfy`, `buffer_copy.dfy`,
`streambuf.dfy` and `strings.dfy`.

## What the proofs show about the code

- No code path ever makes a claim in the suspect state or fills in a reporter, so suspicion
  never reaches another node (`NetworkLaws.SuspicionNeverSpreads`), and a suspicion that needs
  two reporters is only ever convicted by its timer (`NetworkLaws.TimeoutsNeverConvict`). The comment at
  `src/gossiper.hpp:215-216` ties a suspicion to a record in the suspect state; a probe timeout
  in fact leaves the record alive beside the suspicion, and the model follows the code.
- Timers whose cancellation is ignored are harmless to records: a conviction that fires late
  or twice changes only the node counter (`NodeLaws.ConvictionsActOnce`). The counter is not
  the number of listed nodes: it is that less the number of dead claims that were not outdated
  (`HandlerLaws.CounterOverALife`).
- Records do not converge in general: for every two claims of the kinds a network ever sends,
  `RecordOrder.WhenOrderMatters` says exactly when the order they are heard in matters.
- An objection outranks the accusation exactly while both incarnations are below 2^64 - 1
  (`NodeLaws.ObjectionOutranks`). No run of fewer than 2^64 - 1 steps gets there
  (`NetworkSafety.IncarnationsGrowSlowly`).
- A node's own announcement that comes back to it can lower `dominant_`
  (`src/gossiper.hpp:178-180`), and then an incarnation is issued twice, without a restart and
  in a run of two nodes (`IssuedAgain.IssuedTwiceInARun`). `Incarnations.WhenOwnIncarnationFalls` says exactly when
  `dominant_` falls, `Incarnations.ObjectionsAreNew` that incarnations stay new while it does not.
- The dead alert (`src/gossiper.hpp:411-418`) gives a node "a chance to object", no more. An
  objection goes out with the next few pings, and those go to all the others before the peer
  that sent the alert comes up again: handled at once, in a cluster that is all alive, the
  node's own pings never take it to that peer if there are more than four nodes
  (`PromptAnswers.PromptAnswerReaches`, with a cluster of five in
  `PromptAnswers.NeverReachesAmongFive`; the general condition is `PromptAnswers.WhenSentTo`).
  Then a third node has to pass it on, and from every state there is a way in which one that
  is pinged soon enough does (`PassedOn.PromptAlertHeals`). The two can settle it between them when the alert arrives a
  lap late (`NetworkLiveness.DeadAlertHeals`), for which the probe timeout has to be that long;
  by default it is one probe interval (`src/config.hpp:23-24`).
- `Pop` can leave the peek iterator on an erased element, also when nothing was peeked
  (`Broadcast.DanglingWithoutPeek`); the comment at `src/broadcast.hpp:34-35` only asks for a
  reset before `Pop`. The program itself never calls `Pop`.
- A `prepare` that raises `length_error` has already moved bytes under unmoved pointers and
  can lose data (`Streambufs.FailedPrepareLosesAByte`); `Streambufs.BasicStreambuf.Prepare` says
  exactly when it does not, for given bytes, and `Streambufs.FailedReserveAlwaysKeeps` for all.
- `commit` and `consume` move by the right amount exactly up to 2^31 - 1 bytes at a time,
  because the move is cast to `int`.
- `Join` and `config` accept "host:port:" and "host::" as addresses (`Strings.TwoFields`).

## Assumptions

- Handlers run one at a time, as with `gossiper<1>`, and both notifiers are registered before
  `Join`. `Join` runs once in a node's life.
- Iterators of the unordered map follow their element when others are inserted or erased;
  a new key may land anywhere. Rehashing is not modelled.
- The network delivers a claim only to a node it was sent to. Names are unique; the address
  in a record is taken to be that of the node it names, and is never inspected.
- Choices the model leaves open are parameters: where a new key lands, what converting
  log2(0) yields, and the encoded size of a packet. log10 and log2 are exact.

## Model

| member | source | states |
|---|---|---|
| `Broadcast.Times` | src/broadcast.hpp:81-87 | The grant is three times the least k for which 10^k reaches the cluster's size, taken as two at least |
| `Broadcast.CeilLog` | src/broadcast.hpp:87 | The least r with base^r >= n, the ceiling logarithm that scales the sends |
| `Broadcast.BroadcastQueue.Pop` | src/broadcast.hpp:112-128 | Takes the ring to `PopRing` of the old ring; the peek cursor is lost exactly when it stands on the message that is sent for the last time, and else follows its element |
| `Broadcast.DanglingWithoutPeek` | src/broadcast.hpp:112-128 | Two pushes, six pops and a reset, without any peek, leave the peek iterator on an erased element |
| `Broadcast.BroadcastQueue.Peek` | src/broadcast.hpp:38-57 | Within a transaction, returns the message the next pop not yet previewed will return; none once every message was seen; changes no message |
| `Broadcast.BroadcastQueue.ResetPeek` | src/broadcast.hpp:60-65 | Contents and budgets untouched, both cursors together again |
| `Broadcast.BroadcastQueue.ApplyPeek` | src/broadcast.hpp:68-76 | The loop performs as many pops as there were peeks, whatever expires or wraps on the way |
| `Broadcast.BroadcastQueue.Push` | src/broadcast.hpp:81-99 | Adds a new key anywhere or replaces an older message of the same key in place; both cursors, wherever they are, stay on their elements or at the end |
| `BroadcastLaws.RingIsLine` | src/broadcast.hpp:112-128 | Any number of pops on the cyclic list is that many turns of a first-in first-out line |
| `BroadcastLaws.PeekTransaction` | src/broadcast.hpp:38-76 | k applied peeks return the first k upcoming messages in order, each with one send less, expired ones gone, the rest first in line |
| `BroadcastLaws.LapServesEachOnce` | src/broadcast.hpp:112-128 | As many pops as there are messages return each queued key exactly once |
| `BroadcastLaws.RoundRobinFairness` | src/broadcast.hpp:112-128 | After any number of pops, the send counts of two keys still queued differ by at most one |
| `BroadcastLaws.Drain` | src/broadcast.hpp:112-128 | Without pushes the queue is empty after exactly the sum of its budgets in pops, each key returned exactly its budget times |
| `BroadcastLaws.ExecWellFormed` | src/broadcast.hpp:81-128 | Over every history keys stay distinct and every queued message has at least one send left |
| `BroadcastLaws.WhenPushReplaces` | src/broadcast.hpp:92-97 | A message for a queued key takes its place, with new sends, exactly if its incarnation is higher or its state worse at the same one |
| `BroadcastLaws.QueuedIsNewest` | src/broadcast.hpp:89-97 | Over every push and pop history, a queued message is the newest pushed for its key since the key was last absent |
| `BroadcastLaws.BudgetsBalance` | src/broadcast.hpp:81-128 | Over every history, sends left plus sends made plus sends displaced by newer messages equal sends granted |
| `Suspicions.Suspicion.constructor` | src/suspicion.hpp:21-31 | A new suspicion has no reporters and needs as many as the least k with 2^k >= node_num |
| `Suspicions.SomeNeeds` | src/suspicion.hpp:25 | Eight nodes ask for three reporters, nine for four, one for none |
| `Suspicions.Suspicion.Confirm` | src/suspicion.hpp:33-49 | Counts a reporter once and answers whether the threshold is reached |
| `Suspicions.FirstConviction` | src/suspicion.hpp:33-49 | The first convicting report is exactly the one that makes the number of distinct reporters max(1, k), k the least with 2^k >= node_num |
| `Gossip.Gossiper.AliveNode` | src/gossiper.hpp:135-187 | Takes the node's whole state to `Handlers.AliveNode` of the old state |
| `Gossip.Gossiper.SuspectNode` | src/gossiper.hpp:189-245 | Takes the whole state to `Handlers.SuspectNode`, including a conviction run from inside a confirmation; what that does is `HandlerLaws.TooFewReports`, `HandlerLaws.WhenReportsConvict`, `HandlerLaws.FirstSuspicion` and `HandlerLaws.IdleSuspicion` |
| `Gossip.Gossiper.DeadNode` | src/gossiper.hpp:247-281 | Takes the whole state to `Handlers.DeadNode`; what that does, both decrements of the counter included, is `HandlerLaws.WhatADeathCosts` |
| `Gossip.Gossiper.RemoveNodeState` | src/gossiper.hpp:598-614 | The search loop swaps the name with the last one and drops it, and the counter with it, if the name is listed |
| `Gossip.Gossiper.ObjectTo` | src/gossiper.hpp:629-647 | The two 64-bit increments issue `ObjectionDominant` and queue an alive claim under it |
| `Gossip.Gossiper.Merge` | src/gossiper.hpp:478-491 | One received claim is one `Receive` step |
| `Gossip.Gossiper.MergeStates` | src/gossiper.hpp:471-494 | The loop merges the received claims one after the other |
| `Gossip.Gossiper.Convict` | src/gossiper.hpp:232-236 | A timer firing is a `Convict` step |
| `Gossip.Gossiper.ProbeTimeout` | src/gossiper.hpp:333-338 | An unanswered probe is a suspicion by the copy taken when it was sent |
| `Gossip.Gossiper.OnPong` | src/gossiper.hpp:321-331 | A pong's claim makes the node object exactly when it says that this node is dead |
| `Gossip.Gossiper.HandlePing` | src/gossiper.hpp:727-757 | Merges the gossip and answers with a dead alert exactly when the sender's record was dead before the merge |
| `Gossip.Gossiper.HandleSync` | src/gossiper.hpp:698-707 | Merges the peer's states and replies with all records after the merge |
| `Gossip.Gossiper.Join` | src/gossiper.hpp:70-100 | Changes nothing unless the peer address has two fields; then starts the node and merges the reply of another peer without rebroadcasting |
| `Gossip.Gossiper.RoundRobinNode` | src/gossiper.hpp:649-665 | The loop picks `num` nodes from the cursor on, cyclically, and moves the cursor past them |
| `Gossip.Gossiper.PeekDue` | src/gossiper.hpp:370-387 | The loop peeks the first min(MAX_APPENDED_MSG_, queue size) upcoming messages, in order |
| `Gossip.Gossiper.AppendGossipMsg` | src/gossiper.hpp:370-409 | Sends the due messages and pops them, or sends nothing, pops nothing and shrinks the limit |
| `Gossip.Gossiper.ProbeTick` | src/gossiper.hpp:284-346 | Probes the picked node iff it is a live other node, keeping a copy of its record |
| `Invariants.SwapRemoveIsRemoval` | src/gossiper.hpp:602-607 | Swap-removal takes out that name and no other, and keeps the list free of duplicates |
| `Invariants.AliveKeeps` | src/gossiper.hpp:135-187 | An alive claim keeps every invariant and lowers no record |
| `Invariants.DeadKeeps` | src/gossiper.hpp:247-281 | A dead claim keeps every invariant and lowers no record |
| `Invariants.SuspectKeeps` | src/gossiper.hpp:189-245 | A suspicion keeps every invariant and lowers no record |
| `Invariants.HandleKeeps` | src/gossiper.hpp:135-292 | Every step keeps: the index lists exactly the non-dead once each; suspicions match their record's incarnation; every armed conviction is in force or spent; the counter law; joins and leaves alternate; the queue is well formed |
| `Invariants.MergeStatesKeeps` | src/gossiper.hpp:471-494 | A whole list of claims keeps every invariant and lowers no record |
| `Invariants.BuryKeepsCounter` | src/gossiper.hpp:257-278 | A burial keeps the counter, modulo 2^32, at the number of listed nodes minus the count of dead claims; what is counted is `HandlerLaws.HandleCounts` |
| `HandlerLaws.WhatADeathCosts` | src/gossiper.hpp:247-281 | A dead claim at or above the record ends a suspicion and costs the counter one, or two if it buries: goes on record, unlists and announces; any other dead claim changes nothing |
| `HandlerLaws.HandleCounts` | src/gossiper.hpp:257 | The count of dead claims rises by one exactly in a step that handles a dead claim at or above the record, received, from a timer or from a convicting report |
| `HandlerLaws.CounterOverALife` | src/gossiper.hpp:257-278 | Over any life from Join on the counter is, modulo 2^32, the number of listed nodes minus the number of such claims |
| `HandlerLaws.TooFewReports` | src/gossiper.hpp:204-213 | A report that leaves the distinct reporters below the need is counted and rebroadcast, with all its sends if it is news to the queue, and changes no record, listing, notification, counter or timer |
| `HandlerLaws.WhenReportsConvict` | src/gossiper.hpp:204-213 | A report records the death of a node not yet dead exactly if it is not outdated, there is a suspicion and with it the distinct reporters reach the need |
| `HandlerLaws.FirstSuspicion` | src/gossiper.hpp:215-244 | A suspicion of a live record goes on record, needs the least k with 2^k >= node_num reporters, arms its conviction, and is rebroadcast or, about this node, objected to |
| `HandlerLaws.IdleSuspicion` | src/gossiper.hpp:189-219 | An outdated suspicion, one of an unknown node, or a first one of a record that is not alive changes nothing |
| `HandlerLaws.WhatAnAliveClaimDoes` | src/gossiper.hpp:135-187 | An alive claim above the record goes on record, clears a suspicion, lists an unknown or dead node last and announces it unless it is this one; any other changes nothing |
| `HandlerLaws.WhenAlertsAreAnswered` | src/gossiper.hpp:321-331 | A pong's claim is objected to exactly if it says that this node is dead, and else changes nothing |
| `HandlerLaws.NewsGetsItsSends` | src/gossiper.hpp:170-176 | A record a step changes is queued as it is, with three times the least k for which 10^k reaches the cluster's size, taken as two at least, unless word as new was queued; of the own records, what it takes over |
| `HandlerLaws.HandleIsLocal` | src/gossiper.hpp:135-281 | A step changes record, listing and suspicion of the claim's subject and of nobody else |
| `HandlerLaws.HandleKeepsTimers` | src/gossiper.hpp:231-346 | No armed conviction or pending probe is lost, and only the probe ticker moves the cursor, adds probes or shrinks the limit |
| `HandlerLaws.FirstState` | src/gossiper.hpp:45-88 | The whole state after Join's local work |
| `HandlerLaws.RemovalPlaces` | src/gossiper.hpp:602-607 | Every name that stays keeps its position; the last takes the place of the removed |
| `HandlerLaws.PingsCarryTen` | src/gossiper.hpp:51 | From Join until a packet is too big, a ping carries the first ten queued messages, or all there are |
| `NodeLaws.HandleKeepsStarted` | src/gossiper.hpp:263-267 | After Join a node lists itself as alive for good |
| `NodeLaws.ProbeHasTarget` | src/gossiper.hpp:284-292 | probe() always finds a listed node, and that node has a record |
| `NodeLaws.ConvictionsActOnce` | src/gossiper.hpp:232-236 | A conviction of another node changes records, index and log exactly when its suspicion is still in force; else it touches only the counter, and nothing at all exactly when the record has a newer incarnation |
| `NodeLaws.SuspicionConvicts` | src/gossiper.hpp:231-244 | Every suspicion in force has a timer armed, and that timer records the accused as dead, unlists it and announces that it left |
| `NodeLaws.SilentNodeIsRemoved` | src/gossiper.hpp:284-346 | Probe, timeout and conviction in turn remove a node that stays silent |
| `NodeLaws.SpentStaysSpent` | src/suspicion.hpp:28-30 | A conviction that has become harmless stays so through every later step |
| `NodeLaws.ReportsConvict` | src/gossiper.hpp:204-213 | Enough reports record the accused as dead, unlist it and announce that it left |
| `NodeLaws.NewsIsQueued` | src/gossiper.hpp:170-176 | Whatever step changes a record, another node's or the own, leaves a message about it, no older, in the queue, unless the step merges without rebroadcasting; for an accusation of itself below 2^64 - 1 |
| `RecordOrder.WhenOrderMatters` | src/gossiper.hpp:135-281 | Any two alive or dead claims leave the same records in either order exactly when they do not clash: not different alive claims at one new incarnation, not different deaths that both reach a live record, not an alive claim that brings a node up and a death as new |
| `NodeLaws.JoinsMinusLeaves` | src/gossiper.hpp:183-186 | Joins told minus leaves told is one while the node is listed and zero otherwise |
| `NodeLaws.ObjectionOutranks` | src/gossiper.hpp:638-642 | An objection exceeds accusation and own incarnation exactly when both are below 2^64 - 1, and is then the next after both |
| `NodeLaws.ObjectionIsQueued` | src/gossiper.hpp:630-647 | Whatever step makes a node object, while accusation and own incarnation are below 2^64 - 1 its queue then holds a claim about itself that outranks the accusation, even when an older objection supersedes the new one |
| `NodeLaws.WhenDeathIsAnswered` | src/gossiper.hpp:247-267 | News of its own death that is older than the node's own record changes nothing; any other, and every dead alert, makes it move to the next incarnation after both (below 2^64 - 1) and push that claim, and changes none of its beliefs |
| `NodeLaws.RefutationWins` | src/gossiper.hpp:135-187 | A peer at or below the accusation takes the objector back, whatever it believed |
| `Incarnations.HandleKeepsOwnIncarnation` | src/gossiper.hpp:178-180 | dominant_ never falls behind the node's own record, so long as no objection is made at the incarnation 2^64 - 1 |
| `Incarnations.WhenOwnIncarnationFalls` | src/gossiper.hpp:178-180 | A step lowers dominant_ exactly when an alive claim about the node lies above its record and below dominant_, or an objection wraps around at 2^64 |
| `Incarnations.ObjectionsAreNew` | src/gossiper.hpp:629-647 | Over any life in which no step lowers dominant_, each objection exceeds every incarnation issued before |
| `Incarnations.IssuedTwice` | src/gossiper.hpp:178-180 | Dead at 1, dead at 1, alive at 2 about itself, dead at 2: the node issues 2, 3 and 3 again |
| `IssuedAgain.IssuedTwiceInARun` | src/gossiper.hpp:178-180 | For any two names and any start there is a run of the network, every packet going to whom it was sent, in which a node that does not restart issues incarnation 3 twice |
| `Network.HandleClaims` | src/gossiper.hpp:135-292 | Every claim a node holds after a step it held, was handed or issued, or is the conviction of such a claim |
| `NetworkSafety.ReachableIsSafe` | src/gossiper.hpp:79-281 | In every reachable state every record, message, suspicion, conviction and claim in flight carries an incarnation its subject issued, and every node invariant holds |
| `NetworkSafety.ReturnNeedsNewIncarnation` | src/gossiper.hpp:151-163 | A peer takes a dead node back only on a higher incarnation, and one that node issued |
| `NetworkSafety.RecordsNeverFall` | src/gossiper.hpp:598-613 | Over any run without a restart of its own, a node neither forgets nor lowers a record |
| `NetworkLaws.FlappingIsBounded` | src/gossiper.hpp:609-612 | Since it last started, a node told its application of at most as many joins, and leaves, of another as that other ever issued incarnations |
| `NetworkLaws.SuspicionNeverSpreads` | src/gossiper.hpp:333-337 | No record or claim in flight is ever in the suspect state, and no suspicion that needs two reporters ever has them |
| `NetworkLaws.TimeoutsNeverConvict` | src/gossiper.hpp:204-213 | In every reachable state a probe timeout, at a node whose suspicion of the target needs two reporters or more, records no death, unlists nobody and announces nothing |
| `NetworkLaws.AlertsTellDeaths` | src/gossiper.hpp:752-755 | In every reachable state every alert in flight tells its addressee that it is dead |
| `NetworkSafety.HeardWasSentToIt` | src/gossiper.hpp:284-346 | Whatever claim a node receives in a run was sent to that node before, with a ping or with all records |
| `NetworkSafety.IncarnationsGrowSlowly` | src/gossiper.hpp:629-647 | After i steps no node has issued an incarnation above i; in runs of fewer than 2^64 - 1 steps none issues the last one, and no dominant_ falls behind the node's own record |
| `NetworkLaws.StepIsAnswered` | src/gossiper.hpp:221-223 | In any state that is safe and free of suspect claims, an objecting node that never issued 2^64 - 1 then has an alive claim about itself queued that outranks the accusation |
| `NetworkLaws.ObjectionIsAnswered` | src/gossiper.hpp:221-223 | The same in every state that fewer than 2^64 - 1 steps reach, without that condition |
| `NetworkLaws.RefutationIsHeard` | src/gossiper.hpp:135-187 | A peer still at or below the accusation to which that claim was sent can receive it, and then lists the node as alive under it and suspects it no more |
| `Delivery.TickProgress` | src/gossiper.hpp:284-346 | Each probe tick sends a waiting message or uses up some of a finite patience, also when packets are too big and the limit shrinks, if each queued message fits by itself |
| `Delivery.WhenPinged` | src/gossiper.hpp:284-346 | Left to its probe timer, a node pings the peer at position q exactly at the ticks at which the walk stands there, and sends it a claim exactly if that ping carries it |
| `Delivery.TicksDrain` | src/gossiper.hpp:284-409 | Left to its probe timer, a node with a live peer empties its queue and comes to that peer within a bounded number of ticks, if each queued message fits by itself |
| `NetworkLiveness.QueuedIsSent` | src/gossiper.hpp:284-409 | A node with a live peer has a queued message in flight, to some node, within a lap of its index for every message queued and every unit of the packet limit, if each queued message fits by itself |
| `PromptAnswers.CarriedByNextPings` | src/gossiper.hpp:370-409 | A message with b sends left, in a queue any part of which fits into a packet, is in exactly the next b pings |
| `PromptAnswers.WhenSentTo` | src/gossiper.hpp:284-409 | From a queue any part of which fits into a packet, a message is ever sent to the peer at position q exactly if fewer others are pinged before that peer's turn than it has sends left |
| `PromptAnswers.PromptAnswerReaches` | src/gossiper.hpp:318-330 | Cluster all alive, peer just pinged, alert handled at once, queue fitting into a packet: the answer is ever pinged to that peer exactly if it gets more sends than there are others, that is, with a right counter, if there are at most four nodes |
| `PromptAnswers.NeverReachesAmongFive` | src/gossiper.hpp:318-330 | With an encoding that grows by a hundred bytes a claim and packets of 1400, the first of five live nodes, told at once, never pings its answer to the one that told it |
| `PassedOn.PromptAlertHeals` | src/gossiper.hpp:411-436 | From any safe state in which p holds n dead, with an alert that is handled at once, there is a way on of bounded length by which a third node x hears n's answer and pings it on to p, which then lists n as alive under a higher incarnation; if x lists p, has no newer word of n, and fewer nodes are pinged between p and x than the answer has sends |
| `NetworkLiveness.DeadAlertHeals` | src/gossiper.hpp:411-436 | From any safe state in which p holds n dead and n holds p alive there is a way on that makes p list n as alive under a higher incarnation: a bounded number of n's ticks, p's answer to its ping, a lap of ticks, the alert, n's next ping, which goes to p, and its receipt; if n never issued 2^64 - 1 and each message queued at n, and each claim of n about itself, fits by itself |
| `NetworkLiveness.RunsCanHeal` | src/gossiper.hpp:411-436 | The same, with the same bound, from every state that fewer than 2^64 - 1 steps reach, without the condition on incarnations |
| `Packets.PingIsItsSteps` | src/gossiper.hpp:727-757 | The answer to a ping and its claims received one by one lead the network to where handling the ping as a whole does: the state `Gossip.Gossiper.HandlePing` ensures, and its alert in flight |
| `Packets.SyncIsItsSteps` | src/gossiper.hpp:698-707 | The claims of a state sync received one by one, then all records sent back, lead to the state and the reply `Gossip.Gossiper.HandleSync` ensures |
| `Probing.WalkIsCyclic` | src/gossiper.hpp:655-661 | The picks of consecutive calls form one cyclic walk, also from a cursor beyond an index that has shrunk |
| `Probing.EveryNodeIsProbed` | src/gossiper.hpp:655-661 | Calls that together pick as many nodes as there are pick every node |
| `Probing.OneLapOfProbes` | src/gossiper.hpp:284-287 | Any n single picks on n nodes pick each exactly once |
| `Probing.AppendIsAllOrNone` | src/gossiper.hpp:389-409 | A ping sends all due messages, no key twice, exactly when there are any and their size is at most the room, else none; the limit stays at least one and is halved exactly when they do not fit |
| `Probing.AllPicked` | src/gossiper.hpp:654-656 | Asked for as many as there are, roundrobinNode gives all and leaves the cursor |
| `Iterators.BuffersIterator.Begin` | thirdparty/asio/buffers_iterator.hpp:127-144 | Stands at byte 0, past any leading empty chunks |
| `Iterators.BuffersIterator.End` | thirdparty/asio/buffers_iterator.hpp:147-163 | Stands past the last byte |
| `Iterators.BuffersIterator.Dereference` | thirdparty/asio/buffers_iterator.hpp:301-304 | At position p, returns byte p of the concatenated chunks |
| `Iterators.BuffersIterator.Increment` | thirdparty/asio/buffers_iterator.hpp:313-333 | One byte on, in the one valid state of that position, which is the next byte's chunk and offset past any empty chunks |
| `Iterators.BuffersIterator.Decrement` | thirdparty/asio/buffers_iterator.hpp:336-363 | One byte back, to the byte before's chunk and offset past any empty chunks |
| `Iterators.BuffersIterator.Advance` | thirdparty/asio/buffers_iterator.hpp:366-445 | Any in-range distance either way: lands in the state that many single steps lead to; both loops terminate past any mix of empty chunks |
| `Iterators.BuffersIterator.At` | thirdparty/asio/buffers_iterator.hpp:178-183 | Indexing relative to the iterator is indexing the concatenation |
| `Iterators.LocatedUnique` | thirdparty/asio/buffers_iterator.hpp:453-458 | A position has exactly one valid state |
| `Iterators.EqualIffSamePlace` | thirdparty/asio/buffers_iterator.hpp:264-304 | Comparing positions is comparing places |
| `Iterators.StepsLocated` | thirdparty/asio/buffers_iterator.hpp:313-363 | n single steps from any place, on or back, lead to the place of the position n on or back |
| `Iterators.StepsUndo` | thirdparty/asio/buffers_iterator.hpp:313-363 | A step back undoes a step on, and a step on a step back, whatever empty chunks lie between |
| `Iterators.DistanceLands` | thirdparty/asio/buffers_iterator.hpp:453-456 | As many single steps as the distance to another iterator lead to its state |
| `Iterators.AdvanceTo` | thirdparty/asio/buffers_iterator.hpp:366-456 | advance(distance to another) lands in its state |
| `Iterators.JumpIsSteps` | thirdparty/asio/buffers_iterator.hpp:313-445 | After n increments of one iterator and advance(n) of another, both stand n further in the same state |
| `Iterators.JumpBackIsSteps` | thirdparty/asio/buffers_iterator.hpp:336-445 | After n decrements of one and advance(-n) of another, both stand n back in the same state |
| `BufferCopy.BufferSize` | thirdparty/asio/buffer.hpp:383-394 | The loop adds up to the number of addresses the list covers |
| `BufferCopy.CopyBuffer` | thirdparty/asio/buffer.hpp:1295-1304 | Copies as many bytes as the smaller buffer has, from `data` on to `data` on, and changes no other byte, if none of the bytes copied is stored where one is read |
| `BufferCopy.CopyBufferMax` | thirdparty/asio/buffer.hpp:1761-1765 | The same, and at most the limit |
| `BufferCopy.GatherList` | thirdparty/asio/buffer.hpp:1403-1421 | A list into one buffer: the smaller total is copied, in order |
| `BufferCopy.ScatterBuffer` | thirdparty/asio/buffer.hpp:1574-1592 | One buffer into a list, likewise |
| `BufferCopy.CopyLists` | thirdparty/asio/buffer.hpp:1694-1736 | List to list with two cursors: terminates and copies the smaller total |
| `BufferCopy.CopyListsMax` | thirdparty/asio/buffer.hpp:2187-2231 | The same with a limit: the least of the three |
| `BufferCopy.StoredMeans` | thirdparty/asio/buffer.hpp:1672-1692 | The byte last copied to an address stands there, also where target chunks overlap; every byte of memory outside the copied target addresses is unchanged |
| `BufferCopy.StoredDenotes` | thirdparty/asio/buffer.hpp:1672-1692 | Read as strings, the first n bytes of a target without overlaps become the source's, the rest of it stays |
| `BufferCopy.SourceDenotes` | thirdparty/asio/buffer.hpp:1672-1692 | The source bytes that are copied stay |
| `BufferCopy.AddressAt` | thirdparty/asio/buffer.hpp:1694-1736 | Byte j of buffer i of a list lies at its data plus j and comes after all bytes of the buffers before it |
| `BufferCopy.AddressIs` | thirdparty/asio/buffer.hpp:1694-1736 | Every address a list covers is such a byte |
| `BufferCopy.CopyMeans` | thirdparty/asio/buffer.hpp:1694-1736 | After a copy from list to list byte j of target buffer i is byte j' of source buffer i' if as many bytes lie before both, fewer than are copied, and no two copied target bytes coincide |
| `BufferCopy.CopySpares` | thirdparty/asio/buffer.hpp:1694-1736 | A byte that is no copied byte of any target buffer stays |
| `BufferCopy.ListFormAgrees` | thirdparty/asio/buffer.hpp:1250-1263 | On one-buffer lists the list form and the one-buffer form, run on equal memories, return the same and leave equal memories |
| `BufferCopy.OneSidedFormsAgree` | thirdparty/asio/buffer.hpp:1250-1263 | So do the gathering and the scattering form |
| `BufferCopy.LimitedFormAgrees` | thirdparty/asio/buffer.hpp:1250-1263 | So do the limited list form and the one-buffer form with a clipped target |
| `Streambufs.BasicStreambuf.constructor` | thirdparty/asio/basic_streambuf.hpp:131-141 | Starts empty within the maximum size, with room for 128 bytes or that maximum |
| `Streambufs.BasicStreambuf.Data` | thirdparty/asio/basic_streambuf.hpp:182-186 | Returns the readable bytes; over every run, until a failed prepare loses bytes or 2^31 bytes are moved at once, the bytes taken out followed by them are the bytes put in |
| `Streambufs.BasicStreambuf.Prepare` | thirdparty/asio/basic_streambuf.hpp:204-209 | Raises exactly when size() + n exceeds max_size(); otherwise makes room and keeps the readable bytes; when it raises it keeps them exactly when each byte the move overwrote was overwritten by its equal |
| `Streambufs.BasicStreambuf.Reserve` | thirdparty/asio/basic_streambuf.hpp:299-337 | Compaction and growth keep the readable bytes; the exact state a raise leaves behind |
| `Streambufs.BasicStreambuf.Commit` | thirdparty/asio/basic_streambuf.hpp:223-229 | Appends the first n output bytes, or all there are; moves by that number exactly up to 2^31 - 1 |
| `Streambufs.ToIntIsCast` | thirdparty/asio/basic_streambuf.hpp:227 | The cast to int keeps the low 32 bits, read as a signed number |
| `Streambufs.BasicStreambuf.Consume` | thirdparty/asio/basic_streambuf.hpp:238-245 | Removes the first n bytes, or all there are; moves by that number exactly up to 2^31 - 1 |
| `Streambufs.BasicStreambuf.Underflow` | thirdparty/asio/basic_streambuf.hpp:254-265 | Shows the first readable byte without taking it |
| `Streambufs.BasicStreambuf.Overflow` | thirdparty/asio/basic_streambuf.hpp:274-297 | Appends one byte; raises exactly when a byte is offered and size() is max_size(), and then keeps what can be read; grows by 128 bytes or all that may still come |
| `Streambufs.FailedReserveKeepsBytes` | thirdparty/asio/basic_streambuf.hpp:312-331 | After a raise the readable bytes survive exactly when each one the move overwrote was overwritten by its equal |
| `Streambufs.FailedReserveAlwaysKeeps` | thirdparty/asio/basic_streambuf.hpp:312-331 | They survive whatever they are exactly when nothing had been consumed or at least as much as was left |
| `Streambufs.FailedPrepareLosesAByte` | thirdparty/asio/basic_streambuf.hpp:204-209 | A queue of maximum size 3 that took three bytes and gave one loses one of the other two when prepare(2) raises |
| `Strings.Split` | src/utils.hpp:19-33 | The loop computes `Pieces` for every non-empty separator |
| `Strings.SplitIsSeparatorFree` | src/utils.hpp:19-33 | No piece contains the separator |
| `Strings.JoinOfSplit` | src/utils.hpp:19-33 | Joining the pieces rebuilds the input up to one trailing separator |
| `Strings.SplitOfJoin` | src/utils.hpp:19-33 | For a one-character separator, Split undoes Join exactly on separator-free lists whose last piece is not empty |
| `Strings.TwoFields` | src/gossiper.hpp:71-77 | Which addresses count as host and port: "host:port", or with one more colon |

## Left out

- Sockets, timers, tickers and threads: a timer, probe timeout or packet is a step that may happen.
- Interleaving inside a handler (`gossiper<N>` with N > 1): handlers are atomic.
- FlatBuffers encoding, packet headers and unknown state bytes: packets are lists of claims.
- Timestamps: stored and sent, never read.
- Time: a pong may arrive after any number of ticks, also when its probe has timed out, where the program would drop it.
- `gossip()`, `indirectPing`, leaving, configuration parsing beyond `Split`, logging: stubs or no decisions.
- C++ object lifetime: callbacks own copies of the claims they hold.
- The static probe cursor shared by several gossipers of one process: a node may start from any cursor.
- Gossip.Gossiper.MergeStates: one atomic method, while the network delivers claim by claim, so it also has runs in which other packets come in between.
- BufferCopy.CopyLists: as in the other copying forms, no byte copied is stored where any byte copied is read, as `thirdparty/asio/buffer.hpp:1271-1272` asks of the whole call; `memcpy` asks it of each pair of chunks.
- Strings.Split: positions are unbounded, while the source keeps them in `int`; inputs of 2^31 characters and more are not modelled.
- Suspicions.Suspicion.Confirm: does not model 32-bit wrap-around of the reporter count, which takes 2^32 distinct reporters.
- Streambufs.BasicStreambuf.Commit: pointer arithmetic that overflows `size_t` is not modelled.
