/** The queue as a scheduler: the cyclic list with a cursor is a plain first-in
    first-out line in which a message re-enters at the back until its budget is
    spent. Fairness, draining and the peek transaction follow from that line. */
module BroadcastLaws {
  import opened Claims
  import opened Broadcast

  // ----- the line -----

  function Recycle(e: Entry): seq<Entry> {
    if e.times <= 1 then [] else [Entry(e.msg, e.times - 1)]
  }

  function Turn(f: seq<Entry>): seq<Entry> {
    if f == [] then [] else f[1..] + Recycle(f[0])
  }

  function Rest(f: seq<Entry>, n: nat): seq<Entry>
    decreases n
  {
    if n == 0 then f else Rest(Turn(f), n - 1)
  }

  function Served(f: seq<Entry>, n: nat): seq<Claim>
    decreases n
  {
    if n == 0 || f == [] then [] else [f[0].msg] + Served(Turn(f), n - 1)
  }

  /** What is left of `f` after each of its entries was served once. */
  function Survivors(f: seq<Entry>): seq<Entry> {
    if f == [] then [] else Recycle(f[0]) + Survivors(f[1..])
  }

  function Count(ms: seq<Claim>, name: Name): nat {
    if ms == [] then 0 else (if ms[0].name == name then 1 else 0) + Count(ms[1..], name)
  }

  function Total(f: seq<Entry>): nat {
    if f == [] then 0 else f[0].times + Total(f[1..])
  }

  /** The remaining sends of one key. */
  function Budget(f: seq<Entry>, name: Name): nat {
    if f == [] then 0 else (if f[0].msg.name == name then f[0].times else 0) + Budget(f[1..], name)
  }

  predicate InLine(f: seq<Entry>, a: Name) {
    Index(f, a) < |f|
  }

  predicate Before(f: seq<Entry>, a: Name, b: Name) {
    Index(f, a) < Index(f, b) < |f|
  }

  /** Distinct keys, and a positive budget for each. */
  predicate Sound(f: seq<Entry>) {
    f == [] || (f[0].times >= 1 && !InLine(f[1..], f[0].msg.name) && Sound(f[1..]))
  }

  // ----- the ring refines the line -----

  function Rotation(es: seq<Entry>, c: nat): seq<Entry>
    requires c <= |es|
  {
    es[c..] + es[..c]
  }

  lemma UpcomingIsRotation(r: Ring)
    ensures Upcoming(r) == Rotation(r.entries, r.cur)
  {}

  lemma RotateRemoved(es: seq<Entry>, c: nat)
    requires c < |es|
    ensures Rotation(RemoveAt(es, c), c) == Rotation(es, c)[1..]
  {
    assert RemoveAt(es, c)[..c] == es[..c];
    assert RemoveAt(es, c)[c..] == es[c + 1..];
  }

  lemma RotateUpdated(es: seq<Entry>, c: nat, e: Entry)
    requires c < |es|
    ensures Rotation(es[c := e], c + 1) == Rotation(es, c)[1..] + [e]
  {
    assert es[c := e][..c + 1] == es[..c] + [e];
    assert es[c := e][c + 1..] == es[c + 1..];
    assert Rotation(es, c)[1..] == es[c + 1..] + es[..c];
  }

  lemma PopIsTurn(r: Ring)
    requires r.entries != []
    ensures Upcoming(r) != [] && PopRing(r).0 == Some(Upcoming(r)[0].msg)
    ensures Upcoming(PopRing(r).1) == Turn(Upcoming(r))
  {
    var c := Norm(r.cur, |r.entries|);
    var e := r.entries[c];
    UpcomingAt(r, 0);
    UpcomingIsRotation(PopRing(r).1);
    if e.times <= 1 {
      RotateRemoved(r.entries, c);
      assert Upcoming(PopRing(r).1) == Upcoming(r)[1..];
    } else {
      RotateUpdated(r.entries, c, Entry(e.msg, e.times - 1));
    }
  }

  lemma {:induction false} SoundFromQuantifiers(f: seq<Entry>)
    requires forall i :: 0 <= i < |f| ==> f[i].times >= 1
    requires forall i, j :: 0 <= i < j < |f| ==> f[i].msg.name != f[j].msg.name
    ensures Sound(f)
  {
    if f != [] {
      SoundFromQuantifiers(f[1..]);
      assert f[0].msg.name == f[0].msg.name;
    }
  }

  lemma UpcomingDiffer(r: Ring, i: nat, j: nat)
    requires WellFormed(r) && i < j < |r.entries|
    ensures |Upcoming(r)| == |r.entries| && Upcoming(r)[i].msg.name != Upcoming(r)[j].msg.name
  {
    UpcomingAt(r, i);
    UpcomingAt(r, j);
    var c, n := Norm(r.cur, |r.entries|), |r.entries|;
    assert Ahead(c, i, n) < Ahead(c, j, n) || Ahead(c, j, n) < Ahead(c, i, n);
  }

  lemma UpcomingSound(r: Ring)
    requires WellFormed(r)
    ensures Sound(Upcoming(r))
  {
    var f := Upcoming(r);
    forall i | 0 <= i < |f| ensures f[i].times >= 1 {
      UpcomingAt(r, i);
    }
    forall i, j | 0 <= i < j < |f| ensures f[i].msg.name != f[j].msg.name {
      UpcomingDiffer(r, i, j);
    }
    SoundFromQuantifiers(f);
  }

  lemma InUpcoming(r: Ring, k: nat)
    requires k < |r.entries|
    ensures InLine(Upcoming(r), r.entries[k].msg.name)
  {
    var c, n := Norm(r.cur, |r.entries|), |r.entries|;
    var j := if k >= c then k - c else k + (n - c);
    UpcomingAt(r, j);
    InLineAt(Upcoming(r), j);
  }

  lemma InLineAt(f: seq<Entry>, j: nat)
    requires j < |f|
    ensures InLine(f, f[j].msg.name)
  {
    if Index(f, f[j].msg.name) == |f| {
      IndexIsFirst(f, f[j].msg.name, j);
    }
  }

  /** Any number of pops on the ring is that many turns of the line. */
  lemma {:induction false} RingIsLine(r: Ring, n: nat)
    ensures Upcoming(After(r, n)) == Rest(Upcoming(r), n)
    ensures Popped(r, n) == Served(Upcoming(r), n)
    decreases n
  {
    if n > 0 {
      var r' := PopRing(r).1;
      if r.entries != [] {
        PopIsTurn(r);
      }
      RingIsLine(r', n - 1);
    }
  }

  // ----- one lap -----

  lemma TurnSlices(f: seq<Entry>, k: nat)
    requires 0 < k <= |f|
    ensures k - 1 <= |Turn(f)|
    ensures Turn(f)[..k - 1] == f[1..k] == f[..k][1..]
    ensures Turn(f)[k - 1..] == f[k..] + Recycle(f[0])
  {}

  lemma {:induction false} Lap(f: seq<Entry>, k: nat)
    requires k <= |f|
    ensures Served(f, k) == Msgs(f[..k])
    ensures Rest(f, k) == f[k..] + Survivors(f[..k])
    decreases k
  {
    if k == 0 {
      assert f[..0] == [] && f[0..] + [] == f;
    } else {
      TurnSlices(f, k);
      Lap(Turn(f), k - 1);
      assert Rest(f, k) == (f[k..] + Recycle(f[0])) + Survivors(f[1..k]);
      assert Survivors(f[..k]) == Recycle(f[0]) + Survivors(f[1..k]);
      assert Msgs(f[..k]) == [f[0].msg] + Msgs(f[1..k]);
    }
  }

  /** The transaction: k peeks show the first k upcoming messages (`Peek`), and
      applying them returns exactly those, in that order, each with one send less. */
  lemma PeekTransaction(r: Ring, k: nat)
    requires k <= |r.entries|
    ensures |Upcoming(r)| == |r.entries|
    ensures Popped(r, k) == Msgs(Upcoming(r)[..k])
    ensures Upcoming(After(r, k)) == Upcoming(r)[k..] + Survivors(Upcoming(r)[..k])
  {
    RingIsLine(r, k);
    Lap(Upcoming(r), k);
  }

  lemma {:induction false} CountOfSound(f: seq<Entry>, name: Name)
    requires Sound(f)
    ensures Count(Msgs(f), name) == if InLine(f, name) then 1 else 0
  {
    if f != [] {
      assert Msgs(f)[1..] == Msgs(f[1..]);
      CountOfSound(f[1..], name);
    }
  }

  /** As many pops as there are messages return every queued key exactly once. */
  lemma LapServesEachOnce(r: Ring, i: nat)
    requires WellFormed(r) && i < |r.entries|
    ensures Count(Popped(r, |r.entries|), r.entries[i].msg.name) == 1
  {
    var f := Upcoming(r);
    UpcomingSound(r);
    PeekTransaction(r, |f|);
    assert f[..|f|] == f;
    InUpcoming(r, i);
    CountOfSound(f, r.entries[i].msg.name);
  }

  // ----- fairness -----

  lemma {:induction false} IndexAppend(f: seq<Entry>, e: Entry, a: Name)
    ensures Index(f + [e], a) ==
            if InLine(f, a) then Index(f, a) else if e.msg.name == a then |f| else |f| + 1
  {
    if f == [] {
      assert f + [e] == [e];
    } else {
      assert (f + [e])[1..] == f[1..] + [e];
      IndexAppend(f[1..], e, a);
    }
  }

  lemma {:induction false} SoundAppend(f: seq<Entry>, e: Entry)
    requires Sound(f) && e.times >= 1 && !InLine(f, e.msg.name)
    ensures Sound(f + [e])
  {
    if f == [] {
      assert f + [e] == [e];
    } else {
      assert (f + [e])[1..] == f[1..] + [e];
      SoundAppend(f[1..], e);
      IndexAppend(f[1..], e, f[0].msg.name);
    }
  }

  lemma TurnSound(f: seq<Entry>)
    requires Sound(f)
    ensures Sound(Turn(f))
  {
    if f != [] && f[0].times > 1 {
      SoundAppend(f[1..], Entry(f[0].msg, f[0].times - 1));
    } else if f != [] {
      assert Turn(f) == f[1..];
    }
  }

  /** Where a turn puts each key: the head goes to the back, if anywhere, and
      everyone else moves up by one. */
  lemma TurnMoves(f: seq<Entry>, a: Name)
    requires f != [] && Sound(f)
    ensures InLine(Turn(f), a) ==> InLine(f, a)
    ensures InLine(f, a) && f[0].msg.name != a ==> Index(Turn(f), a) == Index(f, a) - 1
    ensures InLine(Turn(f), f[0].msg.name) ==> Index(Turn(f), f[0].msg.name) == |f| - 1
  {
    var h := f[0];
    if h.times > 1 {
      IndexAppend(f[1..], Entry(h.msg, h.times - 1), a);
      IndexAppend(f[1..], Entry(h.msg, h.times - 1), h.msg.name);
    } else {
      assert Turn(f) == f[1..];
    }
  }

  lemma {:induction false} RestAddsNothing(f: seq<Entry>, n: nat, a: Name)
    requires Sound(f) && InLine(Rest(f, n), a)
    ensures InLine(f, a)
    decreases n
  {
    if n > 0 {
      TurnSound(f);
      RestAddsNothing(Turn(f), n - 1, a);
      if f != [] {
        TurnMoves(f, a);
      }
    }
  }

  /** How often `a` is among the next n sends. */
  function Sends(f: seq<Entry>, n: nat, a: Name): nat
    decreases n
  {
    if n == 0 || f == [] then 0
    else (if f[0].msg.name == a then 1 else 0) + Sends(Turn(f), n - 1, a)
  }

  lemma {:induction false} SendsIsCount(f: seq<Entry>, n: nat, a: Name)
    ensures Count(Served(f, n), a) == Sends(f, n, a)
    decreases n
  {
    if n > 0 && f != [] {
      SendsIsCount(Turn(f), n - 1, a);
      assert Served(f, n)[1..] == Served(Turn(f), n - 1);
    }
  }

  /** A turn keeps the order of two keys, or sends the first of them behind the second. */
  lemma TurnOrder(f: seq<Entry>, n: nat, a: Name, b: Name)
    requires Sound(f) && Before(f, a, b) && n > 0 && InLine(Rest(f, n), a)
    ensures Sound(Turn(f)) && f[0].msg.name != b
    ensures if f[0].msg.name == a then Before(Turn(f), b, a) else Before(Turn(f), a, b)
  {
    TurnSound(f);
    RestAddsNothing(Turn(f), n - 1, a);
    TurnMoves(f, a);
    TurnMoves(f, b);
  }

  /** Of two keys still queued after n sends, the one that was ahead has been sent
      as often as the other, or once more. */
  lemma {:induction false} Fair(f: seq<Entry>, n: nat, a: Name, b: Name)
    requires Sound(f) && Before(f, a, b)
    requires InLine(Rest(f, n), a) && InLine(Rest(f, n), b)
    ensures 0 <= Sends(f, n, a) - Sends(f, n, b) <= 1
    decreases n
  {
    if n > 0 {
      var g := Turn(f);
      TurnOrder(f, n, a, b);
      var aheadA, aheadB := Sends(g, n - 1, a), Sends(g, n - 1, b);
      if f[0].msg.name == a {
        Fair(g, n - 1, b, a);
        assert Sends(f, n, a) == 1 + aheadA && Sends(f, n, b) == aheadB;
      } else {
        Fair(g, n - 1, a, b);
        assert Sends(f, n, a) == aheadA && Sends(f, n, b) == aheadB;
      }
    }
  }

  lemma {:induction false} SameIndexSameKey(f: seq<Entry>, a: Name, b: Name)
    requires Index(f, a) == Index(f, b) < |f|
    ensures a == b
  {}

  /** Round robin: with no push in between, the send counts of two keys that are
      still queued never differ by more than one. */
  lemma RoundRobinFairness(r: Ring, n: nat, a: Name, b: Name)
    requires WellFormed(r) && Has(After(r, n), a) && Has(After(r, n), b)
    ensures -1 <= Count(Popped(r, n), a) - Count(Popped(r, n), b) <= 1
  {
    var f, s := Upcoming(r), After(r, n);
    UpcomingSound(r);
    RingIsLine(r, n);
    InUpcoming(s, Index(s.entries, a));
    InUpcoming(s, Index(s.entries, b));
    RestAddsNothing(f, n, a);
    RestAddsNothing(f, n, b);
    SendsIsCount(f, n, a);
    SendsIsCount(f, n, b);
    if Index(f, a) < Index(f, b) {
      Fair(f, n, a, b);
    } else if Index(f, b) < Index(f, a) {
      Fair(f, n, b, a);
    } else {
      SameIndexSameKey(f, a, b);
    }
  }

  // ----- draining -----

  lemma {:induction false} TotalOfConcat(f: seq<Entry>, g: seq<Entry>)
    ensures Total(f + g) == Total(f) + Total(g)
  {
    if f == [] {
      assert f + g == g;
    } else {
      assert (f + g)[1..] == f[1..] + g;
      TotalOfConcat(f[1..], g);
    }
  }

  lemma {:induction false} BudgetOfConcat(f: seq<Entry>, g: seq<Entry>, name: Name)
    ensures Budget(f + g, name) == Budget(f, name) + Budget(g, name)
  {
    if f == [] {
      assert f + g == g;
    } else {
      assert (f + g)[1..] == f[1..] + g;
      BudgetOfConcat(f[1..], g, name);
    }
  }

  lemma TurnSpendsOne(f: seq<Entry>, name: Name)
    requires Sound(f) && f != []
    ensures Total(Turn(f)) == Total(f) - 1
    ensures Budget(Turn(f), name) == Budget(f, name) - if f[0].msg.name == name then 1 else 0
  {
    TotalOfConcat(f[1..], Recycle(f[0]));
    BudgetOfConcat(f[1..], Recycle(f[0]), name);
  }

  /** Every send takes one from its own key's budget and from nothing else. */
  lemma {:induction false} SpentIsServed(f: seq<Entry>, n: nat, name: Name)
    requires Sound(f) && n <= Total(f)
    ensures Sound(Rest(f, n)) && Total(Rest(f, n)) == Total(f) - n
    ensures Sends(f, n, name) + Budget(Rest(f, n), name) == Budget(f, name)
    decreases n
  {
    if n > 0 {
      TurnSpendsOne(f, name);
      TurnSound(f);
      SpentIsServed(Turn(f), n - 1, name);
    }
  }

  lemma {:induction false} ServedLength(f: seq<Entry>, n: nat)
    requires Sound(f) && n <= Total(f)
    ensures |Served(f, n)| == n
    decreases n
  {
    if n > 0 {
      TotalOfConcat(f[1..], Recycle(f[0]));
      TurnSound(f);
      ServedLength(Turn(f), n - 1);
    }
  }

  lemma DrainLine(f: seq<Entry>, n: nat, name: Name)
    requires Sound(f) && n <= Total(f)
    ensures Rest(f, n) == [] <==> n == Total(f)
    ensures |Served(f, n)| == n
    ensures n == Total(f) ==> Count(Served(f, n), name) == Budget(f, name)
  {
    SpentIsServed(f, n, name);
    ServedLength(f, n);
    SendsIsCount(f, n, name);
    var g := Rest(f, n);
    assert g != [] ==> g[0].times >= 1;
  }

  /** Left alone, the queue is empty after exactly as many pops as its budgets sum
      to and not before, and has returned each key exactly its budget times. */
  lemma Drain(r: Ring, n: nat, name: Name)
    requires WellFormed(r) && n <= Total(Upcoming(r))
    ensures After(r, n).entries == [] <==> n == Total(Upcoming(r))
    ensures |Popped(r, n)| == n
    ensures n == Total(Upcoming(r)) ==> Count(Popped(r, n), name) == Budget(Upcoming(r), name)
  {
    UpcomingSound(r);
    RingIsLine(r, n);
    UpcomingIsRotation(After(r, n));
    DrainLine(Upcoming(r), n, name);
  }

  // ----- pushes -----

  /** Alive, suspect, dead: each is worse than those before it. */
  predicate Worse(a: Status, b: Status) {
    (a == Dead && b != Dead) || (a == Suspect && b == Alive)
  }

  /** A message for a key that is queued takes the place of the queued one, with new sends,
      exactly if its incarnation is higher, or its state worse at the same one. */
  lemma WhenPushReplaces(r: Ring, msg: Claim, nodeNum: u32, at: nat, i: nat)
    requires WellFormed(r) && i < |r.entries| && r.entries[i].msg.name == msg.name
    ensures var was := r.entries[i].msg;
            PushRing(r, msg, nodeNum, at) ==
            if msg.dominant > was.dominant || (msg.dominant == was.dominant && Worse(msg.state, was.state))
            then Ring(r.entries[i := Entry(msg, Times(nodeNum))], r.cur) else r
  {
    var j := Index(r.entries, msg.name);
    if i < j {
      IndexIsFirst(r.entries, msg.name, i);
    }
  }

  // ----- pushes: whole histories -----

  datatype Op = Push(msg: Claim, nodeNum: u32, at: nat) | Pop

  function Apply(r: Ring, op: Op): Ring
  {
    match op
    case Push(msg, nodeNum, at) => PushRing(r, msg, nodeNum, at)
    case Pop => PopRing(r).1
  }

  /** The ring after a history of pushes and pops, oldest first, on a new queue. */
  function Exec(ops: seq<Op>): Ring
  {
    if ops == [] then Ring([], 0) else Apply(Exec(ops[..|ops| - 1]), ops[|ops| - 1])
  }

  /** The messages pushed for a key since it was last absent. */
  function SinceAbsent(ops: seq<Op>, name: Name): seq<Claim> {
    if ops == [] then []
    else
      var before, op := ops[..|ops| - 1], ops[|ops| - 1];
      if op.Push? && op.msg.name == name then
        if Has(Exec(before), name) then SinceAbsent(before, name) + [op.msg] else [op.msg]
      else SinceAbsent(before, name)
  }

  ghost predicate IsNewest(m: Claim, among: seq<Claim>) {
    && m in among
    && forall x :: x in among ==> AtLeast(m, x)
  }

  lemma {:induction false} ExecWellFormed(ops: seq<Op>)
    ensures WellFormed(Exec(ops))
  {
    if ops != [] {
      var before, op := ops[..|ops| - 1], ops[|ops| - 1];
      ExecWellFormed(before);
      match op {
        case Push(msg, nodeNum, at) => PushKeepsWellFormed(Exec(before), msg, nodeNum, at);
        case Pop => PopKeepsWellFormed(Exec(before));
      }
    }
  }

  lemma PopKeepsMessages(r: Ring, e: Entry)
    requires WellFormed(r) && e in PopRing(r).1.entries
    ensures exists d :: d in r.entries && d.msg == e.msg
  {
    if r.entries != [] {
      var c := Norm(r.cur, |r.entries|);
      if e in r.entries {
      } else {
        assert r.entries[c] in r.entries && r.entries[c].msg == e.msg;
      }
    }
  }

  lemma InsertedMessages(r: Ring, msg: Claim, nodeNum: u32, at: nat, k: nat)
    requires !Has(r, msg.name) && k < |PushRing(r, msg, nodeNum, at).entries|
    ensures var e := PushRing(r, msg, nodeNum, at).entries[k];
            e.msg == msg || (e in r.entries && e.msg.name != msg.name)
  {
    var p := Min(at, |r.entries|);
    if k != p {
      var j := if k < p then k else k - 1;
      IndexIsFirst(r.entries, msg.name, j);
      assert PushRing(r, msg, nodeNum, at).entries[k] == r.entries[j];
    }
  }

  lemma PushedMessages(r: Ring, msg: Claim, nodeNum: u32, at: nat, e: Entry)
    requires WellFormed(r) && e in PushRing(r, msg, nodeNum, at).entries
    ensures e.msg == msg || e in r.entries
    ensures e.msg.name == msg.name && Has(r, msg.name) ==>
              var d := r.entries[Index(r.entries, msg.name)].msg;
              e.msg == if Newer(msg, d) then msg else d
    ensures e.msg.name == msg.name && !Has(r, msg.name) ==> e.msg == msg
  {
    var s := PushRing(r, msg, nodeNum, at).entries;
    var k :| 0 <= k < |s| && s[k] == e;
    if !Has(r, msg.name) {
      InsertedMessages(r, msg, nodeNum, at, k);
    } else if e.msg.name == msg.name {
      assert k == Index(r.entries, msg.name);
    }
  }

  /** Supersession: a queued message is the newest of all pushed for its key since
      the key was last absent. */
  lemma {:induction false} QueuedIsNewest(ops: seq<Op>, e: Entry)
    requires e in Exec(ops).entries
    ensures IsNewest(e.msg, SinceAbsent(ops, e.msg.name))
  {
    var before, op := ops[..|ops| - 1], ops[|ops| - 1];
    var r := Exec(before);
    ExecWellFormed(before);
    match op {
      case Pop =>
        PopKeepsMessages(r, e);
        var d :| d in r.entries && d.msg == e.msg;
        QueuedIsNewest(before, d);
      case Push(msg, nodeNum, at) =>
        PushedMessages(r, msg, nodeNum, at, e);
        if e.msg.name != msg.name {
          QueuedIsNewest(before, e);
        } else if Has(r, msg.name) {
          var d := r.entries[Index(r.entries, msg.name)];
          QueuedIsNewest(before, d);
          var prior := SinceAbsent(before, msg.name);
          forall x | x in prior + [msg] ensures AtLeast(e.msg, x) {
            assert x in prior ==> AtLeast(d.msg, x);
          }
        }
    }
  }

  /** The budget a push grants, and the budget of the message it displaces. */
  function Granted(r: Ring, op: Op): nat {
    if op.Push? && (!Has(r, op.msg.name) || Newer(op.msg, r.entries[Index(r.entries, op.msg.name)].msg))
    then Times(op.nodeNum) else 0
  }

  function Displaced(r: Ring, op: Op): nat {
    if op.Push? && Has(r, op.msg.name) && Newer(op.msg, r.entries[Index(r.entries, op.msg.name)].msg)
    then r.entries[Index(r.entries, op.msg.name)].times else 0
  }

  function Sent(r: Ring, op: Op): nat {
    if op.Pop? && r.entries != [] then 1 else 0
  }

  function Ledger(ops: seq<Op>, item: (Ring, Op) -> nat): nat {
    if ops == [] then 0
    else Ledger(ops[..|ops| - 1], item) + item(Exec(ops[..|ops| - 1]), ops[|ops| - 1])
  }

  lemma TotalOfReplace(f: seq<Entry>, i: nat, e: Entry)
    requires i < |f|
    ensures Total(f[i := e]) == Total(f) - f[i].times + e.times
    ensures Total(RemoveAt(f, i)) == Total(f) - f[i].times
  {
    TotalOfConcat(f[..i], f[i..]);
    TotalOfConcat(f[..i], [e] + f[i + 1..]);
    TotalOfConcat(f[..i], f[i + 1..]);
    assert f == f[..i] + f[i..] && f[i..][1..] == f[i + 1..];
    assert f[i := e] == f[..i] + ([e] + f[i + 1..]);
    assert ([e] + f[i + 1..])[1..] == f[i + 1..];
  }

  lemma TotalOfInsert(f: seq<Entry>, p: nat, e: Entry)
    requires p <= |f|
    ensures Total(f[..p] + [e] + f[p..]) == Total(f) + e.times
  {
    TotalOfConcat(f[..p], f[p..]);
    TotalOfConcat(f[..p], [e] + f[p..]);
    assert f == f[..p] + f[p..];
    assert f[..p] + [e] + f[p..] == f[..p] + ([e] + f[p..]);
    assert ([e] + f[p..])[1..] == f[p..];
  }

  lemma OnePopBalances(r: Ring)
    requires WellFormed(r)
    ensures Total(PopRing(r).1.entries) + Sent(r, Pop) == Total(r.entries)
  {
    if r.entries != [] {
      var c := Norm(r.cur, |r.entries|);
      var e := r.entries[c];
      TotalOfReplace(r.entries, c, Entry(e.msg, if e.times <= 1 then 0 else e.times - 1));
    }
  }

  lemma OneOpBalances(r: Ring, op: Op)
    requires WellFormed(r)
    ensures Total(Apply(r, op).entries) + Sent(r, op) + Displaced(r, op)
            == Total(r.entries) + Granted(r, op)
  {
    match op {
      case Pop => OnePopBalances(r);
      case Push(msg, nodeNum, at) =>
        var i := Index(r.entries, msg.name);
        if i == |r.entries| {
          TotalOfInsert(r.entries, Min(at, |r.entries|), Entry(msg, Times(nodeNum)));
        } else {
          TotalOfReplace(r.entries, i, Entry(msg, Times(nodeNum)));
        }
    }
  }

  /** Conservation: what is left to send is what was granted, less the sends made
      and the sends that newer messages displaced. */
  lemma {:induction false} BudgetsBalance(ops: seq<Op>)
    ensures Total(Exec(ops).entries) + Ledger(ops, Sent) + Ledger(ops, Displaced) == Ledger(ops, Granted)
  {
    if ops != [] {
      var before, op := ops[..|ops| - 1], ops[|ops| - 1];
      BudgetsBalance(before);
      ExecWellFormed(before);
      OneOpBalances(Exec(before), op);
    }
  }
}
