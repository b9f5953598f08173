/** Whom successive probes reach, and what the pings carry. */
module Probing {
  import opened Claims
  import opened Broadcast
  import opened BroadcastLaws
  import opened Handlers
  import opened Invariants

  lemma MulOneMore(q: nat, n: nat)
    ensures (q + 1) * n == q * n + n
  {}

  lemma {:induction false} MulMonotone(a: nat, b: nat, n: nat)
    requires a < b
    ensures a * n + n <= b * n
    decreases b
  {
    MulOneMore(b - 1, n);
    if a < b - 1 {
      MulMonotone(a, b - 1, n);
    }
  }

  lemma ModUnique(x: nat, q: nat, r: nat, n: nat)
    requires n > 0 && x == q * n + r && r < n
    ensures x % n == r
  {
    var q' := x / n;
    assert x == q' * n + x % n;
    if q < q' {
      MulMonotone(q, q', n);
    } else if q' < q {
      MulMonotone(q', q, n);
    }
  }

  lemma ModShift(x: nat, k: nat, n: nat)
    requires n > 0
    ensures (x + k * n) % n == x % n
  {
    var q := x / n;
    assert x == q * n + x % n;
    assert (q + k) * n == q * n + k * n;
    ModUnique(x + k * n, q + k, x % n, n);
  }

  lemma ModAdd(a: nat, b: nat, n: nat)
    requires n > 0
    ensures (a % n + b) % n == (a + b) % n
  {
    var q := a / n;
    assert a == q * n + a % n;
    ModShift(a % n + b, q, n);
  }

  /** The picks of consecutive calls, one after the other. */
  function Walk(nodes: seq<Name>, cursor: nat, num: nat, calls: nat): seq<Name>
    decreases calls
  {
    if calls == 0 then []
    else Picks(nodes, cursor, num) + Walk(nodes, NextCursor(nodes, cursor, num), num, calls - 1)
  }

  /** A call continues where the one before it stopped. */
  lemma NextPick(nodes: seq<Name>, cursor: nat, num: nat, i: nat)
    requires |nodes| > num
    ensures Pick(nodes, NextCursor(nodes, cursor, num), i) == Pick(nodes, cursor, num + i)
  {
    ModAdd(cursor + num, i, |nodes|);
  }

  lemma {:induction false} WalkLength(nodes: seq<Name>, cursor: nat, num: nat, calls: nat)
    requires |nodes| > num
    ensures |Walk(nodes, cursor, num, calls)| == calls * num
    decreases calls
  {
    if calls > 0 {
      WalkLength(nodes, NextCursor(nodes, cursor, num), num, calls - 1);
      MulOneMore(calls - 1, num);
    }
  }

  /** Calls on an unchanged index form one cyclic walk, wherever the cursor stands,
      even past the end of an index that has shrunk. */
  lemma {:induction false} WalkIsCyclic(nodes: seq<Name>, cursor: nat, num: nat, calls: nat, i: nat)
    requires |nodes| > num && i < |Walk(nodes, cursor, num, calls)|
    ensures Walk(nodes, cursor, num, calls)[i] == Pick(nodes, cursor, i)
    decreases calls
  {
    if i >= num {
      var next := NextCursor(nodes, cursor, num);
      WalkIsCyclic(nodes, next, num, calls - 1, i - num);
      NextPick(nodes, cursor, num, i - num);
    }
  }

  /** Who asks for as many as there are gets them all, and the cursor stays. */
  lemma AllPicked(nodes: seq<Name>, cursor: nat, num: nat)
    ensures |nodes| <= num ==> Picks(nodes, cursor, num) == nodes && NextCursor(nodes, cursor, num) == cursor
    ensures |nodes| > num ==> |Picks(nodes, cursor, num)| == num && NextCursor(nodes, cursor, num) < |nodes|
  {}

  /** The step of the walk at which the node at position p comes up. */
  function StepOf(cursor: nat, p: nat, n: nat): nat
    requires p < n
  {
    (p + n - cursor % n) % n
  }

  lemma StepReaches(cursor: nat, p: nat, n: nat)
    requires p < n
    ensures StepOf(cursor, p, n) < n && (cursor + StepOf(cursor, p, n)) % n == p
  {
    var c, i := cursor % n, StepOf(cursor, p, n);
    ModAdd(cursor, i, n);
    if p >= c {
      ModUnique(p + n - c, 1, p - c, n);
    } else {
      ModUnique(p + n - c, 0, p + n - c, n);
    }
    ModUnique(c + i, if p >= c then 0 else 1, p, n);
  }

  /** Any calls that pick at least as many nodes as there are pick every one of them. */
  lemma EveryNodeIsProbed(nodes: seq<Name>, cursor: nat, num: nat, calls: nat, p: nat)
    requires |nodes| > num && calls * num >= |nodes| && p < |nodes|
    ensures nodes[p] in Walk(nodes, cursor, num, calls)
  {
    var i := StepOf(cursor, p, |nodes|);
    WalkLength(nodes, cursor, num, calls);
    WalkIsCyclic(nodes, cursor, num, calls, i);
    StepReaches(cursor, p, |nodes|);
    assert Walk(nodes, cursor, num, calls)[i] == nodes[p];
  }

  lemma PicksDiffer(cursor: nat, i: nat, j: nat, n: nat)
    requires i < j < n
    ensures (cursor + i) % n != (cursor + j) % n
  {
    var a := cursor % n;
    ModAdd(cursor, i, n);
    ModAdd(cursor, j, n);
    var x := if a + i >= n then a + i - n else a + i;
    var y := if a + j >= n then a + j - n else a + j;
    ModUnique(a + i, if a + i >= n then 1 else 0, x, n);
    ModUnique(a + j, if a + j >= n then 1 else 0, y, n);
  }

  /** Probing one at a time, any n calls on n nodes pick each exactly once. */
  lemma OneLapOfProbes(nodes: seq<Name>, cursor: nat)
    requires |nodes| > 1 && Distinct(nodes)
    ensures var w := Walk(nodes, cursor, 1, |nodes|);
            |w| == |nodes| && Distinct(w) && forall m :: m in w <==> m in nodes
  {
    var n := |nodes|;
    var w := Walk(nodes, cursor, 1, n);
    WalkLength(nodes, cursor, 1, n);
    forall i, j | 0 <= i < j < n ensures w[i] != w[j] {
      WalkIsCyclic(nodes, cursor, 1, n, i);
      WalkIsCyclic(nodes, cursor, 1, n, j);
      PicksDiffer(cursor, i, j, n);
    }
    forall m | m in nodes ensures m in w {
      var p :| 0 <= p < n && nodes[p] == m;
      EveryNodeIsProbed(nodes, cursor, 1, n, p);
    }
    forall m | m in w ensures m in nodes {
      var i :| 0 <= i < n && w[i] == m;
      WalkIsCyclic(nodes, cursor, 1, n, i);
    }
  }

  // ----- what a ping carries -----

  lemma {:induction false} PrefixCount(f: seq<Entry>, k: nat, name: Name)
    requires Sound(f) && k <= |f|
    ensures Count(Msgs(f[..k]), name) <= 1
    ensures Count(Msgs(f[..k]), name) == 1 ==> InLine(f, name)
    decreases k
  {
    if k > 0 {
      PrefixCount(f[1..], k - 1, name);
      assert f[..k][1..] == f[1..][..k - 1];
      assert Msgs(f[..k])[1..] == Msgs(f[1..][..k - 1]);
    }
  }

  lemma DueIsPopped(l: Node)
    ensures Due(l) == Popped(l.ring, Min(l.maxAppended, |l.ring.entries|))
  {
    PeekTransaction(l.ring, Min(l.maxAppended, |l.ring.entries|));
  }

  lemma DueOnce(l: Node, name: Name)
    requires WellFormed(l.ring)
    ensures Count(Due(l), name) <= 1
  {
    UpcomingSound(l.ring);
    PrefixCount(Upcoming(l.ring), Min(l.maxAppended, |l.ring.entries|), name);
  }

  /** A ping sends all the messages it may, no key twice, each at the cost of one send,
      exactly when they fit; when they do not, none, and it asks for half as many next time. */
  lemma AppendIsAllOrNone(l: Node, size: seq<Claim> -> nat, room: int, name: Name)
    requires Inv(l)
    ensures var k, l', sent := Min(l.maxAppended, |l.ring.entries|), Append(l, size, room), Appended(l, size, room);
            if k > 0 && size(Popped(l.ring, k)) <= room then
              && |sent| == k > 0 && sent == Popped(l.ring, k) && l'.ring == After(l.ring, k)
              && Count(sent, name) <= 1 && l'.maxAppended == l.maxAppended
            else
              && sent == [] && l'.ring == l.ring && 1 <= l'.maxAppended
              && (k > 0 ==> l'.maxAppended == Max(1, l.maxAppended / 2))
  {
    DueIsPopped(l);
    DueOnce(l, name);
  }
}
