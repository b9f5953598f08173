/** The retransmission queue of src/broadcast.hpp.

    The unordered map is a list of entries with distinct keys in iteration order;
    its iterators are positions in that list that follow their element when other
    elements come and go, the end position being `|entries|`. */
module Broadcast {
  import opened Claims

  const BROADCAST_MULTI := 3

  function Pow(base: nat, k: nat): nat {
    if k == 0 then 1 else base * Pow(base, k - 1)
  }

  lemma PowGrows(base: nat, k: nat)
    requires base >= 2
    ensures 1 <= Pow(base, k) < Pow(base, k + 1)
  {
    if k > 0 {
      PowGrows(base, k - 1);
    }
    assert Pow(base, k) >= 1;
    assert Pow(base, k + 1) >= 2 * Pow(base, k);
  }

  function CeilLogFrom(base: nat, n: nat, k: nat): (r: nat)
    requires base >= 2 && (k == 0 || Pow(base, k - 1) < n)
    ensures n <= Pow(base, r) && (r == 0 || Pow(base, r - 1) < n)
    ensures k <= r
    decreases n - Pow(base, k)
  {
    PowGrows(base, k);
    if n <= Pow(base, k) then k else CeilLogFrom(base, n, k + 1)
  }

  /** k is ceil(log_base(n)): the least exponent that reaches n. */
  predicate IsCeilLog(base: nat, n: nat, k: nat) {
    n <= Pow(base, k) && (k == 0 || Pow(base, k - 1) < n)
  }

  lemma {:induction false} PowMonotone(base: nat, j: nat, k: nat)
    requires base >= 2 && j <= k
    ensures Pow(base, j) <= Pow(base, k)
    decreases k
  {
    if j < k {
      PowMonotone(base, j, k - 1);
      PowGrows(base, k - 1);
    }
  }

  /** There is only one. */
  lemma CeilLogUnique(base: nat, n: nat, j: nat, k: nat)
    requires base >= 2 && IsCeilLog(base, n, j) && IsCeilLog(base, n, k)
    ensures j == k
  {
    if j < k {
      PowMonotone(base, j, k - 1);
    } else if k < j {
      PowMonotone(base, k, j - 1);
    }
  }

  /** ceil(log_base(n)): the least r with base^r >= n. */
  function CeilLog(base: nat, n: nat): (r: nat)
    requires base >= 2
    ensures n <= Pow(base, r) && (r == 0 || Pow(base, r - 1) < n)
  {
    CeilLogFrom(base, n, 0)
  }

  /** How often a message is sent in a cluster of `nodeNum` nodes: three times the
      least k for which 10^k reaches the size of the cluster, taken as two at least. */
  function Times(nodeNum: u32): (times: nat)
    ensures times % 3 == 0 && times >= 3
    ensures Pow(10, times / 3 - 1) < Max(nodeNum, 2) <= Pow(10, times / 3)
  {
    var n: nat := if nodeNum <= 1 then 2 else nodeNum;
    assert Pow(10, 0) == 1;
    BROADCAST_MULTI * CeilLog(10, n)
  }

  datatype Entry = Entry(msg: Claim, times: nat)

  datatype RawRing = Ring(entries: seq<Entry>, cur: nat)

  type Ring = r: RawRing | r.cur <= |r.entries| witness Ring([], 0)

  ghost predicate WellFormed(r: Ring) {
    && (forall i :: 0 <= i < |r.entries| ==> r.entries[i].times >= 1)
    && (forall i, j :: 0 <= i < j < |r.entries| ==> r.entries[i].msg.name != r.entries[j].msg.name)
  }

  /** The position of `name`, or the end position. */
  function Index(entries: seq<Entry>, name: Name): (i: nat)
    ensures i <= |entries|
    ensures i < |entries| ==> entries[i].msg.name == name
  {
    if entries == [] then 0
    else if entries[0].msg.name == name then 0
    else 1 + Index(entries[1..], name)
  }

  lemma {:induction false} IndexIsFirst(entries: seq<Entry>, name: Name, j: nat)
    requires j < Index(entries, name)
    ensures entries[j].msg.name != name
  {
    if j > 0 {
      IndexIsFirst(entries[1..], name, j - 1);
    }
  }

  predicate Has(r: Ring, name: Name) {
    Index(r.entries, name) < |r.entries|
  }

  /** An iterator that has run off the end continues at the beginning. */
  function Norm(cursor: nat, n: nat): nat {
    if cursor == n then 0 else cursor
  }

  function RemoveAt(entries: seq<Entry>, c: nat): seq<Entry>
    requires c < |entries|
  {
    entries[..c] + entries[c + 1..]
  }

  /** One pop: the message under the cursor, and the ring it leaves behind. */
  function PopRing(r: Ring): (p: (Option<Claim>, Ring))
  {
    if r.entries == [] then (None, r)
    else
      var c := Norm(r.cur, |r.entries|);
      var e := r.entries[c];
      (Some(e.msg),
       if e.times <= 1 then Ring(RemoveAt(r.entries, c), c)
       else Ring(r.entries[c := Entry(e.msg, e.times - 1)], c + 1))
  }

  /** One push. A new key lands at position `at`, wherever the hash table puts it. */
  function PushRing(r: Ring, msg: Claim, nodeNum: u32, at: nat): (r': Ring)
  {
    var i := Index(r.entries, msg.name);
    if i == |r.entries| then
      var p := Min(at, |r.entries|);
      Ring(r.entries[..p] + [Entry(msg, Times(nodeNum))] + r.entries[p..],
           if p <= r.cur then r.cur + 1 else r.cur)
    else if Newer(msg, r.entries[i].msg) then
      Ring(r.entries[i := Entry(msg, Times(nodeNum))], r.cur)
    else r
  }

  /** The ring after `n` pops. */
  function After(r: Ring, n: nat): (r': Ring)
    decreases n
  {
    if n == 0 then r else After(PopRing(r).1, n - 1)
  }

  /** The messages `n` pops return; pops of an empty ring return none. */
  function Popped(r: Ring, n: nat): seq<Claim>
    decreases n
  {
    if n == 0 || r.entries == [] then []
    else [PopRing(r).0.value] + Popped(PopRing(r).1, n - 1)
  }

  /** The entries in the order in which the cursor will meet them. */
  function Upcoming(r: Ring): (f: seq<Entry>)
    ensures |f| == |r.entries|
  {
    var c := Norm(r.cur, |r.entries|);
    r.entries[c..] + r.entries[..c]
  }

  /** The place k on from c in a ring of n. */
  function Ahead(c: nat, k: nat, n: nat): nat {
    if c + k >= n then c + k - n else c + k
  }

  lemma OneFurther(c: nat, k: nat, n: nat)
    requires c < n && k < n
    ensures Ahead(c, k, n) < n && Norm(Ahead(c, k, n) + 1, n) == Ahead(c, k + 1, n)
  {}

  lemma UpcomingAt(r: Ring, k: nat)
    requires k < |r.entries|
    ensures |Upcoming(r)| == |r.entries|
    ensures Ahead(Norm(r.cur, |r.entries|), k, |r.entries|) < |r.entries|
    ensures Upcoming(r)[k] == r.entries[Ahead(Norm(r.cur, |r.entries|), k, |r.entries|)]
  {}

  function Msgs(f: seq<Entry>): (ms: seq<Claim>)
    ensures |ms| == |f|
  {
    if f == [] then [] else [f[0].msg] + Msgs(f[1..])
  }

  lemma {:induction false} MsgsNext(f: seq<Entry>, k: nat)
    requires k <= |f|
    ensures k < |f| ==> Msgs(f[..k + 1]) == Msgs(f[..k]) + [f[k].msg]
  {
    if 0 < k < |f| {
      MsgsNext(f[1..], k - 1);
      assert f[..k + 1][1..] == f[1..][..k] && f[..k][1..] == f[1..][..k - 1];
    }
  }

  lemma PopKeepsWellFormed(r: Ring)
    requires WellFormed(r)
    ensures WellFormed(PopRing(r).1)
  {}

  lemma PushKeepsWellFormed(r: Ring, msg: Claim, nodeNum: u32, at: nat)
    requires WellFormed(r)
    ensures WellFormed(PushRing(r, msg, nodeNum, at))
  {
    forall j | 0 <= j < Index(r.entries, msg.name) ensures r.entries[j].msg.name != msg.name {
      IndexIsFirst(r.entries, msg.name, j);
    }
  }

  lemma {:induction false} AfterKeepsWellFormed(r: Ring, n: nat)
    requires WellFormed(r)
    ensures WellFormed(After(r, n))
    decreases n
  {
    if n > 0 {
      PopKeepsWellFormed(r);
      AfterKeepsWellFormed(PopRing(r).1, n - 1);
    }
  }

  /** A cursor that was on a key still is on that key, one at the end still at the end. */
  predicate Follows(before: seq<Entry>, c: nat, after: seq<Entry>, c': nat)
    requires c <= |before|
  {
    if c == |before| then c' == |after|
    else c' < |after| && after[c'].msg.name == before[c].msg.name
  }

  class BroadcastQueue {
    var entries: seq<Entry>
    var cur: nat
    var peek: nat
    // true when the element under `peek` has been erased by a pop
    var dangling: bool
    var peeked: nat

    ghost predicate Valid()
      reads this
    {
      && cur <= |entries|
      && WellFormed(Contents())
      && peek <= |entries|
    }

    ghost function Contents(): Ring
      requires cur <= |entries|
      reads this
    {
      Ring(entries, cur)
    }

    /** The peek cursor is exactly `peeked` elements ahead of the pop cursor. */
    ghost predicate Aligned()
      reads this
    {
      && !dangling
      && peeked <= |entries|
      && (peeked == 0 ==> peek == cur)
      && (entries != [] ==> Norm(peek, |entries|) == Ahead(Norm(cur, |entries|), peeked, |entries|))
    }

    constructor ()
      ensures Valid() && Aligned() && peeked == 0
      ensures Contents() == Ring([], 0)
    {
      entries, cur, peek, dangling, peeked := [], 0, 0, false, 0;
    }

    method Pop() returns (rst: Option<Claim>)
      requires Valid()
      modifies this
      ensures Valid() && peeked == old(peeked)
      ensures (rst, Contents()) == PopRing(old(Contents()))
      // the peek cursor is lost exactly when it is on the message sent for the last time
      ensures dangling <==>
                || old(dangling)
                || (old(entries) != [] && old(peek) == Norm(old(cur), |old(entries)|)
                    && old(entries)[old(peek)].times <= 1)
      ensures !dangling ==> Follows(old(entries), old(peek), entries, peek)
    {
      PopKeepsWellFormed(Contents());
      if cur == |entries| {
        cur := 0;
      }
      if cur == |entries| {
        return None;
      }
      var e := entries[cur];
      rst := Some(e.msg);
      if e.times - 1 < 1 {
        entries := RemoveAt(entries, cur);
        if peek == cur {
          dangling := true;
        } else if cur < peek {
          peek := peek - 1;
        }
      } else {
        entries := entries[cur := Entry(e.msg, e.times - 1)];
        cur := cur + 1;
      }
    }

    /** Within a transaction, the next message the pops would return; nothing once
        every message has been peeked. */
    method Peek() returns (rst: Option<Claim>)
      requires Valid() && !dangling
      modifies this`peek, this`peeked
      ensures Valid() && (old(Aligned()) ==> Aligned())
      ensures old(Aligned()) && old(peeked) < |entries| ==>
                rst == Some(Upcoming(Contents())[old(peeked)].msg) && peeked == old(peeked) + 1
      ensures old(peeked) >= |entries| ==> rst == None && peeked == old(peeked)
    {
      if peek == |entries| {
        peek := 0;
      }
      if peek == |entries| {
        return None;
      }
      if peeked >= |entries| {
        return None;
      }
      UpcomingAt(Contents(), peeked);
      OneFurther(Norm(cur, |entries|), peeked, |entries|);
      peeked := peeked + 1;
      rst := Some(entries[peek].msg);
      peek := peek + 1;
    }

    method ResetPeek()
      requires Valid()
      modifies this`peek, this`peeked, this`dangling
      ensures Valid() && Aligned() && peeked == 0
    {
      peek, peeked, dangling := cur, 0, false;
    }

    method ApplyPeek()
      requires Valid()
      modifies this
      ensures Valid() && Aligned() && peeked == 0
      ensures Contents() == After(old(Contents()), old(peeked))
    {
      while peeked > 0
        invariant Valid()
        invariant After(Contents(), peeked) == After(old(Contents()), old(peeked))
        decreases peeked
      {
        var _ := Pop();
        peeked := peeked - 1;
      }
      peek, dangling := cur, false;
    }

    method Insert(e: Entry, p: nat)
      requires p <= |entries| && cur <= |entries| && peek <= |entries|
      modifies this`entries, this`cur, this`peek
      ensures entries == old(entries)[..p] + [e] + old(entries)[p..]
      ensures cur == if p <= old(cur) then old(cur) + 1 else old(cur)
      ensures Follows(old(entries), old(cur), entries, cur)
      ensures Follows(old(entries), old(peek), entries, peek)
      ensures old(peek) == old(cur) ==> peek == cur
      ensures peek <= |entries|
    {
      entries := entries[..p] + [e] + entries[p..];
      cur := if p <= cur then cur + 1 else cur;
      peek := if p <= peek then peek + 1 else peek;
    }

    method Replace(i: nat, e: Entry)
      requires i < |entries| && entries[i].msg.name == e.msg.name && cur <= |entries| && peek <= |entries|
      modifies this`entries
      ensures entries == old(entries)[i := e]
      ensures Follows(old(entries), cur, entries, cur)
      ensures Follows(old(entries), peek, entries, peek)
    {
      entries := entries[i := e];
    }

    method Push(msg: Claim, nodeNum: u32, at: nat)
      requires Valid()
      modifies this`entries, this`cur, this`peek
      ensures Valid() && (peeked == 0 && old(Aligned()) ==> Aligned())
      ensures Contents() == PushRing(old(Contents()), msg, nodeNum, at)
      ensures Follows(old(entries), old(cur), entries, cur)
      ensures Follows(old(entries), old(peek), entries, peek)
    {
      PushKeepsWellFormed(Contents(), msg, nodeNum, at);
      var i := Index(entries, msg.name);
      if i == |entries| {
        Insert(Entry(msg, Times(nodeNum)), Min(at, |entries|));
      } else {
        var old_ := entries[i].msg;
        if msg.dominant > old_.dominant
           || (msg.state.Rank() > old_.state.Rank() && msg.dominant == old_.dominant) {
          Replace(i, Entry(msg, Times(nodeNum)));
        }
      }
    }

    method DistinctCount() returns (d: nat)
      requires Valid()
      ensures d == |entries|
    {
      d := |entries|;
    }
  }

  lemma TenOrMore(k: nat)
    ensures k == 0 || Pow(10, k) >= 10
  {
    if k > 1 {
      TenOrMore(k - 1);
    }
  }

  lemma TwoNodes()
    ensures Times(2) == 3
  {
    TenOrMore(Times(2) / 3 - 1);
  }

  method PeekOnSecond(a: Claim, b: Claim) returns (q: BroadcastQueue)
    requires a.name != b.name
    ensures fresh(q) && q.Valid() && q.peeked == 0 && !q.dangling && q.peek == 1
    ensures q.Contents() == Ring([Entry(a, 2), Entry(b, 3)], 1)
  {
    TwoNodes();
    q := new BroadcastQueue();
    q.Push(a, 2, 0);
    q.Push(b, 2, 1);
    assert q.Contents() == Ring([Entry(a, 3), Entry(b, 3)], 2);
    var _ := q.Pop();
    q.ResetPeek();
  }

  /** A history without a single `Peek` that loses the peek cursor all the same. */
  method DanglingWithoutPeek(a: Claim, b: Claim) returns (q: BroadcastQueue)
    requires a.name != b.name
    ensures fresh(q) && q.Valid() && q.peeked == 0 && q.dangling
  {
    q := PeekOnSecond(a, b);
    var _ := q.Pop();
    assert q.Contents() == Ring([Entry(a, 2), Entry(b, 2)], 2);
    var _ := q.Pop();
    assert q.Contents() == Ring([Entry(a, 1), Entry(b, 2)], 1);
    var _ := q.Pop();
    assert q.Contents() == Ring([Entry(a, 1), Entry(b, 1)], 2);
    var _ := q.Pop();
    assert q.Contents() == Ring([Entry(b, 1)], 0);
    var _ := q.Pop();
  }
}
