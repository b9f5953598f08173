/** thirdparty/asio/buffers_iterator.hpp: a random-access iterator over a list of
    possibly empty chunks. */
module Iterators {

  import opened Bytes

  type Chunks = seq<seq<Byte>>

  /** The bytes of all chunks, as one string. */
  function Flat(bufs: Chunks): seq<Byte> {
    if bufs == [] then [] else Flat(bufs[..|bufs| - 1]) + bufs[|bufs| - 1]
  }

  /** Where chunk i starts in that string. */
  function Offset(bufs: Chunks, i: nat): nat
    requires i <= |bufs|
  {
    if i == 0 then 0 else Offset(bufs, i - 1) + |bufs[i - 1]|
  }

  function Total(bufs: Chunks): nat {
    Offset(bufs, |bufs|)
  }

  /** Position p is byte `off` of chunk `c`, or the end if c is past the last chunk. */
  predicate Located(bufs: Chunks, p: nat, c: nat, off: nat) {
    && c <= |bufs| && p == Offset(bufs, c) + off
    && (if c == |bufs| then off == 0 else off < |bufs[c]|)
  }

  lemma {:induction false} OffsetMonotone(bufs: Chunks, i: nat, j: nat)
    requires i <= j <= |bufs|
    ensures Offset(bufs, i) <= Offset(bufs, j)
    decreases j
  {
    if i < j {
      OffsetMonotone(bufs, i, j - 1);
    }
  }

  /** A position has exactly one place, so iterators at equal positions are in the
      same state, however they got there. */
  lemma LocatedUnique(bufs: Chunks, p: nat, c: nat, off: nat, c': nat, off': nat)
    requires Located(bufs, p, c, off) && Located(bufs, p, c', off')
    ensures c == c' && off == off'
  {
    if c < c' {
      OffsetMonotone(bufs, c + 1, c');
    } else if c' < c {
      OffsetMonotone(bufs, c' + 1, c);
    }
  }

  lemma {:induction false} OffsetOfPrefix(bufs: Chunks, n: nat, i: nat)
    requires i <= n <= |bufs|
    ensures Offset(bufs[..n], i) == Offset(bufs, i)
    decreases i
  {
    if i > 0 {
      OffsetOfPrefix(bufs, n, i - 1);
    }
  }

  lemma {:induction false} FlatLength(bufs: Chunks)
    ensures |Flat(bufs)| == Total(bufs)
  {
    if bufs != [] {
      FlatLength(bufs[..|bufs| - 1]);
      OffsetOfPrefix(bufs, |bufs| - 1, |bufs| - 1);
    }
  }

  lemma {:induction false} FlatAt(bufs: Chunks, c: nat, off: nat)
    requires c < |bufs| && off < |bufs[c]|
    ensures Offset(bufs, c) + off < |Flat(bufs)|
    ensures Flat(bufs)[Offset(bufs, c) + off] == bufs[c][off]
  {
    var n := |bufs| - 1;
    FlatLength(bufs[..n]);
    OffsetOfPrefix(bufs, n, n);
    if c < n {
      FlatAt(bufs[..n], c, off);
      OffsetOfPrefix(bufs, n, c);
    }
  }

  // ----- one byte on, one byte back -----

  /** The first non-empty chunk from c on, or the end. */
  function Skip(bufs: Chunks, c: nat): (i: nat)
    requires c <= |bufs|
    ensures c <= i <= |bufs| && Offset(bufs, i) == Offset(bufs, c)
    ensures i < |bufs| ==> bufs[i] != []
    decreases |bufs| - c
  {
    if c == |bufs| || bufs[c] != [] then c else Skip(bufs, c + 1)
  }

  /** The last non-empty chunk before c. */
  function SkipBack(bufs: Chunks, c: nat): (i: nat)
    requires c <= |bufs| && Offset(bufs, c) > 0
    ensures i < c && bufs[i] != [] && Offset(bufs, i) + |bufs[i]| == Offset(bufs, c)
  {
    if bufs[c - 1] != [] then c - 1 else SkipBack(bufs, c - 1)
  }

  function Successor(bufs: Chunks, c: nat, off: nat): (nat, nat)
    requires c < |bufs| && off < |bufs[c]|
  {
    if off + 1 < |bufs[c]| then (c, off + 1) else (Skip(bufs, c + 1), 0)
  }

  function Predecessor(bufs: Chunks, c: nat, off: nat): (nat, nat)
    requires c <= |bufs| && (off > 0 || Offset(bufs, c) > 0)
  {
    if off > 0 then (c, off - 1)
    else
      var i := SkipBack(bufs, c);
      (i, |bufs[i]| - 1)
  }

  lemma SuccessorLocated(bufs: Chunks, p: nat, c: nat, off: nat)
    requires Located(bufs, p, c, off) && c < |bufs|
    ensures var (c', off') := Successor(bufs, c, off); Located(bufs, p + 1, c', off')
  {}

  lemma PredecessorLocated(bufs: Chunks, p: nat, c: nat, off: nat)
    requires Located(bufs, p, c, off) && p > 0
    ensures var (c', off') := Predecessor(bufs, c, off); Located(bufs, p - 1, c', off')
  {}

  /** Stepping back undoes stepping forward, and the other way round, wherever the
      iterator stands and whatever empty chunks lie between. */
  lemma StepsUndo(bufs: Chunks, p: nat, c: nat, off: nat)
    requires Located(bufs, p, c, off)
    ensures c < |bufs| ==>
              var (c', off') := Successor(bufs, c, off);
              (off' > 0 || Offset(bufs, c') > 0) && Predecessor(bufs, c', off') == (c, off)
    ensures p > 0 ==>
              var (c', off') := Predecessor(bufs, c, off);
              off' < |bufs[c']| && Successor(bufs, c', off') == (c, off)
  {
    if c < |bufs| {
      SuccessorLocated(bufs, p, c, off);
      var (c1, off1) := Successor(bufs, c, off);
      PredecessorLocated(bufs, p + 1, c1, off1);
      var (c2, off2) := Predecessor(bufs, c1, off1);
      LocatedUnique(bufs, p, c, off, c2, off2);
    }
    if p > 0 {
      PredecessorLocated(bufs, p, c, off);
      var (c1, off1) := Predecessor(bufs, c, off);
      SuccessorLocated(bufs, p - 1, c1, off1);
      var (c2, off2) := Successor(bufs, c1, off1);
      LocatedUnique(bufs, p, c, off, c2, off2);
    }
  }

  /** n steps on, or -n steps back. */
  function Steps(bufs: Chunks, c: nat, off: nat, n: int): (nat, nat)
    decreases if n < 0 then -n else n
  {
    if n > 0 && c < |bufs| && off < |bufs[c]| then
      var (c', off') := Successor(bufs, c, off);
      Steps(bufs, c', off', n - 1)
    else if n < 0 && c <= |bufs| && (off > 0 || Offset(bufs, c) > 0) then
      var (c', off') := Predecessor(bufs, c, off);
      Steps(bufs, c', off', n + 1)
    else (c, off)
  }

  lemma LocatedInRange(bufs: Chunks, p: nat, c: nat, off: nat)
    requires Located(bufs, p, c, off)
    ensures if c == |bufs| then p == Total(bufs) else p < Total(bufs)
  {
    if c < |bufs| {
      OffsetMonotone(bufs, c + 1, |bufs|);
    }
  }

  lemma {:induction false} StepsLocated(bufs: Chunks, p: nat, c: nat, off: nat, n: int)
    requires Located(bufs, p, c, off) && 0 <= p + n <= Total(bufs)
    ensures var (c', off') := Steps(bufs, c, off, n); Located(bufs, p + n, c', off')
    decreases if n < 0 then -n else n
  {
    LocatedInRange(bufs, p, c, off);
    if n > 0 {
      SuccessorLocated(bufs, p, c, off);
      var (c', off') := Successor(bufs, c, off);
      StepsLocated(bufs, p + 1, c', off', n - 1);
    } else if n < 0 {
      PredecessorLocated(bufs, p, c, off);
      var (c', off') := Predecessor(bufs, c, off);
      StepsLocated(bufs, p - 1, c', off', n + 1);
    }
  }

  class BuffersIterator {
    const buffers: Chunks
    var currentBuffer: seq<Byte>
    var currentBufferPosition: nat
    var current: nat  // |buffers| stands for end_
    var position: nat

    ghost predicate Valid()
      reads this
    {
      && Located(buffers, position, current, currentBufferPosition)
      && (current < |buffers| ==> currentBuffer == buffers[current])
    }

    constructor Begin(buffers: Chunks)
      ensures Valid() && this.buffers == buffers && position == 0
    {
      this.buffers := buffers;
      currentBuffer, currentBufferPosition, current, position := [], 0, 0, 0;
      new;
      while current != |buffers|
        invariant current <= |buffers| && Offset(buffers, current) == 0
        invariant this.buffers == buffers && position == 0 && currentBufferPosition == 0
      {
        currentBuffer := buffers[current];
        if |currentBuffer| > 0 {
          break;
        }
        current := current + 1;
      }
    }

    constructor End(buffers: Chunks)
      ensures Valid() && this.buffers == buffers && position == Total(buffers)
    {
      this.buffers := buffers;
      currentBuffer, currentBufferPosition, current, position := [], 0, 0, 0;
      new;
      while current != |buffers|
        invariant current <= |buffers| && position == Offset(buffers, current)
        invariant this.buffers == buffers && currentBufferPosition == 0
      {
        position := position + |buffers[current]|;
        current := current + 1;
      }
    }

    constructor Copy(other: BuffersIterator)
      requires other.Valid()
      ensures Valid() && buffers == other.buffers && position == other.position
    {
      buffers := other.buffers;
      currentBuffer, currentBufferPosition := other.currentBuffer, other.currentBufferPosition;
      current, position := other.current, other.position;
    }

    method Dereference() returns (b: Byte)
      requires Valid() && position < Total(buffers)
      ensures position < |Flat(buffers)| && b == Flat(buffers)[position]
    {
      FlatAt(buffers, current, currentBufferPosition);
      b := currentBuffer[currentBufferPosition];
    }

    method Increment()
      requires Valid() && position < Total(buffers)
      modifies this
      ensures Valid() && position == old(position) + 1
      ensures (current, currentBufferPosition) == old(Successor(buffers, current, currentBufferPosition))
    {
      position := position + 1;
      currentBufferPosition := currentBufferPosition + 1;
      if currentBufferPosition != |currentBuffer| {
        return;
      }
      current := current + 1;
      currentBufferPosition := 0;
      while current != |buffers|
        invariant current <= |buffers| && position == Offset(buffers, current)
        invariant currentBufferPosition == 0 && position == old(position) + 1
        invariant Skip(buffers, current) == Skip(buffers, old(current) + 1)
      {
        currentBuffer := buffers[current];
        if |currentBuffer| > 0 {
          return;
        }
        current := current + 1;
      }
    }

    /** Walk back over empty chunks to the last byte's chunk before `current`. */
    method PreviousChunk() returns (iter: nat)
      requires current <= |buffers| && Offset(buffers, current) > 0
      ensures iter == SkipBack(buffers, current)
    {
      iter := current;
      while iter != 0
        invariant iter <= current && Offset(buffers, iter) == Offset(buffers, current)
        invariant SkipBack(buffers, iter) == SkipBack(buffers, current)
      {
        iter := iter - 1;
        if |buffers[iter]| > 0 {
          return;
        }
      }
    }

    method Decrement()
      requires Valid() && position > 0
      modifies this
      ensures Valid() && position == old(position) - 1
      ensures (current, currentBufferPosition) == old(Predecessor(buffers, current, currentBufferPosition))
    {
      position := position - 1;
      if currentBufferPosition != 0 {
        currentBufferPosition := currentBufferPosition - 1;
        return;
      }
      var iter := PreviousChunk();
      current := iter;
      currentBuffer := buffers[iter];
      currentBufferPosition := |currentBuffer| - 1;
    }

    method AdvanceForward(n: nat)
      requires Valid() && n > 0 && position + n <= Total(buffers)
      modifies this
      ensures Valid() && position == old(position) + n
    {
      var left: nat := n;
      while true
        invariant current < |buffers| && currentBuffer == buffers[current]
        invariant currentBufferPosition <= |currentBuffer|
        invariant position == Offset(buffers, current) + currentBufferPosition
        invariant position + left == old(position) + n
        decreases |buffers| - current
      {
        var balance := |currentBuffer| - currentBufferPosition;
        if balance > left {
          position := position + left;
          currentBufferPosition := currentBufferPosition + left;
          return;
        }
        OffsetMonotone(buffers, current + 1, |buffers|);
        left := left - balance;
        position := position + balance;
        current := current + 1;
        if current == |buffers| {
          currentBuffer := [];
          currentBufferPosition := 0;
          return;
        }
        currentBuffer := buffers[current];
        currentBufferPosition := 0;
      }
    }

    method AdvanceBackward(n: nat)
      requires Valid() && 0 < n <= position
      modifies this
      ensures Valid() && position == old(position) - n
    {
      var left := n;
      while true
        invariant current <= |buffers| && (current < |buffers| ==> currentBuffer == buffers[current])
        invariant currentBufferPosition <= if current < |buffers| then |currentBuffer| else 0
        invariant position == Offset(buffers, current) + currentBufferPosition
        invariant 0 < left <= position && position - left == old(position) - n
        decreases current
      {
        if currentBufferPosition >= left {
          position := position - left;
          currentBufferPosition := currentBufferPosition - left;
          return;
        }
        left := left - currentBufferPosition;
        position := position - currentBufferPosition;
        assert current != 0;  // there are still bytes before this chunk
        var iter := PreviousChunk();
        current := iter;
        currentBuffer := buffers[iter];
        currentBufferPosition := |currentBuffer|;
      }
    }

    /** Any distance within the bytes, in either direction: a jump lands in the state
        that many single steps lead to. */
    method Advance(n: int)
      requires Valid() && 0 <= position + n <= Total(buffers)
      modifies this
      ensures Valid() && position == old(position) + n
      ensures (current, currentBufferPosition) == old(Steps(buffers, current, currentBufferPosition, n))
    {
      ghost var there := Steps(buffers, current, currentBufferPosition, n);
      StepsLocated(buffers, position, current, currentBufferPosition, n);
      if n > 0 {
        AdvanceForward(n);
      } else if n < 0 {
        AdvanceBackward(-n);
      }
      LocatedUnique(buffers, position, current, currentBufferPosition, there.0, there.1);
    }

    /** operator[] */
    method At(difference: int) returns (b: Byte)
      requires Valid() && 0 <= position + difference < Total(buffers)
      ensures position + difference < |Flat(buffers)| && b == Flat(buffers)[position + difference]
    {
      var tmp := new BuffersIterator.Copy(this);
      tmp.Advance(difference);
      b := tmp.Dereference();
    }

    function DistanceTo(other: BuffersIterator): int
      reads this, other
    {
      other.position - position
    }

    /** The comparison operators, by distance. */
    predicate Less(other: BuffersIterator)
      reads this, other
    {
      DistanceTo(other) > 0
    }
  }

  /** Two iterators over the same chunks compare equal exactly when they stand at the
      same byte, and are ordered as their bytes are. */
  lemma EqualIffSamePlace(a: BuffersIterator, b: BuffersIterator)
    requires a.Valid() && b.Valid() && a.buffers == b.buffers
    ensures a.position == b.position <==>
              a.current == b.current && a.currentBufferPosition == b.currentBufferPosition
    ensures a.Less(b) <==> || a.current < b.current
                           || (a.current == b.current && a.currentBufferPosition < b.currentBufferPosition)
  {
    if a.current < b.current {
      OffsetMonotone(a.buffers, a.current + 1, b.current);
    } else if b.current < a.current {
      OffsetMonotone(a.buffers, b.current + 1, a.current);
    }
  }

  /** The distance to another iterator is the jump that lands in its state. */
  lemma DistanceLands(a: BuffersIterator, b: BuffersIterator)
    requires a.Valid() && b.Valid() && a.buffers == b.buffers
    ensures Steps(a.buffers, a.current, a.currentBufferPosition, a.DistanceTo(b))
            == (b.current, b.currentBufferPosition)
    ensures a.DistanceTo(b) == -b.DistanceTo(a)
  {
    var (c, off) := Steps(a.buffers, a.current, a.currentBufferPosition, b.position - a.position);
    LocatedInRange(b.buffers, b.position, b.current, b.currentBufferPosition);
    StepsLocated(a.buffers, a.position, a.current, a.currentBufferPosition, b.position - a.position);
    LocatedUnique(b.buffers, b.position, c, off, b.current, b.currentBufferPosition);
  }

  method AdvanceTo(a: BuffersIterator, b: BuffersIterator)
    requires a != b && a.Valid() && b.Valid() && a.buffers == b.buffers
    modifies a
    ensures a.Valid() && a.position == b.position
    ensures a.current == b.current && a.currentBufferPosition == b.currentBufferPosition
  {
    LocatedInRange(b.buffers, b.position, b.current, b.currentBufferPosition);
    DistanceLands(a, b);
    a.Advance(a.DistanceTo(b));
  }

  /** A jump by n lands where n single steps lead, in the same state. */
  method JumpIsSteps(stepping: BuffersIterator, jumping: BuffersIterator, n: nat)
    requires stepping != jumping && stepping.Valid() && jumping.Valid()
    requires stepping.buffers == jumping.buffers && stepping.position == jumping.position
    requires stepping.position + n <= Total(stepping.buffers)
    modifies stepping, jumping
    ensures stepping.Valid() && jumping.Valid()
    ensures stepping.position == jumping.position == old(stepping.position) + n
    ensures stepping.current == jumping.current
    ensures stepping.currentBufferPosition == jumping.currentBufferPosition
  {
    for i := 0 to n
      invariant stepping.Valid() && jumping.Valid()
      invariant stepping.position == old(stepping.position) + i && jumping.position == old(jumping.position)
    {
      stepping.Increment();
    }
    jumping.Advance(n);
    EqualIffSamePlace(stepping, jumping);
  }

  /** A jump back by n lands where n single steps back lead, in the same state. */
  method JumpBackIsSteps(stepping: BuffersIterator, jumping: BuffersIterator, n: nat)
    requires stepping != jumping && stepping.Valid() && jumping.Valid()
    requires stepping.buffers == jumping.buffers && stepping.position == jumping.position >= n
    modifies stepping, jumping
    ensures stepping.Valid() && jumping.Valid()
    ensures stepping.position == jumping.position == old(stepping.position) - n
    ensures stepping.current == jumping.current
    ensures stepping.currentBufferPosition == jumping.currentBufferPosition
  {
    for i := 0 to n
      invariant stepping.Valid() && jumping.Valid()
      invariant stepping.position == old(stepping.position) - i && jumping.position == old(jumping.position)
    {
      stepping.Decrement();
    }
    LocatedInRange(jumping.buffers, jumping.position, jumping.current, jumping.currentBufferPosition);
    var back: int := n;
    jumping.Advance(-back);
    EqualIffSamePlace(stepping, jumping);
  }
}
