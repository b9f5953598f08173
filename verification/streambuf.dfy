/** thirdparty/asio/basic_streambuf.hpp: a byte queue in one vector that compacts
    and grows, up to a maximum size. Pointers are offsets into the vector. */
module Streambufs {
  import opened Bytes
  import opened Claims

  const BUFFER_DELTA := 128
  const INT_MAX := 0x7FFF_FFFF

  /** `static_cast<int>` of a size, as pbump and gbump take it. */
  function ToInt(n: nat): int {
    (n + 0x8000_0000) % 0x1_0000_0000 - 0x8000_0000
  }

  lemma ToIntExact(n: nat)
    ensures ToInt(n) == n <==> n <= INT_MAX
  {}

  /** The cast keeps the low 32 bits, read as a signed number. */
  lemma ToIntIsCast(n: nat)
    ensures -0x8000_0000 <= ToInt(n) <= INT_MAX && (ToInt(n) - n) % 0x1_0000_0000 == 0
  {}

  /** memmove of the bytes from g to p to the front. */
  function Shifted(buffer: seq<Byte>, g: nat, p: nat): (s: seq<Byte>)
    requires g <= p <= |buffer|
    ensures |s| == |buffer|
  {
    buffer[g..p] + buffer[p - g..]
  }

  /** Each readable byte that the move overwrites is overwritten by its equal. */
  ghost predicate Repeats(buffer: seq<Byte>, g: nat, p: nat)
    requires g <= p <= |buffer|
  {
    forall i :: g <= i < p - g ==> buffer[i + g] == buffer[i]
  }

  lemma ShiftedAt(buffer: seq<Byte>, g: nat, p: nat, i: nat)
    requires g <= p <= |buffer| && i < |buffer|
    ensures Shifted(buffer, g, p)[i] == if i < p - g then buffer[i + g] else buffer[i]
  {}

  /** A failed reservation has moved the bytes but not the pointers. The readable bytes
      survive exactly when those the move reached were overwritten by their equals. */
  lemma FailedReserveKeepsBytes(buffer: seq<Byte>, g: nat, p: nat)
    requires g <= p <= |buffer|
    ensures Shifted(buffer, g, p)[g..p] == buffer[g..p] <==> Repeats(buffer, g, p)
  {
    var s := Shifted(buffer, g, p);
    if s[g..p] == buffer[g..p] {
      forall i | g <= i < p - g ensures buffer[i + g] == buffer[i] {
        ShiftedAt(buffer, g, p, i);
        assert s[g..p][i - g] == buffer[g..p][i - g];
      }
    }
    if Repeats(buffer, g, p) {
      forall i | g <= i < p ensures s[i] == buffer[i] {
        ShiftedAt(buffer, g, p, i);
      }
    }
  }

  /** Whatever the bytes are, they survive exactly when nothing had been consumed, or at
      least as much as was left: only then does the move reach none of them. */
  lemma FailedReserveAlwaysKeeps(size: nat, g: nat, p: nat)
    requires g <= p <= size
    ensures (forall b: seq<Byte> :: |b| == size ==> Shifted(b, g, p)[g..p] == b[g..p])
            <==> g == 0 || p - g <= g
  {
    if g == 0 || p - g <= g {
      forall b: seq<Byte> | |b| == size ensures Shifted(b, g, p)[g..p] == b[g..p] {
        FailedReserveKeepsBytes(b, g, p);
      }
    } else {
      var marked: seq<Byte> := seq(size, i => if i == g then 1 else 0);
      FailedReserveKeepsBytes(marked, g, p);
      assert marked[g + g] != marked[g];
    }
  }

  lemma SamePrefix(a: seq<Byte>, b: seq<Byte>, c: seq<Byte>)
    ensures a + b == a + c <==> b == c
  {
    assert (a + b)[|a|..] == b && (a + c)[|a|..] == c;
  }

  lemma CutAt(consumed: seq<Byte>, s: seq<Byte>, g: nat, k: nat, p: nat)
    requires g + k <= p <= |s|
    ensures consumed + s[g..p] == (consumed + s[g..p][..k]) + s[g + k..p]
    ensures s[g..p][k..] == s[g + k..p]
  {}

  class BasicStreambuf {
    const maxSize: nat
    var buffer: seq<Byte>
    var gptr: int
    var egptr: int
    var pptr: int
    var epptr: int
    // every byte ever put in, and every byte ever taken out
    ghost var committed: seq<Byte>
    ghost var consumed: seq<Byte>

    ghost predicate Ordered()
      reads this
    {
      && 0 <= gptr <= egptr <= pptr <= epptr <= |buffer|
      && epptr <= maxSize && |buffer| >= 1
    }

    ghost function Contents(): seq<Byte>
      requires Ordered()
      reads this
    {
      buffer[gptr..pptr]
    }

    /** First in, first out. */
    ghost predicate Valid()
      reads this
    {
      Ordered() && committed == consumed + Contents()
    }

    constructor (maximumSize: nat)
      ensures Valid() && maxSize == maximumSize && Contents() == [] && consumed == []
      ensures epptr - pptr == Min(maximumSize, 128)
    {
      var pend := Min(maximumSize, BUFFER_DELTA);
      maxSize := maximumSize;
      buffer := seq(Max(pend, 1), _ => 0);
      gptr, egptr, pptr, epptr := 0, 0, 0, pend;
      committed, consumed := [], [];
    }

    method Size() returns (n: int)
      requires Valid()
      ensures n == |Contents()|
    {
      n := pptr - gptr;
    }

    method Data() returns (d: seq<Byte>)
      requires Ordered()
      ensures d == Contents()
      ensures Valid() <==> committed == consumed + d
    {
      d := buffer[gptr..pptr];
    }

    /** Make room for n more bytes; true if that raises length_error. */
    method Reserve(n: nat) returns (raised: bool)
      requires Valid()
      modifies this`buffer, this`gptr, this`egptr, this`pptr, this`epptr
      ensures raised <==> |old(Contents())| + n > maxSize
      ensures !raised ==> Valid() && Contents() == old(Contents()) && epptr - pptr >= n
      ensures !raised && n <= old(epptr - pptr) ==>
                gptr == old(gptr) && egptr == old(egptr) && pptr == old(pptr) && epptr == old(epptr)
      ensures !raised && n > old(epptr - pptr) ==> gptr == 0 && egptr == pptr && epptr == Max(old(epptr), pptr + n)
      ensures raised ==>
                && gptr == old(gptr) && egptr == old(egptr) && pptr == old(pptr) && epptr == old(epptr)
                && buffer == Shifted(old(buffer), gptr, pptr)
    {
      var gnext, pnext, pend := gptr, pptr, epptr;
      if n <= pend - pnext {
        return false;
      }
      if gnext > 0 {
        pnext := pnext - gnext;
        buffer := Shifted(buffer, gnext, pptr);
      } else {
        assert Shifted(buffer, 0, pptr) == buffer;
      }
      assert buffer[..pnext] == old(Contents());
      if n > pend - pnext {
        if n <= maxSize && pnext <= maxSize - n {
          pend := pnext + n;
          Resize(Max(pend, 1), pnext);
        } else {
          return true;
        }
      }
      gptr, egptr := 0, pnext;
      pptr, epptr := pnext, pend;
      assert buffer[0..pnext] == buffer[..pnext];
      raised := false;
    }

    /** vector::resize, which keeps the first bytes. */
    method Resize(size: nat, kept: nat)
      requires kept <= |buffer| && kept <= size
      modifies this`buffer
      ensures |buffer| == size && buffer[..kept] == old(buffer)[..kept]
    {
      buffer := if size <= |buffer| then buffer[..size] else buffer + seq(size - |buffer|, _ => 0);
    }

    /** Raises exactly when size() + n > max_size(). A raise leaves the readable bytes as
        they were exactly when the bytes it moved were overwritten by their equals. */
    method Prepare(n: nat) returns (raised: bool)
      requires Valid()
      modifies this`buffer, this`gptr, this`egptr, this`pptr, this`epptr
      ensures raised <==> |old(Contents())| + n > maxSize
      ensures !raised ==> Valid() && Contents() == old(Contents()) && epptr - pptr >= n
      ensures raised ==>
                && gptr == old(gptr) && egptr == old(egptr) && pptr == old(pptr) && epptr == old(epptr)
                && buffer == Shifted(old(buffer), gptr, pptr) && Ordered()
                && (Contents() == old(Contents()) <==> Repeats(old(buffer), gptr, pptr))
                && (Valid() <==> Repeats(old(buffer), gptr, pptr))
    {
      raised := Reserve(n);
      if raised {
        FailedReserveKeepsBytes(old(buffer), gptr, pptr);
        SamePrefix(consumed, Contents(), old(Contents()));
      }
    }

    /** What the caller of `Prepare` does with the memory it got. */
    method Fill(data: seq<Byte>)
      requires Valid() && |data| <= epptr - pptr
      modifies this`buffer
      ensures Valid() && Contents() == old(Contents())
      ensures buffer[pptr..pptr + |data|] == data
    {
      buffer := buffer[..pptr] + data + buffer[pptr + |data|..];
      assert buffer[gptr..pptr] == old(buffer)[gptr..pptr];
    }

    /** Move bytes from the output to the input: n, or all there are. The move is by
        an int, so it is the right one exactly up to INT_MAX bytes. */
    method Commit(n: nat)
      requires Valid()
      modifies this`pptr, this`egptr, this`committed
      ensures pptr == egptr == old(pptr) + ToInt(Min(n, epptr - old(pptr)))
      ensures pptr == old(pptr) + Min(n, epptr - old(pptr)) <==> Min(n, epptr - old(pptr)) <= INT_MAX
      ensures Min(n, epptr - old(pptr)) <= INT_MAX ==>
                && Valid()
                && Contents() == old(Contents()) + old(buffer)[old(pptr)..old(pptr) + Min(n, epptr - old(pptr))]
    {
      var k: nat := n;
      if pptr + k > epptr {
        k := epptr - pptr;
      }
      ToIntExact(k);
      var end := pptr + ToInt(k);
      if k <= INT_MAX {
        committed := committed + buffer[pptr..end];
        assert buffer[gptr..end] == buffer[gptr..pptr] + buffer[pptr..end];
      }
      pptr := end;
      egptr := pptr;
    }

    /** Take n bytes out of the input, or all there are; the same limit applies. */
    method Consume(n: nat)
      requires Valid()
      modifies this`gptr, this`egptr, this`consumed
      ensures gptr == old(gptr) + ToInt(Min(n, |old(Contents())|)) && egptr == pptr
      ensures gptr == old(gptr) + Min(n, |old(Contents())|) <==> Min(n, |old(Contents())|) <= INT_MAX
      ensures Min(n, |old(Contents())|) <= INT_MAX ==>
                && Valid()
                && Contents() == old(Contents())[Min(n, |old(Contents())|)..]
                && consumed == old(consumed) + old(Contents())[..Min(n, |old(Contents())|)]
    {
      if egptr < pptr {
        egptr := pptr;
      }
      var k: nat := n;
      if gptr + k > pptr {
        k := pptr - gptr;
      }
      Take(k);
    }

    /** gbump. */
    method Take(k: nat)
      requires Valid() && gptr + k <= egptr == pptr
      modifies this`gptr, this`consumed
      ensures gptr == old(gptr) + ToInt(k)
      ensures gptr == old(gptr) + k <==> k <= INT_MAX
      ensures k <= INT_MAX ==>
                && Valid()
                && Contents() == old(Contents())[k..]
                && consumed == old(consumed) + old(Contents())[..k]
    {
      ToIntExact(k);
      var step := ToInt(k);
      if k <= INT_MAX {
        CutAt(consumed, buffer, gptr, k, pptr);
        consumed := consumed + buffer[gptr..pptr][..k];
      }
      gptr := gptr + step;
    }

    method Underflow() returns (c: Option<Byte>)
      requires Valid()
      modifies this`egptr
      ensures Valid() && Contents() == old(Contents())
      ensures c == if Contents() == [] then None else Some(Contents()[0])
      ensures egptr == if Contents() == [] then old(egptr) else pptr
    {
      if gptr < pptr {
        egptr := pptr;
        c := Some(buffer[gptr]);
      } else {
        c := None;
      }
    }

    /** Room for one more byte where there is none, in steps of at most BUFFER_DELTA. */
    method MakeRoom() returns (raised: bool)
      requires Valid() && pptr == epptr
      modifies this`buffer, this`gptr, this`egptr, this`pptr, this`epptr
      ensures raised <==> |old(Contents())| == maxSize
      ensures Valid() && Contents() == old(Contents())
      ensures !raised ==> pptr < epptr && epptr - pptr >= Min(128, maxSize - |Contents()|)
    {
      var size: nat := pptr - gptr;
      if size < maxSize && maxSize - size < BUFFER_DELTA {
        raised := Reserve(maxSize - size);
      } else {
        raised := Reserve(BUFFER_DELTA);
      }
      if raised {
        assert gptr == 0;  // a full queue has nothing consumed in front of it
        assert Shifted(old(buffer), 0, pptr) == old(buffer);
      }
    }

    method Append(c: Byte)
      requires Valid() && pptr < epptr
      modifies this`buffer, this`pptr, this`committed
      ensures Valid() && Contents() == old(Contents()) + [c] && pptr == old(pptr) + 1
    {
      buffer := buffer[pptr := c];
      pptr := pptr + 1;
      committed := committed + [c];
      assert buffer[gptr..pptr] == old(Contents()) + [c];
    }

    /** Append a byte (`None` is eof); raises exactly when the queue is full, and then
        changes nothing that can be read. */
    method Overflow(c: Option<Byte>) returns (raised: bool)
      requires Valid()
      modifies this
      ensures raised <==> c.Some? && |old(Contents())| == maxSize
      ensures Valid() && consumed == old(consumed)
      ensures c.Some? && !raised && old(pptr) == old(epptr) ==>
                epptr - pptr + 1 >= Min(128, maxSize - |old(Contents())|)
      ensures Contents() == old(Contents()) + if c.Some? && !raised then [c.value] else []
    {
      raised := false;
      if c.Some? {
        if pptr == epptr {
          raised := MakeRoom();
        }
        if !raised {
          Append(c.value);
        }
      }
    }
  }

  method Holding(data: seq<Byte>) returns (sb: BasicStreambuf)
    requires |data| <= INT_MAX
    ensures fresh(sb) && sb.Valid() && sb.maxSize == |data|
    ensures sb.Contents() == data && sb.consumed == []
  {
    sb := new BasicStreambuf(|data|);
    var raised := sb.Prepare(|data|);
    sb.Fill(data);
    sb.Commit(|data|);
  }

  lemma ShiftByOne(b: seq<Byte>)
    requires |b| >= 3 && b[1..3] == [2, 3]
    ensures Shifted(b, 1, 3)[1..3] == [3, 3]
  {
    assert b[1] == b[1..3][0] && b[2] == b[1..3][1];
  }

  /** A reachable queue that a raise spoils: of three bytes one was consumed, and after
      the failed `Prepare` data() shows the last one twice. */
  method FailedPrepareLosesAByte() returns (sb: BasicStreambuf, before: seq<Byte>, after: seq<Byte>)
    ensures fresh(sb) && sb.maxSize == 3 && sb.Ordered()
    ensures before == [2, 3] && sb.committed == sb.consumed + before
    ensures after == [3, 3] && sb.Contents() == after
  {
    sb := Holding([1, 2, 3]);
    sb.Consume(1);
    before := sb.Data();
    ShiftByOne(sb.buffer);
    var raised := sb.Prepare(2);
    after := sb.Data();
  }
}
