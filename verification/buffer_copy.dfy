/** The copying functions of thirdparty/asio/buffer.hpp: scatter/gather copies
    between lists of memory regions, with two cursors that move independently. */
module BufferCopy {
  import opened Bytes
  import opened Claims

  /** A mutable_buffer or const_buffer: `size` bytes of memory from address `data`. */
  datatype Buffer = Buffer(data: nat, size: nat)

  /** operator+: the part of a buffer from `start` on. */
  function Plus(b: Buffer, start: nat): Buffer {
    if start > b.size then Buffer(0, 0) else Buffer(b.data + start, b.size - start)
  }

  /** buffer(b, max): at most the first `max` bytes. */
  function Clip(b: Buffer, max: nat): Buffer {
    Buffer(b.data, if b.size < max then b.size else max)
  }

  /** The addresses a buffer covers, in order. */
  function Region(b: Buffer): (r: seq<nat>)
    ensures |r| == b.size
  {
    seq(b.size, i requires 0 <= i < b.size => b.data + i)
  }

  function Addresses(bufs: seq<Buffer>): seq<nat> {
    if bufs == [] then [] else Region(bufs[0]) + Addresses(bufs[1..])
  }

  // ----- what a copy is -----

  /** None of n bytes is read at the address a. */
  ghost predicate NotRead(s: seq<nat>, n: nat, a: nat)
    requires n <= |s|
  {
    forall j :: 0 <= j < n ==> s[j] != a
  }

  /** memcpy's demand on the n bytes copied: none is stored where one is read. */
  ghost predicate Apart(t: seq<nat>, s: seq<nat>, length: nat, n: nat)
    requires n <= |t| && n <= |s|
  {
    && (forall i :: 0 <= i < n ==> t[i] < length)
    && (forall i :: 0 <= i < n ==> s[i] < length)
    && (forall i {:trigger NotRead(s, n, t[i])} :: 0 <= i < n ==> NotRead(s, n, t[i]))
  }

  lemma ApartLess(t: seq<nat>, s: seq<nat>, length: nat, n: nat, m: nat)
    requires m <= n <= |t| && n <= |s| && Apart(t, s, length, n)
    ensures Apart(t, s, length, m)
  {
    forall i | 0 <= i < m ensures NotRead(s, m, t[i]) {
      assert NotRead(s, n, t[i]);
    }
  }

  lemma NotStoredTo(t: seq<nat>, s: seq<nat>, length: nat, n: nat, k: nat, j: nat)
    requires n <= |t| && n <= |s| && Apart(t, s, length, n) && k <= n && j < n
    ensures forall i :: 0 <= i < k ==> t[i] != s[j]
  {
    forall i | 0 <= i < k ensures t[i] != s[j] {
      assert NotRead(s, n, t[i]);
    }
  }

  /** The memory after the first n bytes read through `s` are stored through `t`. */
  function Stored(was: seq<Byte>, t: seq<nat>, s: seq<nat>, n: nat): (now: seq<Byte>)
    ensures |now| == |was|
  {
    if n == 0 || n > |t| || n > |s| then was
    else
      var now := Stored(was, t, s, n - 1);
      if t[n - 1] < |was| && s[n - 1] < |was| then now[t[n - 1] := was[s[n - 1]]] else now
  }

  predicate Copied(was: seq<Byte>, now: seq<Byte>, t: seq<nat>, s: seq<nat>, n: nat) {
    now == Stored(was, t, s, n)
  }

  /** The last of the n stores to an address. */
  ghost predicate LastStore(t: seq<nat>, n: nat, i: nat, a: nat)
    requires n <= |t|
  {
    i < n && t[i] == a && forall j :: i < j < n ==> t[j] != a
  }

  /** The byte last stored to an address stands there; a byte nothing was stored to is
      as it was. */
  lemma {:induction false} StoredMeans(was: seq<Byte>, t: seq<nat>, s: seq<nat>, n: nat, a: nat)
    requires n <= |t| && n <= |s| && Apart(t, s, |was|, n) && a < |was|
    ensures (forall i :: 0 <= i < n ==> t[i] != a) ==> Stored(was, t, s, n)[a] == was[a]
    ensures forall i :: 0 <= i < n && LastStore(t, n, i, a) ==> Stored(was, t, s, n)[a] == was[s[i]]
    decreases n
  {
    if n > 0 {
      ApartLess(t, s, |was|, n, n - 1);
      NotStoredTo(t, s, |was|, n, n, n - 1);
      StoredMeans(was, t, s, n - 1, a);
      forall i | 0 <= i < n && LastStore(t, n, i, a) ensures Stored(was, t, s, n)[a] == was[s[i]] {
        if i < n - 1 {
          assert t[n - 1] != a && LastStore(t, n - 1, i, a);
        }
      }
    }
  }

  lemma ApartPart(t: seq<nat>, s: seq<nat>, length: nat, k: nat, t': seq<nat>, s': seq<nat>, j: nat)
    requires k <= |t| && k <= |s| && t' <= t[k..] && s' <= s[k..] && j <= |t'| && j <= |s'|
    requires Apart(t, s, length, k + j)
    ensures Apart(t', s', length, j)
  {
    forall i | 0 <= i < j ensures t'[i] == t[k + i] && s'[i] == s[k + i] {
      assert t[k..][i] == t[k + i] && s[k..][i] == s[k + i];
    }
    forall i | 0 <= i < j ensures NotRead(s', j, t'[i]) {
      assert NotRead(s, k + j, t[k + i]);
    }
  }

  /** Storing k bytes and then the next j is storing k + j. */
  lemma {:induction false} StoreMore(was: seq<Byte>, t: seq<nat>, s: seq<nat>, k: nat,
                                     t': seq<nat>, s': seq<nat>, j: nat)
    requires k <= |t| && k <= |s| && t' <= t[k..] && s' <= s[k..] && j <= |t'| && j <= |s'|
    requires Apart(t, s, |was|, k + j)
    ensures Stored(Stored(was, t, s, k), t', s', j) == Stored(was, t, s, k + j)
    decreases j
  {
    ApartLess(t, s, |was|, k + j, k);
    if j > 0 {
      ApartLess(t, s, |was|, k + j, k + j - 1);
      NotStoredTo(t, s, |was|, k + j, k, k + j - 1);
      StoreMore(was, t, s, k, t', s', j - 1);
      assert t'[j - 1] == t[k..][j - 1] == t[k + j - 1];
      assert s'[j - 1] == s[k..][j - 1] == s[k + j - 1];
      StoredMeans(was, t, s, k, s[k + j - 1]);
    }
  }

  // ----- the loops' cursors -----

  /** What is left of a list whose cursor stands at byte `off` of buffer i. */
  function Remaining(bufs: seq<Buffer>, i: nat, off: nat): seq<nat>
    requires i <= |bufs|
  {
    if i == |bufs| then [] else Region(Plus(bufs[i], off)) + Addresses(bufs[i + 1..])
  }

  lemma RemainingAtStart(bufs: seq<Buffer>, i: nat)
    requires i <= |bufs|
    ensures Remaining(bufs, i, 0) == Addresses(bufs[i..])
  {
    if i < |bufs| {
      assert bufs[i..][0] == bufs[i] && bufs[i..][1..] == bufs[i + 1..];
      assert Region(Plus(bufs[i], 0)) == Region(bufs[i]);
    }
  }

  lemma DropFromConcat(a: seq<nat>, b: seq<nat>, j: nat)
    requires j <= |a|
    ensures (a + b)[j..] == a[j..] + b
  {}

  lemma RegionDrop(b: Buffer, j: nat)
    requires j <= b.size
    ensures Region(b)[j..] == Region(Plus(b, j))
  {}

  /** Moving a cursor on by j bytes of its buffer drops j addresses. */
  lemma CursorMoves(bufs: seq<Buffer>, i: nat, off: nat, j: nat)
    requires i < |bufs| && off <= bufs[i].size && j <= Plus(bufs[i], off).size
    ensures j <= |Remaining(bufs, i, off)|
    ensures Remaining(bufs, i, off)[j..] ==
            if j == Plus(bufs[i], off).size then Remaining(bufs, i + 1, 0) else Remaining(bufs, i, off + j)
  {
    var b, rest := Plus(bufs[i], off), Addresses(bufs[i + 1..]);
    DropFromConcat(Region(b), rest, j);
    if j == b.size {
      RemainingAtStart(bufs, i + 1);
    } else {
      RegionDrop(b, j);
      assert Plus(b, j) == Plus(bufs[i], off + j);
    }
  }

  lemma DropDrop(t: seq<nat>, k: nat, j: nat)
    requires k + j <= |t|
    ensures t[k..][j..] == t[k + j..]
  {}

  // ----- buffer_size -----

  method BufferSize(bufs: seq<Buffer>) returns (total: nat)
    ensures total == |Addresses(bufs)|
  {
    total := 0;
    assert bufs[0..] == bufs;
    for i := 0 to |bufs|
      invariant total + |Addresses(bufs[i..])| == |Addresses(bufs)|
    {
      assert bufs[i..][1..] == bufs[i + 1..];
      total := total + bufs[i].size;
    }
  }

  // ----- buffer_copy -----

  /** memcpy: the n bytes from `from` on now stand from `to` on, and nothing else has changed. */
  predicate BytesMoved(was: seq<Byte>, now: seq<Byte>, to: nat, from: nat, n: nat) {
    if n == 0 then now == was
    else
      && to + n <= |was| && from + n <= |was|
      && now == was[..to] + was[from..from + n] + was[to + n..]
  }

  lemma {:induction false} StoredMoves(was: seq<Byte>, target: Buffer, source: Buffer, n: nat)
    requires n <= target.size && n <= source.size && (n > 0 ==> target.data + n <= |was| && source.data + n <= |was|)
    ensures BytesMoved(was, Stored(was, Region(target), Region(source), n), target.data, source.data, n)
    decreases n
  {
    if n > 0 {
      StoredMoves(was, target, source, n - 1);
      var to, from := target.data, source.data;
      assert Region(target)[n - 1] == to + n - 1 && Region(source)[n - 1] == from + n - 1;
      assert was[from..from + n] == was[from..from + n - 1] + [was[from + n - 1]];
      assert was[to + n - 1..] == [was[to + n - 1]] + was[to + n..];
    }
  }

  lemma LastByteInMemory(b: Buffer, n: nat, length: nat)
    requires n <= b.size && forall i :: 0 <= i < n ==> Region(b)[i] < length
    ensures n > 0 ==> b.data + n <= length
  {
    if n > 0 {
      assert Region(b)[n - 1] == b.data + n - 1;
    }
  }

  method CopyBuffer(mem: array<Byte>, target: Buffer, source: Buffer) returns (n: nat)
    requires Apart(Region(target), Region(source), mem.Length, Min(target.size, source.size))
    modifies mem
    ensures n == Min(target.size, source.size)
    ensures Copied(old(mem[..]), mem[..], Region(target), Region(source), n)
    ensures BytesMoved(old(mem[..]), mem[..], target.data, source.data, n)
  {
    n := if target.size < source.size then target.size else source.size;
    for i := 0 to n
      invariant Copied(old(mem[..]), mem[..], Region(target), Region(source), i)
    {
      ghost var t, s := Region(target), Region(source);
      assert t[i] == target.data + i && s[i] == source.data + i;
      ApartLess(t, s, mem.Length, n, i);
      NotStoredTo(t, s, mem.Length, n, i, i);
      StoredMeans(old(mem[..]), t, s, i, s[i]);
      mem[target.data + i] := mem[source.data + i];
    }
    LastByteInMemory(target, n, mem.Length);
    LastByteInMemory(source, n, mem.Length);
    StoredMoves(old(mem[..]), target, source, n);
  }

  lemma ClipIsPrefix(b: Buffer, max: nat)
    ensures Region(Clip(b, max)) <= Region(b)
  {}

  /** A copy that stays within a prefix of the target is a copy to the target. */
  lemma {:induction false} StoredThroughPrefix(was: seq<Byte>, c: seq<nat>, t: seq<nat>, s: seq<nat>, n: nat)
    requires c <= t && n <= |c| && n <= |s|
    ensures Stored(was, c, s, n) == Stored(was, t, s, n)
    decreases n
  {
    if n > 0 {
      StoredThroughPrefix(was, c, t, s, n - 1);
    }
  }

  method CopyBufferMax(mem: array<Byte>, target: Buffer, source: Buffer, max: nat) returns (n: nat)
    requires Apart(Region(target), Region(source), mem.Length, Min(Min(target.size, source.size), max))
    modifies mem
    ensures n == Min(Min(target.size, source.size), max)
    ensures Copied(old(mem[..]), mem[..], Region(target), Region(source), n)
    ensures BytesMoved(old(mem[..]), mem[..], target.data, source.data, n)
  {
    var clipped := Clip(target, max);
    ClipIsPrefix(target, max);
    StoredThroughPrefix(mem[..], Region(clipped), Region(target), Region(source), Min(clipped.size, source.size));
    n := CopyBuffer(mem, clipped, source);
  }

  /** The loops' iterator and offset on one side. */
  datatype Cursor = Cursor(buf: nat, off: nat)

  ghost predicate CursorAt(bufs: seq<Buffer>, all: seq<nat>, total: nat, c: Cursor) {
    && c.buf <= |bufs| && c.off <= (if c.buf < |bufs| then bufs[c.buf].size else 0)
    && total <= |all| && all[total..] == Remaining(bufs, c.buf, c.off)
  }

  lemma CursorStarts(bufs: seq<Buffer>)
    ensures CursorAt(bufs, Addresses(bufs), 0, Cursor(0, 0))
  {
    RemainingAtStart(bufs, 0);
    assert bufs[0..] == bufs && Addresses(bufs)[0..] == Addresses(bufs);
  }

  lemma CursorSees(bufs: seq<Buffer>, all: seq<nat>, total: nat, c: Cursor)
    requires CursorAt(bufs, all, total, c) && c.buf < |bufs|
    ensures total <= |all| && Region(Plus(bufs[c.buf], c.off)) <= all[total..]
  {}

  /** A cursor at the end of its list has seen every byte, and no cursor more. */
  lemma CursorBound(bufs: seq<Buffer>, all: seq<nat>, total: nat, c: Cursor)
    requires CursorAt(bufs, all, total, c)
    ensures total <= |all| && (c.buf == |bufs| ==> total == |all|)
  {}

  /** Past the bytes just copied: on to the next buffer, or further into this one. */
  function Moved(copied: nat, bufs: seq<Buffer>, c: Cursor): Cursor
    requires c.buf < |bufs|
  {
    if copied == Plus(bufs[c.buf], c.off).size then Cursor(c.buf + 1, 0) else Cursor(c.buf, c.off + copied)
  }

  lemma MovedIsThere(copied: nat, bufs: seq<Buffer>, c: Cursor, all: seq<nat>, total: nat)
    requires CursorAt(bufs, all, total, c) && c.buf < |bufs| && copied <= Plus(bufs[c.buf], c.off).size
    ensures CursorAt(bufs, all, total + copied, Moved(copied, bufs, c))
  {
    CursorMoves(bufs, c.buf, c.off, copied);
    DropDrop(all, total, copied);
  }

  /** `total` bytes are copied and the cursors stand behind them. */
  ghost predicate Progress(target: seq<Buffer>, source: seq<Buffer>, at: Cursor, from: Cursor,
                           was: seq<Byte>, now: seq<Byte>, t: seq<nat>, s: seq<nat>, total: nat)
  {
    CursorAt(target, t, total, at) && CursorAt(source, s, total, from) && Copied(was, now, t, s, total)
  }

  /** One turn of a copying loop: the next chunks on both sides, `total` bytes in. */
  method CopyChunk(mem: array<Byte>, tb: Buffer, sb: Buffer,
                   ghost was: seq<Byte>, ghost t: seq<nat>, ghost s: seq<nat>, ghost total: nat)
    returns (n: nat)
    requires total <= |t| && total <= |s| && Region(tb) <= t[total..] && Region(sb) <= s[total..]
    requires |was| == mem.Length && Copied(was, mem[..], t, s, total)
    requires Apart(t, s, mem.Length, total + Min(tb.size, sb.size))
    modifies mem
    ensures n == Min(tb.size, sb.size)
    ensures Copied(was, mem[..], t, s, total + n)
  {
    ApartPart(t, s, mem.Length, total, Region(tb), Region(sb), Min(tb.size, sb.size));
    n := CopyBuffer(mem, tb, sb);
    StoreMore(was, t, s, total, Region(tb), Region(sb), n);
  }

  method CopyChunkMax(mem: array<Byte>, tb: Buffer, sb: Buffer, max: nat,
                      ghost was: seq<Byte>, ghost t: seq<nat>, ghost s: seq<nat>, ghost total: nat)
    returns (n: nat)
    requires total <= |t| && total <= |s| && Region(tb) <= t[total..] && Region(sb) <= s[total..]
    requires |was| == mem.Length && Copied(was, mem[..], t, s, total)
    requires Apart(t, s, mem.Length, total + Min(Min(tb.size, sb.size), max))
    modifies mem
    ensures n == Min(Min(tb.size, sb.size), max)
    ensures Copied(was, mem[..], t, s, total + n)
  {
    ApartPart(t, s, mem.Length, total, Region(tb), Region(sb), Min(Min(tb.size, sb.size), max));
    n := CopyBufferMax(mem, tb, sb, max);
    StoreMore(was, t, s, total, Region(tb), Region(sb), n);
  }

  /** Copy the chunks under two cursors, move both past what was copied and add it up. One
      of them at least leaves its buffer, unless the limit is reached. */
  method CopyAt(mem: array<Byte>, target: seq<Buffer>, at: Cursor, source: seq<Buffer>, from: Cursor,
                 ghost was: seq<Byte>, ghost t: seq<nat>, ghost s: seq<nat>, total: nat)
    returns (sum: nat, at': Cursor, from': Cursor)
    requires Progress(target, source, at, from, was, mem[..], t, s, total)
    requires at.buf < |target| && from.buf < |source|
    requires |was| == mem.Length && Apart(t, s, mem.Length, Min(|t|, |s|))
    modifies mem
    ensures Progress(target, source, at', from', was, mem[..], t, s, sum)
    ensures at.buf + from.buf < at'.buf + from'.buf
  {
    var tb, sb := Plus(target[at.buf], at.off), Plus(source[from.buf], from.off);
    CursorSees(target, t, total, at);
    CursorSees(source, s, total, from);
    ApartLess(t, s, mem.Length, Min(|t|, |s|), total + Min(tb.size, sb.size));
    var n := CopyChunk(mem, tb, sb, was, t, s, total);
    MovedIsThere(n, target, at, t, total);
    MovedIsThere(n, source, from, s, total);
    sum, at', from' := total + n, Moved(n, target, at), Moved(n, source, from);
  }

  method CopyAtMax(mem: array<Byte>, target: seq<Buffer>, at: Cursor, source: seq<Buffer>, from: Cursor, max: nat,
                 ghost was: seq<Byte>, ghost t: seq<nat>, ghost s: seq<nat>, total: nat, ghost all: nat)
    returns (sum: nat, at': Cursor, from': Cursor)
    requires Progress(target, source, at, from, was, mem[..], t, s, total)
    requires at.buf < |target| && from.buf < |source|
    requires |was| == mem.Length && all == Min(Min(|t|, |s|), total + max) && Apart(t, s, mem.Length, all)
    modifies mem
    ensures Progress(target, source, at', from', was, mem[..], t, s, sum)
    ensures total <= sum <= total + max && at.buf + from.buf <= at'.buf + from'.buf
    ensures sum == total + max || at.buf + from.buf < at'.buf + from'.buf
  {
    var tb, sb := Plus(target[at.buf], at.off), Plus(source[from.buf], from.off);
    CursorSees(target, t, total, at);
    CursorSees(source, s, total, from);
    ApartLess(t, s, mem.Length, all, total + Min(Min(tb.size, sb.size), max));
    var n := CopyChunkMax(mem, tb, sb, max, was, t, s, total);
    MovedIsThere(n, target, at, t, total);
    MovedIsThere(n, source, from, s, total);
    sum, at', from' := total + n, Moved(n, target, at), Moved(n, source, from);
  }

  /** List to list: as many bytes as the shorter side has. */
  method CopyLists(mem: array<Byte>, target: seq<Buffer>, source: seq<Buffer>) returns (total: nat)
    requires Apart(Addresses(target), Addresses(source), mem.Length, Min(|Addresses(target)|, |Addresses(source)|))
    modifies mem
    ensures total == Min(|Addresses(target)|, |Addresses(source)|)
    ensures Copied(old(mem[..]), mem[..], Addresses(target), Addresses(source), total)
  {
    ghost var t, s, was := Addresses(target), Addresses(source), mem[..];
    total := 0;
    var at, from := Cursor(0, 0), Cursor(0, 0);
    CursorStarts(target);
    CursorStarts(source);
    while at.buf != |target| && from.buf != |source|
      invariant Progress(target, source, at, from, was, mem[..], t, s, total)
      decreases |target| - at.buf + |source| - from.buf
    {
      total, at, from := CopyAt(mem, target, at, source, from, was, t, s, total);
    }
    CursorBound(target, t, total, at);
    CursorBound(source, s, total, from);
  }

  /** List to list, and at most `max` bytes. */
  method CopyListsMax(mem: array<Byte>, target: seq<Buffer>, source: seq<Buffer>, max: nat) returns (total: nat)
    requires Apart(Addresses(target), Addresses(source), mem.Length,
                   Min(Min(|Addresses(target)|, |Addresses(source)|), max))
    modifies mem
    ensures total == Min(Min(|Addresses(target)|, |Addresses(source)|), max)
    ensures Copied(old(mem[..]), mem[..], Addresses(target), Addresses(source), total)
  {
    ghost var t, s, was := Addresses(target), Addresses(source), mem[..];
    ghost var all := Min(Min(|t|, |s|), max);
    total := 0;
    var at, from := Cursor(0, 0), Cursor(0, 0);
    CursorStarts(target);
    CursorStarts(source);
    while total != max && at.buf != |target| && from.buf != |source|
      invariant Progress(target, source, at, from, was, mem[..], t, s, total) && total <= max
      decreases |target| - at.buf + |source| - from.buf + max - total
    {
      total, at, from := CopyAtMax(mem, target, at, source, from, max - total, was, t, s, total, all);
    }
    CursorBound(target, t, total, at);
    CursorBound(source, s, total, from);
  }

  /** The loops with one buffer on a side: `rest` of it is left, and unless that is
      nothing, the list on the other side has been used up to buffer i. */
  ghost predicate OneSided(one: seq<nat>, rest: Buffer, bufs: seq<Buffer>, all: seq<nat>, i: nat, total: nat) {
    && total <= |one| && one[total..] == Region(rest) && total <= |all|
    && (rest.size == 0 || CursorAt(bufs, all, total, Cursor(i, 0)))
  }

  lemma OneSidedStarts(one: Buffer, bufs: seq<Buffer>)
    ensures OneSided(Region(one), one, bufs, Addresses(bufs), 0, 0)
  {
    CursorStarts(bufs);
  }

  lemma OneSidedSees(one: seq<nat>, rest: Buffer, bufs: seq<Buffer>, all: seq<nat>, i: nat, total: nat)
    requires OneSided(one, rest, bufs, all, i, total) && rest.size != 0 && i < |bufs|
    ensures total <= |one| && total <= |all| && Region(rest) <= one[total..] && Region(bufs[i]) <= all[total..]
  {
    CursorSees(bufs, all, total, Cursor(i, 0));
    assert Plus(bufs[i], 0) == bufs[i];
  }

  lemma OneSidedMoves(one: seq<nat>, rest: Buffer, bufs: seq<Buffer>, all: seq<nat>, i: nat, total: nat)
    requires OneSided(one, rest, bufs, all, i, total) && rest.size != 0 && i < |bufs|
    ensures var copied := Min(rest.size, bufs[i].size);
            OneSided(one, Plus(rest, copied), bufs, all, i + 1, total + copied)
  {
    var copied := Min(rest.size, bufs[i].size);
    assert Plus(bufs[i], 0) == bufs[i];
    MovedIsThere(copied, bufs, Cursor(i, 0), all, total);
    RegionDrop(rest, copied);
    DropDrop(one, total, copied);
  }

  lemma OneSidedEnds(one: seq<nat>, rest: Buffer, bufs: seq<Buffer>, all: seq<nat>, i: nat, total: nat)
    requires OneSided(one, rest, bufs, all, i, total) && (rest.size == 0 || i == |bufs|)
    ensures total == Min(|one|, |all|)
  {
    assert |one| - total == rest.size;
    if rest.size != 0 {
      CursorBound(bufs, all, total, Cursor(i, 0));
    }
  }

  /** One turn of the gathering loop. */
  method GatherNext(mem: array<Byte>, tb: Buffer, source: seq<Buffer>, at: nat,
                    ghost was: seq<Byte>, ghost t: seq<nat>, ghost s: seq<nat>, ghost total: nat)
    returns (n: nat)
    requires OneSided(t, tb, source, s, at, total) && tb.size != 0 && at < |source|
    requires |was| == mem.Length && Copied(was, mem[..], t, s, total)
    requires Apart(t, s, mem.Length, Min(|t|, |s|))
    modifies mem
    ensures OneSided(t, Plus(tb, n), source, s, at + 1, total + n)
    ensures Copied(was, mem[..], t, s, total + n)
  {
    OneSidedSees(t, tb, source, s, at, total);
    OneSidedMoves(t, tb, source, s, at, total);
    ApartLess(t, s, mem.Length, Min(|t|, |s|), total + Min(tb.size, source[at].size));
    n := CopyChunk(mem, tb, source[at], was, t, s, total);
  }

  /** Gather: a list into one buffer. */
  method GatherList(mem: array<Byte>, target: Buffer, source: seq<Buffer>) returns (total: nat)
    requires Apart(Region(target), Addresses(source), mem.Length, Min(target.size, |Addresses(source)|))
    modifies mem
    ensures total == Min(target.size, |Addresses(source)|)
    ensures Copied(old(mem[..]), mem[..], Region(target), Addresses(source), total)
  {
    ghost var t, s, was := Region(target), Addresses(source), mem[..];
    total := 0;
    var tb, at := target, 0;
    OneSidedStarts(target, source);
    while tb.size != 0 && at != |source|
      invariant at <= |source| && OneSided(t, tb, source, s, at, total)
      invariant Copied(was, mem[..], t, s, total)
      decreases |source| - at
    {
      var copied := GatherNext(mem, tb, source, at, was, t, s, total);
      total := total + copied;
      tb := Plus(tb, copied);
      at := at + 1;
    }
    OneSidedEnds(t, tb, source, s, at, total);
  }

  /** One turn of the scattering loop. */
  method ScatterNext(mem: array<Byte>, target: seq<Buffer>, at: nat, sb: Buffer,
                     ghost was: seq<Byte>, ghost t: seq<nat>, ghost s: seq<nat>, ghost total: nat)
    returns (n: nat)
    requires OneSided(s, sb, target, t, at, total) && sb.size != 0 && at < |target|
    requires |was| == mem.Length && Copied(was, mem[..], t, s, total)
    requires Apart(t, s, mem.Length, Min(|t|, |s|))
    modifies mem
    ensures OneSided(s, Plus(sb, n), target, t, at + 1, total + n)
    ensures Copied(was, mem[..], t, s, total + n)
  {
    OneSidedSees(s, sb, target, t, at, total);
    OneSidedMoves(s, sb, target, t, at, total);
    ApartLess(t, s, mem.Length, Min(|t|, |s|), total + Min(target[at].size, sb.size));
    n := CopyChunk(mem, target[at], sb, was, t, s, total);
  }

  /** Scatter: one buffer into a list. */
  method ScatterBuffer(mem: array<Byte>, target: seq<Buffer>, source: Buffer) returns (total: nat)
    requires Apart(Addresses(target), Region(source), mem.Length, Min(|Addresses(target)|, source.size))
    modifies mem
    ensures total == Min(|Addresses(target)|, source.size)
    ensures Copied(old(mem[..]), mem[..], Addresses(target), Region(source), total)
  {
    ghost var t, s, was := Addresses(target), Region(source), mem[..];
    total := 0;
    var sb, at := source, 0;
    OneSidedStarts(source, target);
    while sb.size != 0 && at != |target|
      invariant at <= |target| && OneSided(s, sb, target, t, at, total)
      invariant Copied(was, mem[..], t, s, total)
      decreases |target| - at
    {
      var copied := ScatterNext(mem, target, at, sb, was, t, s, total);
      total := total + copied;
      sb := Plus(sb, copied);
      at := at + 1;
    }
    OneSidedEnds(s, sb, target, t, at, total);
  }

  // ----- which bytes of which buffers -----

  /** How many bytes the first i buffers cover. */
  function SizeBefore(bufs: seq<Buffer>, i: nat): nat
    requires i <= |bufs|
  {
    if i == 0 then 0 else SizeBefore(bufs, i - 1) + bufs[i - 1].size
  }

  lemma {:induction false} SizeAfterFirst(bufs: seq<Buffer>, i: nat)
    requires 0 < i <= |bufs|
    ensures SizeBefore(bufs, i) == bufs[0].size + SizeBefore(bufs[1..], i - 1)
  {
    if i > 1 {
      SizeAfterFirst(bufs, i - 1);
    }
  }

  /** The address list runs through the buffers in order: byte j of buffer i, which lies at
      its data plus j, comes after all bytes of the buffers before it. */
  lemma {:induction false} AddressAt(bufs: seq<Buffer>, i: nat, j: nat)
    requires i < |bufs| && j < bufs[i].size
    ensures SizeBefore(bufs, i) + j < |Addresses(bufs)|
    ensures Addresses(bufs)[SizeBefore(bufs, i) + j] == bufs[i].data + j
  {
    if i > 0 {
      AddressAt(bufs[1..], i - 1, j);
      SizeAfterFirst(bufs, i);
    }
  }

  /** And through nothing else: every address of the list is such a byte. */
  lemma {:induction false} AddressIs(bufs: seq<Buffer>, k: nat) returns (i: nat, j: nat)
    requires k < |Addresses(bufs)|
    ensures i < |bufs| && j < bufs[i].size && k == SizeBefore(bufs, i) + j
    ensures Addresses(bufs)[k] == bufs[i].data + j
  {
    if k < bufs[0].size {
      i, j := 0, k;
    } else {
      i, j := AddressIs(bufs[1..], k - bufs[0].size);
      i := i + 1;
      SizeAfterFirst(bufs, i);
    }
  }

  /** What a copy from list to list does, buffer by buffer: byte j of target buffer i becomes
      byte j' of source buffer i' if as many bytes lie before both, fewer than are copied, and
      no other target byte copied lies at the same address. */
  lemma CopyMeans(was: seq<Byte>, target: seq<Buffer>, source: seq<Buffer>, n: nat, i: nat, j: nat, i': nat, j': nat)
    requires n <= |Addresses(target)| && n <= |Addresses(source)|
    requires Apart(Addresses(target), Addresses(source), |was|, n) && Distinct(Addresses(target)[..n])
    requires i < |target| && j < target[i].size && i' < |source| && j' < source[i'].size
    requires SizeBefore(target, i) + j == SizeBefore(source, i') + j' < n
    ensures target[i].data + j < |was| && source[i'].data + j' < |was|
    ensures Stored(was, Addresses(target), Addresses(source), n)[target[i].data + j] == was[source[i'].data + j']
  {
    var t, s, k := Addresses(target), Addresses(source), SizeBefore(target, i) + j;
    AddressAt(target, i, j);
    AddressAt(source, i', j');
    forall m | k < m < n ensures t[m] != t[k] {
      assert t[..n][m] == t[m] && t[..n][k] == t[k];
    }
    assert LastStore(t, n, k, t[k]);
    StoredMeans(was, t, s, n, t[k]);
  }

  /** Byte j of buffer i is among the first n of the list. */
  predicate AmongFirst(bufs: seq<Buffer>, n: nat, i: nat, j: nat) {
    i < |bufs| && j < bufs[i].size && SizeBefore(bufs, i) + j < n
  }

  /** A byte that is no copied byte of any target buffer stays. */
  lemma CopySpares(was: seq<Byte>, target: seq<Buffer>, source: seq<Buffer>, n: nat, a: nat)
    requires n <= |Addresses(target)| && n <= |Addresses(source)|
    requires Apart(Addresses(target), Addresses(source), |was|, n) && a < |was|
    requires forall i: nat, j: nat :: AmongFirst(target, n, i, j) ==> target[i].data + j != a
    ensures Stored(was, Addresses(target), Addresses(source), n)[a] == was[a]
  {
    forall k | 0 <= k < n ensures Addresses(target)[k] != a {
      var i, j := AddressIs(target, k);
      assert AmongFirst(target, n, i, j);
    }
    StoredMeans(was, Addresses(target), Addresses(source), n, a);
  }

  // ----- what the forms have in common -----

  /** The bytes a list of buffers denotes in a memory. */
  function Denotes(mem: seq<Byte>, addresses: seq<nat>): seq<Byte>
    requires forall i :: 0 <= i < |addresses| ==> addresses[i] < |mem|
  {
    seq(|addresses|, i requires 0 <= i < |addresses| => mem[addresses[i]])
  }

  lemma TargetByte(was: seq<Byte>, t: seq<nat>, s: seq<nat>, n: nat, i: nat)
    requires n <= |t| && n <= |s| && Apart(t, s, |was|, n)
    requires Distinct(t) && i < |t| && t[i] < |was|
    ensures Stored(was, t, s, n)[t[i]] == if i < n then was[s[i]] else was[t[i]]
  {
    StoredMeans(was, t, s, n, t[i]);
    assert i < n ==> LastStore(t, n, i, t[i]);
  }

  lemma SourceByte(was: seq<Byte>, t: seq<nat>, s: seq<nat>, n: nat, i: nat)
    requires n <= |t| && n <= |s| && Apart(t, s, |was|, n) && i < n
    ensures Stored(was, t, s, n)[s[i]] == was[s[i]]
  {
    NotStoredTo(t, s, |was|, n, n, i);
    StoredMeans(was, t, s, n, s[i]);
  }

  /** Read as strings, a copy of n bytes into regions that do not overlap each other makes
      the target's first n bytes the source's and keeps the rest of the target. */
  lemma StoredDenotes(was: seq<Byte>, t: seq<nat>, s: seq<nat>, n: nat)
    requires n <= |t| && n <= |s| && Apart(t, s, |was|, n)
    requires Distinct(t) && forall i :: 0 <= i < |t| ==> t[i] < |was|
    ensures Denotes(Stored(was, t, s, n), t) == Denotes(was, s[..n]) + Denotes(was, t)[n..]
  {
    var d, e := Denotes(Stored(was, t, s, n), t), Denotes(was, s[..n]) + Denotes(was, t)[n..];
    forall i | 0 <= i < |t| ensures d[i] == e[i] {
      TargetByte(was, t, s, n, i);
      if i < n {
        assert e[i] == Denotes(was, s[..n])[i];
      } else {
        assert e[i] == Denotes(was, t)[i];
      }
    }
  }

  /** And it leaves the bytes read as they were. */
  lemma SourceDenotes(was: seq<Byte>, t: seq<nat>, s: seq<nat>, n: nat)
    requires n <= |t| && n <= |s| && Apart(t, s, |was|, n)
    ensures Denotes(Stored(was, t, s, n), s[..n]) == Denotes(was, s[..n])
  {
    forall i | 0 <= i < n ensures Stored(was, t, s, n)[s[i]] == was[s[i]] {
      SourceByte(was, t, s, n, i);
    }
  }

  /** A one-buffer list covers the buffer's addresses. */
  lemma OneBufferList(b: Buffer)
    ensures Addresses([b]) == Region(b)
  {}

  lemma SameMemory(was: seq<Byte>, x: seq<Byte>, y: seq<Byte>, t: seq<nat>, s: seq<nat>, n: nat)
    requires Copied(was, x, t, s, n) && Copied(was, y, t, s, n)
    ensures x == y
  {}

  /** On one-buffer lists the list form does to one memory what the one-buffer form does
      to another like it. */
  method ListFormAgrees(mem: array<Byte>, mem': array<Byte>, target: Buffer, source: Buffer) returns (n: nat, n': nat)
    requires mem != mem' && mem[..] == mem'[..]
    requires Apart(Region(target), Region(source), mem.Length, Min(target.size, source.size))
    modifies mem, mem'
    ensures n == n' == Min(target.size, source.size) && mem[..] == mem'[..]
    ensures Copied(old(mem[..]), mem[..], Region(target), Region(source), n)
  {
    ghost var was := mem[..];
    assert mem.Length == |mem[..]| == |mem'[..]| == mem'.Length;
    OneBufferList(target);
    OneBufferList(source);
    n := CopyLists(mem, [target], [source]);
    n' := CopyBuffer(mem', target, source);
    SameMemory(was, mem[..], mem'[..], Region(target), Region(source), n);
  }

  /** So do the gathering form and the scattering form. */
  method OneSidedFormsAgree(mem: array<Byte>, mem': array<Byte>, target: Buffer, source: Buffer)
    returns (n: nat, n': nat)
    requires mem != mem' && mem[..] == mem'[..]
    requires Apart(Region(target), Region(source), mem.Length, Min(target.size, source.size))
    modifies mem, mem'
    ensures n == n' == Min(target.size, source.size) && mem[..] == mem'[..]
    ensures Copied(old(mem[..]), mem[..], Region(target), Region(source), n)
  {
    ghost var was := mem[..];
    assert mem.Length == |mem[..]| == |mem'[..]| == mem'.Length;
    OneBufferList(target);
    OneBufferList(source);
    n := GatherList(mem, target, [source]);
    n' := ScatterBuffer(mem', [target], source);
    SameMemory(was, mem[..], mem'[..], Region(target), Region(source), n);
  }

  /** And the limited list form does what the one-buffer form does with a clipped target. */
  method LimitedFormAgrees(mem: array<Byte>, mem': array<Byte>, target: Buffer, source: Buffer, max: nat)
    returns (n: nat, n': nat)
    requires mem != mem' && mem[..] == mem'[..]
    requires Apart(Region(target), Region(source), mem.Length, Min(Min(target.size, source.size), max))
    modifies mem, mem'
    ensures n == n' == Min(Min(target.size, source.size), max) && mem[..] == mem'[..]
    ensures Copied(old(mem[..]), mem[..], Region(target), Region(source), n)
  {
    ghost var was := mem[..];
    assert mem.Length == |mem[..]| == |mem'[..]| == mem'.Length;
    OneBufferList(target);
    OneBufferList(source);
    n := CopyListsMax(mem, [target], [source], max);
    ClipIsPrefix(target, max);
    n' := CopyBuffer(mem', Clip(target, max), source);
    StoredThroughPrefix(was, Region(Clip(target, max)), Region(target), Region(source), n');
  }
}
