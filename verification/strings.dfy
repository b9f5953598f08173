/** `Split` of src/utils.hpp, which reads every "host:port" of the program. */
module Strings {

  predicate OccursAt(s: string, sep: string, k: nat) {
    k + |sep| <= |s| && s[k..k + |sep|] == sep
  }

  ghost predicate Contains(s: string, sep: string) {
    exists k: nat :: OccursAt(s, sep, k)
  }

  /** `std::string::find(sep, start)`: the first occurrence at or after `start`, or -1. */
  function Find(s: string, sep: string, start: nat): (mark: int)
    ensures mark == -1 || (start <= mark && OccursAt(s, sep, mark))
    decreases |s| - start
  {
    if OccursAt(s, sep, start) then start
    else if start >= |s| then -1
    else Find(s, sep, start + 1)
  }

  lemma {:induction false} FindIsFirst(s: string, sep: string, start: nat, k: nat)
    requires start <= k && (Find(s, sep, start) < 0 || k < Find(s, sep, start))
    ensures !OccursAt(s, sep, k)
    decreases |s| - start
  {
    if start < k && start < |s| {
      FindIsFirst(s, sep, start + 1, k);
    }
  }

  lemma FindUnique(s: string, sep: string, start: nat, k: nat)
    requires start <= k && OccursAt(s, sep, k)
    requires forall j: nat :: start <= j < k ==> !OccursAt(s, sep, j)
    ensures Find(s, sep, start) == k
  {
    var mark := Find(s, sep, start);
    if mark < 0 || k < mark {
      FindIsFirst(s, sep, start, k);
    }
  }

  /** The pieces of `s` from position `start` on. */
  function PiecesFrom(s: string, sep: string, start: nat): seq<string>
    requires sep != "" && start <= |s|
    decreases |s| - start
  {
    var mark := Find(s, sep, start);
    if mark < 0 then if start < |s| then [s[start..]] else []
    else [s[start..mark]] + PiecesFrom(s, sep, mark + |sep|)
  }

  function Pieces(s: string, sep: string): seq<string>
    requires sep != ""
  {
    PiecesFrom(s, sep, 0)
  }

  function Joined(pieces: seq<string>, sep: string): string {
    if |pieces| == 0 then ""
    else if |pieces| == 1 then pieces[0]
    else pieces[0] + sep + Joined(pieces[1..], sep)
  }

  predicate EndsWith(s: string, sep: string) {
    |sep| <= |s| && s[|s| - |sep|..] == sep
  }

  ghost predicate SeparatorFree(pieces: seq<string>, sep: string) {
    pieces == [] || (!Contains(pieces[0], sep) && SeparatorFree(pieces[1..], sep))
  }

  lemma SplitStep(rst: seq<string>, s: string, sep: string, start: nat)
    requires sep != "" && start <= |s| && Find(s, sep, start) >= 0
    ensures var mark := Find(s, sep, start);
            rst + PiecesFrom(s, sep, start) == rst + [s[start..mark]] + PiecesFrom(s, sep, mark + |sep|)
  {}

  /** The source loops forever on an empty separator, so callers must pass a non-empty one. */
  method Split(s: string, sep: string) returns (rst: seq<string>)
    requires sep != ""
    ensures rst == Pieces(s, sep)
  {
    rst := [];
    var start := 0;
    var mark := Find(s, sep, 0);
    while mark != -1
      invariant start <= |s| && mark == Find(s, sep, start)
      invariant rst + PiecesFrom(s, sep, start) == Pieces(s, sep)
      decreases |s| - start
    {
      SplitStep(rst, s, sep, start);
      rst := rst + [s[start..mark]];
      start := mark + |sep|;
      mark := Find(s, sep, start);
    }
    if start < |s| {
      rst := rst + [s[start..]];
    }
  }

  lemma OccursInSlice(s: string, sep: string, lo: nat, hi: nat, k: nat)
    requires lo <= hi <= |s| && OccursAt(s[lo..hi], sep, k)
    ensures lo + k + |sep| <= hi && OccursAt(s, sep, lo + k)
  {
    var slice := s[lo..hi];
    forall i | 0 <= i < |sep| ensures s[lo + k + i] == sep[i] {
      assert slice[k + i] == slice[k..k + |sep|][i];
    }
  }

  lemma UpToMarkIsFree(s: string, sep: string, start: nat)
    requires sep != "" && start <= |s|
    ensures var mark := Find(s, sep, start);
            !Contains(s[start..if mark < 0 then |s| else mark], sep)
  {
    var mark := Find(s, sep, start);
    var end := if mark < 0 then |s| else mark;
    forall k: nat ensures !OccursAt(s[start..end], sep, k) {
      if OccursAt(s[start..end], sep, k) {
        OccursInSlice(s, sep, start, end, k);
        FindIsFirst(s, sep, start, start + k);
      }
    }
  }

  lemma {:induction false} PiecesFree(s: string, sep: string, start: nat)
    requires sep != "" && start <= |s|
    ensures SeparatorFree(PiecesFrom(s, sep, start), sep)
    decreases |s| - start
  {
    var mark := Find(s, sep, start);
    UpToMarkIsFree(s, sep, start);
    if mark >= 0 {
      PiecesFree(s, sep, mark + |sep|);
      assert PiecesFrom(s, sep, start)[1..] == PiecesFrom(s, sep, mark + |sep|);
    } else {
      assert s[start..] == s[start..|s|];
    }
  }

  /** No piece contains the separator. */
  lemma SplitIsSeparatorFree(s: string, sep: string)
    requires sep != ""
    ensures SeparatorFree(Pieces(s, sep), sep)
  {
    PiecesFree(s, sep, 0);
  }

  lemma JoinCons(piece: string, pieces: seq<string>, sep: string)
    requires pieces != []
    ensures Joined([piece] + pieces, sep) == piece + sep + Joined(pieces, sep)
  {
    assert ([piece] + pieces)[1..] == pieces;
  }

  lemma Assoc(a: string, b: string, c: string)
    ensures a + (b + c) == a + b + c
  {}

  lemma CutAt(s: string, start: nat, mark: nat, next: nat)
    requires start <= mark <= next <= |s|
    ensures s[start..] == s[start..mark] + s[mark..next] + s[next..]
  {}

  /** `text` is the joined pieces, with one more separator if the last piece is empty. */
  predicate Rebuilt(text: string, pieces: seq<string>, sep: string) {
    || text == Joined(pieces, sep) + sep
    || (text == Joined(pieces, sep) && (pieces == [] || pieces[|pieces| - 1] != ""))
  }

  lemma RebuiltCons(piece: string, rest: string, pieces: seq<string>, sep: string)
    requires Rebuilt(rest, pieces, sep) && (pieces == [] ==> rest == "")
    ensures Rebuilt(piece + sep + rest, [piece] + pieces, sep)
  {
    if pieces == [] {
      assert Joined([piece], sep) == piece;
      assert piece + sep + "" == piece + sep;
    } else {
      JoinCons(piece, pieces, sep);
      Assoc(piece + sep, Joined(pieces, sep), sep);
    }
  }

  lemma {:induction false} JoinOfPieces(s: string, sep: string, start: nat)
    requires sep != "" && start <= |s|
    ensures Rebuilt(s[start..], PiecesFrom(s, sep, start), sep)
    decreases |s| - start
  {
    var mark := Find(s, sep, start);
    if mark >= 0 {
      var next := mark + |sep|;
      CutAt(s, start, mark, next);
      JoinOfPieces(s, sep, next);
      RebuiltCons(s[start..mark], s[next..], PiecesFrom(s, sep, next), sep);
    }
  }

  /** Joining the pieces rebuilds the input up to one separator at its very end;
      an input that does not end in the separator is rebuilt exactly. */
  lemma JoinOfSplit(s: string, sep: string)
    requires sep != ""
    ensures var back := Joined(Pieces(s, sep), sep); s == back || s == back + sep
    ensures !EndsWith(s, sep) ==> s == Joined(Pieces(s, sep), sep)
  {
    JoinOfPieces(s, sep, 0);
    assert s[0..] == s;
    var back := Joined(Pieces(s, sep), sep);
    assert (back + sep)[|back|..] == sep;
  }

  lemma NoneInPiece(s: string, sep: string, start: nat, p: string)
    requires |sep| == 1 && !Contains(p, sep)
    requires start + |p| <= |s| && forall i :: 0 <= i < |p| ==> s[start + i] == p[i]
    ensures forall k: nat :: start <= k < start + |p| ==> !OccursAt(s, sep, k)
  {
    forall k: nat | start <= k < start + |p| ensures !OccursAt(s, sep, k) {
      assert !OccursAt(p, sep, k - start);
      assert s[k] == p[k - start];
    }
  }

  lemma FirstPiece(s: string, sep: string, start: nat, p: string, tail: string)
    requires |sep| == 1 && start <= |s| && s[start..] == p + sep + tail && !Contains(p, sep)
    ensures Find(s, sep, start) == start + |p| < |s|
    ensures s[start..start + |p|] == p && s[start + |p| + 1..] == tail
  {
    var rest := s[start..];
    forall i | 0 <= i < |rest| ensures s[start + i] == rest[i] {}
    NoneInPiece(s, sep, start, p);
    assert s[start + |p|] == rest[|p|] == sep[0];
    FindUnique(s, sep, start, start + |p|);
  }

  lemma {:induction false} PiecesOfJoin(s: string, sep: string, start: nat, pieces: seq<string>)
    requires |sep| == 1 && start <= |s| && s[start..] == Joined(pieces, sep)
    requires SeparatorFree(pieces, sep)
    requires pieces == [] || pieces[|pieces| - 1] != ""
    ensures PiecesFrom(s, sep, start) == pieces
    decreases |pieces|
  {
    if |pieces| == 1 {
      NoneInPiece(s, sep, start, pieces[0]);
    } else if |pieces| > 1 {
      FirstPiece(s, sep, start, pieces[0], Joined(pieces[1..], sep));
      PiecesOfJoin(s, sep, start + |pieces[0]| + 1, pieces[1..]);
    }
  }

  /** For a one-character separator, Split undoes Join on exactly the lists whose
      pieces avoid the separator and whose last piece, if any, is not empty. */
  lemma SplitOfJoin(pieces: seq<string>, sep: string)
    requires |sep| == 1
    ensures Pieces(Joined(pieces, sep), sep) == pieces
            <==> SeparatorFree(pieces, sep) && (pieces == [] || pieces[|pieces| - 1] != "")
  {
    var s := Joined(pieces, sep);
    assert s[0..] == s;
    SplitIsSeparatorFree(s, sep);
    JoinOfPieces(s, sep, 0);
    if SeparatorFree(pieces, sep) && (pieces == [] || pieces[|pieces| - 1] != "") {
      PiecesOfJoin(s, sep, 0, pieces);
    }
  }

  lemma TrailingSeparator(s: string, sep: string, host: string, port: string)
    requires |sep| == 1 && !Contains(host, sep) && !Contains(port, sep)
    requires s == host + sep + port + sep
    ensures Pieces(s, sep) == [host, port]
  {
    Assoc(host + sep, port, sep);
    assert s[0..] == s;
    FirstPiece(s, sep, 0, host, port + sep);
    var a := |host| + 1;
    assert s[a..] == port + sep == port + sep + "";
    FirstPiece(s, sep, a, port, "");
    assert PiecesFrom(s, sep, |s|) == [];
    assert PiecesFrom(s, sep, a) == [port];
  }

  /** An address is accepted (it has exactly two fields) iff it is "host:port" with
      a non-empty port, or any "host:port" followed by one more separator. */
  lemma TwoFields(s: string, host: string, port: string, sep: string)
    requires |sep| == 1
    ensures Pieces(s, sep) == [host, port]
            <==> && SeparatorFree([host, port], sep)
                 && (s == host + sep + port + sep || (s == host + sep + port && port != ""))
  {
    var ps := [host, port];
    assert ps[1..] == [port];
    assert Joined(ps, sep) == host + sep + port;
    if Pieces(s, sep) == ps {
      assert s[0..] == s;
      SplitIsSeparatorFree(s, sep);
      JoinOfPieces(s, sep, 0);
    }
    if SeparatorFree(ps, sep) && s == host + sep + port + sep {
      assert SeparatorFree(ps[1..], sep);
      TrailingSeparator(s, sep, host, port);
    }
    if SeparatorFree(ps, sep) && s == host + sep + port && port != "" {
      SplitOfJoin(ps, sep);
    }
  }
}
