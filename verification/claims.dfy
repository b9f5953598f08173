/** What the nodes say about each other: the record of src/node.hpp and the
    two machine widths its counters have. */
module Claims {

  const U32: int := 0x1_0000_0000
  const U64: int := 0x1_0000_0000_0000_0000

  type u32 = x: int | 0 <= x < 0x1_0000_0000
  type u64 = x: int | 0 <= x < 0x1_0000_0000_0000_0000

  /** Node names and network addresses are only ever copied and compared. */
  type Name(==, !new)
  type Address(==, !new)

  datatype Option<+T> = None | Some(value: T)

  datatype Status = Alive | Suspect | Dead {
    /** The numeric value of the enumerator; comparisons of states use it. */
    function Rank(): nat {
      match this
      case Alive => 0
      case Suspect => 1
      case Dead => 2
    }
  }

  /** One node's opinion of another. `dominant` is the incarnation number; `from`
      is `None` for the empty string a fresh record starts with. */
  datatype Claim = Claim(
    name: Name, address: Address,
    dominant: u64, state: Status, from: Option<Name>)

  /** Strictly newer: higher incarnation, or worse state at the same one. */
  predicate Newer(a: Claim, b: Claim) {
    || a.dominant > b.dominant
    || (a.dominant == b.dominant && a.state.Rank() > b.state.Rank())
  }

  /** The lexicographic order (incarnation, Alive < Suspect < Dead). */
  predicate AtLeast(a: Claim, b: Claim) {
    !Newer(b, a)
  }

  ghost predicate Distinct<T>(s: seq<T>) {
    forall i, j :: 0 <= i < j < |s| ==> s[i] != s[j]
  }

  function Min(a: int, b: int): int {
    if a < b then a else b
  }

  function Max(a: int, b: int): int {
    if a < b then b else a
  }
}
