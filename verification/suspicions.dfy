/** A pending suspicion (src/suspicion.hpp): a timer that convicts, and a set of
    reporters whose number may convict earlier. */
module Suspicions {
  import opened Claims
  import opened Broadcast

  /** `need` is ceil(log2(node_num)), the least k with 2^k >= node_num. The conversion of
      log2(0) is undefined in the source, so the caller supplies the value it happens to have. */
  predicate IsNeed(nodeNum: u32, ifZero: nat, need: nat) {
    if nodeNum == 0 then need == ifZero else IsCeilLog(2, nodeNum, need)
  }

  datatype Doubt = Doubt(need: nat, confirm: nat, who: set<Option<Name>>, accused: Claim)

  function Need(nodeNum: u32, ifZero: nat): (need: nat)
    ensures IsNeed(nodeNum, ifZero, need)
  {
    if nodeNum == 0 then ifZero else CeilLog(2, nodeNum)
  }

  function NewDoubt(nodeNum: u32, ifZero: nat, accused: Claim): Doubt {
    Doubt(Need(nodeNum, ifZero), 0, {}, accused)
  }

  function Confirmed(d: Doubt, from: Option<Name>): Doubt {
    if from in d.who then d else d.(who := d.who + {from}, confirm := d.confirm + 1)
  }

  predicate Convicts(d: Doubt) {
    d.confirm >= d.need
  }

  class Suspicion {
    const need: nat
    const accused: Claim
    var confirm: nat
    var who: set<Option<Name>>

    ghost function View(): Doubt
      reads this
    {
      Doubt(need, confirm, who, accused)
    }

    constructor (nodeNum: u32, ifZero: nat, accused: Claim)
      ensures View() == NewDoubt(nodeNum, ifZero, accused)
      ensures IsNeed(nodeNum, ifZero, need) && confirm == 0 && who == {} && this.accused == accused
    {
      this.need := Need(nodeNum, ifZero);
      this.accused := accused;
      confirm, who := 0, {};
    }

    /** True when this report convicts; the caller then runs the conviction. */
    method Confirm(from: Option<Name>) returns (result: bool)
      modifies this
      ensures View() == Confirmed(old(View()), from)
      ensures who == old(who) + {from} && confirm == old(confirm) + (if from in old(who) then 0 else 1)
      ensures result <==> confirm >= need
      ensures result == Convicts(View())
    {
      if from !in who {
        who := who + {from};
        confirm := confirm + 1;
      }
      result := confirm >= need;
    }
  }

  // ----- what the reports of a whole life amount to -----

  /** The suspicion after the given reports, oldest first. */
  function Reported(d: Doubt, froms: seq<Option<Name>>): Doubt {
    if froms == [] then d else Confirmed(Reported(d, froms[..|froms| - 1]), froms[|froms| - 1])
  }

  function Reporters(froms: seq<Option<Name>>): set<Option<Name>> {
    set i | 0 <= i < |froms| :: froms[i]
  }

  /** The answer of the k-th call (from zero). */
  predicate Answer(d: Doubt, froms: seq<Option<Name>>, k: nat)
    requires k < |froms|
  {
    Convicts(Reported(d, froms[..k + 1]))
  }

  lemma ReportersStep(froms: seq<Option<Name>>)
    requires froms != []
    ensures Reporters(froms) == Reporters(froms[..|froms| - 1]) + {froms[|froms| - 1]}
  {}

  lemma {:induction false} ReportsCountReporters(d: Doubt, froms: seq<Option<Name>>)
    requires d.who == {} && d.confirm == 0
    ensures Reported(d, froms) == Doubt(d.need, |Reporters(froms)|, Reporters(froms), d.accused)
  {
    if froms != [] {
      var before, last := froms[..|froms| - 1], froms[|froms| - 1];
      ReportsCountReporters(d, before);
      ReportersStep(froms);
      if last in Reporters(before) {
        assert Reporters(froms) == Reporters(before);
      } else {
        assert |Reporters(froms)| == |Reporters(before)| + 1;
      }
    }
  }

  lemma ReportersGrow(froms: seq<Option<Name>>, j: nat, k: nat)
    requires j <= k <= |froms|
    ensures |Reporters(froms[..j])| <= |Reporters(froms[..k])|
  {
    var a, b := Reporters(froms[..j]), Reporters(froms[..k]);
    assert forall i :: 0 <= i < j ==> froms[..k][i] == froms[i];
    assert b == a + (b - a);
  }

  lemma NeedUnique(nodeNum: u32, ifZero: nat, need: nat)
    requires IsNeed(nodeNum, ifZero, need)
    ensures Need(nodeNum, ifZero) == need
  {
    if nodeNum != 0 {
      CeilLogUnique(2, nodeNum, Need(nodeNum, ifZero), need);
    }
  }

  /** Eight nodes ask for three reporters, nine for four, and one alone for none. */
  lemma SomeNeeds(ifZero: nat)
    ensures Need(8, ifZero) == 3 && Need(9, ifZero) == 4 && Need(1, ifZero) == 0
  {
    assert Pow(2, 0) == 1 && Pow(2, 1) == 2 && Pow(2, 2) == 4;
    assert Pow(2, 3) == 2 * Pow(2, 2) && Pow(2, 4) == 2 * Pow(2, 3);
    NeedUnique(8, ifZero, 3);
    NeedUnique(9, ifZero, 4);
    NeedUnique(1, ifZero, 0);
  }

  /** The first convicting report is the one that brings the number of distinct
      reporters to max(1, need), need being the ceiling logarithm; a repeated reporter never
      convicts first. */
  lemma FirstConviction(nodeNum: u32, ifZero: nat, need: nat, accused: Claim, froms: seq<Option<Name>>, k: nat)
    requires k < |froms| && IsNeed(nodeNum, ifZero, need)
    ensures var d := NewDoubt(nodeNum, ifZero, accused);
            (Answer(d, froms, k) && (forall j: nat :: j < k ==> !Answer(d, froms, j)))
            <==> (froms[k] !in froms[..k] && |Reporters(froms[..k + 1])| == Max(1, need))
  {
    NeedUnique(nodeNum, ifZero, need);
    var d := NewDoubt(nodeNum, ifZero, accused);
    var before := Reporters(froms[..k]);
    assert froms[..k + 1][..k] == froms[..k];
    ReportersStep(froms[..k + 1]);
    assert froms[k] in before <==> froms[k] in froms[..k];
    forall j: nat | j <= k ensures Answer(d, froms, j) <==> |Reporters(froms[..j + 1])| >= d.need {
      ReportsCountReporters(d, froms[..j + 1]);
    }
    if k > 0 {
      assert froms[..k][0] in before;
      forall j: nat | j < k ensures Answer(d, froms, j) ==> |before| >= d.need {
        ReportersGrow(froms, j + 1, k);
      }
      assert Answer(d, froms, k - 1) <==> |before| >= d.need;
    }
  }
}
