/**
 * Which supplier an invoice comes from, decided by keywords in the
 * upper-cased text with a fixed precedence (app.py, `detect_vendor`).
 */
module Vendor {
  import opened Text

  datatype VendorKind = Paragon | Physiol | Unknown

  /** The label `detect_vendor` returns for each kind. */
  function Label(v: VendorKind): string {
    match v
    case Paragon => "PARAGON"
    case Physiol => "PHYSIOL"
    case Unknown => "UNKNOWN"
  }

  ghost predicate ParagonSignal(text: string) {
    Mentions(text, "CRT") || Mentions(text, "PARAGON")
  }

  ghost predicate PhysiolSignal(text: string) {
    Mentions(text, "PHYSIOL") || Mentions(text, "PODEYE")
  }

  function DetectVendor(text: string): (v: VendorKind)
    ensures v == Paragon <==> ParagonSignal(text)
    ensures v == Physiol <==> !ParagonSignal(text) && PhysiolSignal(text)
    ensures v == Unknown <==> !ParagonSignal(text) && !PhysiolSignal(text)
  {
    var upper := Upper(text);
    ContainsIffOccurs(upper, "CRT");
    ContainsIffOccurs(upper, "PARAGON");
    ContainsIffOccurs(upper, "PHYSIOL");
    ContainsIffOccurs(upper, "PODEYE");
    if Contains(upper, "CRT") || Contains(upper, "PARAGON") then Paragon
    else if Contains(upper, "PHYSIOL") || Contains(upper, "PODEYE") then Physiol
    else Unknown
  }

  /** The classification ignores letter case: it only sees the upper-cased text. */
  lemma {:induction false} CaseBlind(text: string)
    ensures DetectVendor(Upper(text)) == DetectVendor(text)
  {
    assert Upper(Upper(text)) == Upper(text);
  }

  /**
   * A document that names Paragon (in any letter case) is a Paragon invoice,
   * whatever Physiol keywords it also carries.
   */
  lemma {:induction false} ParagonWinsOverPhysiol(text: string, i: int, j: int)
    requires OccursAt(text, "Paragon", i) && OccursAt(Upper(text), "PHYSIOL", j)
    ensures DetectVendor(text) == Paragon
  {
    UpperKeepsOccurrence(text, "Paragon", i);
    assert Upper("Paragon") == "PARAGON";
  }

  /** An empty document (what a failed text extraction yields) is of no known vendor. */
  lemma {:induction false} EmptyTextIsUnknown()
    ensures DetectVendor("") == Unknown
  {
    assert !ParagonSignal("") && !PhysiolSignal("") by {
      assert Upper("") == "";
    }
  }
}
