/** The order classT's binary search relies on: localeCompare on the class names, and the
  * sorted array of the classes it searches. */
module ClassNames {
  /** String.prototype.localeCompare on the class names, as code-point lexicographic order:
    * -1 when a comes first, 0 when equal, 1 when b comes first. */
  function Compare(a: string, b: string): (c: int)
    ensures -1 <= c <= 1
  {
    if |a| == 0 then (if |b| == 0 then 0 else -1)
    else if |b| == 0 then 1
    else if a[0] < b[0] then -1
    else if b[0] < a[0] then 1
    else Compare(a[1..], b[1..])
  }

  /** Two names compare equal exactly when they are the same name. */
  lemma {:induction false} CompareZeroIffEqual(a: string, b: string)
    ensures Compare(a, b) == 0 <==> a == b
  {
    if |a| > 0 && |b| > 0 && a[0] == b[0] {
      CompareZeroIffEqual(a[1..], b[1..]);
      assert a == [a[0]] + a[1..] && b == [b[0]] + b[1..];
    }
  }

  /** Comparing the other way round flips the sign. */
  lemma {:induction false} CompareFlips(a: string, b: string)
    ensures Compare(b, a) == -Compare(a, b)
  {
    if |a| > 0 && |b| > 0 && a[0] == b[0] {
      CompareFlips(a[1..], b[1..]);
    }
  }

  /** "Comes first" is transitive. */
  lemma {:induction false} CompareTransitive(a: string, b: string, c: string)
    requires Compare(a, b) == -1 && Compare(b, c) == -1
    ensures Compare(a, c) == -1
  {
    if |a| > 0 && |c| > 0 && a[0] == b[0] && b[0] == c[0] {
      CompareTransitive(a[1..], b[1..], c[1..]);
    }
  }

  /** Every name comes strictly before each later one. */
  ghost predicate Sorted(names: seq<string>)
  {
    forall i, j :: 0 <= i < j < |names| ==> Compare(names[i], names[j]) == -1
  }

  /** From index k on, each name comes strictly before the next one. */
  ghost predicate AscendingFrom(names: seq<string>, k: nat)
    decreases |names| - k
  {
    k + 1 >= |names| || (Compare(names[k], names[k + 1]) == -1 && AscendingFrom(names, k + 1))
  }

  /** Neighbours in order from k on put every pair from k on in order. */
  lemma {:induction false} AscendingFromIsSorted(names: seq<string>, k: nat)
    requires AscendingFrom(names, k)
    ensures forall i, j :: k <= i < j < |names| ==> Compare(names[i], names[j]) == -1
    decreases |names| - k
  {
    if k + 1 < |names| {
      AscendingFromIsSorted(names, k + 1);
      forall j | k + 1 < j < |names|
        ensures Compare(names[k], names[j]) == -1
      {
        CompareTransitive(names[k], names[k + 1], names[j]);
      }
    }
  }

  // The names of the classes classT searches, one constant per class.
  const BirdNodeC: string := "BirdNodeC"
  const BladesNodeC: string := "BladesNodeC"
  const CircularSpruceNodeC: string := "CircularSpruceNodeC"
  const DeadTreeNodeC: string := "DeadTreeNodeC"
  const Drawing: string := "Drawing"
  const FlowerNodeC: string := "FlowerNodeC"
  const GenericNodeC: string := "GenericNodeC"
  const MaritimePineNodeC: string := "MaritimePineNodeC"
  const PlantNodeC: string := "PlantNodeC"
  const Rock1NodeC: string := "Rock1NodeC"
  const Rock2NodeC: string := "Rock2NodeC"
  const Rock3NodeC: string := "Rock3NodeC"
  const SignNodeC: string := "SignNodeC"
  const SmallrockNodeC: string := "SmallrockNodeC"
  const SpruceNodeC: string := "SpruceNodeC"
  const StumpNodeC: string := "StumpNodeC"

  /** The names of the classes classT searches, in the order of its array. */
  const CLASS_NAMES: seq<string> := [BirdNodeC, BladesNodeC, CircularSpruceNodeC, DeadTreeNodeC,
    Drawing, FlowerNodeC, GenericNodeC, MaritimePineNodeC,
    PlantNodeC, Rock1NodeC, Rock2NodeC, Rock3NodeC,
    SignNodeC, SmallrockNodeC, SpruceNodeC, StumpNodeC]

  /** The array classT builds is sorted, as the binary search needs. */
  lemma ClassNamesSorted()
    ensures |CLASS_NAMES| == 16
    ensures Sorted(CLASS_NAMES)
  {
    ClassNamesAscendingFrom0();
    AscendingFromIsSorted(CLASS_NAMES, 0);
  }

  // The neighbouring names of CLASS_NAMES compared a few at a time, from the end.

  lemma ClassNamesAscendingFrom12()
    ensures AscendingFrom(CLASS_NAMES, 12)
  {
    assert Compare(SpruceNodeC, StumpNodeC) == -1;
    assert Compare(SmallrockNodeC, SpruceNodeC) == -1;
    assert Compare(SignNodeC, SmallrockNodeC) == -1;
    assert AscendingFrom(CLASS_NAMES, 14);
    assert AscendingFrom(CLASS_NAMES, 13);
    assert AscendingFrom(CLASS_NAMES, 12);
  }

  lemma ClassNamesAscendingFrom9()
    ensures AscendingFrom(CLASS_NAMES, 9)
  {
    ClassNamesAscendingFrom12();
    assert Compare(Rock3NodeC, SignNodeC) == -1;
    assert Compare(Rock2NodeC, Rock3NodeC) == -1;
    assert Compare(Rock1NodeC, Rock2NodeC) == -1;
    assert AscendingFrom(CLASS_NAMES, 11);
    assert AscendingFrom(CLASS_NAMES, 10);
    assert AscendingFrom(CLASS_NAMES, 9);
  }

  lemma ClassNamesAscendingFrom6()
    ensures AscendingFrom(CLASS_NAMES, 6)
  {
    ClassNamesAscendingFrom9();
    assert Compare(PlantNodeC, Rock1NodeC) == -1;
    assert Compare(MaritimePineNodeC, PlantNodeC) == -1;
    assert Compare(GenericNodeC, MaritimePineNodeC) == -1;
    assert AscendingFrom(CLASS_NAMES, 8);
    assert AscendingFrom(CLASS_NAMES, 7);
    assert AscendingFrom(CLASS_NAMES, 6);
  }

  lemma ClassNamesAscendingFrom3()
    ensures AscendingFrom(CLASS_NAMES, 3)
  {
    ClassNamesAscendingFrom6();
    assert Compare(FlowerNodeC, GenericNodeC) == -1;
    assert Compare(Drawing, FlowerNodeC) == -1;
    assert Compare(DeadTreeNodeC, Drawing) == -1;
    assert AscendingFrom(CLASS_NAMES, 5);
    assert AscendingFrom(CLASS_NAMES, 4);
    assert AscendingFrom(CLASS_NAMES, 3);
  }

  lemma ClassNamesAscendingFrom0()
    ensures AscendingFrom(CLASS_NAMES, 0)
  {
    ClassNamesAscendingFrom3();
    assert Compare(CircularSpruceNodeC, DeadTreeNodeC) == -1;
    assert Compare(BladesNodeC, CircularSpruceNodeC) == -1;
    assert Compare(BirdNodeC, BladesNodeC) == -1;
    assert AscendingFrom(CLASS_NAMES, 2);
    assert AscendingFrom(CLASS_NAMES, 1);
    assert AscendingFrom(CLASS_NAMES, 0);
  }
}
