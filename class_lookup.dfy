/** classT, the binary search that maps a node to its class by the name of its constructor. */
module ClassLookup {
  import opened Wrappers
  import opened ClassNames

  /** searchClass with the bounds check before the array read: the index, between firstIndex
    * and lastIndex, of the class named name, or None. */
  function SearchClass(classes: seq<string>, name: string, firstIndex: int, lastIndex: int): (r: Option<nat>)
    requires 0 <= firstIndex && lastIndex < |classes|
    ensures r.Some? ==> firstIndex <= r.value <= lastIndex && classes[r.value] == name
    decreases lastIndex - firstIndex + 1
  {
    if lastIndex < firstIndex then None
    else
      var middleIndex := (lastIndex + firstIndex) / 2;
      var compare := Compare(classes[middleIndex], name);
      if compare == 0 then CompareZeroIffEqual(classes[middleIndex], name); Some(middleIndex)
      else if compare == -1 then SearchClass(classes, name, middleIndex + 1, lastIndex)
      else SearchClass(classes, name, firstIndex, middleIndex - 1)
  }

  /** One step of searchClass: the middle class decides which half the search goes on in. */
  lemma SearchClassNarrows(classes: seq<string>, name: string, firstIndex: int, lastIndex: int)
    requires 0 <= firstIndex <= lastIndex < |classes|
    ensures Compare(classes[(lastIndex + firstIndex) / 2], name) == -1 ==>
      SearchClass(classes, name, firstIndex, lastIndex) == SearchClass(classes, name, (lastIndex + firstIndex) / 2 + 1, lastIndex)
    ensures Compare(classes[(lastIndex + firstIndex) / 2], name) == 1 ==>
      SearchClass(classes, name, firstIndex, lastIndex) == SearchClass(classes, name, firstIndex, (lastIndex + firstIndex) / 2 - 1)
  {
  }

  /** On a sorted array searchClass misses only names that are not between the bounds (the
    * converse is the function's own postcondition). */
  lemma {:induction false} SearchClassComplete(classes: seq<string>, name: string, firstIndex: int, lastIndex: int)
    requires 0 <= firstIndex && lastIndex < |classes| && Sorted(classes)
    ensures SearchClass(classes, name, firstIndex, lastIndex).None? ==>
      forall i :: firstIndex <= i <= lastIndex ==> classes[i] != name
    decreases lastIndex - firstIndex + 1
  {
    if firstIndex <= lastIndex {
      var middleIndex := (lastIndex + firstIndex) / 2;
      var compare := Compare(classes[middleIndex], name);
      SearchClassNarrows(classes, name, firstIndex, lastIndex);
      if compare == -1 {
        SearchClassComplete(classes, name, middleIndex + 1, lastIndex);
        BeforeSmallerMiddle(classes, name, firstIndex, middleIndex);
        if SearchClass(classes, name, middleIndex + 1, lastIndex).None? {
          AbsentOnBothSides(classes, name, firstIndex, middleIndex, lastIndex);
        }
      } else if compare == 1 {
        SearchClassComplete(classes, name, firstIndex, middleIndex - 1);
        AfterGreaterMiddle(classes, name, middleIndex, lastIndex);
        if SearchClass(classes, name, firstIndex, middleIndex - 1).None? {
          AbsentOnBothSides(classes, name, firstIndex, middleIndex - 1, lastIndex);
        }
      }
    }
  }

  /** A name absent from two adjacent ranges is absent from their union. */
  lemma AbsentOnBothSides(classes: seq<string>, name: string, firstIndex: int, middleIndex: int, lastIndex: int)
    requires 0 <= firstIndex && firstIndex - 1 <= middleIndex <= lastIndex < |classes|
    requires forall i :: firstIndex <= i <= middleIndex ==> classes[i] != name
    requires forall i :: middleIndex < i <= lastIndex ==> classes[i] != name
    ensures forall i :: firstIndex <= i <= lastIndex ==> classes[i] != name
  {
  }

  /** In a sorted array, every class before one that sorts before name sorts before it too,
    * and so differs from it. */
  lemma BeforeSmallerMiddle(classes: seq<string>, name: string, firstIndex: int, middleIndex: int)
    requires 0 <= firstIndex <= middleIndex < |classes| && Sorted(classes)
    requires Compare(classes[middleIndex], name) == -1
    ensures forall i :: firstIndex <= i <= middleIndex ==> Compare(classes[i], name) == -1 && classes[i] != name
  {
    forall i | firstIndex <= i <= middleIndex
      ensures Compare(classes[i], name) == -1 && classes[i] != name
    {
      CompareZeroIffEqual(classes[i], name);
      if i < middleIndex {
        CompareTransitive(classes[i], classes[middleIndex], name);
      }
    }
  }

  /** In a sorted array, every class after one that sorts after name sorts after it too, and
    * so differs from it. */
  lemma AfterGreaterMiddle(classes: seq<string>, name: string, middleIndex: int, lastIndex: int)
    requires 0 <= middleIndex <= lastIndex < |classes| && Sorted(classes)
    requires Compare(classes[middleIndex], name) == 1
    ensures forall i :: middleIndex <= i <= lastIndex ==> Compare(classes[i], name) == 1 && classes[i] != name
  {
    forall i | middleIndex <= i <= lastIndex
      ensures Compare(classes[i], name) == 1 && classes[i] != name
    {
      CompareZeroIffEqual(classes[i], name);
      if middleIndex < i {
        CompareFlips(classes[middleIndex], name);
        CompareTransitive(name, classes[middleIndex], classes[i]);
        CompareFlips(name, classes[i]);
      }
    }
  }

  /** classT: the index in CLASS_NAMES of the class whose name is the node's constructor
    * name, or None. */
  function ClassT(constructorName: string): Option<nat>
  {
    SearchClass(CLASS_NAMES, constructorName, 0, |CLASS_NAMES| - 1)
  }

  /** classT finds exactly the listed classes, each at its own index. */
  lemma ClassTFindsListedClasses(constructorName: string)
    ensures ClassT(constructorName).Some? <==> constructorName in CLASS_NAMES
    ensures ClassT(constructorName).Some? ==> CLASS_NAMES[ClassT(constructorName).value] == constructorName
  {
    ClassNamesSorted();
    SearchClassComplete(CLASS_NAMES, constructorName, 0, |CLASS_NAMES| - 1);
  }

  /** What searchClass, as written, ends in: a class index, null, or the TypeError thrown when
    * it reads the name of an array slot that does not exist. */
  datatype SearchOutcome = Found(index: nat) | NotFound | TypeError

  /** searchClass as written: the middle element is read before the bounds are compared, so
    * an empty range whose middle index lies outside the array throws. Dafny's division by 2
    * rounds toward minus infinity, as Math.floor does. */
  function SearchClassAsWritten(classes: seq<string>, name: string, firstIndex: int, lastIndex: int): (r: SearchOutcome)
    ensures r.Found? ==> firstIndex <= r.index <= lastIndex && r.index < |classes| && classes[r.index] == name
    decreases if lastIndex < firstIndex then 0 else lastIndex - firstIndex + 1
  {
    var middleIndex := (lastIndex + firstIndex) / 2;
    if middleIndex < 0 || |classes| <= middleIndex then TypeError
    else
      var compare := Compare(classes[middleIndex], name);
      if lastIndex < firstIndex then NotFound
      else if compare == 0 then CompareZeroIffEqual(classes[middleIndex], name); Found(middleIndex)
      else if compare == -1 then SearchClassAsWritten(classes, name, middleIndex + 1, lastIndex)
      else SearchClassAsWritten(classes, name, firstIndex, middleIndex - 1)
  }

  /** The answer of the guarded search as a SearchOutcome. */
  function AsOutcome(r: Option<nat>): SearchOutcome
  {
    if r.Some? then Found(r.value) else NotFound
  }

  /** Whenever searchClass as written does not throw, it answers as the guarded search does. */
  lemma {:induction false} AsWrittenAgreesUnlessThrown(classes: seq<string>, name: string, firstIndex: int, lastIndex: int)
    requires 0 <= firstIndex <= lastIndex + 1 && lastIndex < |classes|
    requires SearchClassAsWritten(classes, name, firstIndex, lastIndex) != TypeError
    ensures SearchClassAsWritten(classes, name, firstIndex, lastIndex) == AsOutcome(SearchClass(classes, name, firstIndex, lastIndex))
    decreases lastIndex - firstIndex + 1
  {
    if firstIndex <= lastIndex {
      var middleIndex := (lastIndex + firstIndex) / 2;
      var compare := Compare(classes[middleIndex], name);
      if compare == -1 {
        AsWrittenAgreesUnlessThrown(classes, name, middleIndex + 1, lastIndex);
      } else if compare == 1 {
        AsWrittenAgreesUnlessThrown(classes, name, firstIndex, middleIndex - 1);
      }
    }
  }

  /** One step of searchClass as written, over a range that is not empty. */
  lemma AsWrittenNarrows(classes: seq<string>, name: string, firstIndex: int, lastIndex: int)
    requires 0 <= firstIndex <= lastIndex < |classes|
    ensures Compare(classes[(lastIndex + firstIndex) / 2], name) == -1 ==>
      SearchClassAsWritten(classes, name, firstIndex, lastIndex) == SearchClassAsWritten(classes, name, (lastIndex + firstIndex) / 2 + 1, lastIndex)
    ensures Compare(classes[(lastIndex + firstIndex) / 2], name) == 1 ==>
      SearchClassAsWritten(classes, name, firstIndex, lastIndex) == SearchClassAsWritten(classes, name, firstIndex, (lastIndex + firstIndex) / 2 - 1)
  {
  }

  /** On a sorted array searched from index 0, searchClass as written throws exactly when the
    * name comes before every class between the bounds: the search then narrows to the empty
    * range [0, -1], whose middle index is -1. From any index above 0 it never throws. */
  lemma {:induction false} AsWrittenThrowsBeforeFirst(classes: seq<string>, name: string, firstIndex: int, lastIndex: int)
    requires 0 <= firstIndex <= lastIndex + 1 && lastIndex < |classes| && Sorted(classes)
    ensures SearchClassAsWritten(classes, name, firstIndex, lastIndex) == TypeError <==>
      firstIndex == 0 && forall i :: 0 <= i <= lastIndex ==> Compare(classes[i], name) == 1
    decreases lastIndex - firstIndex + 1
  {
    if firstIndex <= lastIndex {
      var middleIndex := (lastIndex + firstIndex) / 2;
      var compare := Compare(classes[middleIndex], name);
      AsWrittenNarrows(classes, name, firstIndex, lastIndex);
      if compare == -1 {
        AsWrittenThrowsBeforeFirst(classes, name, middleIndex + 1, lastIndex);
        assert Compare(classes[middleIndex], name) != 1;
      } else if compare == 1 {
        AsWrittenThrowsBeforeFirst(classes, name, firstIndex, middleIndex - 1);
        AfterGreaterMiddle(classes, name, middleIndex, lastIndex);
      } else {
        assert Compare(classes[middleIndex], name) != 1;
      }
    }
  }

  /** classT on a node whose constructor is named "BaseNodeC", as the setParent test builds:
    * the name sorts before "BirdNodeC", so searchClass as written throws, while the guarded
    * search answers that no class matches. */
  lemma BaseNodeCThrows()
    ensures SearchClassAsWritten(CLASS_NAMES, "BaseNodeC", 0, |CLASS_NAMES| - 1) == TypeError
    ensures ClassT("BaseNodeC") == None
  {
    ClassNamesSorted();
    assert Compare(CLASS_NAMES[0], "BaseNodeC") == 1 by { assert Compare(BirdNodeC, "BaseNodeC") == 1; }
    forall i | 0 <= i < |CLASS_NAMES|
      ensures Compare(CLASS_NAMES[i], "BaseNodeC") == 1
    {
      if 0 < i {
        CompareFlips(CLASS_NAMES[0], "BaseNodeC");
        CompareTransitive("BaseNodeC", CLASS_NAMES[0], CLASS_NAMES[i]);
        CompareFlips("BaseNodeC", CLASS_NAMES[i]);
      }
    }
    AsWrittenThrowsBeforeFirst(CLASS_NAMES, "BaseNodeC", 0, |CLASS_NAMES| - 1);
    ClassTFindsListedClasses("BaseNodeC");
  }
}
