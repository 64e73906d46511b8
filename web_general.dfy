/** `hasIntersection` from Web/src/utils/general.ts. */
module WebGeneral {

  /** `items.some(item => members.has(item))`. */
  function AnyIn<T>(items: seq<T>, members: set<T>): (r: bool)
    ensures r <==> exists i :: 0 <= i < |items| && items[i] in members
  {
    if items == [] then false
    else if items[0] in members then true
    else
      assert forall i :: 1 <= i < |items| ==> items[i] == items[1..][i - 1];
      AnyIn(items[1..], members)
  }

  /** `hasIntersection(arr1, arr2)`: builds the set of arr1 and asks whether some item of arr2 is in it. */
  function HasIntersection<T(==)>(arr1: seq<T>, arr2: seq<T>): (r: bool)
    ensures r <==> exists x :: x in arr2 && x in arr1
  {
    var members := set x | x in arr1;
    var r := AnyIn(arr2, members);
    assert r ==> exists x :: x in arr2 && x in arr1;
    r
  }

  lemma HasIntersectionEmpty<T>(arr1: seq<T>, arr2: seq<T>)
    requires arr1 == [] || arr2 == []
    ensures !HasIntersection(arr1, arr2)
  {
  }

  lemma HasIntersectionSymmetric<T>(arr1: seq<T>, arr2: seq<T>)
    ensures HasIntersection(arr1, arr2) == HasIntersection(arr2, arr1)
  {
  }

  /** The set of the elements of s. */
  function Elements<T>(s: seq<T>): set<T> {
    set x | x in s
  }

  /** Only the sets of elements matter, not order or repetition. */
  lemma HasIntersectionBySets<T>(a1: seq<T>, a2: seq<T>, b1: seq<T>, b2: seq<T>)
    requires Elements(a1) == Elements(b1) && Elements(a2) == Elements(b2)
    ensures HasIntersection(a1, a2) == HasIntersection(b1, b2)
  {
    if HasIntersection(a1, a2) {
      var x :| x in a2 && x in a1;
      assert x in Elements(b2) && x in Elements(b1);
    }
    if HasIntersection(b1, b2) {
      var x :| x in b2 && x in b1;
      assert x in Elements(a2) && x in Elements(a1);
    }
  }
}
