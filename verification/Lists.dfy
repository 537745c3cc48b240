/** Lists without repetitions. */
module Lists {

  predicate Distinct<T(==)>(list: seq<T>) {
    forall i, j :: 0 <= i < j < |list| ==> list[i] != list[j]
  }

  /** All but the last of distinct elements are distinct, and they are the others. */
  lemma DistinctInit<T(!new)>(list: seq<T>)
    requires Distinct(list) && list != []
    ensures Distinct(list[..|list| - 1])
    ensures forall x :: x in list[..|list| - 1] <==> x in list && x != list[|list| - 1]
  {
    var init, last := list[..|list| - 1], list[|list| - 1];
    assert list == init + [last];
    assert forall i :: 0 <= i < |init| ==> init[i] == list[i];
  }

  /** The list without the first occurrence of an element. */
  function Without<T(==)>(list: seq<T>, x: T): seq<T> {
    if list == [] then [] else if list[0] == x then list[1..] else [list[0]] + Without(list[1..], x)
  }

  lemma {:induction false} WithoutAt<T>(list: seq<T>, i: nat)
    requires i < |list| && list[i] !in list[..i]
    ensures Without(list, list[i]) == list[..i] + list[i + 1..]
    decreases |list|
  {
    if i == 0 {
    } else {
      assert list[0] in list[..i];
      assert list[1..][..i - 1] == list[..i][1..];
      WithoutAt(list[1..], i - 1);
    }
  }

  lemma {:induction false} WithoutAbsent<T>(list: seq<T>, x: T)
    requires x !in list
    ensures Without(list, x) == list
    decreases |list|
  {
    if list == [] {
    } else {
      WithoutAbsent(list[1..], x);
    }
  }

  lemma {:induction false} WithoutMembers<T(!new)>(list: seq<T>, x: T)
    requires Distinct(list)
    ensures Distinct(Without(list, x)) && |Without(list, x)| == if x in list then |list| - 1 else |list|
    ensures forall y :: y in Without(list, x) <==> y in list && y != x
    decreases |list|
  {
    if list == [] {
    } else {
      var rest := list[1..];
      assert Distinct(rest) && list[0] !in rest;
      WithoutMembers(rest, x);
      assert forall y :: y in list <==> y == list[0] || y in rest;
    }
  }
}
