/**
 Which instance hands requests to which. The load-balance selector pairs the most loaded sources with the
 least loaded destinations; the results below hold for any load comparison that is a strict weak order.
 */
module Balance {
  import opened Arithmetic
  import opened Lists

  /** Instance ids, with their ordering. */
  type Id = nat

  datatype Pair = Pair(src: Id, dst: Id)

  type Less = (Id, Id) -> bool

  /** Irreflexive, transitive, and being incomparable is transitive too. */
  ghost predicate StrictWeak(less: Less) {
    && (forall a: Id :: !less(a, a))
    && (forall a: Id, b: Id, c: Id :: less(a, b) && less(b, c) ==> less(a, c))
    && (forall a: Id, b: Id, c: Id :: !less(a, b) && !less(b, c) ==> !less(a, c))
  }

  // ---------------------------------------------------------------- sorting

  /** Heavier first, ties by id. */
  predicate SrcBefore(less: Less, a: Id, b: Id) {
    less(b, a) || (!less(a, b) && a < b)
  }

  /** Lighter first, ties by id. */
  predicate DstBefore(less: Less, a: Id, b: Id) {
    less(a, b) || (!less(b, a) && a < b)
  }

  function SrcOrder(less: Less): Less {
    (a: Id, b: Id) => SrcBefore(less, a, b)
  }

  function DstOrder(less: Less): Less {
    (a: Id, b: Id) => DstBefore(less, a, b)
  }

  ghost predicate Sorted(list: seq<Id>, before: Less) {
    forall i, j :: 0 <= i < j < |list| ==> !before(list[j], list[i])
  }

  ghost predicate Transitive(before: Less) {
    && (forall a: Id, b: Id, c: Id :: !before(b, a) && !before(c, b) ==> !before(c, a))
    && (forall a: Id, b: Id :: !before(a, b) || !before(b, a))
  }

  lemma OrdersAreTransitive(less: Less)
    requires StrictWeak(less)
    ensures Transitive(SrcOrder(less)) && Transitive(DstOrder(less))
  {
  }

  /** Where an element goes in a sorted list. */
  method Insert(list: seq<Id>, x: Id, before: Less) returns (longer: seq<Id>)
    requires Sorted(list, before) && Transitive(before)
    ensures Sorted(longer, before) && multiset(longer) == multiset(list) + multiset{x}
  {
    var i := |list|;
    while i > 0 && before(x, list[i - 1])
      invariant 0 <= i <= |list|
      invariant forall j :: i <= j < |list| ==> before(x, list[j])
    {
      i := i - 1;
    }
    longer := list[..i] + [x] + list[i..];
    InsertedOnce(list, x, i);
    InsertSorted(list, x, before, i);
  }

  lemma InsertedOnce(list: seq<Id>, x: Id, i: nat)
    requires i <= |list|
    ensures multiset(list[..i] + [x] + list[i..]) == multiset(list) + multiset{x}
  {
    assert list == list[..i] + list[i..];
  }

  lemma InsertSorted(list: seq<Id>, x: Id, before: Less, i: nat)
    requires Sorted(list, before) && Transitive(before) && i <= |list|
    requires forall j :: i <= j < |list| ==> before(x, list[j])
    requires i > 0 ==> !before(x, list[i - 1])
    ensures Sorted(list[..i] + [x] + list[i..], before)
  {
    var longer := list[..i] + [x] + list[i..];
    forall a, b | 0 <= a < b < |longer|
      ensures !before(longer[b], longer[a])
    {
      if b == i && a < i - 1 {
        assert !before(list[i - 1], list[a]);
      }
    }
  }

  method Sort(list: seq<Id>, before: Less) returns (sorted: seq<Id>)
    requires Transitive(before)
    ensures Sorted(sorted, before) && multiset(sorted) == multiset(list)
  {
    sorted := [];
    for n := 0 to |list|
      invariant Sorted(sorted, before) && multiset(sorted) == multiset(list[..n])
    {
      sorted := Insert(sorted, list[n], before);
      assert list[..n + 1] == list[..n] + [list[n]];
    }
    assert list[..|list|] == list;
  }

  lemma PermutationIsDistinct(a: seq<Id>, b: seq<Id>)
    requires Distinct(a) && multiset(a) == multiset(b)
    ensures Distinct(b)
  {
    forall i, j | 0 <= i < j < |b|
      ensures b[i] != b[j]
    {
      if b[i] == b[j] {
        TwiceInMultiset(b, i, j);
        OnceInMultiset(a, b[i]);
      }
    }
  }

  lemma TwiceInMultiset(b: seq<Id>, i: nat, j: nat)
    requires i < j < |b| && b[i] == b[j]
    ensures multiset(b)[b[i]] >= 2
  {
    assert b == b[..j] + [b[j]] + b[j + 1..];
    assert b[..j] == b[..i] + [b[i]] + b[..j][i + 1..];
  }

  lemma {:induction false} OnceInMultiset(a: seq<Id>, x: Id)
    requires Distinct(a)
    ensures multiset(a)[x] <= 1
    decreases |a|
  {
    if a == [] {
    } else {
      OnceInMultiset(a[1..], x);
      assert a == [a[0]] + a[1..];
      if x == a[0] {
        assert x !in a[1..];
      }
    }
  }

  // ---------------------------------------------------------------- pairing

  /** Pairs of equal index up to, not including, the first that does not move load downwards. */
  function Pairing(less: Less, force: bool, src: seq<Id>, dst: seq<Id>): seq<Pair> {
    if src == [] || dst == [] || (force && !less(dst[0], src[0])) then []
    else [Pair(src[0], dst[0])] + Pairing(less, force, src[1..], dst[1..])
  }

  lemma {:induction false} PairingAt(less: Less, force: bool, src: seq<Id>, dst: seq<Id>)
    ensures var pairs := Pairing(less, force, src, dst);
            && |pairs| <= |src| && |pairs| <= |dst|
            && (forall i :: 0 <= i < |pairs| ==> pairs[i] == Pair(src[i], dst[i]) && (force ==> less(dst[i], src[i])))
            && (|pairs| < |src| && |pairs| < |dst| ==> force && !less(dst[|pairs|], src[|pairs|]))
    decreases |src|
  {
    if !(src == [] || dst == [] || (force && !less(dst[0], src[0]))) {
      PairingAt(less, force, src[1..], dst[1..]);
    }
  }

  ghost predicate SortedFor(less: Less, src: seq<Id>, dst: seq<Id>) {
    Sorted(src, SrcOrder(less)) && Sorted(dst, DstOrder(less))
  }

  lemma LoadsOrdered(less: Less, src: seq<Id>, dst: seq<Id>, i: nat, j: nat)
    requires StrictWeak(less) && SortedFor(less, src, dst) && i <= j
    ensures j < |src| ==> !less(src[i], src[j])
    ensures j < |dst| ==> !less(dst[j], dst[i])
  {
    if i < j {
      assert j < |src| ==> !SrcOrder(less)(src[j], src[i]);
      assert j < |dst| ==> !DstOrder(less)(dst[j], dst[i]);
    }
  }

  /** Stopping at the first pair that does not improve loses none: no later index would improve either. */
  lemma StoppingLosesNothing(less: Less, src: seq<Id>, dst: seq<Id>, i: nat)
    requires StrictWeak(less) && SortedFor(less, src, dst) && i < |src| && i < |dst|
    ensures less(dst[i], src[i]) <==> i < |Pairing(less, true, src, dst)|
  {
    PairingAt(less, true, src, dst);
    var k := |Pairing(less, true, src, dst)|;
    if i >= k {
      LoadsOrdered(less, src, dst, k, i);
    }
  }

  /** The two pairs have no instance in common. */
  predicate Apart(p: Pair, q: Pair) {
    p.src != q.src && p.src != q.dst && p.dst != q.src && p.dst != q.dst
  }

  ghost predicate AllApart(pairs: seq<Pair>) {
    forall i, j :: 0 <= i < j < |pairs| ==> Apart(pairs[i], pairs[j])
  }

  /** No instance is in two pairs, not even as a source here and a destination there. */
  lemma NobodyTwice(less: Less, src: seq<Id>, dst: seq<Id>)
    requires StrictWeak(less) && SortedFor(less, src, dst) && Distinct(src) && Distinct(dst)
    ensures AllApart(Pairing(less, true, src, dst))
    ensures forall i :: 0 <= i < |Pairing(less, true, src, dst)| ==>
              Pairing(less, true, src, dst)[i].src != Pairing(less, true, src, dst)[i].dst
  {
    PairingAt(less, true, src, dst);
    var pairs := Pairing(less, true, src, dst);
    forall i, j | 0 <= i < j < |pairs|
      ensures Apart(pairs[i], pairs[j])
    {
      LoadsOrdered(less, src, dst, i, j);
      assert less(dst[i], src[i]) && less(dst[j], src[j]);
    }
  }

  /** Pairs two sorted lists off, position by position. */
  method PairOff(less: Less, force: bool, src: seq<Id>, dst: seq<Id>) returns (pairs: seq<Pair>)
    ensures pairs == Pairing(less, force, src, dst)
  {
    pairs := [];
    var minLen := if |src| < |dst| then |src| else |dst|;
    PairingAt(less, force, src, dst);
    ghost var target := Pairing(less, force, src, dst);
    for i := 0 to minLen
      invariant i <= |target| && pairs == target[..i]
    {
      if force && !less(dst[i], src[i]) {
        break;
      }
      pairs := pairs + [Pair(src[i], dst[i])];
    }
  }

  /** Sorts both lists and pairs them. */
  method PairLists(less: Less, force: bool, srcList: seq<Id>, dstList: seq<Id>)
    returns (pairs: seq<Pair>, src: seq<Id>, dst: seq<Id>)
    requires StrictWeak(less)
    ensures SortedFor(less, src, dst) && multiset(src) == multiset(srcList) && multiset(dst) == multiset(dstList)
    ensures pairs == Pairing(less, force, src, dst)
  {
    OrdersAreTransitive(less);
    src := Sort(srcList, SrcOrder(less));
    dst := Sort(dstList, DstOrder(less));
    pairs := PairOff(less, force, src, dst);
  }

  // ---------------------------------------------------------------- one scope or one unit at a time

  /** A candidate map as a list, in no particular order. */
  method Listing(candidates: set<Id>) returns (list: seq<Id>)
    ensures Distinct(list) && forall x :: x in list <==> x in candidates
  {
    list := [];
    var todo := candidates;
    while todo != {}
      invariant Distinct(list) && todo <= candidates
      invariant forall x :: x in list <==> x in candidates && x !in todo
      decreases |todo|
    {
      var x :| x in todo;
      list := list + [x];
      todo := todo - {x};
    }
  }

  /** Every pair goes from a source candidate to a destination candidate, downwards. */
  ghost predicate Proper(pairs: seq<Pair>, less: Less, src: set<Id>, dst: set<Id>) {
    forall i :: 0 <= i < |pairs| ==> pairs[i].src in src && pairs[i].dst in dst && less(pairs[i].dst, pairs[i].src)
  }

  /** Some source carries more than some destination. */
  ghost predicate Improvable(less: Less, src: set<Id>, dst: set<Id>) {
    exists a, b :: a in src && b in dst && less(b, a)
  }

  lemma FirstPairIsBest(less: Less, src: seq<Id>, dst: seq<Id>, i: nat, j: nat)
    requires StrictWeak(less) && SortedFor(less, src, dst) && i < |src| && j < |dst| && less(dst[j], src[i])
    ensures Pairing(less, true, src, dst) != []
  {
    LoadsOrdered(less, src, dst, 0, i);
    LoadsOrdered(less, src, dst, 0, j);
  }

  /** Both lists hold exactly the candidates, each once. */
  ghost predicate Enumerate(src: set<Id>, dst: set<Id>, s: seq<Id>, d: seq<Id>) {
    Distinct(s) && Distinct(d) && (forall x :: x in s <==> x in src) && (forall x :: x in d <==> x in dst)
  }

  lemma PairsAreProper(less: Less, src: set<Id>, dst: set<Id>, s: seq<Id>, d: seq<Id>)
    requires Enumerate(src, dst, s, d)
    ensures Proper(Pairing(less, true, s, d), less, src, dst)
  {
    PairingAt(less, true, s, d);
    var pairs := Pairing(less, true, s, d);
    forall i | 0 <= i < |pairs|
      ensures pairs[i].src in src && pairs[i].dst in dst && less(pairs[i].dst, pairs[i].src)
    {
      assert s[i] in s && d[i] in d;
    }
  }

  lemma PairedIffImprovable(less: Less, src: set<Id>, dst: set<Id>, s: seq<Id>, d: seq<Id>)
    requires StrictWeak(less) && SortedFor(less, s, d) && Enumerate(src, dst, s, d)
    ensures Pairing(less, true, s, d) != [] <==> Improvable(less, src, dst)
  {
    PairsAreProper(less, src, dst, s, d);
    var pairs := Pairing(less, true, s, d);
    if pairs != [] {
      assert pairs[0].src in src && pairs[0].dst in dst && less(pairs[0].dst, pairs[0].src);
    }
    if Improvable(less, src, dst) {
      var a, b :| a in src && b in dst && less(b, a);
      assert a in s && b in d;
      var i: nat :| i < |s| && s[i] == a;
      var j: nat :| j < |d| && d[j] == b;
      FirstPairIsBest(less, s, d, i, j);
    }
  }

  method SelectInCluster(less: Less, src: set<Id>, dst: set<Id>) returns (pairs: seq<Pair>)
    requires StrictWeak(less)
    ensures Proper(pairs, less, src, dst) && AllApart(pairs)
    ensures pairs != [] <==> Improvable(less, src, dst)
  {
    var srcList := Listing(src);
    var dstList := Listing(dst);
    var s, d;
    pairs, s, d := PairLists(less, true, srcList, dstList);
    SameMembers(srcList, s);
    SameMembers(dstList, d);
    NobodyTwice(less, s, d);
    PairsAreProper(less, src, dst, s, d);
    PairedIffImprovable(less, src, dst, s, d);
  }

  datatype Unit = NoUnit | Unit(name: nat)

  function InUnit(candidates: set<Id>, unitOf: Id -> Unit, u: Unit): set<Id> {
    set x | x in candidates && unitOf(x) == u
  }

  function UnitsOf(candidates: set<Id>, unitOf: Id -> Unit): set<Unit> {
    set x | x in candidates && unitOf(x) != NoUnit :: unitOf(x)
  }

  /** All pairs stay inside a unit that was already handled. */
  ghost predicate WithinUnits(pairs: seq<Pair>, unitOf: Id -> Unit, done: set<Unit>) {
    forall i :: 0 <= i < |pairs| ==> unitOf(pairs[i].src) == unitOf(pairs[i].dst) && unitOf(pairs[i].src) in done
  }

  ghost predicate HasPair(pairs: seq<Pair>, unitOf: Id -> Unit, u: Unit) {
    exists i :: 0 <= i < |pairs| && unitOf(pairs[i].src) == u
  }

  /** A unit gets a pair exactly when some pair inside it would help. */
  ghost predicate Served(pairs: seq<Pair>, less: Less, src: set<Id>, dst: set<Id>, unitOf: Id -> Unit, u: Unit) {
    HasPair(pairs, unitOf, u) <==> Improvable(less, InUnit(src, unitOf, u), InUnit(dst, unitOf, u))
  }

  lemma HasPairJoin(pairs: seq<Pair>, more: seq<Pair>, unitOf: Id -> Unit, u: Unit)
    requires forall i :: 0 <= i < |more| ==> unitOf(more[i].src) == u
    requires !HasPair(pairs, unitOf, u)
    ensures forall v :: HasPair(pairs + more, unitOf, v) <==> if v == u then more != [] else HasPair(pairs, unitOf, v)
  {
    var all := pairs + more;
    forall v
      ensures HasPair(all, unitOf, v) <==> if v == u then more != [] else HasPair(pairs, unitOf, v)
    {
      if v == u && more != [] {
        assert all[|pairs|] == more[0];
      }
      if v != u && HasPair(pairs, unitOf, v) {
        var i :| 0 <= i < |pairs| && unitOf(pairs[i].src) == v;
        assert all[i] == pairs[i];
      }
    }
  }

  lemma JoinApart(pairs: seq<Pair>, more: seq<Pair>, unitOf: Id -> Unit, done: set<Unit>, u: Unit)
    requires AllApart(pairs) && AllApart(more) && WithinUnits(pairs, unitOf, done) && u !in done
    requires forall i :: 0 <= i < |more| ==> unitOf(more[i].src) == u == unitOf(more[i].dst)
    ensures AllApart(pairs + more) && WithinUnits(pairs + more, unitOf, done + {u})
  {
  }

  /** The pairs of the units handled so far. */
  ghost predicate Handled(pairs: seq<Pair>, less: Less, src: set<Id>, dst: set<Id>, unitOf: Id -> Unit,
                          done: set<Unit>)
  {
    && Proper(pairs, less, src, dst) && AllApart(pairs) && WithinUnits(pairs, unitOf, done)
    && forall u :: u in done ==> Served(pairs, less, src, dst, unitOf, u)
  }

  /** What the selection inside one unit gives. */
  ghost predicate UnitPairs(pairs: seq<Pair>, less: Less, src: set<Id>, dst: set<Id>, unitOf: Id -> Unit, u: Unit) {
    && Proper(pairs, less, InUnit(src, unitOf, u), InUnit(dst, unitOf, u)) && AllApart(pairs)
    && (pairs != [] <==> Improvable(less, InUnit(src, unitOf, u), InUnit(dst, unitOf, u)))
  }

  lemma HandleOne(pairs: seq<Pair>, more: seq<Pair>, less: Less, src: set<Id>, dst: set<Id>, unitOf: Id -> Unit,
                  done: set<Unit>, u: Unit)
    requires Handled(pairs, less, src, dst, unitOf, done) && u !in done
    requires UnitPairs(more, less, src, dst, unitOf, u)
    ensures Handled(pairs + more, less, src, dst, unitOf, done + {u})
  {
    JoinApart(pairs, more, unitOf, done, u);
    HasPairJoin(pairs, more, unitOf, u);
  }

  method SelectInUnit(less: Less, src: set<Id>, dst: set<Id>, unitOf: Id -> Unit, u: Unit) returns (pairs: seq<Pair>)
    requires StrictWeak(less)
    ensures UnitPairs(pairs, less, src, dst, unitOf, u)
  {
    pairs := SelectInCluster(less, InUnit(src, unitOf, u), InUnit(dst, unitOf, u));
  }

  /** Pairs instances of the same unit only; instances without a unit are left alone. */
  method SelectInUnits(less: Less, src: set<Id>, dst: set<Id>, unitOf: Id -> Unit) returns (pairs: seq<Pair>)
    requires StrictWeak(less)
    ensures Proper(pairs, less, src, dst) && AllApart(pairs) && WithinUnits(pairs, unitOf, UnitsOf(src, unitOf))
    ensures forall u :: u in UnitsOf(src, unitOf) ==> Served(pairs, less, src, dst, unitOf, u)
  {
    pairs := [];
    var todo := UnitsOf(src, unitOf);
    ghost var units, done := todo, {};
    while todo != {}
      invariant todo !! done && todo + done == units
      invariant Handled(pairs, less, src, dst, unitOf, done)
      decreases todo
    {
      var u :| u in todo;
      var more := SelectInUnit(less, src, dst, unitOf, u);
      HandleOne(pairs, more, less, src, dst, unitOf, done, u);
      pairs := pairs + more;
      todo, done := todo - {u}, done + {u};
    }
  }

  // ---------------------------------------------------------------- round robin

  /** Source i goes to destination i modulo the number of destinations, unless that is itself. */
  function RoundRobin(src: seq<Id>, dst: seq<Id>, n: nat): seq<Pair>
    requires dst != [] && n <= |src|
  {
    if n == 0 then []
    else
      var i := n - 1;
      RoundRobin(src, dst, i) + if src[i] == dst[i % |dst|] then [] else [Pair(src[i], dst[i % |dst|])]
  }

  function IdOrder(): Less {
    (a: Id, b: Id) => a < b
  }

  /** The sources go round the destinations. */
  method Deal(src: seq<Id>, dst: seq<Id>) returns (pairs: seq<Pair>)
    requires dst != []
    ensures pairs == RoundRobin(src, dst, |src|)
  {
    pairs := [];
    for i := 0 to |src|
      invariant pairs == RoundRobin(src, dst, i)
    {
      var target := dst[i % |dst|];
      if src[i] == target {
        continue;
      }
      pairs := pairs + [Pair(src[i], target)];
    }
  }

  method SelectRoundRobin(srcSet: set<Id>, dstSet: set<Id>) returns (pairs: seq<Pair>, src: seq<Id>, dst: seq<Id>)
    ensures Distinct(src) && Sorted(src, IdOrder()) && (forall x :: x in src <==> x in srcSet)
    ensures Distinct(dst) && Sorted(dst, IdOrder()) && (forall x :: x in dst <==> x in dstSet)
    ensures pairs == if dst == [] then [] else RoundRobin(src, dst, |src|)
  {
    var srcList := Listing(srcSet);
    var dstList := Listing(dstSet);
    var s := Sort(srcList, IdOrder());
    var d := Sort(dstList, IdOrder());
    src, dst := s, d;
    SameMembers(srcList, s);
    SameMembers(dstList, d);
    if d == [] {
      return [], src, dst;
    }
    pairs := Deal(src, dst);
  }

  lemma SameMembers(a: seq<Id>, b: seq<Id>)
    requires Distinct(a) && multiset(a) == multiset(b)
    ensures Distinct(b) && forall x :: x in a <==> x in b
  {
    PermutationIsDistinct(a, b);
    forall x
      ensures x in a <==> x in b
    {
      assert x in a <==> x in multiset(a);
      assert x in b <==> x in multiset(b);
    }
  }

  /** With disjoint candidates the last source always gets a pair. */
  lemma LastDealt(src: seq<Id>, dst: seq<Id>, n: nat) returns (before: seq<Pair>, i: nat)
    requires dst != [] && 0 < n <= |src| && forall x :: x in src ==> x !in dst
    ensures before == RoundRobin(src, dst, n - 1) && i == (n - 1) % |dst| && i < |dst|
    ensures RoundRobin(src, dst, n) == before + [Pair(src[n - 1], dst[i])]
  {
    before, i := RoundRobin(src, dst, n - 1), (n - 1) % |dst|;
    assert src[n - 1] in src && dst[i] in dst;
  }

  /** With disjoint candidates every source gets exactly one pair, in order. */
  lemma {:induction false} RoundRobinCoversSources(src: seq<Id>, dst: seq<Id>, n: nat)
    requires dst != [] && n <= |src| && forall x :: x in src ==> x !in dst
    ensures |RoundRobin(src, dst, n)| == n
    ensures forall i :: 0 <= i < n ==> RoundRobin(src, dst, n)[i] == Pair(src[i], dst[i % |dst|])
    decreases n
  {
    if n == 0 {
    } else {
      RoundRobinCoversSources(src, dst, n - 1);
      var before, i := LastDealt(src, dst, n);
    }
  }

  /** Every source is paired exactly once, with some destination; without destinations there are no pairs. */
  ghost predicate EachSourceOnce(pairs: seq<Pair>, src: set<Id>, dst: set<Id>) {
    && (forall i :: 0 <= i < |pairs| ==> pairs[i].src in src && pairs[i].dst in dst)
    && (forall i, j :: 0 <= i < j < |pairs| ==> pairs[i].src != pairs[j].src)
    && (dst != {} ==> forall x :: x in src ==> exists i :: 0 <= i < |pairs| && pairs[i].src == x)
  }

  lemma RoundRobinIsFair(srcSet: set<Id>, dstSet: set<Id>, src: seq<Id>, dst: seq<Id>)
    requires srcSet !! dstSet && Distinct(src) && (forall x :: x in src <==> x in srcSet)
    requires forall x :: x in dst <==> x in dstSet
    ensures EachSourceOnce(if dst == [] then [] else RoundRobin(src, dst, |src|), srcSet, dstSet)
  {
    if dst != [] {
      RoundRobinCoversSources(src, dst, |src|);
      var pairs := RoundRobin(src, dst, |src|);
      forall i | 0 <= i < |pairs|
        ensures pairs[i].src in srcSet && pairs[i].dst in dstSet
      {
        assert src[i] in src && dst[i % |dst|] in dst;
      }
      forall x | x in srcSet
        ensures exists i :: 0 <= i < |pairs| && pairs[i].src == x
      {
        var i :| 0 <= i < |src| && src[i] == x;
        assert pairs[i].src == x;
      }
    } else {
      assert forall x :: x in dstSet ==> x in dst;
    }
  }

  /** With disjoint candidates the destinations share the sources evenly. */
  lemma RoundRobinSpreads(srcSet: set<Id>, dstSet: set<Id>, src: seq<Id>, dst: seq<Id>)
    requires srcSet !! dstSet && (forall x :: x in src <==> x in srcSet)
    requires Distinct(dst) && (forall x :: x in dst <==> x in dstSet)
    ensures EvenlySpread(if dst == [] then [] else RoundRobin(src, dst, |src|), dstSet)
  {
    if dst == [] {
    } else {
      var pairs := RoundRobin(src, dst, |src|);
      forall x, y | x in dstSet && y in dstSet
        ensures Received(pairs, x) <= Received(pairs, y) + 1
      {
        assert x in dst && y in dst;
        var j: nat :| j < |dst| && dst[j] == x;
        var k: nat :| k < |dst| && dst[k] == y;
        if j < k {
          RoundRobinIsEven(src, dst, j, k);
        } else if k < j {
          RoundRobinIsEven(src, dst, k, j);
        }
      }
    }
  }

  /** Whatever the candidates, a pair goes from a source to another instance among the destinations. */
  lemma {:induction false} RoundRobinMembers(src: seq<Id>, dst: seq<Id>, n: nat)
    requires dst != [] && n <= |src|
    ensures forall p :: p in RoundRobin(src, dst, n) ==> p.src in src && p.dst in dst && p.src != p.dst
    decreases n
  {
    if n == 0 {
    } else {
      RoundRobinMembers(src, dst, n - 1);
      assert src[n - 1] in src && dst[(n - 1) % |dst|] in dst;
    }
  }

  /** How many of the first n sources go to destination k. */
  function Share(n: nat, size: nat, k: nat): nat
    requires k < size
  {
    if n == 0 then 0 else Share(n - 1, size, k) + if (n - 1) % size == k then 1 else 0
  }

  /** The shares of two destinations differ by at most one, the earlier never having fewer. */
  lemma {:induction false} SharesAreEven(n: nat, size: nat, j: nat, k: nat)
    requires j < k < size
    ensures Share(n, size, k) <= Share(n, size, j) <= Share(n, size, k) + 1
    ensures Share(n, size, j) == Share(n, size, k) + 1 <==> j < n % size <= k
    decreases n
  {
    if n == 0 {
    } else {
      SharesAreEven(n - 1, size, j, k);
      NextResidue(n - 1, size);
    }
  }

  /** How many pairs hand a source to `x`. */
  function Received(pairs: seq<Pair>, x: Id): nat {
    if pairs == [] then 0
    else Received(pairs[..|pairs| - 1], x) + if pairs[|pairs| - 1].dst == x then 1 else 0
  }

  ghost predicate EvenlySpread(pairs: seq<Pair>, dst: set<Id>) {
    forall x, y :: x in dst && y in dst ==> Received(pairs, x) <= Received(pairs, y) + 1
  }

  lemma OneMoreReceived(pairs: seq<Pair>, p: Pair, x: Id)
    ensures Received(pairs + [p], x) == Received(pairs, x) + if p.dst == x then 1 else 0
  {
    assert (pairs + [p])[..|pairs|] == pairs;
  }

  /** With disjoint candidates a destination receives the sources of its residue, and no others. */
  lemma {:induction false} ReceivedIsShare(src: seq<Id>, dst: seq<Id>, n: nat, k: nat)
    requires dst != [] && n <= |src| && k < |dst| && Distinct(dst) && forall x :: x in src ==> x !in dst
    ensures Received(RoundRobin(src, dst, n), dst[k]) == Share(n, |dst|, k)
    decreases n
  {
    if n == 0 {
    } else {
      ReceivedIsShare(src, dst, n - 1, k);
      var before, i := LastDealt(src, dst, n);
      OneMoreReceived(before, Pair(src[n - 1], dst[i]), dst[k]);
      assert dst[i] == dst[k] <==> i == k;
    }
  }

  /** Two destinations receive the same number of sources, or the earlier one more; which, depends on the remainder. */
  lemma RoundRobinIsEven(src: seq<Id>, dst: seq<Id>, j: nat, k: nat)
    requires j < k < |dst| && Distinct(dst) && forall x :: x in src ==> x !in dst
    ensures var pairs := RoundRobin(src, dst, |src|);
            && Received(pairs, dst[k]) <= Received(pairs, dst[j]) <= Received(pairs, dst[k]) + 1
            && (Received(pairs, dst[j]) == Received(pairs, dst[k]) + 1 <==> j < |src| % |dst| <= k)
  {
    ReceivedIsShare(src, dst, |src|, j);
    ReceivedIsShare(src, dst, |src|, k);
    SharesAreEven(|src|, |dst|, j, k);
  }

  lemma NextResidue(n: nat, size: nat)
    requires size > 0
    ensures (n + 1) % size == if n % size + 1 == size then 0 else n % size + 1
  {
    var q, r := n / size, n % size;
    assert n == q * size + r;
    if r + 1 == size {
      assert n + 1 == (q + 1) * size;
      Euclidean(n + 1, q + 1, 0, size);
    } else {
      Euclidean(n + 1, q, r + 1, size);
    }
  }

  // ---------------------------------------------------------------- combining policies

  predicate Conflict(p: Pair, q: Pair) {
    p.src == q.dst && p.dst == q.src
  }

  predicate ConflictsWithAny(kept: seq<Pair>, p: Pair) {
    exists i :: 0 <= i < |kept| && Conflict(kept[i], p)
  }

  /** Keeps a selected pair iff it reverses none kept before. */
  function Validated(selected: seq<Pair>, kept: seq<Pair>, n: nat): seq<Pair>
    requires n <= |selected|
  {
    if n == 0 then kept
    else
      var before := Validated(selected, kept, n - 1);
      if ConflictsWithAny(before, selected[n - 1]) then before else before + [selected[n - 1]]
  }

  method ValidateAndAppendPairs(selected: seq<Pair>, kept: seq<Pair>) returns (pairs: seq<Pair>)
    ensures pairs == Validated(selected, kept, |selected|)
  {
    pairs := kept;
    for n := 0 to |selected|
      invariant pairs == Validated(selected, kept, n)
    {
      var ok := true;
      for i := 0 to |pairs|
        invariant ok
        invariant forall j :: 0 <= j < i ==> !Conflict(pairs[j], selected[n])
      {
        if Conflict(pairs[i], selected[n]) {
          ok := false;
          break;
        }
      }
      if !ok {
        continue;
      }
      pairs := pairs + [selected[n]];
    }
  }

  /** No two entries of the list reverse each other. */
  ghost predicate NoReversal(pairs: seq<Pair>) {
    forall i, j :: 0 <= i < j < |pairs| ==> !Conflict(pairs[i], pairs[j])
  }

  lemma {:induction false} ValidatedHasNoReversal(selected: seq<Pair>, kept: seq<Pair>, n: nat)
    requires NoReversal(kept) && n <= |selected|
    ensures NoReversal(Validated(selected, kept, n)) && kept <= Validated(selected, kept, n)
    decreases n
  {
    if n == 0 {
    } else {
      ValidatedHasNoReversal(selected, kept, n - 1);
    }
  }

  /** A selected pair is missing from the result only if the result holds its reverse. */
  lemma {:induction false} DroppedOnlyForReversal(selected: seq<Pair>, kept: seq<Pair>, n: nat, k: nat)
    requires k < n <= |selected|
    ensures selected[k] in Validated(selected, kept, n)
            || Pair(selected[k].dst, selected[k].src) in Validated(selected, kept, n)
    decreases n
  {
    var before := Validated(selected, kept, n - 1);
    if k < n - 1 {
      DroppedOnlyForReversal(selected, kept, n - 1, k);
    } else if ConflictsWithAny(before, selected[k]) {
      var i :| 0 <= i < |before| && Conflict(before[i], selected[k]);
      assert before[i] == Pair(selected[k].dst, selected[k].src);
    }
  }

  function AllPolicies(selections: seq<seq<Pair>>): seq<Pair> {
    if selections == [] then []
    else
      var last := selections[|selections| - 1];
      Validated(last, AllPolicies(selections[..|selections| - 1]), |last|)
  }

  /** However many policies select pairs, the final list never holds both a to b and b to a. */
  lemma {:induction false} FinalListHasNoReversal(selections: seq<seq<Pair>>)
    ensures NoReversal(AllPolicies(selections))
    decreases |selections|
  {
    if selections == [] {
    } else {
      FinalListHasNoReversal(selections[..|selections| - 1]);
      var last := selections[|selections| - 1];
      ValidatedHasNoReversal(last, AllPolicies(selections[..|selections| - 1]), |last|);
    }
  }
}
