/**
 Failover rescheduling: instances that are unschedulable or stale are marked, the failover domain widens
 the marks to nodes or units, and requests move from the widened set to healthy instances outside it.
 */
module Failover {
  import opened Balance

  datatype NodeId = NoNode | Node(name: nat)

  datatype Domain = InstanceDomain | NodeDomain | InstanceUnitDomain | NodeUnitDomain

  datatype Meta = Meta(node: NodeId, unit: nat, dataParallelSize: int, inferType: nat)

  type Metas = map<Id, Meta>

  // ---------------------------------------------------------------- the failover set

  function FailoverNodes(metas: Metas, marked: set<Id>): set<NodeId> {
    set i | i in marked && i in metas && metas[i].node != NoNode :: metas[i].node
  }

  function OnNodes(metas: Metas, nodes: set<NodeId>): set<Id> {
    set i | i in metas && metas[i].node in nodes
  }

  function FailoverUnits(metas: Metas, ids: set<Id>): set<nat> {
    set i | i in ids && i in metas :: metas[i].unit
  }

  function InUnits(metas: Metas, units: set<nat>): set<Id> {
    set i | i in metas && metas[i].unit in units
  }

  /** `dataParallel` is what was read off the first instance the map iteration happened to give. */
  function FailoverSet(metas: Metas, marked: set<Id>, domain: Domain, dataParallel: bool): set<Id> {
    match domain
    case InstanceDomain => marked
    case NodeDomain => OnNodes(metas, FailoverNodes(metas, marked))
    case InstanceUnitDomain => if dataParallel then InUnits(metas, FailoverUnits(metas, marked)) else marked
    case NodeUnitDomain =>
      var onNodes := OnNodes(metas, FailoverNodes(metas, marked));
      if dataParallel then InUnits(metas, FailoverUnits(metas, onNodes)) else onNodes
  }

  lemma NodesGrow(metas: Metas, a: set<Id>, b: set<Id>)
    requires a <= b
    ensures OnNodes(metas, FailoverNodes(metas, a)) <= OnNodes(metas, FailoverNodes(metas, b))
  {
    assert FailoverNodes(metas, a) <= FailoverNodes(metas, b);
  }

  lemma UnitsGrow(metas: Metas, a: set<Id>, b: set<Id>)
    requires a <= b
    ensures InUnits(metas, FailoverUnits(metas, a)) <= InUnits(metas, FailoverUnits(metas, b))
    ensures a <= metas.Keys ==> a <= InUnits(metas, FailoverUnits(metas, a))
  {
    assert FailoverUnits(metas, a) <= FailoverUnits(metas, b);
    forall i | i in a && i in metas
      ensures i in InUnits(metas, FailoverUnits(metas, a))
    {
      assert metas[i].unit in FailoverUnits(metas, a);
    }
  }

  /** More marks, or taking units into account, never shrinks the failover set. */
  lemma FailoverSetGrows(metas: Metas, a: set<Id>, b: set<Id>, domain: Domain, dp: bool, dq: bool)
    requires a <= b <= metas.Keys && (dp ==> dq)
    ensures FailoverSet(metas, a, domain, dp) <= FailoverSet(metas, b, domain, dq)
  {
    NodesGrow(metas, a, b);
    UnitsGrow(metas, a, b);
    UnitsGrow(metas, b, b);
    var x, y := OnNodes(metas, FailoverNodes(metas, a)), OnNodes(metas, FailoverNodes(metas, b));
    UnitsGrow(metas, x, y);
    UnitsGrow(metas, y, y);
  }

  /** Some instance on the known node of a marked instance is in the unit of `i`. */
  ghost predicate UnitIsReached(metas: Metas, marked: set<Id>, i: Id)
    requires i in metas
  {
    exists m, j :: m in marked && m in metas && j in metas && metas[m].node != NoNode
                   && metas[j].node == metas[m].node && metas[j].unit == metas[i].unit
  }

  /** When the domain takes a marked instance into the failover set. */
  ghost predicate TakesMarked(metas: Metas, marked: set<Id>, domain: Domain, dp: bool, i: Id)
    requires i in metas
  {
    match domain
    case InstanceDomain => true
    case InstanceUnitDomain => true
    case NodeDomain => metas[i].node != NoNode
    case NodeUnitDomain => metas[i].node != NoNode || (dp && UnitIsReached(metas, marked, i))
  }

  /**
   A marked instance is itself failed over, except in the node domains when its node is unknown; even then
   the node-unit domain takes it if another mark reaches its unit.
   */
  lemma MarkedIsFailedOverIff(metas: Metas, marked: set<Id>, domain: Domain, dp: bool, i: Id)
    requires i in marked && marked <= metas.Keys
    ensures i in FailoverSet(metas, marked, domain, dp) <==> TakesMarked(metas, marked, domain, dp, i)
  {
    if metas[i].node != NoNode {
      assert metas[i].node in FailoverNodes(metas, marked);
    }
    UnitsGrow(metas, marked, marked);
    var onNodes := OnNodes(metas, FailoverNodes(metas, marked));
    UnitsGrow(metas, onNodes, onNodes);
    UnitReached(metas, marked, i);
  }

  lemma UnitReached(metas: Metas, marked: set<Id>, i: Id)
    requires i in metas
    ensures i in InUnits(metas, FailoverUnits(metas, OnNodes(metas, FailoverNodes(metas, marked))))
            <==> UnitIsReached(metas, marked, i)
  {
    var nodes := FailoverNodes(metas, marked);
    var onNodes := OnNodes(metas, nodes);
    if metas[i].unit in FailoverUnits(metas, onNodes) {
      var j :| j in onNodes && metas[j].unit == metas[i].unit;
      var m :| m in marked && m in metas && metas[m].node != NoNode && metas[m].node == metas[j].node;
    }
    if UnitIsReached(metas, marked, i) {
      var m, j :| m in marked && m in metas && j in metas && metas[m].node != NoNode
                  && metas[j].node == metas[m].node && metas[j].unit == metas[i].unit;
      assert metas[m].node in nodes;
      assert j in onNodes;
    }
  }

  // ---------------------------------------------------------------- the two filter passes

  /** What one pass finds: unschedulable and stale instances. */
  datatype Look = Look(unschedulable: set<Id>, stale: set<Id>)

  function OfType(metas: Metas, inferType: nat): set<Id> {
    set i | i in metas && metas[i].inferType == inferType
  }

  function Sources(metas: Metas, inferType: nat, domain: Domain, marked: set<Id>, dataParallel: bool): set<Id> {
    OfType(metas, inferType) * FailoverSet(metas, marked, domain, dataParallel)
  }

  function Destinations(metas: Metas, inferType: nat, domain: Domain, marked: set<Id>, look: Look,
                        dataParallel: bool): set<Id> {
    OfType(metas, inferType) - look.unschedulable - look.stale - FailoverSet(metas, marked, domain, dataParallel)
  }

  /** Marks only grow between the passes, so the candidate sets are disjoint in every domain, even if health flips. */
  lemma CandidatesAreDisjoint(metas: Metas, inferType: nat, domain: Domain, first: set<Id>, second: set<Id>,
                              look: Look, dp: bool, dq: bool)
    requires first <= second <= metas.Keys && (dp ==> dq)
    ensures Sources(metas, inferType, domain, first, dp) !! Destinations(metas, inferType, domain, second, look, dq)
  {
    FailoverSetGrows(metas, first, second, domain, dp, dq);
  }

  /** What the first instance of some iteration can say about data parallelism. */
  ghost predicate MayRead(metas: Metas, dp: bool) {
    exists i :: i in metas && (metas[i].dataParallelSize > 1) == dp
  }

  ghost predicate Uniform(metas: Metas) {
    !(MayRead(metas, true) && MayRead(metas, false))
  }

  /** The marks of `a` alone reach `b`, an instance of the type, only through a unit they share. */
  ghost predicate Bridge(metas: Metas, inferType: nat, domain: Domain, a: Id, b: Id)
    requires a in metas && b in metas
  {
    && metas[a].unit == metas[b].unit && metas[b].inferType == inferType
    && match domain
       case InstanceUnitDomain => a != b
       case NodeUnitDomain => metas[a].node != NoNode && metas[a].node != metas[b].node
       case _ => false
  }

  ghost predicate HasBridge(metas: Metas, inferType: nat, domain: Domain) {
    exists a, b :: a in metas && b in metas && Bridge(metas, inferType, domain, a, b)
  }

  /** Whatever is marked, whatever the second look finds and whichever instances the iterations give first. */
  ghost predicate AlwaysDisjoint(metas: Metas, inferType: nat, domain: Domain) {
    forall first: set<Id>, second: set<Id>, look: Look, dp: bool, dq: bool ::
      first <= second <= metas.Keys && MayRead(metas, dp) && MayRead(metas, dq) ==>
        Sources(metas, inferType, domain, first, dp) !! Destinations(metas, inferType, domain, second, look, dq)
  }

  /**
   The candidates are always disjoint iff the parallel settings agree or no unit reaches from what one
   instance marks to an instance of the type outside it.
   */
  lemma AlwaysDisjointIff(metas: Metas, inferType: nat, domain: Domain)
    ensures AlwaysDisjoint(metas, inferType, domain) <==> Uniform(metas) || !HasBridge(metas, inferType, domain)
  {
    if !Uniform(metas) && HasBridge(metas, inferType, domain) {
      var a, b :| a in metas && b in metas && Bridge(metas, inferType, domain, a, b);
      BridgeOverlaps(metas, inferType, domain, a, b);
    }
    if Uniform(metas) || !HasBridge(metas, inferType, domain) {
      forall first: set<Id>, second: set<Id>, look: Look, dp: bool, dq: bool
        | first <= second <= metas.Keys && MayRead(metas, dp) && MayRead(metas, dq)
        ensures Sources(metas, inferType, domain, first, dp) !! Destinations(metas, inferType, domain, second, look, dq)
      {
        if dp ==> dq {
          CandidatesAreDisjoint(metas, inferType, domain, first, second, look, dp, dq);
        } else {
          NoBridgeNoOverlap(metas, inferType, domain, first, second, look);
        }
      }
    }
  }

  lemma BridgeOverlaps(metas: Metas, inferType: nat, domain: Domain, a: Id, b: Id)
    requires a in metas && b in metas && Bridge(metas, inferType, domain, a, b)
    ensures b in Sources(metas, inferType, domain, {a}, true)
    ensures b in Destinations(metas, inferType, domain, {a}, Look({}, {}), false)
  {
    if domain.InstanceUnitDomain? {
      assert metas[a].unit in FailoverUnits(metas, {a});
    } else {
      assert metas[a].node in FailoverNodes(metas, {a});
      UnitReached(metas, {a}, b);
      assert FailoverNodes(metas, {a}) == {metas[a].node};
    }
  }

  lemma NoBridgeNoOverlap(metas: Metas, inferType: nat, domain: Domain, first: set<Id>, second: set<Id>, look: Look)
    requires first <= second <= metas.Keys && !HasBridge(metas, inferType, domain)
    ensures Sources(metas, inferType, domain, first, true)
            !! Destinations(metas, inferType, domain, second, look, false)
  {
    NodesGrow(metas, first, second);
    forall x | x in Sources(metas, inferType, domain, first, true)
      ensures x in FailoverSet(metas, second, domain, false)
    {
      if domain.InstanceUnitDomain? {
        var a :| a in first && metas[a].unit == metas[x].unit;
        assert !Bridge(metas, inferType, domain, a, x);
      } else if domain.NodeUnitDomain? {
        ReachedOnNode(metas, inferType, first, x);
      }
    }
  }

  lemma ReachedOnNode(metas: Metas, inferType: nat, marked: set<Id>, x: Id)
    requires !HasBridge(metas, inferType, NodeUnitDomain)
    requires x in Sources(metas, inferType, NodeUnitDomain, marked, true)
    ensures x in OnNodes(metas, FailoverNodes(metas, marked))
  {
    UnitReached(metas, marked, x);
    var m, j :| m in marked && m in metas && j in metas && metas[m].node != NoNode
                && metas[j].node == metas[m].node && metas[j].unit == metas[x].unit;
    assert !Bridge(metas, inferType, NodeUnitDomain, j, x);
    assert metas[m].node in FailoverNodes(metas, marked);
  }

  /** What one more instance adds to the marked ones. */
  lemma MarkOne(all: set<Id>, todo: set<Id>, i: Id, bad: set<Id>)
    requires i in todo && todo <= all
    ensures (all - (todo - {i})) * bad == ((all - todo) * bad) + if i in bad then {i} else {}
  {
  }

  class FailoverRescheduling {
    const metas: Metas
    const domain: Domain
    const inferType: nat
    /** The sticky needs-failover marks. */
    var needsFailover: set<Id>

    constructor (metas: Metas, domain: Domain, inferType: nat)
      ensures this.metas == metas && this.domain == domain && this.inferType == inferType && needsFailover == {}
    {
      this.metas, this.domain, this.inferType, needsFailover := metas, domain, inferType, {};
    }

    /** Looks at every instance once; a mark is never taken back. */
    method MarkAll(look: Look)
      modifies this
      ensures needsFailover == old(needsFailover) + (metas.Keys * (look.unschedulable + look.stale))
    {
      var todo := metas.Keys;
      while todo != {}
        invariant todo <= metas.Keys
        invariant needsFailover == old(needsFailover) + ((metas.Keys - todo) * (look.unschedulable + look.stale))
        decreases |todo|
      {
        var i :| i in todo;
        MarkOne(metas.Keys, todo, i, look.unschedulable + look.stale);
        if i in look.unschedulable {
          needsFailover := needsFailover + {i};
        }
        if i in look.stale {
          needsFailover := needsFailover + {i};
        }
        todo := todo - {i};
      }
    }

    /** Sources: instances of the type inside the failover set. */
    method FilterSources(look: Look, dataParallel: bool) returns (src: set<Id>)
      modifies this
      ensures needsFailover == old(needsFailover) + (metas.Keys * (look.unschedulable + look.stale))
      ensures src == OfType(metas, inferType) * FailoverSet(metas, needsFailover, domain, dataParallel)
    {
      src := OfType(metas, inferType);
      MarkAll(look);
      var filteredOut := metas.Keys - FailoverSet(metas, needsFailover, domain, dataParallel);
      src := src - filteredOut;
    }

    /** Destinations: instances of the type that look healthy now and are outside the failover set. */
    method FilterDestinations(look: Look, dataParallel: bool) returns (dst: set<Id>)
      modifies this
      ensures needsFailover == old(needsFailover) + (metas.Keys * (look.unschedulable + look.stale))
      ensures dst == OfType(metas, inferType) - look.unschedulable - look.stale
                     - FailoverSet(metas, needsFailover, domain, dataParallel)
    {
      MarkAll(look);
      dst := OfType(metas, inferType) - look.unschedulable - look.stale;
      dst := dst - FailoverSet(metas, needsFailover, domain, dataParallel);
    }

    /** Both passes and the round-robin selection. The looks may differ: an instance can turn stale in between. */
    method SelectPairs(first: Look, second: Look, firstParallel: bool, secondParallel: bool)
      returns (pairs: seq<Pair>, ghost src: set<Id>, ghost dst: set<Id>)
      requires needsFailover <= metas.Keys
      modifies this
      ensures needsFailover <= metas.Keys
      ensures src == Sources(metas, inferType, domain,
                             old(needsFailover) + (metas.Keys * (first.unschedulable + first.stale)), firstParallel)
      ensures dst == Destinations(metas, inferType, domain, needsFailover, second, secondParallel)
      ensures forall p :: p in pairs ==> p.src in src && p.dst in dst && p.src != p.dst
      ensures (firstParallel ==> secondParallel) ==>
                && src !! dst && EachSourceOnce(pairs, src, dst) && EvenlySpread(pairs, dst)
                && src <= FailoverSet(metas, needsFailover, domain, secondParallel)
    {
      var sources := FilterSources(first, firstParallel);
      ghost var marked := needsFailover;
      var destinations := FilterDestinations(second, secondParallel);
      src, dst := sources, destinations;
      var s, d;
      pairs, s, d := SelectRoundRobin(sources, destinations);
      if d != [] {
        RoundRobinMembers(s, d, |s|);
      }
      if firstParallel ==> secondParallel {
        FailoverSetGrows(metas, marked, needsFailover, domain, firstParallel, secondParallel);
        RoundRobinIsFair(src, dst, s, d);
        RoundRobinSpreads(src, dst, s, d);
      }
    }
  }
}
