/**
 The store object itself. Its methods work on three indexes and running totals; what they do is stated on
 a `Directory`, which is nothing but the live records, the instance versions and the gateways.
 */
module RealtimeStore {
  import opened Lists
  import opened RealtimeState

  datatype Directory = Directory(records: Records, versions: map<Id, int>, gateways: set<Id>)

  /** The token total an instance should show. */
  ghost function Total(d: Directory, i: Id): int {
    Sum(Loads(d.records, i))
  }

  datatype Op =
    | Allocate(state: RequestState)
    | Update(r: Id, instanceId: Id, gatewayId: Id, tokens: int)
    | PrefillDone(r: Id, instanceId: Id, gatewayId: Id)
    | Release(r: Id, instanceId: Id, gatewayId: Id)
    | AddInstance(instanceId: Id, version: int)
    | RemoveInstance(instanceId: Id)
    | AddGateway(gatewayId: Id)
    | RemoveGateway(gatewayId: Id)

  function OnOthers(records: Records, i: Id): Records {
    map r | r in records && records[r].instanceId != i :: records[r]
  }

  function OfOthers(records: Records, g: Id): Records {
    map r | r in records && records[r].gatewayId != g :: records[r]
  }

  function WithoutInstance(d: Directory, i: Id): Directory {
    d.(records := OnOthers(d.records, i), versions := d.versions - {i})
  }

  /** The record a message names, if the message also names its instance. */
  predicate Names(d: Directory, r: Id, instanceId: Id, gatewayId: Id) {
    r in d.records && d.records[r].instanceId == instanceId && gatewayId in d.gateways
  }

  predicate Matches(d: Directory, r: Id, instanceId: Id, gatewayId: Id) {
    r in d.records && d.records[r].instanceId == instanceId && d.records[r].gatewayId == gatewayId
  }

  function Apply(d: Directory, op: Op): Directory {
    match op
    case Allocate(state) =>
      if state.reqId !in d.records && state.instanceId in d.versions && state.gatewayId in d.gateways
      then d.(records := d.records[state.reqId := state]) else d
    case Update(r, i, g, tokens) =>
      if Matches(d, r, i, g) && tokens > d.records[r].numTokens
      then d.(records := d.records[r := d.records[r].(numTokens := tokens)]) else d
    case PrefillDone(r, i, g) =>
      if Names(d, r, i, g) then d.(records := d.records[r := d.records[r].(prefillCompleted := true)]) else d
    case Release(r, i, g) => if Matches(d, r, i, g) then d.(records := d.records - {r}) else d
    case AddInstance(i, version) =>
      if i in d.versions && version <= d.versions[i] then d
      else WithoutInstance(d, i).(versions := d.versions[i := version])
    case RemoveInstance(i) => WithoutInstance(d, i)
    case AddGateway(g) => d.(gateways := d.gateways + {g})
    case RemoveGateway(g) =>
      Directory(OfOthers(d.records, g), d.versions, d.gateways - {g})
  }

  function Versions(views: map<Id, InstanceView>): map<Id, int> {
    map i | i in views :: views[i].version
  }

  function Abs(s: Store): Directory {
    Directory(s.Records(), Versions(s.views), s.gateways.Keys)
  }

  // ---------------------------------------------------------------- the operations on the indexes

  /** Every address held by an index belongs to an object. */
  ghost predicate Closed(s: Store) {
    && (forall r :: r in s.requests ==> s.requests[r] in s.states)
    && (forall i, r :: i in s.views && r in s.views[i].requests ==> s.views[i].requests[r] in s.states)
  }

  function AllocateOutcome(s: Store, state: RequestState): Outcome {
    if state.reqId in s.requests then RequestExists
    else if state.instanceId !in s.views then EndpointNotFound
    else if state.gatewayId !in s.gateways then GatewayNotFound
    else Ok
  }

  function AllocateIn(s: Store, ref: Ref, state: RequestState): Store {
    if AllocateOutcome(s, state) == Ok then Allocated(s, ref, state) else s
  }

  function UpdateOutcome(s: Store, r: Id, i: Id, g: Id): Outcome
    requires r in s.requests && i in s.views && r in s.views[i].requests ==> s.views[i].requests[r] in s.states
  {
    if r !in s.requests then RequestNotExists
    else if i !in s.views then EndpointNotFound
    else if g !in s.gateways then GatewayNotFound
    else if r !in s.views[i].requests then RequestNotExists
    else if g != s.states[s.views[i].requests[r]].gatewayId then GatewayChanged
    else Ok
  }

  function UpdateIn(s: Store, r: Id, i: Id, g: Id, tokens: int): Store
    requires r in s.requests && i in s.views && r in s.views[i].requests ==> s.views[i].requests[r] in s.states
  {
    if UpdateOutcome(s, r, i, g) != Ok then s
    else
      var view := s.views[i];
      var inner := s.states[view.requests[r]];
      if tokens < inner.numTokens then s
      else s.(states := s.states[view.requests[r] := inner.(numTokens := tokens)],
              views := s.views[i := view.(numTokens := view.numTokens + (tokens - inner.numTokens))])
  }

  function PrefillDoneIn(s: Store, r: Id, i: Id, g: Id): Store
    requires r in s.requests && i in s.views && r in s.views[i].requests ==> s.views[i].requests[r] in s.states
  {
    if r in s.requests && i in s.views && g in s.gateways && r in s.views[i].requests then
      var ref := s.views[i].requests[r];
      s.(states := s.states[ref := s.states[ref].(prefillCompleted := true)])
    else s
  }

  function ForgetIn(view: InstanceView, states: map<Ref, RequestState>, r: Id): InstanceView
    requires r in view.requests ==> view.requests[r] in states
  {
    if r in view.requests then Forget(view, r, states[view.requests[r]].numTokens) else view
  }

  function ReleaseIn(s: Store, r: Id, i: Id, g: Id): Store
    requires i in s.views && r in s.views[i].requests ==> s.views[i].requests[r] in s.states
  {
    if r in s.requests && i in s.views && g in s.gateways then
      s.(requests := s.requests - {r}, views := s.views[i := ForgetIn(s.views[i], s.states, r)],
         gateways := s.gateways[g := s.gateways[g] - {r}])
    else s
  }

  function RemoveInstanceIn(s: Store, i: Id): Store {
    if i in s.views then Reclaimed(s, i) else s
  }

  function AddInstanceIn(s: Store, i: Id, version: int): Store {
    if i in s.views && version <= s.views[i].version then s
    else
      var t := RemoveInstanceIn(s, i);
      t.(views := t.views[i := InstanceView(version, 0, map[])])
  }

  /** One request of a gateway that is going away. */
  function DropIn(s: Store, r: Id): Store
    requires Closed(s)
  {
    if r !in s.requests then s
    else
      var i := s.states[s.requests[r]].instanceId;
      s.(requests := s.requests - {r},
         views := if i in s.views then s.views[i := ForgetIn(s.views[i], s.states, r)] else s.views)
  }

  lemma DropKeepsClosed(s: Store, r: Id)
    requires Closed(s)
    ensures Closed(DropIn(s, r))
  {
  }

  function DropAll(s: Store, order: seq<Id>): Store
    requires Closed(s)
    decreases |order|
  {
    if order == [] then s
    else
      DropKeepsClosed(s, order[0]);
      DropAll(DropIn(s, order[0]), order[1..])
  }

  // ---------------------------------------------------------------- they refine the directory

  lemma ValidIsClosed(s: Store)
    requires s.Valid()
    ensures Closed(s) && s.requests.Keys == s.Records().Keys
  {
  }

  /** An instance map holds a request iff the record names that instance, and it holds the same object. */
  ghost predicate HeldBy(s: Store, r: Id, i: Id) {
    && (r in s.requests <==> r in s.Records())
    && (r in s.requests ==>
          s.requests[r] in s.states && s.states[s.requests[r]] == s.Records()[r]
          && s.Records()[r].instanceId in s.views && s.Records()[r].gatewayId in s.gateways
          && s.Records()[r].numTokens >= 0)
    && (i in s.views ==>
          && (r in s.views[i].requests <==> r in s.Records() && s.Records()[r].instanceId == i)
          && (r in s.views[i].requests ==> s.views[i].requests[r] == s.requests[r]))
  }

  lemma ValidHolds(s: Store, r: Id, i: Id)
    requires s.Valid()
    ensures HeldBy(s, r, i)
  {
  }

  lemma SameVersions(s: Store, t: Store)
    requires s.views.Keys == t.views.Keys && forall i :: i in s.views ==> s.views[i].version == t.views[i].version
    ensures Abs(s).versions == Abs(t).versions
  {
  }

  lemma AllocateRefines(s: Store, ref: Ref, state: RequestState)
    requires s.Valid() && state.numTokens >= 0 && ref !in s.requests.Values
    ensures AllocateIn(s, ref, state).Valid() && Abs(AllocateIn(s, ref, state)) == Apply(Abs(s), Allocate(state))
  {
    ValidHolds(s, state.reqId, state.instanceId);
    if AllocateOutcome(s, state) == Ok {
      AllocateKeepsValid(s, ref, state);
      AllocateAbs(s, ref, state);
    }
  }

  lemma AllocateAbs(s: Store, ref: Ref, state: RequestState)
    requires AllocateOutcome(s, state) == Ok && state.reqId !in s.Records()
    requires Allocated(s, ref, state).Records() == s.Records()[state.reqId := state]
    ensures Abs(Allocated(s, ref, state)) == Apply(Abs(s), Allocate(state))
  {
    SameVersions(s, Allocated(s, ref, state));
  }

  /** In a valid store an update changes the shared object and the total exactly when the message matches. */
  lemma UpdateIsChange(s: Store, r: Id, i: Id, g: Id, tokens: int)
    requires HeldBy(s, r, i)
    ensures UpdateOutcome(s, r, i, g) == Ok <==> Matches(Abs(s), r, i, g)
    ensures UpdateIn(s, r, i, g, tokens)
         == if Matches(Abs(s), r, i, g) && tokens >= s.Records()[r].numTokens
            then Changed(s, r, tokens, s.Records()[r].prefillCompleted) else s
  {
  }

  lemma ChangedAbs(s: Store, r: Id, tokens: int, prefill: bool)
    requires r in s.Records() && s.Records()[r].instanceId in s.views
    requires Changed(s, r, tokens, prefill).Records()
          == s.Records()[r := s.Records()[r].(numTokens := tokens, prefillCompleted := prefill)]
    ensures Abs(Changed(s, r, tokens, prefill))
         == Abs(s).(records := s.Records()[r := s.Records()[r].(numTokens := tokens, prefillCompleted := prefill)])
  {
    SameVersions(s, Changed(s, r, tokens, prefill));
  }

  /** What the sender of an update is told: the first check its message does not pass. */
  function UpdateAnswer(d: Directory, r: Id, i: Id, g: Id): Outcome {
    if r !in d.records then RequestNotExists
    else if i !in d.versions then EndpointNotFound
    else if g !in d.gateways then GatewayNotFound
    else if d.records[r].instanceId != i then RequestNotExists
    else if d.records[r].gatewayId != g then GatewayChanged
    else Ok
  }

  lemma UpdateRefines(s: Store, r: Id, i: Id, g: Id, tokens: int)
    requires s.Valid()
    ensures HeldBy(s, r, i) && UpdateOutcome(s, r, i, g) == UpdateAnswer(Abs(s), r, i, g)
    ensures UpdateOutcome(s, r, i, g) == Ok <==> Matches(Abs(s), r, i, g)
    ensures UpdateIn(s, r, i, g, tokens).Valid()
    ensures Abs(UpdateIn(s, r, i, g, tokens)) == Apply(Abs(s), Update(r, i, g, tokens))
  {
    ValidHolds(s, r, i);
    UpdateIsChange(s, r, i, g, tokens);
    if Matches(Abs(s), r, i, g) && tokens >= s.Records()[r].numTokens {
      ChangeKeepsValid(s, r, tokens, s.Records()[r].prefillCompleted);
      ChangedAbs(s, r, tokens, s.Records()[r].prefillCompleted);
      UpdateApplied(Abs(s), r, i, g, tokens);
    }
  }

  lemma UpdateApplied(d: Directory, r: Id, i: Id, g: Id, tokens: int)
    requires Matches(d, r, i, g) && tokens >= d.records[r].numTokens
    ensures Apply(d, Update(r, i, g, tokens))
         == d.(records := d.records[
              r := d.records[r].(numTokens := tokens, prefillCompleted := d.records[r].prefillCompleted)])
  {
    if tokens == d.records[r].numTokens {
      assert d.records[r := d.records[r]] == d.records;
    }
  }

  lemma PrefillDoneIsChange(s: Store, r: Id, i: Id, g: Id)
    requires HeldBy(s, r, i)
    ensures PrefillDoneIn(s, r, i, g)
         == if Names(Abs(s), r, i, g) then Changed(s, r, s.Records()[r].numTokens, true) else s
  {
    if Names(Abs(s), r, i, g) {
      var v := s.views[i];
      assert v.(numTokens := v.numTokens + (s.Records()[r].numTokens - s.Records()[r].numTokens)) == v;
      assert s.views[i := v] == s.views;
    }
  }

  lemma PrefillDoneRefines(s: Store, r: Id, i: Id, g: Id)
    requires s.Valid()
    ensures HeldBy(s, r, i)
    ensures PrefillDoneIn(s, r, i, g).Valid() && Abs(PrefillDoneIn(s, r, i, g)) == Apply(Abs(s), PrefillDone(r, i, g))
  {
    ValidHolds(s, r, i);
    PrefillDoneIsChange(s, r, i, g);
    if Names(Abs(s), r, i, g) {
      ChangeKeepsValid(s, r, s.Records()[r].numTokens, true);
      ChangedAbs(s, r, s.Records()[r].numTokens, true);
    }
  }

  lemma ReleaseIsRemove(s: Store, r: Id, i: Id, g: Id)
    requires HeldBy(s, r, i) && Matches(Abs(s), r, i, g)
    ensures ReleaseIn(s, r, i, g) == Removed(s, r)
  {
  }

  lemma RemovedAbs(s: Store, r: Id)
    requires r in s.Records() && s.Records()[r].instanceId in s.views && s.Records()[r].gatewayId in s.gateways
    requires Removed(s, r).Records() == s.Records() - {r}
    ensures Abs(Removed(s, r)) == Abs(s).(records := s.Records() - {r})
  {
    SameVersions(s, Removed(s, r));
  }

  /** A release that names the recorded instance and gateway. */
  lemma ReleaseRefines(s: Store, r: Id, i: Id, g: Id)
    requires s.Valid() && Matches(Abs(s), r, i, g)
    ensures HeldBy(s, r, i)
    ensures ReleaseIn(s, r, i, g).Valid() && Abs(ReleaseIn(s, r, i, g)) == Apply(Abs(s), Release(r, i, g))
  {
    ValidHolds(s, r, i);
    ReleaseIsRemove(s, r, i, g);
    RemoveKeepsValid(s, r);
    RemovedAbs(s, r);
  }

  /** The call is turned away before anything is changed. */
  predicate TurnedAway(s: Store, r: Id, i: Id, g: Id) {
    r !in s.requests || i !in s.views || g !in s.gateways
  }

  /** A release keeps the store valid iff it is turned away or names the recorded instance and gateway. */
  lemma ReleaseKeepsValidIff(s: Store, r: Id, i: Id, g: Id)
    requires s.Valid()
    ensures HeldBy(s, r, i)
    ensures ReleaseIn(s, r, i, g).Valid() <==> TurnedAway(s, r, i, g) || Matches(Abs(s), r, i, g)
  {
    ValidHolds(s, r, i);
    if Matches(Abs(s), r, i, g) {
      ReleaseRefines(s, r, i, g);
    } else if !TurnedAway(s, r, i, g) {
      MismatchedReleaseBreaks(s, r, i, g);
    }
  }

  lemma MismatchedReleaseBreaks(s: Store, r: Id, i: Id, g: Id)
    requires s.Valid() && HeldBy(s, r, i) && !TurnedAway(s, r, i, g) && !Matches(Abs(s), r, i, g)
    ensures !ReleaseIn(s, r, i, g).Valid()
  {
    var t := ReleaseIn(s, r, i, g);
    var q := s.Records()[r];
    assert r !in t.Records();
    if q.instanceId != i {
      ValidHolds(s, r, q.instanceId);
      assert r in t.views[q.instanceId].requests;
      if t.Valid() {
        ValidHolds(t, r, q.instanceId);
      }
    } else {
      assert r in s.gateways[q.gatewayId];
      assert r in t.gateways[q.gatewayId];
    }
  }

  lemma OthersRemain(records: Records, i: Id, g: Id)
    ensures records - Loads(records, i).Keys == OnOthers(records, i)
    ensures records - OfGateway(records, g) == OfOthers(records, g)
  {
  }

  lemma VersionsFollow(views: map<Id, InstanceView>, i: Id, v: InstanceView)
    ensures Versions(views - {i}) == Versions(views) - {i}
    ensures Versions(views[i := v]) == Versions(views)[i := v.version]
  {
  }

  lemma RemoveInstanceRefines(s: Store, i: Id)
    requires s.Valid()
    ensures RemoveInstanceIn(s, i).Valid() && Abs(RemoveInstanceIn(s, i)) == Apply(Abs(s), RemoveInstance(i))
  {
    if i in s.views {
      ReclaimKeepsValid(s, i);
      OthersRemain(s.Records(), i, i);
      VersionsFollow(s.views, i, s.views[i]);
      assert Reclaimed(s, i).gateways.Keys == s.gateways.Keys;
    } else {
      NothingToReclaim(s, i);
    }
  }

  lemma NothingToReclaim(s: Store, i: Id)
    requires s.Valid() && i !in s.views
    ensures WithoutInstance(Abs(s), i) == Abs(s)
  {
    assert OnOthers(s.Records(), i) == s.Records();
    assert Versions(s.views) - {i} == Versions(s.views);
  }

  lemma NobodyThere(requests: map<Id, Ref>, records: Records, i: Id)
    requires forall r :: r in records ==> records[r].instanceId != i
    ensures OnInstance(requests, records, i) == map[] && Sum(Loads(records, i)) == 0
  {
    assert Loads(records, i) == map[];
  }

  lemma FreshInstance(s: Store, i: Id, version: int)
    requires s.Valid() && i !in s.views
    ensures s.(views := s.views[i := InstanceView(version, 0, map[])]).Valid()
  {
    NobodyThere(s.requests, s.Records(), i);
    FreshView(s.views, s.requests, s.Records(), i, version);
    assert s.views[i := InstanceView(version, 0, map[])].Keys == s.views.Keys + {i};
  }

  lemma FreshView(views: map<Id, InstanceView>, requests: map<Id, Ref>, records: Records, i: Id, version: int)
    requires ViewsOk(views, requests, records)
    requires OnInstance(requests, records, i) == map[] && Sum(Loads(records, i)) == 0
    ensures ViewsOk(views[i := InstanceView(version, 0, map[])], requests, records)
  {
  }

  lemma AddInstanceRefines(s: Store, i: Id, version: int)
    requires s.Valid()
    ensures AddInstanceIn(s, i, version).Valid()
    ensures Abs(AddInstanceIn(s, i, version)) == Apply(Abs(s), AddInstance(i, version))
  {
    RemoveInstanceRefines(s, i);
    var t := RemoveInstanceIn(s, i);
    if !(i in s.views && version <= s.views[i].version) {
      FreshInstance(t, i, version);
      AddedAbs(s, t, i, version);
    }
  }

  lemma AddedAbs(s: Store, t: Store, i: Id, version: int)
    requires Abs(t) == WithoutInstance(Abs(s), i) && !(i in s.views && version <= s.views[i].version)
    ensures Abs(t.(views := t.views[i := InstanceView(version, 0, map[])])) == Apply(Abs(s), AddInstance(i, version))
  {
    VersionsFollow(t.views, i, InstanceView(version, 0, map[]));
    assert (Versions(s.views) - {i})[i := version] == Versions(s.views)[i := version];
  }

  lemma AddGatewayRefines(s: Store, g: Id)
    requires s.Valid() && g !in s.gateways
    ensures var t := s.(gateways := s.gateways[g := {}]); t.Valid() && Abs(t) == Apply(Abs(s), AddGateway(g))
  {
  }

  /** The store as if a gateway were responsible for these requests only. */
  function Mask(s: Store, g: Id, ids: set<Id>): Store {
    s.(gateways := s.gateways[g := ids])
  }

  lemma DropStep(s: Store, g: Id, ids: set<Id>, r: Id)
    requires Mask(s, g, ids).Valid() && r in ids
    ensures Closed(s) && Dropped(s, DropIn(s, r), g, {r}) && Mask(DropIn(s, r), g, ids - {r}).Valid()
  {
    var m := Mask(s, g, ids);
    InGateway(m, g, r);
    RemoveKeepsValid(m, r);
    DropIsRemove(s, g, ids, r);
  }

  lemma InGateway(s: Store, g: Id, r: Id)
    requires s.Valid() && g in s.gateways && r in s.gateways[g]
    ensures Closed(s) && r in s.requests && r in s.Records() && s.Records()[r].gatewayId == g
    ensures s.Records()[r].instanceId in s.views && HeldBy(s, r, s.Records()[r].instanceId)
  {
    ValidIsClosed(s);
    assert r in OfGateway(s.Records(), g);
    ValidHolds(s, r, s.Records()[r].instanceId);
  }

  /** From one store to the other only these requests went away. */
  ghost predicate Dropped(s: Store, t: Store, g: Id, ids: set<Id>) {
    t.gateways == s.gateways && t.Records() == s.Records() - ids && Versions(t.views) == Versions(s.views)
  }

  lemma DroppedTwice(s: Store, t: Store, u: Store, g: Id, a: set<Id>, b: set<Id>)
    requires Dropped(s, t, g, a) && Dropped(t, u, g, b)
    ensures Dropped(s, u, g, a + b)
  {
    assert s.Records() - a - b == s.Records() - (a + b);
  }

  lemma DropIsRemove(s: Store, g: Id, ids: set<Id>, r: Id)
    requires Closed(s) && r in s.requests && r in s.Records() && s.Records()[r].instanceId in s.views
    requires s.Records()[r].gatewayId == g
    requires HeldBy(Mask(s, g, ids), r, s.Records()[r].instanceId)
    requires Removed(Mask(s, g, ids), r).Records() == s.Records() - {r}
    ensures Mask(DropIn(s, r), g, ids - {r}) == Removed(Mask(s, g, ids), r)
    ensures Dropped(s, DropIn(s, r), g, {r})
  {
    var t := DropIn(s, r);
    assert Mask(t, g, ids - {r}) == Removed(Mask(s, g, ids), r);
    assert Versions(t.views) == Versions(s.views);
  }

  function Members(order: seq<Id>): set<Id> {
    set r | r in order
  }

  lemma MembersStep(order: seq<Id>)
    requires order != [] && Distinct(order)
    ensures order[0] in Members(order) && Members(order) - {order[0]} == Members(order[1..]) && Distinct(order[1..])
    ensures {order[0]} + Members(order[1..]) == Members(order)
  {
  }

  lemma {:induction false} DropAllKeeps(s: Store, g: Id, order: seq<Id>)
    requires Mask(s, g, Members(order)).Valid() && Distinct(order)
    ensures Closed(s) && Mask(DropAll(s, order), g, {}).Valid() && Dropped(s, DropAll(s, order), g, Members(order))
    decreases |order|
  {
    if order == [] {
      NothingDropped(s, g);
    } else {
      var r := order[0];
      MembersStep(order);
      DropStep(s, g, Members(order), r);
      DropKeepsClosed(s, r);
      DropAllKeeps(DropIn(s, r), g, order[1..]);
      DroppedTwice(s, DropIn(s, r), DropAll(s, order), g, {r}, Members(order[1..]));
    }
  }

  lemma NothingDropped(s: Store, g: Id)
    requires Mask(s, g, Members([])).Valid()
    ensures Closed(s) && Members([]) == {} && Dropped(s, s, g, {})
  {
    ValidIsClosed(Mask(s, g, Members([])));
    assert s.Records() - {} == s.Records();
  }

  function GatewayGone(s: Store, g: Id): Store {
    s.(gateways := s.gateways - {g})
  }

  lemma GoneKeepsValid(s: Store, g: Id)
    requires Mask(s, g, {}).Valid()
    ensures GatewayGone(s, g).Valid()
  {
    assert OfGateway(s.Records(), g) == {};
    forall r | r in s.Records()
      ensures s.Records()[r].gatewayId != g
    {
      assert r !in OfGateway(s.Records(), g);
    }
  }

  /** Removing a gateway reclaims exactly its requests, in whatever order its set is walked. */
  lemma RemoveGatewayRefines(s: Store, g: Id, order: seq<Id>)
    requires s.Valid() && g in s.gateways && Distinct(order) && Members(order) == s.gateways[g]
    ensures Closed(s) && GatewayGone(DropAll(s, order), g).Valid()
    ensures Abs(GatewayGone(DropAll(s, order), g)) == Apply(Abs(s), RemoveGateway(g))
  {
    assert Mask(s, g, Members(order)) == s;
    DropAllKeeps(s, g, order);
    GoneKeepsValid(DropAll(s, order), g);
    OthersRemain(s.Records(), g, g);
  }

  // ---------------------------------------------------------------- whole runs

  /** An operation together with the address of the new object and the order in which a gateway's set is walked. */
  datatype Step = Step(op: Op, ref: Ref, order: seq<Id>)

  /** What callers keep to: new objects, non-negative counts, releases that name what was recorded. */
  ghost predicate Proper(s: Store, step: Step) {
    match step.op
    case Allocate(state) => state.numTokens >= 0 && step.ref !in s.requests.Values
    case Release(r, i, g) => TurnedAway(s, r, i, g) || Matches(Abs(s), r, i, g)
    case RemoveGateway(g) => g in s.gateways ==> Distinct(step.order) && Members(step.order) == s.gateways[g]
    case _ => true
  }

  ghost function Next(s: Store, step: Step): Store
    requires s.Valid()
  {
    ValidIsClosed(s);
    match step.op
    case Allocate(state) => AllocateIn(s, step.ref, state)
    case Update(r, i, g, tokens) => UpdateIn(s, r, i, g, tokens)
    case PrefillDone(r, i, g) => PrefillDoneIn(s, r, i, g)
    case Release(r, i, g) => ReleaseIn(s, r, i, g)
    case AddInstance(i, version) => AddInstanceIn(s, i, version)
    case RemoveInstance(i) => RemoveInstanceIn(s, i)
    case AddGateway(g) => if g in s.gateways then s else s.(gateways := s.gateways[g := {}])
    case RemoveGateway(g) => if g in s.gateways then GatewayGone(DropAll(s, step.order), g) else s
  }

  lemma TurnedAwayChangesNothing(s: Store, r: Id, i: Id, g: Id)
    requires s.Valid() && TurnedAway(s, r, i, g)
    ensures Apply(Abs(s), Release(r, i, g)) == Abs(s)
  {
    ValidHolds(s, r, i);
  }

  lemma NoSuchGateway(s: Store, g: Id)
    requires s.Valid() && g !in s.gateways
    ensures Apply(Abs(s), RemoveGateway(g)) == Abs(s)
  {
    assert OfOthers(s.Records(), g) == s.Records();
    assert s.gateways.Keys - {g} == s.gateways.Keys;
  }

  /** Every step keeps the indexes in agreement and the totals exact, and does what the directory says. */
  lemma NextRefines(s: Store, step: Step)
    requires s.Valid() && Proper(s, step)
    ensures Next(s, step).Valid() && Abs(Next(s, step)) == Apply(Abs(s), step.op)
  {
    match step.op
    case Allocate(state) => AllocateRefines(s, step.ref, state);
    case Update(r, i, g, tokens) => UpdateRefines(s, r, i, g, tokens);
    case PrefillDone(r, i, g) => PrefillDoneRefines(s, r, i, g);
    case Release(r, i, g) =>
      if Matches(Abs(s), r, i, g) { ReleaseRefines(s, r, i, g); } else { TurnedAwayChangesNothing(s, r, i, g); }
    case AddInstance(i, version) => AddInstanceRefines(s, i, version);
    case RemoveInstance(i) => RemoveInstanceRefines(s, i);
    case AddGateway(g) =>
      if g in s.gateways { assert s.gateways.Keys + {g} == s.gateways.Keys; } else { AddGatewayRefines(s, g); }
    case RemoveGateway(g) =>
      if g in s.gateways { RemoveGatewayRefines(s, g, step.order); } else { NoSuchGateway(s, g); }
  }

  /** A run of proper steps leads from one store to the other. */
  ghost predicate Runs(s: Store, steps: seq<Step>, t: Store)
    decreases |steps|
  {
    if steps == [] then s == t
    else s.Valid() && Proper(s, steps[0]) && Runs(Next(s, steps[0]), steps[1..], t)
  }

  function ApplyAll(d: Directory, steps: seq<Step>): Directory
    decreases |steps|
  {
    if steps == [] then d else ApplyAll(Apply(d, steps[0].op), steps[1..])
  }

  /** Over any run the store refines the directory, so indexes agree and totals are sums in every reachable state. */
  lemma {:induction false} RunRefines(s: Store, steps: seq<Step>, t: Store)
    requires s.Valid() && Runs(s, steps, t)
    ensures t.Valid() && Abs(t) == ApplyAll(Abs(s), steps)
    decreases |steps|
  {
    if steps == [] {
    } else {
      NextRefines(s, steps[0]);
      RunRefines(Next(s, steps[0]), steps[1..], t);
    }
  }

  /** A valid store shows the sum over live requests as the total of every instance, and it is not negative. */
  lemma TotalsAreSums(s: Store, i: Id)
    requires s.Valid() && i in s.views
    ensures s.views[i].numTokens == Total(Abs(s), i) >= 0
  {
    SumNonNegative(Loads(s.Records(), i));
  }

  /** A request is recorded iff exactly one instance map holds it, as the same object, and exactly one gateway set. */
  lemma ExactlyOneOfEach(s: Store, r: Id)
    requires s.Valid()
    ensures r in s.requests ==>
              exists i, g ::
                && i in s.views && r in s.views[i].requests && s.views[i].requests[r] == s.requests[r]
                && g in s.gateways && r in s.gateways[g]
                && (forall j :: j in s.views && r in s.views[j].requests ==> j == i)
                && (forall h :: h in s.gateways && r in s.gateways[h] ==> h == g)
    ensures r !in s.requests ==>
              (forall i :: i in s.views ==> r !in s.views[i].requests)
              && forall g :: g in s.gateways ==> r !in s.gateways[g]
  {
    ValidIsClosed(s);
    if r in s.requests {
      var i, g := s.Records()[r].instanceId, s.Records()[r].gatewayId;
      assert r in s.views[i].requests && r in s.gateways[g];
    }
  }

  // ---------------------------------------------------------------- failover

  predicate Concerns(op: Op, r: Id) {
    match op
    case Update(q, _, _, _) => q == r
    case PrefillDone(q, _, _) => q == r
    case Release(q, _, _) => q == r
    case _ => false
  }

  predicate Reallocates(op: Op, r: Id) {
    op.Allocate? && op.state.reqId == r
  }

  function WithoutMessages(steps: seq<Step>, r: Id): seq<Step>
    decreases |steps|
  {
    if steps == [] then []
    else (if Concerns(steps[0].op, r) then [] else [steps[0]]) + WithoutMessages(steps[1..], r)
  }

  /**
   Messages about a reclaimed request change nothing until the id is allocated again: the run is the run
   without them.
   */
  lemma {:induction false} LateMessagesAreIgnored(d: Directory, steps: seq<Step>, r: Id)
    requires r !in d.records && forall k :: 0 <= k < |steps| ==> !Reallocates(steps[k].op, r)
    ensures r !in ApplyAll(d, steps).records && ApplyAll(d, steps) == ApplyAll(d, WithoutMessages(steps, r))
    decreases |steps|
  {
    if steps == [] {
    } else {
      var next := Apply(d, steps[0].op);
      StaysGone(d, steps[0].op, r);
      LateMessagesAreIgnored(next, steps[1..], r);
      if Concerns(steps[0].op, r) {
        assert [] + WithoutMessages(steps[1..], r) == WithoutMessages(steps[1..], r);
      } else {
        assert ([steps[0]] + WithoutMessages(steps[1..], r))[1..] == WithoutMessages(steps[1..], r);
      }
    }
  }

  lemma StaysGone(d: Directory, op: Op, r: Id)
    requires r !in d.records && !Reallocates(op, r)
    ensures r !in Apply(d, op).records && (Concerns(op, r) ==> Apply(d, op) == d)
  {
  }

  /** After a failover the totals are the sums over the requests that survive it. */
  lemma FailoverTotals(d: Directory, gone: Id, version: int, i: Id)
    ensures Total(Apply(d, RemoveInstance(gone)), i) == if i == gone then 0 else Total(d, i)
    ensures gone in d.versions && version > d.versions[gone] ==>
              Total(Apply(d, AddInstance(gone, version)), i) == if i == gone then 0 else Total(d, i)
    ensures Total(Apply(d, RemoveGateway(gone)), i) == Sum(Loads(d.records - OfGateway(d.records, gone), i))
  {
    OthersRemain(d.records, gone, gone);
    assert Loads(OnOthers(d.records, gone), i) == if i == gone then map[] else Loads(d.records, i);
  }

  /**
   On the store: after a run without a new allocation of a reclaimed id, the totals are as if nobody had
   mentioned it.
   */
  lemma LateMessagesLeaveTotals(s: Store, steps: seq<Step>, t: Store, r: Id)
    requires s.Valid() && Runs(s, steps, t) && r !in s.requests
    requires forall k :: 0 <= k < |steps| ==> !Reallocates(steps[k].op, r)
    ensures t.Valid() && r !in t.requests && Abs(t) == ApplyAll(Abs(s), WithoutMessages(steps, r))
    ensures forall i :: i in t.views ==> t.views[i].numTokens == Total(ApplyAll(Abs(s), WithoutMessages(steps, r)), i)
  {
    RunRefines(s, steps, t);
    LateMessagesAreIgnored(Abs(s), steps, r);
    forall i | i in t.views
      ensures t.views[i].numTokens == Total(Abs(t), i)
    {
      TotalsAreSums(t, i);
    }
  }

  /** What the store shows before and after a step, as totals of its directory. */
  lemma ShownTotals(s: Store, step: Step, i: Id)
    requires s.Valid() && Proper(s, step) && i in s.views && i in Next(s, step).views
    ensures s.views[i].numTokens == Total(Abs(s), i)
    ensures Next(s, step).views[i].numTokens == Total(Apply(Abs(s), step.op), i)
    ensures i in Apply(Abs(s), step.op).versions
  {
    NextRefines(s, step);
    TotalsAreSums(s, i);
    TotalsAreSums(Next(s, step), i);
    assert i in Abs(Next(s, step)).versions;
  }

  /** On the store: removing an instance, or replacing it by a newer version, leaves the totals of the others. */
  lemma InstanceFailoverLeavesTotals(s: Store, step: Step, i: Id)
    requires s.Valid() && Proper(s, step) && i in s.views && i in Next(s, step).views
    requires step.op.RemoveInstance? || step.op.AddInstance?
    ensures step.op.RemoveInstance? ==>
              i != step.op.instanceId && Next(s, step).views[i].numTokens == s.views[i].numTokens
    ensures step.op.AddInstance? && step.op.instanceId in Abs(s).versions
            && step.op.version > Abs(s).versions[step.op.instanceId] ==>
              Next(s, step).views[i].numTokens == if i == step.op.instanceId then 0 else s.views[i].numTokens
  {
    ShownTotals(s, step, i);
    if step.op.RemoveInstance? {
      FailoverTotals(Abs(s), step.op.instanceId, 0, i);
      InstanceIsGone(Abs(s), step.op.instanceId);
    } else {
      FailoverTotals(Abs(s), step.op.instanceId, step.op.version, i);
    }
  }

  /** On the store: removing a gateway takes exactly its requests out of every total. */
  lemma GatewayFailoverLeavesTotals(s: Store, step: Step, i: Id)
    requires s.Valid() && Proper(s, step) && step.op.RemoveGateway? && i in s.views && i in Next(s, step).views
    ensures Next(s, step).views[i].numTokens
            == Sum(Loads(s.Records() - OfGateway(s.Records(), step.op.gatewayId), i))
  {
    ShownTotals(s, step, i);
    FailoverTotals(Abs(s), step.op.gatewayId, 0, i);
  }

  lemma InstanceIsGone(d: Directory, gone: Id)
    ensures gone !in Apply(d, RemoveInstance(gone)).versions
  {
  }

  // ---------------------------------------------------------------- the object

  class LocalRealtimeState {
    /** The request objects, by address; the indexes hold addresses. */
    var states: map<Ref, RequestState>
    var requests: map<Id, Ref>
    var views: map<Id, InstanceView>
    var gateways: map<Id, set<Id>>

    function View(): Store
      reads this
    {
      Store(states, requests, views, gateways)
    }

    constructor ()
      ensures View().Valid() && Abs(View()) == Directory(map[], map[], {})
    {
      states, requests, views, gateways := map[], map[], map[], map[];
    }

    method AddGateway(gatewayId: Id)
      modifies this
      ensures View() == if gatewayId in old(gateways) then old(View())
                        else old(View()).(gateways := old(gateways)[gatewayId := {}])
    {
      if gatewayId !in gateways {
        gateways := gateways[gatewayId := {}];
      }
    }

    method AllocateRequest(ref: Ref, state: RequestState) returns (outcome: Outcome)
      modifies this
      ensures outcome == AllocateOutcome(old(View()), state) && View() == AllocateIn(old(View()), ref, state)
    {
      if state.reqId in requests {
        return RequestExists;
      }
      if views == map[] {
        return EndpointNotFound;
      }
      if state.instanceId !in views {
        return EndpointNotFound;
      }
      if state.gatewayId !in gateways {
        return GatewayNotFound;
      }
      states := states[ref := state];
      requests := requests[state.reqId := ref];
      gateways := gateways[state.gatewayId := gateways[state.gatewayId] + {state.reqId}];
      var view := views[state.instanceId];
      view := view.(requests := view.requests[state.reqId := ref]);
      view := view.(numTokens := view.numTokens + state.numTokens);
      views := views[state.instanceId := view];
      return Ok;
    }

    method UpdateRequest(reqId: Id, instanceId: Id, gatewayId: Id, tokens: int) returns (outcome: Outcome)
      requires Closed(View())
      modifies this
      ensures outcome == UpdateOutcome(old(View()), reqId, instanceId, gatewayId)
      ensures View() == UpdateIn(old(View()), reqId, instanceId, gatewayId, tokens)
    {
      if reqId !in requests {
        return RequestNotExists;
      }
      if instanceId !in views {
        return EndpointNotFound;
      }
      if gatewayId !in gateways {
        return GatewayNotFound;
      }
      var view := views[instanceId];
      if reqId !in view.requests {
        return RequestNotExists;
      }
      var inner := view.requests[reqId];
      if gatewayId != states[inner].gatewayId {
        return GatewayChanged;
      }
      var added := tokens - states[inner].numTokens;
      if added >= 0 {
        states := states[inner := states[inner].(numTokens := tokens)];
        views := views[instanceId := view.(numTokens := view.numTokens + added)];
      }
      return Ok;
    }

    method MarkPrefillComplete(reqId: Id, instanceId: Id, gatewayId: Id) returns (outcome: Outcome)
      requires Closed(View())
      modifies this
      ensures View() == PrefillDoneIn(old(View()), reqId, instanceId, gatewayId)
      ensures outcome == if reqId !in old(requests) || instanceId !in old(views) then RequestNotExists
                         else if gatewayId !in old(gateways) then GatewayNotFound else Ok
    {
      if reqId !in requests || instanceId !in views {
        return RequestNotExists;
      }
      if gatewayId !in gateways {
        return GatewayNotFound;
      }
      var view := views[instanceId];
      if reqId in view.requests {
        var inner := view.requests[reqId];
        states := states[inner := states[inner].(prefillCompleted := true)];
      }
      return Ok;
    }

    /** Takes a request and its tokens off one instance. */
    method ForgetRequest(instanceId: Id, reqId: Id)
      requires instanceId in views && Closed(View())
      modifies `views
      ensures views == old(views)[instanceId := ForgetIn(old(views)[instanceId], states, reqId)]
    {
      var view := views[instanceId];
      if reqId in view.requests {
        var tokens := states[view.requests[reqId]].numTokens;
        view := view.(numTokens := if view.numTokens < tokens then 0 else view.numTokens - tokens);
        view := view.(requests := view.requests - {reqId});
      }
      views := views[instanceId := view];
    }

    method ReleaseRequest(reqId: Id, instanceId: Id, gatewayId: Id)
      requires Closed(View())
      modifies this
      ensures View() == ReleaseIn(old(View()), reqId, instanceId, gatewayId)
    {
      if reqId !in requests || instanceId !in views || gatewayId !in gateways {
        return;
      }
      ForgetRequest(instanceId, reqId);
      requests := requests - {reqId};
      gateways := gateways[gatewayId := gateways[gatewayId] - {reqId}];
    }

    method RemoveInstance(instanceId: Id)
      modifies this
      ensures View() == RemoveInstanceIn(old(View()), instanceId)
    {
      if instanceId !in views {
        return;
      }
      var todo := views[instanceId].requests.Keys;
      ghost var all, done := todo, {};
      StripNothing(gateways);
      while todo != {}
        invariant done !! todo && done + todo == all && states == old(states) && views == old(views)
        invariant requests == old(requests) - done && gateways == Strip(old(gateways), done)
        decreases todo
      {
        var r :| r in todo;
        StripMore(old(gateways), done, r);
        gateways := map g | g in gateways :: gateways[g] - {r};
        requests := requests - {r};
        todo, done := todo - {r}, done + {r};
      }
      views := views - {instanceId};
    }

    method AddInstance(instanceId: Id, version: int)
      modifies this
      ensures View() == AddInstanceIn(old(View()), instanceId, version)
    {
      if instanceId in views {
        if version > views[instanceId].version {
          RemoveInstance(instanceId);
        } else {
          return;
        }
      }
      views := views[instanceId := InstanceView(version, 0, map[])];
    }

    method DropRequest(reqId: Id)
      requires Closed(View())
      modifies `requests, `views
      ensures View() == DropIn(old(View()), reqId)
    {
      if reqId in requests {
        var instanceId := states[requests[reqId]].instanceId;
        if instanceId in views {
          ForgetRequest(instanceId, reqId);
        }
        requests := requests - {reqId};
      }
    }

    /** Reclaims a gateway's requests one by one; `order` records the order of the walk. */
    method RemoveGateway(gatewayId: Id) returns (ghost order: seq<Id>)
      requires Closed(View())
      modifies this
      ensures gatewayId !in old(gateways) ==> View() == old(View())
      ensures gatewayId in old(gateways) ==>
                && Distinct(order) && Members(order) == old(gateways)[gatewayId]
                && View() == GatewayGone(DropAll(old(View()), order), gatewayId)
    {
      order := [];
      if gatewayId !in gateways {
        return;
      }
      var todo := gateways[gatewayId];
      ghost var all := todo;
      while todo != {}
        invariant Walked(order, all, todo)
        invariant Closed(View()) && View() == DropAll(old(View()), order)
        decreases |todo|
      {
        var r :| r in todo;
        DropAllStep(old(View()), order, r);
        DropRequest(r);
        WalkOn(order, all, todo, r);
        order := order + [r];
        todo := todo - {r};
      }
      gateways := gateways - {gatewayId};
    }
  }

  lemma StripNothing(gateways: map<Id, set<Id>>)
    ensures Strip(gateways, {}) == gateways
  {
    assert forall g :: g in gateways ==> gateways[g] - {} == gateways[g];
  }

  lemma StripMore(gateways: map<Id, set<Id>>, gone: set<Id>, r: Id)
    ensures Strip(Strip(gateways, gone), {r}) == Strip(gateways, gone + {r})
  {
    assert forall g :: g in gateways ==> gateways[g] - gone - {r} == gateways[g] - (gone + {r});
  }

  /** The walk has visited what is no longer to do, each once. */
  ghost predicate Walked(order: seq<Id>, all: set<Id>, todo: set<Id>) {
    todo <= all && Distinct(order) && Members(order) == all - todo
  }

  lemma WalkOn(order: seq<Id>, all: set<Id>, todo: set<Id>, r: Id)
    requires Walked(order, all, todo) && r in todo
    ensures Walked(order + [r], all, todo - {r})
  {
    assert r !in order by {
      assert r !in Members(order);
    }
    assert Members(order + [r]) == Members(order) + {r};
  }

  lemma {:induction false} DropAllStep(s: Store, order: seq<Id>, r: Id)
    requires Closed(s)
    ensures Closed(DropAll(s, order)) && Closed(DropAll(s, order + [r]))
    ensures DropAll(s, order + [r]) == DropIn(DropAll(s, order), r)
    decreases |order|
  {
    if order == [] {
      DropKeepsClosed(s, r);
      assert ([r])[1..] == [];
    } else {
      DropKeepsClosed(s, order[0]);
      DropAllStep(DropIn(s, order[0]), order[1..], r);
      assert (order + [r])[1..] == order[1..] + [r];
    }
  }
}
