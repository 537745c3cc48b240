/**
 The scheduler's record of request states: one global map, one map per instance and one set per gateway,
 all about the same mutable request objects, with a running token total per instance.
 */
module RealtimeState {

  type Id(==, !new)

  // ---------------------------------------------------------------- token sums

  ghost function Sum(loads: map<Id, int>): int {
    if loads == map[] then 0
    else
      var r :| r in loads;
      loads[r] + Sum(loads - {r})
  }

  lemma {:induction false} SumWithout(loads: map<Id, int>, r: Id)
    requires r in loads
    ensures Sum(loads) == loads[r] + Sum(loads - {r})
    decreases |loads|
  {
    var first :| first in loads && Sum(loads) == loads[first] + Sum(loads - {first});
    if first != r {
      SumWithout(loads - {first}, r);
      SumWithout(loads - {r}, first);
      assert loads - {first} - {r} == loads - {r} - {first};
    }
  }

  lemma SumUpdate(loads: map<Id, int>, r: Id, n: int)
    ensures Sum(loads[r := n]) == Sum(loads) + n - if r in loads then loads[r] else 0
  {
    SumWithout(loads[r := n], r);
    assert loads[r := n] - {r} == loads - {r};
    if r in loads {
      SumWithout(loads, r);
    } else {
      assert loads - {r} == loads;
    }
  }

  lemma {:induction false} SumNonNegative(loads: map<Id, int>)
    requires forall r :: r in loads ==> loads[r] >= 0
    ensures Sum(loads) >= 0
    decreases |loads|
  {
    if loads != map[] {
      var r :| r in loads && Sum(loads) == loads[r] + Sum(loads - {r});
      SumNonNegative(loads - {r});
    }
  }

  // ---------------------------------------------------------------- data

  /** The address of a request object; the object it stands for is found in `states`. */
  type Ref(==, !new)

  datatype RequestState = RequestState(reqId: Id, instanceId: Id, gatewayId: Id, numTokens: int, prefillCompleted: bool)

  datatype InstanceView = InstanceView(version: int, numTokens: int, requests: map<Id, Ref>)

  datatype Outcome = Ok | RequestExists | RequestNotExists | EndpointNotFound | GatewayNotFound | GatewayChanged

  /** What is known about every live request. */
  type Records = map<Id, RequestState>

  function Loads(records: Records, i: Id): map<Id, int> {
    map r | r in records && records[r].instanceId == i :: records[r].numTokens
  }

  function OnInstance(requests: map<Id, Ref>, records: Records, i: Id): map<Id, Ref> {
    map r | r in requests && r in records && records[r].instanceId == i :: requests[r]
  }

  function OfGateway(records: Records, g: Id): set<Id> {
    set r | r in records && records[r].gatewayId == g
  }

  ghost predicate RecordsOk(records: Records, instances: set<Id>, gateways: set<Id>) {
    forall r :: r in records ==>
      records[r].reqId == r && records[r].numTokens >= 0
      && records[r].instanceId in instances && records[r].gatewayId in gateways
  }

  /** The instance maps and totals are those of the records. */
  ghost predicate ViewsOk(views: map<Id, InstanceView>, requests: map<Id, Ref>, records: Records) {
    forall i :: i in views ==>
      views[i].requests == OnInstance(requests, records, i) && views[i].numTokens == Sum(Loads(records, i))
  }

  ghost predicate GatewaysOk(gateways: map<Id, set<Id>>, records: Records) {
    forall g :: g in gateways ==> gateways[g] == OfGateway(records, g)
  }

  /** The whole store as a value. */
  datatype Store = Store(states: map<Ref, RequestState>, requests: map<Id, Ref>, views: map<Id, InstanceView>,
                         gateways: map<Id, set<Id>>) {
    function Records(): Records {
      RecordsOf(states, requests)
    }

    /** The three indexes are views of one set of records, and every total is a sum over it. */
    ghost predicate Valid() {
      && RefsOk(states, requests)
      && RecordsOk(Records(), views.Keys, gateways.Keys)
      && GatewaysOk(gateways, Records())
      && ViewsOk(views, requests, Records())
    }
  }

  // ---------------------------------------------------------------- how the views follow the records

  lemma OnInstanceAfterAdd(requests: map<Id, Ref>, records: Records, ref: Ref, state: RequestState, i: Id)
    requires state.reqId !in records && requests.Keys == records.Keys
    ensures OnInstance(requests[state.reqId := ref], records[state.reqId := state], i)
         == if i == state.instanceId then OnInstance(requests, records, i)[state.reqId := ref]
                 else OnInstance(requests, records, i)
    ensures Loads(records[state.reqId := state], i)
         == if i == state.instanceId then Loads(records, i)[state.reqId := state.numTokens] else Loads(records, i)
  {
  }

  function WithRequest(v: InstanceView, r: Id, ref: Ref, tokens: int): InstanceView {
    v.(requests := v.requests[r := ref], numTokens := v.numTokens + tokens)
  }

  lemma ViewsAfterAdd(views: map<Id, InstanceView>, requests: map<Id, Ref>, records: Records, ref: Ref,
                      state: RequestState)
    requires ViewsOk(views, requests, records) && requests.Keys == records.Keys
    requires state.reqId !in records && state.instanceId in views
    ensures ViewsOk(views[state.instanceId := WithRequest(views[state.instanceId], state.reqId, ref, state.numTokens)],
                    requests[state.reqId := ref], records[state.reqId := state])
  {
    var home := state.instanceId;
    var after := views[home := WithRequest(views[home], state.reqId, ref, state.numTokens)];
    forall i | i in after
      ensures after[i].requests == OnInstance(requests[state.reqId := ref], records[state.reqId := state], i)
      ensures after[i].numTokens == Sum(Loads(records[state.reqId := state], i))
    {
      OnInstanceAfterAdd(requests, records, ref, state, i);
      SumUpdate(Loads(records, home), state.reqId, state.numTokens);
    }
  }

  lemma OnInstanceAfterChange(requests: map<Id, Ref>, records: Records, r: Id, tokens: int, prefill: bool, i: Id)
    requires r in records
    ensures var changed := records[r := records[r].(numTokens := tokens, prefillCompleted := prefill)];
            && OnInstance(requests, changed, i) == OnInstance(requests, records, i)
            && Loads(changed, i)
               == if i == records[r].instanceId then Loads(records, i)[r := tokens] else Loads(records, i)
  {
  }

  lemma ViewsAfterChange(views: map<Id, InstanceView>, requests: map<Id, Ref>, records: Records, r: Id, tokens: int,
                         prefill: bool)
    requires ViewsOk(views, requests, records) && r in records && records[r].instanceId in views
    ensures var q := records[r];
            var v := views[q.instanceId];
            ViewsOk(views[q.instanceId := v.(numTokens := v.numTokens + tokens - q.numTokens)], requests,
                    records[r := q.(numTokens := tokens, prefillCompleted := prefill)])
  {
    var q := records[r];
    var v := views[q.instanceId];
    var changed := records[r := q.(numTokens := tokens, prefillCompleted := prefill)];
    var after := views[q.instanceId := v.(numTokens := v.numTokens + tokens - q.numTokens)];
    forall i | i in after
      ensures after[i].requests == OnInstance(requests, changed, i) && after[i].numTokens == Sum(Loads(changed, i))
    {
      OnInstanceAfterChange(requests, records, r, tokens, prefill, i);
      SumUpdate(Loads(records, q.instanceId), r, tokens);
    }
  }

  lemma OnInstanceAfterRemove(requests: map<Id, Ref>, records: Records, r: Id, i: Id)
    requires r in records
    ensures OnInstance(requests - {r}, records - {r}, i)
         == if i == records[r].instanceId then OnInstance(requests, records, i) - {r}
                 else OnInstance(requests, records, i)
    ensures Loads(records - {r}, i) == if i == records[r].instanceId then Loads(records, i) - {r} else Loads(records, i)
  {
  }

  /** Forgetting a request in an instance, with the clamp of the total at zero. */
  function Forget(v: InstanceView, r: Id, tokens: int): InstanceView {
    v.(requests := v.requests - {r}, numTokens := if v.numTokens < tokens then 0 else v.numTokens - tokens)
  }

  /** Removing a record and its entry in the instance that holds it; the total always covers it. */
  lemma ViewsAfterRemove(views: map<Id, InstanceView>, requests: map<Id, Ref>, records: Records, r: Id)
    requires ViewsOk(views, requests, records) && r in records && records[r].instanceId in views
    requires forall q :: q in records ==> records[q].numTokens >= 0
    ensures var q := records[r];
            && views[q.instanceId].numTokens >= q.numTokens
            && ViewsOk(views[q.instanceId := Forget(views[q.instanceId], r, q.numTokens)], requests - {r},
                       records - {r})
  {
    var q := records[r];
    var loads := Loads(records, q.instanceId);
    SumWithout(loads, r);
    SumNonNegative(loads - {r});
    var after := views[q.instanceId := Forget(views[q.instanceId], r, q.numTokens)];
    forall i | i in after
      ensures after[i].requests == OnInstance(requests - {r}, records - {r}, i)
      ensures after[i].numTokens == Sum(Loads(records - {r}, i))
    {
      OnInstanceAfterRemove(requests, records, r, i);
    }
  }

  /** Reclaiming the requests of one instance leaves those of another alone. */
  lemma OnInstanceAfterReclaim(requests: map<Id, Ref>, records: Records, left: set<Id>, gone: Id, i: Id)
    requires left == Loads(records, gone).Keys && i != gone
    ensures OnInstance(requests - left, records - left, i) == OnInstance(requests, records, i)
    ensures Loads(records - left, i) == Loads(records, i)
  {
    assert forall r :: r in records && records[r].instanceId == i ==> r !in left;
  }

  lemma ViewsAfterReclaim(views: map<Id, InstanceView>, requests: map<Id, Ref>, records: Records, gone: Id)
    requires ViewsOk(views, requests, records) && requests.Keys == records.Keys && gone in views
    ensures var left := views[gone].requests.Keys;
            left == Loads(records, gone).Keys && ViewsOk(views - {gone}, requests - left, records - left)
  {
    var left := views[gone].requests.Keys;
    assert left == Loads(records, gone).Keys;
    forall i | i in views - {gone}
      ensures views[i].requests == OnInstance(requests - left, records - left, i)
      ensures views[i].numTokens == Sum(Loads(records - left, i))
    {
      OnInstanceAfterReclaim(requests, records, left, gone, i);
    }
  }

  // ---------------------------------------------------------------- the operations keep the store valid

  predicate MayAllocate(s: Store, state: RequestState) {
    state.reqId !in s.requests && state.instanceId in s.views && state.gatewayId in s.gateways
  }

  function Allocated(s: Store, ref: Ref, state: RequestState): Store
    requires MayAllocate(s, state)
  {
    Store(s.states[ref := state], s.requests[state.reqId := ref],
          s.views[state.instanceId := WithRequest(s.views[state.instanceId], state.reqId, ref, state.numTokens)],
          s.gateways[state.gatewayId := s.gateways[state.gatewayId] + {state.reqId}])
  }

  lemma GatewaysAfterAdd(gateways: map<Id, set<Id>>, records: Records, state: RequestState)
    requires GatewaysOk(gateways, records) && state.reqId !in records && state.gatewayId in gateways
    ensures GatewaysOk(gateways[state.gatewayId := gateways[state.gatewayId] + {state.reqId}],
                       records[state.reqId := state])
  {
  }

  function RecordsOf(states: map<Ref, RequestState>, requests: map<Id, Ref>): Records {
    map r | r in requests && requests[r] in states :: states[requests[r]]
  }

  ghost predicate RefsOk(states: map<Ref, RequestState>, requests: map<Id, Ref>) {
    forall r :: r in requests ==> requests[r] in states && states[requests[r]].reqId == r
  }

  lemma RecordsAfterAdd(states: map<Ref, RequestState>, requests: map<Id, Ref>, ref: Ref, state: RequestState)
    requires RefsOk(states, requests) && ref !in requests.Values && state.reqId !in requests
    ensures RefsOk(states[ref := state], requests[state.reqId := ref])
    ensures RecordsOf(states[ref := state], requests[state.reqId := ref])
            == RecordsOf(states, requests)[state.reqId := state]
  {
    forall r | r in requests
      ensures requests[r] != ref
    {
      assert requests[r] in requests.Values;
    }
  }

  lemma AllocateKeepsValid(s: Store, ref: Ref, state: RequestState)
    requires s.Valid() && MayAllocate(s, state) && ref !in s.requests.Values && state.numTokens >= 0
    ensures Allocated(s, ref, state).Valid() && Allocated(s, ref, state).Records() == s.Records()[state.reqId := state]
  {
    RecordsAfterAdd(s.states, s.requests, ref, state);
    GatewaysAfterAdd(s.gateways, s.Records(), state);
    ViewsAfterAdd(s.views, s.requests, s.Records(), ref, state);
  }

  lemma RecordsAfterChange(states: map<Ref, RequestState>, requests: map<Id, Ref>, r: Id, state: RequestState)
    requires RefsOk(states, requests) && r in requests && state.reqId == r
    ensures RefsOk(states[requests[r] := state], requests)
    ensures RecordsOf(states[requests[r] := state], requests) == RecordsOf(states, requests)[r := state]
  {
    forall q | q in requests && q != r
      ensures requests[q] != requests[r]
    {
      assert states[requests[q]].reqId == q;
    }
  }

  function Changed(s: Store, r: Id, tokens: int, prefill: bool): Store
    requires r in s.Records() && s.Records()[r].instanceId in s.views
  {
    var q := s.Records()[r];
    var v := s.views[q.instanceId];
    s.(states := s.states[s.requests[r] := q.(numTokens := tokens, prefillCompleted := prefill)],
       views := s.views[q.instanceId := v.(numTokens := v.numTokens + (tokens - q.numTokens))])
  }

  lemma ChangeKeepsValid(s: Store, r: Id, tokens: int, prefill: bool)
    requires s.Valid() && r in s.Records() && tokens >= 0
    ensures Changed(s, r, tokens, prefill).Valid()
    ensures Changed(s, r, tokens, prefill).Records()
         == s.Records()[r := s.Records()[r].(numTokens := tokens, prefillCompleted := prefill)]
  {
    var q := s.Records()[r];
    RecordsAfterChange(s.states, s.requests, r, q.(numTokens := tokens, prefillCompleted := prefill));
    ViewsAfterChange(s.views, s.requests, s.Records(), r, tokens, prefill);
    GatewaysAfterChange(s.gateways, s.Records(), r, q.(numTokens := tokens, prefillCompleted := prefill));
  }

  lemma GatewaysAfterChange(gateways: map<Id, set<Id>>, records: Records, r: Id, state: RequestState)
    requires GatewaysOk(gateways, records) && r in records && state.gatewayId == records[r].gatewayId
    ensures GatewaysOk(gateways, records[r := state])
  {
    forall g
      ensures OfGateway(records[r := state], g) == OfGateway(records, g)
    {
    }
  }

  function Removed(s: Store, r: Id): Store
    requires r in s.Records() && s.Records()[r].instanceId in s.views && s.Records()[r].gatewayId in s.gateways
  {
    var q := s.Records()[r];
    s.(requests := s.requests - {r},
       views := s.views[q.instanceId := Forget(s.views[q.instanceId], r, q.numTokens)],
       gateways := s.gateways[q.gatewayId := s.gateways[q.gatewayId] - {r}])
  }

  lemma GatewaysAfterRemove(gateways: map<Id, set<Id>>, records: Records, r: Id)
    requires GatewaysOk(gateways, records) && r in records && records[r].gatewayId in gateways
    ensures GatewaysOk(gateways[records[r].gatewayId := gateways[records[r].gatewayId] - {r}], records - {r})
  {
    forall g
      ensures OfGateway(records - {r}, g) ==
              if g == records[r].gatewayId then OfGateway(records, g) - {r} else OfGateway(records, g)
    {
    }
  }

  lemma RecordsAfterRemove(states: map<Ref, RequestState>, requests: map<Id, Ref>, gone: set<Id>)
    requires RefsOk(states, requests)
    ensures RefsOk(states, requests - gone) && RecordsOf(states, requests - gone) == RecordsOf(states, requests) - gone
  {
  }

  /** Releasing a request under its own instance and gateway keeps everything in step and never needs the clamp. */
  lemma RemoveKeepsValid(s: Store, r: Id)
    requires s.Valid() && r in s.Records()
    ensures Removed(s, r).Valid() && Removed(s, r).Records() == s.Records() - {r}
    ensures s.views[s.Records()[r].instanceId].numTokens >= s.Records()[r].numTokens
  {
    RecordsAfterRemove(s.states, s.requests, {r});
    ViewsAfterRemove(s.views, s.requests, s.Records(), r);
    GatewaysAfterRemove(s.gateways, s.Records(), r);
  }

  /** Takes requests out of every gateway's set. */
  function Strip(gateways: map<Id, set<Id>>, gone: set<Id>): map<Id, set<Id>> {
    map g | g in gateways :: gateways[g] - gone
  }

  function Reclaimed(s: Store, i: Id): Store
    requires i in s.views
  {
    var left := s.views[i].requests.Keys;
    s.(requests := s.requests - left, views := s.views - {i}, gateways := Strip(s.gateways, left))
  }

  lemma GatewaysAfterReclaim(gateways: map<Id, set<Id>>, records: Records, left: set<Id>)
    requires GatewaysOk(gateways, records)
    ensures GatewaysOk(Strip(gateways, left), records - left)
  {
    forall g
      ensures OfGateway(records - left, g) == OfGateway(records, g) - left
    {
    }
  }

  lemma ReclaimKeepsValid(s: Store, i: Id)
    requires s.Valid() && i in s.views
    ensures Reclaimed(s, i).Valid() && Reclaimed(s, i).Records() == s.Records() - Loads(s.Records(), i).Keys
  {
    ViewsAfterReclaim(s.views, s.requests, s.Records(), i);
    RecordsAfterRemove(s.states, s.requests, s.views[i].requests.Keys);
    GatewaysAfterReclaim(s.gateways, s.Records(), s.views[i].requests.Keys);
  }
}
