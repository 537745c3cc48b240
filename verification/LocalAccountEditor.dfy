/**
 The editor that keeps the ledgers of all instances and the reverse index in step. Its methods are tied
 to the ledger functions of `LocalAccount` and to the shifting-slice functions of `RequestIndex`.
 */
module LocalAccountEditor {
  import opened LocalAccount
  import opened Lists
  import opened RequestIndex

  type Index = map<Request, seq<Instance>>

  function Listed(index: Index, r: Request): seq<Instance> {
    if r in index then index[r] else []
  }

  function SetListed(index: Index, r: Request, ids: seq<Instance>): Index {
    if ids == [] then index - {r} else index[r := ids]
  }

  /** Which requests each instance has an account for. */
  type Holders = map<Instance, set<Request>>

  /** Every entry lists, without repeats, exactly the instances that hold the request. */
  ghost predicate IndexExact(index: Index, holders: Holders) {
    && (forall r :: Distinct(Listed(index, r)))
    && (forall r, i :: i in holders ==> (i in Listed(index, r) <==> r in holders[i]))
  }

  lemma ListedAfterSet(index: Index, r: Request, ids: seq<Instance>)
    ensures Listed(SetListed(index, r, ids), r) == ids
    ensures forall q :: q != r ==> Listed(SetListed(index, r, ids), q) == Listed(index, q)
  {
  }

  lemma AppendKeepsIndex(index: Index, holders: Holders, r: Request, id: Instance)
    requires IndexExact(index, holders) && id in holders && r !in holders[id]
    ensures IndexExact(SetListed(index, r, Listed(index, r) + [id]), holders[id := holders[id] + {r}])
  {
    var ids := Listed(index, r) + [id];
    assert id !in Listed(index, r) && Distinct(Listed(index, r));
    assert Distinct(ids);
    ListedAfterSet(index, r, ids);
  }

  lemma RemoveKeepsIndex(index: Index, holders: Holders, r: Request, id: Instance)
    requires IndexExact(index, holders) && id in holders
    ensures IndexExact(SetListed(index, r, Without(Listed(index, r), id)), holders[id := holders[id] - {r}])
  {
    WithoutMembers(Listed(index, r), id);
    ListedAfterSet(index, r, Without(Listed(index, r), id));
  }

  /** A revert forgets the whole entry, so the index stays exact iff nobody else holds the request. */
  lemma RevertKeepsIndexIff(index: Index, holders: Holders, r: Request, id: Instance)
    requires IndexExact(index, holders) && id in holders
    ensures IndexExact(SetListed(index, r, []), holders[id := holders[id] - {r}])
       <==> forall i :: i in holders && i != id ==> r !in holders[i]
  {
    var after := holders[id := holders[id] - {r}];
    ListedAfterSet(index, r, []);
    if IndexExact(SetListed(index, r, []), after) {
      forall i | i in holders && i != id
        ensures r !in holders[i]
      {
        assert i in after && i !in Listed(SetListed(index, r, []), r);
      }
    }
  }

  /** What a release leaves: the entry shrinks to its survivors and only they keep the request. */
  lemma ReleaseKeepsIndex(index: Index, holders: Holders, r: Request)
    requires IndexExact(index, holders)
    ensures var ids := Listed(index, r);
            var left := Survivors(ids);
            var after: Holders := map i | i in holders :: if i in ids && i !in left
                then holders[i] - {r} else holders[i];
            IndexExact(SetListed(index, r, left), after)
  {
    var ids := Listed(index, r);
    assert Distinct(ids);
    SurvivorsWereListed(ids);
    ListedAfterSet(index, r, Survivors(ids));
  }

  lemma SurvivorsWereListed(ids: seq<Instance>)
    requires Distinct(ids)
    ensures Distinct(Survivors(ids)) && forall i :: i in Survivors(ids) ==> i in ids
  {
    if ids != [] {
      OddsAt(ids, (|ids| - 1) / 2);
    }
  }

  // ---------------------------------------------------------------- the objects

  class InstanceView {
    var accounts: map<Request, Account>
    var counters: Counters

    constructor ()
      ensures View() == Ledger(map[], Counters(0, 0, 0, 0, 0)) && Exact(View())
    {
      accounts, counters := map[], Counters(0, 0, 0, 0, 0);
    }

    function View(): Ledger
      reads this
    {
      Ledger(accounts, counters)
    }
  }

  /** The entry of a request in terms of its slice. */
  ghost predicate EntryIs(entries: map<Request, Cells>, r: Request, s: Cells) {
    s.Valid() && (if s.len == 0 then r !in entries else r in entries && entries[r] == s)
  }

  ghost predicate EntriesOk(entries: map<Request, Cells>) {
    forall r :: r in entries ==> entries[r].Valid() && entries[r].len > 0
  }

  function IndexOfEntries(entries: map<Request, Cells>): Index
    requires EntriesOk(entries)
  {
    map r | r in entries :: entries[r].List()
  }

  /** Storing a slice under a request, or forgetting the request when the slice is empty. */
  function Put(entries: map<Request, Cells>, r: Request, slice: Cells): map<Request, Cells> {
    if slice.len == 0 then entries - {r} else entries[r := slice]
  }

  lemma PutKeeps(entries: map<Request, Cells>, r: Request, slice: Cells)
    requires EntriesOk(entries) && slice.Valid()
    ensures EntriesOk(Put(entries, r, slice)) && EntryIs(Put(entries, r, slice), r, slice)
    ensures Put(entries, r, slice) - {r} == entries - {r}
    ensures IndexOfEntries(Put(entries, r, slice)) == SetListed(IndexOfEntries(entries), r, slice.List())
  {
    var after := Put(entries, r, slice);
    assert forall q :: q in after && q != r ==> after[q] == entries[q];
  }

  method ShiftOut(s: Cells, id: Instance) returns (t: Cells)
    requires s.Valid()
    ensures t == Drop(s, id)
  {
    t := s;
    for i := 0 to s.len
      invariant id !in s.cells[..i] && t == s
    {
      if s.cells[i] == id {
        FoundAt(s.List(), i);
        t := Cells(Shifted(s.cells, i, s.len), s.len - 1);
        return;
      }
    }
    DropAbsent(s, id);
  }

  lemma DropAbsent(s: Cells, id: Instance)
    requires s.Valid() && id !in s.List()
    ensures Drop(s, id) == s
  {
    FirstAtMeans(s.List(), id);
  }

  lemma DropLast(s: Cells, id: Instance)
    requires s.Valid() && Drop(s, id).len == 0
    ensures Drop(s, id) == Cells(s.cells, 0)
  {
    if id in s.List() {
      assert FirstAt(s.List(), id) == 0 && s.len == 1;
    }
  }

  class Editor {
    /** One slice per request; no two entries share a backing array. */
    var entries: map<Request, Cells>
    const enableCacheAwareScheduling: bool

    ghost predicate Valid()
      reads this
    {
      EntriesOk(entries)
    }

    ghost function Index(): Index
      requires Valid()
      reads this
    {
      IndexOfEntries(entries)
    }

    constructor (cacheAware: bool)
      ensures Valid() && Index() == map[] && enableCacheAwareScheduling == cacheAware
    {
      entries, enableCacheAwareScheduling := map[], cacheAware;
    }

    function Uncomputed(numTokens: int, prefixHit: int): int {
      if enableCacheAwareScheduling then numTokens - prefixHit else numTokens
    }

    method AppendInstance(r: Request, id: Instance)
      requires Valid()
      modifies this
      ensures Valid() && Index() == SetListed(old(Index()), r, Listed(old(Index()), r) + [id])
    {
      var s := if r in entries then entries[r] else Cells([], 0);
      var cells := s.cells[..s.len] + [id] + if s.len < |s.cells| then s.cells[s.len + 1..] else [];
      entries := entries[r := Cells(cells, s.len + 1)];
      assert cells[..s.len + 1] == s.List() + [id];
    }

    /** Shifts the later cells of the entry down; the new state of the backing array is returned. */
    method RemoveInstance(r: Request, id: Instance) returns (slice: Cells)
      requires Valid()
      modifies this
      ensures Valid() && slice == Drop(if r in old(entries) then old(entries[r]) else Cells([], 0), id)
      ensures EntryIs(entries, r, slice) && entries - {r} == old(entries) - {r}
      ensures Index() == SetListed(old(Index()), r, Without(Listed(old(Index()), r), id))
    {
      var before := if r in entries then entries[r] else Cells([], 0);
      slice := ShiftOut(before, id);
      DropIsWithout(before, id);
      PutKeeps(entries, r, slice);
      entries := if slice.len == 0 then entries - {r} else entries[r := slice];
    }

    /** Takes an account's weight off the counters and, if asked, forgets the account. */
    method DeleteRequest(view: InstanceView, id: Instance, r: Request, deleteRequest: bool)
      requires Valid()
      modifies this, view
      ensures Valid()
      ensures r !in old(view.accounts) ==> view.View() == old(view.View()) && entries == old(entries)
      ensures r in old(view.accounts) && !deleteRequest ==>
                && view.accounts == old(view.accounts) && entries == old(entries)
                && view.counters == SubtractWeight(old(view.counters), view.accounts[r])
      ensures r in old(view.accounts) && deleteRequest ==>
                && view.View() == Release(old(view.View()), r)
                && EntryIs(entries, r, Drop(if r in old(entries) then old(entries[r]) else Cells([], 0), id))
                && entries - {r} == old(entries) - {r}
                && Index() == SetListed(old(Index()), r, Without(Listed(old(Index()), r), id))
    {
      if r !in view.accounts {
        return;
      }
      var a := view.accounts[r];
      if a.inferType == Prefill || a.inferType == Neutral {
        view.counters := view.counters.(prefillRequests := view.counters.prefillRequests - 1,
                                        prefillTokens := view.counters.prefillTokens - a.numUncomputed);
      }
      if a.inferType == Decode || a.inferType == Neutral {
        view.counters := view.counters.(decodeRequests := view.counters.decodeRequests - 1,
                                        decodeTokens := view.counters.decodeTokens - a.numTokens);
      }
      view.counters := view.counters.(requests := view.counters.requests - 1);
      if deleteRequest {
        view.accounts := view.accounts - {r};
        var _ := RemoveInstance(r, id);
      }
    }

    method AddRequest(view: InstanceView, id: Instance, t: InferType, numTokens: int, prefixHit: int, r: Request,
                      now: int)
      requires Valid()
      modifies this, view
      ensures Valid()
      ensures view.View() == Add(old(view.View()), r, t, numTokens, Uncomputed(numTokens, prefixHit), now)
      ensures Index() == if r in old(view.accounts) then old(Index())
                         else SetListed(old(Index()), r, Listed(old(Index()), r) + [id])
    {
      var numUncomputed := Uncomputed(numTokens, prefixHit);
      var firstAdd := true;
      if r in view.accounts {
        var existing := view.accounts[r];
        if existing.inferType == t || existing.inferType == Neutral {
          return;
        }
        firstAdd := false;
      } else {
        view.counters := view.counters.(requests := view.counters.requests + 1);
        view.accounts := view.accounts[r := Account(now, t, numTokens, numUncomputed, false)];
        AppendInstance(r, id);
      }
      if t == Prefill || t == Neutral {
        view.counters := view.counters.(prefillRequests := view.counters.prefillRequests + 1,
                                        prefillTokens := view.counters.prefillTokens + numUncomputed);
      }
      if t == Decode || t == Neutral {
        view.counters := view.counters.(decodeRequests := view.counters.decodeRequests + 1,
                                        decodeTokens := view.counters.decodeTokens + numTokens);
      }
      if !firstAdd {
        view.accounts := view.accounts[r := view.accounts[r].(inferType := Neutral)];
      }
    }

    method RevertRequest(view: InstanceView, numTokens: int, prefixHit: int, r: Request)
      requires Valid()
      modifies this, view
      ensures Valid() && view.View() == Revert(old(view.View()), r, Uncomputed(numTokens, prefixHit))
      ensures Index() == SetListed(old(Index()), r, [])
    {
      view.counters := view.counters.(prefillRequests := view.counters.prefillRequests - 1,
                                      prefillTokens := view.counters.prefillTokens - Uncomputed(numTokens, prefixHit));
      view.accounts := view.accounts - {r};
      entries := entries - {r};
    }

    /** One account seen in a report: settle it when found, forget it when done or stale. */
    method ReconcileRequest(view: InstanceView, id: Instance, r: Request, report: Report)
      requires Valid() && r in view.accounts
      modifies this, view
      ensures Valid() && view.View() == ReconcileOne(old(view.View()), r, report)
      ensures Index() == if Closed(old(view.accounts[r]), r, report)
                         then SetListed(old(Index()), r, Without(Listed(old(Index()), r), id)) else old(Index())
    {
      var a := view.accounts[r];
      var found := a.found;
      if !found && r in report.recentWaiting {
        found := true;
        view.accounts := view.accounts[r := a.(found := true)];
        DeleteRequest(view, id, r, false);
      }
      if found && r !in report.waiting {
        view.accounts := view.accounts - {r};
        var _ := RemoveInstance(r, id);
      }
      if !found && r !in report.waiting && Truncated(report.nowMs - a.scheduledAt, 1000) >= report.stalenessSeconds {
        DeleteRequest(view, id, r, true);
      }
    }

    /** All accounts of an instance against one report, in any order. */
    method Reconcile(view: InstanceView, id: Instance, report: Report)
      requires Valid()
      modifies this, view
      ensures Valid() && view.accounts == Reconciled(old(view.accounts), old(view.accounts).Keys, report)
      ensures SameDrift(old(view.View()), view.View())
      ensures ReconciledIndex(old(view.accounts), old(view.accounts).Keys, report, id, old(Index()), Index())
    {
      ghost var before, index := view.accounts, Index();
      var todo := view.accounts.Keys;
      assert Reconciled(before, {}, report) == before;
      while todo != {}
        invariant Valid() && todo <= before.Keys
        invariant view.accounts == Reconciled(before, before.Keys - todo, report)
        invariant SameDrift(old(view.View()), view.View())
        invariant ReconciledIndex(before, before.Keys - todo, report, id, index, Index())
        decreases |todo|
      {
        var r :| r in todo;
        ReconciledKeeps(before, before.Keys - todo, report, r);
        ghost var l, now := view.View(), Index();
        ReconcileRequest(view, id, r, report);
        ReconciledStep(before, before.Keys - todo, report, r, l);
        ReconciledIndexStep(before, before.Keys - todo, report, id, index, now, r);
        assert before.Keys - (todo - {r}) == before.Keys - todo + {r};
        todo := todo - {r};
      }
    }

    /** One cell of the slice being released: the request is taken off the instance named there. */
    method ReleaseStep(r: Request, views: map<Instance, InstanceView>, slice: Cells, id: Instance) returns (next: Cells)
      requires Valid() && EntryIs(entries, r, slice)
      requires id in views ==> (r in views[id].accounts <==> id in slice.List())
      modifies this, if id in views then {views[id]} else {}
      ensures Valid() && next == Drop(slice, id) && EntryIs(entries, r, next) && entries - {r} == old(entries) - {r}
      ensures id in views ==>
                views[id].View() == if id in slice.List() then Release(old(views[id].View()), r)
                        else old(views[id].View())
    {
      if id !in views {
        var _ := RemoveInstance(r, id);
      } else if r in views[id].accounts {
        DeleteRequest(views[id], id, r, true);
      } else {
        DropAbsent(slice, id);
      }
      if Drop(slice, id).len == 0 {
        DropLast(slice, id);
      }
      next := if r in entries then entries[r] else Cells(slice.cells, 0);
    }

    /** The same step seen on all ledgers at once. */
    method ReleaseCell(r: Request, views: map<Instance, InstanceView>, slice: Cells, id: Instance) returns (next: Cells)
      requires Valid() && EntryIs(entries, r, slice) && Separate(views)
      requires id in views ==> (r in views[id].accounts <==> id in slice.List())
      modifies this, views.Values
      ensures Valid() && next == Drop(slice, id) && EntryIs(entries, r, next) && entries - {r} == old(entries) - {r}
      ensures Snapshot(views)
              == if id in slice.List() then TakeOff(old(Snapshot(views)), r, id) else old(Snapshot(views))
    {
      next := ReleaseStep(r, views, slice, id);
      OneViewChanged(old(Snapshot(views)), Snapshot(views), r, id, id in slice.List());
    }

    /** Cell k of the slice: afterwards index, slice and ledgers agree with the pure release loop one cell further. */
    method ReleaseAt(r: Request, views: map<Instance, InstanceView>, slice: Cells, k: nat,
                     ghost ids: seq<Instance>, ghost released: Cells, ghost before: map<Instance, Ledger>)
      returns (next: Cells)
      requires Valid() && EntryIs(entries, r, slice) && Separate(views)
      requires MidRelease(ids, k, slice, released) && k < |ids| && Holding(before, r, ids)
      requires Snapshot(views) == ReleasedViews(before, r, ids, released.List())
      modifies this, views.Values
      ensures Valid() && EntryIs(entries, r, next) && entries - {r} == old(entries) - {r}
      ensures MidRelease(ids, k + 1, next, Drop(released, released.cells[k]))
      ensures Snapshot(views) == ReleasedViews(before, r, ids, Drop(released, released.cells[k]).List())
    {
      var id := slice.cells[k];
      MidReleaseStep(ids, k, slice, released);
      TakeOffStep(before, r, ids, released.List(), Drop(released, id).List(), id);
      assert id in views ==> views[id].View() == Snapshot(views)[id];
      next := ReleaseCell(r, views, slice, id);
    }

    /** The loop over the slice. */
    method ReleaseAll(r: Request, views: map<Instance, InstanceView>, first: Cells) returns (slice: Cells)
      requires Valid() && EntryIs(entries, r, first) && Separate(views) && Distinct(first.List())
      requires Holding(Snapshot(views), r, first.List())
      modifies this, views.Values
      ensures Valid() && EntryIs(entries, r, slice) && entries - {r} == old(entries) - {r}
      ensures slice.Valid() && slice.List() == Survivors(first.List())
      ensures Snapshot(views) == ReleasedViews(old(Snapshot(views)), r, first.List(), slice.List())
    {
      slice := first;
      var n := first.len;
      ghost var ids, before := first.List(), Snapshot(views);
      ghost var released := Cells(ids, n);
      assert ReleasedViews(before, r, ids, ids) == before;
      StartRelease(first);
      for k := 0 to n
        invariant Valid() && EntryIs(entries, r, slice) && entries - {r} == old(entries) - {r}
        invariant MidRelease(ids, k, slice, released)
        invariant Snapshot(views) == ReleasedViews(before, r, ids, released.List())
      {
        slice := ReleaseAt(r, views, slice, k, ids, released, before);
        released := Drop(released, released.cells[k]);
      }
      EndRelease(ids, slice, released);
    }

    /** Takes a request off every instance its entry names, walking over the slice while it shifts. */
    method ReleaseRequest(r: Request, views: map<Instance, InstanceView>)
      requires Valid() && Separate(views) && Distinct(Listed(Index(), r))
      requires Holding(Snapshot(views), r, Listed(Index(), r))
      modifies this, views.Values
      ensures Valid() && entries - {r} == old(entries) - {r}
      ensures Listed(Index(), r) == Survivors(Listed(old(Index()), r))
      ensures Snapshot(views) == ReleasedViews(old(Snapshot(views)), r, Listed(old(Index()), r), Listed(Index(), r))
    {
      if r !in entries {
        assert ReleasedViews(Snapshot(views), r, [], []) == Snapshot(views);
        return;
      }
      assert Listed(Index(), r) == entries[r].List();
      var slice := ReleaseAll(r, views, entries[r]);
      assert Listed(Index(), r) == slice.List();
    }
  }

  /** The instances with an account for the request are those listed. */
  ghost predicate Holding(ledgers: map<Instance, Ledger>, r: Request, ids: seq<Instance>) {
    forall i :: i in ledgers ==> (r in ledgers[i].accounts <==> i in ids)
  }

  /** After k cells: the slice agrees with the pure release loop on its first cells. */
  ghost predicate MidRelease(ids: seq<Instance>, k: nat, slice: Cells, released: Cells) {
    && k <= |ids| == |released.cells| && released == Released(Cells(ids, |ids|), k) && SameFront(slice, released)
    && Distinct(released.List()) && forall i :: i in released.List() ==> i in ids
  }

  lemma StartRelease(first: Cells)
    requires first.Valid() && Distinct(first.List())
    ensures MidRelease(first.List(), 0, first, Cells(first.List(), first.len))
  {
    assert Cells(first.List(), first.len).List() == first.List();
  }

  lemma EndRelease(ids: seq<Instance>, slice: Cells, released: Cells)
    requires Distinct(ids) && MidRelease(ids, |ids|, slice, released)
    ensures slice.Valid() && slice.List() == released.List() == Survivors(ids)
  {
    ReleaseLeavesSurvivors(ids);
    assert slice.List() == released.List();
  }

  lemma MidReleaseStep(ids: seq<Instance>, k: nat, slice: Cells, released: Cells)
    requires MidRelease(ids, k, slice, released) && k < |ids|
    ensures var id := slice.cells[k];
            && slice.List() == released.List()
            && MidRelease(ids, k + 1, Drop(slice, id), Drop(released, id))
            && forall i :: i in Drop(released, id).List() <==> i in released.List() && i != id
  {
    var id := slice.cells[k];
    assert released.cells[k] == id;
    DropFront(slice, released, id);
    DropIsWithout(released, id);
    WithoutMembers(released.List(), id);
  }

  ghost function Snapshot(views: map<Instance, InstanceView>): map<Instance, Ledger>
    reads views.Values
  {
    map i | i in views :: views[i].View()
  }

  function TakeOff(ledgers: map<Instance, Ledger>, r: Request, id: Instance): map<Instance, Ledger> {
    if id in ledgers then ledgers[id := Release(ledgers[id], r)] else ledgers
  }

  /** The ledgers once the index entry went from `ids` to `left`. */
  function ReleasedViews(ledgers: map<Instance, Ledger>, r: Request, ids: seq<Instance>,
                         left: seq<Instance>): map<Instance, Ledger> {
    map i | i in ledgers :: if i in ids && i !in left then Release(ledgers[i], r) else ledgers[i]
  }

  lemma OneViewChanged(before: map<Instance, Ledger>, after: map<Instance, Ledger>, r: Request, id: Instance,
                       taken: bool)
    requires before.Keys == after.Keys && forall i :: i in before && i != id ==> after[i] == before[i]
    requires id in before ==> after[id] == if taken then Release(before[id], r) else before[id]
    ensures after == if taken then TakeOff(before, r, id) else before
  {
  }

  lemma TakeOffStep(before: map<Instance, Ledger>, r: Request, ids: seq<Instance>, left: seq<Instance>,
                    rest: seq<Instance>,
                    id: Instance)
    requires forall i :: i in left ==> i in ids
    requires forall i :: i in rest <==> i in left && i != id
    requires Holding(before, r, ids)
    ensures var now := ReleasedViews(before, r, ids, left);
            && (id in now ==> (r in now[id].accounts <==> id in left))
            && ReleasedViews(before, r, ids, rest) == if id in left then TakeOff(now, r, id) else now
  {
  }

  ghost predicate Separate(views: map<Instance, InstanceView>) {
    forall i, j :: i in views && j in views && i != j ==> views[i] != views[j]
  }

  /** A slice of an array with spare room at the end, and the same slice without it. */
  ghost predicate SameFront(s: Cells, t: Cells) {
    s.len == t.len <= |t.cells| <= |s.cells| && s.cells[..|t.cells|] == t.cells
  }

  lemma DropFront(s: Cells, t: Cells, id: Instance)
    requires SameFront(s, t)
    ensures s.List() == t.List() && SameFront(Drop(s, id), Drop(t, id))
  {
    assert s.List() == t.List();
    assert forall j :: 0 <= j < |t.cells| ==> s.cells[..|t.cells|][j] == s.cells[j];
  }

  /** The accounts after the requests in `done` were compared with the report. */
  ghost function Reconciled(accounts: map<Request, Account>, done: set<Request>,
                            report: Report): map<Request, Account> {
    map r | r in accounts && (r in done ==> !Closed(accounts[r], r, report))
      :: if r in done && NewlyFound(accounts[r], r, report) then accounts[r].(found := true) else accounts[r]
  }

  ghost predicate ReconciledIndex(accounts: map<Request, Account>, done: set<Request>, report: Report, id: Instance,
                                  before: Index, after: Index) {
    forall r :: Listed(after, r) == if r in done && r in accounts && Closed(accounts[r], r, report)
                                    then Without(Listed(before, r), id) else Listed(before, r)
  }

  /** Both ledgers are off by the same amount on every counter. */
  ghost predicate SameDrift(l: Ledger, m: Ledger) {
    forall c :: Drift(l, c) == Drift(m, c)
  }

  lemma ReconciledIndexStep(accounts: map<Request, Account>, done: set<Request>, report: Report, id: Instance,
                            before: Index, now: Index, r: Request)
    requires r in accounts && r !in done && ReconciledIndex(accounts, done, report, id, before, now)
    ensures ReconciledIndex(accounts, done + {r}, report, id, before,
                            if Closed(accounts[r], r, report) then SetListed(now, r, Without(Listed(now, r), id))
                                    else now)
  {
    ListedAfterSet(now, r, Without(Listed(now, r), id));
  }

  lemma ReconciledKeeps(accounts: map<Request, Account>, done: set<Request>, report: Report, r: Request)
    requires r in accounts && r !in done
    ensures r in Reconciled(accounts, done, report) && Reconciled(accounts, done, report)[r] == accounts[r]
  {
  }

  lemma ReconciledStep(accounts: map<Request, Account>, done: set<Request>, report: Report, r: Request, l: Ledger)
    requires r in accounts && r !in done && l.accounts == Reconciled(accounts, done, report)
    ensures ReconcileOne(l, r, report).accounts == Reconciled(accounts, done + {r}, report)
    ensures SameDrift(l, ReconcileOne(l, r, report))
  {
    forall c
      ensures Drift(ReconcileOne(l, r, report), c) == Drift(l, c)
    {
      ReconcileKeepsDrift(l, r, report, c);
    }
  }
}
