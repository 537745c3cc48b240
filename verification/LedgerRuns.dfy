/** All ledgers together with the reverse index, over whole runs of the scheduler's operations. */
module LedgerRuns {
  import opened LocalAccount
  import opened Lists
  import opened RequestIndex
  import opened LocalAccountEditor

  datatype System = System(ledgers: map<Instance, Ledger>, index: Index)

  function HoldersOf(ledgers: map<Instance, Ledger>): Holders {
    map i | i in ledgers :: ledgers[i].accounts.Keys
  }

  ghost predicate InStep(s: System) {
    IndexExact(s.index, HoldersOf(s.ledgers))
  }

  datatype SystemOp =
    | AddOn(i: Instance, r: Request, inferType: InferType, numTokens: int, numUncomputed: int, now: int)
    | ReconcileOn(i: Instance, r: Request, report: Report)
    | ReleaseEverywhere(r: Request)
    | RevertOn(i: Instance, r: Request, numUncomputed: int)

  function Step(s: System, op: SystemOp): System {
    match op
    case AddOn(i, r, t, n, u, now) =>
      if i !in s.ledgers then s
      else System(s.ledgers[i := Add(s.ledgers[i], r, t, n, u, now)],
                  if r in s.ledgers[i].accounts then s.index else SetListed(s.index, r, Listed(s.index, r) + [i]))
    case ReconcileOn(i, r, report) =>
      if i !in s.ledgers || r !in s.ledgers[i].accounts then s
      else System(s.ledgers[i := ReconcileOne(s.ledgers[i], r, report)],
                  if Closed(s.ledgers[i].accounts[r], r, report)
                  then SetListed(s.index, r, Without(Listed(s.index, r), i)) else s.index)
    case ReleaseEverywhere(r) =>
      var ids := Listed(s.index, r);
      System(ReleasedViews(s.ledgers, r, ids, Survivors(ids)), SetListed(s.index, r, Survivors(ids)))
    case RevertOn(i, r, u) =>
      if i !in s.ledgers then s
      else System(s.ledgers[i := Revert(s.ledgers[i], r, u)], SetListed(s.index, r, []))
  }

  /** A revert comes while no other instance holds the request. */
  ghost predicate Allowed(s: System, op: SystemOp) {
    op.RevertOn? ==> forall i :: i in s.ledgers && i != op.i ==> op.r !in s.ledgers[i].accounts
  }

  lemma OneLedger(ledgers: map<Instance, Ledger>, i: Instance, l: Ledger)
    requires i in ledgers
    ensures HoldersOf(ledgers[i := l]) == HoldersOf(ledgers)[i := l.accounts.Keys]
  {
  }

  lemma AddInStep(s: System, i: Instance, r: Request, t: InferType, n: int, u: int, now: int)
    requires InStep(s) && i in s.ledgers
    ensures InStep(Step(s, AddOn(i, r, t, n, u, now)))
  {
    var l := Add(s.ledgers[i], r, t, n, u, now);
    OneLedger(s.ledgers, i, l);
    if r in s.ledgers[i].accounts {
      assert l.accounts.Keys == s.ledgers[i].accounts.Keys;
      assert HoldersOf(s.ledgers)[i := l.accounts.Keys] == HoldersOf(s.ledgers);
    } else {
      AppendKeepsIndex(s.index, HoldersOf(s.ledgers), r, i);
      assert l.accounts.Keys == s.ledgers[i].accounts.Keys + {r};
    }
  }

  lemma ReconcileInStep(s: System, i: Instance, r: Request, report: Report)
    requires InStep(s) && i in s.ledgers && r in s.ledgers[i].accounts
    ensures InStep(Step(s, ReconcileOn(i, r, report)))
  {
    var l := ReconcileOne(s.ledgers[i], r, report);
    OneLedger(s.ledgers, i, l);
    if Closed(s.ledgers[i].accounts[r], r, report) {
      RemoveKeepsIndex(s.index, HoldersOf(s.ledgers), r, i);
      assert l.accounts.Keys == s.ledgers[i].accounts.Keys - {r};
    } else {
      assert l.accounts.Keys == s.ledgers[i].accounts.Keys;
      assert HoldersOf(s.ledgers)[i := l.accounts.Keys] == HoldersOf(s.ledgers);
    }
  }

  lemma ReleaseInStep(s: System, r: Request)
    requires InStep(s)
    ensures InStep(Step(s, ReleaseEverywhere(r)))
  {
    var ids, holders := Listed(s.index, r), HoldersOf(s.ledgers);
    var left := Survivors(ids);
    ReleaseKeepsIndex(s.index, holders, r);
    assert HoldersOf(ReleasedViews(s.ledgers, r, ids, left))
        == map i | i in holders :: if i in ids && i !in left then holders[i] - {r} else holders[i];
  }

  lemma RevertInStepIff(s: System, i: Instance, r: Request, u: int)
    requires InStep(s) && i in s.ledgers
    ensures InStep(Step(s, RevertOn(i, r, u))) <==> Allowed(s, RevertOn(i, r, u))
  {
    OneLedger(s.ledgers, i, Revert(s.ledgers[i], r, u));
    RevertKeepsIndexIff(s.index, HoldersOf(s.ledgers), r, i);
    assert Revert(s.ledgers[i], r, u).accounts.Keys == s.ledgers[i].accounts.Keys - {r};
    assert forall j :: j in s.ledgers ==> (r in s.ledgers[j].accounts <==> r in HoldersOf(s.ledgers)[j]);
  }

  function RunAll(s: System, ops: seq<SystemOp>): System {
    if ops == [] then s else Step(RunAll(s, ops[..|ops| - 1]), ops[|ops| - 1])
  }

  ghost predicate AllowedRun(s: System, ops: seq<SystemOp>) {
    ops == [] || (AllowedRun(s, ops[..|ops| - 1]) && Allowed(RunAll(s, ops[..|ops| - 1]), ops[|ops| - 1]))
  }

  /** In every run every entry lists, without repeats, exactly the instances that hold the request's account. */
  lemma {:induction false} RunStaysInStep(s: System, ops: seq<SystemOp>)
    requires InStep(s) && AllowedRun(s, ops)
    ensures InStep(RunAll(s, ops)) && RunAll(s, ops).ledgers.Keys == s.ledgers.Keys
    decreases |ops|
  {
    if ops == [] {
    } else {
      var before, op := RunAll(s, ops[..|ops| - 1]), ops[|ops| - 1];
      RunStaysInStep(s, ops[..|ops| - 1]);
      match op
      case AddOn(i, r, t, n, u, now) => if i in before.ledgers { AddInStep(before, i, r, t, n, u, now); }
      case ReconcileOn(i, r, report) =>
        if i in before.ledgers && r in before.ledgers[i].accounts { ReconcileInStep(before, i, r, report); }
      case ReleaseEverywhere(r) => ReleaseInStep(before, r);
      case RevertOn(i, r, u) => if i in before.ledgers { RevertInStepIff(before, i, r, u); }
    }
  }

  /** After a release nobody holds the request iff its entry named at most two instances, all of them known. */
  lemma ReleaseClearsEveryAccountIff(s: System, r: Request)
    requires InStep(s) && forall i :: i in Listed(s.index, r) ==> i in s.ledgers
    ensures (forall i :: i in s.ledgers ==> r !in Step(s, ReleaseEverywhere(r)).ledgers[i].accounts)
            <==> |Listed(s.index, r)| <= 2
  {
    var ids := Listed(s.index, r);
    var after := Step(s, ReleaseEverywhere(r));
    assert Distinct(ids);
    ReleaseClearsIff(ids);
    SurvivorsWereListed(ids);
    forall i | i in s.ledgers
      ensures r in after.ledgers[i].accounts <==> i in Survivors(ids)
    {
      assert r in HoldersOf(s.ledgers)[i] <==> i in ids;
    }
    if |ids| > 2 {
      assert Survivors(ids)[0] in Survivors(ids);
    }
  }
}
