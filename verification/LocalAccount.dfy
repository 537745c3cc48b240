/**
 The scheduler's ledger of requests it has dispatched but not yet seen in the cluster status. For one
 instance it keeps an account per request and five running counters. `Drift` is how far a counter is
 from the sum over the accounts not yet found; the lemmas say exactly which operations change it.
 */
module LocalAccount {

  type Request(==, !new)

  datatype InferType = Prefill | Decode | Neutral

  datatype Account = Account(scheduledAt: int, inferType: InferType, numTokens: int, numUncomputed: int, found: bool)

  /** The five counters. */
  datatype Counter = PrefillRequests | DecodeRequests | Requests | PrefillTokens | DecodeTokens

  datatype Counters = Counters(prefillRequests: int, decodeRequests: int, requests: int, prefillTokens: int,
                               decodeTokens: int) {
    function Get(c: Counter): int {
      match c
      case PrefillRequests => prefillRequests
      case DecodeRequests => decodeRequests
      case Requests => requests
      case PrefillTokens => prefillTokens
      case DecodeTokens => decodeTokens
    }
  }

  datatype Ledger = Ledger(accounts: map<Request, Account>, counters: Counters)

  predicate HasPrefill(t: InferType) {
    t == Prefill || t == Neutral
  }

  predicate HasDecode(t: InferType) {
    t == Decode || t == Neutral
  }

  /** What the stages of a request put on the counters, apart from the request itself. */
  function StageCharge(t: InferType, numTokens: int, numUncomputed: int, c: Counter): int {
    match c
    case PrefillRequests => if HasPrefill(t) then 1 else 0
    case DecodeRequests => if HasDecode(t) then 1 else 0
    case Requests => 0
    case PrefillTokens => if HasPrefill(t) then numUncomputed else 0
    case DecodeTokens => if HasDecode(t) then numTokens else 0
  }

  function Weight(a: Account, c: Counter): int {
    StageCharge(a.inferType, a.numTokens, a.numUncomputed, c) + if c == Requests then 1 else 0
  }

  /** What an account should contribute: nothing once the request was found in the cluster status. */
  function Charge(a: Account, c: Counter): int {
    if a.found then 0 else Weight(a, c)
  }

  ghost function Sum(accounts: map<Request, Account>, c: Counter): int {
    if accounts == map[] then 0
    else
      var r :| r in accounts;
      Charge(accounts[r], c) + Sum(accounts - {r}, c)
  }

  /** How much too high a counter stands. */
  ghost function Drift(l: Ledger, c: Counter): int {
    l.counters.Get(c) - Sum(l.accounts, c)
  }

  ghost predicate Exact(l: Ledger) {
    forall c :: Drift(l, c) == 0
  }

  lemma {:induction false} SumWithout(accounts: map<Request, Account>, r: Request, c: Counter)
    requires r in accounts
    ensures Sum(accounts, c) == Charge(accounts[r], c) + Sum(accounts - {r}, c)
    decreases |accounts|
  {
    var first :| first in accounts && Sum(accounts, c) == Charge(accounts[first], c) + Sum(accounts - {first}, c);
    if first != r {
      SumWithout(accounts - {first}, r, c);
      SumWithout(accounts - {r}, first, c);
      assert accounts - {first} - {r} == accounts - {r} - {first};
    }
  }

  lemma SumUpdate(accounts: map<Request, Account>, r: Request, a: Account, c: Counter)
    ensures Sum(accounts[r := a], c)
         == Sum(accounts, c) + Charge(a, c) - if r in accounts then Charge(accounts[r], c) else 0
  {
    SumWithout(accounts[r := a], r, c);
    assert accounts[r := a] - {r} == accounts - {r};
    if r in accounts {
      SumWithout(accounts, r, c);
    } else {
      assert accounts - {r} == accounts;
    }
  }

  lemma SumRemove(accounts: map<Request, Account>, r: Request, c: Counter)
    ensures Sum(accounts - {r}, c) == Sum(accounts, c) - if r in accounts then Charge(accounts[r], c) else 0
  {
    if r in accounts {
      SumWithout(accounts, r, c);
    } else {
      assert accounts - {r} == accounts;
    }
  }

  // ---------------------------------------------------------------- operations

  function AddStages(k: Counters, t: InferType, numTokens: int, numUncomputed: int): Counters {
    var withPrefill := if HasPrefill(t)
                       then k.(prefillRequests := k.prefillRequests + 1,
                               prefillTokens := k.prefillTokens + numUncomputed) else k;
    if HasDecode(t)
    then withPrefill.(decodeRequests := k.decodeRequests + 1,
                      decodeTokens := k.decodeTokens + numTokens) else withPrefill
  }

  function SubtractWeight(k: Counters, a: Account): Counters {
    var withPrefill := if HasPrefill(a.inferType)
                       then k.(prefillRequests := k.prefillRequests - 1,
                               prefillTokens := k.prefillTokens - a.numUncomputed) else k;
    var withDecode := if HasDecode(a.inferType)
                      then withPrefill.(decodeRequests := k.decodeRequests - 1,
                                        decodeTokens := k.decodeTokens - a.numTokens)
                      else withPrefill;
    withDecode.(requests := k.requests - 1)
  }

  predicate Duplicate(l: Ledger, r: Request, t: InferType) {
    r in l.accounts && (l.accounts[r].inferType == t || l.accounts[r].inferType == Neutral)
  }

  /** A first add opens an account, an add for the other stage makes it neutral, a duplicate is skipped. */
  function Add(l: Ledger, r: Request, t: InferType, numTokens: int, numUncomputed: int, now: int): Ledger {
    if Duplicate(l, r, t) then l
    else if r in l.accounts then
      Ledger(l.accounts[r := l.accounts[r].(inferType := Neutral)], AddStages(l.counters, t, numTokens, numUncomputed))
    else
      Ledger(l.accounts[r := Account(now, t, numTokens, numUncomputed, false)],
             AddStages(l.counters.(requests := l.counters.requests + 1), t, numTokens, numUncomputed))
  }

  function Revert(l: Ledger, r: Request, numUncomputed: int): Ledger {
    Ledger(l.accounts - {r},
           l.counters.(prefillRequests := l.counters.prefillRequests - 1,
                       prefillTokens := l.counters.prefillTokens - numUncomputed))
  }

  function Release(l: Ledger, r: Request): Ledger {
    if r in l.accounts then Ledger(l.accounts - {r}, SubtractWeight(l.counters, l.accounts[r])) else l
  }

  /** What the cluster reports about one instance, with the time and the staleness limit in seconds. */
  datatype Report = Report(recentWaiting: set<Request>, waiting: set<Request>, nowMs: int, stalenessSeconds: int)

  /** Integer division that rounds toward zero. */
  function Truncated(a: int, b: nat): int
    requires b > 0
  {
    if a >= 0 then a / b else -((-a) / b)
  }

  predicate NewlyFound(a: Account, r: Request, report: Report) {
    !a.found && r in report.recentWaiting
  }

  predicate Stale(a: Account, r: Request, report: Report) {
    && !a.found && r !in report.recentWaiting && r !in report.waiting
    && Truncated(report.nowMs - a.scheduledAt, 1000) >= report.stalenessSeconds
  }

  /** An account goes when it is found and no longer waiting, or never found and stale. */
  predicate Closed(a: Account, r: Request, report: Report) {
    Stale(a, r, report) || ((a.found || NewlyFound(a, r, report)) && r !in report.waiting)
  }

  function ReconcileOne(l: Ledger, r: Request, report: Report): Ledger
    requires r in l.accounts
  {
    var a := l.accounts[r];
    var counters := if NewlyFound(a, r, report) || Stale(a, r, report)
                        then SubtractWeight(l.counters, a) else l.counters;
    var accounts := if Closed(a, r, report) then l.accounts - {r}
                    else if NewlyFound(a, r, report) then l.accounts[r := a.(found := true)]
                    else l.accounts;
    Ledger(accounts, counters)
  }

  // ---------------------------------------------------------------- what each operation does to the drift

  /** Exactly what an add changes: nothing, except a second stage on a found account or with other token counts. */
  function AddDrift(l: Ledger, r: Request, t: InferType, numTokens: int, numUncomputed: int, c: Counter): int {
    if Duplicate(l, r, t) || r !in l.accounts then 0
    else
      var a := l.accounts[r];
      StageCharge(t, numTokens, numUncomputed, c) - (Charge(a.(inferType := Neutral), c) - Charge(a, c))
  }

  lemma AddChangesDrift(l: Ledger, r: Request, t: InferType, numTokens: int, numUncomputed: int, now: int, c: Counter)
    ensures Drift(Add(l, r, t, numTokens, numUncomputed, now), c)
         == Drift(l, c) + AddDrift(l, r, t, numTokens, numUncomputed, c)
  {
    if !Duplicate(l, r, t) {
      var after := Add(l, r, t, numTokens, numUncomputed, now);
      SumUpdate(l.accounts, r, after.accounts[r], c);
    }
  }

  /** An add for the other stage is recorded exactly iff the account is still unfound and the counts agree. */
  lemma SecondStageExactIff(l: Ledger, r: Request, t: InferType, numTokens: int, numUncomputed: int)
    requires r in l.accounts && !Duplicate(l, r, t) && t != Neutral
    ensures (forall c :: AddDrift(l, r, t, numTokens, numUncomputed, c) == 0) <==>
            var a := l.accounts[r];
            !a.found && (if t == Prefill then numUncomputed == a.numUncomputed else numTokens == a.numTokens)
  {
    var one := if t == Prefill then PrefillRequests else DecodeRequests;
    var tokens := if t == Prefill then PrefillTokens else DecodeTokens;
    if forall c :: AddDrift(l, r, t, numTokens, numUncomputed, c) == 0 {
      assert AddDrift(l, r, t, numTokens, numUncomputed, one) == 0;
      assert AddDrift(l, r, t, numTokens, numUncomputed, tokens) == 0;
    }
  }

  lemma ReconcileKeepsDrift(l: Ledger, r: Request, report: Report, c: Counter)
    requires r in l.accounts
    ensures Drift(ReconcileOne(l, r, report), c) == Drift(l, c)
  {
    SumRemove(l.accounts, r, c);
    SumUpdate(l.accounts, r, l.accounts[r].(found := true), c);
  }

  /** Releasing an account that was already found takes its weight off a second time. */
  function ReleaseDrift(l: Ledger, r: Request, c: Counter): int {
    if r in l.accounts && l.accounts[r].found then -Weight(l.accounts[r], c) else 0
  }

  lemma ReleaseChangesDrift(l: Ledger, r: Request, c: Counter)
    ensures Drift(Release(l, r), c) == Drift(l, c) + ReleaseDrift(l, r, c)
  {
    SumRemove(l.accounts, r, c);
  }

  lemma ReleaseExactIff(l: Ledger, r: Request)
    ensures (forall c :: Drift(Release(l, r), c) == Drift(l, c)) <==> (r in l.accounts ==> !l.accounts[r].found)
  {
    forall c
      ensures Drift(Release(l, r), c) == Drift(l, c) + ReleaseDrift(l, r, c)
    {
      ReleaseChangesDrift(l, r, c);
    }
    if r in l.accounts && l.accounts[r].found {
      assert ReleaseDrift(l, r, Requests) == -1;
    }
  }

  function RevertDrift(l: Ledger, r: Request, numUncomputed: int, c: Counter): int {
    (if r in l.accounts then Charge(l.accounts[r], c) else 0) - StageCharge(Prefill, 0, numUncomputed, c)
  }

  lemma RevertChangesDrift(l: Ledger, r: Request, numUncomputed: int, c: Counter)
    ensures Drift(Revert(l, r, numUncomputed), c) == Drift(l, c) + RevertDrift(l, r, numUncomputed, c)
  {
    SumRemove(l.accounts, r, c);
  }

  /** Reverting a fresh prefill add restores everything but the request counter, which stays one too high. */
  lemma RevertUndoesAllButOne(l: Ledger, r: Request, numTokens: int, numUncomputed: int, now: int)
    requires r !in l.accounts
    ensures Revert(Add(l, r, Prefill, numTokens, numUncomputed, now), r, numUncomputed)
         == l.(counters := l.counters.(requests := l.counters.requests + 1))
  {
    assert l.accounts[r := Account(now, Prefill, numTokens, numUncomputed, false)] - {r} == l.accounts;
  }

  lemma ReleaseUndoesAdd(l: Ledger, r: Request, t: InferType, numTokens: int, numUncomputed: int, now: int)
    requires r !in l.accounts
    ensures Release(Add(l, r, t, numTokens, numUncomputed, now), r) == l
  {
    assert l.accounts[r := Account(now, t, numTokens, numUncomputed, false)] - {r} == l.accounts;
  }

  // ---------------------------------------------------------------- whole runs

  datatype Op =
    | DoAdd(r: Request, inferType: InferType, numTokens: int, numUncomputed: int, now: int)
    | DoReconcile(r: Request, report: Report)
    | DoRelease(r: Request)
    | DoRevert(r: Request, numUncomputed: int)

  function Apply(l: Ledger, op: Op): Ledger {
    match op
    case DoAdd(r, t, n, u, now) => Add(l, r, t, n, u, now)
    case DoReconcile(r, report) => if r in l.accounts then ReconcileOne(l, r, report) else l
    case DoRelease(r) => Release(l, r)
    case DoRevert(r, u) => Revert(l, r, u)
  }

  function Run(l: Ledger, ops: seq<Op>): Ledger {
    if ops == [] then l else Apply(Run(l, ops[..|ops| - 1]), ops[|ops| - 1])
  }

  function OpDrift(l: Ledger, op: Op, c: Counter): int {
    match op
    case DoAdd(r, t, n, u, _) => AddDrift(l, r, t, n, u, c)
    case DoReconcile(_, _) => 0
    case DoRelease(r) => ReleaseDrift(l, r, c)
    case DoRevert(r, u) => RevertDrift(l, r, u, c)
  }

  function TotalDrift(l: Ledger, ops: seq<Op>, c: Counter): int {
    if ops == [] then 0
    else
      var init := ops[..|ops| - 1];
      TotalDrift(l, init, c) + OpDrift(Run(l, init), ops[|ops| - 1], c)
  }

  /** Over any run, the counters are off by exactly what the single operations add up to. */
  lemma {:induction false} RunDrift(l: Ledger, ops: seq<Op>, c: Counter)
    ensures Drift(Run(l, ops), c) == Drift(l, c) + TotalDrift(l, ops, c)
    decreases |ops|
  {
    if ops == [] {
    } else {
      var init, op := ops[..|ops| - 1], ops[|ops| - 1];
      RunDrift(l, init, c);
      ApplyDrift(Run(l, init), op, c);
    }
  }

  lemma ApplyDrift(l: Ledger, op: Op, c: Counter)
    ensures Drift(Apply(l, op), c) == Drift(l, c) + OpDrift(l, op, c)
  {
    match op
    case DoAdd(r, t, n, u, now) => AddChangesDrift(l, r, t, n, u, now, c);
    case DoReconcile(r, report) => if r in l.accounts { ReconcileKeepsDrift(l, r, report, c); }
    case DoRelease(r) => ReleaseChangesDrift(l, r, c);
    case DoRevert(r, u) => RevertChangesDrift(l, r, u, c);
  }

  /**
   The uses the scheduler makes of the ledger: a second stage comes before the request is found and with
   an equal count of the kind it adds to, a release before it is found, and a revert right after the matching
   prefill add.
   */
  predicate Orderly(l: Ledger, op: Op) {
    match op
    case DoAdd(r, t, n, u, _) =>
      !Duplicate(l, r, t) && r in l.accounts ==>
        && t != Neutral && !l.accounts[r].found
        && if t == Prefill then u == l.accounts[r].numUncomputed else n == l.accounts[r].numTokens
    case DoReconcile(_, _) => true
    case DoRelease(r) => r in l.accounts ==> !l.accounts[r].found
    case DoRevert(r, u) =>
      r in l.accounts && l.accounts[r].inferType == Prefill && !l.accounts[r].found && u == l.accounts[r].numUncomputed
  }

  predicate OrderlyRun(l: Ledger, ops: seq<Op>) {
    ops == [] || (OrderlyRun(l, ops[..|ops| - 1]) && Orderly(Run(l, ops[..|ops| - 1]), ops[|ops| - 1]))
  }

  function Reverts(ops: seq<Op>): nat {
    if ops == [] then 0 else Reverts(ops[..|ops| - 1]) + if ops[|ops| - 1].DoRevert? then 1 else 0
  }

  /** In an orderly run four counters stay exact and the request counter is too high by the number of reverts. */
  lemma {:induction false} OrderlyRunDrift(l: Ledger, ops: seq<Op>, c: Counter)
    requires Exact(l) && OrderlyRun(l, ops)
    ensures Drift(Run(l, ops), c) == if c == Requests then Reverts(ops) else 0
    decreases |ops|
  {
    if ops == [] {
      assert Drift(l, c) == 0;
    } else {
      var init, op := ops[..|ops| - 1], ops[|ops| - 1];
      OrderlyRunDrift(l, init, c);
      ApplyDrift(Run(l, init), op, c);
    }
  }

  /** Without reverts, all five counters equal their sums in every reachable state of an orderly run. */
  lemma OrderlyRunExactIff(l: Ledger, ops: seq<Op>)
    requires Exact(l) && OrderlyRun(l, ops)
    ensures Exact(Run(l, ops)) <==> Reverts(ops) == 0
  {
    forall c
      ensures Drift(Run(l, ops), c) == if c == Requests then Reverts(ops) else 0
    {
      OrderlyRunDrift(l, ops, c);
    }
    if Exact(Run(l, ops)) {
      assert Drift(Run(l, ops), Requests) == 0;
    }
  }
}
