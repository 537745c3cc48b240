/** The batch protocol's promises over every schedule, and the schedules that break the ones it does not keep. */
module BatchTheorems {
  import opened BatchStatus
  import opened BatchProtocol
  import opened Wrappers
  import opened BatchSafety
  import opened BatchResults

  // ---------------------------------------------------------------- the events that break promises

  datatype Mishap =
    | SelfMove                           // an expirer moves a task that is already expired onto itself
    | LateExpiry                         // an expirer moves a task that has completed
    | FailedFirstMove                    // the first move of a finalizer hits a store error
    | Wipe                               // a finalizer deletes the completed set of a task still in finalizing
    | Erasure                            // a worker deletes the result files of a completed shard
    | Gap                                // a finalizer does not list a shard, or finds no result file of one

  predicate Goes(c: Choice) {
    c != Fail && c != Crash
  }

  ghost predicate Is(m: Mishap, s: State, e: Event) {
    && e.Act?
    && var pc := PcOf(s, e.actor);
       match m
       case SelfMove => pc == E(EMove(Expired)) && Expired in s.task.at && Goes(e.choice)
       case LateExpiry => pc == E(EMove(Completed)) && Completed in s.task.at && Goes(e.choice)
       case FailedFirstMove => pc == F(FMove) && Finalizing in s.task.at && e.choice == Fail
       case Wipe => pc == F(FClean(3)) && Finalizing in s.task.at && Goes(e.choice)
       case Gap => pc.F? && Goes(e.choice) && LeavesOut(s, pc.f, e.choice)
       case Erasure => pc.W? && pc.w.WDelete? && pc.w.shard in s.shards.completed && Goes(e.choice)
  }

  /** The finalizer lists fewer shards than the input has, or goes past a shard without results. */
  ghost predicate LeavesOut(s: State, f: FPc, c: Choice) {
    || (f.FList? && s.shards.completed != Shards(s.total))
    || (f.FAppend? && c.Take? && c.shard in f.todo && !(c.shard in f.keys && c.shard in s.files.results))
  }

  /** Some event of the schedule is such a mishap. */
  ghost predicate Has(m: Mishap, total: nat, schedule: seq<Event>)
    decreases |schedule|
  {
    && schedule != []
    && var init := schedule[..|schedule| - 1];
       Has(m, total, init) || Is(m, Run(Initial(total), init), schedule[|schedule| - 1])
  }

  lemma CleanLogs(s: State, stage: nat)
    ensures CleanStage(s, stage).log ==
            if stage == 3 && Finalizing in s.task.at then s.log.(wiped := true) else s.log
  {
    if stage < 3 {
    } else if stage == 3 {
    } else {
    }
  }

  lemma ValidatorLogs(s: State, a: ActorId, pc: VPc, c: Choice)
    requires pc.VClean? ==> Finalizing !in s.task.at
    ensures ValidatorStep(s, a, pc, c).0.log == s.log
  {
    match pc {
      case VMove(_) =>
      case VClean(stage, _) => CleanLogs(s, stage);
      case VFinish =>
      case VFailMove =>
      case _ =>
    }
  }

  lemma WorkerLogs(s: State, a: ActorId, pc: WPc, c: Choice)
    requires !pc.WDelete?
    ensures WorkerStep(s, a, pc, c).0.log == s.log
  {
    match pc {
      case WStart(_) =>
      case WDone(_) =>
      case WAbandon(_) =>
      case WMove =>
      case _ =>
    }
  }

  lemma DeleteLogs(s: State, a: ActorId, x: ShardId, c: Choice)
    ensures WorkerStep(s, a, WDelete(x), c).0.log ==
            if x in s.shards.completed && c != Fail then s.log.(erased := true) else s.log
  {
  }

  lemma CancelLogs(s: State, a: ActorId, pc: CPc, c: Choice)
    requires pc.CClean? ==> Finalizing !in s.task.at
    ensures CancelReactorStep(s, a, pc, c).0.log == s.log
  {
    match pc {
      case CClean(stage, _) => CleanLogs(s, stage);
      case CMove =>
      case _ =>
    }
  }

  /** What a step of a finalizer adds to the log. */
  ghost function FinalizerLog(s: State, f: FPc, c: Choice): Log {
    if f == FMove && Finalizing in s.task.at && c == Fail then s.log.(botched := true)
    else if f == FClean(3) && Finalizing in s.task.at && c != Fail then s.log.(wiped := true)
    else if c != Fail && LeavesOut(s, f, c) then s.log.(gap := true)
    else s.log
  }

  lemma FinalizerLogs(s: State, a: ActorId, pc: FPc, c: Choice)
    ensures FinalizerStep(s, a, pc, c).0.log == FinalizerLog(s, pc, c)
  {
    match pc {
      case FMove =>
      case FComplete =>
      case FClean(stage) => CleanLogs(s, stage);
      case _ =>
    }
  }

  /** Only a finalizer cleans up a task that is in finalizing, and only an expirer moves one out of expired. */
  predicate Proper(s: State, pc: Pc) {
    && (pc.V? && pc.v.VClean? ==> Finalizing !in s.task.at)
    && (pc.C? && pc.c.CClean? ==> Finalizing !in s.task.at)
    && (pc.H? && pc.h.HMove? ==> Cancellable(pc.h.from))
  }

  lemma RolesAreProper(s: State, pc: Pc)
    requires PhaseOk(s) && StatusOk(s.task, s.log) && RoleOk(s, pc)
    ensures Proper(s, pc)
  {
  }

  /** The log after a step of an actor that stands at `pc`. */
  ghost function LogAfter(s: State, pc: Pc, c: Choice): Log {
    if c == Crash then s.log
    else
      match pc
      case W(w) => if w.WDelete? && w.shard in s.shards.completed && c != Fail then s.log.(erased := true) else s.log
      case E(x) => if x == EMove(Expired) && Expired in s.task.at && c != Fail then s.log.(dropped := true) else s.log
      case F(f) => FinalizerLog(s, f, c)
      case _ => s.log
  }

  lemma ActorLogs(s: State, a: ActorId, pc: Pc, c: Choice)
    requires Proper(s, pc)
    ensures ActorStep(s, a, pc, c).0.log == LogAfter(s, pc, c)
  {
    if c != Crash {
      match pc {
        case V(v) => ValidatorLogs(s, a, v, c);
        case W(w) => { if w.WDelete? { DeleteLogs(s, a, w.shard, c); } else { WorkerLogs(s, a, w, c); } }
        case H(h) => HandlerLogs(s, a, h, c);
        case C(r) => CancelLogs(s, a, r, c);
        case E(x) => ExpirerLogs(s, a, x, c);
        case F(f) => FinalizerLogs(s, a, f, c);
        case Idle =>
        case Unlock =>
      }
    }
  }

  lemma HandlerLogs(s: State, a: ActorId, pc: HPc, c: Choice)
    requires pc.HMove? ==> Cancellable(pc.from)
    ensures CancelHandlerStep(s, a, pc, c).0.log == s.log
  {
  }

  lemma ExpirerLogs(s: State, a: ActorId, pc: EPc, c: Choice)
    ensures ExpireStep(s, a, pc, c).0.log ==
            if pc == EMove(Expired) && Expired in s.task.at && c != Fail then s.log.(dropped := true) else s.log
  {
  }

  lemma LogMeaning(s: State, e: Event)
    requires e.Act?
    ensures LogAfter(s, PcOf(s, e.actor), e.choice) == LogWith(s, e)
  {
    match PcOf(s, e.actor) {
      case W(_) =>
      case E(_) =>
      case F(f) => FinalizerLogMeaning(s, e, f);
      case _ =>
    }
  }

  lemma FinalizerLogMeaning(s: State, e: Event, f: FPc)
    requires e.Act? && PcOf(s, e.actor) == F(f)
    ensures LogAfter(s, F(f), e.choice) == LogWith(s, e)
  {
    match f {
      case FMove =>
      case FClean(_) =>
      case _ =>
    }
  }

  ghost function LogWith(s: State, e: Event): Log {
    Log(s.log.dropped || Is(SelfMove, s, e), s.log.botched || Is(FailedFirstMove, s, e),
     s.log.wiped || Is(Wipe, s, e), s.log.erased || Is(Erasure, s, e), s.log.gap || Is(Gap, s, e))
  }

  lemma EventLogs(s: State, e: Event)
    requires e.Act? ==> Proper(s, PcOf(s, e.actor))
    ensures Next(s, e).log == LogWith(s, e)
  {
    if e.Act? {
      ActLogs(s, e);
      LogMeaning(s, e);
    } else {
      ExpiryIsQuiet(s, e);
    }
  }

  lemma ActorsAreProper(s: State, a: ActorId)
    requires Inv(s)
    ensures Proper(s, PcOf(s, a))
  {
    assert PcOk(s, a, PcOf(s, a));
    RolesAreProper(s, PcOf(s, a));
  }

  lemma ActLogs(s: State, e: Event)
    requires e.Act? && Proper(s, PcOf(s, e.actor))
    ensures Next(s, e).log == LogAfter(s, PcOf(s, e.actor), e.choice)
  {
    ActorLogs(s, e.actor, PcOf(s, e.actor), e.choice);
  }

  /** The log says exactly which mishaps the schedule contains. */
  lemma {:induction false} LogRecordsMishaps(total: nat, schedule: seq<Event>)
    ensures var s := Run(Initial(total), schedule);
            && (s.log.dropped <==> Has(SelfMove, total, schedule))
            && (s.log.botched <==> Has(FailedFirstMove, total, schedule))
            && (s.log.wiped <==> Has(Wipe, total, schedule))
            && (s.log.erased <==> Has(Erasure, total, schedule))
            && (s.log.gap <==> Has(Gap, total, schedule))
    decreases |schedule|
  {
    if schedule == [] {
    } else {
      var n := |schedule| - 1;
      var init, e := schedule[..n], schedule[n];
      LogRecordsMishaps(total, init);
      Reachable(total, init);
      if e.Act? {
        ActorsAreProper(Run(Initial(total), init), e.actor);
      }
      EventLogs(Run(Initial(total), init), e);
    }
  }

  // ---------------------------------------------------------------- shards

  /**
   Whenever the task is in finalizing, no shard is pending, in progress or failed, and every shard of the
   input is in the completed set iff no finalizer has wiped that set; only a finalizer whose first move
   hit a store error does so.
   */
  lemma FinalizingMeansAllCompletedIff(total: nat, schedule: seq<Event>)
    ensures var s := Run(Initial(total), schedule);
            Finalizing in s.task.at ==>
              && s.shards.pending == {} && s.shards.running == {} && s.shards.failed == {}
              && (s.shards.completed == Shards(total) <==> !Has(Wipe, total, schedule) || total == 0)
              && (s.shards.completed != Shards(total) ==>
                    s.shards.completed == {} && Has(FailedFirstMove, total, schedule))
  {
    Reachable(total, schedule);
    TotalIsFixed(total, schedule);
    LogRecordsMishaps(total, schedule);
    assert total > 0 ==> 0 in Shards(total);
  }

  /** At the moment the task moves from in_progress to finalizing every shard of the input is completed. */
  lemma MoveToFinalizingMeansAllCompleted(total: nat, schedule: seq<Event>, e: Event)
    requires InProgress in Run(Initial(total), schedule).task.at
    requires Finalizing in Next(Run(Initial(total), schedule), e).task.at
    ensures var t := Next(Run(Initial(total), schedule), e);
            t.shards.completed == Shards(total) && Drained(t.shards) && t.shards.failed == {}
  {
    var s := Run(Initial(total), schedule);
    Reachable(total, schedule);
    TotalIsFixed(total, schedule);
    EventEffect(s, e);
    EventKeeps(s, e);
    assert !s.log.wiped && Finalizing !in s.task.at;
    if e.Act? {
      ActorsAreProper(s, e.actor);
    }
    EventLogs(s, e);
  }

  /** What an event did to the shared state. */
  lemma EventEffect(s: State, e: Event)
    requires Inv(s)
    ensures Advances(s, Next(s, e))
  {
    if e.Act? {
      var pc := PcOf(s, e.actor);
      assert PcOk(s, e.actor, pc);
      ActorOk(s, e.actor, pc, e.choice);
      SamePart(s, ActorStep(s, e.actor, pc, e.choice).0, Next(s, e));
    } else {
      ExpiryIsQuiet(s, e);
    }
  }

  lemma SamePart(s: State, t: State, u: State)
    requires Advances(s, t) && u == t.(pcs := u.pcs)
    ensures Advances(s, u)
  {
  }

  lemma ExpiryIsQuiet(s: State, e: Event)
    requires !e.Act?
    ensures Advances(s, Next(s, e))
    ensures Next(s, e).log == s.log
  {
    LocksOnly(s, Next(s, e));
  }

  lemma LocksOnly(s: State, t: State)
    requires t == s.(lock := t.lock, shardLock := t.shardLock)
    ensures Advances(s, t)
  {
  }

  lemma {:induction false} TotalIsFixed(total: nat, schedule: seq<Event>)
    ensures Run(Initial(total), schedule).total == total
    decreases |schedule|
  {
    if schedule == [] {
    } else {
      var init := schedule[..|schedule| - 1];
      TotalIsFixed(total, init);
      Reachable(total, init);
      EventEffect(Run(Initial(total), init), schedule[|schedule| - 1]);
    }
  }

  /**
   The shard sets of a finalized task are deleted only when no shard is pending or in progress.  Those of
   a cancelled task are deleted when at most the shards are left that this round could not move to failed.
   */
  lemma CleanedOnlyWhenDrained(total: nat, schedule: seq<Event>, a: ActorId)
    ensures var s := Run(Initial(total), schedule);
            var pc := PcOf(s, a);
            && (pc.F? && pc.f.FClean? ==> Drained(s.shards))
            && (pc.C? && pc.c.CClean? ==> s.shards.pending + s.shards.running <= pc.c.kept)
  {
    Reachable(total, schedule);
    assert PcOk(Run(Initial(total), schedule), a, PcOf(Run(Initial(total), schedule), a));
  }

  /** The cancel reactor starts to clean up a drained task iff none of the shards it could not move is still pending. */
  lemma CleanUpStartsDrainedIff(total: nat, schedule: seq<Event>, a: ActorId, c: Choice)
    requires var pc := PcOf(Run(Initial(total), schedule), a); pc.C? && pc.c.CListRunning?
    ensures var s := Run(Initial(total), schedule);
            var t := Next(s, Act(a, c));
            var kept := PcOf(s, a).c.kept;
            PcOf(t, a) == C(CClean(0, kept)) ==> (Drained(t.shards) <==> kept !! s.shards.pending)
  {
    Reachable(total, schedule);
    var s := Run(Initial(total), schedule);
    assert PcOk(s, a, PcOf(s, a));
  }

  /** After the schedule, shard `x` is in the in_progress set. */
  predicate Runs(total: nat, schedule: seq<Event>, x: ShardId) {
    x in Run(Initial(total), schedule).shards.running
  }

  /** How often shard `x` entered the in_progress set during the schedule. */
  function Entries(total: nat, schedule: seq<Event>, x: ShardId): nat
    decreases |schedule|
  {
    if schedule == [] then 0
    else
      var init := schedule[..|schedule| - 1];
      Entries(total, init, x)
      + if !Runs(total, init, x) && Runs(total, schedule, x) then 1 else 0
  }

  /** How often shard `x` left the in_progress set during the schedule. */
  function Exits(total: nat, schedule: seq<Event>, x: ShardId): nat
    decreases |schedule|
  {
    if schedule == [] then 0
    else
      var init := schedule[..|schedule| - 1];
      Exits(total, init, x)
      + if Runs(total, init, x) && !Runs(total, schedule, x) then 1 else 0
  }

  lemma {:induction false} HistoryCounts(total: nat, schedule: seq<Event>, x: ShardId)
    ensures var s := Run(Initial(total), schedule);
            && Entries(total, schedule, x) == (if x in s.shards.entered then 1 else 0)
            && Exits(total, schedule, x) == (if x in s.shards.left then 1 else 0)
    decreases |schedule|
  {
    if schedule == [] {
    } else {
      var init, e := schedule[..|schedule| - 1], schedule[|schedule| - 1];
      HistoryCounts(total, init, x);
      Reachable(total, init);
      EventEffect(Run(Initial(total), init), e);
    }
  }

  /**
   However many workers race and recover, a shard enters in_progress at most once and leaves it at most
   once; when the task is finalizing, finalize or completed, every shard has done both.
   */
  lemma EachShardRunsOnce(total: nat, schedule: seq<Event>, x: ShardId)
    ensures Entries(total, schedule, x) <= 1
    ensures Exits(total, schedule, x) <= Entries(total, schedule, x)
    ensures Finished(Run(Initial(total), schedule).task.at) && x < total ==>
              Entries(total, schedule, x) == 1 && Exits(total, schedule, x) == 1
  {
    HistoryCounts(total, schedule, x);
    Reachable(total, schedule);
    TotalIsFixed(total, schedule);
  }

  // ---------------------------------------------------------------- results

  /**
   A task that is recorded as completed delivers the results of every shard, unless a worker deleted the
   files of a completed shard or the first move of a finalizer hit a store error.
   */
  lemma CompletedDeliversAll(total: nat, schedule: seq<Event>)
    requires !Has(Erasure, total, schedule) && !Has(FailedFirstMove, total, schedule)
    ensures var s := Run(Initial(total), schedule);
            s.task.delivered.Some? ==> s.task.delivered.value == Shards(total)
  {
    LogRecordsMishaps(total, schedule);
    ReachableResults(total, schedule);
    TotalIsFixed(total, schedule);
  }

  /**
   The step that loses results: a worker deletes the old files of the shard it is about to process.
   In a task that is in progress the completed shards keep their results iff that shard is not completed.
   */
  lemma DeletingKeepsResultsIff(s: State, a: ActorId, x: ShardId)
    requires s.shards.completed <= s.files.results
    ensures var t := WorkerStep(s, a, WDelete(x), Go).0;
            t.shards.completed <= t.files.results <==> x !in s.shards.completed
  {
    var t := WorkerStep(s, a, WDelete(x), Go).0;
    if x in s.shards.completed {
      assert x in t.shards.completed && x !in t.files.results;
    }
  }

  // ---------------------------------------------------------------- the task's status sets

  /** Unchanged, dropped out of expired, or strictly higher. */
  ghost predicate Rises(before: set<TaskStatus>, after: set<TaskStatus>) {
    after == before || (before == {Expired} && after == {})
    || exists x, y :: before == {x} && after == {y} && Rank(x) < Rank(y)
  }

  lemma StepRises(s: State, t: State)
    requires StatusStep(s, t) && AtMostOne(s.task.at) && AtMostOne(t.task.at)
    ensures Rises(s.task.at, t.task.at)
  {
    if t.task.at != s.task.at && !(s.task.at == {Expired} && t.task.at == {}) {
      var x :| x in s.task.at;
      var y :| y in t.task.at;
      assert s.task.at == {x} && t.task.at == {y} && Rank(x) < Rank(y);
    }
  }

  ghost predicate AtMostOne(at: set<TaskStatus>) {
    forall x, y :: x in at && y in at ==> x == y
  }

  lemma InvAtMostOne(s: State)
    requires Inv(s)
    ensures AtMostOne(s.task.at)
  {
  }

  /** In the order of the schedule, the status of the task strictly rises with every change. */
  lemma StatusOnlyRises(total: nat, schedule: seq<Event>, e: Event)
    ensures Rises(Run(Initial(total), schedule).task.at, Next(Run(Initial(total), schedule), e).task.at)
  {
    Reachable(total, schedule);
    StatusRises(Run(Initial(total), schedule), e);
  }

  lemma StatusRises(s: State, e: Event)
    requires Inv(s)
    ensures Rises(s.task.at, Next(s, e).task.at)
  {
    EventKeeps(s, e);
    EventEffect(s, e);
    InvAtMostOne(s);
    InvAtMostOne(Next(s, e));
    StepRises(s, Next(s, e));
  }

  /** The task is in exactly one status set, unless a self-move dropped it, and then it is in none for good. */
  lemma ExactlyOneSetIff(total: nat, schedule: seq<Event>)
    ensures |Run(Initial(total), schedule).task.at| == 1 <==> !Has(SelfMove, total, schedule)
    ensures Run(Initial(total), schedule).task.at == {} <==> Has(SelfMove, total, schedule)
  {
    LogRecordsMishaps(total, schedule);
    Reachable(total, schedule);
    var s := Run(Initial(total), schedule);
    if s.task.at != {} {
      var x :| x in s.task.at;
      assert s.task.at == {x};
    }
  }

  /** A task makes at most eight moves, the last of them only as a self-move. */
  lemma BoundedMoves(total: nat, schedule: seq<Event>)
    ensures var s := Run(Initial(total), schedule);
            s.task.moves <= 8 && (s.task.at != {} ==> s.task.moves <= 7)
  {
    Reachable(total, schedule);
    var s := Run(Initial(total), schedule);
    if s.task.at != {} {
      var x :| x in s.task.at;
      assert s.task.moves <= Rank(x);
    }
  }

  // ---------------------------------------------------------------- completed tasks

  /** The task is completed at the end of the schedule or was so before. */
  ghost predicate EverCompleted(total: nat, schedule: seq<Event>)
    decreases |schedule|
  {
    || Completed in Run(Initial(total), schedule).task.at
    || (schedule != [] && EverCompleted(total, schedule[..|schedule| - 1]))
  }

  /** A task that has completed leaves completed only by such a move, and then for good. */
  lemma CompletedLeavesIff(s: State, e: Event)
    requires Inv(s) && Completed in s.task.at
    ensures Completed !in Next(s, e).task.at <==> Is(LateExpiry, s, e)
  {
    MoveMeaning(s.task.at, Completed, Expired);
    if e.Act? && e.choice != Crash {
      var pc := PcOf(s, e.actor);
      assert PcOk(s, e.actor, pc);
      match pc {
        case V(v) => CompletedIgnoresValidator(s, e.actor, v, e.choice);
        case W(w) => CompletedIgnoresWorker(s, e.actor, w, e.choice);
        case H(h) => CompletedIgnoresHandler(s, e.actor, h, e.choice);
        case C(r) => CompletedIgnoresReactor(s, e.actor, r, e.choice);
        case E(x) => CompletedAndExpirer(s, e.actor, x, e.choice);
        case F(f) => CompletedIgnoresFinalizer(s, e.actor, f, e.choice);
        case _ =>
      }
    }
  }

  lemma CompletedIgnoresValidator(s: State, a: ActorId, pc: VPc, c: Choice)
    requires Completed in s.task.at
    ensures Completed in ValidatorStep(s, a, pc, c).0.task.at
  {
    MoveMeaning(s.task.at, Pending, Validating);
    MoveMeaning(s.task.at, Validating, InProgress);
    MoveMeaning(s.task.at, Validating, Failed);
    match pc {
      case VMove(_) =>
      case VClean(stage, _) => CleanShrinks(s, stage);
      case VFinish =>
      case VFailMove =>
      case _ =>
    }
  }

  lemma CompletedIgnoresWorker(s: State, a: ActorId, pc: WPc, c: Choice)
    requires Completed in s.task.at
    ensures Completed in WorkerStep(s, a, pc, c).0.task.at
  {
    match pc {
      case WMove => MoveMeaning(s.task.at, InProgress, Finalizing);
      case _ =>
    }
  }

  lemma CompletedIgnoresHandler(s: State, a: ActorId, pc: HPc, c: Choice)
    requires Completed in s.task.at && (pc.HMove? ==> Cancellable(pc.from))
    ensures Completed in CancelHandlerStep(s, a, pc, c).0.task.at
  {
  }

  lemma CompletedIgnoresReactor(s: State, a: ActorId, pc: CPc, c: Choice)
    requires Completed in s.task.at
    ensures Completed in CancelReactorStep(s, a, pc, c).0.task.at
  {
    match pc {
      case CClean(stage, _) => CleanShrinks(s, stage);
      case CMove => MoveMeaning(s.task.at, Cancelling, Cancelled);
      case _ =>
    }
  }

  lemma CompletedAndExpirer(s: State, a: ActorId, pc: EPc, c: Choice)
    requires Completed in s.task.at
    ensures Completed !in ExpireStep(s, a, pc, c).0.task.at <==> pc == EMove(Completed) && c != Fail
  {
  }

  lemma CompletedIgnoresFinalizer(s: State, a: ActorId, pc: FPc, c: Choice)
    requires Completed in s.task.at
    ensures Completed in FinalizerStep(s, a, pc, c).0.task.at
  {
    match pc {
      case FMove => MoveMeaning(s.task.at, Finalizing, Finalize);
      case FComplete => MoveMeaning(s.task.at, Finalize, Completed);
      case FClean(stage) => CleanShrinks(s, stage);
      case _ =>
    }
  }

  /** A task in expired or in no set is never in completed again. */
  lemma PastCompleted(s: State, e: Event)
    requires Inv(s) && Beyond(s.task.at, 6)
    ensures Beyond(Next(s, e).task.at, 6)
  {
    if e.Act? {
      assert PcOk(s, e.actor, PcOf(s, e.actor));
      ActorOk(s, e.actor, PcOf(s, e.actor), e.choice);
    }
  }

  /** Once completed, a task stays completed iff no expirer that read the status completed moves it. */
  lemma CompletedStaysIff(total: nat, schedule: seq<Event>)
    requires EverCompleted(total, schedule)
    ensures Completed in Run(Initial(total), schedule).task.at <==> !Has(LateExpiry, total, schedule)
  {
    CompletedHistory(total, schedule);
  }

  lemma {:induction false} CompletedHistory(total: nat, schedule: seq<Event>)
    ensures var s := Run(Initial(total), schedule);
            && (EverCompleted(total, schedule) ==> Completed in s.task.at || Has(LateExpiry, total, schedule))
            && (Has(LateExpiry, total, schedule) ==> Beyond(s.task.at, 6))
    decreases |schedule|
  {
    if schedule == [] {
    } else {
      var init, e := schedule[..|schedule| - 1], schedule[|schedule| - 1];
      var s := Run(Initial(total), init);
      CompletedHistory(total, init);
      Reachable(total, init);
      if Completed in s.task.at {
        CompletedLeavesIff(s, e);
      }
      if Is(LateExpiry, s, e) {
        LateExpiryExpires(s, e);
      } else if Has(LateExpiry, total, init) {
        PastCompleted(s, e);
      }
    }
  }

  lemma LateExpiryExpires(s: State, e: Event)
    requires Inv(s) && Is(LateExpiry, s, e)
    ensures Next(s, e).task.at == {Expired}
  {
    MoveMeaning(s.task.at, Completed, Expired);
    assert s.task.at == {Completed};
  }
}
