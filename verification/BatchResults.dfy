/**
 Shard results.  As long as no worker deletes the files of a completed shard and no finalizer's first
 move hits a store error, a task that reaches completed delivers the results of all its shards.
 */
module BatchResults {
  import opened BatchStatus
  import opened BatchProtocol
  import opened Wrappers
  import opened BatchSafety

  /** The worker has taken the shard for processing and has not yet deleted its old files. */
  predicate TakenUp(pc: WPc) {
    pc.WRecheck? || pc.WProcess? || pc.WDelete?
  }

  /** Nothing has happened that can lose results. */
  predicate Unspoilt(s: State) {
    !s.log.erased && !s.log.botched
  }

  ghost predicate Published(s: State, x: ShardId) {
    x in s.files.results && x in s.files.recorded
  }

  ghost predicate AllPublished(s: State) {
    Shards(s.total) <= s.files.results && Shards(s.total) <= s.files.recorded
  }

  ghost predicate WorkerResults(s: State, pc: WPc) {
    && (pc.WRecover? ==> pc.todo <= s.shards.running + s.shards.left)
    && (TakenUp(pc) ==> pc.shard in s.shards.running + s.shards.left)
    && (pc.WRun? && InProgress in s.task.at ==> pc.shard in s.shards.running)
    && (pc.WRecord? && InProgress in s.task.at ==> pc.shard in s.shards.running && pc.shard in s.files.results)
    && (pc.WDone? && InProgress in s.task.at ==> pc.shard in s.shards.running && Published(s, pc.shard))
  }

  ghost predicate FinalizerResults(s: State, pc: FPc) {
    && (pc.FList? || pc.FKeys? || pc.FAppend? || pc.FFields? ==> AllPublished(s))
    && (pc.FKeys? ==> pc.todo == Shards(s.total))
    && (pc.FAppend? ==> Shards(s.total) <= pc.keys && pc.got + pc.todo == Shards(s.total))
    && (pc.FFields? ==> pc.got == Shards(s.total))
  }

  ghost predicate PcResults(s: State, pc: Pc) {
    && (pc.W? ==> WorkerResults(s, pc.w))
    && (pc.F? ==> FinalizerResults(s, pc.f))
  }

  ghost predicate SharedResults(s: State) {
    && (InProgress in s.task.at ==> s.shards.completed <= s.files.results && s.shards.completed <= s.files.recorded)
    && (Finalizing in s.task.at ==> AllPublished(s))
    && (s.task.delivered.Some? ==> s.task.delivered.value == Shards(s.total))
  }

  ghost predicate ResultsOk(s: State) {
    SharedResults(s) && forall a :: PcResults(s, PcOf(s, a))
  }

  /** A task being finalized, with all shards completed and all their results in place. */
  ghost predicate Complete(s: State) {
    Finalize in s.task.at && Drained(s.shards) && s.shards.completed == Shards(s.total) && AllPublished(s)
  }

  /** A shard in progress whose lock another actor holds stays in progress and keeps its results. */
  ghost predicate ShardResultsKept(s: State, t: State, a: ActorId) {
    forall x :: x in s.shards.running && x in s.shardLock && s.shardLock[x] != a ==>
      && x in t.shards.running
      && (x in s.files.results ==> x in t.files.results) && (x in s.files.recorded ==> x in t.files.recorded)
  }

  /** What a step of `a` leaves to the results the other actors rely on. */
  ghost predicate ResultsEffect(s: State, t: State, a: ActorId) {
    && t.total == s.total
    && (InProgress in t.task.at ==> ShardResultsKept(s, t, a))
    && (s.lock.Some? && s.lock.value != a && Complete(s) ==> AllPublished(t))
    && s.shards.running + s.shards.left <= t.shards.running + t.shards.left
    && (Beyond(s.task.at, 3) ==> Beyond(t.task.at, 3))
    && (Beyond(s.task.at, 2) && InProgress in t.task.at ==> InProgress in s.task.at)
    && SharedResults(t)
  }

  ghost predicate Keeps(s: State, a: ActorId, o: Outcome) {
    ResultsEffect(s, o.0, a) && PcResults(o.0, o.1)
  }

  lemma OthersKeepResults(s: State, t: State, a: ActorId, b: ActorId)
    requires ResultsEffect(s, t, a) && a != b && PhaseOk(s) && StatusOk(s.task, s.log) && !s.log.botched
    requires PcOk(s, b, PcOf(s, b)) && PcResults(s, PcOf(s, b))
    ensures PcResults(t, PcOf(s, b))
  {
  }

  /** What one actor may use: the shared state and its own position, for both invariants. */
  ghost predicate LocalR(s: State, a: ActorId, pc: Pc) {
    Local(s, a, pc) && SharedResults(s) && PcResults(s, pc) && Unspoilt(s)
  }

  lemma Unchanged(s: State, t: State, a: ActorId)
    requires SharedResults(s)
    requires t == s.(lock := t.lock, task := s.task.(field := t.task.field), shardLock := t.shardLock, log := t.log)
    ensures ResultsEffect(s, t, a)
  {
  }

  lemma ValidatorMovesResults(s: State, a: ActorId, pc: VPc, c: Choice)
    requires LocalR(s, a, V(pc)) && (pc.VMove? || pc.VFinish? || pc.VFailMove?)
    ensures Keeps(s, a, ValidatorStep(s, a, pc, c))
  {
    match pc {
      case VMove(_) => MoveMeaning(s.task.at, Pending, Validating);
      case VFinish => MoveMeaning(s.task.at, Validating, InProgress);
      case VFailMove => MoveMeaning(s.task.at, Validating, Failed);
    }
  }

  lemma CleaningResults(s: State, a: ActorId, stage: nat)
    requires SharedResults(s) && Shared(s) && s.lock == Some(a)
    requires MayClean(s) && !s.log.botched
    ensures ResultsEffect(s, CleanStage(s, stage), a)
  {
    CleanKeepsHistory(s, stage);
    if stage == 0 {
    } else if stage == 1 {
    } else if stage == 2 {
    } else if stage == 3 {
    } else {
    }
  }

  lemma CleanKeepsHistory(s: State, stage: nat)
    ensures var t := CleanStage(s, stage);
            s.shards.running + s.shards.left <= t.shards.running + t.shards.left && t.task == s.task
  {
    if stage == 0 {
    } else if stage == 1 {
    } else if stage == 2 {
    } else if stage == 3 {
    } else {
    }
  }

  lemma ValidatorCleansResults(s: State, a: ActorId, pc: VPc, c: Choice)
    requires LocalR(s, a, V(pc)) && (pc.VClean? || pc.VSplit?)
    ensures Keeps(s, a, ValidatorStep(s, a, pc, c))
  {
    Unchanged(s, s, a);
    if pc.VClean? {
      CleaningResults(s, a, pc.stage);
    }
  }

  lemma ValidatorReadsResults(s: State, a: ActorId, pc: VPc, c: Choice)
    requires LocalR(s, a, V(pc)) && (pc.VLock? || pc.VRead?)
    ensures Keeps(s, a, ValidatorStep(s, a, pc, c))
  {
    Unchanged(s, ValidatorStep(s, a, pc, c).0, a);
  }

  lemma ValidatorFieldsResults(s: State, a: ActorId, pc: VPc, c: Choice)
    requires LocalR(s, a, V(pc)) && (pc.VFields? || pc.VFailField?)
    ensures Keeps(s, a, ValidatorStep(s, a, pc, c))
  {
    Unchanged(s, ValidatorStep(s, a, pc, c).0, a);
  }

  lemma WorkerLooksResults(s: State, a: ActorId, pc: WPc, c: Choice)
    requires LocalR(s, a, W(pc)) && (pc.WPicked? || pc.WChoose? || pc.WScan? || pc.WRecheck?)
    ensures Keeps(s, a, WorkerStep(s, a, pc, c))
  {
    Unchanged(s, WorkerStep(s, a, pc, c).0, a);
  }

  lemma WorkerChecksResults(s: State, a: ActorId, pc: WPc, c: Choice)
    requires LocalR(s, a, W(pc)) && (pc.WProcess? || pc.WCheck? || pc.WLockTask?)
    ensures Keeps(s, a, WorkerStep(s, a, pc, c))
  {
    Unchanged(s, WorkerStep(s, a, pc, c).0, a);
  }

  lemma WorkerLocksResults(s: State, a: ActorId, pc: WPc, c: Choice)
    requires LocalR(s, a, W(pc)) && (pc.WLockShard? || pc.WUnlockShard?)
    ensures Keeps(s, a, WorkerStep(s, a, pc, c))
  {
    Unchanged(s, WorkerStep(s, a, pc, c).0, a);
  }

  lemma WorkerRecoversResults(s: State, a: ActorId, pc: WPc, c: Choice)
    requires LocalR(s, a, W(pc)) && pc.WRecover?
    ensures Keeps(s, a, WorkerStep(s, a, pc, c))
  {
    Unchanged(s, WorkerStep(s, a, pc, c).0, a);
  }

  lemma WorkerStartsResults(s: State, a: ActorId, pc: WPc, c: Choice)
    requires LocalR(s, a, W(pc)) && pc.WStart?
    ensures Keeps(s, a, WorkerStep(s, a, pc, c))
  {
  }

  /** The shard whose files are deleted is still in progress, unless the task has left in_progress. */
  lemma DeletesRunning(s: State, a: ActorId, x: ShardId)
    requires LocalR(s, a, W(WDelete(x))) && !DeleteResults(s, x).log.erased
    ensures InProgress in s.task.at ==> x in s.shards.running
    ensures s.shards.completed == Shards(s.total) ==> x !in Shards(s.total)
  {
  }

  lemma WorkerDeletesResults(s: State, a: ActorId, pc: WPc, c: Choice)
    requires LocalR(s, a, W(pc)) && pc.WDelete? && !WorkerStep(s, a, pc, c).0.log.erased
    ensures Keeps(s, a, WorkerStep(s, a, pc, c))
  {
    if c != Fail {
      DeletesRunning(s, a, pc.shard);
    }
  }

  lemma WorkerWritesResults(s: State, a: ActorId, pc: WPc, c: Choice)
    requires LocalR(s, a, W(pc)) && (pc.WRun? || pc.WRecord?)
    ensures Keeps(s, a, WorkerStep(s, a, pc, c))
  {
  }

  lemma WorkerLeavesResults(s: State, a: ActorId, pc: WPc, c: Choice)
    requires LocalR(s, a, W(pc)) && (pc.WDone? || pc.WAbandon?)
    ensures Keeps(s, a, WorkerStep(s, a, pc, c))
  {
  }

  lemma WorkerMovesResults(s: State, a: ActorId, c: Choice)
    requires LocalR(s, a, W(WMove))
    ensures Keeps(s, a, WorkerStep(s, a, WMove, c))
  {
    MoveMeaning(s.task.at, InProgress, Finalizing);
  }

  lemma CancelCleansResults(s: State, a: ActorId, pc: CPc, c: Choice)
    requires LocalR(s, a, C(pc)) && (pc.CClean? || pc.CMove?)
    ensures Keeps(s, a, CancelReactorStep(s, a, pc, c))
  {
    if pc.CClean? {
      Unchanged(s, s, a);
      CleaningResults(s, a, pc.stage);
    } else {
      MoveMeaning(s.task.at, Cancelling, Cancelled);
    }
  }

  lemma CancelRestResults(s: State, a: ActorId, pc: CPc, c: Choice)
    requires LocalR(s, a, C(pc)) && !pc.CClean? && !pc.CMove?
    ensures Keeps(s, a, CancelReactorStep(s, a, pc, c))
  {
    if !pc.CFail? {
      Unchanged(s, CancelReactorStep(s, a, pc, c).0, a);
    }
  }

  lemma CancelReactorResults(s: State, a: ActorId, pc: CPc, c: Choice)
    requires LocalR(s, a, C(pc))
    ensures Keeps(s, a, CancelReactorStep(s, a, pc, c))
  {
    if pc.CClean? || pc.CMove? { CancelCleansResults(s, a, pc, c); }
    else { CancelRestResults(s, a, pc, c); }
  }

  lemma HandlerResults(s: State, a: ActorId, pc: HPc, c: Choice)
    requires LocalR(s, a, H(pc))
    ensures Keeps(s, a, CancelHandlerStep(s, a, pc, c))
  {
    if pc.HMove? {
      HandlerMovesResults(s, a, pc.from, c);
    } else {
      Unchanged(s, CancelHandlerStep(s, a, pc, c).0, a);
    }
  }

  lemma HandlerMovesResults(s: State, a: ActorId, from: TaskStatus, c: Choice)
    requires LocalR(s, a, H(HMove(from)))
    ensures Keeps(s, a, MoveAndUnlock(s, from, Cancelling, c))
  {
    Unchanged(s, s, a);
    MoveMeaning(s.task.at, from, Cancelling);
  }

  lemma ExpirerResults(s: State, a: ActorId, pc: EPc, c: Choice)
    requires LocalR(s, a, E(pc))
    ensures Keeps(s, a, ExpireStep(s, a, pc, c))
  {
    if pc.EMove? && c != Fail {
      MoveMeaning(s.task.at, pc.from, Expired);
    } else {
      Unchanged(s, ExpireStep(s, a, pc, c).0, a);
    }
  }

  lemma FinalizerMovesResults(s: State, a: ActorId, pc: FPc, c: Choice)
    requires LocalR(s, a, F(pc)) && (pc.FLock? || pc.FMove?) && !FinalizerStep(s, a, pc, c).0.log.botched
    ensures Keeps(s, a, FinalizerStep(s, a, pc, c))
  {
    MoveMeaning(s.task.at, Finalizing, Finalize);
  }

  lemma FinalizerAssemblesResults(s: State, a: ActorId, pc: FPc, c: Choice)
    requires LocalR(s, a, F(pc)) && (pc.FList? || pc.FKeys? || pc.FAppend?)
    ensures Keeps(s, a, FinalizerStep(s, a, pc, c))
  {
    Unchanged(s, FinalizerStep(s, a, pc, c).0, a);
  }

  lemma FinalizerEndsResults(s: State, a: ActorId, pc: FPc, c: Choice)
    requires LocalR(s, a, F(pc)) && (pc.FFields? || pc.FComplete? || pc.FClean?)
    ensures Keeps(s, a, FinalizerStep(s, a, pc, c))
  {
    Unchanged(s, s, a);
    if pc.FComplete? {
      MoveMeaning(s.task.at, Finalize, Completed);
    } else if pc.FClean? {
      CleaningResults(s, a, pc.stage);
    }
  }

  lemma RestResults(s: State, a: ActorId, pc: Pc, c: Choice)
    requires LocalR(s, a, pc) && (c == Crash || pc == Idle || pc == Unlock)
    ensures Keeps(s, a, ActorStep(s, a, pc, c))
  {
    if c == Crash || pc == Idle {
      Unchanged(s, s, a);
    } else {
      Unchanged(s, ReleaseTask(s, a, c).0, a);
    }
  }

  lemma ValidatorResults(s: State, a: ActorId, pc: VPc, c: Choice)
    requires LocalR(s, a, V(pc))
    ensures Keeps(s, a, ValidatorStep(s, a, pc, c))
  {
    if pc.VMove? || pc.VFinish? || pc.VFailMove? { ValidatorMovesResults(s, a, pc, c); }
    else if pc.VClean? || pc.VSplit? { ValidatorCleansResults(s, a, pc, c); }
    else if pc.VLock? || pc.VRead? { ValidatorReadsResults(s, a, pc, c); }
    else { ValidatorFieldsResults(s, a, pc, c); }
  }

  lemma WorkerKeepsResults(s: State, a: ActorId, pc: WPc, c: Choice)
    requires LocalR(s, a, W(pc)) && !WorkerStep(s, a, pc, c).0.log.erased
    ensures Keeps(s, a, WorkerStep(s, a, pc, c))
  {
    if pc.WDelete? { WorkerDeletesResults(s, a, pc, c); }
    else if pc.WRun? || pc.WRecord? { WorkerWritesResults(s, a, pc, c); }
    else if pc.WDone? || pc.WAbandon? { WorkerLeavesResults(s, a, pc, c); }
    else if pc.WMove? { WorkerMovesResults(s, a, c); }
    else if pc.WLockShard? || pc.WUnlockShard? { WorkerLocksResults(s, a, pc, c); }
    else if pc.WRecover? { WorkerRecoversResults(s, a, pc, c); }
    else if pc.WStart? { WorkerStartsResults(s, a, pc, c); }
    else if pc.WProcess? || pc.WCheck? || pc.WLockTask? { WorkerChecksResults(s, a, pc, c); }
    else { WorkerLooksResults(s, a, pc, c); }
  }

  lemma FinalizerResultsOk(s: State, a: ActorId, pc: FPc, c: Choice)
    requires LocalR(s, a, F(pc)) && !FinalizerStep(s, a, pc, c).0.log.botched
    ensures Keeps(s, a, FinalizerStep(s, a, pc, c))
  {
    if pc.FLock? || pc.FMove? { FinalizerMovesResults(s, a, pc, c); }
    else if pc.FList? || pc.FKeys? || pc.FAppend? { FinalizerAssemblesResults(s, a, pc, c); }
    else { FinalizerEndsResults(s, a, pc, c); }
  }

  lemma ActorResults(s: State, a: ActorId, pc: Pc, c: Choice)
    requires LocalR(s, a, pc) && Unspoilt(ActorStep(s, a, pc, c).0)
    ensures Keeps(s, a, ActorStep(s, a, pc, c))
  {
    if c == Crash {
      RestResults(s, a, pc, c);
    } else {
      match pc {
        case Idle => RestResults(s, a, pc, c);
        case Unlock => RestResults(s, a, pc, c);
        case V(v) => ValidatorResults(s, a, v, c);
        case W(w) => WorkerKeepsResults(s, a, w, c);
        case H(h) => HandlerResults(s, a, h, c);
        case C(r) => CancelReactorResults(s, a, r, c);
        case E(e) => ExpirerResults(s, a, e, c);
        case F(f) => FinalizerResultsOk(s, a, f, c);
      }
    }
  }

  lemma SettleResults(s: State, t: State, a: ActorId, pc: Pc)
    requires Inv(s) && ResultsOk(s) && !s.log.botched && ResultsEffect(s, t, a) && t.pcs == s.pcs && PcResults(t, pc)
    ensures ResultsOk(At(t, a, pc))
  {
    var u := At(t, a, pc);
    forall b
      ensures PcResults(u, PcOf(u, b))
    {
      if b == a {
        SamePcResults(t, u, pc);
      } else {
        assert PcOk(s, b, PcOf(s, b));
        assert PcResults(s, PcOf(s, b));
        OthersKeepResults(s, t, a, b);
        SamePcResults(t, u, PcOf(s, b));
      }
    }
  }

  lemma SamePcResults(t: State, u: State, pc: Pc)
    requires PcResults(t, pc) && u == t.(pcs := u.pcs)
    ensures PcResults(u, pc)
  {
  }

  lemma EventKeepsResults(s: State, e: Event)
    requires Inv(s) && ResultsOk(s) && Unspoilt(s) && Unspoilt(Next(s, e))
    ensures ResultsOk(Next(s, e))
  {
    match e {
      case Act(a, c) =>
        var pc := PcOf(s, a);
        assert PcOk(s, a, pc) && PcResults(s, pc);
        var o := ActorStep(s, a, pc, c);
        ActorResults(s, a, pc, c);
        ActorOk(s, a, pc, c);
        SettleResults(s, o.0, a, o.1);
      case _ =>
        var t := Next(s, e);
        forall b
          ensures PcResults(t, PcOf(t, b))
        {
          assert PcResults(s, PcOf(s, b));
        }
    }
  }

  lemma SpoiltForGood(s: State, e: Event)
    requires Inv(s) && !Unspoilt(s)
    ensures !Unspoilt(Next(s, e))
  {
    if e.Act? {
      assert PcOk(s, e.actor, PcOf(s, e.actor));
      ActorOk(s, e.actor, PcOf(s, e.actor), e.choice);
    }
  }

  /** Over every schedule without such an accident, the results are where the actors expect them. */
  lemma {:induction false} ReachableResults(total: nat, schedule: seq<Event>)
    requires Unspoilt(Run(Initial(total), schedule))
    ensures ResultsOk(Run(Initial(total), schedule))
    decreases |schedule|
  {
    if schedule == [] {
    } else {
      var init, e := schedule[..|schedule| - 1], schedule[|schedule| - 1];
      var s := Run(Initial(total), init);
      Reachable(total, init);
      if !Unspoilt(s) {
        SpoiltForGood(s, e);
      }
      ReachableResults(total, init);
      EventKeepsResults(s, e);
    }
  }
}
