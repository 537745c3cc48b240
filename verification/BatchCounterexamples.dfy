/** Concrete schedules: what the batch protocol does not promise. */
module BatchCounterexamples {
  import opened BatchStatus
  import opened BatchProtocol
  import opened Wrappers
  import opened BatchSafety
  import opened BatchTheorems

  ghost predicate Reaches(s: State, t: State) {
    exists schedule :: Run(s, schedule) == t
  }

  lemma Stay(s: State)
    ensures Reaches(s, s)
  {
    assert Run(s, []) == s;
  }

  lemma Then(s: State, t: State, e: Event)
    requires Reaches(s, t)
    ensures Reaches(s, Next(t, e))
  {
    var schedule :| Run(s, schedule) == t;
    var longer := schedule + [e];
    assert longer[..|longer| - 1] == schedule;
    assert Run(s, longer) == Next(t, e);
  }

  /** One step of actor `a`. */
  lemma Step(s: State, t: State, a: ActorId, c: Choice) returns (u: State)
    requires Reaches(s, t)
    ensures Reaches(s, u) && u == Next(t, Act(a, c))
  {
    u := Next(t, Act(a, c));
    Then(s, t, Act(a, c));
  }

  function After(s: State, a: ActorId, c1: Choice, c2: Choice, c3: Choice): State {
    Next(Next(Next(s, Act(a, c1)), Act(a, c2)), Act(a, c3))
  }

  /** Three steps of actor `a`. */
  lemma Steps(s: State, t: State, a: ActorId, c1: Choice, c2: Choice, c3: Choice)
    requires Reaches(s, t)
    ensures Reaches(s, After(t, a, c1, c2, c3))
  {
    Then(s, t, Act(a, c1));
    Then(s, Next(t, Act(a, c1)), Act(a, c2));
    Then(s, Next(Next(t, Act(a, c1)), Act(a, c2)), Act(a, c3));
  }

  /** A step of a worker. */
  lemma WStep(t: State, a: ActorId, w: WPc, c: Choice) returns (u: State)
    requires PcOf(t, a) == W(w) && c != Crash
    ensures u == Next(t, Act(a, c)) == At(WorkerStep(t, a, w, c).0, a, WorkerStep(t, a, w, c).1)
  {
    u := Next(t, Act(a, c));
  }

  /** A step of a finalizer. */
  lemma FStep(t: State, a: ActorId, f: FPc, c: Choice) returns (u: State)
    requires PcOf(t, a) == F(f) && c != Crash
    ensures u == Next(t, Act(a, c)) == At(FinalizerStep(t, a, f, c).0, a, FinalizerStep(t, a, f, c).1)
  {
    u := Next(t, Act(a, c));
  }

  /** One more step: the actor stands at `pc` and its command has the outcome `(o, next)`. */
  lemma RestTo(s0: State, s: State, a: ActorId, c: Choice, o: State, next: Pc) returns (t: State)
    requires Reaches(s0, s) && (PcOf(s, a) == Idle || PcOf(s, a) == Unlock) && c != Crash
    requires ActorStep(s, a, PcOf(s, a), c) == (o, next)
    ensures Reaches(s0, t) && t == At(o, a, next)
  {
    t := Step(s0, s, a, c);
  }

  lemma FTo(s0: State, s: State, a: ActorId, f: FPc, c: Choice, o: State, next: Pc) returns (t: State)
    requires Reaches(s0, s) && PcOf(s, a) == F(f) && c != Crash && FinalizerStep(s, a, f, c) == (o, next)
    ensures Reaches(s0, t) && t == At(o, a, next)
  {
    t := Step(s0, s, a, c);
  }

  lemma CTo(s0: State, s: State, a: ActorId, r: CPc, c: Choice, o: State, next: Pc) returns (t: State)
    requires Reaches(s0, s) && PcOf(s, a) == C(r) && c != Crash && CancelReactorStep(s, a, r, c) == (o, next)
    ensures Reaches(s0, t) && t == At(o, a, next)
  {
    t := Step(s0, s, a, c);
  }

  lemma HTo(s0: State, s: State, a: ActorId, h: HPc, c: Choice, o: State, next: Pc) returns (t: State)
    requires Reaches(s0, s) && PcOf(s, a) == H(h) && c != Crash && CancelHandlerStep(s, a, h, c) == (o, next)
    ensures Reaches(s0, t) && t == At(o, a, next)
  {
    t := Step(s0, s, a, c);
  }

  /** An expirer that has listed the task locks it, reads its status, moves it to expired and unlocks. */
  lemma ExpirerRound(s0: State, s: State, a: ActorId) returns (t: State)
    requires Reaches(s0, s) && PcOf(s, a) == E(ELock) && s.lock == None
    ensures Reaches(s0, t) && t.lock == None
    ensures t.task.at == Moved(s.task.at, s.task.field, Expired)
    ensures t.task.field == if MoveSucceeds(s.task.at, s.task.field, Expired) then Expired else s.task.field
    ensures forall b :: b != a ==> PcOf(t, b) == PcOf(s, b)
  {
    var s1 := Step(s0, s, a, Go);
    assert s1 == At(s.(lock := Some(a)), a, E(ERead));
    var s2 := Step(s0, s1, a, Go);
    assert s2 == At(s1, a, E(EMove(s.task.field)));
    var s3 := Step(s0, s2, a, Go);
    assert s3 == At(MoveTask(s2, s.task.field, Expired, true), a, Unlock);
    t := Step(s0, s3, a, Go);
  }

  /**
   Two expirers list the same task.  The first moves it to expired; the second then reads the status
   expired, moves it from expired to expired, and the task is in no status set any more.
   */
  lemma ExpiredTwiceIsLost(total: nat)
    ensures exists s :: Reaches(Initial(total), s) && s.task.at == {}
  {
    var s0 := Initial(total);
    Stay(s0);
    var s1 := Step(s0, s0, 1, Begin(Expire));
    assert s1 == At(s0, 1, E(ELock));
    var s2 := Step(s0, s1, 2, Begin(Expire));
    assert s2 == At(s1, 2, E(ELock));
    var s3 := ExpirerRound(s0, s2, 1);
    MoveMeaning(s2.task.at, Pending, Expired);
    assert s3.task.at == {Expired};
    var s4 := ExpirerRound(s0, s3, 2);
    MoveMeaning(s3.task.at, Expired, Expired);
    assert s4.task.at == {};
  }

  // ---------------------------------------------------------------- a lost shard result

  /** A task with the single shard 0, and where three actors stand. */
  ghost predicate Scene(s: State, st: TaskStatus, lock: Option<ActorId>, shardLock: Option<ActorId>,
                        pending: set<ShardId>, running: set<ShardId>, completed: set<ShardId>, results: set<ShardId>,
                        pc1: Pc, pc2: Pc, pc3: Pc)
  {
    && s.total == 1 && s.task.at == {st} && s.task.field == st && s.lock == lock
    && (if shardLock.Some? then 0 in s.shardLock && s.shardLock[0] == shardLock.value else 0 !in s.shardLock)
    && s.shards.pending == pending && s.shards.running == running && s.shards.completed == completed
    && s.files.results == results
    && PcOf(s, 1) == pc1 && PcOf(s, 2) == pc2 && PcOf(s, 3) == pc3
  }

  lemma Validated() returns (t: State)
    ensures Reaches(Initial(1), t) && Scene(t, InProgress, None, None, {0}, {}, {}, {}, Idle, Idle, Idle)
  {
    var s0 := Initial(1);
    Stay(s0);
    assert Scene(s0, Pending, None, None, {}, {}, {}, {}, Idle, Idle, Idle);
    var s1 := Step(s0, s0, 3, Begin(Validate));
    var s2 := Step(s0, s1, 3, Go);
    var s3 := Step(s0, s2, 3, Go);
    assert Scene(s3, Pending, Some(3), None, {}, {}, {}, {}, Idle, Idle, V(VMove(Pending)));
    t := ValidatedSplit(s0, s3);
  }

  lemma ValidatedSplit(s0: State, s: State) returns (t: State)
    requires Reaches(s0, s) && Scene(s, Pending, Some(3), None, {}, {}, {}, {}, Idle, Idle, V(VMove(Pending)))
    ensures Reaches(s0, t) && Scene(t, InProgress, None, None, {0}, {}, {}, {}, Idle, Idle, Idle)
  {
    MoveMeaning({Pending}, Pending, Validating);
    var s1 := Step(s0, s, 3, Go);
    assert Scene(s1, Validating, Some(3), None, {}, {}, {}, {}, Idle, Idle, V(VSplit(0, Pending)));
    var s2 := Step(s0, s1, 3, Go);
    assert Scene(s2, Validating, Some(3), None, {0}, {}, {}, {}, Idle, Idle, V(VSplit(1, Pending)));
    var s3 := Step(s0, s2, 3, Go);
    assert Scene(s3, Validating, Some(3), None, {0}, {}, {}, {}, Idle, Idle, V(VFields(Pending)));
    t := ValidatedFinish(s0, s3);
  }

  lemma ValidatedFinish(s0: State, s: State) returns (t: State)
    requires Reaches(s0, s) && Scene(s, Validating, Some(3), None, {0}, {}, {}, {}, Idle, Idle, V(VFields(Pending)))
    ensures Reaches(s0, t) && Scene(t, InProgress, None, None, {0}, {}, {}, {}, Idle, Idle, Idle)
  {
    MoveMeaning({Validating}, Validating, InProgress);
    var s1 := Step(s0, s, 3, Go);
    var s2 := Step(s0, s1, 3, Go);
    assert Scene(s2, InProgress, Some(3), None, {0}, {}, {}, {}, Idle, Idle, Unlock);
    t := Step(s0, s2, 3, Go);
  }

  /** Worker 1 picks the task and shard 0. */
  lemma FirstWorkerTakes(s: State) returns (t: State)
    requires Scene(s, InProgress, None, None, {0}, {}, {}, {}, Idle, Idle, Idle)
    ensures t == After(s, 1, Begin(Work), Go, Take(0))
    ensures Scene(t, InProgress, None, None, {0}, {}, {}, {}, W(WLockShard(0)), Idle, Idle)
  {
    t := Next(s, Act(1, Begin(Work)));
    assert Scene(t, InProgress, None, None, {0}, {}, {}, {}, W(WPicked), Idle, Idle);
    t := WStep(t, 1, WPicked, Go);
    t := WStep(t, 1, WChoose, Take(0));
  }

  lemma FirstWorkerStarts(s: State) returns (t: State)
    requires Scene(s, InProgress, None, None, {0}, {}, {}, {}, W(WLockShard(0)), Idle, Idle)
    ensures t == After(s, 1, Go, Go, Go)
    ensures Scene(t, InProgress, None, Some(1), {}, {0}, {}, {}, W(WDelete(0)), Idle, Idle)
  {
    t := WStep(s, 1, WLockShard(0), Go);
    assert Scene(t, InProgress, None, Some(1), {0}, {}, {}, {}, W(WStart(0)), Idle, Idle);
    t := WStep(t, 1, WStart(0), Go);
    assert Scene(t, InProgress, None, Some(1), {}, {0}, {}, {}, W(WProcess(0)), Idle, Idle);
    t := WStep(t, 1, WProcess(0), Go);
  }

  /** Worker 1 writes the results of shard 0. */
  lemma FirstWorkerWrites(s: State) returns (t: State)
    requires Scene(s, InProgress, None, Some(1), {}, {0}, {}, {}, W(WDelete(0)), Idle, Idle)
    ensures t == After(s, 1, Go, Go, Go)
    ensures Scene(t, InProgress, None, Some(1), {}, {0}, {}, {0}, W(WDone(0)), Idle, Idle)
  {
    t := WStep(s, 1, WDelete(0), Go);
    assert Scene(t, InProgress, None, Some(1), {}, {0}, {}, {}, W(WRun(0)), Idle, Idle);
    t := WStep(t, 1, WRun(0), Go);
    assert Scene(t, InProgress, None, Some(1), {}, {0}, {}, {0}, W(WRecord(0)), Idle, Idle);
    t := WStep(t, 1, WRecord(0), Go);
  }

  /** Worker 2 finds no pending shard. */
  lemma SecondWorkerLooks(s: State) returns (t: State)
    requires Scene(s, InProgress, None, Some(1), {}, {0}, {}, {0}, W(WDone(0)), Idle, Idle)
    ensures t == After(s, 2, Begin(Work), Go, Go)
    ensures Scene(t, InProgress, None, Some(1), {}, {0}, {}, {0}, W(WDone(0)), W(WScan), Idle)
  {
    t := Next(s, Act(2, Begin(Work)));
    assert Scene(t, InProgress, None, Some(1), {}, {0}, {}, {0}, W(WDone(0)), W(WPicked), Idle);
    t := WStep(t, 2, WPicked, Go);
    t := WStep(t, 2, WChoose, Go);
  }

  /** Worker 1 completes shard 0 and releases its lock; `other` is where worker 2 stands. */
  lemma FirstWorkerReleases(s0: State, s: State, other: Pc) returns (t: State)
    requires Reaches(s0, s) && Scene(s, InProgress, None, Some(1), {}, {0}, {}, {0}, W(WDone(0)), other, Idle)
    ensures Reaches(s0, t) && Scene(t, InProgress, None, None, {}, {}, {0}, {0}, W(WCheck), other, Idle)
  {
    Then(s0, s, Act(1, Go));
    t := FirstWorkerLeaves(s, other);
    Then(s0, t, Act(1, Go));
    t := FirstWorkerUnlocks(t, other);
  }

  lemma FirstWorkerUnlocks(s: State, other: Pc) returns (t: State)
    requires Scene(s, InProgress, None, Some(1), {}, {}, {0}, {0}, W(WUnlockShard(0, true)), other, Idle)
    ensures t == Next(s, Act(1, Go))
    ensures Scene(t, InProgress, None, None, {}, {}, {0}, {0}, W(WCheck), other, Idle)
  {
    t := WStep(s, 1, WUnlockShard(0, true), Go);
  }

  lemma FirstWorkerLeaves(s: State, other: Pc) returns (t: State)
    requires Scene(s, InProgress, None, Some(1), {}, {0}, {}, {0}, W(WDone(0)), other, Idle)
    ensures t == Next(s, Act(1, Go))
    ensures Scene(t, InProgress, None, Some(1), {}, {}, {0}, {0}, W(WUnlockShard(0, true)), other, Idle)
  {
    t := WStep(s, 1, WDone(0), Go);
  }

  /** Worker 2 lists shard 0 as in progress. */
  lemma SecondWorkerScans(s0: State, s: State) returns (t: State)
    requires Reaches(s0, s) && Scene(s, InProgress, None, Some(1), {}, {0}, {}, {0}, W(WDone(0)), W(WScan), Idle)
    ensures Reaches(s0, t)
    ensures Scene(t, InProgress, None, Some(1), {}, {0}, {}, {0}, W(WDone(0)), W(WRecover({0})), Idle)
  {
    Then(s0, s, Act(2, Go));
    t := WStep(s, 2, WScan, Go);
  }

  /** Worker 2 takes the free lock of shard 0 and prepares to process it again. */
  lemma SecondWorkerRecovers(s: State) returns (t: State)
    requires Scene(s, InProgress, None, None, {}, {}, {0}, {0}, W(WCheck), W(WRecover({0})), Idle)
    ensures t == After(s, 2, Take(0), Go, Go)
    ensures Scene(t, InProgress, None, Some(2), {}, {}, {0}, {0}, W(WCheck), W(WDelete(0)), Idle)
  {
    t := SecondWorkerLocks(s);
    t := WStep(t, 2, WRecheck(0), Go);
    assert Scene(t, InProgress, None, Some(2), {}, {}, {0}, {0}, W(WCheck), W(WProcess(0)), Idle);
    t := WStep(t, 2, WProcess(0), Go);
  }

  lemma SecondWorkerLocks(s: State) returns (t: State)
    requires Scene(s, InProgress, None, None, {}, {}, {0}, {0}, W(WCheck), W(WRecover({0})), Idle)
    ensures t == Next(s, Act(2, Take(0)))
    ensures Scene(t, InProgress, None, Some(2), {}, {}, {0}, {0}, W(WCheck), W(WRecheck(0)), Idle)
  {
    t := WStep(s, 2, WRecover({0}), Take(0));
  }

  /** Worker 1 finds all shards completed and moves the task to finalizing. */
  lemma TaskFinalizes(s: State, held: Option<ActorId>, other: Pc) returns (t: State)
    requires Scene(s, InProgress, None, held, {}, {}, {0}, {0}, W(WCheck), other, Idle)
    ensures t == After(s, 1, Go, Go, Go)
    ensures Scene(t, Finalizing, Some(1), held, {}, {}, {0}, {0}, Unlock, other, Idle)
  {
    MoveMeaning({InProgress}, InProgress, Finalizing);
    t := WStep(s, 1, WCheck, Go);
    t := WStep(t, 1, WLockTask, Go);
    assert Scene(t, InProgress, Some(1), held, {}, {}, {0}, {0}, W(WMove), other, Idle);
    t := WStep(t, 1, WMove, Go);
  }

  /** The task lock is released; an expirer and a finalizer list the task. */
  lemma TaskListed(s0: State, s: State, held: Option<ActorId>, other: Pc) returns (t: State)
    requires Reaches(s0, s) && Scene(s, Finalizing, Some(1), held, {}, {}, {0}, {0}, Unlock, other, Idle)
    ensures Reaches(s0, t) && Scene(t, Finalizing, None, held, {}, {}, {0}, {0}, E(ELock), other, F(FLock))
  {
    var s1 := RestTo(s0, s, 1, Go, s.(lock := None), Idle);
    var s2 := RestTo(s0, s1, 1, Begin(Expire), s1, E(ELock));
    t := RestTo(s0, s2, 3, Begin(Finish), s2, F(FLock));
  }

  /** The finalizer takes the task lock. */
  lemma FinalizerLocks(s0: State, s: State, held: Option<ActorId>, other: Pc) returns (t: State)
    requires Reaches(s0, s) && Scene(s, Finalizing, None, held, {}, {}, {0}, {0}, E(ELock), other, F(FLock))
    ensures Reaches(s0, t) && Scene(t, Finalizing, Some(3), held, {}, {}, {0}, {0}, E(ELock), other, F(FMove))
  {
    Then(s0, s, Act(3, Go));
    t := FStep(s, 3, FLock, Go);
  }

  /** The finalizer moves the task to finalize and lists the completed shards. */
  lemma FinalizerLists(s0: State, s: State, held: Option<ActorId>, other: Pc) returns (t: State)
    requires Reaches(s0, s) && Scene(s, Finalizing, Some(3), held, {}, {}, {0}, {0}, E(ELock), other, F(FMove))
    ensures Reaches(s0, t) && Scene(t, Finalize, Some(3), held, {}, {}, {0}, {0}, E(ELock), other, F(FKeys({0})))
  {
    MoveMeaning({Finalizing}, Finalizing, Finalize);
    Then(s0, s, Act(3, Go));
    t := FStep(s, 3, FMove, Go);
    assert Scene(t, Finalize, Some(3), held, {}, {}, {0}, {0}, E(ELock), other, F(FList));
    Then(s0, t, Act(3, Go));
    t := FStep(t, 3, FList, Go);
  }

  /** The finalizer appends the results it finds, those of shard 0 or none. */
  lemma FinalizerAppends(s: State, held: Option<ActorId>, found: set<ShardId>, other: Pc) returns (t: State)
    requires Scene(s, Finalize, Some(3), held, {}, {}, {0}, found, E(ELock), other, F(FKeys({0}))) && found <= {0}
    ensures t == After(s, 3, Go, Take(0), Go)
    ensures Scene(t, Finalize, Some(3), held, {}, {}, {0}, found, E(ELock), other, F(FFields(found)))
  {
    t := FStep(s, 3, FKeys({0}), Go);
    t := FStep(t, 3, FAppend({0}, found, {}), Take(0));
    assert {0} - {0} == {};
    assert (if 0 in found then {} + {0} else {}) == found;
    t := FStep(t, 3, FAppend({}, found, found), Go);
  }

  lemma FinalizerCompletes(s: State, held: Option<ActorId>, found: set<ShardId>, other: Pc) returns (t: State)
    requires Scene(s, Finalize, Some(3), held, {}, {}, {0}, found, E(ELock), other, F(FFields(found)))
    ensures t == After(s, 3, Go, Go, Fail)
    ensures t.task.delivered == Some(found) && t.total == 1 && t.lock == Some(3)
    ensures t.task.at == {Completed} && t.task.field == Completed && PcOf(t, 1) == E(ELock) && PcOf(t, 3) == Unlock
  {
    MoveMeaning({Finalize}, Finalize, Completed);
    t := FStep(s, 3, FFields(found), Go);
    t := FStep(t, 3, FComplete, Go);
    t := FStep(t, 3, FClean(0), Fail);
  }

  lemma FinalizerUnlocks(s0: State, s: State) returns (t: State)
    requires Reaches(s0, s) && s.lock == Some(3) && PcOf(s, 3) == Unlock
    ensures Reaches(s0, t) && t == At(s.(lock := None), 3, Idle)
  {
    t := Step(s0, s, 3, Go);
  }

  /** The rest of a finalizer's round, from the point where it asks for the result files. */
  lemma FinalizerEnds(s0: State, s: State, held: Option<ActorId>, found: set<ShardId>, other: Pc) returns (t: State)
    requires Reaches(s0, s) && found <= {0}
    requires Scene(s, Finalize, Some(3), held, {}, {}, {0}, found, E(ELock), other, F(FKeys({0})))
    ensures Reaches(s0, t) && t.task.delivered == Some(found) && t.total == 1 && t.lock == None
    ensures t.task.at == {Completed} && t.task.field == Completed && PcOf(t, 1) == E(ELock)
  {
    Steps(s0, s, 3, Go, Take(0), Go);
    t := FinalizerAppends(s, held, found, other);
    Steps(s0, t, 3, Go, Go, Fail);
    t := FinalizerCompletes(t, held, found, other);
    t := FinalizerUnlocks(s0, t);
  }

  lemma ShardWritten() returns (t: State)
    ensures Reaches(Initial(1), t)
    ensures Scene(t, InProgress, None, Some(1), {}, {0}, {}, {0}, W(WDone(0)), Idle, Idle)
  {
    var s0 := Initial(1);
    t := Validated();
    Steps(s0, t, 1, Begin(Work), Go, Take(0));
    t := FirstWorkerTakes(t);
    Steps(s0, t, 1, Go, Go, Go);
    t := FirstWorkerStarts(t);
    Steps(s0, t, 1, Go, Go, Go);
    t := FirstWorkerWrites(t);
  }

  /** A finalizer holds the lock of a task in finalizing, with worker 2 about to delete the files of shard 0. */
  lemma StaleRecovery() returns (t: State)
    ensures Reaches(Initial(1), t)
    ensures Scene(t, Finalizing, Some(3), Some(2), {}, {}, {0}, {0}, E(ELock), W(WDelete(0)), F(FMove))
  {
    var s0 := Initial(1);
    t := ShardWritten();
    Steps(s0, t, 2, Begin(Work), Go, Go);
    t := SecondWorkerLooks(t);
    t := SecondWorkerScans(s0, t);
    t := FirstWorkerReleases(s0, t, W(WRecover({0})));
    Steps(s0, t, 2, Take(0), Go, Go);
    t := SecondWorkerRecovers(t);
    Steps(s0, t, 1, Go, Go, Go);
    t := TaskFinalizes(t, Some(2), W(WDelete(0)));
    t := TaskListed(s0, t, Some(2), W(WDelete(0)));
    t := FinalizerLocks(s0, t, Some(2), W(WDelete(0)));
  }

  lemma ResultsDeleted(s0: State, s: State) returns (t: State)
    requires Reaches(s0, s)
    requires Scene(s, Finalize, Some(3), Some(2), {}, {}, {0}, {0}, E(ELock), W(WDelete(0)), F(FKeys({0})))
    ensures Reaches(s0, t)
    ensures Scene(t, Finalize, Some(3), Some(2), {}, {}, {0}, {}, E(ELock), W(WRun(0)), F(FKeys({0})))
  {
    Then(s0, s, Act(2, Go));
    t := WStep(s, 2, WDelete(0), Go);
  }

  /** A task with one shard is recorded as completed although the result of that shard was not delivered. */
  lemma StaleRecoveryLosesResults()
    ensures exists s :: Reaches(Initial(1), s) && s.task.at == {Completed} && s.task.delivered == Some({})
                        && 0 in Shards(s.total)
  {
    var s0 := Initial(1);
    var s := StaleRecovery();
    s := FinalizerLists(s0, s, Some(2), W(WDelete(0)));
    s := ResultsDeleted(s0, s);
    s := FinalizerEnds(s0, s, Some(2), {}, W(WRun(0)));
  }

  // ---------------------------------------------------------------- an undisturbed run

  /** With one worker and one finalizer: the finalizer has the lock of a task in finalizing. */
  lemma AboutToFinalize() returns (t: State)
    ensures Reaches(Initial(1), t)
    ensures Scene(t, Finalizing, Some(3), None, {}, {}, {0}, {0}, E(ELock), Idle, F(FMove))
  {
    var s0 := Initial(1);
    t := ShardWritten();
    t := FirstWorkerReleases(s0, t, Idle);
    Steps(s0, t, 1, Go, Go, Go);
    t := TaskFinalizes(t, None, Idle);
    t := TaskListed(s0, t, None, Idle);
    t := FinalizerLocks(s0, t, None, Idle);
  }

  /** A task that has completed and delivered everything is moved to expired by an expirer that listed it earlier. */
  lemma CompletedTaskCanExpire()
    ensures exists s, t :: Reaches(Initial(1), s) && s.task.at == {Completed} && s.task.delivered == Some(Shards(1))
                           && Reaches(s, t) && t.task.at == {Expired}
  {
    var s0 := Initial(1);
    var s := AboutToFinalize();
    s := FinalizerLists(s0, s, None, Idle);
    s := FinalizerEnds(s0, s, None, {0}, Idle);
    assert Shards(1) == {0};
    var t := LateExpiryOf(s);
  }

  lemma LateExpiryOf(s: State) returns (t: State)
    requires s.task.at == {Completed} && s.task.field == Completed && s.lock == None && PcOf(s, 1) == E(ELock)
    ensures Reaches(s, t) && t.task.at == {Expired}
  {
    Stay(s);
    t := ExpirerRound(s, s, 1);
    MoveMeaning(s.task.at, Completed, Expired);
  }

  // ---------------------------------------------------------------- a finalizer's first move fails

  /** After the failed move the finalizer deletes the files and the shard sets of the task. */
  lemma FailedMoveWipes(s: State, a: ActorId) returns (t: State)
    requires PcOf(s, a) == F(FMove) && s.lock == Some(a) && s.task.at == {Finalizing}
    ensures Reaches(s, t) && PcOf(t, a) == Unlock && t.lock == Some(a)
    ensures t.task.at == {Finalizing} && t.shards.completed == {}
  {
    Stay(s);
    var s1 := FTo(s, s, a, FMove, Fail, Botch(s), F(FClean(0)));
    var s2 := FTo(s, s1, a, FClean(0), Go, CleanStage(s1, 0), F(FClean(1)));
    var s3 := FTo(s, s2, a, FClean(1), Go, CleanStage(s2, 1), F(FClean(2)));
    var s4 := FTo(s, s3, a, FClean(2), Go, CleanStage(s3, 2), F(FClean(3)));
    var s5 := FTo(s, s4, a, FClean(3), Go, CleanStage(s4, 3), F(FClean(4)));
    t := FTo(s, s5, a, FClean(4), Go, CleanStage(s5, 4), Unlock);
  }

  /** The next round of the finalizer finds no completed shard and records the task as completed. */
  lemma NextRoundLists(s0: State, s: State, a: ActorId) returns (t: State)
    requires Reaches(s0, s) && PcOf(s, a) == Unlock && s.lock == Some(a)
    requires s.task.at == {Finalizing} && s.shards.completed == {}
    ensures Reaches(s0, t) && PcOf(t, a) == F(FKeys({})) && t.task.at == {Finalize}
  {
    var s1 := RestTo(s0, s, a, Go, s.(lock := None), Idle);
    var s2 := RestTo(s0, s1, a, Begin(Finish), s1, F(FLock));
    t := NextRoundMoves(s0, s2, a);
  }

  lemma NextRoundMoves(s0: State, s: State, a: ActorId) returns (t: State)
    requires Reaches(s0, s) && PcOf(s, a) == F(FLock) && s.lock == None
    requires s.task.at == {Finalizing} && s.shards.completed == {}
    ensures Reaches(s0, t) && PcOf(t, a) == F(FKeys({})) && t.task.at == {Finalize}
  {
    MoveMeaning({Finalizing}, Finalizing, Finalize);
    var s1 := FTo(s0, s, a, FLock, Go, s.(lock := Some(a)), F(FMove));
    var s2 := FTo(s0, s1, a, FMove, Go, MoveTask(s1, Finalizing, Finalize, true), F(FList));
    t := FTo(s0, s2, a, FList, Go, if s2.total == 0 then s2 else LeaveOut(s2), F(FKeys({})));
  }

  lemma NextRoundCompletes(s0: State, s: State, a: ActorId) returns (t: State)
    requires Reaches(s0, s) && PcOf(s, a) == F(FKeys({})) && s.task.at == {Finalize}
    ensures Reaches(s0, t) && t.task.at == {Completed} && t.task.delivered == Some({})
  {
    var s1 := FTo(s0, s, a, FKeys({}), Go, s, F(FAppend({}, s.files.results, {})));
    var s2 := FTo(s0, s1, a, FAppend({}, s.files.results, {}), Go, s1, F(FFields({})));
    t := NextRoundRecords(s0, s2, a);
  }

  lemma NextRoundRecords(s0: State, s: State, a: ActorId) returns (t: State)
    requires Reaches(s0, s) && PcOf(s, a) == F(FFields({})) && s.task.at == {Finalize}
    ensures Reaches(s0, t) && t.task.at == {Completed} && t.task.delivered == Some({})
  {
    MoveMeaning({Finalize}, Finalize, Completed);
    var s1 := FTo(s0, s, a, FFields({}), Go, Deliver(s, {}), F(FComplete));
    t := FTo(s0, s1, a, FComplete, Go, MoveTask(s1, Finalize, Completed, false), F(FClean(0)));
  }

  lemma ReachesTrans(s: State, t: State, u: State)
    requires Reaches(s, t) && Reaches(t, u)
    ensures Reaches(s, u)
  {
    var first :| Run(s, first) == t;
    var second :| Run(t, second) == u;
    RunConcat(s, first, second);
  }

  lemma {:induction false} RunConcat(s: State, first: seq<Event>, second: seq<Event>)
    ensures Run(s, first + second) == Run(Run(s, first), second)
    decreases |second|
  {
    if second == [] {
      assert first + second == first;
    } else {
      var init := second[..|second| - 1];
      RunConcat(s, first, init);
      assert (first + second)[..|first + second| - 1] == first + init;
    }
  }

  /**
   In any schedule at all, a finalizer whose first move hits a store error can lose every result: the
   completed set is emptied while the task is in finalizing, and the task then completes with no output.
   */
  lemma FailedFirstMoveLosesAll(total: nat, schedule: seq<Event>, a: ActorId)
    requires var s := Run(Initial(total), schedule); PcOf(s, a) == F(FMove) && Finalizing in s.task.at
    ensures exists t :: Reaches(Run(Initial(total), schedule), t)
                        && t.task.at == {Finalizing} && t.shards.completed == {}
    ensures exists t :: Reaches(Run(Initial(total), schedule), t)
                        && t.task.at == {Completed} && t.task.delivered == Some({})
  {
    var s := Run(Initial(total), schedule);
    Reachable(total, schedule);
    assert PcOk(s, a, PcOf(s, a));
    assert s.task.at == {Finalizing};
    var t := FailedMoveWipes(s, a);
    var u := NextRoundLists(s, t, a);
    u := NextRoundCompletes(s, u, a);
  }

  /** Such a run from the start: a task with one shard completes without the result of that shard. */
  lemma FailedFirstMoveFromInitial()
    ensures exists s :: Reaches(Initial(1), s) && s.task.at == {Completed} && s.task.delivered == Some({})
                        && 0 in Shards(s.total)
  {
    var s := AboutToFinalize();
    var schedule :| Run(Initial(1), schedule) == s;
    FailedFirstMoveLosesAll(1, schedule, 3);
    var t :| Reaches(s, t) && t.task.at == {Completed} && t.task.delivered == Some({});
    ReachesTrans(Initial(1), s, t);
    var more :| Run(Initial(1), more) == t;
    TotalIsFixed(1, more);
  }

  // ---------------------------------------------------------------- a shard that cannot be cancelled

  /** The task is cancelled by its user while shard 0 is pending. */
  lemma CancelRequested() returns (t: State)
    ensures Reaches(Initial(1), t) && Scene(t, Cancelling, None, None, {0}, {}, {}, {}, Idle, Idle, Idle)
  {
    var s0 := Initial(1);
    var s := Validated();
    var s1 := RestTo(s0, s, 1, Begin(CancelRequest), s, H(HLock));
    var s2 := HTo(s0, s1, 1, HLock, Go, s1.(lock := Some(1)), H(HRead));
    t := CancelHandled(s0, s2);
  }

  lemma CancelHandled(s0: State, s: State) returns (t: State)
    requires Reaches(s0, s) && Scene(s, InProgress, Some(1), None, {0}, {}, {}, {}, H(HRead), Idle, Idle)
    ensures Reaches(s0, t) && Scene(t, Cancelling, None, None, {0}, {}, {}, {}, Idle, Idle, Idle)
  {
    MoveMeaning({InProgress}, InProgress, Cancelling);
    var s1 := HTo(s0, s, 1, HRead, Go, s, H(HMove(InProgress)));
    var s2 := HTo(s0, s1, 1, HMove(InProgress), Go, MoveTask(s1, InProgress, Cancelling, true), Unlock);
    t := RestTo(s0, s2, 1, Go, s2.(lock := None), Idle);
  }

  /** The cancel reactor lists the pending shards. */
  lemma CancelLists(s0: State, s: State) returns (t: State)
    requires Reaches(s0, s) && Scene(s, Cancelling, None, None, {0}, {}, {}, {}, Idle, Idle, Idle)
    ensures Reaches(s0, t) && Scene(t, Cancelling, Some(3), None, {0}, {}, {}, {}, Idle, Idle, C(CFail({0}, {})))
  {
    var s1 := RestTo(s0, s, 3, Begin(CancelTask), s, C(CLock));
    var s2 := CTo(s0, s1, 3, CLock, Go, s1.(lock := Some(3)), C(CCheckValidating));
    var s3 := CTo(s0, s2, 3, CCheckValidating, Go, s2, C(CCheckInProgress));
    t := CancelListsPending(s0, s3);
  }

  lemma CancelListsPending(s0: State, s: State) returns (t: State)
    requires Reaches(s0, s)
    requires Scene(s, Cancelling, Some(3), None, {0}, {}, {}, {}, Idle, Idle, C(CCheckInProgress))
    ensures Reaches(s0, t) && Scene(t, Cancelling, Some(3), None, {0}, {}, {}, {}, Idle, Idle, C(CFail({0}, {})))
  {
    var s1 := CTo(s0, s, 3, CCheckInProgress, Go, s, C(CList));
    t := CTo(s0, s1, 3, CList, Go, s1, C(CFail({0}, {})));
  }

  /** The cancel reactor cannot move shard 0, goes on, and starts to clean up while the shard is pending. */
  lemma CleanUpCanStartUndrained()
    ensures exists s :: Reaches(Initial(1), s) && PcOf(s, 3) == C(CClean(0, {0})) && s.shards.pending == {0}
  {
    var s0 := Initial(1);
    var s := CancelRequested();
    s := CancelLists(s0, s);
    s := CancelGivesUp(s0, s);
  }

  lemma CancelGivesUp(s0: State, s: State) returns (t: State)
    requires Reaches(s0, s) && PcOf(s, 3) == C(CFail({0}, {})) && s.shards.pending == {0} && s.shards.running == {}
    ensures Reaches(s0, t) && PcOf(t, 3) == C(CClean(0, {0})) && t.shards.pending == {0}
  {
    assert {0} - {0} == {} && {} + {0} == {0};
    var s1 := CTo(s0, s, 3, CFail({0}, {}), Skip(0), s, C(CFail({}, {0})));
    var s2 := CTo(s0, s1, 3, CFail({}, {0}), Go, s1, C(CListRunning({0})));
    t := CTo(s0, s2, 3, CListRunning({0}), Go, s2, C(CClean(0, {0})));
  }
}
