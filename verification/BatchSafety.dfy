/** What every event of the batch protocol keeps, for any number of actors and any interleaving. */
module BatchSafety {
  import opened BatchStatus
  import opened BatchProtocol
  import opened Wrappers

  // ---------------------------------------------------------------- shard moves

  datatype ShardSet = PendingSet | RunningSet | CompletedSet | FailedSet

  /** The shard sets that hold `x`. */
  function ShardAt(h: ShardSets, x: ShardId): set<ShardSet> {
    (if x in h.pending then {PendingSet} else {}) + (if x in h.running then {RunningSet} else {})
    + (if x in h.completed then {CompletedSet} else {}) + (if x in h.failed then {FailedSet} else {})
  }

  /** On disjoint shard sets the shard commands of the protocol are the move script, and touch one shard only. */
  lemma ShardMovesAreScript(h: ShardSets, total: nat, x: ShardId, y: ShardId)
    requires ShardSetsOk(h, total)
    ensures ShardAt(EnterRunning(h, x), x) == Moved(ShardAt(h, x), PendingSet, RunningSet)
    ensures ShardAt(LeaveRunning(h, x, true), x) == Moved(ShardAt(h, x), RunningSet, CompletedSet)
    ensures ShardAt(LeaveRunning(h, x, false), x) == Moved(ShardAt(h, x), RunningSet, FailedSet)
    ensures ShardAt(FailPending(h, x), x) == Moved(ShardAt(h, x), PendingSet, FailedSet)
    ensures y != x ==>
              && ShardAt(EnterRunning(h, x), y) == ShardAt(h, y) == ShardAt(FailPending(h, x), y)
              && ShardAt(LeaveRunning(h, x, true), y) == ShardAt(h, y) == ShardAt(LeaveRunning(h, x, false), y)
  {
    MoveMeaning(ShardAt(h, x), PendingSet, RunningSet);
    MoveMeaning(ShardAt(h, x), RunningSet, CompletedSet);
    MoveMeaning(ShardAt(h, x), RunningSet, FailedSet);
    MoveMeaning(ShardAt(h, x), PendingSet, FailedSet);
  }

  // ---------------------------------------------------------------- invariant

  /** No status set below rank `k` holds the task. */
  ghost predicate Beyond(at: set<TaskStatus>, k: nat) {
    forall x :: x in at ==> Rank(x) >= k
  }

  ghost predicate Drained(h: ShardSets) {
    h.pending == {} && h.running == {}
  }

  ghost predicate ShardSetsOk(h: ShardSets, total: nat) {
    && h.pending !! h.running && h.pending !! h.completed && h.pending !! h.failed
    && h.running !! h.completed && h.running !! h.failed && h.completed !! h.failed
    && h.pending <= Shards(total) && h.failed <= Shards(total)
    && h.running <= h.entered && h.entered !! h.pending
    && h.left <= h.entered <= Shards(total) && h.left !! h.running && h.completed <= h.left
  }

  ghost predicate Untouched(h: ShardSets) {
    h.running == {} && h.completed == {} && h.failed == {} && h.entered == {} && h.left == {}
  }

  /** The completed set of a task in finalizing: all shards, or none once a finalizer has wiped it. */
  function Listed(s: State): set<ShardId> {
    if s.log.wiped then {} else Shards(s.total)
  }

  predicate Finished(at: set<TaskStatus>) {
    Finalizing in at || Finalize in at || Completed in at
  }

  /** What the status of the task says about its shards. */
  ghost predicate PhaseOk(s: State) {
    && (Pending in s.task.at ==> s.shards.pending == {} && Untouched(s.shards))
    && (Validating in s.task.at ==> Untouched(s.shards))
    && (s.task.voided ==> s.task.at <= {Failed, Expired} && Untouched(s.shards))
    && (InProgress in s.task.at ==> Spread(s.shards, s.total))
    && (Finalizing in s.task.at ==> Drained(s.shards) && s.shards.failed == {} && s.shards.completed == Listed(s))
    && (Finished(s.task.at) ==> s.shards.left == Shards(s.total))
    && (s.log.wiped ==> s.log.botched && Beyond(s.task.at, 3))
    && (s.task.field == Validating ==> ValidationOpen(s.task))
  }

  /** Every shard of the input is pending, running or completed. */
  ghost predicate Spread(h: ShardSets, total: nat) {
    h.pending + h.running + h.completed == Shards(total) && h.failed == {}
  }

  /** The task is in at most one set; every move went up; the task is in no set iff a self-move dropped it. */
  ghost predicate StatusOk(task: Task, log: Log) {
    && (forall x, y :: x in task.at && y in task.at ==> x == y)
    && (forall x :: x in task.at ==> task.moves <= Rank(x))
    && task.moves <= 8
    && (log.dropped <==> task.at == {})
  }

  /** The part of the invariant that names no actor. */
  ghost predicate Shared(s: State) {
    ShardSetsOk(s.shards, s.total) && PhaseOk(s) && StatusOk(s.task, s.log)
  }

  /** The task is being validated, or its input was rejected and a late validator does not know yet. */
  ghost predicate ValidationOpen(task: Task) {
    Validating in task.at || task.voided
  }

  ghost predicate VOk(s: State, pc: VPc) {
    match pc
    case VLock => true
    case VRead => true
    case VMove(_) => true
    case VClean(stage, _) => ValidationOpen(s.task) && (stage > 1 ==> s.shards.pending == {})
    case VSplit(next, _) => ValidationOpen(s.task) && next <= s.total && s.shards.pending == Shards(next)
    case VFields(_) => ValidationOpen(s.task) && s.shards.pending == Shards(s.total)
    case VFinish => ValidationOpen(s.task) && s.shards.pending == Shards(s.total)
    case VFailField => ValidationOpen(s.task)
    case VFailMove => ValidationOpen(s.task)
  }

  ghost predicate WOk(s: State, pc: WPc) {
    && Beyond(s.task.at, 2) && !s.task.voided
    && (pc.WAbandon? ==> Beyond(s.task.at, 3))
    && (pc.WLockTask? || pc.WMove? ==> Drained(s.shards))
  }

  ghost predicate COk(s: State, pc: CPc) {
    && Beyond(s.task.at, 5) && !s.task.voided
    && (pc.CFail? ==> s.shards.pending <= pc.todo + pc.kept)
    && (pc.CListRunning? ==> s.shards.pending <= pc.kept)
    && (pc.CClean? ==> s.shards.pending + s.shards.running <= pc.kept)
  }

  /** Finalization is under way: the task has been moved to finalize and not yet cleaned. */
  predicate Assembling(pc: FPc) {
    pc.FList? || pc.FKeys? || pc.FAppend? || pc.FFields? || pc.FComplete?
  }

  ghost predicate FOk(s: State, pc: FPc) {
    && Beyond(s.task.at, 3) && !s.task.voided && Drained(s.shards)
    && (pc.FClean? ==> Beyond(s.task.at, 4) || s.log.botched)
    && (Assembling(pc) ==> Finalize in s.task.at && s.shards.completed == Listed(s))
  }

  ghost predicate RoleOk(s: State, pc: Pc) {
    match pc
    case Idle => true
    case Unlock => true
    case V(v) => VOk(s, v)
    case W(w) => WOk(s, w)
    case H(h) => h.HMove? ==> Cancellable(h.from)
    case C(c) => COk(s, c)
    case E(_) => true
    case F(f) => FOk(s, f)
  }

  ghost predicate PcOk(s: State, a: ActorId, pc: Pc) {
    && (HoldsTask(pc) ==> s.lock == Some(a))
    && (var held := ShardHeld(pc); held.Some? ==> held.value in s.shardLock && s.shardLock[held.value] == a)
    && RoleOk(s, pc)
  }

  ghost predicate Inv(s: State) {
    && Shared(s)
    && forall a :: PcOk(s, a, PcOf(s, a))
  }

  /** What one actor may use of the invariant: the shared state and its own position. */
  ghost predicate Local(s: State, a: ActorId, pc: Pc) {
    Shared(s) && PcOk(s, a, pc)
  }

  // ---------------------------------------------------------------- what a step of `a` leaves to the others

  ghost predicate LockedPartKept(s: State, t: State, a: ActorId) {
    s.lock.Some? && s.lock.value != a ==>
      && t.lock == s.lock && t.task == s.task && t.log.wiped == s.log.wiped
      && (ValidationOpen(s.task) ==> t.shards.pending == s.shards.pending)
      && (Finalize in s.task.at && Drained(s.shards) ==> t.shards.completed == s.shards.completed)
  }

  ghost predicate ShardLocksKept(s: State, t: State, a: ActorId) {
    forall x :: x in s.shardLock && s.shardLock[x] != a ==> x in t.shardLock && t.shardLock[x] == s.shardLock[x]
  }

  ghost predicate NeverBack(s: State, t: State) {
    && (forall k :: Beyond(s.task.at, k) ==> Beyond(t.task.at, k))
    && (Beyond(s.task.at, 2) && !s.task.voided ==> !t.task.voided && ShardsAdvance(s.shards, t.shards))
  }

  ghost predicate ShardsAdvance(h: ShardSets, g: ShardSets) {
    g.pending <= h.pending && g.running <= h.running + h.pending
  }

  /** A shard that enters in_progress never entered before, one that leaves it never left before. */
  ghost predicate HistoryKept(h: ShardSets, g: ShardSets) {
    && g.entered == h.entered + (g.running - h.running) && (g.running - h.running) !! h.entered
    && g.left == h.left + (h.running - g.running) && (h.running - g.running) !! h.left
  }

  ghost predicate LogKept(before: Log, after: Log) {
    && (before.erased ==> after.erased) && (before.botched ==> after.botched) && (before.wiped ==> after.wiped)
  }

  /** The status sets are left alone, or the task moves strictly up, or a self-move drops it. */
  ghost predicate StatusStep(s: State, t: State) {
    || (t.task.at == s.task.at && t.log.dropped == s.log.dropped)
    || (s.task.at == {Expired} && t.task.at == {} && t.log.dropped)
    || (s.task.at != {} && t.task.at != {} && t.log.dropped == s.log.dropped
        && forall x, y :: x in s.task.at && y in t.task.at ==> Rank(x) < Rank(y))
  }

  /** What every event does to the history of the task. */
  ghost predicate Advances(s: State, t: State) {
    t.total == s.total && HistoryKept(s.shards, t.shards) && LogKept(s.log, t.log) && StatusStep(s, t)
  }

  /** The effect of a step of `a` on the shared state, its position aside. */
  ghost predicate Effect(s: State, t: State, a: ActorId) {
    && t.pcs == s.pcs && Advances(s, t)
    && LockedPartKept(s, t, a) && ShardLocksKept(s, t, a) && NeverBack(s, t)
    && Shared(t)
  }

  lemma OthersKeep(s: State, t: State, a: ActorId, b: ActorId)
    requires Effect(s, t, a) && a != b && PcOk(s, b, PcOf(s, b))
    ensures PcOk(t, b, PcOf(s, b))
  {
    if PcOf(s, b).C? || PcOf(s, b).F? {
      assert Beyond(s.task.at, 2);
    }
  }

  /** An effect followed by a change of the actor's position keeps the invariant. */
  lemma Settle(s: State, t: State, a: ActorId, pc: Pc)
    requires Inv(s) && Effect(s, t, a) && PcOk(t, a, pc)
    ensures Inv(At(t, a, pc))
  {
    var u := At(t, a, pc);
    forall b
      ensures PcOk(u, b, PcOf(u, b))
    {
      if b != a {
        assert PcOk(s, b, PcOf(s, b));
        OthersKeep(s, t, a, b);
        SamePcOk(t, u, b, PcOf(s, b));
      } else {
        SamePcOk(t, u, a, pc);
      }
    }
  }

  lemma SamePcOk(t: State, u: State, b: ActorId, pc: Pc)
    requires PcOk(t, b, pc) && u == t.(pcs := u.pcs)
    ensures PcOk(u, b, pc)
  {
  }

  /** A command that keeps the shared invariant, respects the other actors and leaves its own actor in place. */
  ghost predicate Sound(s: State, a: ActorId, o: Outcome) {
    Effect(s, o.0, a) && PcOk(o.0, a, o.1)
  }

  lemma NoEffect(s: State, a: ActorId)
    requires Shared(s)
    ensures Effect(s, s, a)
  {
  }

  // ---------------------------------------------------------------- effects of the commands

  lemma AcquireEffect(s: State, a: ActorId)
    requires Shared(s) && s.lock == None
    ensures Effect(s, s.(lock := Some(a)), a)
  {
  }

  lemma ReleaseEffect(s: State, a: ActorId)
    requires Shared(s) && s.lock == Some(a)
    ensures Effect(s, s.(lock := None), a)
  {
  }

  lemma AcquireOk(s: State, a: ActorId, next: Pc)
    requires Shared(s) && PcOk(s.(lock := Some(a)), a, next)
    ensures Sound(s, a, AcquireTask(s, a, next))
  {
    if s.lock == None {
      AcquireEffect(s, a);
    } else {
      NoEffect(s, a);
    }
  }

  /** A move by the lock holder, with what the new status claims about the shards. */
  lemma MoveEffect(s: State, a: ActorId, from: TaskStatus, to: TaskStatus, withField: bool)
    requires Shared(s) && s.lock == Some(a)
    requires Rank(from) < Rank(to) || from == to == Expired
    requires to != Pending && to != Validating && to != Failed
    requires from in s.task.at && to == InProgress ==> s.shards.pending == Shards(s.total)
    requires from in s.task.at && to == Finalizing ==> s.shards.completed == Shards(s.total) && !s.log.wiped
    requires to == Finalize || to == Completed ==> from == Finalizing || from == Finalize
    requires from == Failed ==> to == Expired
    requires withField || from == Finalize
    ensures Effect(s, MoveTask(s, from, to, withField), a)
  {
    MoveMeaning(s.task.at, from, to);
    MoveStatus(s, from, to, withField);
    if from in s.task.at {
      MovePhase(s, from, to, withField);
    }
  }

  lemma MoveStatus(s: State, from: TaskStatus, to: TaskStatus, withField: bool)
    requires StatusOk(s.task, s.log) && (Rank(from) < Rank(to) || from == to == Expired)
    ensures var t := MoveTask(s, from, to, withField);
            StatusOk(t.task, t.log) && StatusStep(s, t) && forall k :: Beyond(s.task.at, k) ==> Beyond(t.task.at, k)
  {
    MoveMeaning(s.task.at, from, to);
    if from in s.task.at {
      HeldMoves(s, from, to, withField);
    }
  }

  /** The move of a task that is in the source set. */
  lemma HeldMoves(s: State, from: TaskStatus, to: TaskStatus, withField: bool)
    requires StatusOk(s.task, s.log) && from in s.task.at && (Rank(from) < Rank(to) || from == to == Expired)
    ensures var t := MoveTask(s, from, to, withField);
            StatusOk(t.task, t.log) && StatusStep(s, t) && forall k :: Beyond(s.task.at, k) ==> Beyond(t.task.at, k)
  {
    var t := MoveTask(s, from, to, withField);
    MoveMeaning(s.task.at, from, to);
    assert s.task.at == {from};
    assert t.task.at == if from == to then {} else {to};
    assert t.task.moves == s.task.moves + 1;
  }

  lemma MovePhase(s: State, from: TaskStatus, to: TaskStatus, withField: bool)
    requires ShardSetsOk(s.shards, s.total) && PhaseOk(s) && s.task.at == {from}
    requires Rank(from) < Rank(to) || from == to == Expired
    requires to != Pending && to != Validating && to != Failed
    requires to == InProgress ==> s.shards.pending == Shards(s.total)
    requires to == Finalizing ==> s.shards.completed == Shards(s.total) && !s.log.wiped
    requires to == Finalize || to == Completed ==> from == Finalizing || from == Finalize
    requires from == Failed ==> to == Expired
    requires withField || from == Finalize
    ensures PhaseOk(MoveTask(s, from, to, withField))
  {
    MoveMeaning(s.task.at, from, to);
  }

  lemma MoveAndUnlockOk(s: State, a: ActorId, from: TaskStatus, to: TaskStatus, c: Choice)
    requires Shared(s) && s.lock == Some(a)
    requires Rank(from) < Rank(to) || from == to == Expired
    requires to != Pending && to != Validating && to != Failed
    requires from in s.task.at && to == InProgress ==> s.shards.pending == Shards(s.total)
    requires from in s.task.at && to == Finalizing ==> s.shards.completed == Shards(s.total) && !s.log.wiped
    requires to != Finalize && to != Completed
    requires from == Failed ==> to == Expired
    ensures Sound(s, a, MoveAndUnlock(s, from, to, c))
  {
    if c == Fail {
      NoEffect(s, a);
    } else {
      MoveEffect(s, a, from, to, true);
    }
  }

  lemma StartEffect(s: State, a: ActorId)
    requires Shared(s) && s.lock == Some(a)
    ensures Effect(s, MoveTask(s, Pending, Validating, true), a)
  {
    MoveMeaning(s.task.at, Pending, Validating);
  }

  lemma RejectEffect(s: State, a: ActorId)
    requires Shared(s) && s.lock == Some(a)
    ensures Effect(s, Rejected(s), a)
  {
    MoveMeaning(s.task.at, Validating, Failed);
  }

  lemma FieldEffect(s: State, a: ActorId, st: TaskStatus, delivered: Option<set<ShardId>>)
    requires Shared(s) && s.lock == Some(a)
    requires st == Validating ==> ValidationOpen(s.task)
    ensures Effect(s, s.(task := s.task.(field := st, delivered := delivered)), a)
  {
  }

  lemma FilesEffect(s: State, a: ActorId, files: Files)
    requires Shared(s)
    ensures Effect(s, s.(files := files), a)
  {
  }

  lemma DeleteEffect(s: State, a: ActorId, x: ShardId)
    requires Shared(s)
    ensures Effect(s, DeleteResults(s, x), a)
  {
  }

  lemma BotchEffect(s: State, a: ActorId)
    requires Shared(s)
    ensures Effect(s, Botch(s), a)
  {
  }

  /** Clean-up is under way: of a task being validated again, or of one that is past in_progress. */
  ghost predicate MayClean(s: State) {
    ValidationOpen(s.task) || (Beyond(s.task.at, 3) && (Finalizing in s.task.at ==> s.log.botched))
  }

  lemma ForgetRunningEffect(s: State, a: ActorId)
    requires Shared(s) && s.lock == Some(a) && MayClean(s)
    ensures Effect(s, CleanStage(s, 2), a)
  {
  }

  lemma ForgetCompletedEffect(s: State, a: ActorId)
    requires Shared(s) && s.lock == Some(a) && MayClean(s)
    ensures Effect(s, CleanStage(s, 3), a)
  {
  }

  lemma ForgetEffect(s: State, t: State, a: ActorId)
    requires Shared(s) && s.lock == Some(a) && MayClean(s)
    requires t == s.(shards := s.shards.(pending := t.shards.pending, failed := t.shards.failed))
    requires t.shards.pending <= s.shards.pending && t.shards.failed <= s.shards.failed
    ensures Effect(s, t, a)
  {
  }

  lemma CleanEffect(s: State, a: ActorId, stage: nat)
    requires Shared(s) && s.lock == Some(a) && MayClean(s)
    ensures Effect(s, CleanStage(s, stage), a)
  {
    if stage == 0 { FilesEffect(s, a, Files({}, {})); }
    else if stage == 2 { ForgetRunningEffect(s, a); }
    else if stage == 3 { ForgetCompletedEffect(s, a); }
    else { ForgetEffect(s, CleanStage(s, stage), a); }
  }

  ghost predicate Late(s: State) {
    Shared(s) && Beyond(s.task.at, 2) && !s.task.voided
  }

  lemma ShardLockEffect(s: State, a: ActorId, x: ShardId)
    requires Late(s) && (x in s.shardLock ==> s.shardLock[x] == a)
    ensures Effect(s, LockShard(s, a, x), a)
  {
  }

  lemma ShardUnlockEffect(s: State, a: ActorId, x: ShardId)
    requires Late(s)
    ensures Effect(s, UnlockShard(s, a, x), a)
  {
  }

  lemma EnterEffect(s: State, a: ActorId, x: ShardId)
    requires Late(s)
    ensures Effect(s, s.(shards := EnterRunning(s.shards, x)), a)
  {
    EnterSets(s.shards, s.total, x);
  }

  lemma EnterSets(h: ShardSets, total: nat, x: ShardId)
    requires ShardSetsOk(h, total)
    ensures var g := EnterRunning(h, x);
            && ShardSetsOk(g, total) && HistoryKept(h, g) && ShardsAdvance(h, g)
            && g.pending + g.running == h.pending + h.running
  {
    var g := EnterRunning(h, x);
    assert h.running - g.running == {};
    assert g.running - h.running == if x in h.pending then {x} else {};
  }

  lemma LeaveEffect(s: State, a: ActorId, x: ShardId, ok: bool)
    requires Late(s) && (ok || Beyond(s.task.at, 3))
    ensures Effect(s, s.(shards := LeaveRunning(s.shards, x, ok)), a)
  {
    LeaveSets(s.shards, s.total, x, ok);
  }

  lemma LeaveSets(h: ShardSets, total: nat, x: ShardId, ok: bool)
    requires ShardSetsOk(h, total)
    ensures var g := LeaveRunning(h, x, ok);
            && ShardSetsOk(g, total) && HistoryKept(h, g) && ShardsAdvance(h, g)
            && (ok ==> g.running + g.completed == h.running + h.completed)
  {
  }

  lemma FailPendingEffect(s: State, a: ActorId, x: ShardId)
    requires Late(s) && Beyond(s.task.at, 5)
    ensures Effect(s, s.(shards := FailPending(s.shards, x)), a)
  {
    FailSets(s.shards, s.total, x);
  }

  lemma FailSets(h: ShardSets, total: nat, x: ShardId)
    requires ShardSetsOk(h, total)
    ensures var g := FailPending(h, x); ShardSetsOk(g, total) && HistoryKept(h, g) && ShardsAdvance(h, g)
  {
  }

  // ---------------------------------------------------------------- validator

  lemma ValidatorReads(s: State, a: ActorId, pc: VPc, c: Choice)
    requires Local(s, a, V(pc)) && (pc.VLock? || pc.VRead?)
    ensures Sound(s, a, ValidatorStep(s, a, pc, c))
  {
    if pc.VLock? {
      AcquireOk(s, a, V(VRead));
    } else {
      NoEffect(s, a);
    }
  }

  lemma ValidatorStarts(s: State, a: ActorId, pc: VPc, c: Choice)
    requires Local(s, a, V(pc)) && pc.VMove?
    ensures Sound(s, a, ValidatorStep(s, a, pc, c))
  {
    NoEffect(s, a);
    StartEffect(s, a);
    MoveMeaning(s.task.at, Pending, Validating);
  }

  lemma ValidatorCleans(s: State, a: ActorId, pc: VPc, c: Choice)
    requires Local(s, a, V(pc)) && pc.VClean?
    ensures Sound(s, a, ValidatorStep(s, a, pc, c))
  {
    if c == Fail {
      NoEffect(s, a);
    } else {
      CleanEffect(s, a, pc.stage);
      CleanShrinks(s, pc.stage);
    }
  }

  lemma SplitEffect(s: State, a: ActorId, next: nat)
    requires Shared(s) && s.lock == Some(a) && ValidationOpen(s.task) && next < s.total
    ensures Effect(s, Enqueue(s, next), a)
  {
  }

  lemma ValidatorSplits(s: State, a: ActorId, pc: VPc, c: Choice)
    requires Local(s, a, V(pc)) && pc.VSplit?
    ensures Sound(s, a, ValidatorStep(s, a, pc, c))
  {
    if c != Fail && c != Alternative && pc.next < s.total {
      SplitEffect(s, a, pc.next);
    } else {
      NoEffect(s, a);
    }
  }

  lemma ValidatorFinishes(s: State, a: ActorId, pc: VPc, c: Choice)
    requires Local(s, a, V(pc)) && (pc.VFields? || pc.VFinish?)
    ensures Sound(s, a, ValidatorStep(s, a, pc, c))
  {
    if pc.VFinish? {
      MoveAndUnlockOk(s, a, Validating, InProgress, c);
    } else {
      NoEffect(s, a);
      FieldEffect(s, a, pc.seen, s.task.delivered);
    }
  }

  lemma ValidatorRejects(s: State, a: ActorId, pc: VPc, c: Choice)
    requires Local(s, a, V(pc)) && (pc.VFailField? || pc.VFailMove?)
    ensures Sound(s, a, ValidatorStep(s, a, pc, c))
  {
    NoEffect(s, a);
    if pc.VFailField? {
      FieldEffect(s, a, Failed, s.task.delivered);
    } else {
      RejectEffect(s, a);
    }
  }

  // ---------------------------------------------------------------- shard worker

  lemma WorkerLooks(s: State, a: ActorId, pc: WPc, c: Choice)
    requires Local(s, a, W(pc)) && (pc.WPicked? || pc.WChoose? || pc.WScan?)
    ensures Sound(s, a, WorkerStep(s, a, pc, c))
  {
    NoEffect(s, a);
  }

  lemma WorkerRechecks(s: State, a: ActorId, pc: WPc, c: Choice)
    requires Local(s, a, W(pc)) && (pc.WRecheck? || pc.WProcess?)
    ensures Sound(s, a, WorkerStep(s, a, pc, c))
  {
    NoEffect(s, a);
  }

  lemma WorkerLocks(s: State, a: ActorId, pc: WPc, c: Choice)
    requires Local(s, a, W(pc)) && pc.WLockShard?
    ensures Sound(s, a, WorkerStep(s, a, pc, c))
  {
    if c == Fail || pc.shard in s.shardLock {
      NoEffect(s, a);
    } else {
      ShardLockEffect(s, a, pc.shard);
    }
  }

  lemma WorkerStarts(s: State, a: ActorId, pc: WPc, c: Choice)
    requires Local(s, a, W(pc)) && pc.WStart?
    ensures Sound(s, a, WorkerStep(s, a, pc, c))
  {
    if c == Fail {
      NoEffect(s, a);
    } else {
      EnterEffect(s, a, pc.shard);
    }
  }

  lemma WorkerRecovers(s: State, a: ActorId, pc: WPc, c: Choice)
    requires Local(s, a, W(pc)) && pc.WRecover?
    ensures Sound(s, a, WorkerStep(s, a, pc, c))
  {
    if c.Take? && c.shard in pc.todo && (c.shard in s.shardLock ==> s.shardLock[c.shard] == a) {
      ShardLockEffect(s, a, c.shard);
    } else {
      NoEffect(s, a);
    }
  }

  lemma WorkerDeletes(s: State, a: ActorId, x: ShardId, c: Choice)
    requires Local(s, a, W(WDelete(x)))
    ensures Sound(s, a, WorkerStep(s, a, WDelete(x), c))
  {
    if c == Fail {
      NoEffect(s, a);
    } else {
      DeleteEffect(s, a, x);
    }
  }

  lemma WorkerRuns(s: State, a: ActorId, x: ShardId, c: Choice)
    requires Local(s, a, W(WRun(x)))
    ensures Sound(s, a, WorkerStep(s, a, WRun(x), c))
  {
    if c == Fail {
      NoEffect(s, a);
    } else if c == Alternative && InProgress !in s.task.at {
      PastProgress(s.task.at);
      NoEffect(s, a);
    } else {
      FilesEffect(s, a, StoreResults(s, x).files);
    }
  }

  lemma PastProgress(at: set<TaskStatus>)
    requires Beyond(at, 2) && InProgress !in at
    ensures Beyond(at, 3)
  {
  }

  lemma WorkerRecords(s: State, a: ActorId, x: ShardId, c: Choice)
    requires Local(s, a, W(WRecord(x)))
    ensures Sound(s, a, WorkerStep(s, a, WRecord(x), c))
  {
    if c == Fail {
      NoEffect(s, a);
    } else {
      FilesEffect(s, a, RecordCounts(s, x).files);
    }
  }

  lemma WorkerLeaves(s: State, a: ActorId, pc: WPc, c: Choice)
    requires Local(s, a, W(pc)) && (pc.WDone? || pc.WAbandon?)
    ensures Sound(s, a, WorkerStep(s, a, pc, c))
  {
    if c == Fail {
      NoEffect(s, a);
    } else {
      LeaveEffect(s, a, pc.shard, pc.WDone?);
    }
  }

  lemma WorkerUnlocks(s: State, a: ActorId, pc: WPc, c: Choice)
    requires Local(s, a, W(pc)) && pc.WUnlockShard?
    ensures Sound(s, a, WorkerStep(s, a, pc, c))
  {
    if c == Fail {
      NoEffect(s, a);
    } else {
      ShardUnlockEffect(s, a, pc.shard);
    }
  }

  lemma WorkerFinishes(s: State, a: ActorId, pc: WPc, c: Choice)
    requires Local(s, a, W(pc)) && (pc.WCheck? || pc.WLockTask? || pc.WMove?)
    ensures Sound(s, a, WorkerStep(s, a, pc, c))
  {
    if pc.WCheck? {
      NoEffect(s, a);
    } else if pc.WLockTask? {
      AcquireOk(s, a, W(WMove));
    } else {
      MoveAndUnlockOk(s, a, InProgress, Finalizing, c);
    }
  }

  // ---------------------------------------------------------------- cancel, expire, finalize

  lemma CancelHandlerOk(s: State, a: ActorId, pc: HPc, c: Choice)
    requires Local(s, a, H(pc))
    ensures Sound(s, a, CancelHandlerStep(s, a, pc, c))
  {
    match pc {
      case HLock => AcquireOk(s, a, H(HRead));
      case HRead => NoEffect(s, a);
      case HMove(from) => MoveAndUnlockOk(s, a, from, Cancelling, c);
    }
  }

  lemma CancelLooks(s: State, a: ActorId, pc: CPc, c: Choice)
    requires Local(s, a, C(pc))
    requires pc.CCheckValidating? || pc.CCheckInProgress? || pc.CList? || pc.CListRunning?
    ensures Sound(s, a, CancelReactorStep(s, a, pc, c))
  {
    NoEffect(s, a);
  }

  lemma CancelMoves(s: State, a: ActorId, pc: CPc, c: Choice)
    requires Local(s, a, C(pc)) && (pc.CLock? || pc.CMove?)
    ensures Sound(s, a, CancelReactorStep(s, a, pc, c))
  {
    if pc.CLock? {
      AcquireOk(s, a, C(CCheckValidating));
    } else {
      MoveAndUnlockOk(s, a, Cancelling, Cancelled, c);
    }
  }

  lemma CancelShards(s: State, a: ActorId, pc: CPc, c: Choice)
    requires Local(s, a, C(pc)) && pc.CFail?
    ensures Sound(s, a, CancelReactorStep(s, a, pc, c))
  {
    if c.Take? && c.shard in pc.todo {
      FailPendingEffect(s, a, c.shard);
    } else {
      NoEffect(s, a);
    }
  }

  lemma CancelCleans(s: State, a: ActorId, pc: CPc, c: Choice)
    requires Local(s, a, C(pc)) && pc.CClean?
    ensures Sound(s, a, CancelReactorStep(s, a, pc, c))
  {
    if c == Fail {
      NoEffect(s, a);
    } else {
      CleanEffect(s, a, pc.stage);
      CleanShrinks(s, pc.stage);
    }
  }

  /** Clean-up only removes shards, and leaves the lock, the status and the locks of shards alone. */
  lemma CleanShrinks(s: State, stage: nat)
    ensures var t := CleanStage(s, stage);
            && t.shards.pending <= s.shards.pending && t.shards.running <= s.shards.running
            && t.lock == s.lock && t.task == s.task && t.log.botched == s.log.botched
  {
    if stage == 0 {
    } else if stage == 1 {
    } else if stage == 2 {
    } else if stage == 3 {
    } else {
    }
  }

  lemma ExpirerOk(s: State, a: ActorId, pc: EPc, c: Choice)
    requires Local(s, a, E(pc))
    ensures Sound(s, a, ExpireStep(s, a, pc, c))
  {
    match pc {
      case ELock => AcquireOk(s, a, E(ERead));
      case ERead => NoEffect(s, a);
      case EMove(from) => MoveAndUnlockOk(s, a, from, Expired, c);
    }
  }

  lemma FinalizerFirstMove(s: State, a: ActorId, c: Choice)
    requires Local(s, a, F(FMove))
    ensures Sound(s, a, FinalizerStep(s, a, FMove, c))
  {
    if c == Fail {
      BotchEffect(s, a);
    } else if Finalizing in s.task.at {
      FinalizerClaims(s, a);
    } else {
      MoveMeaning(s.task.at, Finalizing, Finalize);
      NoEffect(s, a);
    }
  }

  lemma FinalizerClaims(s: State, a: ActorId)
    requires Local(s, a, F(FMove)) && Finalizing in s.task.at
    ensures MoveSucceeds(s.task.at, Finalizing, Finalize)
    ensures Sound(s, a, (MoveTask(s, Finalizing, Finalize, true), F(FList)))
  {
    MoveMeaning(s.task.at, Finalizing, Finalize);
    MoveEffect(s, a, Finalizing, Finalize, true);
  }

  lemma FinalizerMoves(s: State, a: ActorId, pc: FPc, c: Choice)
    requires Local(s, a, F(pc)) && (pc.FLock? || pc.FMove?)
    ensures Sound(s, a, FinalizerStep(s, a, pc, c))
  {
    if pc.FLock? {
      AcquireOk(s, a, F(FMove));
    } else {
      FinalizerFirstMove(s, a, c);
    }
  }

  lemma FinalizerAssembles(s: State, a: ActorId, pc: FPc, c: Choice)
    requires Local(s, a, F(pc)) && (pc.FList? || pc.FKeys? || pc.FAppend?)
    ensures Sound(s, a, FinalizerStep(s, a, pc, c))
  {
    assert Beyond(s.task.at, 4);
    if FinalizerStep(s, a, pc, c).0 == s {
      NoEffect(s, a);
    } else {
      LeaveOutEffect(s, a);
    }
  }

  lemma LeaveOutEffect(s: State, a: ActorId)
    requires Shared(s)
    ensures Effect(s, LeaveOut(s), a)
  {
  }

  lemma FinalizerCompletes(s: State, a: ActorId, pc: FPc, c: Choice)
    requires Local(s, a, F(pc)) && (pc.FFields? || pc.FComplete?)
    ensures Sound(s, a, FinalizerStep(s, a, pc, c))
  {
    NoEffect(s, a);
    assert Beyond(s.task.at, 4);
    if pc.FFields? {
      FieldEffect(s, a, Completed, Some(pc.got));
    } else {
      MoveEffect(s, a, Finalize, Completed, false);
      MoveMeaning(s.task.at, Finalize, Completed);
    }
  }

  lemma FinalizerCleans(s: State, a: ActorId, pc: FPc, c: Choice)
    requires Local(s, a, F(pc)) && pc.FClean?
    ensures Sound(s, a, FinalizerStep(s, a, pc, c))
  {
    if c == Fail {
      NoEffect(s, a);
    } else {
      CleanEffect(s, a, pc.stage);
      CleanShrinks(s, pc.stage);
    }
  }

  // ---------------------------------------------------------------- any event

  lemma RestOk(s: State, a: ActorId, pc: Pc, c: Choice)
    requires Local(s, a, pc) && (c == Crash || pc == Idle || pc == Unlock)
    ensures Sound(s, a, ActorStep(s, a, pc, c))
  {
    NoEffect(s, a);
    if pc == Unlock {
      ReleaseEffect(s, a);
    }
  }

  lemma ValidatorOk(s: State, a: ActorId, pc: VPc, c: Choice)
    requires Local(s, a, V(pc))
    ensures Sound(s, a, ValidatorStep(s, a, pc, c))
  {
    if pc.VLock? || pc.VRead? { ValidatorReads(s, a, pc, c); }
    else if pc.VMove? { ValidatorStarts(s, a, pc, c); }
    else if pc.VClean? { ValidatorCleans(s, a, pc, c); }
    else if pc.VSplit? { ValidatorSplits(s, a, pc, c); }
    else if pc.VFields? || pc.VFinish? { ValidatorFinishes(s, a, pc, c); }
    else { ValidatorRejects(s, a, pc, c); }
  }

  lemma WorkerOk(s: State, a: ActorId, pc: WPc, c: Choice)
    requires Local(s, a, W(pc))
    ensures Sound(s, a, WorkerStep(s, a, pc, c))
  {
    if pc.WLockShard? { WorkerLocks(s, a, pc, c); }
    else if pc.WStart? { WorkerStarts(s, a, pc, c); }
    else if pc.WRecover? { WorkerRecovers(s, a, pc, c); }
    else if pc.WDelete? { WorkerDeletes(s, a, pc.shard, c); }
    else if pc.WRun? { WorkerRuns(s, a, pc.shard, c); }
    else if pc.WRecord? { WorkerRecords(s, a, pc.shard, c); }
    else if pc.WDone? || pc.WAbandon? { WorkerLeaves(s, a, pc, c); }
    else if pc.WUnlockShard? { WorkerUnlocks(s, a, pc, c); }
    else if pc.WCheck? || pc.WLockTask? || pc.WMove? { WorkerFinishes(s, a, pc, c); }
    else if pc.WRecheck? || pc.WProcess? { WorkerRechecks(s, a, pc, c); }
    else { WorkerLooks(s, a, pc, c); }
  }

  lemma CancelReactorOk(s: State, a: ActorId, pc: CPc, c: Choice)
    requires Local(s, a, C(pc))
    ensures Sound(s, a, CancelReactorStep(s, a, pc, c))
  {
    if pc.CLock? || pc.CMove? { CancelMoves(s, a, pc, c); }
    else if pc.CFail? { CancelShards(s, a, pc, c); }
    else if pc.CClean? { CancelCleans(s, a, pc, c); }
    else { CancelLooks(s, a, pc, c); }
  }

  lemma FinalizerOk(s: State, a: ActorId, pc: FPc, c: Choice)
    requires Local(s, a, F(pc))
    ensures Sound(s, a, FinalizerStep(s, a, pc, c))
  {
    if pc.FLock? || pc.FMove? { FinalizerMoves(s, a, pc, c); }
    else if pc.FFields? || pc.FComplete? { FinalizerCompletes(s, a, pc, c); }
    else if pc.FClean? { FinalizerCleans(s, a, pc, c); }
    else { FinalizerAssembles(s, a, pc, c); }
  }

  lemma ActorOk(s: State, a: ActorId, pc: Pc, c: Choice)
    requires Local(s, a, pc)
    ensures Sound(s, a, ActorStep(s, a, pc, c))
  {
    if c == Crash {
      RestOk(s, a, pc, c);
    } else {
      match pc {
        case Idle => RestOk(s, a, pc, c);
        case Unlock => RestOk(s, a, pc, c);
        case V(v) => ValidatorOk(s, a, v, c);
        case W(w) => WorkerOk(s, a, w, c);
        case H(h) => CancelHandlerOk(s, a, h, c);
        case C(r) => CancelReactorOk(s, a, r, c);
        case E(e) => ExpirerOk(s, a, e, c);
        case F(f) => FinalizerOk(s, a, f, c);
      }
    }
  }

  lemma ExpiryKeeps(s: State, e: Event)
    requires Inv(s) && !e.Act?
    ensures Inv(Next(s, e))
  {
    var t := Next(s, e);
    forall b
      ensures PcOk(t, b, PcOf(t, b))
    {
      assert PcOk(s, b, PcOf(s, b));
    }
  }

  lemma EventKeeps(s: State, e: Event)
    requires Inv(s)
    ensures Inv(Next(s, e))
  {
    match e {
      case Act(a, c) =>
        var pc := PcOf(s, a);
        assert PcOk(s, a, pc);
        var o := ActorStep(s, a, pc, c);
        ActorOk(s, a, pc, c);
        Settle(s, o.0, a, o.1);
      case _ => ExpiryKeeps(s, e);
    }
  }

  /** Every reachable state satisfies the invariant, whatever the schedule. */
  lemma {:induction false} Reachable(total: nat, schedule: seq<Event>)
    ensures Inv(Run(Initial(total), schedule))
    decreases |schedule|
  {
    if schedule == [] {
      InitialOk(total);
    } else {
      var init, e := schedule[..|schedule| - 1], schedule[|schedule| - 1];
      Reachable(total, init);
      EventKeeps(Run(Initial(total), init), e);
    }
  }

  lemma InitialOk(total: nat)
    ensures Inv(Initial(total))
  {
    var s := Initial(total);
    forall a
      ensures PcOk(s, a, PcOf(s, a))
    {
      assert PcOf(s, a) == Idle;
    }
  }
}
