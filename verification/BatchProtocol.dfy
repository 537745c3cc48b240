/**
 The batch task protocol, seen from one task.  Gateway instances run validators, shard workers,
 finalizers, cancel handlers, cancel reactors and expirers; they share the status sets, the task
 hash, the shard sets, the lock keys and the object store.  Every store command or script is one
 atomic event; everything between two commands of one actor interleaves with everybody else.

 A lock key expires only when its owner has crashed or has left the section the lock protects:
 a live holder finishes within the lifetime of the lock.
 */
module BatchProtocol {
  import opened BatchStatus
  import opened Wrappers

  type ActorId = nat
  type ShardId = nat

  /** What a validator is about to do; `seen` is the status field it read when it started. */
  datatype VPc =
    | VLock | VRead | VMove(seen: TaskStatus) | VClean(stage: nat, seen: TaskStatus)
    | VSplit(next: nat, seen: TaskStatus) | VFields(seen: TaskStatus) | VFinish | VFailField | VFailMove

  /** What a shard worker is about to do. */
  datatype WPc =
    | WPicked | WChoose | WScan | WLockShard(shard: ShardId) | WStart(shard: ShardId)
    | WRecover(todo: set<ShardId>) | WRecheck(shard: ShardId) | WProcess(shard: ShardId) | WDelete(shard: ShardId)
    | WRun(shard: ShardId) | WRecord(shard: ShardId) | WDone(shard: ShardId) | WAbandon(shard: ShardId)
    | WUnlockShard(shard: ShardId, check: bool) | WCheck | WLockTask | WMove

  /** Cancel handler. */
  datatype HPc = HLock | HRead | HMove(from: TaskStatus)

  /** Cancel reactor; `kept` are the pending shards whose move to failed hit a store error in this round. */
  datatype CPc =
    | CLock | CCheckValidating | CCheckInProgress | CList | CFail(todo: set<ShardId>, kept: set<ShardId>)
    | CListRunning(kept: set<ShardId>) | CClean(stage: nat, kept: set<ShardId>) | CMove

  /** Expirer. */
  datatype EPc = ELock | ERead | EMove(from: TaskStatus)

  /** Finalizer. */
  datatype FPc =
    | FLock | FMove | FList | FKeys(todo: set<ShardId>)
    | FAppend(todo: set<ShardId>, keys: set<ShardId>, got: set<ShardId>)
    | FFields(got: set<ShardId>) | FComplete | FClean(stage: nat)

  /** What an actor is about to do; `Unlock` releases the task lock and ends the round. */
  datatype Pc = Idle | Unlock | V(v: VPc) | W(w: WPc) | H(h: HPc) | C(c: CPc) | E(e: EPc) | F(f: FPc)

  /** What has gone wrong so far. */
  datatype Log = Log(
    dropped: bool,                       // a move with equal source and destination removed the task
    botched: bool,                       // a finalizer's first move hit a store error
    wiped: bool,                         // a finalizer deleted the completed set of a task still in finalizing
    erased: bool,                        // a worker deleted the result files of a completed shard
    gap: bool                            // a finalizer did not list a shard, or found no results of one
  )

  /** The task record. */
  datatype Task = Task(
    at: set<TaskStatus>,                 // the status sets that hold the task
    field: TaskStatus,                   // the status field of the task hash
    delivered: Option<set<ShardId>>,     // shards whose results are in the output the task record names
    moves: nat,                          // history: successful task moves
    voided: bool                         // history: the input was rejected and the task moved to failed
  )

  datatype ShardSets = ShardSets(
    pending: set<ShardId>,
    running: set<ShardId>,               // the in_progress shard set
    completed: set<ShardId>,
    failed: set<ShardId>,
    entered: set<ShardId>,               // history: shards that have entered `running`
    left: set<ShardId>                   // history: shards that have left `running`
  )

  /** What is known of the result files. */
  datatype Files = Files(
    results: set<ShardId>,               // shards whose result files are in the object store
    recorded: set<ShardId>               // shards whose request counts describe their results
  )

  datatype State = State(
    total: nat,                          // number of shards the input file splits into
    task: Task,
    shards: ShardSets,
    files: Files,
    lock: Option<ActorId>,
    shardLock: map<ShardId, ActorId>,
    pcs: map<ActorId, Pc>,
    log: Log
  )

  datatype Role = Validate | Revalidate | Work | Finish | CancelRequest | CancelTask | Expire

  datatype Choice =
    | Go                                 // the next command succeeds or fails as the store says
    | Begin(role: Role)                  // an idle actor starts a round
    | Take(shard: ShardId)               // choose a shard
    | Alternative                        // the other outcome: invalid input, or the worker saw the status change
    | Fail                               // an I/O error ends the round
    | Skip(shard: ShardId)               // an I/O error on that shard; the actor goes on with the next
    | Crash

  datatype Event = Act(actor: ActorId, choice: Choice) | TaskLockExpires | ShardLockExpires(shard: ShardId)

  function PcOf(s: State, a: ActorId): Pc {
    if a in s.pcs then s.pcs[a] else Idle
  }

  function At(s: State, a: ActorId, pc: Pc): State {
    s.(pcs := s.pcs[a := pc])
  }

  /** The shards of a file that splits into `n` of them. */
  function Shards(n: nat): (r: set<ShardId>)
    ensures forall i: nat :: i in r <==> i < n
  {
    if n == 0 then {} else Shards(n - 1) + {n - 1}
  }

  function Initial(total: nat): State {
    State(total, Task({Pending}, Pending, None, 0, false), ShardSets({}, {}, {}, {}, {}, {}), Files({}, {}),
          None, map[], map[], Log(false, false, false, false, false))
  }

  // ---------------------------------------------------------------- shared commands

  /** Effect of one command on the shared state, and where the actor stands afterwards. */
  type Outcome = (State, Pc)

  /** SETNX on the task lock; a busy lock ends the round. */
  function AcquireTask(s: State, a: ActorId, next: Pc): Outcome {
    if s.lock == None then (s.(lock := Some(a)), next) else (s, Idle)
  }

  function ReleaseTask(s: State, a: ActorId, c: Choice): Outcome {
    (if c != Fail && s.lock == Some(a) then s.(lock := None) else s, Idle)
  }

  /** The move script on the task; `withField` also rewrites the status field of the hash. */
  function MoveTask(s: State, from: TaskStatus, to: TaskStatus, withField: bool): State {
    var ok := MoveSucceeds(s.task.at, from, to);
    s.(task := s.task.(at := Moved(s.task.at, from, to),
                       field := if ok && withField then to else s.task.field,
                       moves := if from in s.task.at then s.task.moves + 1 else s.task.moves),
       log := if from == to && from in s.task.at then s.log.(dropped := true) else s.log)
  }

  /** The move that ends a locked round, unless the store cannot be reached. */
  function MoveAndUnlock(s: State, from: TaskStatus, to: TaskStatus, c: Choice): Outcome {
    (if c == Fail then s else MoveTask(s, from, to, true), Unlock)
  }

  /** One step of the clean-up: first the shard files, then the four shard sets. */
  function CleanStage(s: State, stage: nat): State {
    if stage == 0 then s.(files := Files({}, {}))
    else if stage == 1 then s.(shards := s.shards.(pending := {}))
    else if stage == 2 then s.(shards := s.shards.(running := {}, left := s.shards.left + s.shards.running))
    else if stage == 3 then
      s.(shards := s.shards.(completed := {}), log := if Finalizing in s.task.at then s.log.(wiped := true) else s.log)
    else s.(shards := s.shards.(failed := {}))
  }

  /** The shard move script; the sets are disjoint and source and destination differ. */
  function EnterRunning(h: ShardSets, x: ShardId): ShardSets {
    if x !in h.pending then h
    else h.(pending := h.pending - {x}, running := h.running + {x}, entered := h.entered + {x})
  }

  function LeaveRunning(h: ShardSets, x: ShardId, ok: bool): ShardSets {
    if x !in h.running then h
    else if ok then h.(running := h.running - {x}, completed := h.completed + {x}, left := h.left + {x})
    else h.(running := h.running - {x}, failed := h.failed + {x}, left := h.left + {x})
  }

  function FailPending(h: ShardSets, x: ShardId): ShardSets {
    if x !in h.pending then h else h.(pending := h.pending - {x}, failed := h.failed + {x})
  }

  // ---------------------------------------------------------------- validator

  function ValidatorStep(s: State, a: ActorId, pc: VPc, c: Choice): Outcome {
    match pc
    case VLock => AcquireTask(s, a, V(VRead))
    case VRead =>
      var seen := s.task.field;
      (s, if c == Fail then Unlock else if seen != Validating then V(VMove(seen)) else V(VClean(0, seen)))
    case VMove(seen) =>
      if c == Fail then (s, Unlock)
      else (MoveTask(s, Pending, Validating, true),
            if MoveSucceeds(s.task.at, Pending, Validating) then V(VSplit(0, seen)) else Unlock)
    case VClean(stage, seen) =>
      if c == Fail then (s, Unlock)
      else (CleanStage(s, stage), V(if stage < 4 then VClean(stage + 1, seen) else VSplit(0, seen)))
    case VSplit(next, seen) =>
      if c == Fail then (s, Unlock)
      else if c == Alternative then (s, if next == 0 then V(VFailField) else Unlock)
      else if next < s.total then (Enqueue(s, next), V(VSplit(next + 1, seen)))
      else (s, V(VFields(seen)))
    case VFields(seen) => (if c == Fail then s else SetField(s, seen), V(VFinish))
    case VFinish => MoveAndUnlock(s, Validating, InProgress, c)
    case VFailField => (if c == Fail then s else SetField(s, Failed), V(VFailMove))
    case VFailMove => (if c == Fail then s else Rejected(s), Unlock)
  }

  function Enqueue(s: State, x: ShardId): State {
    s.(shards := s.shards.(pending := s.shards.pending + {x}))
  }

  function SetField(s: State, st: TaskStatus): State {
    s.(task := s.task.(field := st))
  }

  /** The input was rejected: the task leaves validating for failed; the status field is not touched here. */
  function Rejected(s: State): State {
    var t := MoveTask(s, Validating, Failed, false);
    t.(task := t.task.(voided := s.task.voided || Validating in s.task.at))
  }

  // ---------------------------------------------------------------- shard worker

  function WorkerStep(s: State, a: ActorId, pc: WPc, c: Choice): Outcome {
    match pc
    case WPicked => (s, if c == Fail || Validating in s.task.at then Idle else W(WChoose))
    case WChoose =>
      if c.Take? && c.shard in s.shards.pending then (s, W(WLockShard(c.shard)))
      else if c == Fail || s.shards.pending == {} then (s, W(WScan))
      else (s, W(pc))
    case WScan => (s, W(if c == Fail then WCheck else WRecover(s.shards.running)))
    case WLockShard(x) =>
      if c == Fail || x in s.shardLock then (s, W(WCheck)) else (LockShard(s, a, x), W(WStart(x)))
    case WStart(x) =>
      if c != Fail && x in s.shards.pending then (s.(shards := EnterRunning(s.shards, x)), W(WProcess(x)))
      else (s, W(WUnlockShard(x, false)))
    case WRecover(todo) =>
      if c.Take? && c.shard in todo then
        if c.shard in s.shardLock && s.shardLock[c.shard] != a then (s, W(WRecover(todo - {c.shard})))
        else (LockShard(s, a, c.shard), W(WRecheck(c.shard)))
      else if c.Skip? then (s, W(WRecover(todo - {c.shard})))
      else if c == Fail || todo == {} then (s, W(WCheck))
      else (s, W(pc))
    case WRecheck(x) => (s, W(if c == Fail || InProgress !in s.task.at then WCheck else WProcess(x)))
    case WProcess(x) =>
      (s, W(if c == Fail then WUnlockShard(x, false) else if InProgress in s.task.at then WDelete(x) else WDone(x)))
    case WDelete(x) =>
      if c == Fail then (s, W(WUnlockShard(x, false))) else (DeleteResults(s, x), W(WRun(x)))
    case WRun(x) =>
      if c == Fail then (s, W(WUnlockShard(x, false)))
      else if c == Alternative && InProgress !in s.task.at then (s, W(WAbandon(x)))
      else (StoreResults(s, x), W(WRecord(x)))
    case WRecord(x) =>
      if c == Fail then (s, W(WUnlockShard(x, false))) else (RecordCounts(s, x), W(WDone(x)))
    case WDone(x) =>
      if c == Fail then (s, W(WUnlockShard(x, false)))
      else (s.(shards := LeaveRunning(s.shards, x, true)), W(WUnlockShard(x, x in s.shards.running)))
    case WAbandon(x) =>
      if c == Fail then (s, W(WUnlockShard(x, false)))
      else (s.(shards := LeaveRunning(s.shards, x, false)), W(WUnlockShard(x, x in s.shards.running)))
    case WUnlockShard(x, check) => (if c == Fail then s else UnlockShard(s, a, x), if check then W(WCheck) else Idle)
    case WCheck => (s, if c != Fail && s.shards.pending == {} && s.shards.running == {} then W(WLockTask) else Idle)
    case WLockTask => AcquireTask(s, a, W(WMove))
    case WMove => MoveAndUnlock(s, InProgress, Finalizing, c)
  }

  function LockShard(s: State, a: ActorId, x: ShardId): State {
    s.(shardLock := s.shardLock[x := a])
  }

  /** Old result files of a shard that is about to be processed are deleted. */
  function DeleteResults(s: State, x: ShardId): State {
    s.(files := s.files.(results := s.files.results - {x}),
       log := if x in s.shards.completed then s.log.(erased := true) else s.log)
  }

  function StoreResults(s: State, x: ShardId): State {
    s.(files := s.files.(results := s.files.results + {x}))
  }

  function RecordCounts(s: State, x: ShardId): State {
    s.(files := s.files.(recorded := s.files.recorded + {x}))
  }

  function UnlockShard(s: State, a: ActorId, x: ShardId): State {
    if x in s.shardLock && s.shardLock[x] == a then s.(shardLock := s.shardLock - {x}) else s
  }

  // ---------------------------------------------------------------- cancel handler and cancel reactor

  predicate Cancellable(st: TaskStatus) {
    st == Validating || st == InProgress
  }

  function CancelHandlerStep(s: State, a: ActorId, pc: HPc, c: Choice): Outcome {
    match pc
    case HLock => AcquireTask(s, a, H(HRead))
    case HRead => (s, if c != Fail && Cancellable(s.task.field) then H(HMove(s.task.field)) else Unlock)
    case HMove(from) => MoveAndUnlock(s, from, Cancelling, c)
  }

  function CancelReactorStep(s: State, a: ActorId, pc: CPc, c: Choice): Outcome {
    match pc
    case CLock => AcquireTask(s, a, C(CCheckValidating))
    case CCheckValidating => (s, if c == Fail then Unlock else C(CCheckInProgress))
    case CCheckInProgress =>
      (s, if c == Fail || Validating in s.task.at || InProgress in s.task.at then Unlock else C(CList))
    case CList => (s, if c == Fail then Unlock else C(CFail(s.shards.pending, {})))
    case CFail(todo, kept) =>
      if c.Take? && c.shard in todo then
        (s.(shards := FailPending(s.shards, c.shard)), C(CFail(todo - {c.shard}, kept)))
      else if c.Skip? && c.shard in todo then (s, C(CFail(todo - {c.shard}, kept + {c.shard})))
      else if todo == {} then (s, C(CListRunning(kept)))
      else (s, C(pc))
    case CListRunning(kept) => (s, if c != Fail && s.shards.running == {} then C(CClean(0, kept)) else Unlock)
    case CClean(stage, kept) =>
      if c == Fail then (s, Unlock) else (CleanStage(s, stage), C(if stage < 4 then CClean(stage + 1, kept) else CMove))
    case CMove => MoveAndUnlock(s, Cancelling, Cancelled, c)
  }

  // ---------------------------------------------------------------- expirer

  function ExpireStep(s: State, a: ActorId, pc: EPc, c: Choice): Outcome {
    match pc
    case ELock => AcquireTask(s, a, E(ERead))
    case ERead => (s, if c == Fail then Unlock else E(EMove(s.task.field)))
    case EMove(from) => MoveAndUnlock(s, from, Expired, c)
  }

  // ---------------------------------------------------------------- finalizer

  function FinalizerStep(s: State, a: ActorId, pc: FPc, c: Choice): Outcome {
    match pc
    case FLock => AcquireTask(s, a, F(FMove))
    case FMove =>
      if c == Fail then (Botch(s), F(FClean(0)))
      else if MoveSucceeds(s.task.at, Finalizing, Finalize) then (MoveTask(s, Finalizing, Finalize, true), F(FList))
      else (s, F(FClean(0)))
    case FList =>
      if c == Fail then (s, F(FClean(0)))
      else (if s.shards.completed != Shards(s.total) then LeaveOut(s) else s, F(FKeys(s.shards.completed)))
    case FKeys(todo) => (s, F(if c == Fail then FClean(0) else FAppend(todo, s.files.results, {})))
    case FAppend(todo, keys, got) =>
      if c == Fail then (s, F(FClean(0)))
      else if c.Take? && c.shard in todo then
        if c.shard in keys && c.shard in s.files.results then (s, F(FAppend(todo - {c.shard}, keys, got + {c.shard})))
        else (LeaveOut(s), F(FAppend(todo - {c.shard}, keys, got)))
      else if todo == {} then (s, F(FFields(got)))
      else (s, F(pc))
    case FFields(got) =>
      if c == Fail then (s, F(FClean(0))) else (Deliver(s, got), F(FComplete))
    case FComplete => (if c == Fail then s else MoveTask(s, Finalize, Completed, false), F(FClean(0)))
    case FClean(stage) =>
      if c == Fail then (s, Unlock) else (CleanStage(s, stage), if stage < 4 then F(FClean(stage + 1)) else Unlock)
  }

  /** The final fields of the task: its status and the output file it names. */
  function Deliver(s: State, got: set<ShardId>): State {
    s.(task := s.task.(field := Completed, delivered := Some(got)))
  }

  function Botch(s: State): State {
    if Finalizing in s.task.at then s.(log := s.log.(botched := true)) else s
  }

  function LeaveOut(s: State): State {
    s.(log := s.log.(gap := true))
  }

  // ---------------------------------------------------------------- events

  /** The first look at the store that makes an idle actor start a round. */
  function StartRound(s: State, role: Role): Pc {
    match role
    case Validate => if Pending in s.task.at then V(VLock) else Idle
    case Revalidate => if Validating in s.task.at then V(VLock) else Idle
    case Work => if InProgress in s.task.at then W(WPicked) else Idle
    case Finish => if Finalizing in s.task.at then F(FLock) else Idle
    case CancelRequest => if Cancellable(s.task.field) then H(HLock) else Idle
    case CancelTask => if Cancelling in s.task.at then C(CLock) else Idle
    case Expire =>
      if Pending in s.task.at || Validating in s.task.at || InProgress in s.task.at || Finalizing in s.task.at
      then E(ELock) else Idle
  }

  function ActorStep(s: State, a: ActorId, pc: Pc, c: Choice): Outcome {
    if c == Crash then (s, Idle)
    else
      match pc
      case Idle => (s, if c.Begin? then StartRound(s, c.role) else Idle)
      case Unlock => ReleaseTask(s, a, c)
      case V(v) => ValidatorStep(s, a, v, c)
      case W(w) => WorkerStep(s, a, w, c)
      case H(h) => CancelHandlerStep(s, a, h, c)
      case C(r) => CancelReactorStep(s, a, r, c)
      case E(e) => ExpireStep(s, a, e, c)
      case F(f) => FinalizerStep(s, a, f, c)
  }

  /** The actor is between acquiring and releasing the task lock. */
  predicate HoldsTask(pc: Pc) {
    match pc
    case Idle => false
    case Unlock => true
    case V(v) => v != VLock
    case W(w) => w == WMove
    case H(h) => h != HLock
    case C(c) => c != CLock
    case E(e) => e != ELock
    case F(f) => f != FLock
  }

  /** The shard whose lock the actor has acquired and not yet released. */
  function ShardHeld(pc: Pc): Option<ShardId> {
    if !pc.W? then None
    else
      match pc.w
      case WStart(x) => Some(x)
      case WRecheck(x) => Some(x)
      case WProcess(x) => Some(x)
      case WDelete(x) => Some(x)
      case WRun(x) => Some(x)
      case WRecord(x) => Some(x)
      case WDone(x) => Some(x)
      case WAbandon(x) => Some(x)
      case WUnlockShard(x, _) => Some(x)
      case _ => None
  }

  function Next(s: State, e: Event): State {
    match e
    case Act(a, c) => var (t, pc) := ActorStep(s, a, PcOf(s, a), c); At(t, a, pc)
    case TaskLockExpires =>
      if s.lock.Some? && !HoldsTask(PcOf(s, s.lock.value)) then s.(lock := None) else s
    case ShardLockExpires(x) =>
      if x in s.shardLock && ShardHeld(PcOf(s, s.shardLock[x])) != Some(x)
      then s.(shardLock := s.shardLock - {x}) else s
  }

  /** The state after a schedule of events, from the first to the last. */
  function Run(s: State, schedule: seq<Event>): State
    decreases |schedule|
  {
    if schedule == [] then s else Next(Run(s, schedule[..|schedule| - 1]), schedule[|schedule| - 1])
  }
}
