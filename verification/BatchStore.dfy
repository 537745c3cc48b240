/**
 The batch store: status sets, task status fields, shard sets and lock keys in Redis.
 Each method is one script or command, written out command by command, and proved against what it
 means for the ids it touches; everything else in the store stays as it was.
 */
module BatchStore {
  import opened BatchStatus

  type TaskId = string
  type ShardId = string
  type Owner = string
  type Key = string

  datatype ShardStatus = ShardPending | ShardInProgress | ShardCompleted | ShardFailed

  /** A lock key: its value and the time, in milliseconds, at which Redis drops it. */
  datatype Lock = Lock(owner: Owner, expiresAt: int)

  type Locks = map<Key, Lock>

  // ---------------------------------------------------------------- locks

  /** GET finds the key. */
  predicate Live(locks: Locks, key: Key, now: int) {
    key in locks && now < locks[key].expiresAt
  }

  /** A command on one lock key; durations are in whole seconds. */
  datatype LockOp =
    | Acquire(key: Key, owner: Owner, now: int, seconds: nat)
    | Extend(key: Key, owner: Owner, now: int, seconds: nat)
    | Recover(key: Key, owner: Owner, now: int, seconds: nat)
    | Release(key: Key, owner: Owner, now: int)

  function Expiry(now: int, seconds: nat): int {
    now + 1000 * seconds
  }

  /** What one command does to the lock keys; `ttl` is how Redis reports remaining milliseconds in seconds. */
  function LockStep(locks: Locks, op: LockOp, ttl: int -> int): Locks {
    var live := Live(locks, op.key, op.now);
    match op
    case Acquire(key, owner, now, seconds) =>
      if live then locks else locks[key := Lock(owner, Expiry(now, seconds))]
    case Extend(key, owner, now, seconds) =>
      if live && locks[key].owner == owner then locks[key := Lock(owner, Expiry(now, seconds))] else locks
    case Recover(key, owner, now, seconds) =>
      if !live || locks[key].owner == owner || ttl(locks[key].expiresAt - now) <= 0
      then locks[key := Lock(owner, Expiry(now, seconds))] else locks
    case Release(key, owner, now) =>
      if live && locks[key].owner == owner then locks - {key} else locks
  }

  function LockRun(locks: Locks, ops: seq<LockOp>, ttl: int -> int): Locks
    decreases |ops|
  {
    if ops == [] then locks else LockStep(LockRun(locks, ops[..|ops| - 1], ttl), ops[|ops| - 1], ttl)
  }

  /** A command of another owner while the lock lives leaves it alone, unless it recovers and reads a TTL of zero. */
  predicate Harmless(lock: Lock, key: Key, op: LockOp, ttl: int -> int) {
    op.key == key ==>
      && op.owner != lock.owner && op.now < lock.expiresAt
      && (op.Recover? ==> ttl(lock.expiresAt - op.now) > 0)
  }

  /** Until it expires, a lock is neither reassigned, shortened nor deleted by any run of other owners' commands. */
  lemma {:induction false} LockOutlivesOthers(locks: Locks, key: Key, ops: seq<LockOp>, ttl: int -> int)
    requires key in locks
    requires forall i :: 0 <= i < |ops| ==> Harmless(locks[key], key, ops[i], ttl)
    ensures key in LockRun(locks, ops, ttl) && LockRun(locks, ops, ttl)[key] == locks[key]
    decreases |ops|
  {
    if ops == [] {
    } else {
      LockOutlivesOthers(locks, key, ops[..|ops| - 1], ttl);
      assert Harmless(locks[key], key, ops[|ops| - 1], ttl);
    }
  }

  /** Recovery leaves the live lock of another owner alone iff the reported TTL is positive. */
  lemma RecoveryRespectsIff(locks: Locks, key: Key, owner: Owner, now: int, seconds: nat, ttl: int -> int)
    requires Live(locks, key, now) && locks[key].owner != owner
    ensures LockStep(locks, Recover(key, owner, now, seconds), ttl) == locks <==> ttl(locks[key].expiresAt - now) > 0
  {
    var taken := LockStep(locks, Recover(key, owner, now, seconds), ttl);
    if ttl(locks[key].expiresAt - now) <= 0 {
      assert taken[key].owner == owner;
    }
  }

  /** TTL rounded to the nearest second. */
  function NearestSecond(ms: int): int {
    (ms + 500) / 1000
  }

  /**
   With such rounding a lock in the last half second of its life can be taken over; with a whole-second
   clock it cannot.
   */
  lemma LastHalfSecond(locks: Locks, key: Key, owner: Owner, now: int, seconds: nat)
    requires Live(locks, key, now) && locks[key].owner != owner
    ensures LockStep(locks, Recover(key, owner, now, seconds), NearestSecond) == locks
            <==> locks[key].expiresAt - now >= 500
    ensures (locks[key].expiresAt - now) % 1000 == 0 ==>
              LockStep(locks, Recover(key, owner, now, seconds), NearestSecond) == locks
  {
    RecoveryRespectsIff(locks, key, owner, now, seconds, NearestSecond);
  }

  // ---------------------------------------------------------------- time stamps

  datatype Stamp = UpdatedAt | ReachedAt(status: TaskStatus)

  type Stamps = map<(TaskId, Stamp), int>

  /** The statuses whose time of arrival is recorded; the others only count as an update. */
  predicate HasStamp(st: TaskStatus) {
    st != Pending && st != Validating && st != Finalize
  }

  /** What a successful move to `to` writes; the arrival in progress is written once. */
  function Stamped(stamps: Stamps, id: TaskId, to: TaskStatus, now: int): Stamps {
    var updated := stamps[(id, UpdatedAt) := now];
    if !HasStamp(to) || (to == InProgress && (id, ReachedAt(InProgress)) in stamps) then updated
    else updated[(id, ReachedAt(to)) := now]
  }

  function StampRun(stamps: Stamps, moves: seq<(TaskId, TaskStatus, int)>): Stamps {
    if moves == [] then stamps
    else
      var last := moves[|moves| - 1];
      Stamped(StampRun(stamps, moves[..|moves| - 1]), last.0, last.1, last.2)
  }

  /** Over any run of moves the first arrival in progress is kept, and no stamp is ever removed. */
  lemma {:induction false} FirstArrivalIsKept(stamps: Stamps, moves: seq<(TaskId, TaskStatus, int)>, id: TaskId)
    requires (id, ReachedAt(InProgress)) in stamps
    ensures stamps.Keys <= StampRun(stamps, moves).Keys
    ensures StampRun(stamps, moves)[(id, ReachedAt(InProgress))] == stamps[(id, ReachedAt(InProgress))]
    decreases |moves|
  {
    if moves == [] {
    } else {
      FirstArrivalIsKept(stamps, moves[..|moves| - 1], id);
    }
  }

  // ---------------------------------------------------------------- the store

  class RedisStore {
    var taskSets: map<TaskStatus, set<TaskId>>
    var taskStatus: map<TaskId, TaskStatus>
    var allTasks: set<TaskId>
    var shardSets: map<(TaskId, ShardStatus), set<ShardId>>
    var shardRecords: set<(TaskId, ShardId)>
    var stamps: Stamps
    var locks: Locks

    constructor ()
      ensures taskSets == map[] && taskStatus == map[] && allTasks == {} && shardSets == map[] && locks == map[]
      ensures shardRecords == {} && stamps == map[]
    {
      taskSets, taskStatus, allTasks, shardSets, locks := map[], map[], {}, map[], map[];
      shardRecords, stamps := {}, map[];
    }

    /** SMEMBERS: a missing set is empty. */
    function Tasks(st: TaskStatus): set<TaskId>
      reads this
    {
      if st in taskSets then taskSets[st] else {}
    }

    function ShardsIn(id: TaskId, st: ShardStatus): set<ShardId>
      reads this
    {
      if (id, st) in shardSets then shardSets[(id, st)] else {}
    }

    /** The status sets that hold a task. */
    ghost function TaskAt(id: TaskId): set<TaskStatus>
      reads this
    {
      set st: TaskStatus | id in Tasks(st)
    }

    /** The shard sets of a task that hold a shard. */
    ghost function ShardAt(id: TaskId, shard: ShardId): set<ShardStatus>
      reads this
    {
      set st: ShardStatus | shard in ShardsIn(id, st)
    }

    /** SADD on a status set; reports whether the id was new. */
    method AddTask(st: TaskStatus, id: TaskId) returns (added: bool)
      modifies this`taskSets
      ensures added == (st !in old(TaskAt(id))) && TaskAt(id) == old(TaskAt(id)) + {st}
      ensures forall other :: other != id ==> TaskAt(other) == old(TaskAt(other))
    {
      added := id !in Tasks(st);
      taskSets := taskSets[st := Tasks(st) + {id}];
    }

    /** SREM on a status set; reports whether the id was there. */
    method RemoveTask(st: TaskStatus, id: TaskId) returns (removed: bool)
      modifies this`taskSets
      ensures removed == (st in old(TaskAt(id))) && TaskAt(id) == old(TaskAt(id)) - {st}
      ensures forall other :: other != id ==> TaskAt(other) == old(TaskAt(other))
    {
      removed := id in Tasks(st);
      taskSets := taskSets[st := Tasks(st) - {id}];
    }

    method CreateTask(id: TaskId)
      modifies this`taskSets, this`taskStatus, this`allTasks
      ensures taskStatus == old(taskStatus)[id := Pending] && allTasks == old(allTasks) + {id}
      ensures TaskAt(id) == old(TaskAt(id)) + {Pending}
      ensures forall other :: other != id ==> TaskAt(other) == old(TaskAt(other))
    {
      taskStatus := taskStatus[id := Pending];
      allTasks := allTasks + {id};
      var _ := AddTask(Pending, id);
    }

    /** The move script without the hash update. */
    method MoveTaskAtomically(id: TaskId, from: TaskStatus, to: TaskStatus) returns (ok: bool)
      modifies this`taskSets
      ensures ok == old(MoveSucceeds(TaskAt(id), from, to))
      ensures TaskAt(id) == old(Moved(TaskAt(id), from, to))
      ensures forall other :: other != id ==> TaskAt(other) == old(TaskAt(other))
    {
      var added := AddTask(to, id);
      var removed := RemoveTask(from, id);
      if !removed && added {
        var _ := RemoveTask(to, id);
      }
      ok := removed;
    }

    /** The move script that also writes the new status into the task hash. */
    method MoveTaskAndUpdateStatusAtomically(id: TaskId, from: TaskStatus, to: TaskStatus, now: int) returns (ok: bool)
      modifies this`taskSets, this`taskStatus, this`stamps
      ensures ok == old(MoveSucceeds(TaskAt(id), from, to))
      ensures TaskAt(id) == old(Moved(TaskAt(id), from, to))
      ensures forall other :: other != id ==> TaskAt(other) == old(TaskAt(other))
      ensures taskStatus == if ok then old(taskStatus)[id := to] else old(taskStatus)
      ensures stamps == if ok then Stamped(old(stamps), id, to, now) else old(stamps)
    {
      ok := MoveTaskAtomically(id, from, to);
      if ok {
        taskStatus := taskStatus[id := to];
        WriteStamps(id, to, now);
      }
    }

    method WriteStamps(id: TaskId, to: TaskStatus, now: int)
      modifies this`stamps
      ensures stamps == Stamped(old(stamps), id, to, now)
    {
      stamps := stamps[(id, UpdatedAt) := now];
      if to == InProgress {
        if (id, ReachedAt(InProgress)) !in stamps {
          stamps := stamps[(id, ReachedAt(InProgress)) := now];
        }
      } else if HasStamp(to) {
        stamps := stamps[(id, ReachedAt(to)) := now];
      }
    }

    /** SADD on a shard set. */
    method AddShard(id: TaskId, st: ShardStatus, shard: ShardId) returns (added: bool)
      modifies this`shardSets
      ensures added == (st !in old(ShardAt(id, shard))) && ShardAt(id, shard) == old(ShardAt(id, shard)) + {st}
      ensures forall i, s :: (i, s) != (id, shard) ==> ShardAt(i, s) == old(ShardAt(i, s))
    {
      added := shard !in ShardsIn(id, st);
      shardSets := shardSets[(id, st) := ShardsIn(id, st) + {shard}];
    }

    /** SREM on a shard set. */
    method RemoveShard(id: TaskId, st: ShardStatus, shard: ShardId) returns (removed: bool)
      modifies this`shardSets
      ensures removed == (st in old(ShardAt(id, shard))) && ShardAt(id, shard) == old(ShardAt(id, shard)) - {st}
      ensures forall i, s :: (i, s) != (id, shard) ==> ShardAt(i, s) == old(ShardAt(i, s))
    {
      removed := shard in ShardsIn(id, st);
      shardSets := shardSets[(id, st) := ShardsIn(id, st) - {shard}];
    }

    method AddShardToPendingList(id: TaskId, shard: ShardId)
      modifies this`shardSets
      ensures ShardAt(id, shard) == old(ShardAt(id, shard)) + {ShardPending}
      ensures forall i, s :: (i, s) != (id, shard) ==> ShardAt(i, s) == old(ShardAt(i, s))
    {
      var _ := AddShard(id, ShardPending, shard);
    }

    method MoveShardAtomically(id: TaskId, shard: ShardId, from: ShardStatus, to: ShardStatus) returns (ok: bool)
      modifies this`shardSets
      ensures ok == old(MoveSucceeds(ShardAt(id, shard), from, to))
      ensures ShardAt(id, shard) == old(Moved(ShardAt(id, shard), from, to))
      ensures forall i, s :: (i, s) != (id, shard) ==> ShardAt(i, s) == old(ShardAt(i, s))
    {
      var added := AddShard(id, to, shard);
      var removed := RemoveShard(id, from, shard);
      if !removed && added {
        var _ := RemoveShard(id, to, shard);
      }
      ok := removed;
    }

    /** True iff no shard of the task is pending or in progress. */
    method CheckIfAllShardsAreCompleted(id: TaskId) returns (all: bool)
      ensures all <==> forall s :: ShardPending !in ShardAt(id, s) && ShardInProgress !in ShardAt(id, s)
    {
      var pending, running := ShardsIn(id, ShardPending), ShardsIn(id, ShardInProgress);
      all := |pending| == 0 && |running| == 0;
      if !all {
        var s :| s in pending || s in running;
        assert ShardPending in ShardAt(id, s) || ShardInProgress in ShardAt(id, s);
      }
    }

    /** DEL on the records of the listed shards and on the shard set. */
    method DeleteShards(id: TaskId, st: ShardStatus, listed: set<ShardId>)
      modifies this`shardSets, this`shardRecords
      ensures forall s :: ShardAt(id, s) == old(ShardAt(id, s)) - {st}
      ensures forall i, s :: i != id ==> ShardAt(i, s) == old(ShardAt(i, s))
      ensures forall i, s :: (i, s) in shardRecords <==> (i, s) in old(shardRecords) && !(i == id && s in listed)
    {
      shardSets := shardSets - {(id, st)};
      shardRecords := set r | r in shardRecords && !(r.0 == id && r.1 in listed);
    }

    /** Lists the shards of one set, then deletes their records and the set: two commands. */
    method RemoveShardInfo(id: TaskId, st: ShardStatus)
      modifies this`shardSets, this`shardRecords
      ensures forall s :: ShardAt(id, s) == old(ShardAt(id, s)) - {st}
      ensures forall i, s :: i != id ==> ShardAt(i, s) == old(ShardAt(i, s))
      ensures forall i, s ::
                (i, s) in shardRecords <==> (i, s) in old(shardRecords) && !(i == id && st in old(ShardAt(i, s)))
    {
      var listed := ShardsIn(id, st);
      DeleteShards(id, st, listed);
    }

    /** SETNX with expiry. */
    method AcquireLock(key: Key, owner: Owner, now: int, seconds: nat, ghost ttl: int -> int) returns (acquired: bool)
      modifies this`locks
      ensures acquired == !old(Live(locks, key, now))
      ensures locks == LockStep(old(locks), Acquire(key, owner, now, seconds), ttl)
      ensures acquired ==> key in locks && locks[key].owner == owner
    {
      acquired := !(key in locks && now < locks[key].expiresAt);
      if acquired {
        locks := locks[key := Lock(owner, now + 1000 * seconds)];
      }
    }

    method ExtendLock(key: Key, owner: Owner, now: int, seconds: nat, ghost ttl: int -> int)
      modifies this`locks
      ensures locks == LockStep(old(locks), Extend(key, owner, now, seconds), ttl)
    {
      if key in locks && now < locks[key].expiresAt {
        var current := locks[key].owner;
        if current == owner {
          locks := locks[key := Lock(current, now + 1000 * seconds)];
        }
      }
    }

    method AcquireOrRecoverShardLock(key: Key, owner: Owner, now: int, seconds: nat, ttl: int -> int)
      returns (acquired: bool)
      modifies this`locks
      ensures locks == LockStep(old(locks), Recover(key, owner, now, seconds), ttl)
      ensures acquired ==> key in locks && locks[key].owner == owner
      ensures !acquired ==> locks == old(locks) && Live(locks, key, now) && locks[key].owner != owner
    {
      if !(key in locks && now < locks[key].expiresAt) {
        locks := locks[key := Lock(owner, now + 1000 * seconds)];
        return true;
      }
      var current := locks[key];
      if current.owner == owner {
        locks := locks[key := Lock(owner, now + 1000 * seconds)];
        return true;
      }
      if ttl(current.expiresAt - now) <= 0 {
        locks := locks[key := Lock(owner, now + 1000 * seconds)];
        return true;
      }
      return false;
    }

    method ReleaseLock(key: Key, owner: Owner, now: int, ghost ttl: int -> int)
      modifies this`locks
      ensures locks == LockStep(old(locks), Release(key, owner, now), ttl)
    {
      if key in locks && now < locks[key].expiresAt && locks[key].owner == owner {
        locks := locks - {key};
      }
    }
  }
}
