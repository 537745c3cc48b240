/**
 A batch from its input bytes to its final files: the input is cut into shards, the shards are processed
 in any order, the completed shards are listed in any order and their results are put together.
 */
module BatchEndToEnd {
  import opened Arithmetic
  import opened Wrappers
  import opened BatchPipeline
  import opened BatchFinalize

  type Objects = map<Path, seq<Byte>>

  datatype BatchResult = Delivered(counts: Counts) | Interrupted | NoInput

  /** The answers to all lines, in the order of the lines. */
  function AnswersTo(lines: seq<Line>, size: nat, respond: Responder): seq<Response>
    requires size > 0
  {
    seq(|lines|, k requires 0 <= k < |lines| => AnswerTo(lines, size, respond, k))
  }

  /** What a reader of the file finds; a missing file has no lines. */
  function LinesOf(objects: Objects, path: Path): seq<Line> {
    if path in objects then ReadLines(objects[path]) else []
  }

  function CountsOf(answers: seq<Response>): Counts {
    Counts(|answers|, |Select(answers, false)|, |Select(answers, true)|)
  }

  /** The counts in the shard records; a shard without a record has none. */
  function Recorded(records: map<nat, Counts>): nat -> Counts {
    (i: nat) => if i in records then records[i] else Counts(0, 0, 0)
  }

  /** The shard has its result files and its record of counts. */
  ghost predicate Finished(objects: Objects, records: map<nat, Counts>, shards: seq<seq<Line>>, respond: Responder,
                           i: nat)
    requires i < |shards|
  {
    var answers := Answers(i, shards[i], respond);
    ShardDone(objects, i, answers) && i in records && records[i] == CountsOf(answers)
  }

  ghost predicate FinishedExcept(objects: Objects, records: map<nat, Counts>, shards: seq<seq<Line>>,
                                 respond: Responder,
                                 pending: set<nat>)
  {
    forall i: nat :: i < |shards| && i !in pending ==> Finished(objects, records, shards, respond, i)
  }

  ghost predicate ReadsBack(shards: seq<seq<Line>>) {
    forall i :: 0 <= i < |shards| ==> ReadLines(WriteLines(shards[i])) == shards[i]
  }

  /** Processing one shard leaves the files of the others alone. */
  lemma OneMoreFinished(before: Objects, after: Objects, records: map<nat, Counts>, shards: seq<seq<Line>>,
                        respond: Responder, pending: set<nat>, x: nat)
    requires FinishedExcept(before, records, shards, respond, pending) && x < |shards|
    requires SameExcept(before, after, {ShardOutput(x), ShardError(x)})
    requires ShardDone(after, x, Answers(x, shards[x], respond))
    ensures FinishedExcept(after, records[x := CountsOf(Answers(x, shards[x], respond))], shards, respond,
                           pending - {x})
  {
    forall i: nat | i < |shards| && i !in pending - {x} && i != x
      ensures ShardDone(after, i, Answers(i, shards[i], respond)) && i in records
              && records[i] == CountsOf(Answers(i, shards[i], respond))
    {
      assert Finished(before, records, shards, respond, i);
    }
  }

  lemma InputsKept(before: Objects, after: Objects, shards: seq<seq<Line>>, x: nat)
    requires ShardsStored(before, shards) && SameExcept(before, after, {ShardOutput(x), ShardError(x)})
    ensures ShardsStored(after, shards)
  {
  }

  /** No look at the task status during the lines of shard `i` finds it changed. */
  ghost predicate Undisturbed(shards: seq<seq<Line>>, changed: (nat, nat) -> bool, i: nat)
    requires i < |shards|
  {
    forall k: nat :: k < |shards[i]| ==> !changed(i, k)
  }

  ghost predicate AllUndisturbed(shards: seq<seq<Line>>, changed: (nat, nat) -> bool, except: set<nat>) {
    forall i: nat :: i < |shards| && i !in except ==> Undisturbed(shards, changed, i)
  }

  lemma LooksAtShard(shards: seq<seq<Line>>, changed: (nat, nat) -> bool, x: nat, look: nat -> bool)
    requires x < |shards| && forall k: nat :: look(k) == changed(x, k)
    ensures AnyLook(look, |shards[x]|) <==> !Undisturbed(shards, changed, x)
  {
    if !Undisturbed(shards, changed, x) {
      var k: nat :| k < |shards[x]| && changed(x, k);
      assert look(k);
    }
  }

  /** The workers: any pending shard next, until none is left or the task status has changed. */
  method ProcessAll(store: ObjectStore, n: nat, respond: Responder, changed: (nat, nat) -> bool,
                    ghost shards: seq<seq<Line>>)
    returns (records: map<nat, Counts>, ok: bool)
    requires n == |shards| && ShardsStored(store.objects, shards) && ReadsBack(shards)
    modifies store
    ensures ok ==> FinishedExcept(store.objects, records, shards, respond, {})
    ensures ok <==> AllUndisturbed(shards, changed, {})
  {
    records := map[];
    var pending := Below(n);
    while pending != {}
      invariant forall i :: i in pending ==> i < n
      invariant ShardsStored(store.objects, shards)
      invariant FinishedExcept(store.objects, records, shards, respond, pending)
      invariant AllUndisturbed(shards, changed, pending)
      decreases pending
    {
      var x: nat :| x in pending;
      ghost var before := store.objects;
      assert ShardInput(x) in before && before[ShardInput(x)] == WriteLines(shards[x]);
      var look := (k: nat) => changed(x, k);
      var outcome := ProcessShard(store, x, respond, look);
      LooksAtShard(shards, changed, x, look);
      if !outcome.Processed? {
        return records, false;
      }
      OneMoreFinished(before, store.objects, records, shards, respond, pending, x);
      InputsKept(before, store.objects, shards, x);
      records := records[x := outcome.counts];
      pending := pending - {x};
    }
    return records, true;
  }

  /** The members of a set, in any order. */
  method ListMembers(members: set<nat>) returns (order: seq<nat>)
    ensures multiset(order) == multiset(members)
  {
    order := [];
    var rest := members;
    while rest != {}
      invariant rest <= members && multiset(order) == multiset(members - rest)
      decreases rest
    {
      var x :| x in rest;
      assert members - (rest - {x}) == (members - rest) + {x};
      order := order + [x];
      rest := rest - {x};
    }
    assert members - {} == members;
  }

  function Below(n: nat): (r: set<nat>)
    ensures forall i: nat :: i in r <==> i < n
  {
    if n == 0 then {} else Below(n - 1) + {n - 1}
  }

  lemma {:induction false} UptoIsSet(n: nat)
    ensures multiset(Upto(n)) == multiset(Below(n))
  {
    if n == 0 {
      assert Below(n) == {};
    } else {
      UptoIsSet(n - 1);
      assert Below(n) == Below(n - 1) + {n - 1};
    }
  }

  lemma AllFinished(objects: Objects, records: map<nat, Counts>, shards: seq<seq<Line>>, respond: Responder)
    requires FinishedExcept(objects, records, shards, respond, {})
    ensures AllDone(objects, shards, respond)
    ensures CountsMatch(Recorded(records), shards, respond)
  {
    forall i | 0 <= i < |shards|
      ensures ShardDone(objects, i, Answers(i, shards[i], respond))
      ensures Recorded(records)(i) == CountsOf(Answers(i, shards[i], respond))
    {
      assert Finished(objects, records, shards, respond, i);
    }
  }

  lemma SameAnswers(answers: seq<Response>, lines: seq<Line>, size: nat, respond: Responder)
    requires size > 0 && AnswersLines(answers, lines, size, respond)
    ensures answers == AnswersTo(lines, size, respond)
  {
  }

  lemma NoFileNoLines(objects: Objects, listed: Objects, order: seq<nat>)
    requires Assembled(objects, listed, order)
    ensures LinesOf(objects, FinalOutput) == ReadLines(GatherBytes(order, listed, false))
    ensures LinesOf(objects, FinalError) == ReadLines(GatherBytes(order, listed, true))
  {
    assert ReadLines([]) == [];
  }

  /** Both final files hold what the answers to the lines say, and the counts say how many there are. */
  ghost predicate Answered(objects: Objects, lines: seq<Line>, size: nat, respond: Responder, counts: Counts)
    requires size > 0
  {
    var answers := AnswersTo(lines, size, respond);
    && multiset(LinesOf(objects, FinalOutput)) == multiset(Select(answers, false))
    && multiset(LinesOf(objects, FinalError)) == multiset(Select(answers, true))
    && counts == Counts(|lines|, |LinesOf(objects, FinalOutput)|, |LinesOf(objects, FinalError)|)
  }

  lemma FinalFilesAnswer(input: seq<Byte>, perShard: int, shards: seq<seq<Line>>, order: seq<nat>, listed: Objects,
                         objects: Objects, records: map<nat, Counts>, respond: Responder)
    requires IsSharding(NonBlank(ReadLines(input)), ShardSize(perShard), shards) && AnswersAreLines(respond)
    requires FinishedExcept(listed, records, shards, respond, {}) && multiset(order) == multiset(Upto(|shards|))
    requires Assembled(objects, listed, order)
    ensures Answered(objects, NonBlank(ReadLines(input)), ShardSize(perShard), respond,
                     SumCounts(order, Recorded(records)))
  {
    AllFinished(listed, records, shards, respond);
    EveryLineAnsweredOnce(input, perShard, shards, order, listed, Recorded(records), respond);
    SameAnswers(AllAnswers(shards, respond), NonBlank(ReadLines(input)), ShardSize(perShard), respond);
    NoFileNoLines(objects, listed, order);
  }

  // ---------------------------------------------------------------- where a line goes

  lemma {:induction false} PrefixIsShorter(shards: seq<seq<Line>>, n: nat)
    requires n <= |shards|
    ensures |Flatten(shards[..n])| <= |Flatten(shards)|
    decreases |shards|
  {
    if n == |shards| {
      assert shards[..n] == shards;
    } else {
      var init := shards[..|shards| - 1];
      PrefixIsShorter(init, n);
      assert init[..n] == shards[..n];
    }
  }

  /** Line `j` of shard `i` is line `i * size + j` of the input. */
  lemma LineOfShard(lines: seq<Line>, size: nat, shards: seq<seq<Line>>, i: nat, j: nat)
    requires IsSharding(lines, size, shards) && i < |shards| && j < |shards[i]|
    ensures i * size + j < |lines| && (i * size + j) / size == i && (i * size + j) % size == j
  {
    var front := shards[..i + 1];
    FlattenLength(front, size);
    PrefixIsShorter(shards, i + 1);
    assert front[|front| - 1] == shards[i];
    Euclidean(i * size + j, i, j, size);
  }

  lemma ShardOfLine(lines: seq<Line>, size: nat, shards: seq<seq<Line>>, k: nat) returns (i: nat, j: nat)
    requires IsSharding(lines, size, shards) && k < |lines| && size > 0
    ensures i == k / size && j == k % size && i < |shards| && j < |shards[i]|
  {
    i, j := k / size, k % size;
    LineIsInside(lines, size, shards, i, j);
  }

  lemma LineIsInside(lines: seq<Line>, size: nat, shards: seq<seq<Line>>, i: nat, j: nat)
    requires IsSharding(lines, size, shards) && j < size && i * size + j < |lines|
    ensures i < |shards| && j < |shards[i]|
  {
    FlattenLength(shards, size);
    var n := |shards|;
    if i >= n {
      Times(n, i, size);
    }
    if i == n - 1 {
      assert (n - 1) * size == i * size;
    }
  }

  lemma CountOfShards(lines: seq<Line>, size: nat, shards: seq<seq<Line>>)
    requires IsSharding(lines, size, shards) && size > 0
    ensures |shards| == CountShards(|lines|, size)
  {
    FlattenLength(shards, size);
    var n, len := |shards|, |lines|;
    if n == 0 {
      Euclidean(size - 1, 0, size - 1, size);
    } else {
      assert n * size == (n - 1) * size + size;
      Euclidean(len + size - 1, n, len + size - 1 - n * size, size);
    }
  }

  /**
   Some look at the task status, while a line is cut off, while it is answered or while results are
   gathered, fails.
   */
  ghost predicate Disturbed(lines: seq<Line>, size: nat, splitting: nat -> bool, working: (nat, nat) -> bool,
                            finalizing: nat -> bool)
    requires size > 0
  {
    || AnyLook(splitting, |lines|)
    || WorkDisturbed(lines, size, working)
    || AnyLook(finalizing, CountShards(|lines|, size) + 1)
  }

  function CountShards(n: nat, size: nat): nat
    requires size > 0
  {
    (n + size - 1) / size
  }

  /** The look at the task status before line `k` is answered, as one of its shard's looks. */
  predicate LookAt(working: (nat, nat) -> bool, size: nat, k: nat)
    requires size > 0
  {
    working(k / size, k % size)
  }

  ghost predicate WorkDisturbed(lines: seq<Line>, size: nat, working: (nat, nat) -> bool)
    requires size > 0
  {
    exists k: nat :: k < |lines| && LookAt(working, size, k)
  }

  lemma WorkIsDisturbedIff(lines: seq<Line>, size: nat, shards: seq<seq<Line>>, working: (nat, nat) -> bool)
    requires IsSharding(lines, size, shards) && size > 0
    ensures WorkDisturbed(lines, size, working) <==> !AllUndisturbed(shards, working, {})
  {
    if WorkDisturbed(lines, size, working) {
      DisturbedInShard(lines, size, shards, working);
    }
    if !AllUndisturbed(shards, working, {}) {
      DisturbedAtLine(lines, size, shards, working);
    }
  }

  lemma DisturbedInShard(lines: seq<Line>, size: nat, shards: seq<seq<Line>>, working: (nat, nat) -> bool)
    requires IsSharding(lines, size, shards) && size > 0 && WorkDisturbed(lines, size, working)
    ensures !AllUndisturbed(shards, working, {})
  {
    var k: nat :| k < |lines| && LookAt(working, size, k);
    var i, j := ShardOfLine(lines, size, shards, k);
    assert working(i, j);
    assert !Undisturbed(shards, working, i);
  }

  lemma DisturbedAtLine(lines: seq<Line>, size: nat, shards: seq<seq<Line>>, working: (nat, nat) -> bool)
    requires IsSharding(lines, size, shards) && size > 0 && !AllUndisturbed(shards, working, {})
    ensures WorkDisturbed(lines, size, working)
  {
    var i: nat :| i < |shards| && !Undisturbed(shards, working, i);
    var j: nat :| j < |shards[i]| && working(i, j);
    LineOfShard(lines, size, shards, i, j);
    assert LookAt(working, size, i * size + j);
  }

  /**
   The whole batch.  If it is not interrupted, the two final files hold exactly one answer for every
   non-blank line of the input, and it is interrupted iff some look at the task status says so.
   */
  method RunBatch(store: ObjectStore, perShard: int, respond: Responder, splitting: nat -> bool,
                  working: (nat, nat) -> bool, finalizing: nat -> bool) returns (result: BatchResult)
    requires AnswersAreLines(respond)
    modifies store
    ensures result.NoInput? <==> Source !in old(store.objects)
    ensures result.Delivered? ==>
              Answered(store.objects, NonBlank(ReadLines(old(store.objects)[Source])), ShardSize(perShard), respond,
                       result.counts)
    ensures Source in old(store.objects) ==>
              (result.Interrupted? <==> Disturbed(NonBlank(ReadLines(old(store.objects)[Source])), ShardSize(perShard),
                                                  splitting, working, finalizing))
  {
    if Source !in store.objects {
      return NoInput;
    }
    var input := store.objects[Source];
    var cut, shards := ShardInputFile(store, ReadLines(input), perShard, splitting);
    if cut.TaskStatusChanged? {
      return Interrupted;
    }
    StoredShardsReadBack(input, perShard, shards);
    WorkIsDisturbedIff(NonBlank(ReadLines(input)), ShardSize(perShard), shards, working);
    CountOfShards(NonBlank(ReadLines(input)), ShardSize(perShard), shards);
    var records, ok := ProcessAll(store, cut.shardCount, respond, working, shards);
    if !ok {
      return Interrupted;
    }
    var counts := GatherAll(store, cut.shardCount, records, finalizing, input, perShard, shards, respond);
    if counts.None? {
      return Interrupted;
    }
    return Delivered(counts.value);
  }

  /** The finalizer: the completed shards listed in any order, and their results put together. */
  method GatherAll(store: ObjectStore, n: nat, records: map<nat, Counts>, changed: nat -> bool,
                   ghost input: seq<Byte>, ghost perShard: int, ghost shards: seq<seq<Line>>, ghost respond: Responder)
    returns (counts: Option<Counts>)
    requires IsSharding(NonBlank(ReadLines(input)), ShardSize(perShard), shards) && AnswersAreLines(respond)
    requires FinishedExcept(store.objects, records, shards, respond, {}) && n == |shards|
    modifies store
    ensures counts.None? <==> AnyLook(changed, n + 1)
    ensures counts.Some? ==>
              Answered(store.objects, NonBlank(ReadLines(input)), ShardSize(perShard), respond, counts.value)
  {
    ghost var listed := store.objects;
    var order := ListMembers(Below(n));
    UptoIsSet(n);
    SameLength(order, Upto(n));
    UptoMembers(n);
    var final := Finalize(store, order, Recorded(records), changed);
    if !final.Finalized? {
      return None;
    }
    FinalFilesAnswer(input, perShard, shards, order, listed, store.objects, records, respond);
    return Some(final.counts);
  }

  lemma SameLength(a: seq<nat>, b: seq<nat>)
    requires multiset(a) == multiset(b)
    ensures |a| == |b|
  {
    assert |a| == |multiset(a)| && |b| == |multiset(b)|;
  }

  lemma StoredShardsReadBack(input: seq<Byte>, perShard: int, shards: seq<seq<Line>>)
    requires IsSharding(NonBlank(ReadLines(input)), ShardSize(perShard), shards)
    ensures ReadsBack(shards)
  {
    forall i | 0 <= i < |shards|
      ensures ReadLines(WriteLines(shards[i])) == shards[i]
    {
      StoredShardReadsBack(input, perShard, shards, i);
    }
  }
}
