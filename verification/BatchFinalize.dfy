/**
 Answering the shards and putting the answers together. The main result is `EveryLineAnsweredOnce`:
 whatever order the completed shards are listed in, the final files hold exactly one answer for every
 non-blank input line, and the request counts agree with the files.
 */
module BatchFinalize {
  import opened Arithmetic
  import opened Wrappers
  import opened BatchPipeline

  datatype Response = Response(line: Line, failed: bool)

  /** What the model service answers: shard number, position in the shard, request line. */
  type Responder = (nat, nat, Line) -> Response

  ghost predicate AnswersAreLines(respond: Responder) {
    forall shard, position, line :: NewlineFree(respond(shard, position, line).line)
  }

  /** One answer per non-empty line, in order. */
  function Answers(shard: nat, lines: seq<Line>, respond: Responder): seq<Response> {
    if lines == [] then []
    else
      var last := |lines| - 1;
      var rest := Answers(shard, lines[..last], respond);
      if lines[last] == [] then rest else rest + [respond(shard, last, lines[last])]
  }

  /** The lines of the answers that failed, or of those that did not. */
  function Select(answers: seq<Response>, failed: bool): seq<Line> {
    if answers == [] then []
    else
      var last := |answers| - 1;
      var rest := Select(answers[..last], failed);
      if answers[last].failed == failed then rest + [answers[last].line] else rest
  }

  lemma {:induction false} SelectPartitions(answers: seq<Response>)
    ensures |Select(answers, true)| + |Select(answers, false)| == |answers|
    decreases |answers|
  {
    if answers == [] {
    } else {
      SelectPartitions(answers[..|answers| - 1]);
    }
  }

  lemma {:induction false} SelectConcat(a: seq<Response>, b: seq<Response>, failed: bool)
    ensures Select(a + b, failed) == Select(a, failed) + Select(b, failed)
    decreases |b|
  {
    if b == [] {
      assert a + b == a;
    } else {
      var init := b[..|b| - 1];
      SelectConcat(a, init, failed);
      assert (a + b)[..|a + b| - 1] == a + init;
    }
  }

  lemma {:induction false} SelectedLines(answers: seq<Response>, failed: bool)
    requires forall k :: 0 <= k < |answers| ==> NewlineFree(answers[k].line)
    ensures AllNewlineFree(Select(answers, failed))
    decreases |answers|
  {
    if answers == [] {
    } else {
      SelectedLines(answers[..|answers| - 1], failed);
    }
  }

  lemma {:induction false} AnswerAt(shard: nat, lines: seq<Line>, respond: Responder)
    requires [] !in lines
    ensures |Answers(shard, lines, respond)| == |lines|
    ensures forall j :: 0 <= j < |lines| ==> Answers(shard, lines, respond)[j] == respond(shard, j, lines[j])
    decreases |lines|
  {
    if lines == [] {
    } else {
      var last := |lines| - 1;
      AnswerAt(shard, lines[..last], respond);
      assert lines[last] != [];
    }
  }

  // ---------------------------------------------------------------- one shard

  function ResultPath(shard: nat, failed: bool): Path {
    if failed then ShardError(shard) else ShardOutput(shard)
  }

  /** The object at `path` is the written form of `lines`, and is absent when there are none. */
  ghost predicate Holds(objects: map<Path, seq<Byte>>, path: Path, lines: seq<Line>) {
    if lines == [] then path !in objects else path in objects && objects[path] == WriteLines(lines)
  }

  ghost predicate SameExcept(before: map<Path, seq<Byte>>, after: map<Path, seq<Byte>>, changed: set<Path>) {
    forall p: Path :: p !in changed ==> (p in before <==> p in after) && (p in before ==> after[p] == before[p])
  }

  /** Both result files of a shard are what its answers say. */
  ghost predicate ShardDone(objects: map<Path, seq<Byte>>, shard: nat, answers: seq<Response>) {
    && Holds(objects, ShardOutput(shard), Select(answers, false))
    && Holds(objects, ShardError(shard), Select(answers, true))
  }

  datatype Counts = Counts(total: nat, completed: nat, failed: nat)

  datatype ShardOutcome = Processed(counts: Counts) | StatusChanged | MissingInput

  /** The answers sorted into successes and failures. */
  ghost predicate Sorted(answers: seq<Response>, outputLines: seq<Line>, errorLines: seq<Line>) {
    outputLines == Select(answers, false) && errorLines == Select(answers, true)
  }

  lemma MoreAnswers(shard: nat, lines: seq<Line>, n: nat, respond: Responder)
    requires n < |lines|
    ensures var before := Answers(shard, lines[..n], respond);
            Answers(shard, lines[..n + 1], respond)
            == if lines[n] == [] then before else before + [respond(shard, n, lines[n])]
  {
    assert lines[..n + 1][..n] == lines[..n];
  }

  lemma MoreSelected(answers: seq<Response>, response: Response)
    ensures Select(answers + [response], response.failed) == Select(answers, response.failed) + [response.line]
    ensures Select(answers + [response], !response.failed) == Select(answers, !response.failed)
  {
    assert (answers + [response])[..|answers|] == answers;
  }

  /** Sends a shard's lines one by one until the status has changed, sorting the answers. */
  method AnswerLines(shard: nat, lines: seq<Line>, respond: Responder, changed: nat -> bool)
    returns (stopped: bool, outputLines: seq<Line>, errorLines: seq<Line>)
    ensures stopped <==> AnyLook(changed, |lines|)
    ensures !stopped ==> Sorted(Answers(shard, lines, respond), outputLines, errorLines)
  {
    outputLines, errorLines := [], [];
    for n := 0 to |lines|
      invariant !AnyLook(changed, n)
      invariant Sorted(Answers(shard, lines[..n], respond), outputLines, errorLines)
    {
      if changed(n) {
        LookFound(changed, n, |lines|);
        return true, outputLines, errorLines;
      }
      OneMoreLook(changed, n);
      MoreAnswers(shard, lines, n, respond);
      if lines[n] == [] {
        continue;
      }
      var response := respond(shard, n, lines[n]);
      MoreSelected(Answers(shard, lines[..n], respond), response);
      if response.failed {
        errorLines := errorLines + [response.line];
      } else {
        outputLines := outputLines + [response.line];
      }
    }
    assert lines[..|lines|] == lines;
    return false, outputLines, errorLines;
  }

  /** A result file is stored only when it has lines. */
  method StoreResults(store: ObjectStore, shard: nat, outputLines: seq<Line>, errorLines: seq<Line>)
    requires ShardOutput(shard) !in store.objects && ShardError(shard) !in store.objects
    modifies store
    ensures Holds(store.objects, ShardOutput(shard), outputLines)
    ensures Holds(store.objects, ShardError(shard), errorLines)
    ensures SameExcept(old(store.objects), store.objects, {ShardOutput(shard), ShardError(shard)})
  {
    if outputLines != [] {
      store.Put(ShardOutput(shard), outputLines);
    }
    if errorLines != [] {
      store.Put(ShardError(shard), errorLines);
    }
  }

  /** Removes the results of an earlier attempt, answers the shard's lines and stores the new results. */
  method ProcessShard(store: ObjectStore, shard: nat, respond: Responder, changed: nat -> bool)
    returns (outcome: ShardOutcome)
    modifies store
    ensures outcome.MissingInput? <==> ShardInput(shard) !in old(store.objects)
    ensures !outcome.MissingInput? ==>
              (outcome.StatusChanged? <==> AnyLook(changed, |ReadLines(old(store.objects)[ShardInput(shard)])|))
    ensures outcome.Processed? ==>
              var answers := Answers(shard, ReadLines(old(store.objects)[ShardInput(shard)]), respond);
              && ShardDone(store.objects, shard, answers)
              && outcome.counts == Counts(|answers|, |Select(answers, false)|, |Select(answers, true)|)
    ensures !outcome.Processed? ==> ShardDone(store.objects, shard, [])
    ensures SameExcept(old(store.objects), store.objects, {ShardOutput(shard), ShardError(shard)})
  {
    store.Delete({ShardOutput(shard), ShardError(shard)});
    if ShardInput(shard) !in store.objects {
      return MissingInput;
    }
    var lines := ReadLines(store.objects[ShardInput(shard)]);
    var stopped, outputLines, errorLines := AnswerLines(shard, lines, respond, changed);
    if stopped {
      return StatusChanged;
    }
    StoreResults(store, shard, outputLines, errorLines);
    SelectPartitions(Answers(shard, lines, respond));
    return Processed(Counts(|outputLines| + |errorLines|, |outputLines|, |errorLines|));
  }

  // ---------------------------------------------------------------- gathering

  /** The result files of the listed shards, one after the other. */
  function GatherBytes(order: seq<nat>, objects: map<Path, seq<Byte>>, failed: bool): seq<Byte> {
    if order == [] then []
    else
      var last := |order| - 1;
      var path := ResultPath(order[last], failed);
      GatherBytes(order[..last], objects, failed) + if path in objects then objects[path] else []
  }

  predicate AnyFile(order: seq<nat>, objects: map<Path, seq<Byte>>, failed: bool) {
    exists i :: 0 <= i < |order| && ResultPath(order[i], failed) in objects
  }

  function SumCounts(order: seq<nat>, counts: nat -> Counts): Counts {
    if order == [] then Counts(0, 0, 0)
    else
      var last := |order| - 1;
      var rest, c := SumCounts(order[..last], counts), counts(order[last]);
      Counts(rest.total + c.total, rest.completed + c.completed, rest.failed + c.failed)
  }

  ghost predicate Gathered(objects: map<Path, seq<Byte>>, path: Path, content: seq<Byte>, present: bool) {
    if present then path in objects && objects[path] == content else path !in objects && content == []
  }

  datatype Finalized = Finalized(outputBytes: nat, errorBytes: nat, counts: Counts) | Stopped | AppendRejected

  lemma MoreFiles(order: seq<nat>, shard: nat, listed: map<Path, seq<Byte>>, failed: bool)
    ensures AnyFile(order + [shard], listed, failed)
            <==> AnyFile(order, listed, failed) || ResultPath(shard, failed) in listed
    ensures var path := ResultPath(shard, failed);
            GatherBytes(order + [shard], listed, failed)
            == if path in listed then GatherBytes(order, listed, failed) + listed[path]
                    else GatherBytes(order, listed, failed)
  {
    var longer := order + [shard];
    assert longer[..|order|] == order && longer[|order|] == shard;
    if AnyFile(order, listed, failed) {
      var i :| 0 <= i < |order| && ResultPath(order[i], failed) in listed;
      assert longer[i] == order[i];
    }
  }

  function FinalPath(failed: bool): Path {
    if failed then FinalError else FinalOutput
  }

  /** The final file holds the result files of the listed shards. */
  ghost predicate HoldsAll(objects: map<Path, seq<Byte>>, listed: map<Path, seq<Byte>>, order: seq<nat>, failed: bool) {
    Gathered(objects, FinalPath(failed), GatherBytes(order, listed, failed), AnyFile(order, listed, failed))
  }

  /** One more listed file: the final file grows by it. */
  lemma ListedIsGathered(before: map<Path, seq<Byte>>, after: map<Path, seq<Byte>>, listed: map<Path, seq<Byte>>,
                         order: seq<nat>, shard: nat, failed: bool)
    requires HoldsAll(before, listed, order, failed) && ResultPath(shard, failed) in listed
    requires FinalPath(failed) in after
    requires after[FinalPath(failed)] == GatherBytes(order, listed, failed) + listed[ResultPath(shard, failed)]
    ensures HoldsAll(after, listed, order + [shard], failed)
    ensures GatherBytes(order + [shard], listed, failed) == after[FinalPath(failed)]
  {
    MoreFiles(order, shard, listed, failed);
  }

  lemma UnlistedIsGathered(objects: map<Path, seq<Byte>>, listed: map<Path, seq<Byte>>, order: seq<nat>, shard: nat,
                           failed: bool)
    requires HoldsAll(objects, listed, order, failed) && ResultPath(shard, failed) !in listed
    ensures HoldsAll(objects, listed, order + [shard], failed)
    ensures GatherBytes(order + [shard], listed, failed) == GatherBytes(order, listed, failed)
  {
    MoreFiles(order, shard, listed, failed);
  }

  /** The shard file is still there, and the tracked position is the end of the final file. */
  lemma AppendsAtEnd(objects: map<Path, seq<Byte>>, listed: map<Path, seq<Byte>>, order: seq<nat>, shard: nat,
                     failed: bool)
    requires SameExcept(listed, objects, {FinalOutput, FinalError}) && HoldsAll(objects, listed, order, failed)
    requires ResultPath(shard, failed) in listed
    ensures var source, target := ResultPath(shard, failed), FinalPath(failed);
            && source in objects && objects[source] == listed[source]
            && (if target in objects then objects[target] else []) == GatherBytes(order, listed, failed)
  {
  }

  /** Appends a stored file at the end of the final file. */
  method AppendFile(store: ObjectStore, source: Path, target: Path, position: nat, ghost content: seq<Byte>)
    returns (next: Option<nat>)
    requires source in store.objects && position == |content|
    requires (if target in store.objects then store.objects[target] else []) == content
    modifies store
    ensures next == Some(|content| + |old(store.objects)[source]|)
    ensures target in store.objects && store.objects[target] == content + old(store.objects)[source]
    ensures SameExcept(old(store.objects), store.objects, {target})
  {
    next := store.AppendToObject(source, target, position);
  }

  /** Appends one shard file, if it was listed, at the tracked position. */
  method AppendShard(store: ObjectStore, listed: map<Path, seq<Byte>>, shard: nat, failed: bool, position: nat,
                     ghost order: seq<nat>) returns (next: Option<nat>)
    requires SameExcept(listed, store.objects, {FinalOutput, FinalError})
    requires HoldsAll(store.objects, listed, order, failed)
    requires position == |GatherBytes(order, listed, failed)|
    modifies store
    ensures next == Some(|GatherBytes(order + [shard], listed, failed)|)
    ensures HoldsAll(store.objects, listed, order + [shard], failed)
    ensures SameExcept(old(store.objects), store.objects, {FinalPath(failed)})
  {
    var source, target := ResultPath(shard, failed), FinalPath(failed);
    next := Some(position);
    if source in listed {
      ghost var before := store.objects;
      AppendsAtEnd(before, listed, order, shard, failed);
      next := AppendFile(store, source, target, position, GatherBytes(order, listed, failed));
      ListedIsGathered(before, store.objects, listed, order, shard, failed);
    } else {
      UnlistedIsGathered(store.objects, listed, order, shard, failed);
    }
  }

  /** Both final files hold what the listed shards contributed, and nothing else was touched. */
  ghost predicate Assembled(objects: map<Path, seq<Byte>>, listed: map<Path, seq<Byte>>, order: seq<nat>) {
    && SameExcept(listed, objects, {FinalOutput, FinalError})
    && HoldsAll(objects, listed, order, false) && HoldsAll(objects, listed, order, true)
  }

  /** The output and the error file of one shard; the positions say how long the final files are. */
  method AppendBoth(store: ObjectStore, listed: map<Path, seq<Byte>>, shard: nat, outputPosition: nat,
                    errorPosition: nat,
                    ghost order: seq<nat>) returns (nextOutput: Option<nat>, nextError: Option<nat>)
    requires Assembled(store.objects, listed, order)
    requires outputPosition == |GatherBytes(order, listed, false)|
    requires errorPosition == |GatherBytes(order, listed, true)|
    modifies store
    ensures Assembled(store.objects, listed, order + [shard])
    ensures nextOutput == Some(|GatherBytes(order + [shard], listed, false)|)
    ensures nextError == Some(|GatherBytes(order + [shard], listed, true)|)
  {
    nextOutput := AppendShard(store, listed, shard, false, outputPosition, order);
    nextError := AppendShard(store, listed, shard, true, errorPosition, order);
  }

  lemma MoreCounts(order: seq<nat>, shard: nat, counts: nat -> Counts)
    ensures var rest, c := SumCounts(order, counts), counts(shard);
            SumCounts(order + [shard], counts)
                    == Counts(rest.total + c.total, rest.completed + c.completed, rest.failed + c.failed)
  {
    assert (order + [shard])[..|order|] == order;
  }

  /** Writes the final files; `changed(k)` is the k-th look at the task status. */
  method Finalize(store: ObjectStore, order: seq<nat>, counts: nat -> Counts, changed: nat -> bool)
    returns (result: Finalized)
    modifies store
    ensures !result.AppendRejected?
    ensures result.Stopped? <==> exists k :: 0 <= k <= |order| && changed(k)
    ensures result.Finalized? ==>
              var before := old(store.objects);
              && Assembled(store.objects, before, order)
              && result == Finalized(|GatherBytes(order, before, false)|, |GatherBytes(order, before, true)|,
                                     SumCounts(order, counts))
    ensures SameExcept(old(store.objects), store.objects, {FinalOutput, FinalError})
  {
    var listed := store.objects;
    store.Delete({FinalOutput, FinalError});
    var outputPosition: nat, errorPosition: nat, total := 0, 0, Counts(0, 0, 0);
    for n := 0 to |order|
      invariant forall k :: 0 <= k < n ==> !changed(k)
      invariant Assembled(store.objects, listed, order[..n])
      invariant outputPosition == |GatherBytes(order[..n], listed, false)|
      invariant errorPosition == |GatherBytes(order[..n], listed, true)|
      invariant total == SumCounts(order[..n], counts)
    {
      if changed(n) {
        return Stopped;
      }
      assert order[..n + 1] == order[..n] + [order[n]];
      var output, errors := AppendBoth(store, listed, order[n], outputPosition, errorPosition, order[..n]);
      if output.None? || errors.None? {
        return AppendRejected;
      }
      outputPosition, errorPosition := output.value, errors.value;
      MoreCounts(order[..n], order[n], counts);
      var c := counts(order[n]);
      total := Counts(total.total + c.total, total.completed + c.completed, total.failed + c.failed);
    }
    assert order[..|order|] == order;
    if changed(|order|) {
      return Stopped;
    }
    return Finalized(outputPosition, errorPosition, total);
  }

  // ---------------------------------------------------------------- the whole batch

  /** Lines of the listed shards, one shard after the other. */
  function GatherLines(order: seq<nat>, parts: nat -> seq<Line>): seq<Line> {
    if order == [] then [] else GatherLines(order[..|order| - 1], parts) + parts(order[|order| - 1])
  }

  lemma {:induction false} GatherConcat(a: seq<nat>, b: seq<nat>, parts: nat -> seq<Line>)
    ensures GatherLines(a + b, parts) == GatherLines(a, parts) + GatherLines(b, parts)
    decreases |b|
  {
    if b == [] {
      assert a + b == a;
    } else {
      var init := b[..|b| - 1];
      GatherConcat(a, init, parts);
      assert (a + b)[..|a + b| - 1] == a + init;
    }
  }

  /** The order of the shards does not matter for what is gathered. */
  lemma {:induction false} GatherAnyOrder(a: seq<nat>, b: seq<nat>, parts: nat -> seq<Line>)
    requires multiset(a) == multiset(b)
    ensures multiset(GatherLines(a, parts)) == multiset(GatherLines(b, parts))
    decreases |a|
  {
    if a == [] {
      assert |b| == |multiset(b)| == 0;
    } else {
      var init, x := a[..|a| - 1], a[|a| - 1];
      assert a == init + [x] && multiset(a) == multiset(init) + multiset{x};
      assert x in multiset(b);
      var i :| 0 <= i < |b| && b[i] == x;
      var front, back := b[..i], b[i + 1..];
      assert b == front + [x] + back;
      GatherMiddle(front, x, back, parts);
      IdsMiddle(front, x, back);
      SameRest(multiset(init), multiset(front + back), x);
      GatherAnyOrder(init, front + back, parts);
      GatherOne(init, x, parts);
    }
  }

  lemma IdsMiddle(front: seq<nat>, x: nat, back: seq<nat>)
    ensures multiset(front + [x] + back) == multiset(front + back) + multiset{x}
  {
  }

  lemma SameRest(a: multiset<nat>, b: multiset<nat>, x: nat)
    requires a + multiset{x} == b + multiset{x}
    ensures a == b
  {
    assert a == a + multiset{x} - multiset{x};
    assert b == b + multiset{x} - multiset{x};
  }

  lemma GatherOne(order: seq<nat>, x: nat, parts: nat -> seq<Line>)
    ensures GatherLines(order + [x], parts) == GatherLines(order, parts) + parts(x)
  {
    assert (order + [x])[..|order|] == order;
  }

  lemma GatherMiddle(front: seq<nat>, x: nat, back: seq<nat>, parts: nat -> seq<Line>)
    ensures multiset(GatherLines(front + [x] + back, parts))
            == multiset(GatherLines(front + back, parts)) + multiset(parts(x))
  {
    GatherConcat(front, back, parts);
    GatherConcat(front + [x], back, parts);
    GatherOne(front, x, parts);
    MiddleOut(GatherLines(front, parts), parts(x), GatherLines(back, parts));
  }

  lemma MiddleOut(a: seq<Line>, b: seq<Line>, c: seq<Line>)
    ensures multiset(a + b + c) == multiset(a + c) + multiset(b)
  {
  }

  function Upto(n: nat): seq<nat> {
    if n == 0 then [] else Upto(n - 1) + [n - 1]
  }

  ghost function ShardLines(shards: seq<seq<Line>>, respond: Responder, failed: bool): nat -> seq<Line> {
    (i: nat) => if i < |shards| then Select(Answers(i, shards[i], respond), failed) else []
  }

  /** The answers of all shards, in shard order. */
  function AllAnswers(shards: seq<seq<Line>>, respond: Responder): seq<Response> {
    if shards == [] then []
    else
      var last := |shards| - 1;
      AllAnswers(shards[..last], respond) + Answers(last, shards[last], respond)
  }

  /** What the service answers to line number k: request k % size of shard k / size. */
  function AnswerTo(lines: seq<Line>, size: nat, respond: Responder, k: nat): Response
    requires size > 0 && k < |lines|
  {
    respond(k / size, k % size, lines[k])
  }

  ghost predicate AnswersLines(answers: seq<Response>, lines: seq<Line>, size: nat, respond: Responder)
    requires size > 0
  {
    && |answers| == |lines|
    && forall k: nat :: k < |lines| ==> answers[k] == AnswerTo(lines, size, respond, k)
  }

  lemma AllAnswered(shards: seq<seq<Line>>, size: nat, respond: Responder)
    requires IsSharding(Flatten(shards), size, shards) && size > 0
    requires forall i :: 0 <= i < |shards| ==> [] !in shards[i]
    ensures AnswersLines(AllAnswers(shards, respond), Flatten(shards), size, respond)
  {
    AllAnswersLength(shards, respond);
    forall k: nat | k < |Flatten(shards)|
      ensures AllAnswers(shards, respond)[k] == AnswerTo(Flatten(shards), size, respond, k)
    {
      AllAnswersAt(shards, size, respond, k);
    }
  }

  lemma {:induction false} AllAnswersAt(shards: seq<seq<Line>>, size: nat, respond: Responder, k: nat)
    requires IsSharding(Flatten(shards), size, shards) && k < |Flatten(shards)| && size > 0
    requires forall i :: 0 <= i < |shards| ==> [] !in shards[i]
    ensures |AllAnswers(shards, respond)| == |Flatten(shards)|
    ensures AllAnswers(shards, respond)[k] == AnswerTo(Flatten(shards), size, respond, k)
    decreases |shards|
  {
    var n := |shards| - 1;
    var init := shards[..n];
    AllAnswersLength(init, respond);
    AnswerAt(n, shards[n], respond);
    if k < |Flatten(init)| {
      AllAnswersAt(init, size, respond, k);
    } else {
      FlattenLength(init, size);
      assert |Flatten(init)| == n * size;
      Euclidean(k, n, k - n * size, size);
    }
  }

  lemma {:induction false} AllAnswersLength(shards: seq<seq<Line>>, respond: Responder)
    requires forall i :: 0 <= i < |shards| ==> [] !in shards[i]
    ensures |AllAnswers(shards, respond)| == |Flatten(shards)|
    decreases |shards|
  {
    if shards == [] {
    } else {
      var n := |shards| - 1;
      AllAnswersLength(shards[..n], respond);
      AnswerAt(n, shards[n], respond);
    }
  }

  lemma OneMoreShard(shards: seq<seq<Line>>, respond: Responder, n: nat)
    requires n < |shards|
    ensures AllAnswers(shards[..n + 1], respond) == AllAnswers(shards[..n], respond) + Answers(n, shards[n], respond)
  {
    assert shards[..n + 1][..n] == shards[..n];
  }

  /** Gathering the shards in their own order selects from all the answers. */
  lemma {:induction false} GatherInOrder(shards: seq<seq<Line>>, respond: Responder, failed: bool, n: nat)
    requires n <= |shards|
    ensures GatherLines(Upto(n), ShardLines(shards, respond, failed))
            == Select(AllAnswers(shards[..n], respond), failed)
    decreases n
  {
    if n == 0 {
    } else {
      GatherInOrder(shards, respond, failed, n - 1);
      GatherOne(Upto(n - 1), n - 1, ShardLines(shards, respond, failed));
      OneMoreShard(shards, respond, n - 1);
      SelectConcat(AllAnswers(shards[..n - 1], respond), Answers(n - 1, shards[n - 1], respond), failed);
    }
  }

  ghost predicate AllDone(objects: map<Path, seq<Byte>>, shards: seq<seq<Line>>, respond: Responder) {
    forall i :: 0 <= i < |shards| ==> ShardDone(objects, i, Answers(i, shards[i], respond))
  }

  lemma {:induction false} UptoMembers(n: nat)
    ensures |Upto(n)| == n && forall i: nat :: i in Upto(n) <==> i < n
  {
    if n == 0 {
    } else {
      UptoMembers(n - 1);
    }
  }

  /** The bytes gathered from finished shards are their lines, each ended by a newline. */
  lemma {:induction false} GatheredBytes(order: seq<nat>, objects: map<Path, seq<Byte>>, shards: seq<seq<Line>>,
                                         respond: Responder, failed: bool)
    requires AllDone(objects, shards, respond) && forall k :: 0 <= k < |order| ==> order[k] < |shards|
    ensures GatherBytes(order, objects, failed) == Terminated(GatherLines(order, ShardLines(shards, respond, failed)))
    decreases |order|
  {
    if order == [] {
    } else {
      var last := |order| - 1;
      var i := order[last];
      GatheredBytes(order[..last], objects, shards, respond, failed);
      var lines := Select(Answers(i, shards[i], respond), failed);
      assert ShardDone(objects, i, Answers(i, shards[i], respond));
      assert Holds(objects, ResultPath(i, failed), lines);
      if lines != [] {
        WriteIsTerminated(lines);
      }
      TerminatedConcat(GatherLines(order[..last], ShardLines(shards, respond, failed)), lines);
    }
  }

  lemma {:induction false} GatheredAreLines(order: seq<nat>, shards: seq<seq<Line>>, respond: Responder, failed: bool)
    requires AnswersAreLines(respond)
    ensures AllNewlineFree(GatherLines(order, ShardLines(shards, respond, failed)))
    decreases |order|
  {
    if order == [] {
    } else {
      var last := |order| - 1;
      GatheredAreLines(order[..last], shards, respond, failed);
      if order[last] < |shards| {
        AnswersComeFromService(order[last], shards[order[last]], respond);
        SelectedLines(Answers(order[last], shards[order[last]], respond), failed);
      }
    }
  }

  lemma {:induction false} AnswersComeFromService(shard: nat, lines: seq<Line>, respond: Responder)
    requires AnswersAreLines(respond)
    ensures forall k :: 0 <= k < |Answers(shard, lines, respond)| ==>
              NewlineFree(Answers(shard, lines, respond)[k].line)
    decreases |lines|
  {
    if lines == [] {
    } else {
      AnswersComeFromService(shard, lines[..|lines| - 1], respond);
    }
  }

  /** The counts written beside each shard are those of its answers. */
  ghost predicate CountsMatch(counts: nat -> Counts, shards: seq<seq<Line>>, respond: Responder) {
    forall i: nat :: i < |shards| ==>
      var answers := Answers(i, shards[i], respond);
      counts(i) == Counts(|answers|, |Select(answers, false)|, |Select(answers, true)|)
  }

  lemma {:induction false} SummedCounts(order: seq<nat>, counts: nat -> Counts, shards: seq<seq<Line>>,
                                        respond: Responder)
    requires CountsMatch(counts, shards, respond) && forall k :: 0 <= k < |order| ==> order[k] < |shards|
    ensures SumCounts(order, counts).completed == |GatherLines(order, ShardLines(shards, respond, false))|
    ensures SumCounts(order, counts).failed == |GatherLines(order, ShardLines(shards, respond, true))|
    ensures SumCounts(order, counts).total == SumCounts(order, counts).completed + SumCounts(order, counts).failed
    decreases |order|
  {
    if order == [] {
    } else {
      var last := |order| - 1;
      SummedCounts(order[..last], counts, shards, respond);
      SelectPartitions(Answers(order[last], shards[order[last]], respond));
    }
  }

  lemma ListedShards(order: seq<nat>, n: nat)
    requires multiset(order) == multiset(Upto(n))
    ensures forall k :: 0 <= k < |order| ==> order[k] < n
  {
    UptoMembers(n);
    forall k | 0 <= k < |order|
      ensures order[k] < n
    {
      assert order[k] in multiset(order);
      assert order[k] in Upto(n);
    }
  }

  /** What one of the two final files reads back as. */
  lemma FinalFile(order: seq<nat>, objects: map<Path, seq<Byte>>, shards: seq<seq<Line>>, respond: Responder,
                  failed: bool)
    requires AllDone(objects, shards, respond) && multiset(order) == multiset(Upto(|shards|))
    requires AnswersAreLines(respond)
    ensures var lines := ReadLines(GatherBytes(order, objects, failed));
            && lines == GatherLines(order, ShardLines(shards, respond, failed))
            && multiset(lines) == multiset(Select(AllAnswers(shards, respond), failed))
  {
    ListedShards(order, |shards|);
    GatheredBytes(order, objects, shards, respond, failed);
    GatheredAreLines(order, shards, respond, failed);
    ReadTerminated(GatherLines(order, ShardLines(shards, respond, failed)));
    GatherAnyOrder(order, Upto(|shards|), ShardLines(shards, respond, failed));
    GatherInOrder(shards, respond, failed, |shards|);
    assert shards[..|shards|] == shards;
  }

  /**
   End to end: once every shard is done, the two final files together hold one answer for each non-blank
   input line, successes in one and failures in the other, and the summed counts say how many of each.
   */
  lemma EveryLineAnsweredOnce(input: seq<Byte>, perShard: int, shards: seq<seq<Line>>, order: seq<nat>,
                              objects: map<Path, seq<Byte>>, counts: nat -> Counts, respond: Responder)
    requires IsSharding(NonBlank(ReadLines(input)), ShardSize(perShard), shards)
    requires AllDone(objects, shards, respond) && CountsMatch(counts, shards, respond) && AnswersAreLines(respond)
    requires multiset(order) == multiset(Upto(|shards|))
    ensures var lines := NonBlank(ReadLines(input));
            var answers := AllAnswers(shards, respond);
            var output := ReadLines(GatherBytes(order, objects, false));
            var errors := ReadLines(GatherBytes(order, objects, true));
            && AnswersLines(answers, lines, ShardSize(perShard), respond)
            && multiset(output) == multiset(Select(answers, false))
            && multiset(errors) == multiset(Select(answers, true))
            && SumCounts(order, counts) == Counts(|lines|, |output|, |errors|)
  {
    ShardsHaveNoBlank(input, perShard, shards);
    AllAnswered(shards, ShardSize(perShard), respond);
    FinalFile(order, objects, shards, respond, false);
    FinalFile(order, objects, shards, respond, true);
    CountsAgree(order, objects, counts, shards, respond);
  }

  lemma CountsAgree(order: seq<nat>, objects: map<Path, seq<Byte>>, counts: nat -> Counts, shards: seq<seq<Line>>,
                    respond: Responder)
    requires AllDone(objects, shards, respond) && CountsMatch(counts, shards, respond) && AnswersAreLines(respond)
    requires multiset(order) == multiset(Upto(|shards|))
    ensures SumCounts(order, counts)
         == Counts(|AllAnswers(shards, respond)|, |ReadLines(GatherBytes(order, objects, false))|,
                   |ReadLines(GatherBytes(order, objects, true))|)
  {
    ListedShards(order, |shards|);
    FinalFile(order, objects, shards, respond, false);
    FinalFile(order, objects, shards, respond, true);
    SummedCounts(order, counts, shards, respond);
    SelectPartitions(AllAnswers(shards, respond));
    SameSize(ReadLines(GatherBytes(order, objects, false)), Select(AllAnswers(shards, respond), false));
    SameSize(ReadLines(GatherBytes(order, objects, true)), Select(AllAnswers(shards, respond), true));
  }

  lemma SameSize(a: seq<Line>, b: seq<Line>)
    requires multiset(a) == multiset(b)
    ensures |a| == |b|
  {
    assert |a| == |multiset(a)| && |b| == |multiset(b)|;
  }

  lemma {:induction false} FlattenMember(shards: seq<seq<Line>>, i: nat)
    requires i < |shards|
    ensures forall line :: line in shards[i] ==> line in Flatten(shards)
    decreases |shards|
  {
    if i < |shards| - 1 {
      FlattenMember(shards[..|shards| - 1], i);
    }
  }

  lemma ShardsHaveNoBlank(input: seq<Byte>, perShard: int, shards: seq<seq<Line>>)
    requires IsSharding(NonBlank(ReadLines(input)), ShardSize(perShard), shards)
    ensures forall i :: 0 <= i < |shards| ==> [] !in shards[i]
  {
    SplitPiecesAreNewlineFree(input);
    NonBlankLines(ReadLines(input));
    forall i | 0 <= i < |shards|
      ensures [] !in shards[i]
    {
      FlattenMember(shards, i);
    }
  }

  /** A stored shard reads back as itself, so processing it answers exactly its lines. */
  lemma StoredShardReadsBack(input: seq<Byte>, perShard: int, shards: seq<seq<Line>>, i: nat)
    requires IsSharding(NonBlank(ReadLines(input)), ShardSize(perShard), shards) && i < |shards|
    ensures ReadLines(WriteLines(shards[i])) == shards[i]
  {
    SplitPiecesAreNewlineFree(input);
    NonBlankLines(ReadLines(input));
    FlattenMember(shards, i);
    assert AllNewlineFree(shards[i]) by {
      forall j | 0 <= j < |shards[i]|
        ensures NewlineFree(shards[i][j])
      {
        assert shards[i][j] in Flatten(shards);
      }
    }
    RoundTripIff(shards[i]);
  }
}
