/**
 The data path of a batch: the input file is split into lines, blank lines are dropped, the rest is
 cut into shards; every shard line gets one response, which goes to the shard's output or error file;
 the shard files are appended, in whatever order the store lists the shards, to the final files.
 */
module BatchPipeline {
  import opened Wrappers

  type Byte = b: int | 0 <= b < 256
  type Line = seq<Byte>

  const NEWLINE: Byte := 10

  // ---------------------------------------------------------------- lines

  /** All pieces between newlines; never empty. */
  function Split(content: seq<Byte>): (pieces: seq<Line>)
    ensures |pieces| > 0
  {
    if content == [] then [[]]
    else
      var rest := Split(content[1..]);
      if content[0] == NEWLINE then [[]] + rest else [[content[0]] + rest[0]] + rest[1..]
  }

  function Join(lines: seq<Line>): seq<Byte> {
    if lines == [] then [] else if |lines| == 1 then lines[0] else lines[0] + [NEWLINE] + Join(lines[1..])
  }

  /** Pieces of the content, without the empty piece after a final newline. */
  function ReadLines(content: seq<Byte>): seq<Line> {
    var pieces := Split(content);
    if pieces[|pieces| - 1] == [] then pieces[..|pieces| - 1] else pieces
  }

  function WriteLines(lines: seq<Line>): seq<Byte> {
    Join(lines) + [NEWLINE]
  }

  predicate NewlineFree(line: Line) {
    NEWLINE !in line
  }

  predicate AllNewlineFree(lines: seq<Line>) {
    forall i :: 0 <= i < |lines| ==> NewlineFree(lines[i])
  }

  /** Every line followed by a newline. */
  function Terminated(lines: seq<Line>): seq<Byte> {
    if lines == [] then [] else lines[0] + [NEWLINE] + Terminated(lines[1..])
  }

  lemma {:induction false} WriteIsTerminated(lines: seq<Line>)
    requires lines != []
    ensures WriteLines(lines) == Terminated(lines)
    decreases |lines|
  {
    if |lines| > 1 {
      WriteIsTerminated(lines[1..]);
      assert WriteLines(lines) == lines[0] + [NEWLINE] + (Join(lines[1..]) + [NEWLINE]);
    } else {
      assert Terminated(lines[1..]) == [];
    }
  }

  lemma {:induction false} SplitPiecesAreNewlineFree(content: seq<Byte>)
    ensures AllNewlineFree(Split(content))
    decreases |content|
  {
    if content == [] {
    } else {
      SplitPiecesAreNewlineFree(content[1..]);
    }
  }

  lemma {:induction false} SplitAfterLine(line: Line, rest: seq<Byte>)
    requires NewlineFree(line)
    ensures Split(line + [NEWLINE] + rest) == [line] + Split(rest)
    decreases |line|
  {
    var content := line + [NEWLINE] + rest;
    if line == [] {
      assert content[1..] == rest;
    } else {
      assert content[1..] == line[1..] + [NEWLINE] + rest;
      SplitAfterLine(line[1..], rest);
      assert [line[0]] + line[1..] == line;
    }
  }

  lemma {:induction false} SplitTerminated(lines: seq<Line>)
    requires AllNewlineFree(lines)
    ensures Split(Terminated(lines)) == lines + [[]]
    decreases |lines|
  {
    if lines == [] {
    } else {
      assert NewlineFree(lines[0]);
      assert AllNewlineFree(lines[1..]);
      SplitAfterLine(lines[0], Terminated(lines[1..]));
      SplitTerminated(lines[1..]);
      assert [lines[0]] + (lines[1..] + [[]]) == lines + [[]];
    }
  }

  lemma ReadTerminated(lines: seq<Line>)
    requires AllNewlineFree(lines)
    ensures ReadLines(Terminated(lines)) == lines
  {
    SplitTerminated(lines);
    assert (lines + [[]])[..|lines|] == lines;
  }

  /** Reading back what was written gives the lines iff there is at least one and none contains a newline. */
  lemma RoundTripIff(lines: seq<Line>)
    ensures ReadLines(WriteLines(lines)) == lines <==> lines != [] && AllNewlineFree(lines)
  {
    if lines == [] {
      assert WriteLines(lines) == [NEWLINE];
      assert Split([NEWLINE]) == [[]] + Split([]);
      assert ReadLines([NEWLINE]) == [[]];
    } else if AllNewlineFree(lines) {
      WriteIsTerminated(lines);
      ReadTerminated(lines);
    } else {
      SplitPiecesAreNewlineFree(WriteLines(lines));
    }
  }

  lemma {:induction false} TerminatedConcat(a: seq<Line>, b: seq<Line>)
    ensures Terminated(a + b) == Terminated(a) + Terminated(b)
    decreases |a|
  {
    if a == [] {
      assert a + b == b;
    } else {
      TerminatedConcat(a[1..], b);
      assert (a + b)[1..] == a[1..] + b;
    }
  }

  /** Appending written files concatenates their lines. */
  lemma ReadAppended(a: seq<Line>, b: seq<Line>)
    requires a != [] && b != [] && AllNewlineFree(a) && AllNewlineFree(b)
    ensures ReadLines(WriteLines(a) + WriteLines(b)) == a + b
  {
    WriteIsTerminated(a);
    WriteIsTerminated(b);
    TerminatedConcat(a, b);
    ReadTerminated(a + b);
  }

  // ---------------------------------------------------------------- blank lines and shards

  predicate IsSpace(b: Byte) {
    b == 32 || 9 <= b <= 13
  }

  function TrimLeft(line: Line): Line {
    if line != [] && IsSpace(line[0]) then TrimLeft(line[1..]) else line
  }

  function TrimRight(line: Line): Line {
    if line != [] && IsSpace(line[|line| - 1]) then TrimRight(line[..|line| - 1]) else line
  }

  function Trim(line: Line): Line {
    TrimRight(TrimLeft(line))
  }

  lemma {:induction false} TrimLeftSuffix(line: Line)
    ensures exists k :: 0 <= k <= |line| && TrimLeft(line) == line[k..]
    decreases |line|
  {
    if line != [] && IsSpace(line[0]) {
      TrimLeftSuffix(line[1..]);
      var k :| 0 <= k <= |line[1..]| && TrimLeft(line[1..]) == line[1..][k..];
      assert line[1..][k..] == line[k + 1..];
    } else {
      assert line[0..] == line;
    }
  }

  lemma {:induction false} TrimRightPrefix(line: Line)
    ensures exists k :: 0 <= k <= |line| && TrimRight(line) == line[..k]
    decreases |line|
  {
    if line != [] && IsSpace(line[|line| - 1]) {
      var init := line[..|line| - 1];
      TrimRightPrefix(init);
      var k :| 0 <= k <= |init| && TrimRight(init) == init[..k];
      assert init[..k] == line[..k];
    } else {
      assert line[..|line|] == line;
    }
  }

  lemma TrimKeepsNewlineFree(line: Line)
    requires NewlineFree(line)
    ensures NewlineFree(Trim(line))
  {
    TrimLeftSuffix(line);
    TrimRightPrefix(TrimLeft(line));
  }

  /** The trimmed lines that are not blank, in order. */
  function NonBlank(lines: seq<Line>): seq<Line> {
    if lines == [] then []
    else
      var init, line := NonBlank(lines[..|lines| - 1]), Trim(lines[|lines| - 1]);
      if line == [] then init else init + [line]
  }

  /** Neither end of the line is white space. */
  predicate Trimmed(line: Line) {
    line != [] && !IsSpace(line[0]) && !IsSpace(line[|line| - 1])
  }

  lemma {:induction false} TrimLeftStarts(line: Line)
    ensures TrimLeft(line) == [] || !IsSpace(TrimLeft(line)[0])
    decreases |line|
  {
    if line == [] || !IsSpace(line[0]) {
    } else {
      TrimLeftStarts(line[1..]);
    }
  }

  lemma {:induction false} TrimRightEnds(line: Line)
    ensures TrimRight(line) == [] || (!IsSpace(TrimRight(line)[|TrimRight(line)| - 1]) && TrimRight(line)[0] == line[0])
    decreases |line|
  {
    if line == [] || !IsSpace(line[|line| - 1]) {
    } else {
      TrimRightEnds(line[..|line| - 1]);
    }
  }

  lemma TrimmedOrBlank(line: Line)
    ensures Trim(line) == [] || Trimmed(Trim(line))
  {
    TrimLeftStarts(line);
    TrimRightEnds(TrimLeft(line));
  }

  /**
   The lines that are kept are single lines, not blank, and begin and end with a character that is not
   white space.
   */
  lemma {:induction false} NonBlankLines(lines: seq<Line>)
    requires AllNewlineFree(lines)
    ensures AllNewlineFree(NonBlank(lines)) && [] !in NonBlank(lines)
    ensures forall i :: 0 <= i < |NonBlank(lines)| ==> Trimmed(NonBlank(lines)[i])
    decreases |lines|
  {
    if lines == [] {
    } else {
      TrimmedOrBlank(lines[|lines| - 1]);
      var init := lines[..|lines| - 1];
      assert AllNewlineFree(init);
      NonBlankLines(init);
      assert NewlineFree(lines[|lines| - 1]);
      TrimKeepsNewlineFree(lines[|lines| - 1]);
    }
  }

  function Flatten(shards: seq<seq<Line>>): seq<Line> {
    if shards == [] then [] else Flatten(shards[..|shards| - 1]) + shards[|shards| - 1]
  }

  /** The limit on shard lines that the `>=` test enforces. */
  function ShardSize(perShard: int): nat {
    if perShard < 1 then 1 else perShard
  }

  /** In order, nothing lost or repeated, every shard full except possibly the last, none empty. */
  ghost predicate IsSharding(lines: seq<Line>, size: nat, shards: seq<seq<Line>>) {
    && Flatten(shards) == lines
    && (forall i :: 0 <= i < |shards| ==> 0 < |shards[i]| <= size)
    && (forall i :: 0 <= i < |shards| - 1 ==> |shards[i]| == size)
  }

  // ---------------------------------------------------------------- the object store

  datatype Path = Source | ShardInput(shard: nat) | ShardOutput(shard: nat)
    | ShardError(shard: nat) | FinalOutput | FinalError

  class ObjectStore {
    var objects: map<Path, seq<Byte>>

    constructor (content: seq<Byte>)
      ensures objects == map[Source := content]
    {
      objects := map[Source := content];
    }

    method Put(path: Path, lines: seq<Line>)
      modifies this
      ensures objects == old(objects)[path := WriteLines(lines)]
    {
      objects := objects[path := WriteLines(lines)];
    }

    method Delete(paths: set<Path>)
      modifies this
      ensures objects == old(objects) - paths
    {
      objects := objects - paths;
    }

    /** Appends the source object at the caller's position; a missing source leaves everything as it is. */
    method AppendToObject(source: Path, destination: Path, position: nat) returns (next: Option<nat>)
      modifies this
      ensures source !in old(objects) ==> next == Some(position) && objects == old(objects)
      ensures source in old(objects) ==>
                var body := old(objects)[source];
                var target := if destination in old(objects) then old(objects)[destination] else [];
                if position == |target|
                then next == Some(position + |body|) && objects == old(objects)[destination := target + body]
                else next == None && objects == old(objects)
    {
      if source !in objects {
        return Some(position);
      }
      var body := objects[source];
      var target := if destination in objects then objects[destination] else [];
      if position != |target| {
        return None;
      }
      objects := objects[destination := target + body];
      return Some(position + |body|);
    }
  }

  // ---------------------------------------------------------------- sharding

  datatype ShardResult = Sharded(lineCount: nat, shardCount: nat) | TaskStatusChanged

  ghost predicate ShardsStored(objects: map<Path, seq<Byte>>, shards: seq<seq<Line>>) {
    forall i :: 0 <= i < |shards| ==> ShardInput(i) in objects && objects[ShardInput(i)] == WriteLines(shards[i])
  }

  ghost predicate OnlyInputsChanged(before: map<Path, seq<Byte>>, after: map<Path, seq<Byte>>) {
    forall p: Path :: !p.ShardInput? ==> (p in before <==> p in after) && (p in before ==> after[p] == before[p])
  }

  lemma FlattenAppend(shards: seq<seq<Line>>, last: seq<Line>)
    ensures Flatten(shards + [last]) == Flatten(shards) + last
  {
    assert (shards + [last])[..|shards|] == shards;
  }

  /** Every finished shard is full and stored, and nothing else was touched. */
  ghost predicate Progress(before: map<Path, seq<Byte>>, after: map<Path, seq<Byte>>, size: nat,
                           shards: seq<seq<Line>>) {
    && (forall i :: 0 <= i < |shards| ==> |shards[i]| == size)
    && ShardsStored(after, shards)
    && OnlyInputsChanged(before, after)
  }

  method CreateFileShard(store: ObjectStore, index: nat, current: seq<Line>, ghost shards: seq<seq<Line>>,
                         ghost before: map<Path, seq<Byte>>)
    requires index == |shards| && ShardsStored(store.objects, shards) && OnlyInputsChanged(before, store.objects)
    modifies store
    ensures ShardsStored(store.objects, shards + [current]) && OnlyInputsChanged(before, store.objects)
    ensures Flatten(shards + [current]) == Flatten(shards) + current
  {
    store.Put(ShardInput(index), current);
    FlattenAppend(shards, current);
  }

  /** The closed shards and the lines collected since then are the lines read so far. */
  ghost predicate Collected(shards: seq<seq<Line>>, current: seq<Line>, lines: seq<Line>) {
    Flatten(shards) + current == lines
  }

  /** Adds a line to the current shard and closes the shard when it is full. */
  method AddLine(store: ObjectStore, index: nat, current: seq<Line>, line: Line, perShard: int,
                 ghost shards: seq<seq<Line>>, ghost seen: seq<Line>, ghost before: map<Path, seq<Byte>>)
    returns (nextIndex: nat, next: seq<Line>, ghost more: seq<seq<Line>>)
    requires index == |shards| && |current| < ShardSize(perShard) && Collected(shards, current, seen)
    requires Progress(before, store.objects, ShardSize(perShard), shards)
    modifies store
    ensures nextIndex == |more| && |next| < ShardSize(perShard) && Collected(more, next, seen + [line])
    ensures Progress(before, store.objects, ShardSize(perShard), more)
  {
    next, nextIndex, more := current + [line], index, shards;
    if |next| >= perShard {
      CreateFileShard(store, index, next, shards, before);
      more := shards + [next];
      nextIndex := index + 1;
      next := [];
    }
  }

  /** The lines left over after the last full shard make one more. */
  method CloseLastShard(store: ObjectStore, index: nat, current: seq<Line>, ghost size: nat,
                        ghost shards: seq<seq<Line>>, ghost seen: seq<Line>, ghost before: map<Path, seq<Byte>>)
    returns (count: nat, ghost all: seq<seq<Line>>)
    requires index == |shards| && |current| < size && Progress(before, store.objects, size, shards)
    requires Collected(shards, current, seen)
    modifies store
    ensures count == |all| && IsSharding(seen, size, all)
    ensures ShardsStored(store.objects, all) && OnlyInputsChanged(before, store.objects)
  {
    count, all := index, shards;
    if |current| > 0 {
      CreateFileShard(store, index, current, shards, before);
      count, all := index + 1, shards + [current];
    } else {
      assert Flatten(shards) + current == Flatten(shards);
    }
  }

  /** Some of the first n looks at the task status finds it changed. */
  ghost predicate AnyLook(changed: nat -> bool, n: nat) {
    exists k :: 0 <= k < n && changed(k)
  }

  lemma OneMoreLook(changed: nat -> bool, n: nat)
    requires !AnyLook(changed, n) && !changed(n)
    ensures !AnyLook(changed, n + 1)
  {
  }

  lemma LookFound(changed: nat -> bool, k: nat, n: nat)
    requires k < n && changed(k)
    ensures AnyLook(changed, n)
  {
  }

  /** Cuts the non-blank lines into shards and stores them; `changed(k)` is the k-th look at the task status. */
  method ShardInputFile(store: ObjectStore, lines: seq<Line>, perShard: int, changed: nat -> bool)
    returns (result: ShardResult, ghost shards: seq<seq<Line>>)
    modifies store
    ensures result.TaskStatusChanged? <==> AnyLook(changed, |NonBlank(lines)|)
    ensures result.Sharded? ==>
              && IsSharding(NonBlank(lines), ShardSize(perShard), shards) && ShardsStored(store.objects, shards)
              && result.lineCount == |NonBlank(lines)| && result.shardCount == |shards|
    ensures OnlyInputsChanged(old(store.objects), store.objects)
  {
    ghost var before := store.objects;
    var current: seq<Line> := [];
    var lineCount: nat, shardIndex: nat := 0, 0;
    shards := [];
    for n := 0 to |lines|
      invariant Collected(shards, current, NonBlank(lines[..n]))
      invariant lineCount == |NonBlank(lines[..n])| && shardIndex == |shards|
      invariant |current| < ShardSize(perShard)
      invariant Progress(before, store.objects, ShardSize(perShard), shards)
      invariant !AnyLook(changed, lineCount)
    {
      var line := Trim(lines[n]);
      NonBlankStep(lines, n);
      if line == [] {
        continue;
      }
      if changed(lineCount) {
        NonBlankGrows(lines, n + 1);
        LookFound(changed, lineCount, |NonBlank(lines)|);
        return TaskStatusChanged, shards;
      }
      OneMoreLook(changed, lineCount);
      lineCount := lineCount + 1;
      shardIndex, current, shards := AddLine(store, shardIndex, current, line, perShard, shards, NonBlank(lines[..n]),
                                             before);
    }
    assert lines[..|lines|] == lines;
    shardIndex, shards := CloseLastShard(store, shardIndex, current, ShardSize(perShard), shards, NonBlank(lines),
                                         before);
    result := Sharded(lineCount, shardIndex);
  }

  lemma NonBlankStep(lines: seq<Line>, n: nat)
    requires n < |lines|
    ensures Trim(lines[n]) == [] ==> NonBlank(lines[..n + 1]) == NonBlank(lines[..n])
    ensures Trim(lines[n]) != [] ==> NonBlank(lines[..n + 1]) == NonBlank(lines[..n]) + [Trim(lines[n])]
  {
    assert lines[..n + 1][..n] == lines[..n];
  }

  lemma {:induction false} NonBlankGrows(lines: seq<Line>, n: nat)
    requires n <= |lines|
    ensures |NonBlank(lines[..n])| <= |NonBlank(lines)|
    decreases |lines| - n
  {
    if n < |lines| {
      assert lines[..n + 1][..n] == lines[..n];
      NonBlankGrows(lines, n + 1);
    } else {
      assert lines[..n] == lines;
    }
  }

  lemma {:induction false} FlattenFirst(shards: seq<seq<Line>>)
    requires shards != []
    ensures Flatten(shards) == shards[0] + Flatten(shards[1..])
    decreases |shards|
  {
    if |shards| > 1 {
      var init := shards[..|shards| - 1];
      FlattenFirst(init);
      assert init[1..] == shards[1..][..|shards| - 2];
    }
  }

  /** The first shard takes the first `size` lines, or all of them. */
  lemma FirstShard(lines: seq<Line>, size: nat, shards: seq<seq<Line>>)
    requires IsSharding(lines, size, shards) && lines != []
    ensures shards != [] && |shards[0]| == (if |lines| < size then |lines| else size)
    ensures shards[0] == lines[..|shards[0]|]
    ensures IsSharding(lines[|shards[0]|..], size, shards[1..])
  {
    FlattenFirst(shards);
    if |shards| > 1 {
      assert |shards[0]| == size;
    } else {
      assert Flatten(shards[1..]) == [];
    }
  }

  /** The sharding of a list of lines is unique. */
  lemma {:induction false} ShardingIsUnique(lines: seq<Line>, size: nat, a: seq<seq<Line>>, b: seq<seq<Line>>)
    requires IsSharding(lines, size, a) && IsSharding(lines, size, b)
    ensures a == b
    decreases |lines|
  {
    if lines == [] {
      NoLinesNoShards(size, a);
      NoLinesNoShards(size, b);
    } else {
      FirstShard(lines, size, a);
      FirstShard(lines, size, b);
      ShardingIsUnique(lines[|a[0]|..], size, a[1..], b[1..]);
      assert a == [a[0]] + a[1..] && b == [b[0]] + b[1..];
    }
  }

  lemma NoLinesNoShards(size: nat, shards: seq<seq<Line>>)
    requires IsSharding([], size, shards)
    ensures shards == []
  {
    if shards != [] {
      FlattenFirst(shards);
    }
  }

  lemma {:induction false} FlattenLength(shards: seq<seq<Line>>, size: nat)
    requires forall i :: 0 <= i < |shards| ==> 0 < |shards[i]| <= size
    requires forall i :: 0 <= i < |shards| - 1 ==> |shards[i]| == size
    ensures shards == [] ==> |Flatten(shards)| == 0
    ensures shards != [] ==> |Flatten(shards)| == (|shards| - 1) * size + |shards[|shards| - 1]|
    ensures shards != [] ==> (|shards| - 1) * size < |Flatten(shards)| <= |shards| * size
    decreases |shards|
  {
    if shards == [] {
    } else {
      var init := shards[..|shards| - 1];
      FlattenLength(init, size);
      if init != [] {
        assert |Flatten(init)| == (|init| - 1) * size + size == |init| * size;
      }
      assert |shards| * size == (|shards| - 1) * size + size;
    }
  }
}
