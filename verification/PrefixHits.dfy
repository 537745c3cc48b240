/**
 How many prompt tokens each instance has cached: the accumulation over the block keys, one map of hit
 lengths, one of last hit positions and one of broken instances.
 */
module PrefixHits {

  type Instance(==, !new)
  type Hash = string

  /** Who has which block. */
  type Hits = map<Hash, set<Instance>>

  predicate Hit(hits: Hits, hashes: seq<Hash>, i: nat, who: Instance)
    requires i < |hashes|
  {
    hashes[i] in hits && who in hits[hashes[i]]
  }

  /** What the loop remembers about one instance. */
  datatype Track = Fresh | Counting(last: nat, blocks: nat) | Broken(blocks: nat)

  function Blocks(t: Track): nat {
    if t.Fresh? then 0 else t.blocks
  }

  /** Block i as the loop sees it for one instance. */
  function See(t: Track, i: nat, hit: bool): Track {
    if !hit then t
    else match t
         case Fresh => Counting(i, 1)
         case Counting(last, blocks) => if last + 1 == i then Counting(i, blocks + 1) else Broken(blocks)
         case Broken(_) => t
  }

  function TrackOf(hits: Hits, hashes: seq<Hash>, who: Instance, n: nat): Track
    requires n <= |hashes|
  {
    if n == 0 then Fresh else See(TrackOf(hits, hashes, who, n - 1), n - 1, Hit(hits, hashes, n - 1, who))
  }

  // ---------------------------------------------------------------- the maps of the source

  datatype Maps = Maps(hitLen: map<Instance, nat>, lastHit: map<Instance, nat>, broken: map<Instance, bool>)

  /** The three maps of the loop say what `t` says. */
  predicate Shows(m: Maps, who: Instance, t: Track, chunk: nat) {
    && (who in m.lastHit <==> !t.Fresh?) && (who in m.hitLen <==> !t.Fresh?)
    && (who in m.hitLen ==> m.hitLen[who] == t.blocks * chunk)
    && (t.Counting? ==> m.lastHit[who] == t.last)
    && (who in m.broken && m.broken[who] <==> t.Broken?)
  }

  /** One instance of one block. */
  function Account(m: Maps, who: Instance, i: nat, chunk: nat): Maps {
    if who in m.broken && m.broken[who] then m
    else if who !in m.lastHit then
      m.(lastHit := m.lastHit[who := i],
         hitLen := m.hitLen[who := (if who in m.hitLen then m.hitLen[who] else 0) + chunk])
    else if m.lastHit[who] == i - 1 then
      m.(lastHit := m.lastHit[who := i],
         hitLen := m.hitLen[who := (if who in m.hitLen then m.hitLen[who] else 0) + chunk])
    else m.(broken := m.broken[who := true])
  }

  lemma AccountShows(m: Maps, who: Instance, t: Track, i: nat, chunk: nat, other: Instance, u: Track)
    requires Shows(m, who, t, chunk) && Shows(m, other, u, chunk)
    ensures Shows(Account(m, who, i, chunk), who, See(t, i, true), chunk)
    ensures other != who ==> Shows(Account(m, who, i, chunk), other, u, chunk)
  {
    if !t.Fresh? {
      assert (t.blocks + 1) * chunk == t.blocks * chunk + chunk;
    }
  }

  /** After the first n blocks, and on block n after the instances in `done`. */
  ghost predicate AllShown(m: Maps, hits: Hits, hashes: seq<Hash>, n: nat, done: set<Instance>, chunk: nat)
    requires n <= |hashes|
  {
    forall who ::
      Shows(m, who, if who in done then See(TrackOf(hits, hashes, who, n), n, true) else TrackOf(hits, hashes, who, n),
            chunk)
  }

  lemma AccountKeeps(m: Maps, hits: Hits, hashes: seq<Hash>, n: nat, done: set<Instance>, chunk: nat, who: Instance)
    requires n <= |hashes| && AllShown(m, hits, hashes, n, done, chunk) && who !in done
    ensures AllShown(Account(m, who, n, chunk), hits, hashes, n, done + {who}, chunk)
  {
    forall x
      ensures Shows(Account(m, who, n, chunk), x,
                    if x in done + {who} then See(TrackOf(hits, hashes, x, n), n, true)
                            else TrackOf(hits, hashes, x, n), chunk)
    {
      AccountShows(m, who, TrackOf(hits, hashes, who, n), n, chunk, x,
                   if x in done then See(TrackOf(hits, hashes, x, n), n, true) else TrackOf(hits, hashes, x, n));
    }
  }

  lemma BlockDone(m: Maps, hits: Hits, hashes: seq<Hash>, n: nat, done: set<Instance>, chunk: nat)
    requires n < |hashes| && AllShown(m, hits, hashes, n, done, chunk)
    requires forall who :: who in done <==> Hit(hits, hashes, n, who)
    ensures AllShown(m, hits, hashes, n + 1, {}, chunk)
  {
  }

  /** The instances that hold block i, one after the other in any order. */
  method AccountBlock(m: Maps, hits: Hits, hashes: seq<Hash>, i: nat, chunk: nat) returns (next: Maps)
    requires i < |hashes| && AllShown(m, hits, hashes, i, {}, chunk)
    ensures AllShown(next, hits, hashes, i + 1, {}, chunk)
  {
    next := m;
    var todo := if hashes[i] in hits then hits[hashes[i]] else {};
    ghost var all := todo;
    while todo != {}
      invariant todo <= all && AllShown(next, hits, hashes, i, all - todo, chunk)
      decreases |todo|
    {
      var who :| who in todo;
      AccountKeeps(next, hits, hashes, i, all - todo, chunk, who);
      assert all - (todo - {who}) == all - todo + {who};
      next := Account(next, who, i, chunk);
      todo := todo - {who};
    }
    assert all - {} == all;
    BlockDone(next, hits, hashes, i, all, chunk);
  }

  lemma ShownLengths(m: Maps, hits: Hits, hashes: seq<Hash>, chunk: nat, who: Instance)
    requires AllShown(m, hits, hashes, |hashes|, {}, chunk)
    ensures who in m.hitLen <==> !TrackOf(hits, hashes, who, |hashes|).Fresh?
    ensures who in m.hitLen ==> m.hitLen[who] == Blocks(TrackOf(hits, hashes, who, |hashes|)) * chunk
  {
    assert Shows(m, who, TrackOf(hits, hashes, who, |hashes|), chunk);
  }

  method CalcInstancesPrefixCacheHitLen(chunk: nat, hashes: seq<Hash>, hits: Hits) returns (hitLen: map<Instance, nat>)
    ensures forall who :: who in hitLen <==> !TrackOf(hits, hashes, who, |hashes|).Fresh?
    ensures forall who :: who in hitLen ==> hitLen[who] == Blocks(TrackOf(hits, hashes, who, |hashes|)) * chunk
  {
    var m := Maps(map[], map[], map[]);
    for i := 0 to |hashes|
      invariant AllShown(m, hits, hashes, i, {}, chunk)
    {
      m := AccountBlock(m, hits, hashes, i, chunk);
    }
    hitLen := m.hitLen;
    forall who
      ensures who in hitLen <==> !TrackOf(hits, hashes, who, |hashes|).Fresh?
      ensures who in hitLen ==> hitLen[who] == Blocks(TrackOf(hits, hashes, who, |hashes|)) * chunk
    {
      ShownLengths(m, hits, hashes, chunk, who);
    }
  }

  // ---------------------------------------------------------------- what is counted

  predicate HitAt(hits: Hits, hashes: seq<Hash>, i: nat, who: Instance) {
    i < |hashes| && Hit(hits, hashes, i, who)
  }

  /** Length of the run of hits that starts at block i. */
  function RunLength(hits: Hits, hashes: seq<Hash>, who: Instance, i: nat): nat
    decreases |hashes| - i
  {
    if HitAt(hits, hashes, i, who) then 1 + RunLength(hits, hashes, who, i + 1) else 0
  }

  /** Length of the first run of hits at or after block i. */
  function FirstRun(hits: Hits, hashes: seq<Hash>, who: Instance, i: nat): nat
    decreases |hashes| - i
  {
    if i >= |hashes| then 0
    else if HitAt(hits, hashes, i, who) then RunLength(hits, hashes, who, i)
    else FirstRun(hits, hashes, who, i + 1)
  }

  /** Blocks s, ..., s+b-1 are the first run of hits, as far as the first n blocks show. */
  ghost predicate FirstRunIs(hits: Hits, hashes: seq<Hash>, who: Instance, n: nat, s: nat, b: nat) {
    && s + b <= n <= |hashes|
    && (forall i: nat :: i < s ==> !HitAt(hits, hashes, i, who))
    && (forall i: nat :: s <= i < s + b ==> HitAt(hits, hashes, i, who))
  }

  ghost predicate TrackMeans(hits: Hits, hashes: seq<Hash>, who: Instance, n: nat, t: Track, s: nat) {
    match t
    case Fresh => FirstRunIs(hits, hashes, who, n, n, 0)
    case Counting(last, b) =>
      b > 0 && FirstRunIs(hits, hashes, who, n, s, b) && last == s + b - 1
      && forall i: nat :: s + b <= i < n ==> !HitAt(hits, hashes, i, who)
    case Broken(b) =>
      b > 0 && FirstRunIs(hits, hashes, who, n, s, b) && s + b < n && !HitAt(hits, hashes, s + b, who)
  }

  lemma {:induction false} TrackMeaning(hits: Hits, hashes: seq<Hash>, who: Instance, n: nat) returns (s: nat)
    requires n <= |hashes|
    ensures TrackMeans(hits, hashes, who, n, TrackOf(hits, hashes, who, n), s)
    decreases n
  {
    s := n;
    if n > 0 {
      var before := TrackOf(hits, hashes, who, n - 1);
      s := TrackMeaning(hits, hashes, who, n - 1);
      if before.Fresh? && HitAt(hits, hashes, n - 1, who) {
        s := n - 1;
      }
    }
  }

  lemma {:induction false} RunLengthIs(hits: Hits, hashes: seq<Hash>, who: Instance, s: nat, b: nat)
    requires forall i: nat :: s <= i < s + b ==> HitAt(hits, hashes, i, who)
    requires !HitAt(hits, hashes, s + b, who)
    ensures RunLength(hits, hashes, who, s) == b
    decreases b
  {
    if b == 0 {
    } else {
      assert HitAt(hits, hashes, s, who);
      RunLengthIs(hits, hashes, who, s + 1, b - 1);
    }
  }

  lemma {:induction false} FirstRunFrom(hits: Hits, hashes: seq<Hash>, who: Instance, i: nat, s: nat)
    requires i <= s <= |hashes| && forall j: nat :: i <= j < s ==> !HitAt(hits, hashes, j, who)
    ensures FirstRun(hits, hashes, who, i) == FirstRun(hits, hashes, who, s)
    decreases s - i
  {
    if i < s {
      FirstRunFrom(hits, hashes, who, i + 1, s);
    }
  }

  /** The loop counts exactly the first maximal run of hits. */
  lemma CountsFirstRun(hits: Hits, hashes: seq<Hash>, who: Instance)
    ensures Blocks(TrackOf(hits, hashes, who, |hashes|)) == FirstRun(hits, hashes, who, 0)
  {
    var t := TrackOf(hits, hashes, who, |hashes|);
    var s := TrackMeaning(hits, hashes, who, |hashes|);
    if t.Fresh? {
      FirstRunFrom(hits, hashes, who, 0, |hashes|);
    } else {
      FirstRunFrom(hits, hashes, who, 0, s);
      RunLengthIs(hits, hashes, who, s, t.blocks);
    }
  }

  /** The count is the length of the cached block prefix iff block 0 hits or nothing does. */
  lemma CountsPrefixIff(hits: Hits, hashes: seq<Hash>, who: Instance)
    ensures Blocks(TrackOf(hits, hashes, who, |hashes|)) == RunLength(hits, hashes, who, 0)
       <==> HitAt(hits, hashes, 0, who) || forall i: nat :: !HitAt(hits, hashes, i, who)
  {
    CountsFirstRun(hits, hashes, who);
    if forall i: nat :: !HitAt(hits, hashes, i, who) {
      FirstRunFrom(hits, hashes, who, 0, |hashes|);
    } else if !HitAt(hits, hashes, 0, who) {
      var i: nat :| HitAt(hits, hashes, i, who);
      FirstRunPositive(hits, hashes, who, 0, i);
    }
  }

  lemma {:induction false} FirstRunPositive(hits: Hits, hashes: seq<Hash>, who: Instance, i: nat, hit: nat)
    requires i <= hit && HitAt(hits, hashes, hit, who)
    ensures FirstRun(hits, hashes, who, i) > 0
    decreases hit - i
  {
    if !HitAt(hits, hashes, i, who) {
      FirstRunPositive(hits, hashes, who, i + 1, hit);
    }
  }

  /** A cache that never holds a block without the blocks before it. */
  ghost predicate PrefixClosed(hits: Hits, hashes: seq<Hash>, who: Instance) {
    forall i: nat, j: nat :: j <= i && HitAt(hits, hashes, i, who) ==> HitAt(hits, hashes, j, who)
  }

  /** For such a cache the count is the longest cached prefix: everything before it hits, nothing from there on does. */
  lemma CountsLongestPrefix(hits: Hits, hashes: seq<Hash>, who: Instance, i: nat)
    requires PrefixClosed(hits, hashes, who)
    ensures HitAt(hits, hashes, i, who) <==> i < Blocks(TrackOf(hits, hashes, who, |hashes|))
  {
    CountsPrefixIff(hits, hashes, who);
    if HitAt(hits, hashes, 0, who) {
      PrefixRun(hits, hashes, who, 0);
    } else {
      assert forall k: nat :: HitAt(hits, hashes, k, who) ==> HitAt(hits, hashes, 0, who);
    }
  }

  lemma {:induction false} PrefixRun(hits: Hits, hashes: seq<Hash>, who: Instance, from: nat)
    requires PrefixClosed(hits, hashes, who)
    ensures forall i: nat :: from <= i ==>
              (HitAt(hits, hashes, i, who) <==> i < from + RunLength(hits, hashes, who, from))
    decreases |hashes| - from
  {
    if HitAt(hits, hashes, from, who) {
      PrefixRun(hits, hashes, who, from + 1);
    } else {
      assert forall i: nat :: from <= i && HitAt(hits, hashes, i, who) ==> HitAt(hits, hashes, from, who);
    }
  }

  /** All blocks are counted iff all hit. */
  lemma CountsAllIff(hits: Hits, hashes: seq<Hash>, who: Instance)
    ensures Blocks(TrackOf(hits, hashes, who, |hashes|)) <= |hashes|
    ensures Blocks(TrackOf(hits, hashes, who, |hashes|)) == |hashes|
       <==> forall i :: 0 <= i < |hashes| ==> HitAt(hits, hashes, i, who)
  {
    var s := TrackMeaning(hits, hashes, who, |hashes|);
    if hashes != [] && forall i :: 0 <= i < |hashes| ==> HitAt(hits, hashes, i, who) {
      CountsLongestPrefix(hits, hashes, who, |hashes| - 1);
    }
  }

  /** Some block is counted iff some block hits. */
  lemma CountsSomeIff(hits: Hits, hashes: seq<Hash>, who: Instance)
    ensures TrackOf(hits, hashes, who, |hashes|).Fresh? <==> Blocks(TrackOf(hits, hashes, who, |hashes|)) == 0
    ensures TrackOf(hits, hashes, who, |hashes|).Fresh? <==> forall i: nat :: !HitAt(hits, hashes, i, who)
  {
    var s := TrackMeaning(hits, hashes, who, |hashes|);
    if !TrackOf(hits, hashes, who, |hashes|).Fresh? {
      assert HitAt(hits, hashes, s, who);
    }
  }

  /** A cache that misses block 0 but holds block 1 is credited with blocks that are not a prefix. */
  lemma GapIsCounted(hits: Hits, hashes: seq<Hash>, who: Instance)
    requires |hashes| == 2 && !Hit(hits, hashes, 0, who) && Hit(hits, hashes, 1, who)
    ensures Blocks(TrackOf(hits, hashes, who, 2)) == 1 && RunLength(hits, hashes, who, 0) == 0
  {
    assert TrackOf(hits, hashes, who, 1) == See(TrackOf(hits, hashes, who, 0), 0, false);
  }
}
