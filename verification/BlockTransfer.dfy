/**
 KV block transfer of the mooncake connector: the block copies of a request are
 grouped into maximal runs that are contiguous on both sides, and one copy is issued
 per run and layer.  The reference is the ungrouped transfer, one copy per block and layer.
 */
module BlockTransfer {
  import opened Wrappers

  type Byte = b: int | 0 <= b < 256

  /** One remote write: `length` bytes from local address `src` to remote address `dst`. */
  datatype Copy = Copy(src: int, dst: int, length: nat)

  /** One request of a batch: the blocks the source holds and the blocks the destination asks for. */
  datatype Request = Request(localBlocks: seq<int>, remoteBlocks: seq<int>)

  datatype SendResult = Sent(copies: seq<Copy>) | SendFailed

  // ---------------------------------------------------------------- memory

  predicate Covers(c: Copy, a: int) {
    c.dst <= a < c.dst + c.length
  }

  /** The remote byte at address `a` after the copies have been executed in order. */
  function RemoteByte(local: int -> Byte, remote: int -> Byte, copies: seq<Copy>, a: int): Byte {
    if copies == [] then remote(a)
    else
      var last := copies[|copies| - 1];
      if Covers(last, a) then local(last.src + (a - last.dst))
      else RemoteByte(local, remote, copies[..|copies| - 1], a)
  }

  /** Executing `cs` and `ds` from any memories leaves every remote byte the same. */
  ghost predicate SameEffect(cs: seq<Copy>, ds: seq<Copy>) {
    forall local: int -> Byte, remote: int -> Byte, a: int ::
      RemoteByte(local, remote, cs, a) == RemoteByte(local, remote, ds, a)
  }

  /** The remote memory that a prefix of the copies produced. */
  ghost function After(local: int -> Byte, remote: int -> Byte, copies: seq<Copy>): int -> Byte {
    a => RemoteByte(local, remote, copies, a)
  }

  lemma {:induction false} RunInSequence(local: int -> Byte, remote: int -> Byte, cs: seq<Copy>, ds: seq<Copy>, a: int)
    ensures RemoteByte(local, remote, cs + ds, a) == RemoteByte(local, After(local, remote, cs), ds, a)
    decreases |ds|
  {
    if ds == [] {
      assert cs + ds == cs;
    } else {
      var init := ds[..|ds| - 1];
      assert (cs + ds)[..|cs + ds| - 1] == cs + init;
      RunInSequence(local, remote, cs, init, a);
    }
  }

  lemma SameEffectConcat(cs: seq<Copy>, cs': seq<Copy>, ds: seq<Copy>, ds': seq<Copy>)
    requires SameEffect(cs, cs') && SameEffect(ds, ds')
    ensures SameEffect(cs + ds, cs' + ds')
  {
    forall local: int -> Byte, remote: int -> Byte, a: int
      ensures RemoteByte(local, remote, cs + ds, a) == RemoteByte(local, remote, cs' + ds', a)
    {
      RunInSequence(local, remote, cs, ds, a);
      RunInSequence(local, remote, cs', ds', a);
      var m, m' := After(local, remote, cs), After(local, remote, cs');
      assert RemoteByte(local, m, ds, a) == RemoteByte(local, m, ds', a);
      SamePointwise(local, m, m', ds', a);
    }
  }

  lemma {:induction false} SamePointwise(local: int -> Byte, m: int -> Byte, m': int -> Byte, ds: seq<Copy>, a: int)
    requires m(a) == m'(a)
    ensures RemoteByte(local, m, ds, a) == RemoteByte(local, m', ds, a)
    decreases |ds|
  {
    if ds == [] {
    } else {
      SamePointwise(local, m, m', ds[..|ds| - 1], a);
    }
  }

  // ---------------------------------------------------------------- grouping

  /** A new group starts at position `i`: one of the two lists does not continue by one. */
  predicate BreakAt(src: seq<int>, dst: seq<int>, i: int)
    requires |src| == |dst| && 0 < i < |src|
  {
    src[i] - src[i - 1] != 1 || dst[i] - dst[i - 1] != 1
  }

  /** The break positions at or after `from`, in increasing order. */
  function Breaks(src: seq<int>, dst: seq<int>, from: nat): seq<nat>
    requires |src| == |dst| && 0 < from
    decreases |src| - from
  {
    if from >= |src| then []
    else if BreakAt(src, dst, from) then [from] + Breaks(src, dst, from + 1)
    else Breaks(src, dst, from + 1)
  }

  predicate Cuts(n: nat, start: nat, cuts: seq<nat>)
    decreases |cuts|
  {
    start < n && (cuts != [] ==> start < cuts[0] < n && Cuts(n, cuts[0], cuts[1..]))
  }

  /** `xs[start..]` cut at the given positions. */
  function SplitAt(xs: seq<int>, start: nat, cuts: seq<nat>): seq<seq<int>>
    requires Cuts(|xs|, start, cuts)
    decreases |cuts|
  {
    if cuts == [] then [xs[start..]]
    else [xs[start..cuts[0]]] + SplitAt(xs, cuts[0], cuts[1..])
  }

  lemma BreaksAreCuts(src: seq<int>, dst: seq<int>, start: nat, from: nat)
    requires |src| == |dst| && start < from <= |src|
    ensures Cuts(|src|, start, Breaks(src, dst, from))
    decreases |src| - from
  {
    if from < |src| {
      if BreakAt(src, dst, from) {
        BreaksAreCuts(src, dst, from, from + 1);
      } else {
        BreaksAreCuts(src, dst, start, from + 1);
      }
    }
  }

  function Groups(src: seq<int>, dst: seq<int>): (r: (seq<seq<int>>, seq<seq<int>>))
    requires |src| == |dst|
  {
    if src == [] then ([], [])
    else
      BreaksAreCuts(src, dst, 0, 1);
      var cuts := Breaks(src, dst, 1);
      (SplitAt(src, 0, cuts), SplitAt(dst, 0, cuts))
  }

  function Flatten(groups: seq<seq<int>>): seq<int> {
    if groups == [] then [] else groups[0] + Flatten(groups[1..])
  }

  lemma {:induction false} SplitFlattens(xs: seq<int>, start: nat, cuts: seq<nat>)
    requires Cuts(|xs|, start, cuts)
    ensures Flatten(SplitAt(xs, start, cuts)) == xs[start..]
    ensures |SplitAt(xs, start, cuts)| == |cuts| + 1
    decreases |cuts|
  {
    if cuts == [] {
      assert SplitAt(xs, start, cuts)[1..] == [];
    } else {
      SplitFlattens(xs, cuts[0], cuts[1..]);
      assert SplitAt(xs, start, cuts)[1..] == SplitAt(xs, cuts[0], cuts[1..]);
      assert xs[start..] == xs[start..cuts[0]] + xs[cuts[0]..];
    }
  }

  /** Consecutive elements differ by exactly one. */
  predicate Contiguous(xs: seq<int>) {
    forall i :: 0 < i < |xs| ==> xs[i] - xs[i - 1] == 1
  }

  /** Corresponding groups are non-empty, of equal length and contiguous on both sides. */
  predicate WellGrouped(gs: seq<seq<int>>, gd: seq<seq<int>>) {
    |gs| == |gd| &&
    forall k :: 0 <= k < |gs| ==>
      |gs[k]| == |gd[k]| > 0 && Contiguous(gs[k]) && Contiguous(gd[k])
  }

  /** Two neighbouring groups cannot be merged into one contiguous run. */
  predicate Unmergeable(gs: seq<seq<int>>, gd: seq<seq<int>>)
    requires WellGrouped(gs, gd)
  {
    forall k :: 0 < k < |gs| ==>
      gs[k][0] - gs[k - 1][|gs[k - 1]| - 1] != 1 || gd[k][0] - gd[k - 1][|gd[k - 1]| - 1] != 1
  }

  ghost predicate NoBreakIn(src: seq<int>, dst: seq<int>, lo: nat, hi: nat)
    requires |src| == |dst| && hi <= |src| && 0 < lo
  {
    forall i :: lo <= i < hi ==> !BreakAt(src, dst, i)
  }

  lemma PrependGroup(s: seq<int>, d: seq<int>, gs: seq<seq<int>>, gd: seq<seq<int>>)
    requires |s| == |d| > 0 && Contiguous(s) && Contiguous(d)
    requires gs != [] && WellGrouped(gs, gd) && Unmergeable(gs, gd)
    requires gs[0][0] - s[|s| - 1] != 1 || gd[0][0] - d[|d| - 1] != 1
    ensures WellGrouped([s] + gs, [d] + gd) && Unmergeable([s] + gs, [d] + gd)
  {
    var ns, nd := [s] + gs, [d] + gd;
    forall k | 0 < k < |ns|
      ensures ns[k][0] - ns[k - 1][|ns[k - 1]| - 1] != 1 || nd[k][0] - nd[k - 1][|nd[k - 1]| - 1] != 1
    {
      if k > 1 {
        assert ns[k] == gs[k - 1] && ns[k - 1] == gs[k - 2];
        assert nd[k] == gd[k - 1] && nd[k - 1] == gd[k - 2];
      }
    }
  }

  lemma SegmentContiguous(src: seq<int>, dst: seq<int>, lo: nat, hi: nat)
    requires |src| == |dst| && lo < hi <= |src| && NoBreakIn(src, dst, lo + 1, hi)
    ensures Contiguous(src[lo..hi]) && Contiguous(dst[lo..hi])
  {
    forall i | 0 < i < hi - lo
      ensures src[lo..hi][i] - src[lo..hi][i - 1] == 1 && dst[lo..hi][i] - dst[lo..hi][i - 1] == 1
    {
      assert !BreakAt(src, dst, lo + i);
    }
  }

  /** Well-formed groups that cannot be merged, the first of which starts at `s` and `d`. */
  predicate GroupsFrom(gs: seq<seq<int>>, gd: seq<seq<int>>, s: int, d: int) {
    gs != [] && WellGrouped(gs, gd) && Unmergeable(gs, gd) && gs[0][0] == s && gd[0][0] == d
  }

  lemma GroupBeforeBreak(src: seq<int>, dst: seq<int>, start: nat, from: nat, rs: seq<seq<int>>, rd: seq<seq<int>>)
    requires |src| == |dst| && start < from < |src| && NoBreakIn(src, dst, start + 1, from) && BreakAt(src, dst, from)
    requires GroupsFrom(rs, rd, src[from], dst[from])
    ensures GroupsFrom([src[start..from]] + rs, [dst[start..from]] + rd, src[start], dst[start])
  {
    SegmentContiguous(src, dst, start, from);
    PrependGroup(src[start..from], dst[start..from], rs, rd);
  }

  lemma LastGroup(src: seq<int>, dst: seq<int>, start: nat)
    requires |src| == |dst| && start < |src| && NoBreakIn(src, dst, start + 1, |src|)
    ensures GroupsFrom([src[start..]], [dst[start..]], src[start], dst[start])
  {
    SegmentContiguous(src, dst, start, |src|);
    assert src[start..|src|] == src[start..] && dst[start..|src|] == dst[start..];
  }

  lemma {:induction false} SplitWellGrouped(src: seq<int>, dst: seq<int>, start: nat, from: nat)
    requires |src| == |dst| && start < from <= |src|
    requires NoBreakIn(src, dst, start + 1, from)
    ensures Cuts(|src|, start, Breaks(src, dst, from))
    ensures var cuts := Breaks(src, dst, from);
            GroupsFrom(SplitAt(src, start, cuts), SplitAt(dst, start, cuts), src[start], dst[start])
    decreases |src| - from
  {
    BreaksAreCuts(src, dst, start, from);
    if from == |src| {
      LastGroup(src, dst, start);
    } else if BreakAt(src, dst, from) {
      SplitWellGrouped(src, dst, from, from + 1);
      var later := Breaks(src, dst, from + 1);
      GroupBeforeBreak(src, dst, start, from, SplitAt(src, from, later), SplitAt(dst, from, later));
    } else {
      SplitWellGrouped(src, dst, start, from + 1);
    }
  }

  /** Grouping loses, reorders and repeats nothing; every group is a run on both sides; the runs are maximal. */
  lemma GroupsAreMaximalRuns(src: seq<int>, dst: seq<int>)
    requires |src| == |dst|
    ensures var (gs, gd) := Groups(src, dst);
            && Flatten(gs) == src && Flatten(gd) == dst
            && WellGrouped(gs, gd) && Unmergeable(gs, gd)
  {
    if src != [] {
      var cuts := Breaks(src, dst, 1);
      SplitWellGrouped(src, dst, 0, 1);
      SplitFlattens(src, 0, cuts);
      SplitFlattens(dst, 0, cuts);
    }
  }

  // ---------------------------------------------------------------- grouping as the array library does it

  /** Which neighbours in the first list belong to position `p`; a single difference is repeated for every position. */
  function Neighbour(src: seq<int>, p: nat): nat {
    if |src| == 2 then 1 else p
  }

  /** The break positions at or after `from`, with a single source difference broadcast over the destination. */
  function ArrayBreaks(src: seq<int>, dst: seq<int>, from: nat): seq<nat>
    requires (|src| == |dst| || |src| == 2 <= |dst|) && 0 < from
    decreases |dst| - from
  {
    if from >= |dst| then []
    else
      var i := Neighbour(src, from);
      var rest := ArrayBreaks(src, dst, from + 1);
      if src[i] - src[i - 1] != 1 || dst[from] - dst[from - 1] != 1 then [from] + rest else rest
  }

  /** A slice whose bounds may lie past the end. */
  function Slice(xs: seq<int>, lo: nat, hi: nat): seq<int> {
    if lo >= |xs| || hi <= lo then [] else if hi >= |xs| then xs[lo..] else xs[lo..hi]
  }

  function ArraySplit(xs: seq<int>, start: nat, cuts: seq<nat>): (groups: seq<seq<int>>)
    ensures |groups| == |cuts| + 1
    decreases |cuts|
  {
    if cuts == [] then [Slice(xs, start, |xs|)] else [Slice(xs, start, cuts[0])] + ArraySplit(xs, cuts[0], cuts[1..])
  }

  /** Both lists cut at the same positions; nothing if the two lists of differences cannot be combined. */
  function GroupConcurrentContiguous(src: seq<int>, dst: seq<int>): Option<(seq<seq<int>>, seq<seq<int>>)> {
    if src == [] then Some(([], []))
    else if |src| == |dst| || |src| == 2 <= |dst| then
      var cuts := ArrayBreaks(src, dst, 1);
      Some((ArraySplit(src, 0, cuts), ArraySplit(dst, 0, cuts)))
    else if |src| == 1 && |dst| == 2 then Some(([src], [dst]))
    else None
  }

  /** After the first two entries the destination list goes on by one, and the source list does so at all. */
  predicate Steady(src: seq<int>, dst: seq<int>)
    requires |src| == 2 <= |dst|
  {
    src[1] - src[0] == 1 && forall p :: 2 <= p < |dst| ==> dst[p] - dst[p - 1] == 1
  }

  /** Every group has a first entry. */
  predicate NonEmpty(gs: seq<seq<int>>) {
    forall k :: 0 <= k < |gs| ==> gs[k] != []
  }

  predicate SameHeads(gd: seq<seq<int>>, hd: seq<seq<int>>) {
    |gd| == |hd| && NonEmpty(gd) && NonEmpty(hd) && forall k :: 0 <= k < |gd| ==> gd[k][0] == hd[k][0]
  }

  lemma {:induction false} ArrayBreaksAreBreaks(src: seq<int>, dst: seq<int>, from: nat)
    requires |src| == |dst| && 0 < from
    ensures ArrayBreaks(src, dst, from) == Breaks(src, dst, from)
    decreases |src| - from
  {
    if from >= |src| {
    } else {
      ArrayBreaksAreBreaks(src, dst, from + 1);
    }
  }

  lemma {:induction false} ArraySplitIsSplit(xs: seq<int>, start: nat, cuts: seq<nat>)
    requires Cuts(|xs|, start, cuts)
    ensures ArraySplit(xs, start, cuts) == SplitAt(xs, start, cuts)
    decreases |cuts|
  {
    if cuts == [] {
    } else {
      ArraySplitIsSplit(xs, cuts[0], cuts[1..]);
    }
  }

  /** With equally long lists it is the grouping into maximal runs. */
  lemma EqualLengthsGroup(src: seq<int>, dst: seq<int>)
    requires |src| == |dst|
    ensures GroupConcurrentContiguous(src, dst) == Some(Groups(src, dst))
  {
    if src == [] {
    } else {
      ArrayBreaksAreBreaks(src, dst, 1);
      BreaksAreCuts(src, dst, 0, 1);
      ArraySplitIsSplit(src, 0, Breaks(src, dst, 1));
      ArraySplitIsSplit(dst, 0, Breaks(src, dst, 1));
    }
  }

  lemma {:induction false} NoLaterBreaks(src: seq<int>, dst: seq<int>, from: nat)
    requires |src| == 2 <= |dst| && Steady(src, dst) && 2 <= from
    ensures ArrayBreaks(src, dst, from) == []
    decreases |dst| - from
  {
    if from >= |dst| {
    } else {
      NoLaterBreaks(src, dst, from + 1);
    }
  }

  lemma {:induction false} SomeLaterBreak(src: seq<int>, dst: seq<int>, from: nat, p: nat)
    requires |src| == 2 <= |dst| && 2 <= from <= p < |dst|
    requires src[1] - src[0] != 1 || dst[p] - dst[p - 1] != 1
    ensures ArrayBreaks(src, dst, from) != [] && ArrayBreaks(src, dst, from)[0] >= 2
    decreases |dst| - from
  {
    if src[1] - src[0] != 1 || dst[from] - dst[from - 1] != 1 {
    } else {
      SomeLaterBreak(src, dst, from + 1, p);
    }
  }

  /** Two source blocks, more destination blocks, and a break past the second: some source group is empty. */
  lemma UnsteadyLeavesEmptyGroup(src: seq<int>, dst: seq<int>)
    requires |src| == 2 < |dst| && !Steady(src, dst)
    ensures !NonEmpty(ArraySplit(src, 0, ArrayBreaks(src, dst, 1)))
  {
    if src[1] - src[0] != 1 {
      SomeLaterBreak(src, dst, 2, 2);
    } else {
      var p: nat :| 2 <= p < |dst| && dst[p] - dst[p - 1] != 1;
      SomeLaterBreak(src, dst, 2, p);
    }
    var later := ArrayBreaks(src, dst, 2);
    var cuts := ArrayBreaks(src, dst, 1);
    if cuts == later {
      LateCutIsEmpty(src, 0, later);
    } else {
      assert cuts == [1] + later;
      LateCutIsEmpty(src, 1, later);
      assert ArraySplit(src, 0, cuts)[1..] == ArraySplit(src, 1, later);
      var k :| 0 <= k < |ArraySplit(src, 1, later)| && ArraySplit(src, 1, later)[k] == [];
      assert ArraySplit(src, 0, cuts)[k + 1] == [];
    }
  }

  lemma LateCutIsEmpty(xs: seq<int>, start: nat, cuts: seq<nat>)
    requires |xs| == 2 && cuts != [] && cuts[0] >= 2
    ensures !NonEmpty(ArraySplit(xs, start, cuts))
  {
    var rest := ArraySplit(xs, cuts[0], cuts[1..]);
    assert rest[0] == [];
    assert ArraySplit(xs, start, cuts)[1] == rest[0];
  }

  /** Otherwise the source groups are those against as many destination blocks, and so are the first entries. */
  lemma SteadyGroups(src: seq<int>, dst: seq<int>)
    requires |src| == 2 < |dst| && Steady(src, dst)
    ensures var (gs, gd) := GroupConcurrentContiguous(src, dst).value;
            var (hs, hd) := Groups(src, dst[..2]);
            gs == hs && SameHeads(gd, hd)
  {
    NoLaterBreaks(src, dst, 2);
    var cuts := ArrayBreaks(src, dst, 1);
    var short := dst[..2];
    assert Breaks(src, short, 2) == [];
    assert cuts == Breaks(src, short, 1);
    BreaksAreCuts(src, short, 0, 1);
    ArraySplitIsSplit(src, 0, cuts);
    if cuts == [] {
    } else {
      assert cuts == [1];
      assert ArraySplit(dst, 1, []) == [dst[1..]];
      assert SplitAt(short, 1, []) == [short[1..]];
    }
  }

  /** What the array library makes of fewer source than destination blocks. */
  lemma FewerBlocksGroup(src: seq<int>, dst: seq<int>)
    requires 0 < |src| < |dst|
    ensures var g := GroupConcurrentContiguous(src, dst);
            && (g.None? <==> |src| != 2 && !(|src| == 1 && |dst| == 2))
            && (g.Some? ==> (NonEmpty(g.value.0) <==> (|src| == 2 ==> Steady(src, dst))))
            && (g.Some? && NonEmpty(g.value.0) ==>
                  g.value.0 == Groups(src, dst[..|src|]).0 && SameHeads(g.value.1, Groups(src, dst[..|src|]).1))
  {
    if |src| == 2 {
      if Steady(src, dst) {
        SteadyGroups(src, dst);
        GroupsAreMaximalRuns(src, dst[..2]);
      } else {
        UnsteadyLeavesEmptyGroup(src, dst);
      }
    } else if |src| == 1 && |dst| == 2 {
      assert Breaks(src, dst[..1], 1) == [];
    }
  }

  // ---------------------------------------------------------------- copies

  /** As many groups on both sides, none of them empty. */
  predicate Paired(gs: seq<seq<int>>, gd: seq<seq<int>>) {
    |gs| == |gd| && NonEmpty(gs) && NonEmpty(gd)
  }

  /** The grouped copies of one layer: from the first local to the first remote block, as long as the local group. */
  function LayerCopies(localBase: int, remoteBase: int, blockLen: nat, gs: seq<seq<int>>, gd: seq<seq<int>>): seq<Copy>
    requires Paired(gs, gd)
  {
    if gs == [] then []
    else
      [Copy(localBase + gs[0][0] * blockLen, remoteBase + gd[0][0] * blockLen, blockLen * |gs[0]|)]
      + LayerCopies(localBase, remoteBase, blockLen, gs[1..], gd[1..])
  }

  lemma {:induction false} HeadsDecide(localBase: int, remoteBase: int, blockLen: nat, gs: seq<seq<int>>,
                                       gd: seq<seq<int>>,
                                       hd: seq<seq<int>>)
    requires Paired(gs, gd) && SameHeads(gd, hd)
    ensures LayerCopies(localBase, remoteBase, blockLen, gs, gd) == LayerCopies(localBase, remoteBase, blockLen, gs, hd)
    decreases |gs|
  {
    if gs == [] {
    } else {
      HeadsDecide(localBase, remoteBase, blockLen, gs[1..], gd[1..], hd[1..]);
    }
  }

  /** Reference: the blocks of one layer copied one by one, in order. */
  function PerBlock(localBase: int, remoteBase: int, blockLen: nat, src: seq<int>, dst: seq<int>): seq<Copy>
    requires |src| == |dst|
  {
    seq(|src|, i requires 0 <= i < |src| =>
      Copy(localBase + src[i] * blockLen, remoteBase + dst[i] * blockLen, blockLen))
  }

  /** A contiguous run copied at once is the run copied block by block. */
  lemma {:induction false} RunIsBlocks(localBase: int, remoteBase: int, blockLen: nat, src: seq<int>, dst: seq<int>)
    requires |src| == |dst| > 0 && Contiguous(src) && Contiguous(dst)
    ensures SameEffect([Copy(localBase + src[0] * blockLen, remoteBase + dst[0] * blockLen, blockLen * |src|)],
                       PerBlock(localBase, remoteBase, blockLen, src, dst))
    decreases |src|
  {
    var k := |src| - 1;
    var whole := Copy(localBase + src[0] * blockLen, remoteBase + dst[0] * blockLen, blockLen * |src|);
    if k == 0 {
      assert PerBlock(localBase, remoteBase, blockLen, src, dst) == [whole];
    } else {
      RunIsBlocks(localBase, remoteBase, blockLen, src[..k], dst[..k]);
      var front := Copy(localBase + src[0] * blockLen, remoteBase + dst[0] * blockLen, blockLen * k);
      var last := Copy(localBase + src[k] * blockLen, remoteBase + dst[k] * blockLen, blockLen);
      RunOffset(src, k);
      RunOffset(dst, k);
      SplitCopy(whole, front, last, blockLen, k, src[0], dst[0], localBase, remoteBase);
      SameEffectConcat([front], PerBlock(localBase, remoteBase, blockLen, src[..k], dst[..k]), [last], [last]);
      assert PerBlock(localBase, remoteBase, blockLen, src, dst)
             == PerBlock(localBase, remoteBase, blockLen, src[..k], dst[..k]) + [last];
    }
  }

  lemma {:induction false} RunOffset(xs: seq<int>, k: nat)
    requires Contiguous(xs) && k < |xs|
    ensures xs[k] == xs[0] + k
    decreases k
  {
    if k == 0 {
    } else {
      RunOffset(xs, k - 1);
    }
  }

  lemma SplitCopy(whole: Copy, front: Copy, last: Copy, blockLen: nat, k: nat, s0: int, d0: int, localBase: int,
                  remoteBase: int)
    requires whole == Copy(localBase + s0 * blockLen, remoteBase + d0 * blockLen, blockLen * (k + 1))
    requires front == Copy(localBase + s0 * blockLen, remoteBase + d0 * blockLen, blockLen * k)
    requires last == Copy(localBase + (s0 + k) * blockLen, remoteBase + (d0 + k) * blockLen, blockLen)
    ensures SameEffect([whole], [front] + [last])
  {
    assert whole.length == front.length + blockLen;
    assert last.src == front.src + front.length && last.dst == front.dst + front.length by {
      assert (s0 + k) * blockLen == s0 * blockLen + blockLen * k;
      assert (d0 + k) * blockLen == d0 * blockLen + blockLen * k;
    }
    forall local: int -> Byte, remote: int -> Byte, a: int
      ensures RemoteByte(local, remote, [whole], a) == RemoteByte(local, remote, [front] + [last], a)
    {
      var two := [front] + [last];
      assert two[..1] == [front];
      assert [front][..0] == [] && [whole][..0] == [];
    }
  }

  lemma {:induction false} LayerRefinesPerBlock(localBase: int, remoteBase: int, blockLen: nat, gs: seq<seq<int>>,
                                                gd: seq<seq<int>>)
    requires WellGrouped(gs, gd)
    ensures |Flatten(gs)| == |Flatten(gd)|
    ensures SameEffect(LayerCopies(localBase, remoteBase, blockLen, gs, gd),
                       PerBlock(localBase, remoteBase, blockLen, Flatten(gs), Flatten(gd)))
    decreases |gs|
  {
    if gs == [] {
    } else {
      LayerRefinesPerBlock(localBase, remoteBase, blockLen, gs[1..], gd[1..]);
      RunIsBlocks(localBase, remoteBase, blockLen, gs[0], gd[0]);
      var rest := LayerCopies(localBase, remoteBase, blockLen, gs[1..], gd[1..]);
      var one := [Copy(localBase + gs[0][0] * blockLen, remoteBase + gd[0][0] * blockLen, blockLen * |gs[0]|)];
      SameEffectConcat(one, PerBlock(localBase, remoteBase, blockLen, gs[0], gd[0]),
                       rest, PerBlock(localBase, remoteBase, blockLen, Flatten(gs[1..]), Flatten(gd[1..])));
      assert PerBlock(localBase, remoteBase, blockLen, Flatten(gs), Flatten(gd))
             == PerBlock(localBase, remoteBase, blockLen, gs[0], gd[0])
                + PerBlock(localBase, remoteBase, blockLen, Flatten(gs[1..]), Flatten(gd[1..]));
    }
  }

  // ---------------------------------------------------------------- a whole batch

  /** Base addresses of the layers, paired; the shorter list decides, as `zip` does. */
  function Layers(localBase: seq<int>, remoteBase: seq<int>): nat {
    if |localBase| <= |remoteBase| then |localBase| else |remoteBase|
  }

  /** With more local than remote blocks only the aligned local suffix is sent. */
  function AlignedLocal(r: Request): (bs: seq<int>)
    ensures |r.localBlocks| >= |r.remoteBlocks| ==> |bs| == |r.remoteBlocks|
    ensures forall i :: 0 <= i < |bs| && |r.localBlocks| >= |r.remoteBlocks| ==>
      bs[i] == r.localBlocks[|r.localBlocks| - |r.remoteBlocks| + i]
  {
    if |r.localBlocks| > |r.remoteBlocks| then r.localBlocks[|r.localBlocks| - |r.remoteBlocks|..]
    else r.localBlocks
  }

  /** The blocks that are written: with fewer local than remote blocks only as many as there are. */
  function Asked(r: Request): (bs: seq<int>)
    ensures |bs| == |AlignedLocal(r)|
  {
    if |r.localBlocks| < |r.remoteBlocks| then r.remoteBlocks[..|r.localBlocks|] else r.remoteBlocks
  }

  /**
   A request that raises an error: some local blocks, but fewer than asked for; unless there is one for two,
   or there are two that follow each other for blocks that do so from the second on.
   */
  predicate Mismatched(r: Request, layers: nat) {
    && 0 < |r.localBlocks| < |r.remoteBlocks|
    && !(|r.localBlocks| == 1 && |r.remoteBlocks| == 2)
    && !(|r.localBlocks| == 2 && (layers == 0 || Steady(r.localBlocks, r.remoteBlocks)))
  }

  /** Nothing to copy: nothing asked for, or nothing to send. */
  predicate Idle(r: Request) {
    r.remoteBlocks == [] || r.localBlocks == []
  }

  function GroupedRequest(localBase: seq<int>, remoteBase: seq<int>, blockLen: nat, r: Request, layers: nat): seq<Copy>
    requires layers <= Layers(localBase, remoteBase)
  {
    if layers == 0 || Idle(r) then []
    else
      var (gs, gd) := Groups(AlignedLocal(r), Asked(r));
      GroupsAreMaximalRuns(AlignedLocal(r), Asked(r));
      GroupedRequest(localBase, remoteBase, blockLen, r, layers - 1)
      + LayerCopies(localBase[layers - 1], remoteBase[layers - 1], blockLen, gs, gd)
  }

  function PlainRequest(localBase: seq<int>, remoteBase: seq<int>, blockLen: nat, r: Request, layers: nat): seq<Copy>
    requires layers <= Layers(localBase, remoteBase)
  {
    if layers == 0 || Idle(r) then []
    else
      PlainRequest(localBase, remoteBase, blockLen, r, layers - 1)
      + PerBlock(localBase[layers - 1], remoteBase[layers - 1], blockLen, AlignedLocal(r), Asked(r))
  }

  ghost predicate Sendable(rs: seq<Request>, layers: nat) {
    forall i :: 0 <= i < |rs| ==> !Mismatched(rs[i], layers)
  }

  function GroupedBatch(localBase: seq<int>, remoteBase: seq<int>, blockLen: nat, rs: seq<Request>): seq<Copy>
  {
    if rs == [] then []
    else
      GroupedBatch(localBase, remoteBase, blockLen, rs[..|rs| - 1])
      + GroupedRequest(localBase, remoteBase, blockLen, rs[|rs| - 1], Layers(localBase, remoteBase))
  }

  /** Reference for a batch: request by request, layer by layer, block by block. */
  function PlainBatch(localBase: seq<int>, remoteBase: seq<int>, blockLen: nat, rs: seq<Request>): seq<Copy>
  {
    if rs == [] then []
    else
      PlainBatch(localBase, remoteBase, blockLen, rs[..|rs| - 1])
      + PlainRequest(localBase, remoteBase, blockLen, rs[|rs| - 1], Layers(localBase, remoteBase))
  }

  lemma {:induction false} RequestRefinesPlain(localBase: seq<int>, remoteBase: seq<int>, blockLen: nat, r: Request,
                                               layers: nat)
    requires layers <= Layers(localBase, remoteBase)
    ensures SameEffect(GroupedRequest(localBase, remoteBase, blockLen, r, layers),
                       PlainRequest(localBase, remoteBase, blockLen, r, layers))
    decreases layers
  {
    if layers > 0 && !Idle(r) {
      RequestRefinesPlain(localBase, remoteBase, blockLen, r, layers - 1);
      var (gs, gd) := Groups(AlignedLocal(r), Asked(r));
      GroupsAreMaximalRuns(AlignedLocal(r), Asked(r));
      LayerRefinesPerBlock(localBase[layers - 1], remoteBase[layers - 1], blockLen, gs, gd);
      SameEffectConcat(
        GroupedRequest(localBase, remoteBase, blockLen, r, layers - 1),
        PlainRequest(localBase, remoteBase, blockLen, r, layers - 1),
        LayerCopies(localBase[layers - 1], remoteBase[layers - 1], blockLen, gs, gd),
        PerBlock(localBase[layers - 1], remoteBase[layers - 1], blockLen, AlignedLocal(r), Asked(r)));
    }
  }

  /** For all block lists, layers and memories the grouped batch leaves remote memory as the plain batch does. */
  lemma {:induction false} GroupedRefinesPlain(localBase: seq<int>, remoteBase: seq<int>, blockLen: nat,
                                               rs: seq<Request>)
    ensures SameEffect(GroupedBatch(localBase, remoteBase, blockLen, rs),
                       PlainBatch(localBase, remoteBase, blockLen, rs))
    decreases |rs|
  {
    if rs == [] {
    } else {
      var init, last := rs[..|rs| - 1], rs[|rs| - 1];
      GroupedRefinesPlain(localBase, remoteBase, blockLen, init);
      RequestRefinesPlain(localBase, remoteBase, blockLen, last, Layers(localBase, remoteBase));
      SameEffectConcat(
        GroupedBatch(localBase, remoteBase, blockLen, init),
        PlainBatch(localBase, remoteBase, blockLen, init),
        GroupedRequest(localBase, remoteBase, blockLen, last, Layers(localBase, remoteBase)),
        PlainRequest(localBase, remoteBase, blockLen, last, Layers(localBase, remoteBase)));
    }
  }

  /** The three parallel lists handed to the transfer engine, read as copies. */
  function Zip(srcPtrs: seq<int>, dstPtrs: seq<int>, lengths: seq<nat>): seq<Copy>
    requires |srcPtrs| == |dstPtrs| == |lengths|
  {
    seq(|lengths|, i requires 0 <= i < |lengths| => Copy(srcPtrs[i], dstPtrs[i], lengths[i]))
  }

  /** Appends the copies of one layer to the three lists; an empty local group has no first block. */
  method AppendLayer(localBase: int, remoteBase: int, blockLen: nat, gs: seq<seq<int>>, gd: seq<seq<int>>,
                     srcIn: seq<int>, dstIn: seq<int>, lenIn: seq<nat>)
    returns (ok: bool, srcPtrs: seq<int>, dstPtrs: seq<int>, lengths: seq<nat>)
    requires |srcIn| == |dstIn| == |lenIn| && |gs| == |gd| && NonEmpty(gd)
    ensures ok <==> NonEmpty(gs)
    ensures |srcPtrs| == |dstPtrs| == |lengths|
    ensures ok ==> Zip(srcPtrs, dstPtrs, lengths)
                   == Zip(srcIn, dstIn, lenIn) + LayerCopies(localBase, remoteBase, blockLen, gs, gd)
  {
    srcPtrs, dstPtrs, lengths := srcIn, dstIn, lenIn;
    for g := 0 to |gs|
      invariant |srcPtrs| == |dstPtrs| == |lengths|
      invariant forall k :: 0 <= k < g ==> gs[k] != []
      invariant NonEmpty(gs) ==>
                  Zip(srcPtrs, dstPtrs, lengths) + LayerCopies(localBase, remoteBase, blockLen, gs[g..], gd[g..])
                  == Zip(srcIn, dstIn, lenIn) + LayerCopies(localBase, remoteBase, blockLen, gs, gd)
    {
      if gs[g] == [] {
        return false, srcPtrs, dstPtrs, lengths;
      }
      ghost var zipped := Zip(srcPtrs, dstPtrs, lengths);
      srcPtrs := srcPtrs + [localBase + gs[g][0] * blockLen];
      dstPtrs := dstPtrs + [remoteBase + gd[g][0] * blockLen];
      lengths := lengths + [blockLen * |gs[g]|];
      if NonEmpty(gs) {
        OneMoreCopy(localBase, remoteBase, blockLen, gs, gd, g, zipped, Zip(srcPtrs, dstPtrs, lengths));
      }
    }
    ok := true;
  }

  lemma OneMoreCopy(localBase: int, remoteBase: int, blockLen: nat, gs: seq<seq<int>>, gd: seq<seq<int>>, g: nat,
                    before: seq<Copy>, after: seq<Copy>)
    requires Paired(gs, gd) && g < |gs|
    requires after == before + [Copy(localBase + gs[g][0] * blockLen, remoteBase + gd[g][0] * blockLen,
                                     blockLen * |gs[g]|)]
    ensures before + LayerCopies(localBase, remoteBase, blockLen, gs[g..], gd[g..])
            == after + LayerCopies(localBase, remoteBase, blockLen, gs[g + 1..], gd[g + 1..])
  {
    assert gs[g..][1..] == gs[g + 1..] && gd[g..][1..] == gd[g + 1..];
  }

  /** The groups the array library makes of a request give the copies of the request, or none, exactly as stated. */
  lemma RequestGroups(r: Request)
    requires !Idle(r)
    ensures var g := GroupConcurrentContiguous(AlignedLocal(r), r.remoteBlocks);
            && (g.None? ==> forall layers: nat :: Mismatched(r, layers))
            && (g.Some? ==> |g.value.0| == |g.value.1| && NonEmpty(g.value.1) && !Mismatched(r, 0)
                            && forall layers: nat :: layers > 0 ==> (Mismatched(r, layers) <==> !NonEmpty(g.value.0)))
            && (g.Some? && NonEmpty(g.value.0) ==>
                  && g.value.0 == Groups(AlignedLocal(r), Asked(r)).0
                  && SameHeads(g.value.1, Groups(AlignedLocal(r), Asked(r)).1))
  {
    var src, dst := AlignedLocal(r), r.remoteBlocks;
    GroupsAreMaximalRuns(src, Asked(r));
    if |src| == |dst| {
      assert Asked(r) == dst;
      EqualLengthsGroup(src, dst);
    } else {
      FewerBlocksGroup(src, dst);
      if |src| == 2 {
        RemoteGroupsNonEmpty(src, dst);
      }
    }
  }

  lemma RemoteGroupsNonEmpty(src: seq<int>, dst: seq<int>)
    requires |src| == 2 <= |dst|
    ensures NonEmpty(ArraySplit(dst, 0, ArrayBreaks(src, dst, 1)))
  {
    ArrayBreaksAreCuts(src, dst, 0, 1);
    ArraySplitIsSplit(dst, 0, ArrayBreaks(src, dst, 1));
    SplitNonEmpty(dst, 0, ArrayBreaks(src, dst, 1));
  }

  lemma {:induction false} ArrayBreaksAreCuts(src: seq<int>, dst: seq<int>, start: nat, from: nat)
    requires |src| == 2 <= |dst| && start < from <= |dst|
    ensures Cuts(|dst|, start, ArrayBreaks(src, dst, from))
    decreases |dst| - from
  {
    if from >= |dst| {
    } else {
      ArrayBreaksAreCuts(src, dst, from, from + 1);
      ArrayBreaksAreCuts(src, dst, start, from + 1);
    }
  }

  lemma {:induction false} SplitNonEmpty(xs: seq<int>, start: nat, cuts: seq<nat>)
    requires Cuts(|xs|, start, cuts)
    ensures NonEmpty(SplitAt(xs, start, cuts))
    decreases |cuts|
  {
    if cuts == [] {
    } else {
      SplitNonEmpty(xs, cuts[0], cuts[1..]);
    }
  }

  /** Appends the copies of one request, layer by layer. */
  method AppendRequest(localBase: seq<int>, remoteBase: seq<int>, blockLen: nat, r: Request,
                       srcIn: seq<int>, dstIn: seq<int>, lenIn: seq<nat>)
    returns (ok: bool, srcPtrs: seq<int>, dstPtrs: seq<int>, lengths: seq<nat>)
    requires |srcIn| == |dstIn| == |lenIn|
    ensures ok <==> !Mismatched(r, Layers(localBase, remoteBase))
    ensures |srcPtrs| == |dstPtrs| == |lengths|
    ensures ok ==> Zip(srcPtrs, dstPtrs, lengths)
                   == Zip(srcIn, dstIn, lenIn)
                      + GroupedRequest(localBase, remoteBase, blockLen, r, Layers(localBase, remoteBase))
  {
    ok, srcPtrs, dstPtrs, lengths := true, srcIn, dstIn, lenIn;
    ghost var before := Zip(srcIn, dstIn, lenIn);
    if Idle(r) {
      return;
    }
    RequestGroups(r);
    var grouped := GroupConcurrentContiguous(AlignedLocal(r), r.remoteBlocks);
    if grouped.None? {
      return false, srcPtrs, dstPtrs, lengths;
    }
    var (gs, gd) := grouped.value;
    for layer := 0 to Layers(localBase, remoteBase)
      invariant |srcPtrs| == |dstPtrs| == |lengths| && ok && (layer > 0 ==> NonEmpty(gs))
      invariant Zip(srcPtrs, dstPtrs, lengths) == before + GroupedRequest(localBase, remoteBase, blockLen, r, layer)
    {
      ok, srcPtrs, dstPtrs, lengths :=
        AppendLayer(localBase[layer], remoteBase[layer], blockLen, gs, gd, srcPtrs, dstPtrs, lengths);
      if !ok {
        return;
      }
      OneMoreLayer(localBase, remoteBase, blockLen, r, layer, gs, gd);
    }
  }

  lemma OneMoreLayer(localBase: seq<int>, remoteBase: seq<int>, blockLen: nat, r: Request, layer: nat,
                     gs: seq<seq<int>>, gd: seq<seq<int>>)
    requires layer < Layers(localBase, remoteBase) && !Idle(r) && Paired(gs, gd)
    requires gs == Groups(AlignedLocal(r), Asked(r)).0 && SameHeads(gd, Groups(AlignedLocal(r), Asked(r)).1)
    ensures GroupedRequest(localBase, remoteBase, blockLen, r, layer + 1)
            == GroupedRequest(localBase, remoteBase, blockLen, r, layer)
               + LayerCopies(localBase[layer], remoteBase[layer], blockLen, gs, gd)
  {
    HeadsDecide(localBase[layer], remoteBase[layer], blockLen, gs, gd, Groups(AlignedLocal(r), Asked(r)).1);
  }

  /** The three lists hold the copies of the first `q` requests, none of which fails. */
  ghost predicate Built(localBase: seq<int>, remoteBase: seq<int>, blockLen: nat, rs: seq<Request>, q: nat,
                        srcPtrs: seq<int>, dstPtrs: seq<int>, lengths: seq<nat>)
  {
    && q <= |rs| && |srcPtrs| == |dstPtrs| == |lengths|
    && Sendable(rs[..q], Layers(localBase, remoteBase))
    && Zip(srcPtrs, dstPtrs, lengths) == GroupedBatch(localBase, remoteBase, blockLen, rs[..q])
  }

  lemma BuiltOneMore(localBase: seq<int>, remoteBase: seq<int>, blockLen: nat, rs: seq<Request>, q: nat,
                     srcIn: seq<int>, dstIn: seq<int>, lenIn: seq<nat>,
                     srcPtrs: seq<int>, dstPtrs: seq<int>, lengths: seq<nat>)
    requires q < |rs| && Built(localBase, remoteBase, blockLen, rs, q, srcIn, dstIn, lenIn)
    requires !Mismatched(rs[q], Layers(localBase, remoteBase)) && |srcPtrs| == |dstPtrs| == |lengths|
    requires Zip(srcPtrs, dstPtrs, lengths)
             == Zip(srcIn, dstIn, lenIn)
                + GroupedRequest(localBase, remoteBase, blockLen, rs[q], Layers(localBase, remoteBase))
    ensures Built(localBase, remoteBase, blockLen, rs, q + 1, srcPtrs, dstPtrs, lengths)
  {
    assert rs[..q + 1][..q] == rs[..q];
  }

  /** Builds the copies of a batch of requests, or fails on the first request that raises an error. */
  method SendBlocks(localBase: seq<int>, remoteBase: seq<int>, blockLen: nat, requests: seq<Request>)
    returns (result: SendResult)
    ensures result.Sent? <==> Sendable(requests, Layers(localBase, remoteBase))
    ensures result.Sent? ==> result.copies == GroupedBatch(localBase, remoteBase, blockLen, requests)
    ensures result.Sent? ==> SameEffect(result.copies, PlainBatch(localBase, remoteBase, blockLen, requests))
  {
    var srcPtrs: seq<int>, dstPtrs: seq<int>, lengths: seq<nat> := [], [], [];
    for q := 0 to |requests|
      invariant Built(localBase, remoteBase, blockLen, requests, q, srcPtrs, dstPtrs, lengths)
    {
      var ok, s, d, l :=
        AppendRequest(localBase, remoteBase, blockLen, requests[q], srcPtrs, dstPtrs, lengths);
      if !ok {
        return SendFailed;
      }
      BuiltOneMore(localBase, remoteBase, blockLen, requests, q, srcPtrs, dstPtrs, lengths, s, d, l);
      srcPtrs, dstPtrs, lengths := s, d, l;
    }
    assert requests[..|requests|] == requests;
    GroupedRefinesPlain(localBase, remoteBase, blockLen, requests);
    return Sent(Zip(srcPtrs, dstPtrs, lengths));
  }
}
