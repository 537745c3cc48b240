/**
 Keys and hit lengths put together: an instance that cached some prompts, and the credit it gets for a new
 one. Under collision-free hashing the credit is the longest block prefix the new prompt shares with any of them.
 */
module PrefixLookup {
  import opened Arithmetic
  import opened TokenHasher
  import opened PrefixKeys
  import PrefixHits

  lemma {:induction false} EncodeLength(n: nat, values: seq<int>)
    ensures |Encode(n, values)| == n * |values|
    decreases |values|
  {
    if values == [] {
    } else {
      EncodeLength(n, values[1..]);
      assert n * |values| == n + n * |values[1..]|;
    }
  }

  /** No two block lists hashed for the prompts at hand collide, whatever their lengths. */
  ghost predicate CrossCollisionFree(sha: seq<Byte> -> Digest, a: seq<seq<int>>, b: seq<seq<int>>)
    decreases |a|
  {
    a == [] || b == [] ||
    (&& (ShaDigest(sha, a) == ShaDigest(sha, b) ==> ShaInput(sha, a) == ShaInput(sha, b))
     && CrossCollisionFree(sha, Init(a), Init(b)))
  }

  /** A digest of full blocks identifies the blocks and how many they are. */
  lemma {:induction false} DigestIdentifies(sha: seq<Byte> -> Digest, a: seq<seq<int>>, b: seq<seq<int>>, chunk: nat)
    requires Sized(sha) && a != [] && b != [] && AllFull(a, chunk) && AllFull(b, chunk)
    requires AllInRange(a) && AllInRange(b) && CrossCollisionFree(sha, a, b)
    ensures ShaDigest(sha, a) == ShaDigest(sha, b) <==> a == b
    decreases |a|
  {
    EncodeLength(4, Last(a));
    EncodeLength(4, Last(b));
    if |a| == 1 && |b| == 1 {
      SameList(a, b);
      TokenBytesInjective(Last(a), Last(b));
      SameConcat([], Encode(4, Last(a)), [], Encode(4, Last(b)));
    } else if |a| > 1 && |b| > 1 {
      DigestIdentifies(sha, Init(a), Init(b), chunk);
      TokenBytesInjective(Last(a), Last(b));
      SameConcat(ShaDigest(sha, Init(a)), Encode(4, Last(a)), ShaDigest(sha, Init(b)), Encode(4, Last(b)));
      SameEnds(a, b);
    } else {
      assert |ShaInput(sha, a)| != |ShaInput(sha, b)|;
    }
  }

  lemma SameEnds(a: seq<seq<int>>, b: seq<seq<int>>)
    requires a != [] && b != []
    ensures a == b <==> Init(a) == Init(b) && Last(a) == Last(b)
  {
    assert a == Init(a) + [Last(a)] && b == Init(b) + [Last(b)];
  }

  // ---------------------------------------------------------------- what an instance has cached

  /** The key of the first n full blocks of a prompt. */
  function KeyOf(sha: seq<Byte> -> Digest, prompt: seq<int>, chunk: nat, n: nat): string
    requires n > 0 && Start(chunk, n) <= |prompt|
  {
    Hex(ShaDigest(sha, Blocks(prompt, chunk, n)))
  }

  /** It is what the hasher returns at position n-1, however many blocks it hashes. */
  lemma {:induction false} KeyIsListed(sha: seq<Byte> -> Digest, prompt: seq<int>, chunk: nat, n: nat, total: nat)
    requires 0 < n <= total && Start(chunk, n) <= |prompt| && Start(chunk, total - 1) <= |prompt|
    ensures var keys := ShaKeys(sha, Blocks(prompt, chunk, total), chunk);
            |keys| == total && keys[n - 1] == KeyOf(sha, prompt, chunk, n)
    decreases total
  {
    var x := OneMoreKey(sha, prompt, chunk, total);
    if n == total {
      KeyCount(sha, prompt, chunk, n - 1);
    } else {
      StartGrows(chunk, total - 2, total - 1);
      KeyIsListed(sha, prompt, chunk, n, total - 1);
    }
  }

  lemma OneMoreKey(sha: seq<Byte> -> Digest, prompt: seq<int>, chunk: nat, n: nat) returns (x: string)
    requires 0 < n && Start(chunk, n - 1) <= |prompt|
    ensures n > 1 ==> Start(chunk, n - 2) <= |prompt|
    ensures ShaKeys(sha, Blocks(prompt, chunk, n), chunk) == ShaKeys(sha, Blocks(prompt, chunk, n - 1), chunk) + [x]
    ensures Start(chunk, n) <= |prompt| ==> x == KeyOf(sha, prompt, chunk, n)
  {
    var hex := Hex(ShaDigest(sha, Blocks(prompt, chunk, n)));
    MoreShaKeys(sha, Blocks(prompt, chunk, n - 1), Block(prompt, chunk, n - 1), chunk);
    x := if |Block(prompt, chunk, n - 1)| == chunk then hex else hex + "_0";
  }

  lemma {:induction false} KeyCount(sha: seq<Byte> -> Digest, prompt: seq<int>, chunk: nat, n: nat)
    requires Start(chunk, n) <= |prompt|
    ensures |ShaKeys(sha, Blocks(prompt, chunk, n), chunk)| == n
    decreases n
  {
    if n == 0 {
    } else {
      KeyCount(sha, prompt, chunk, n - 1);
      var x := OneMoreKey(sha, prompt, chunk, n);
    }
  }

  /** A key is cached when it belongs to a full-block prefix of some cached prompt. */
  ghost predicate CachedKey(sha: seq<Byte> -> Digest, prompts: set<seq<int>>, chunk: nat, key: string) {
    exists p, n: nat :: p in prompts && n > 0 && Start(chunk, n) <= |p| && key == KeyOf(sha, p, chunk, n)
  }

  ghost predicate SharesPrefix(prompts: set<seq<int>>, prompt: seq<int>, length: nat) {
    length <= |prompt| && exists p :: p in prompts && length <= |p| && p[..length] == prompt[..length]
  }

  /** The prompts use valid tokens and their block lists do not collide with those of the new prompt. */
  ghost predicate Hashable(sha: seq<Byte> -> Digest, prompts: set<seq<int>>, prompt: seq<int>, chunk: nat) {
    && Sized(sha) && InRange(prompt) && chunk > 0
    && (forall p :: p in prompts ==> InRange(p))
    && (forall p, m: nat, n: nat :: p in prompts && Start(chunk, m) <= |p| && Start(chunk, n) <= |prompt| ==>
          CrossCollisionFree(sha, Blocks(p, chunk, m), Blocks(prompt, chunk, n)))
  }

  lemma BlocksDiffer(sha: seq<Byte> -> Digest, p: seq<int>, q: seq<int>, chunk: nat, m: nat, n: nat)
    requires Sized(sha) && InRange(p) && InRange(q) && m > 0 && n > 0 && Start(chunk, m) <= |p|
    requires Start(chunk, n) <= |q|
    requires CrossCollisionFree(sha, Blocks(p, chunk, m), Blocks(q, chunk, n))
    ensures KeyOf(sha, p, chunk, m) == KeyOf(sha, q, chunk, n)
            <==> m == n && p[..Start(chunk, n)] == q[..Start(chunk, n)]
  {
    BlocksFullInRange(p, chunk, m);
    BlocksFullInRange(q, chunk, n);
    DigestIdentifies(sha, Blocks(p, chunk, m), Blocks(q, chunk, n), chunk);
    HexInjective(ShaDigest(sha, Blocks(p, chunk, m)), ShaDigest(sha, Blocks(q, chunk, n)));
    if m == n {
      SameBlocksIff(p, q, chunk, n);
    }
  }

  /** The key of the first n blocks is cached iff some cached prompt shares those blocks. */
  lemma CachedIff(sha: seq<Byte> -> Digest, prompts: set<seq<int>>, prompt: seq<int>, chunk: nat, n: nat)
    requires Hashable(sha, prompts, prompt, chunk) && n > 0 && Start(chunk, n) <= |prompt|
    ensures CachedKey(sha, prompts, chunk, KeyOf(sha, prompt, chunk, n))
            <==> SharesPrefix(prompts, prompt, Start(chunk, n))
  {
    var key := KeyOf(sha, prompt, chunk, n);
    if CachedKey(sha, prompts, chunk, key) {
      var p, m: nat :| p in prompts && m > 0 && Start(chunk, m) <= |p| && key == KeyOf(sha, p, chunk, m);
      BlocksDiffer(sha, p, prompt, chunk, m, n);
    }
    if SharesPrefix(prompts, prompt, Start(chunk, n)) {
      var p :| p in prompts && Start(chunk, n) <= |p| && p[..Start(chunk, n)] == prompt[..Start(chunk, n)];
      BlocksDiffer(sha, p, prompt, chunk, n, n);
    }
  }

  // ---------------------------------------------------------------- the credit for a new prompt

  /** The lookup of the full-block keys says exactly who cached them. */
  ghost predicate Truthful(sha: seq<Byte> -> Digest, hits: PrefixHits.Hits, hashes: seq<string>,
                           who: PrefixHits.Instance,
                           prompts: set<seq<int>>, prompt: seq<int>, chunk: nat) {
    && Start(chunk, |hashes|) <= |prompt|
    && forall i: nat :: i < |hashes| ==>
         StartsWithin(chunk, i + 1, |hashes|, |prompt|)
         && hashes[i] == KeyOf(sha, prompt, chunk, i + 1)
         && (PrefixHits.Hit(hits, hashes, i, who) <==> CachedKey(sha, prompts, chunk, hashes[i]))
  }

  predicate StartsWithin(chunk: nat, n: nat, count: nat, length: nat) {
    n <= count && Start(chunk, n) <= length
  }

  lemma HitIffShared(sha: seq<Byte> -> Digest, hits: PrefixHits.Hits, hashes: seq<string>, who: PrefixHits.Instance,
                     prompts: set<seq<int>>, prompt: seq<int>, chunk: nat, i: nat)
    requires Hashable(sha, prompts, prompt, chunk) && Truthful(sha, hits, hashes, who, prompts, prompt, chunk)
    requires i < |hashes|
    ensures PrefixHits.HitAt(hits, hashes, i, who) <==> SharesPrefix(prompts, prompt, Start(chunk, i + 1))
  {
    StartGrows(chunk, i + 1, |hashes|);
    assert StartsWithin(chunk, i + 1, |hashes|, |prompt|);
    CachedIff(sha, prompts, prompt, chunk, i + 1);
  }

  lemma ShorterIsShared(prompts: set<seq<int>>, prompt: seq<int>, short: nat, long: nat)
    requires short <= long && SharesPrefix(prompts, prompt, long)
    ensures SharesPrefix(prompts, prompt, short)
  {
    var p :| p in prompts && long <= |p| && p[..long] == prompt[..long];
    assert p[..short] == p[..long][..short] == prompt[..long][..short] == prompt[..short];
  }

  /** A block hits iff some cached prompt shares the new prompt up to its end. */
  ghost predicate HitsAreShared(hits: PrefixHits.Hits, hashes: seq<string>, who: PrefixHits.Instance,
                                prompts: set<seq<int>>, prompt: seq<int>, chunk: nat) {
    forall i: nat :: i < |hashes| ==>
      (PrefixHits.HitAt(hits, hashes, i, who) <==> SharesPrefix(prompts, prompt, Start(chunk, i + 1)))
  }

  lemma AllHitsShared(sha: seq<Byte> -> Digest, hits: PrefixHits.Hits, hashes: seq<string>, who: PrefixHits.Instance,
                      prompts: set<seq<int>>, prompt: seq<int>, chunk: nat)
    requires Hashable(sha, prompts, prompt, chunk) && Truthful(sha, hits, hashes, who, prompts, prompt, chunk)
    ensures HitsAreShared(hits, hashes, who, prompts, prompt, chunk)
  {
    forall i: nat | i < |hashes|
      ensures PrefixHits.HitAt(hits, hashes, i, who) <==> SharesPrefix(prompts, prompt, Start(chunk, i + 1))
    {
      HitIffShared(sha, hits, hashes, who, prompts, prompt, chunk, i);
    }
  }

  lemma EarlierBlockHits(hits: PrefixHits.Hits, hashes: seq<string>, who: PrefixHits.Instance,
                         prompts: set<seq<int>>, prompt: seq<int>, chunk: nat, i: nat, j: nat)
    requires HitsAreShared(hits, hashes, who, prompts, prompt, chunk) && j <= i
    requires PrefixHits.HitAt(hits, hashes, i, who)
    ensures PrefixHits.HitAt(hits, hashes, j, who)
  {
    StartGrows(chunk, j + 1, i + 1);
    ShorterIsShared(prompts, prompt, Start(chunk, j + 1), Start(chunk, i + 1));
  }

  /** Caches of whole prompts are prefix-closed, so nothing is ever credited past a gap. */
  lemma CachesArePrefixClosed(hits: PrefixHits.Hits, hashes: seq<string>, who: PrefixHits.Instance,
                              prompts: set<seq<int>>, prompt: seq<int>, chunk: nat)
    requires HitsAreShared(hits, hashes, who, prompts, prompt, chunk)
    ensures PrefixHits.PrefixClosed(hits, hashes, who)
  {
    forall i: nat, j: nat | j <= i && PrefixHits.HitAt(hits, hashes, i, who)
      ensures PrefixHits.HitAt(hits, hashes, j, who)
    {
      EarlierBlockHits(hits, hashes, who, prompts, prompt, chunk, i, j);
    }
  }

  /**
   End to end: an instance is credited with n blocks iff n is how far the new prompt agrees with some
   cached prompt.
   */
  lemma CreditIsSharedPrefix(sha: seq<Byte> -> Digest, hits: PrefixHits.Hits, hashes: seq<string>,
                             who: PrefixHits.Instance,
                             prompts: set<seq<int>>, prompt: seq<int>, chunk: nat, i: nat)
    requires Hashable(sha, prompts, prompt, chunk) && Truthful(sha, hits, hashes, who, prompts, prompt, chunk)
    requires i < |hashes|
    ensures i < PrefixHits.Blocks(PrefixHits.TrackOf(hits, hashes, who, |hashes|))
       <==> SharesPrefix(prompts, prompt, Start(chunk, i + 1))
  {
    AllHitsShared(sha, hits, hashes, who, prompts, prompt, chunk);
    CreditFollowsHits(hits, hashes, who, prompts, prompt, chunk, i);
  }

  lemma CreditFollowsHits(hits: PrefixHits.Hits, hashes: seq<string>, who: PrefixHits.Instance,
                          prompts: set<seq<int>>, prompt: seq<int>, chunk: nat, i: nat)
    requires HitsAreShared(hits, hashes, who, prompts, prompt, chunk) && i < |hashes|
    ensures i < PrefixHits.Blocks(PrefixHits.TrackOf(hits, hashes, who, |hashes|))
       <==> SharesPrefix(prompts, prompt, Start(chunk, i + 1))
  {
    CachesArePrefixClosed(hits, hashes, who, prompts, prompt, chunk);
    PrefixHits.CountsLongestPrefix(hits, hashes, who, i);
  }

  // ---------------------------------------------------------------- the tokens a prompt is said to miss

  /** Tokens credited to an instance. */
  function HitTokens(hits: PrefixHits.Hits, hashes: seq<string>, who: PrefixHits.Instance, chunk: nat): nat {
    PrefixHits.Blocks(PrefixHits.TrackOf(hits, hashes, who, |hashes|)) * chunk
  }

  /** The miss count in the scheduling context; it keeps its initial zero for an instance without any hit. */
  function MissTokens(hits: PrefixHits.Hits, hashes: seq<string>, who: PrefixHits.Instance, chunk: nat,
                      length: nat): int {
    if PrefixHits.TrackOf(hits, hashes, who, |hashes|).Fresh? then 0 else length - HitTokens(hits, hashes, who, chunk)
  }

  /** The keyed blocks reach past the end of the prompt iff the last of them is incomplete. */
  lemma KeyedBeyondIff(length: nat, chunk: nat, saveUnfull: bool)
    requires chunk > 0
    ensures var n := KeyedBlocks(length, chunk, saveUnfull);
            && (n * chunk > length <==> saveUnfull && length % chunk != 0)
            && (n * chunk > length ==> n * chunk == length - length % chunk + chunk)
  {
    var full := FullBlocks(length, chunk);
    StartIsProduct(chunk, full);
    StartIsProduct(chunk, full + 1);
    Euclidean(length, full, length - full * chunk, chunk);
  }

  /**
   When an incomplete last block makes the miss count negative: iff such blocks are saved, the prompt ends inside a
   block, and the instance has every block; the count is then below zero by the padding of that block.
   */
  lemma MissNegativeIff(hits: PrefixHits.Hits, hashes: seq<string>, who: PrefixHits.Instance, chunk: nat, length: nat,
                        saveUnfull: bool)
    requires chunk > 0 && |hashes| == KeyedBlocks(length, chunk, saveUnfull)
    ensures MissTokens(hits, hashes, who, chunk, length) < 0
       <==> && saveUnfull && length % chunk != 0
            && forall i :: 0 <= i < |hashes| ==> PrefixHits.HitAt(hits, hashes, i, who)
    ensures MissTokens(hits, hashes, who, chunk, length) < 0 ==>
              MissTokens(hits, hashes, who, chunk, length) == length % chunk - chunk
  {
    PrefixHits.CountsAllIff(hits, hashes, who);
    PrefixHits.CountsSomeIff(hits, hashes, who);
    KeyedBeyondIff(length, chunk, saveUnfull);
    var blocks := PrefixHits.Blocks(PrefixHits.TrackOf(hits, hashes, who, |hashes|));
    if blocks < |hashes| {
      Times(blocks, |hashes| - 1, chunk);
      KeyedStartsInside(length, chunk, saveUnfull);
    }
  }

  lemma KeyedStartsInside(length: nat, chunk: nat, saveUnfull: bool)
    requires chunk > 0 && KeyedBlocks(length, chunk, saveUnfull) > 0
    ensures (KeyedBlocks(length, chunk, saveUnfull) - 1) * chunk <= length
  {
    StartIsProduct(chunk, KeyedBlocks(length, chunk, saveUnfull) - 1);
  }

  /** The miss count is what is not credited iff some block hits or the prompt is empty. */
  lemma MissIsUncreditedIff(hits: PrefixHits.Hits, hashes: seq<string>, who: PrefixHits.Instance, chunk: nat,
                            length: nat)
    ensures MissTokens(hits, hashes, who, chunk, length) == length - HitTokens(hits, hashes, who, chunk)
       <==> length == 0 || exists i: nat :: PrefixHits.HitAt(hits, hashes, i, who)
  {
    PrefixHits.CountsSomeIff(hits, hashes, who);
  }

  /**
   Of two instances the one with more credit has the smaller miss count iff the other has a hit as well, or the
   credit exceeds the prompt.  An instance without any hit looks as good as one that has the whole prompt.
   */
  lemma MoreCreditFewerMissesIff(hits: PrefixHits.Hits, hashes: seq<string>, who: PrefixHits.Instance,
                                 other: PrefixHits.Instance, chunk: nat, length: nat)
    requires HitTokens(hits, hashes, who, chunk) > HitTokens(hits, hashes, other, chunk)
    ensures MissTokens(hits, hashes, who, chunk, length) < MissTokens(hits, hashes, other, chunk, length)
       <==> || (exists i: nat :: PrefixHits.HitAt(hits, hashes, i, other))
            || HitTokens(hits, hashes, who, chunk) > length
  {
    PrefixHits.CountsSomeIff(hits, hashes, who);
    PrefixHits.CountsSomeIff(hits, hashes, other);
  }
}
