/**
 The CBOR chain and the running xxhash. The CBOR keys tell all blocks apart, also an incomplete last one;
 the xxhash keys do so for full blocks, but an incomplete block is padded with zeros before it is hashed.
 */
module RunningKeys {
  import opened Wrappers
  import opened TokenHasher
  import opened PrefixKeys

  // ---------------------------------------------------------------- chained SHA-256 over CBOR

  /** `hash` digests the canonical CBOR of the digest before and the block. */
  function CborDigest(hash: (Digest, seq<int>) -> Digest, seed: Digest, blocks: seq<seq<int>>): Digest
    decreases |blocks|
  {
    if blocks == [] then seed else hash(CborDigest(hash, seed, Init(blocks)), Last(blocks))
  }

  function CborKeys(hash: (Digest, seq<int>) -> Digest, seed: Digest, blocks: seq<seq<int>>): seq<string>
    decreases |blocks|
  {
    if blocks == [] then [] else CborKeys(hash, seed, Init(blocks)) + [Hex(CborDigest(hash, seed, blocks)) + "_0"]
  }

  lemma MoreCborKeys(hash: (Digest, seq<int>) -> Digest, seed: Digest, blocks: seq<seq<int>>, block: seq<int>)
    ensures CborDigest(hash, seed, blocks + [block]) == hash(CborDigest(hash, seed, blocks), block)
    ensures CborKeys(hash, seed, blocks + [block])
         == CborKeys(hash, seed, blocks) + [Hex(hash(CborDigest(hash, seed, blocks), block)) + "_0"]
  {
    assert Init(blocks + [block]) == blocks;
  }

  method HashTokensSha256CBOR(hash: (Digest, seq<int>) -> Digest, seed: Digest, tokens: seq<int>, chunk: int,
                              saveUnfull: bool)
    returns (r: Result<seq<string>>)
    ensures r.Ok? <==> tokens != [] && chunk > 0
    ensures r.Ok? ==> r.value == CborKeys(hash, seed, Keyed(tokens, chunk, saveUnfull))
  {
    if tokens == [] || chunk <= 0 {
      return Err;
    }
    var total := CountKeyed(|tokens|, chunk, saveUnfull);
    var prefixHash := seed;
    var keys: seq<string> := [];
    for i := 0 to total
      invariant i > 0 ==> Start(chunk, i - 1) <= |tokens|
      invariant CborProgress(hash, seed, Blocks(tokens, chunk, i), keys, prefixHash)
    {
      StartGrows(chunk, i, total - 1);
      var block := CutBlock(tokens, chunk, i);
      MoreCborProgress(hash, seed, Blocks(tokens, chunk, i), block, keys, prefixHash);
      prefixHash := hash(prefixHash, block);
      keys := keys + [Hex(prefixHash) + "_0"];
    }
    return Ok(keys);
  }

  /** The full blocks, and one more if an incomplete last block is kept. */
  method CountKeyed(length: nat, chunk: nat, saveUnfull: bool) returns (total: nat)
    requires chunk > 0
    ensures total == KeyedBlocks(length, chunk, saveUnfull) && (total > 0 ==> Start(chunk, total - 1) <= length)
  {
    var full, remainder := Divide(length, chunk);
    total := full + if remainder > 0 && saveUnfull then 1 else 0;
  }

  /** Keys and digest after hashing some blocks. */
  ghost predicate CborProgress(hash: (Digest, seq<int>) -> Digest, seed: Digest, blocks: seq<seq<int>>,
                               keys: seq<string>, prefixHash: Digest) {
    prefixHash == CborDigest(hash, seed, blocks) && keys == CborKeys(hash, seed, blocks)
  }

  lemma MoreCborProgress(hash: (Digest, seq<int>) -> Digest, seed: Digest, blocks: seq<seq<int>>, block: seq<int>,
                         keys: seq<string>, prefixHash: Digest)
    requires CborProgress(hash, seed, blocks, keys, prefixHash)
    ensures CborProgress(hash, seed, blocks + [block], keys + [Hex(hash(prefixHash, block)) + "_0"],
                         hash(prefixHash, block))
  {
    MoreCborKeys(hash, seed, blocks, block);
  }

  /** The tokens of block i, up to the end of the prompt at most. */
  method CutBlock(tokens: seq<int>, chunk: nat, i: nat) returns (block: seq<int>)
    requires Start(chunk, i) <= |tokens|
    ensures Blocks(tokens, chunk, i + 1) == Blocks(tokens, chunk, i) + [block]
  {
    var start := Start(chunk, i);
    var end := if start + chunk > |tokens| then |tokens| else start + chunk;
    BlockUpTo(tokens, chunk, i, end);
    block := tokens[start..end];
  }

  lemma BlockUpTo(tokens: seq<int>, chunk: nat, i: nat, end: nat)
    requires Start(chunk, i) <= |tokens|
    requires end == if Start(chunk, i) + chunk > |tokens| then |tokens| else Start(chunk, i) + chunk
    ensures Blocks(tokens, chunk, i + 1) == Blocks(tokens, chunk, i) + [tokens[Start(chunk, i)..end]]
  {
    assert tokens[Start(chunk, i)..|tokens|] == tokens[Start(chunk, i)..];
  }

  ghost predicate CborCollisionFree(hash: (Digest, seq<int>) -> Digest, seed: Digest, a: seq<seq<int>>,
                                    b: seq<seq<int>>)
    decreases |a|
  {
    a == [] || b == [] ||
    (&& CborCollisionFree(hash, seed, Init(a), Init(b))
     && (CborDigest(hash, seed, a) == CborDigest(hash, seed, b) ==>
           CborDigest(hash, seed, Init(a)) == CborDigest(hash, seed, Init(b)) && Last(a) == Last(b)))
  }

  lemma {:induction false} CborDigestIff(hash: (Digest, seq<int>) -> Digest, seed: Digest, a: seq<seq<int>>,
                                         b: seq<seq<int>>)
    requires |a| == |b| && CborCollisionFree(hash, seed, a, b)
    ensures CborDigest(hash, seed, a) == CborDigest(hash, seed, b) <==> a == b
    decreases |a|
  {
    if a == [] {
    } else {
      CborDigestIff(hash, seed, Init(a), Init(b));
      SameList(a, b);
    }
  }

  lemma SuffixedHexInjective(d: Digest, e: Digest)
    ensures Hex(d) + "_0" == Hex(e) + "_0" <==> d == e
  {
    HexInjective(d, e);
    if Hex(d) + "_0" == Hex(e) + "_0" {
      HexRoundTrip(d);
      HexRoundTrip(e);
      assert Hex(d) == (Hex(d) + "_0")[..|Hex(d)|] == (Hex(e) + "_0")[..|Hex(e)|] == Hex(e);
    }
  }

  /** The keys of two block lists of the same length are equal iff the blocks are, incomplete last block included. */
  lemma {:induction false} CborKeysIff(hash: (Digest, seq<int>) -> Digest, seed: Digest, a: seq<seq<int>>,
                                       b: seq<seq<int>>)
    requires |a| == |b| && CborCollisionFree(hash, seed, a, b)
    ensures |CborKeys(hash, seed, a)| == |CborKeys(hash, seed, b)| == |a|
    ensures CborKeys(hash, seed, a) == CborKeys(hash, seed, b) <==> a == b
    decreases |a|
  {
    if a == [] {
    } else {
      CborKeysIff(hash, seed, Init(a), Init(b));
      CborDigestIff(hash, seed, a, b);
      var x, y := CborDigest(hash, seed, a), CborDigest(hash, seed, b);
      SuffixedHexInjective(x, y);
      SameAppended(CborKeys(hash, seed, Init(a)), Hex(x) + "_0", CborKeys(hash, seed, Init(b)), Hex(y) + "_0");
      SameList(a, b);
    }
  }

  // ---------------------------------------------------------------- running xxhash

  const INT64_LOW: int := -0x8000_0000_0000_0000

  predicate Int64s(tokens: seq<int>) {
    forall i :: 0 <= i < |tokens| ==> INT64_LOW <= tokens[i] < -INT64_LOW
  }

  function Zeros(n: nat): seq<int> {
    if n == 0 then [] else [0] + Zeros(n - 1)
  }

  /** The block filled up with zeros. */
  function Pad(block: seq<int>, chunk: nat): (p: seq<int>)
    ensures |block| >= chunk ==> p == block
  {
    if |block| < chunk then block + Zeros(chunk - |block|) else block
  }

  /** Everything written to the hasher up to the end of a block. */
  function Written(blocks: seq<seq<int>>, chunk: nat): seq<int>
    decreases |blocks|
  {
    if blocks == [] then [] else Written(Init(blocks), chunk) + Pad(Last(blocks), chunk)
  }

  function Decimal(n: nat): string {
    if n < 10 then ["0123456789"[n]] else Decimal(n / 10) + ["0123456789"[n % 10]]
  }

  function XxKeys(xxhash: seq<Byte> -> nat, blocks: seq<seq<int>>, chunk: nat, name: string): seq<string>
    decreases |blocks|
  {
    if blocks == [] then []
    else XxKeys(xxhash, Init(blocks), chunk, name) + [name + Decimal(xxhash(Encode(8, Written(blocks, chunk))))]
  }

  lemma MoreXxKeys(xxhash: seq<Byte> -> nat, blocks: seq<seq<int>>, block: seq<int>, chunk: nat, name: string)
    ensures Written(blocks + [block], chunk) == Written(blocks, chunk) + Pad(block, chunk)
    ensures Encode(8, Written(blocks + [block], chunk))
            == Encode(8, Written(blocks, chunk)) + Encode(8, Pad(block, chunk))
    ensures XxKeys(xxhash, blocks + [block], chunk, name)
         == XxKeys(xxhash, blocks, chunk, name) + [name + Decimal(xxhash(Encode(8, Written(blocks + [block], chunk))))]
  {
    assert Init(blocks + [block]) == blocks;
    EncodeConcat(8, Written(blocks, chunk), Pad(block, chunk));
  }

  /** State and keys of the running hash after some blocks; `written` is every byte it has been given. */
  ghost predicate XxProgress(xxhash: seq<Byte> -> nat, blocks: seq<seq<int>>, chunk: nat, name: string,
                             written: seq<Byte>, keys: seq<string>) {
    written == Encode(8, Written(blocks, chunk)) && keys == XxKeys(xxhash, blocks, chunk, name)
  }

  method WriteBlock(xxhash: seq<Byte> -> nat, ghost blocks: seq<seq<int>>, block: seq<int>, chunk: nat, name: string,
                    written: seq<Byte>, keys: seq<string>) returns (moreWritten: seq<Byte>, moreKeys: seq<string>)
    requires XxProgress(xxhash, blocks, chunk, name, written, keys)
    ensures XxProgress(xxhash, blocks + [block], chunk, name, moreWritten, moreKeys)
  {
    MoreXxKeys(xxhash, blocks, block, chunk, name);
    moreWritten := WritePadded(block, chunk, written);
    moreKeys := keys + [name + Decimal(xxhash(moreWritten))];
  }

  /** Writes a block and, if it is short, the zeros that fill it up. */
  method WritePadded(block: seq<int>, chunk: nat, written: seq<Byte>) returns (moreWritten: seq<Byte>)
    ensures moreWritten == written + Encode(8, Pad(block, chunk))
  {
    moreWritten := written + Encode(8, block);
    if |block| < chunk {
      EncodeConcat(8, block, Zeros(chunk - |block|));
      Associative(written, Encode(8, block), Encode(8, Zeros(chunk - |block|)));
      moreWritten := moreWritten + Encode(8, Zeros(chunk - |block|));
    }
  }

  method WriteFullBlocks(xxhash: seq<Byte> -> nat, tokens: seq<int>, chunk: nat, full: nat, name: string)
    returns (written: seq<Byte>, keys: seq<string>)
    requires Start(chunk, full) <= |tokens|
    ensures XxProgress(xxhash, Blocks(tokens, chunk, full), chunk, name, written, keys)
  {
    written, keys := [], [];
    for i := 0 to full
      invariant Start(chunk, i) <= |tokens|
      invariant XxProgress(xxhash, Blocks(tokens, chunk, i), chunk, name, written, keys)
    {
      FullBlockAt(tokens, chunk, i, full);
      var block := tokens[Start(chunk, i)..Start(chunk, i + 1)];
      written, keys := WriteBlock(xxhash, Blocks(tokens, chunk, i), block, chunk, name, written, keys);
    }
  }

  lemma LastKeyed(tokens: seq<int>, chunk: nat, full: nat)
    requires chunk > 0 && full == FullBlocks(|tokens|, chunk) && Start(chunk, full) < |tokens|
    ensures Keyed(tokens, chunk, true) == Blocks(tokens, chunk, full) + [tokens[Start(chunk, full)..]]
  {
  }

  method HashTokensXxhash(xxhash: seq<Byte> -> nat, tokens: seq<int>, chunk: int, saveUnfull: bool, name: string)
    returns (r: Result<seq<string>>)
    ensures r.Ok? <==> tokens != [] && chunk > 0
    ensures r.Ok? ==> r.value == XxKeys(xxhash, Keyed(tokens, chunk, saveUnfull), chunk, name)
  {
    if tokens == [] || chunk <= 0 {
      return Err;
    }
    var full, remainder := Divide(|tokens|, chunk);
    var written, keys := WriteFullBlocks(xxhash, tokens, chunk, full, name);
    if saveUnfull && remainder > 0 {
      var rest := tokens[Start(chunk, full)..];
      LastKeyed(tokens, chunk, full);
      written, keys := WriteBlock(xxhash, Blocks(tokens, chunk, full), rest, chunk, name, written, keys);
    }
    return Ok(keys);
  }

  // ---------------------------------------------------------------- what equal xxhash keys mean

  /** Numbers with equal decimal forms are equal. */
  lemma {:induction false} DecimalInjective(m: nat, n: nat)
    ensures Decimal(m) == Decimal(n) ==> m == n
    decreases m
  {
    DecimalDigits(m);
    DecimalDigits(n);
    if Decimal(m) == Decimal(n) {
      var x, y := Decimal(m), Decimal(n);
      SameDigit(m % 10, n % 10);
      assert x[|x| - 1] == y[|y| - 1];
      if m >= 10 && n >= 10 {
        assert Decimal(m / 10) == x[..|x| - 1] == y[..|y| - 1] == Decimal(n / 10);
        DecimalInjective(m / 10, n / 10);
      }
    }
  }

  lemma SameDigit(a: nat, b: nat)
    requires a < 10 && b < 10
    ensures "0123456789"[a] == "0123456789"[b] ==> a == b
  {
  }

  lemma {:induction false} DecimalDigits(n: nat)
    ensures |Decimal(n)| >= 1 && (|Decimal(n)| == 1 <==> n < 10)
    ensures Decimal(n)[|Decimal(n)| - 1] == "0123456789"[n % 10]
    decreases n
  {
    if n >= 10 {
      DecimalDigits(n / 10);
    }
  }

  lemma KeyNameInjective(name: string, m: nat, n: nat)
    ensures name + Decimal(m) == name + Decimal(n) <==> m == n
  {
    if name + Decimal(m) == name + Decimal(n) {
      assert Decimal(m) == (name + Decimal(m))[|name|..] == (name + Decimal(n))[|name|..] == Decimal(n);
      DecimalInjective(m, n);
    }
  }

  /** The key of the last of several blocks. */
  function XxKey(xxhash: seq<Byte> -> nat, blocks: seq<seq<int>>, chunk: nat, name: string): string {
    name + Decimal(xxhash(Encode(8, Written(blocks, chunk))))
  }

  ghost predicate XxCollisionFree(xxhash: seq<Byte> -> nat, a: seq<seq<int>>, b: seq<seq<int>>, chunk: nat) {
    var x, y := Encode(8, Written(a, chunk)), Encode(8, Written(b, chunk));
    xxhash(x) == xxhash(y) ==> x == y
  }

  lemma Int64Injective(a: seq<int>, b: seq<int>)
    requires Int64s(a) && Int64s(b) && |a| == |b|
    ensures Encode(8, a) == Encode(8, b) <==> a == b
  {
    assert Pow256(8) == -2 * INT64_LOW by {
      assert Pow256(1) == 256 && Pow256(2) == 65536 && Pow256(4) == 256 * (256 * Pow256(2));
      assert Pow256(6) == 65536 * Pow256(4) && Pow256(8) == 65536 * Pow256(6);
    }
    EncodeInjective(8, INT64_LOW, a, b);
  }

  /** Two keys of the same rank are equal iff everything written up to there, padding included, is equal. */
  lemma XxKeyIff(xxhash: seq<Byte> -> nat, a: seq<seq<int>>, b: seq<seq<int>>, chunk: nat, name: string)
    requires |Written(a, chunk)| == |Written(b, chunk)| && Int64s(Written(a, chunk)) && Int64s(Written(b, chunk))
    requires XxCollisionFree(xxhash, a, b, chunk)
    ensures XxKey(xxhash, a, chunk, name) == XxKey(xxhash, b, chunk, name) <==> Written(a, chunk) == Written(b, chunk)
  {
    Int64Injective(Written(a, chunk), Written(b, chunk));
    KeyNameInjective(name, xxhash(Encode(8, Written(a, chunk))), xxhash(Encode(8, Written(b, chunk))));
  }

  lemma WrittenOneMore(blocks: seq<seq<int>>, block: seq<int>, chunk: nat)
    requires |block| == chunk
    ensures Written(blocks + [block], chunk) == Written(blocks, chunk) + block
  {
    assert Init(blocks + [block]) == blocks && Last(blocks + [block]) == block;
  }

  lemma WrittenUpTo(tokens: seq<int>, blocks: seq<seq<int>>, chunk: nat, start: nat)
    requires start + chunk <= |tokens| && Written(blocks, chunk) == tokens[..start]
    ensures Written(blocks + [tokens[start..start + chunk]], chunk) == tokens[..start + chunk]
  {
    WrittenOneMore(blocks, tokens[start..start + chunk], chunk);
    assert tokens[..start + chunk] == tokens[..start] + tokens[start..start + chunk];
  }

  lemma LastFullBlock(tokens: seq<int>, chunk: nat, n: nat) returns (front: seq<seq<int>>, start: nat)
    requires n > 0 && Start(chunk, n) <= |tokens| && (n > 1 ==> Start(chunk, n - 2) <= |tokens|)
    ensures start == Start(chunk, n - 1) && Start(chunk, n) == start + chunk
    ensures front == Blocks(tokens, chunk, n - 1)
    ensures Blocks(tokens, chunk, n) == front + [tokens[start..start + chunk]]
  {
    front, start := Blocks(tokens, chunk, n - 1), Start(chunk, n - 1);
  }

  /** What was written for full blocks is the front of the prompt. */
  lemma {:induction false} WrittenIsFront(tokens: seq<int>, chunk: nat, n: nat)
    requires Start(chunk, n) <= |tokens|
    ensures Written(Blocks(tokens, chunk, n), chunk) == tokens[..Start(chunk, n)]
    decreases n
  {
    if n == 0 {
      assert Blocks(tokens, chunk, n) == [] && tokens[..Start(chunk, n)] == [];
    } else {
      WrittenIsFront(tokens, chunk, n - 1);
      var front, start := LastFullBlock(tokens, chunk, n);
      WrittenUpTo(tokens, front, chunk, start);
    }
  }

  /** The key of full block k alone identifies the first k+1 blocks of the prompt. */
  lemma FullXxKeyIff(xxhash: seq<Byte> -> nat, a: seq<int>, b: seq<int>, chunk: nat, n: nat, name: string)
    requires Start(chunk, n) <= |a| && Start(chunk, n) <= |b| && Int64s(a) && Int64s(b)
    requires XxCollisionFree(xxhash, Blocks(a, chunk, n), Blocks(b, chunk, n), chunk)
    ensures XxKey(xxhash, Blocks(a, chunk, n), chunk, name) == XxKey(xxhash, Blocks(b, chunk, n), chunk, name)
       <==> a[..Start(chunk, n)] == b[..Start(chunk, n)]
  {
    WrittenIsFront(a, chunk, n);
    WrittenIsFront(b, chunk, n);
    XxKeyIff(xxhash, Blocks(a, chunk, n), Blocks(b, chunk, n), chunk, name);
  }

  /** An incomplete block and the same block with a zero appended get the same key, whatever the hash function. */
  lemma PaddingCollides(xxhash: seq<Byte> -> nat, blocks: seq<seq<int>>, block: seq<int>, chunk: nat, name: string)
    requires |block| < chunk
    ensures block != block + [0]
    ensures XxKeys(xxhash, blocks + [block], chunk, name) == XxKeys(xxhash, blocks + [block + [0]], chunk, name)
  {
    assert |block| != |block + [0]|;
    assert Pad(block, chunk) == Pad(block + [0], chunk) by {
      assert Zeros(chunk - |block|) == [0] + Zeros(chunk - |block| - 1);
      assert block + ([0] + Zeros(chunk - |block| - 1)) == (block + [0]) + Zeros(chunk - |block| - 1);
    }
    MoreXxKeys(xxhash, blocks, block, chunk, name);
    MoreXxKeys(xxhash, blocks, block + [0], chunk, name);
  }

  lemma {:induction false} ZerosAt(n: nat)
    ensures |Zeros(n)| == n && forall i :: 0 <= i < n ==> Zeros(n)[i] == 0
    decreases n
  {
    if n == 0 {
    } else {
      ZerosAt(n - 1);
    }
  }

  /** Blocks are padded to the same thing iff the longer is the shorter followed by zeros. */
  lemma SamePaddingIff(x: seq<int>, y: seq<int>, chunk: nat)
    requires |x| <= |y| <= chunk
    ensures Pad(x, chunk) == Pad(y, chunk) <==> x == y[..|x|] && forall i :: |x| <= i < |y| ==> y[i] == 0
  {
    ZerosAt(chunk - |x|);
    ZerosAt(chunk - |y|);
    var p, q := Pad(x, chunk), Pad(y, chunk);
    assert forall i :: 0 <= i < chunk ==> p[i] == if i < |x| then x[i] else 0;
    assert forall i :: 0 <= i < chunk ==> q[i] == if i < |y| then y[i] else 0;
    if p == q {
      assert forall i :: 0 <= i < |x| ==> x[i] == p[i] && y[i] == q[i];
      assert forall i :: |x| <= i < |y| ==> p[i] == 0 && y[i] == q[i];
    } else {
      assert |p| == |q| == chunk;
    }
  }

  /** The prompt has `n` full blocks and a rest of at least one token and at most a block. */
  predicate HasRest(tokens: seq<int>, chunk: nat, n: nat) {
    Start(chunk, n) < |tokens| <= Start(chunk, n) + chunk
  }

  /** The blocks of such a prompt, the rest included. */
  function WithRest(tokens: seq<int>, chunk: nat, n: nat): seq<seq<int>>
    requires HasRest(tokens, chunk, n)
  {
    Blocks(tokens, chunk, n + 1)
  }

  lemma RestIsLast(tokens: seq<int>, chunk: nat, n: nat) returns (front: seq<seq<int>>, rest: seq<int>)
    requires HasRest(tokens, chunk, n)
    ensures front == Blocks(tokens, chunk, n) && rest == tokens[Start(chunk, n)..]
    ensures WithRest(tokens, chunk, n) == front + [rest]
  {
    front, rest := Blocks(tokens, chunk, n), Block(tokens, chunk, n);
  }

  /** What is written for such a prompt is its full blocks, then the rest with its padding. */
  lemma WrittenIsPadded(tokens: seq<int>, chunk: nat, n: nat) returns (rest: seq<int>)
    requires HasRest(tokens, chunk, n)
    ensures rest == tokens[Start(chunk, n)..]
    ensures Written(WithRest(tokens, chunk, n), chunk) == tokens[..Start(chunk, n)] + Pad(rest, chunk)
  {
    WrittenIsFront(tokens, chunk, n);
    var front;
    front, rest := RestIsLast(tokens, chunk, n);
    assert Init(front + [rest]) == front && Last(front + [rest]) == rest;
  }

  lemma PaddedInt64s(tokens: seq<int>, start: nat, chunk: nat)
    requires start <= |tokens| <= start + chunk && Int64s(tokens)
    ensures var written := tokens[..start] + Pad(tokens[start..], chunk);
            Int64s(written) && |written| == start + chunk
  {
    ZerosAt(start + chunk - |tokens|);
  }

  lemma FrontAndRest(a: seq<int>, b: seq<int>, start: nat)
    requires start <= |a| <= |b|
    ensures a == b[..|a|] <==> a[..start] == b[..start] && a[start..] == b[start..][..|a| - start]
  {
    assert a == a[..start] + a[start..];
    assert b[..|a|] == b[..start] + b[start..][..|a| - start];
    assert b[..|a|][..start] == b[..start];
  }

  /** The longer list is the shorter followed by zeros. */
  predicate LongerByZeros(a: seq<int>, b: seq<int>)
    requires |a| <= |b|
  {
    a == b[..|a|] && forall i :: |a| <= i < |b| ==> b[i] == 0
  }

  lemma ZeroTail(b: seq<int>, start: nat, from: nat)
    requires start <= from <= |b|
    ensures (forall i :: from <= i < |b| ==> b[i] == 0)
       <==> forall i :: from - start <= i < |b[start..]| ==> b[start..][i] == 0
  {
    if forall i :: from - start <= i < |b[start..]| ==> b[start..][i] == 0 {
      forall i | from <= i < |b|
        ensures b[i] == 0
      {
        assert b[i] == b[start..][i - start];
      }
    }
  }

  lemma SamePaddedIff(a: seq<int>, b: seq<int>, start: nat, chunk: nat)
    requires start <= |a| <= |b| <= start + chunk
    ensures a[..start] + Pad(a[start..], chunk) == b[..start] + Pad(b[start..], chunk) <==> LongerByZeros(a, b)
  {
    SameConcat(a[..start], Pad(a[start..], chunk), b[..start], Pad(b[start..], chunk));
    SamePaddingIff(a[start..], b[start..], chunk);
    FrontAndRest(a, b, start);
    ZeroTail(b, start, |a|);
  }

  /**
   The last key of a prompt, whose last block may be incomplete: two prompts with the same number of blocks get the
   same key iff the longer is the shorter followed by zeros.
   */
  lemma LastXxKeyIff(xxhash: seq<Byte> -> nat, a: seq<int>, b: seq<int>, chunk: nat, n: nat, name: string)
    requires HasRest(a, chunk, n) && HasRest(b, chunk, n) && |a| <= |b| && Int64s(a) && Int64s(b)
    requires XxCollisionFree(xxhash, WithRest(a, chunk, n), WithRest(b, chunk, n), chunk)
    ensures XxKey(xxhash, WithRest(a, chunk, n), chunk, name) == XxKey(xxhash, WithRest(b, chunk, n), chunk, name)
       <==> LongerByZeros(a, b)
  {
    var start := Start(chunk, n);
    var x := WrittenIsPadded(a, chunk, n);
    var y := WrittenIsPadded(b, chunk, n);
    PaddedInt64s(a, start, chunk);
    PaddedInt64s(b, start, chunk);
    XxKeyIff(xxhash, WithRest(a, chunk, n), WithRest(b, chunk, n), chunk, name);
    SamePaddedIff(a, b, start, chunk);
  }
}
