/**
 The three ways of computing block keys, stated on the list of blocks of a prompt, and what two prompts
 with equal keys have in common.
 */
module PrefixKeys {
  import opened Wrappers
  import opened TokenHasher

  const UINT32: nat := 0x1_0000_0000

  function Init<T>(s: seq<T>): seq<T>
    requires s != []
  {
    s[..|s| - 1]
  }

  function Last<T>(s: seq<T>): T
    requires s != []
  {
    s[|s| - 1]
  }

  /** How many blocks get a key. */
  function KeyedBlocks(length: nat, chunk: nat, saveUnfull: bool): (n: nat)
    requires chunk > 0
    ensures n > 0 ==> Start(chunk, n - 1) <= length
  {
    var full := FullBlocks(length, chunk);
    if saveUnfull && Start(chunk, full) < length then full + 1 else full
  }

  /** The blocks that get a key. */
  function Keyed(tokens: seq<int>, chunk: nat, saveUnfull: bool): seq<seq<int>>
    requires chunk > 0
  {
    Blocks(tokens, chunk, KeyedBlocks(|tokens|, chunk, saveUnfull))
  }

  // ---------------------------------------------------------------- chained SHA-256 over little-endian tokens

  predicate InRange(tokens: seq<int>) {
    forall i :: 0 <= i < |tokens| ==> 0 <= tokens[i] < UINT32
  }

  predicate AllInRange(blocks: seq<seq<int>>) {
    blocks == [] || (AllInRange(Init(blocks)) && InRange(Last(blocks)))
  }

  ghost predicate Sized(sha: seq<Byte> -> Digest) {
    forall input :: |sha(input)| == 32
  }

  /** What is hashed for the last block: the digest of the blocks before it, if any, then the block. */
  function ShaInput(sha: seq<Byte> -> Digest, blocks: seq<seq<int>>): seq<Byte>
    requires blocks != []
    decreases |blocks|, 0
  {
    (if |blocks| == 1 then [] else ShaDigest(sha, Init(blocks))) + Encode(4, Last(blocks))
  }

  function ShaDigest(sha: seq<Byte> -> Digest, blocks: seq<seq<int>>): Digest
    requires blocks != []
    decreases |blocks|, 1
  {
    sha(ShaInput(sha, blocks))
  }

  /** One key per block; a block shorter than the block size carries a rank suffix. */
  function ShaKeys(sha: seq<Byte> -> Digest, blocks: seq<seq<int>>, chunk: nat): seq<string>
    decreases |blocks|
  {
    if blocks == [] then []
    else
      var hex := Hex(ShaDigest(sha, blocks));
      ShaKeys(sha, Init(blocks), chunk) + [if |Last(blocks)| == chunk then hex else hex + "_0"]
  }

  method WriteTokens(tokens: seq<int>) returns (bytes: Result<seq<Byte>>)
    ensures bytes.Ok? <==> InRange(tokens)
    ensures bytes.Ok? ==> bytes.value == Encode(4, tokens)
  {
    var written: seq<Byte> := [];
    for i := 0 to |tokens|
      invariant InRange(tokens[..i]) && written == Encode(4, tokens[..i])
    {
      if tokens[i] < 0 || tokens[i] >= UINT32 {
        return Err;
      }
      OneMoreToken(tokens, i);
      written := written + LittleEndian(4, tokens[i]);
    }
    assert tokens[..|tokens|] == tokens;
    return Ok(written);
  }

  lemma OneMoreToken(tokens: seq<int>, i: nat)
    requires i < |tokens|
    ensures Encode(4, tokens[..i + 1]) == Encode(4, tokens[..i]) + LittleEndian(4, tokens[i])
    ensures InRange(tokens[..i + 1]) <==> InRange(tokens[..i]) && 0 <= tokens[i] < UINT32
  {
    var front := tokens[..i];
    assert tokens[..i + 1] == front + [tokens[i]];
    EncodeAppend(4, front, tokens[i]);
    if InRange(front + [tokens[i]]) {
      assert (front + [tokens[i]])[i] == tokens[i];
      assert forall j :: 0 <= j < i ==> front[j] == (front + [tokens[i]])[j];
    }
  }

  /** The bytes a prior key stands for: none for the empty key, else it must be a 32-byte digest in hexadecimal. */
  function PriorBytes(priorHex: string): Result<Digest> {
    if priorHex == "" then Ok([])
    else
      var prior := Unhex(priorHex);
      if prior.Ok? && |prior.value| == 32 then prior else Err
  }

  method HashBlockSha256Hex(sha: seq<Byte> -> Digest, tokens: seq<int>, priorHex: string) returns (r: Result<string>)
    ensures r.Ok? <==> InRange(tokens) && PriorBytes(priorHex).Ok?
    ensures r.Ok? ==> r.value == Hex(sha(PriorBytes(priorHex).value + Encode(4, tokens)))
  {
    var input: seq<Byte> := [];
    if priorHex != "" {
      var prior := Unhex(priorHex);
      if prior.Err? || |prior.value| != 32 {
        return Err;
      }
      input := prior.value;
    }
    var bytes := WriteTokens(tokens);
    if bytes.Err? {
      return Err;
    }
    return Ok(Hex(sha(input + bytes.value)));
  }

  /** The hexadecimal digest of the blocks hashed so far; empty before the first. */
  function ShaPrefix(sha: seq<Byte> -> Digest, blocks: seq<seq<int>>): string {
    if blocks == [] then "" else Hex(ShaDigest(sha, blocks))
  }

  lemma PrefixBytes(sha: seq<Byte> -> Digest, blocks: seq<seq<int>>, block: seq<int>)
    requires Sized(sha)
    ensures PriorBytes(ShaPrefix(sha, blocks)).Ok?
    ensures ShaInput(sha, blocks + [block]) == PriorBytes(ShaPrefix(sha, blocks)).value + Encode(4, block)
  {
    assert Init(blocks + [block]) == blocks;
    if blocks != [] {
      HexRoundTrip(ShaDigest(sha, blocks));
    }
  }

  /** One more block: fails iff one of its tokens is out of range. */
  method HashNextBlock(sha: seq<Byte> -> Digest, ghost blocks: seq<seq<int>>, block: seq<int>, prefixHash: string)
    returns (h: Result<string>)
    requires Sized(sha) && prefixHash == ShaPrefix(sha, blocks)
    ensures h.Ok? <==> InRange(block)
    ensures h.Ok? ==> h.value == ShaPrefix(sha, blocks + [block])
  {
    PrefixBytes(sha, blocks, block);
    h := HashBlockSha256Hex(sha, block, prefixHash);
  }

  lemma MoreShaKeys(sha: seq<Byte> -> Digest, blocks: seq<seq<int>>, block: seq<int>, chunk: nat)
    ensures var hex := Hex(ShaDigest(sha, blocks + [block]));
            ShaKeys(sha, blocks + [block], chunk)
                    == ShaKeys(sha, blocks, chunk) + [if |block| == chunk then hex else hex + "_0"]
  {
    assert Init(blocks + [block]) == blocks;
  }

  method HashFullBlocks(sha: seq<Byte> -> Digest, tokens: seq<int>, chunk: nat, full: nat)
    returns (r: Result<seq<string>>, prefixHash: string)
    requires Sized(sha) && chunk > 0 && full == FullBlocks(|tokens|, chunk)
    ensures r.Ok? <==> AllInRange(Blocks(tokens, chunk, full))
    ensures r.Ok? ==> r.value == ShaKeys(sha, Blocks(tokens, chunk, full), chunk)
    ensures r.Ok? ==> prefixHash == ShaPrefix(sha, Blocks(tokens, chunk, full))
  {
    var keys: seq<string> := [];
    prefixHash := "";
    for i := 0 to full
      invariant Start(chunk, i) <= |tokens|
      invariant ShaProgress(sha, Blocks(tokens, chunk, i), chunk, keys, prefixHash)
    {
      FullBlockAt(tokens, chunk, i, full);
      var block := tokens[Start(chunk, i)..Start(chunk, i + 1)];
      var next := HashFullBlock(sha, Blocks(tokens, chunk, i), block, chunk, keys, prefixHash);
      if next.Err? {
        BadBlock(tokens, chunk, i, full);
        return Err, prefixHash;
      }
      keys, prefixHash := keys + [next.value], next.value;
    }
    r := Ok(keys);
  }

  /** One more full block; it fails iff a token of the block is out of range. */
  method HashFullBlock(sha: seq<Byte> -> Digest, ghost blocks: seq<seq<int>>, block: seq<int>, chunk: nat,
                       ghost keys: seq<string>, prefixHash: string) returns (next: Result<string>)
    requires Sized(sha) && |block| == chunk && ShaProgress(sha, blocks, chunk, keys, prefixHash)
    ensures next.Ok? <==> InRange(block)
    ensures next.Ok? ==> ShaProgress(sha, blocks + [block], chunk, keys + [next.value], next.value)
  {
    next := HashNextBlock(sha, blocks, block, prefixHash);
    if next.Ok? {
      MoreProgress(sha, blocks, block, chunk, keys, next.value);
    }
  }

  /** Keys and prefix after hashing some full blocks. */
  ghost predicate ShaProgress(sha: seq<Byte> -> Digest, blocks: seq<seq<int>>, chunk: nat, keys: seq<string>,
                              prefixHash: string) {
    AllInRange(blocks) && keys == ShaKeys(sha, blocks, chunk) && prefixHash == ShaPrefix(sha, blocks)
  }

  lemma MoreProgress(sha: seq<Byte> -> Digest, blocks: seq<seq<int>>, block: seq<int>, chunk: nat, keys: seq<string>,
                     hex: string)
    requires AllInRange(blocks) && keys == ShaKeys(sha, blocks, chunk)
    requires InRange(block) && |block| == chunk && hex == ShaPrefix(sha, blocks + [block])
    ensures ShaProgress(sha, blocks + [block], chunk, keys + [hex], hex)
  {
    MoreShaKeys(sha, blocks, block, chunk);
    MoreInRange(blocks, block);
  }

  lemma FullBlockAt(tokens: seq<int>, chunk: nat, i: nat, full: nat)
    requires i < full && Start(chunk, full) <= |tokens|
    ensures Start(chunk, i) <= Start(chunk, i) + chunk == Start(chunk, i + 1) <= |tokens|
    ensures Block(tokens, chunk, i) == tokens[Start(chunk, i)..Start(chunk, i + 1)]
    ensures Blocks(tokens, chunk, i + 1) == Blocks(tokens, chunk, i) + [Block(tokens, chunk, i)]
  {
    StartGrows(chunk, i, full);
  }

  lemma {:induction false} BadBlock(tokens: seq<int>, chunk: nat, i: nat, n: nat)
    requires i < n && Start(chunk, n) <= |tokens| && Start(chunk, i) <= |tokens| && !InRange(Block(tokens, chunk, i))
    ensures !AllInRange(Blocks(tokens, chunk, n))
    decreases n
  {
    MoreInRange(Blocks(tokens, chunk, n - 1), Block(tokens, chunk, n - 1));
    if i < n - 1 {
      BadBlock(tokens, chunk, i, n - 1);
    }
  }

  method HashTokensSha256Hex(sha: seq<Byte> -> Digest, tokens: seq<int>, chunk: int, saveUnfull: bool)
    returns (r: Result<seq<string>>)
    requires Sized(sha)
    ensures r.Ok? <==> tokens != [] && chunk > 0 && AllInRange(Keyed(tokens, chunk, saveUnfull))
    ensures r.Ok? ==> r.value == ShaKeys(sha, Keyed(tokens, chunk, saveUnfull), chunk)
  {
    if tokens == [] || chunk <= 0 {
      return Err;
    }
    var full, remainder := Divide(|tokens|, chunk);
    ghost var done := Blocks(tokens, chunk, full);
    var prefixHash;
    r, prefixHash := HashFullBlocks(sha, tokens, chunk, full);
    if saveUnfull && remainder > 0 {
      var rest := tokens[Start(chunk, full)..];
      assert Keyed(tokens, chunk, saveUnfull) == done + [rest];
      MoreInRange(done, rest);
      if r.Err? {
        return;
      }
      var h := HashNextBlock(sha, done, rest, prefixHash);
      if h.Err? {
        return Err;
      }
      MoreShaKeys(sha, done, rest, chunk);
      r := Ok(r.value + [h.value + "_0"]);
    }
  }

  lemma MoreInRange(blocks: seq<seq<int>>, block: seq<int>)
    ensures AllInRange(blocks + [block]) <==> AllInRange(blocks) && InRange(block)
  {
    assert Init(blocks + [block]) == blocks;
  }

  // ---------------------------------------------------------------- what equal SHA-256 keys mean

  /** The inputs hashed for the same block of both lists do not collide. */
  ghost predicate ShaCollisionFree(sha: seq<Byte> -> Digest, a: seq<seq<int>>, b: seq<seq<int>>)
    decreases |a|
  {
    a == [] || b == [] ||
    (&& ShaCollisionFree(sha, Init(a), Init(b))
     && (ShaDigest(sha, a) == ShaDigest(sha, b) ==> ShaInput(sha, a) == ShaInput(sha, b)))
  }

  predicate AllFull(blocks: seq<seq<int>>, chunk: nat) {
    blocks == [] || (AllFull(Init(blocks), chunk) && |Last(blocks)| == chunk)
  }

  lemma TokenBytesInjective(a: seq<int>, b: seq<int>)
    requires InRange(a) && InRange(b) && |a| == |b|
    ensures Encode(4, a) == Encode(4, b) <==> a == b
  {
    assert Pow256(4) == UINT32 by {
      assert Pow256(1) == 256 && Pow256(2) == 65536 && Pow256(3) == 16777216;
    }
    EncodeInjective(4, 0, a, b);
  }

  lemma SameList<T>(a: seq<T>, b: seq<T>)
    requires a != [] && b != [] && |a| == |b|
    ensures a == b <==> Init(a) == Init(b) && Last(a) == Last(b)
  {
    assert a == Init(a) + [Last(a)] && b == Init(b) + [Last(b)];
  }

  /** The digest of the last of several full blocks identifies all of them. */
  lemma {:induction false} ShaDigestIff(sha: seq<Byte> -> Digest, a: seq<seq<int>>, b: seq<seq<int>>, chunk: nat)
    requires Sized(sha) && a != [] && |a| == |b| && AllFull(a, chunk) && AllFull(b, chunk)
    requires AllInRange(a) && AllInRange(b) && ShaCollisionFree(sha, a, b)
    ensures ShaDigest(sha, a) == ShaDigest(sha, b) <==> a == b
    decreases |a|
  {
    SameList(a, b);
    TokenBytesInjective(Last(a), Last(b));
    if |a| > 1 {
      ShaDigestIff(sha, Init(a), Init(b), chunk);
      SameConcat(ShaDigest(sha, Init(a)), Encode(4, Last(a)), ShaDigest(sha, Init(b)), Encode(4, Last(b)));
    } else {
      assert Init(a) == Init(b) == [];
      SameConcat([], Encode(4, Last(a)), [], Encode(4, Last(b)));
    }
  }

  lemma HexInjective(d: Digest, e: Digest)
    ensures Hex(d) == Hex(e) <==> d == e
  {
    HexRoundTrip(d);
    HexRoundTrip(e);
  }

  /** Keys of full blocks are equal iff the blocks are. */
  lemma {:induction false} ShaKeysIff(sha: seq<Byte> -> Digest, a: seq<seq<int>>, b: seq<seq<int>>, chunk: nat)
    requires Sized(sha) && |a| == |b| && AllFull(a, chunk) && AllFull(b, chunk)
    requires AllInRange(a) && AllInRange(b) && ShaCollisionFree(sha, a, b)
    ensures |ShaKeys(sha, a, chunk)| == |ShaKeys(sha, b, chunk)| == |a|
    ensures ShaKeys(sha, a, chunk) == ShaKeys(sha, b, chunk) <==> a == b
    decreases |a|
  {
    if a == [] {
    } else {
      ShaKeysIff(sha, Init(a), Init(b), chunk);
      ShaDigestIff(sha, a, b, chunk);
      HexInjective(ShaDigest(sha, a), ShaDigest(sha, b));
      SameAppended(ShaKeys(sha, Init(a), chunk), Hex(ShaDigest(sha, a)), ShaKeys(sha, Init(b), chunk),
                   Hex(ShaDigest(sha, b)));
      SameList(a, b);
    }
  }

  lemma {:induction false} BlocksFullInRange(tokens: seq<int>, chunk: nat, n: nat)
    requires Start(chunk, n) <= |tokens| && InRange(tokens)
    ensures AllFull(Blocks(tokens, chunk, n), chunk) && AllInRange(Blocks(tokens, chunk, n))
    ensures |Blocks(tokens, chunk, n)| == n
    decreases n
  {
    if n == 0 {
    } else {
      BlocksFullInRange(tokens, chunk, n - 1);
      assert Init(Blocks(tokens, chunk, n)) == Blocks(tokens, chunk, n - 1);
      assert InRange(Block(tokens, chunk, n - 1));
    }
  }

  /** Two prompts share their first k full-block keys iff they share the tokens of their first k blocks. */
  lemma SharedShaKeysIff(sha: seq<Byte> -> Digest, a: seq<int>, b: seq<int>, chunk: nat, k: nat)
    requires Sized(sha) && InRange(a) && InRange(b) && Start(chunk, k) <= |a| && Start(chunk, k) <= |b|
    requires ShaCollisionFree(sha, Blocks(a, chunk, k), Blocks(b, chunk, k))
    ensures ShaKeys(sha, Blocks(a, chunk, k), chunk) == ShaKeys(sha, Blocks(b, chunk, k), chunk)
       <==> a[..Start(chunk, k)] == b[..Start(chunk, k)]
  {
    BlocksFullInRange(a, chunk, k);
    BlocksFullInRange(b, chunk, k);
    ShaKeysIff(sha, Blocks(a, chunk, k), Blocks(b, chunk, k), chunk);
    SameBlocksIff(a, b, chunk, k);
  }

  /** The keys of the first k blocks are the first k keys. */
  lemma {:induction false} FirstShaKeys(sha: seq<Byte> -> Digest, tokens: seq<int>, chunk: nat, k: nat, n: nat)
    requires k <= n && (n > 0 ==> Start(chunk, n - 1) <= |tokens|) && (k > 0 ==> Start(chunk, k - 1) <= |tokens|)
    ensures |ShaKeys(sha, Blocks(tokens, chunk, n), chunk)| == n
    ensures ShaKeys(sha, Blocks(tokens, chunk, n), chunk)[..k] == ShaKeys(sha, Blocks(tokens, chunk, k), chunk)
    decreases n
  {
    if n == 0 {
    } else {
      assert Init(Blocks(tokens, chunk, n)) == Blocks(tokens, chunk, n - 1);
      if k < n {
        FirstShaKeys(sha, tokens, chunk, k, n - 1);
      } else {
        FirstShaKeys(sha, tokens, chunk, n - 1, n - 1);
      }
    }
  }
}
