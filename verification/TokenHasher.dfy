/**
 Block keys of a prompt. Hash functions are parameters; where a result depends on them, it assumes only
 that the inputs actually hashed for the two prompts at hand do not collide.
 */
module TokenHasher {
  import opened Arithmetic
  import opened Wrappers

  type Byte = b: int | 0 <= b < 256

  type Digest = seq<Byte>

  // ---------------------------------------------------------------- byte encodings

  function Pow256(n: nat): (p: nat)
    ensures p > 0
  {
    if n == 0 then 1 else 256 * Pow256(n - 1)
  }

  /** The n low bytes of a number, least significant first; a negative number in two's complement. */
  function LittleEndian(n: nat, v: int): (bytes: seq<Byte>)
    ensures |bytes| == n
  {
    if n == 0 then [] else [v % 256] + LittleEndian(n - 1, v / 256)
  }

  /** Numbers with the same low bytes differ by a multiple of what those bytes can hold. */
  lemma {:induction false} SameLowBytes(n: nat, v: int, w: int) returns (d: int)
    requires LittleEndian(n, v) == LittleEndian(n, w)
    ensures v - w == d * Pow256(n)
    decreases n
  {
    if n == 0 {
      d := v - w;
    } else {
      SameConcat([v % 256], LittleEndian(n - 1, v / 256), [w % 256], LittleEndian(n - 1, w / 256));
      d := SameLowBytes(n - 1, v / 256, w / 256);
      assert [v % 256][0] == [w % 256][0];
      Scale(v, w, d, Pow256(n - 1));
    }
  }

  lemma Scale(v: int, w: int, d: int, p: nat)
    requires v % 256 == w % 256 && v / 256 - w / 256 == d * p
    ensures v - w == d * (256 * p)
  {
  }

  /** One number after the other, n bytes each. */
  function Encode(n: nat, values: seq<int>): seq<Byte> {
    if values == [] then [] else LittleEndian(n, values[0]) + Encode(n, values[1..])
  }

  /** All values lie in one window that n bytes can tell apart. */
  predicate Fit(n: nat, low: int, values: seq<int>) {
    forall i :: 0 <= i < |values| ==> low <= values[i] < low + Pow256(n)
  }

  /** Two concatenations whose first parts are equally long are equal iff their parts are. */
  lemma SameConcat<T>(p: seq<T>, x: seq<T>, q: seq<T>, y: seq<T>)
    requires |p| == |q|
    ensures p + x == q + y <==> p == q && x == y
  {
    if p + x == q + y {
      assert p == (p + x)[..|p|] == (q + y)[..|q|] == q;
      assert x == (p + x)[|p|..] == (q + y)[|q|..] == y;
    }
  }

  lemma Associative<T>(a: seq<T>, b: seq<T>, c: seq<T>)
    ensures a + b + c == a + (b + c)
  {
  }

  lemma WindowInjective(n: nat, low: int, v: int, w: int)
    requires low <= v < low + Pow256(n) && low <= w < low + Pow256(n)
    ensures LittleEndian(n, v) == LittleEndian(n, w) ==> v == w
  {
    if LittleEndian(n, v) == LittleEndian(n, w) {
      var d := SameLowBytes(n, v, w);
      SmallMultiple(d, Pow256(n), v - w);
    }
  }

  lemma {:induction false} EncodeInjective(n: nat, low: int, a: seq<int>, b: seq<int>)
    requires Fit(n, low, a) && Fit(n, low, b) && |a| == |b|
    ensures |Encode(n, a)| == |Encode(n, b)|
    ensures Encode(n, a) == Encode(n, b) ==> a == b
    decreases |a|
  {
    if a == [] {
    } else {
      EncodeInjective(n, low, a[1..], b[1..]);
      WindowInjective(n, low, a[0], b[0]);
      SameConcat(LittleEndian(n, a[0]), Encode(n, a[1..]), LittleEndian(n, b[0]), Encode(n, b[1..]));
      assert a == [a[0]] + a[1..] && b == [b[0]] + b[1..];
    }
  }

  lemma {:induction false} EncodeConcat(n: nat, a: seq<int>, b: seq<int>)
    ensures Encode(n, a + b) == Encode(n, a) + Encode(n, b)
    decreases |a|
  {
    if a == [] {
      assert a + b == b;
    } else {
      EncodeConcat(n, a[1..], b);
      assert (a + b)[0] == a[0] && (a + b)[1..] == a[1..] + b;
      Associative(LittleEndian(n, a[0]), Encode(n, a[1..]), Encode(n, b));
    }
  }

  lemma EncodeAppend(n: nat, values: seq<int>, v: int)
    ensures Encode(n, values + [v]) == Encode(n, values) + LittleEndian(n, v)
  {
    EncodeConcat(n, values, [v]);
    assert Encode(n, [v]) == LittleEndian(n, v) + Encode(n, []);
  }

  // ---------------------------------------------------------------- hexadecimal

  function HexDigit(d: nat): char
    requires d < 16
  {
    "0123456789abcdef"[d]
  }

  function HexValue(c: char): (r: Result<nat>)
    ensures r.Ok? ==> r.value < 16
  {
    if '0' <= c <= '9' then Ok(c as int - '0' as int)
    else if 'a' <= c <= 'f' then Ok(c as int - 'a' as int + 10)
    else if 'A' <= c <= 'F' then Ok(c as int - 'A' as int + 10)
    else Err
  }

  function Hex(d: Digest): string {
    if d == [] then "" else [HexDigit(d[0] / 16), HexDigit(d[0] % 16)] + Hex(d[1..])
  }

  function Unhex(s: string): Result<Digest> {
    if s == "" then Ok([])
    else if |s| == 1 then Err
    else
      var high, low, rest := HexValue(s[0]), HexValue(s[1]), Unhex(s[2..]);
      if high.Ok? && low.Ok? && rest.Ok? then Ok([16 * high.value + low.value] + rest.value) else Err
  }

  lemma HexDigitRoundTrip(d: nat)
    requires d < 16
    ensures HexValue(HexDigit(d)) == Ok(d)
  {
  }

  lemma HexByte(b: Byte)
    ensures HexValue(HexDigit(b / 16)) == Ok(b / 16) && HexValue(HexDigit(b % 16)) == Ok(b % 16)
    ensures 16 * (b / 16) + b % 16 == b
  {
    HexDigitRoundTrip(b / 16);
    HexDigitRoundTrip(b % 16);
  }

  /** The two digits of a byte in front of a hexadecimal string put that byte in front of what it stands for. */
  lemma UnhexByte(b: Byte, rest: string, bytes: Digest)
    requires Unhex(rest) == Ok(bytes)
    ensures Unhex([HexDigit(b / 16), HexDigit(b % 16)] + rest) == Ok([b] + bytes)
  {
    HexByte(b);
    var s := [HexDigit(b / 16), HexDigit(b % 16)] + rest;
    assert s[0] == HexDigit(b / 16) && s[1] == HexDigit(b % 16) && s[2..] == rest;
  }

  lemma {:induction false} HexRoundTrip(d: Digest)
    ensures Unhex(Hex(d)) == Ok(d) && |Hex(d)| == 2 * |d|
    decreases |d|
  {
    if d == [] {
    } else {
      HexRoundTrip(d[1..]);
      UnhexByte(d[0], Hex(d[1..]), d[1..]);
      assert [d[0]] + d[1..] == d;
    }
  }

  // ---------------------------------------------------------------- blocks

  /** Where block i starts: i times the block size. */
  function Start(chunk: nat, i: nat): nat {
    if i == 0 then 0 else Start(chunk, i - 1) + chunk
  }

  lemma {:induction false} StartIsProduct(chunk: nat, i: nat)
    ensures Start(chunk, i) == i * chunk
    decreases i
  {
    if i == 0 {
    } else {
      StartIsProduct(chunk, i - 1);
      assert i * chunk == (i - 1) * chunk + chunk;
    }
  }

  lemma {:induction false} StartGrows(chunk: nat, i: nat, j: nat)
    requires i <= j
    ensures Start(chunk, i) <= Start(chunk, j) && (i < j ==> Start(chunk, i) + chunk <= Start(chunk, j))
    decreases j - i
  {
    if i < j {
      StartGrows(chunk, i, j - 1);
    }
  }

  /** Block i of the prompt; the last one may be shorter. */
  function Block(tokens: seq<int>, chunk: nat, i: nat): seq<int>
    requires Start(chunk, i) <= |tokens|
  {
    var start := Start(chunk, i);
    if start + chunk <= |tokens| then tokens[start..start + chunk] else tokens[start..]
  }

  /** How many full blocks fit. */
  function FullBlocks(length: nat, chunk: nat): (n: nat)
    requires chunk > 0
    ensures Start(chunk, n) <= length < Start(chunk, n) + chunk
    decreases length
  {
    if length < chunk then 0
    else
      var n := FullBlocks(length - chunk, chunk);
      StartShift(chunk, n);
      n + 1
  }

  lemma {:induction false} StartShift(chunk: nat, n: nat)
    ensures Start(chunk, n + 1) == chunk + Start(chunk, n)
    decreases n
  {
    if n == 0 {
    } else {
      StartShift(chunk, n - 1);
    }
  }

  lemma {:induction false} FullBlocksUnique(length: nat, chunk: nat, n: nat)
    requires chunk > 0 && Start(chunk, n) <= length < Start(chunk, n) + chunk
    ensures FullBlocks(length, chunk) == n
  {
    var m := FullBlocks(length, chunk);
    if m < n {
      StartGrows(chunk, m, n);
    } else if n < m {
      StartGrows(chunk, n, m);
    }
  }

  /** Division computes it, and the remainder says whether anything is left over. */
  method Divide(length: nat, chunk: nat) returns (full: nat, remainder: nat)
    requires chunk > 0
    ensures full == FullBlocks(length, chunk) && (remainder > 0 <==> Start(chunk, full) < length)
  {
    full, remainder := length / chunk, length % chunk;
    StartIsProduct(chunk, full);
    assert length == full * chunk + remainder;
    FullBlocksUnique(length, chunk, full);
  }

  /** The first n blocks of a prompt. */
  function Blocks(tokens: seq<int>, chunk: nat, n: nat): seq<seq<int>>
    requires n > 0 ==> Start(chunk, n - 1) <= |tokens|
  {
    if n == 0 then [] else Blocks(tokens, chunk, n - 1) + [Block(tokens, chunk, n - 1)]
  }

  lemma {:induction false} BlocksAreFull(tokens: seq<int>, chunk: nat, n: nat)
    requires Start(chunk, n) <= |tokens|
    ensures |Blocks(tokens, chunk, n)| == n
    ensures forall i :: 0 <= i < n ==> |Blocks(tokens, chunk, n)[i]| == chunk
    decreases n
  {
    if n == 0 {
    } else {
      BlocksAreFull(tokens, chunk, n - 1);
    }
  }

  /** Prompts have the same first n full blocks iff they agree on the tokens in them. */
  lemma {:induction false} SameBlocksIff(a: seq<int>, b: seq<int>, chunk: nat, n: nat)
    requires Start(chunk, n) <= |a| && Start(chunk, n) <= |b|
    ensures Blocks(a, chunk, n) == Blocks(b, chunk, n) <==> a[..Start(chunk, n)] == b[..Start(chunk, n)]
    decreases n
  {
    if n == 0 {
    } else {
      SameBlocksIff(a, b, chunk, n - 1);
      SameFront(a, b, Start(chunk, n - 1), Start(chunk, n));
      BlocksAreFull(a, chunk, n - 1);
      BlocksAreFull(b, chunk, n - 1);
      SameAppended(Blocks(a, chunk, n - 1), Block(a, chunk, n - 1), Blocks(b, chunk, n - 1), Block(b, chunk, n - 1));
    }
  }

  lemma SameFront(a: seq<int>, b: seq<int>, i: nat, j: nat)
    requires i <= j <= |a| && j <= |b|
    ensures a[..j] == b[..j] <==> a[..i] == b[..i] && a[i..j] == b[i..j]
  {
    assert a[..j] == a[..i] + a[i..j] && b[..j] == b[..i] + b[i..j];
    if a[..j] == b[..j] {
      assert a[..i] == a[..j][..i] == b[..j][..i] == b[..i];
      assert a[i..j] == a[..j][i..] == b[..j][i..] == b[i..j];
    }
  }

  lemma SameAppended<T>(a: seq<T>, x: T, b: seq<T>, y: T)
    requires |a| == |b|
    ensures a + [x] == b + [y] <==> a == b && x == y
  {
    if a + [x] == b + [y] {
      assert a == (a + [x])[..|a|] == (b + [y])[..|b|] == b;
      assert x == (a + [x])[|a|] == (b + [y])[|b|] == y;
    }
  }
}
