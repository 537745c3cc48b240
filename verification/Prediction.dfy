/**
 Two loops that predict prefill progress. The first adds up the latency of a prompt that is computed in
 chunks; the second guesses how much of a backlog was computed since the last status report.
 */
module Prediction {
  import opened Arithmetic
  import opened Wrappers

  // ---------------------------------------------------------------- latency of a chunked prefill

  function Min(a: int, b: int): int {
    if a < b then a else b
  }

  /** Latency of n tokens in chunks of at most m, with a decode step beside every chunk. */
  function ChunkLatency(n: int, m: nat, latency: int -> real, decode: real): real
    requires m > 0
    decreases if n > 0 then n else 0
  {
    if n <= 0 then 0.0 else latency(Min(n, m)) + decode + ChunkLatency(n - Min(n, m), m, latency, decode)
  }

  function ChunkSteps(n: int, m: nat): nat
    requires m > 0
    decreases if n > 0 then n else 0
  {
    if n <= 0 then 0 else 1 + ChunkSteps(n - Min(n, m), m)
  }

  /** Some chunk that will be asked about has no prediction. */
  predicate AnyMissing(n: int, m: nat, predict: int -> Option<real>)
    requires m > 0
    decreases if n > 0 then n else 0
  {
    n > 0 && (predict(Min(n, m)).None? || AnyMissing(n - Min(n, m), m, predict))
  }

  function Known(predict: int -> Option<real>): int -> real {
    (k: int) => if predict(k).Some? then predict(k).value else 0.0
  }

  /** The loop of the predictor. With tokens to compute, a batch limit that is not positive would never end. */
  method PredictTtftLatencyByChunkPrefill(tokens: int, decode: Option<real>, m: int, predict: int -> Option<real>)
    returns (total: Option<real>, steps: nat)
    requires decode.Some? && tokens > 0 ==> m > 0
    ensures m <= 0 ==> total == (if decode.None? then None else Some(0.0)) && steps == 0
    ensures m > 0 ==> (total.None? <==> decode.None? || AnyMissing(tokens, m, predict))
    ensures m > 0 && total.Some? ==>
              total.value == ChunkLatency(tokens, m, Known(predict), decode.value) && steps == ChunkSteps(tokens, m)
  {
    steps := 0;
    if decode.None? {
      return None, 0;
    }
    var remaining, sum := tokens, 0.0;
    while remaining > 0
      invariant m <= 0 ==> remaining <= 0 && sum == 0.0 && steps == 0
      invariant m > 0 ==>
                  && sum + ChunkLatency(remaining, m, Known(predict), decode.value)
                     == ChunkLatency(tokens, m, Known(predict), decode.value)
                  && steps + ChunkSteps(remaining, m) == ChunkSteps(tokens, m)
                  && (AnyMissing(remaining, m, predict) <==> AnyMissing(tokens, m, predict))
      decreases remaining
    {
      var chunk := Min(remaining, m);
      var step := predict(chunk);
      if step.None? {
        return None, steps;
      }
      remaining := remaining - chunk;
      steps := steps + 1;
      sum := sum + step.value + decode.value;
    }
    total := Some(sum);
  }

  /** n tokens in full chunks of m and a rest take one step each. */
  lemma {:induction false} ClosedSteps(n: nat, q: nat, r: nat, m: nat)
    requires m > 0 && r < m && n == q * m + r
    ensures ChunkSteps(n, m) == q + if r > 0 then 1 else 0
    decreases q
  {
    if q == 0 {
    } else {
      OneChunkLess(n, q, r, m);
      ClosedSteps(n - m, q - 1, r, m);
    }
  }

  lemma OneChunkLess(n: nat, q: nat, r: nat, m: nat)
    requires m > 0 && q > 0 && n == q * m + r
    ensures n >= m && n - m == (q - 1) * m + r
  {
    assert q * m == (q - 1) * m + m && (q - 1) * m >= 0;
  }

  /** The same for the latency; `full` is that of a full chunk. */
  lemma {:induction false} ClosedLatency(n: nat, q: nat, r: nat, m: nat, latency: int -> real, decode: real, full: real)
    requires m > 0 && r < m && n == q * m + r && full == latency(m) + decode
    ensures ChunkLatency(n, m, latency, decode) == Repeated(q, full) + if r > 0 then latency(r) + decode else 0.0
    decreases q
  {
    if q == 0 {
      assert ChunkLatency(0, m, latency, decode) == 0.0;
    } else {
      OneChunkLess(n, q, r, m);
      ClosedLatency(n - m, q - 1, r, m, latency, decode, full);
    }
  }

  /** q times x, by addition. */
  function Repeated(q: nat, x: real): real {
    if q == 0 then 0.0 else x + Repeated(q - 1, x)
  }

  function Product(q: nat, x: real): real {
    q as real * x
  }

  lemma {:induction false} RepeatedIsProduct(q: nat, x: real)
    ensures Repeated(q, x) == Product(q, x)
    decreases q
  {
    if q == 0 {
    } else {
      RepeatedIsProduct(q - 1, x);
      assert q as real * x == (q - 1) as real * x + x;
    }
  }

  lemma CeilDiv(n: nat, q: nat, r: nat, m: nat)
    requires r < m && n == q * m + r
    ensures (n + m - 1) / m == q + if r > 0 then 1 else 0
  {
    if r > 0 {
      assert n + m - 1 == (q + 1) * m + (r - 1);
      Euclidean(n + m - 1, q + 1, r - 1, m);
    } else {
      Euclidean(n + m - 1, q, m - 1, m);
    }
  }

  lemma Divided(n: nat, m: nat) returns (q: nat, r: nat)
    requires m > 0
    ensures q == n / m && r == n % m && r < m && n == q * m + r
  {
    q, r := n / m, n % m;
  }

  /** The loop takes ceil(n/m) steps. */
  lemma StepsInClosedForm(n: nat, m: nat)
    requires m > 0
    ensures ChunkSteps(n, m) == (n + m - 1) / m
  {
    var q, r := Divided(n, m);
    ClosedSteps(n, q, r, m);
    CeilDiv(n, q, r, m);
  }

  /** Latency of `q` full chunks and a rest of `r` tokens. */
  function ClosedSum(q: nat, r: nat, m: nat, latency: int -> real, decode: real): real {
    Product(q, latency(m) + decode) + if r > 0 then latency(r) + decode else 0.0
  }

  lemma SumIs(n: nat, q: nat, r: nat, m: nat, latency: int -> real, decode: real)
    requires r < m && n == q * m + r
    ensures ChunkLatency(n, m, latency, decode) == ClosedSum(q, r, m, latency, decode)
  {
    var full := latency(m) + decode;
    ClosedLatency(n, q, r, m, latency, decode, full);
    RepeatedIsProduct(q, full);
  }

  lemma SumInClosedForm(n: nat, m: nat, latency: int -> real, decode: real)
    requires m > 0
    ensures ChunkLatency(n, m, latency, decode) == ClosedSum(n / m, n % m, m, latency, decode)
  {
    var q, r := Divided(n, m);
    SumIs(n, q, r, m, latency, decode);
  }

  /** The loop takes ceil(n/m) steps, and its sum is that of n/m full chunks and the rest. */
  lemma StepsAndSum(n: nat, m: nat, latency: int -> real, decode: real)
    requires m > 0
    ensures ChunkSteps(n, m) == (n + m - 1) / m
    ensures ChunkLatency(n, m, latency, decode) == ClosedSum(n / m, n % m, m, latency, decode)
  {
    StepsInClosedForm(n, m);
    SumInClosedForm(n, m, latency, decode);
  }

  ghost predicate Monotone(latency: int -> real) {
    (forall a: int, b: int :: a <= b ==> latency(a) <= latency(b)) && forall a: int :: latency(a) >= 0.0
  }

  lemma {:induction false} LatencyNonNegative(n: int, m: nat, latency: int -> real, decode: real)
    requires m > 0 && Monotone(latency) && decode >= 0.0
    ensures ChunkLatency(n, m, latency, decode) >= 0.0
    decreases if n > 0 then n else 0
  {
    if n > 0 {
      LatencyNonNegative(n - Min(n, m), m, latency, decode);
    }
  }

  /** More tokens never take less time, for a monotone non-negative predictor. */
  lemma {:induction false} LatencyMonotone(a: int, b: int, m: nat, latency: int -> real, decode: real)
    requires a <= b && m > 0 && Monotone(latency) && decode >= 0.0
    ensures ChunkLatency(a, m, latency, decode) <= ChunkLatency(b, m, latency, decode)
    decreases if b > 0 then b else 0
  {
    if a <= 0 {
      LatencyNonNegative(b, m, latency, decode);
    } else {
      assert latency(Min(a, m)) <= latency(Min(b, m));
      LatencyMonotone(a - Min(a, m), b - Min(b, m), m, latency, decode);
    }
  }

  // ---------------------------------------------------------------- progress since the last report

  const MIN_STEP_MS: real := 0.001
  const MAX_STEP_MS: real := 1000000.0

  /** A usable step duration. */
  predicate ValidStep(step: Option<real>) {
    step.Some? && MIN_STEP_MS <= step.value <= MAX_STEP_MS
  }

  function Round(x: real): int {
    if x >= 0.0 then (x + 0.5).Floor else -((-x + 0.5).Floor)
  }

  /** The part of a batch that fits into the time, rounded. */
  function Share(batch: int, elapsed: real, step: real): int
    requires step > 0.0
  {
    Round(batch as real * elapsed / step)
  }

  /** How the loop stopped. */
  datatype Stop = TimeUp | BacklogDone | PartStep | BadStep

  /** Steps that certainly fit into the time. */
  function StepsLeft(elapsed: real): nat {
    if elapsed <= 0.0 then 0 else (elapsed * 1000.0).Floor + 1
  }

  lemma StepsShrink(elapsed: real, step: real)
    requires elapsed > 0.0 && MIN_STEP_MS <= step <= elapsed
    ensures StepsLeft(elapsed - step) < StepsLeft(elapsed)
  {
    assert (elapsed - step) * 1000.0 <= elapsed * 1000.0 - 1.0;
  }

  /** Tokens counted as computed and backlog left when the loop stops. */
  datatype Progress = Progress(stop: Stop, computed: int, left: int)

  function Batch(backlog: int, running: int, m: int): int {
    if 0 < running < m then running else Min(backlog, m)
  }

  function Simulate(elapsed: real, backlog: int, running: int, m: int, predict: int -> Option<real>,
                    computed: int): Progress
    decreases StepsLeft(elapsed)
  {
    if backlog <= 0 then Progress(BacklogDone, computed, backlog)
    else if elapsed <= 0.0 then Progress(TimeUp, computed, backlog)
    else
      var batch := Batch(backlog, running, m);
      var step := predict(batch);
      if !ValidStep(step) then Progress(BadStep, 0, backlog)
      else if elapsed >= step.value then
        StepsShrink(elapsed, step.value);
        Simulate(elapsed - step.value, backlog - batch, if 0 < running < m then 0 else running, m, predict,
                 computed + batch)
      else Progress(PartStep, computed + Share(batch, elapsed, step.value), 0)
  }

  /** What is written to the scheduling context: the count, cut down to the backlog that is left. */
  function Reported(p: Progress): int {
    if p.computed > p.left then p.left else p.computed
  }

  function Outcome(elapsed: real, backlog: int, running: int, m: int, predict: int -> Option<real>,
                   computed: int): int {
    Reported(Simulate(elapsed, backlog, running, m, predict, computed))
  }

  lemma FullStep(elapsed: real, backlog: int, running: int, m: int, predict: int -> Option<real>, computed: int)
    requires elapsed > 0.0 && backlog > 0
    requires var step := predict(Batch(backlog, running, m)); ValidStep(step) && elapsed >= step.value
    ensures var batch := Batch(backlog, running, m);
            var step := predict(batch).value;
            && StepsLeft(elapsed - step) < StepsLeft(elapsed)
            && Outcome(elapsed, backlog, running, m, predict, computed)
               == Outcome(elapsed - step, backlog - batch, if 0 < running < m then 0 else running, m, predict,
                          computed + batch)
  {
    StepsShrink(elapsed, predict(Batch(backlog, running, m)).value);
  }

  lemma LastStep(elapsed: real, backlog: int, running: int, m: int, predict: int -> Option<real>, computed: int)
    requires elapsed > 0.0 && backlog > 0
    requires var step := predict(Batch(backlog, running, m)); ValidStep(step) && elapsed < step.value
    ensures var batch := Batch(backlog, running, m);
            var total := computed + Share(batch, elapsed, predict(batch).value);
            && StepsLeft(0.0) < StepsLeft(elapsed)
            && Outcome(elapsed, backlog, running, m, predict, computed)
               == Outcome(0.0, 0, if 0 < running < m then 0 else running, m, predict, total)
  {
  }

  lemma InvalidStep(elapsed: real, backlog: int, running: int, m: int, predict: int -> Option<real>, computed: int)
    requires elapsed > 0.0 && backlog > 0 && !ValidStep(predict(Batch(backlog, running, m)))
    ensures Outcome(elapsed, backlog, running, m, predict, computed) == 0
  {
  }

  lemma Stopped(elapsed: real, backlog: int, running: int, m: int, predict: int -> Option<real>, computed: int)
    requires elapsed <= 0.0 || backlog <= 0
    ensures Outcome(elapsed, backlog, running, m, predict, computed) == if computed > backlog then backlog else computed
  {
  }

  method PredictNumComputed(elapsedMs: real, backlog: int, running: int, m: int, predict: int -> Option<real>)
    returns (result: int)
    ensures result == if elapsedMs <= 0.0 then 0 else Outcome(elapsedMs, backlog, running, m, predict, 0)
  {
    if elapsedMs <= 0.0 {
      return 0;
    }
    var elapsed, uncomputed, runningLeft, total := elapsedMs, backlog, running, 0;
    ghost var target := Outcome(elapsedMs, backlog, running, m, predict, 0);
    while elapsed > 0.0 && uncomputed > 0
      invariant Outcome(elapsed, uncomputed, runningLeft, m, predict, total) == target
      decreases StepsLeft(elapsed)
    {
      var batch := 0;
      ghost var runningBefore := runningLeft;
      if runningLeft > 0 && runningLeft < m {
        batch, runningLeft := runningLeft, 0;
      } else {
        batch := Min(uncomputed, m);
      }
      assert batch == Batch(uncomputed, runningBefore, m);
      var step := predict(batch);
      if !ValidStep(step) {
        InvalidStep(elapsed, uncomputed, runningBefore, m, predict, total);
        return 0;
      }
      if elapsed >= step.value {
        FullStep(elapsed, uncomputed, runningBefore, m, predict, total);
        total := total + batch;
        elapsed := elapsed - step.value;
        uncomputed := uncomputed - batch;
      } else {
        LastStep(elapsed, uncomputed, runningBefore, m, predict, total);
        total := total + Share(batch, elapsed, step.value);
        elapsed := 0.0;
        uncomputed := 0;
      }
    }
    Stopped(elapsed, uncomputed, runningLeft, m, predict, total);
    result := total;
    if total > uncomputed {
      result := uncomputed;
    }
  }

  /** Counted and left over add up to the backlog after every full step. */
  lemma {:induction false} BacklogIsConserved(elapsed: real, backlog: int, running: int, m: int,
                                              predict: int -> Option<real>, computed: int)
    ensures var p := Simulate(elapsed, backlog, running, m, predict, computed);
            && (p.stop == TimeUp || p.stop == BacklogDone ==> p.computed + p.left == computed + backlog)
            && (p.stop == TimeUp ==> p.left > 0) && (p.stop == BacklogDone ==> p.left <= 0)
            && (p.stop == PartStep ==> p.left == 0) && (p.stop == BadStep ==> p.computed == 0 && p.left > 0)
    decreases StepsLeft(elapsed)
  {
    if backlog > 0 && elapsed > 0.0 {
      var batch := Batch(backlog, running, m);
      var step := predict(batch);
      if ValidStep(step) && elapsed >= step.value {
        StepsShrink(elapsed, step.value);
        BacklogIsConserved(elapsed - step.value, backlog - batch, if 0 < running < m then 0 else running, m, predict,
                           computed + batch);
      }
    }
  }

  /** The count is compared with the backlog that is left, not with the one at the start. */
  lemma ReportedByStop(elapsed: real, backlog: int, running: int, m: int, predict: int -> Option<real>)
    requires elapsed > 0.0 && backlog > 0
    ensures var p := Simulate(elapsed, backlog, running, m, predict, 0);
            && (Reported(p) > 0 <==> p.stop == TimeUp && p.computed > 0)
            && (p.stop == TimeUp ==> Reported(p) == Min(p.computed, backlog - p.computed))
  {
    BacklogIsConserved(elapsed, backlog, running, m, predict, 0);
  }

  /** The time is exactly that of `k` full batches, and these do not exhaust the backlog. */
  ghost predicate EndsAfter(elapsed: real, backlog: int, m: int, predict: int -> Option<real>, k: nat) {
    && k * m < backlog
    && if k == 0 then elapsed == 0.0 else ValidStep(predict(m)) && elapsed == k as real * predict(m).value
  }

  lemma OneBatchLess(elapsed: real, backlog: int, m: int, predict: int -> Option<real>, k: nat)
    requires k > 0 && m > 0 && EndsAfter(elapsed, backlog, m, predict, k)
    ensures elapsed >= predict(m).value && backlog > m
    ensures EndsAfter(elapsed - predict(m).value, backlog - m, m, predict, k - 1)
  {
    var v := predict(m).value;
    assert k as real * v == (k - 1) as real * v + v && (k - 1) as real * v >= 0.0;
    assert k * m == (k - 1) * m + m && (k - 1) * m >= 0;
  }

  lemma OneBatchMore(elapsed: real, backlog: int, m: int, predict: int -> Option<real>, k: nat)
    requires ValidStep(predict(m)) && EndsAfter(elapsed - predict(m).value, backlog - m, m, predict, k)
    ensures EndsAfter(elapsed, backlog, m, predict, k + 1)
  {
    var v := predict(m).value;
    assert (k + 1) as real * v == k as real * v + v;
    assert (k + 1) * m == k * m + m;
  }

  lemma {:induction false} EndsAtStep(elapsed: real, backlog: int, running: int, m: int, predict: int -> Option<real>,
                                      computed: int, k: nat)
    requires m > 0 && !(0 < running < m) && EndsAfter(elapsed, backlog, m, predict, k)
    ensures Simulate(elapsed, backlog, running, m, predict, computed)
            == Progress(TimeUp, computed + k * m, backlog - k * m)
    decreases k
  {
    if k == 0 {
    } else {
      OneBatchLess(elapsed, backlog, m, predict, k);
      StepsShrink(elapsed, predict(m).value);
      EndsAtStep(elapsed - predict(m).value, backlog - m, running, m, predict, computed + m, k - 1);
      assert k * m == (k - 1) * m + m;
    }
  }

  lemma {:induction false} TimeUpEnds(elapsed: real, backlog: int, running: int, m: int, predict: int -> Option<real>,
                                      computed: int) returns (k: nat)
    requires m > 0 && !(0 < running < m) && elapsed >= 0.0
    requires Simulate(elapsed, backlog, running, m, predict, computed).stop == TimeUp
    ensures EndsAfter(elapsed, backlog, m, predict, k)
    decreases StepsLeft(elapsed)
  {
    k := 0;
    if elapsed > 0.0 {
      var batch := Batch(backlog, running, m);
      StepsShrink(elapsed, predict(batch).value);
      k := TimeUpEnds(elapsed - predict(batch).value, backlog - batch, running, m, predict, computed + batch);
      assert k * m >= 0;
      assert batch == m;
      OneBatchMore(elapsed, backlog, m, predict, k);
      k := k + 1;
    }
  }

  /** With a batch limit that is not positive nothing is ever counted. */
  lemma {:induction false} NothingCounted(elapsed: real, backlog: int, running: int, m: int,
                                          predict: int -> Option<real>,
                                          computed: int)
    requires m <= 0
    ensures var p := Simulate(elapsed, backlog, running, m, predict, computed);
            p.stop == TimeUp ==> p.computed <= computed
    decreases StepsLeft(elapsed)
  {
    if backlog <= 0 || elapsed <= 0.0 {
    } else {
      var step := predict(Batch(backlog, running, m));
      if ValidStep(step) && elapsed >= step.value {
        StepsShrink(elapsed, step.value);
        NothingCounted(elapsed - step.value, backlog - m, running, m, predict, computed + m);
      }
    }
  }

  /** The time ends exactly with a batch, `total` tokens are computed by then, and some backlog is left. */
  ghost predicate EndsWith(elapsed: real, backlog: int, running: int, m: int, predict: int -> Option<real>,
                           total: int) {
    if 0 < running < m then
      && ValidStep(predict(running))
      && exists k: nat ::
          EndsAfter(elapsed - predict(running).value, backlog - running, m, predict, k) && total == running + k * m
    else
      m > 0 && exists k: nat :: EndsAfter(elapsed, backlog, m, predict, k) && total == k * m
  }

  lemma EndsNonNegative(elapsed: real, backlog: int, m: int, predict: int -> Option<real>, k: nat)
    requires m > 0 && EndsAfter(elapsed, backlog, m, predict, k)
    ensures elapsed >= 0.0 && k * m >= 0 && (k > 0 ==> k * m > 0) && (elapsed > 0.0 ==> k > 0)
  {
    if k > 0 {
      assert k as real * predict(m).value >= 0.0;
      assert k * m >= m;
    }
  }

  lemma EndsAsCounted(elapsed: real, backlog: int, running: int, m: int, predict: int -> Option<real>, total: int)
    requires elapsed > 0.0 && backlog > 0 && EndsWith(elapsed, backlog, running, m, predict, total)
    ensures Simulate(elapsed, backlog, running, m, predict, 0) == Progress(TimeUp, total, backlog - total) && total > 0
  {
    if 0 < running < m {
      var step := predict(running).value;
      var k: nat :| EndsAfter(elapsed - step, backlog - running, m, predict, k) && total == running + k * m;
      EndsNonNegative(elapsed - step, backlog - running, m, predict, k);
      StepsShrink(elapsed, step);
      EndsAtStep(elapsed - step, backlog - running, 0, m, predict, running, k);
    } else {
      var k: nat :| EndsAfter(elapsed, backlog, m, predict, k) && total == k * m;
      EndsNonNegative(elapsed, backlog, m, predict, k);
      EndsAtStep(elapsed, backlog, running, m, predict, 0, k);
    }
  }

  lemma CountedEnds(elapsed: real, backlog: int, running: int, m: int, predict: int -> Option<real>)
    requires elapsed > 0.0 && backlog > 0
    requires var p := Simulate(elapsed, backlog, running, m, predict, 0); p.stop == TimeUp && p.computed > 0
    ensures exists total :: EndsWith(elapsed, backlog, running, m, predict, total)
  {
    if m <= 0 {
      NothingCounted(elapsed, backlog, running, m, predict, 0);
    } else if 0 < running < m {
      var step := predict(running).value;
      StepsShrink(elapsed, step);
      var k := TimeUpEnds(elapsed - step, backlog - running, 0, m, predict, running);
      assert EndsWith(elapsed, backlog, running, m, predict, running + k * m);
    } else {
      var k := TimeUpEnds(elapsed, backlog, running, m, predict, 0);
      assert EndsWith(elapsed, backlog, running, m, predict, k * m);
    }
  }

  /**
   When the prediction reports progress at all: iff the elapsed time is exactly that of the running batch and
   some number of full batches, and these leave some of the backlog.  Then `total` tokens were computed, and
   they are reported in full iff they are at most half of the backlog.
   */
  lemma ReportedIff(elapsed: real, backlog: int, running: int, m: int, predict: int -> Option<real>)
    requires elapsed > 0.0 && backlog > 0
    ensures Outcome(elapsed, backlog, running, m, predict, 0) > 0
            <==> exists total :: EndsWith(elapsed, backlog, running, m, predict, total)
    ensures forall total :: EndsWith(elapsed, backlog, running, m, predict, total) ==>
              && Outcome(elapsed, backlog, running, m, predict, 0) == Min(total, backlog - total)
              && (Outcome(elapsed, backlog, running, m, predict, 0) == total <==> 2 * total <= backlog)
  {
    ReportedByStop(elapsed, backlog, running, m, predict);
    forall total | EndsWith(elapsed, backlog, running, m, predict, total)
      ensures Simulate(elapsed, backlog, running, m, predict, 0) == Progress(TimeUp, total, backlog - total)
      ensures total > 0
    {
      EndsAsCounted(elapsed, backlog, running, m, predict, total);
    }
    if Outcome(elapsed, backlog, running, m, predict, 0) > 0 {
      CountedEnds(elapsed, backlog, running, m, predict);
    }
  }

  lemma ShareNonNegative(batch: int, elapsed: real, step: real)
    requires batch >= 0 && elapsed >= 0.0 && step > 0.0
    ensures Share(batch, elapsed, step) >= 0
  {
    assert batch as real * elapsed >= 0.0;
    assert batch as real * elapsed / step >= 0.0;
  }

  /** Without a running batch the loop never computes more than the backlog. */
  lemma {:induction false} NoOvershoot(elapsed: real, backlog: int, running: int, m: int, predict: int -> Option<real>,
                                       computed: int)
    requires m > 0 && !(0 < running < m) && backlog >= 0 && computed >= 0
    ensures var p := Simulate(elapsed, backlog, running, m, predict, computed); p.left >= 0 && p.computed >= 0
    decreases StepsLeft(elapsed)
  {
    if backlog == 0 || elapsed <= 0.0 {
    } else {
      var batch := Min(backlog, m);
      var step := predict(batch);
      if !ValidStep(step) {
      } else if elapsed >= step.value {
        StepsShrink(elapsed, step.value);
        NoOvershoot(elapsed - step.value, backlog - batch, running, m, predict, computed + batch);
      } else {
        ShareNonNegative(batch, elapsed, step.value);
      }
    }
  }

  /**
   When the prediction reports a negative count: iff the first batch is the one said to be running, that batch is
   larger than the whole backlog, and it fits into the time.
   */
  lemma ReportedNegativeIff(elapsed: real, backlog: int, running: int, m: int, predict: int -> Option<real>)
    requires m > 0 && elapsed > 0.0 && backlog > 0
    ensures Outcome(elapsed, backlog, running, m, predict, 0) < 0
       <==> backlog < running < m && ValidStep(predict(running)) && elapsed >= predict(running).value
  {
    if 0 < running < m {
      RunningOvershootsIff(elapsed, backlog, running, m, predict);
    } else {
      NoOvershoot(elapsed, backlog, running, m, predict, 0);
    }
  }

  lemma RunningOvershootsIff(elapsed: real, backlog: int, running: int, m: int, predict: int -> Option<real>)
    requires 0 < running < m && elapsed > 0.0 && backlog > 0
    ensures Outcome(elapsed, backlog, running, m, predict, 0) < 0
       <==> backlog < running && ValidStep(predict(running)) && elapsed >= predict(running).value
  {
    var step := predict(running);
    if !ValidStep(step) {
    } else if elapsed < step.value {
      ShareNonNegative(running, elapsed, step.value);
    } else {
      FullStep(elapsed, backlog, running, m, predict, 0);
      if backlog >= running {
        NoOvershoot(elapsed - step.value, backlog - running, 0, m, predict, running);
      }
    }
  }

  /** A backlog that fits into one batch is never reported as progress, however much time has passed. */
  lemma OneBatchReportsNothing(elapsed: real, backlog: int, m: int, predict: int -> Option<real>)
    requires elapsed > 0.0 && 0 < backlog <= m
    ensures Reported(Simulate(elapsed, backlog, 0, m, predict, 0)) <= 0
    ensures ValidStep(predict(backlog)) && elapsed >= predict(backlog).value ==>
              Simulate(elapsed, backlog, 0, m, predict, 0) == Progress(BacklogDone, backlog, 0)
  {
    var step := predict(backlog);
    assert Batch(backlog, 0, m) == backlog;
    if ValidStep(step) && elapsed >= step.value {
      StepsShrink(elapsed, step.value);
      assert Simulate(elapsed - step.value, 0, 0, m, predict, backlog) == Progress(BacklogDone, backlog, 0);
    }
  }
}
